/**
 * The task list page: its React state as the fields of a class, and its
 * handlers as methods. Each handler is taken as atomic: it receives the
 * settled outcome of its own request and, where it calls `fetchTasks()`
 * afterwards, the outcome of that refetch. It returns the requests it sent
 * and the toasts it raised; `localStorage` is passed in as a value.
 */
module TaskListPage {
  import opened Common
  import opened JsStrings
  import opened Browser
  import opened Tasks
  import opened TaskView

  const TitleTooShort: string := "Title must be at least 3 characters"
  const DescriptionTooLong: string := "Description is too long"
  const MinTitleLength: nat := 3
  const MaxDescriptionLength: nat := 500

  /**
   * The checks `handleAddTask` and `handleUpdateTask` make before anything
   * else, first failure reported: the title must be non-blank once trimmed
   * and at least 3 long as typed (untrimmed), then the description at most
   * 500 long.
   */
  function TaskInputError(title: string, description: string): (r: Option<string>)
    ensures r.None? <==> !IsBlank(title) && JsLength(title) >= MinTitleLength && JsLength(description) <= MaxDescriptionLength
    ensures r == Some(TitleTooShort) <==> IsBlank(title) || JsLength(title) < MinTitleLength
    ensures r == Some(DescriptionTooLong) <==> !IsBlank(title) && JsLength(title) >= MinTitleLength && JsLength(description) > MaxDescriptionLength
  {
    if IsBlank(title) || JsLength(title) < MinTitleLength then Some(TitleTooShort)
    else if JsLength(description) > MaxDescriptionLength then Some(DescriptionTooLong)
    else None
  }

  /** Length is measured before trimming: a padded one-letter title passes. */
  lemma PaddedShortTitlePasses()
    ensures TaskInputError("  a", "") == None
    ensures TaskInputError("Hi", "") == Some(TitleTooShort)
    ensures TaskInputError("   ", "") == Some(TitleTooShort)
  {
    assert !IsSpace("  a"[2]);
    assert IsSpace("   "[0]) && IsSpace("   "[1]) && IsSpace("   "[2]);
  }

  /** `localStorage.getItem('user')?.toString() || 'Unknown User'`: the header's user name. */
  function DisplayName(store: Storage): (r: string)
    ensures r != ""
    ensures GetItem(store, UserKey).Some? && GetItem(store, UserKey).value != "" ==> r == store[UserKey]
    ensures GetItem(store, UserKey).None? || store[UserKey] == "" ==> r == "Unknown User"
  {
    match GetItem(store, UserKey)
    case Some(name) => if name != "" then name else "Unknown User"
    case None => "Unknown User"
  }

  /** `handleLogout`: forget the session and go to `/login`. */
  function Logout(store: Storage): (r: (Storage, string))
    ensures r.1 == "/login"
    ensures !HasToken(r.0) && DisplayName(r.0) == "Unknown User"
    ensures forall key :: key != TokenKey && key != UserKey ==> GetItem(r.0, key) == GetItem(store, key)
  {
    (ClearSession(store), "/login")
  }

  /** The `tasks` state after `fetchTasks` settles: replaced by a successful response, kept otherwise. */
  function FetchedTasks(current: seq<Task>, store: Storage, response: Response<seq<Task>>): (r: seq<Task>)
    ensures HasToken(store) && response.Ok? ==> r == response.data
    ensures !HasToken(store) || response.Failed? ==> r == current
  {
    if HasToken(store) && response.Ok? then response.data else current
  }

  /** The requests `fetchTasks` sends: one `GET /Task`, and only with a token. */
  function FetchRequests(store: Storage): seq<TaskRequest> {
    if HasToken(store) then [GetTasks(GetItem(store, TokenKey))] else []
  }

  /** The toasts `fetchTasks` raises. */
  function FetchToasts(store: Storage, response: Response<seq<Task>>): seq<Toast> {
    if !HasToken(store) then [Error("You must be logged in to view tasks.")]
    else if response.Failed? then [Error("Failed to fetch tasks")]
    else []
  }

  class TaskList {
    var tasks: seq<Task>
    var filterCompleted: StatusFilter
    var sortOrder: SortOrder
    var openDialog: bool
    var title: string
    var description: string
    var openUpdateDialog: bool
    var selectedTask: Option<Task>
    var updateTitle: string
    var updateDescription: string

    /** The initial `useState` values. */
    constructor ()
      ensures tasks == [] && filterCompleted == All && sortOrder == Desc
      ensures !openDialog && title == "" && description == ""
      ensures !openUpdateDialog && selectedTask == None && updateTitle == "" && updateDescription == ""
    {
      tasks, filterCompleted, sortOrder := [], All, Desc;
      openDialog, title, description := false, "", "";
      openUpdateDialog, selectedTask, updateTitle, updateDescription := false, None, "", "";
    }

    /** What the table renders; a function of the state, so rendering changes no state. */
    function Visible(): (r: seq<Task>)
      reads this
      ensures multiset(r) <= multiset(tasks)
      ensures Sorted(sortOrder, r)
    {
      var r := FilteredAndSorted(tasks, filterCompleted, sortOrder);
      assert multiset(r) <= multiset(tasks) by {
        forall t ensures multiset(r)[t] <= multiset(tasks)[t] {
        }
      }
      r
    }

    /**
     * `fetchTasks`: without a token, warn and send nothing; otherwise `GET
     * /Task` and replace the whole list on success, keep it on failure.
     */
    method FetchTasks(store: Storage, response: Response<seq<Task>>) returns (sent: seq<TaskRequest>, toasts: seq<Toast>)
      modifies this`tasks
      ensures tasks == FetchedTasks(old(tasks), store, response)
      ensures sent == FetchRequests(store) && toasts == FetchToasts(store, response)
      ensures !HasToken(store) ==> sent == [] && toasts == [Error("You must be logged in to view tasks.")]
      ensures HasToken(store) ==> sent == [GetTasks(GetItem(store, TokenKey))]
      ensures HasToken(store) && response.Ok? ==> toasts == []
      ensures HasToken(store) && response.Failed? ==> toasts == [Error("Failed to fetch tasks")]
    {
      var token := GetItem(store, TokenKey);
      if !HasToken(store) {
        return [], [Error("You must be logged in to view tasks.")];
      }
      sent := [GetTasks(token)];
      match response
      case Ok(data) =>
        tasks := data;
        toasts := [];
      case Failed(_) =>
        toasts := [Error("Failed to fetch tasks")];
    }

    /** `handleOpenUpdateDialog`: select the task and copy its text into the edit fields. */
    method OpenUpdateDialog(task: Task)
      modifies this`selectedTask, this`updateTitle, this`updateDescription, this`openUpdateDialog
      ensures selectedTask == Some(task) && updateTitle == task.title && updateDescription == task.description
      ensures openUpdateDialog
    {
      selectedTask := Some(task);
      updateTitle := task.title;
      updateDescription := task.description;
      openUpdateDialog := true;
    }

    /**
     * `handleComplete`: `PUT` the task with only `completed` set; no token
     * check is made first. On success, refetch.
     */
    method Complete(taskId: int, task: Task, store: Storage, response: Response<()>, refetch: Response<seq<Task>>)
      returns (sent: seq<TaskRequest>, toasts: seq<Toast>)
      modifies this`tasks
      ensures |sent| >= 1 && sent[0] == PutTask(GetItem(store, TokenKey), taskId, MarkCompleted(task))
      ensures response.Ok? ==> tasks == FetchedTasks(old(tasks), store, refetch)
      ensures response.Ok? ==> sent == [sent[0]] + FetchRequests(store)
      ensures response.Ok? ==> toasts == [Success("Task marked as completed")] + FetchToasts(store, refetch)
      ensures response.Failed? ==> sent == [sent[0]] && tasks == old(tasks) && toasts == [Error("Failed to complete task")]
    {
      sent := [PutTask(GetItem(store, TokenKey), taskId, MarkCompleted(task))];
      if response.Ok? {
        var fetched, notes := FetchTasks(store, refetch);
        sent, toasts := sent + fetched, [Success("Task marked as completed")] + notes;
      } else {
        toasts := [Error("Failed to complete task")];
      }
    }

    /** `handleDelete`: `DELETE /Task/{id}` with no token check first; on success, refetch. */
    method Delete(taskId: int, store: Storage, response: Response<()>, refetch: Response<seq<Task>>)
      returns (sent: seq<TaskRequest>, toasts: seq<Toast>)
      modifies this`tasks
      ensures |sent| >= 1 && sent[0] == DeleteTask(GetItem(store, TokenKey), taskId)
      ensures response.Ok? ==> tasks == FetchedTasks(old(tasks), store, refetch)
      ensures response.Ok? ==> sent == [sent[0]] + FetchRequests(store)
      ensures response.Ok? ==> toasts == [Success("Task deleted successfully")] + FetchToasts(store, refetch)
      ensures response.Failed? ==> sent == [sent[0]] && tasks == old(tasks) && toasts == [Error("Failed to delete task")]
    {
      sent := [DeleteTask(GetItem(store, TokenKey), taskId)];
      if response.Ok? {
        var fetched, notes := FetchTasks(store, refetch);
        sent, toasts := sent + fetched, [Success("Task deleted successfully")] + notes;
      } else {
        toasts := [Error("Failed to delete task")];
      }
    }

    /**
     * `handleUpdateTask`: nothing without a selected task; then the input
     * checks, then the token check; then `PUT` the selected task with only
     * its title and description replaced. Success closes the dialog but
     * keeps the selection, and refetches.
     */
    method UpdateTask(store: Storage, response: Response<()>, refetch: Response<seq<Task>>)
      returns (sent: seq<TaskRequest>, toasts: seq<Toast>)
      modifies this`tasks, this`openUpdateDialog
      ensures selectedTask.None? ==> sent == [] && toasts == [] && unchanged(this)
      ensures selectedTask.Some? && TaskInputError(updateTitle, updateDescription).Some? ==>
        sent == [] && toasts == [Error(TaskInputError(updateTitle, updateDescription).value)] && unchanged(this)
      ensures selectedTask.Some? && TaskInputError(updateTitle, updateDescription).None? && !HasToken(store) ==>
        sent == [] && toasts == [Error("You must be logged in to update a task")] && unchanged(this)
      ensures selectedTask.Some? && TaskInputError(updateTitle, updateDescription).None? && HasToken(store) ==>
        && |sent| >= 1
        && sent[0] == PutTask(GetItem(store, TokenKey), selectedTask.value.id, WithEdits(selectedTask.value, updateTitle, updateDescription))
        && (response.Ok? ==>
              && sent == [sent[0]] + FetchRequests(store)
              && toasts == [Success("Task updated successfully")] + FetchToasts(store, refetch)
              && !openUpdateDialog
              && tasks == FetchedTasks(old(tasks), store, refetch))
        && (response.Failed? ==>
              sent == [sent[0]] && toasts == [Error("Failed to update task")] && unchanged(this))
    {
      if selectedTask.None? {
        return [], [];
      }
      var task := selectedTask.value;
      var err := TaskInputError(updateTitle, updateDescription);
      if err.Some? {
        return [], [Error(err.value)];
      }
      if !HasToken(store) {
        return [], [Error("You must be logged in to update a task")];
      }
      sent := [PutTask(GetItem(store, TokenKey), task.id, WithEdits(task, updateTitle, updateDescription))];
      if response.Ok? {
        openUpdateDialog := false;
        var fetched, notes := FetchTasks(store, refetch);
        sent, toasts := sent + fetched, [Success("Task updated successfully")] + notes;
      } else {
        toasts := [Error("Failed to update task")];
      }
    }

    /**
     * `handleAddTask`: the input checks, then the token check, then `POST
     * /Task` with the title and description as typed. Success clears the
     * form, closes the dialog and refetches; failure keeps the form.
     */
    method AddTask(store: Storage, response: Response<()>, refetch: Response<seq<Task>>)
      returns (sent: seq<TaskRequest>, toasts: seq<Toast>)
      modifies this`tasks, this`title, this`description, this`openDialog
      ensures TaskInputError(old(title), old(description)).Some? ==>
        sent == [] && toasts == [Error(TaskInputError(old(title), old(description)).value)] && unchanged(this)
      ensures TaskInputError(old(title), old(description)).None? && !HasToken(store) ==>
        sent == [] && toasts == [Error("You must be logged in to add a task")] && unchanged(this)
      ensures TaskInputError(old(title), old(description)).None? && HasToken(store) ==>
        && |sent| >= 1
        && sent[0] == PostTask(GetItem(store, TokenKey), old(title), old(description))
        && (response.Ok? ==>
              && sent == [sent[0]] + FetchRequests(store)
              && toasts == [Success("Task added successfully")] + FetchToasts(store, refetch)
              && title == "" && description == "" && !openDialog
              && tasks == FetchedTasks(old(tasks), store, refetch))
        && (response.Failed? ==>
              sent == [sent[0]] && toasts == [Error("Failed to add task")] && unchanged(this))
    {
      var err := TaskInputError(title, description);
      if err.Some? {
        return [], [Error(err.value)];
      }
      if !HasToken(store) {
        return [], [Error("You must be logged in to add a task")];
      }
      sent := [PostTask(GetItem(store, TokenKey), title, description)];
      if response.Ok? {
        title, description, openDialog := "", "", false;
        var fetched, notes := FetchTasks(store, refetch);
        sent, toasts := sent + fetched, [Success("Task added successfully")] + notes;
      } else {
        toasts := [Error("Failed to add task")];
      }
    }
  }

  /**
   * A title or description that breaks the length rules never reaches the
   * network from the add dialog.
   */
  method RejectedInputSendsNothing(page: TaskList, store: Storage, response: Response<()>, refetch: Response<seq<Task>>)
    returns (sent: seq<TaskRequest>)
    requires JsLength(page.title) < MinTitleLength || JsLength(page.description) > MaxDescriptionLength
    modifies page
    ensures sent == [] && page.tasks == old(page.tasks) && page.title == old(page.title)
  {
    var toasts;
    sent, toasts := page.AddTask(store, response, refetch);
  }

  /**
   * Refetch after mutation: once an add succeeds and its refetch succeeds,
   * the list is exactly what the server returned.
   */
  method AddThenRefetchShowsServerList(page: TaskList, store: Storage, data: seq<Task>)
    returns (sent: seq<TaskRequest>)
    requires TaskInputError(page.title, page.description).None? && HasToken(store)
    modifies page
    ensures page.tasks == data && page.title == "" && page.description == "" && !page.openDialog
    ensures |sent| == 2 && sent[1] == GetTasks(GetItem(store, TokenKey))
  {
    var toasts;
    sent, toasts := page.AddTask(store, Ok(()), Ok(data));
  }
}
