/**
 * The stand-alone add-task form: its four pieces of state as the fields of a
 * class, and its submit handler as two methods, one before the request is
 * sent and one after it settles, plus the handler that runs both.
 */
module AddTaskForm {
  import opened Common
  import opened JsStrings
  import opened Browser
  import opened Tasks
  import TaskListPage

  const TitleRequired: string := "Title is required"
  const AddFailed: string := "Failed to add task"

  class Form {
    var title: string
    var description: string
    var loading: bool
    var error: Option<string>

    /** The initial `useState` values. */
    constructor ()
      ensures title == "" && description == "" && !loading && error == None
    {
      title, description, loading, error := "", "", false, None;
    }

    /**
     * The synchronous part of `handleSubmit`: a title that is blank once
     * trimmed sets the error and stops; any other title clears the error and
     * sets `loading` before the request. No length limit is checked.
     */
    method Begin() returns (proceed: bool)
      modifies this`error, this`loading
      ensures proceed <==> !IsBlank(title)
      ensures !proceed ==> error == Some(TitleRequired) && loading == old(loading)
      ensures proceed ==> error == None && loading
    {
      if IsBlank(title) {
        error := Some(TitleRequired);
        return false;
      }
      error := None;
      loading := true;
      return true;
    }

    /**
     * The part after `await`: success clears the fields and calls
     * `onTaskAdded` once; failure sets the error and keeps the fields;
     * `finally` clears `loading` either way.
     */
    method Settle(response: Response<()>) returns (onTaskAddedCalls: nat)
      modifies this
      ensures !loading
      ensures response.Ok? ==> title == "" && description == "" && error == old(error) && onTaskAddedCalls == 1
      ensures response.Failed? ==>
        title == old(title) && description == old(description) && error == Some(AddFailed) && onTaskAddedCalls == 0
    {
      onTaskAddedCalls := 0;
      if response.Ok? {
        title, description := "", "";
        onTaskAddedCalls := 1;
      } else {
        error := Some(AddFailed);
      }
      loading := false;
    }

    /**
     * `handleSubmit`: `POST /Task` with the title and description as typed
     * and whatever the `token` key holds (no token check is made).
     */
    method Submit(store: Storage, response: Response<()>) returns (sent: seq<TaskRequest>, onTaskAddedCalls: nat)
      modifies this
      ensures IsBlank(old(title)) ==>
        sent == [] && onTaskAddedCalls == 0 && error == Some(TitleRequired)
        && title == old(title) && description == old(description) && loading == old(loading)
      ensures !IsBlank(old(title)) ==> sent == [PostTask(GetItem(store, TokenKey), old(title), old(description))] && !loading
      ensures !IsBlank(old(title)) && response.Ok? ==>
        title == "" && description == "" && error == None && onTaskAddedCalls == 1
      ensures !IsBlank(old(title)) && response.Failed? ==>
        title == old(title) && description == old(description) && error == Some(AddFailed) && onTaskAddedCalls == 0
    {
      var proceed := Begin();
      if !proceed {
        return [], 0;
      }
      sent := [PostTask(GetItem(store, TokenKey), title, description)];
      onTaskAddedCalls := Settle(response);
    }
  }

  /**
   * The form is laxer than the task list's dialog: every title the dialog
   * accepts passes here, but a one-letter title passes here alone.
   */
  lemma FormAcceptsMoreThanDialog(title: string, description: string)
    ensures TaskListPage.TaskInputError(title, description).None? ==> !IsBlank(title)
    ensures !IsBlank("x") && TaskListPage.TaskInputError("x", "").Some?
  {
    assert !IsSpace("x"[0]);
  }
}
