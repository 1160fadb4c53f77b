/**
 * The task record the REST API returns, the requests the client sends to the
 * `/Task` endpoints, and the two record rewrites the task list performs
 * before a `PUT`.
 */
module Tasks {
  import opened Common

  datatype Owner = Owner(id: int, email: string, firstName: string, lastName: string)

  /**
   * A task as received from `GET /Task`. `createdAt` is the timestamp the
   * list sorts on, as an integer; `modifiedAt` is only displayed.
   */
  datatype Task = Task(
    id: int,
    title: string,
    description: string,
    completed: bool,
    createdAt: int,
    modifiedAt: string,
    userId: int,
    user: Owner)

  /**
   * A request to the task endpoints. `auth` is the value read from the
   * `token` key and placed after `Bearer ` in the Authorization header. A
   * handler that does not check for a token sends whatever that read gives:
   * `None` when the key is absent (the header then reads `Bearer null`), or
   * the stored string, possibly empty.
   */
  datatype TaskRequest =
    | GetTasks(auth: Option<string>)
    | PostTask(auth: Option<string>, title: string, description: string)
    | PutTask(auth: Option<string>, id: int, body: Task)
    | DeleteTask(auth: Option<string>, id: int)

  /** `{ ...task, completed: true }`: only the completion flag is rewritten. */
  function MarkCompleted(task: Task): (r: Task)
    ensures r.completed
    ensures r.(completed := task.completed) == task
  {
    task.(completed := true)
  }

  /** `{ ...selectedTask, title, description }`: only title and description are rewritten. */
  function WithEdits(task: Task, title: string, description: string): (r: Task)
    ensures r.title == title && r.description == description
    ensures r.(title := task.title, description := task.description) == task
  {
    task.(title := title, description := description)
  }
}
