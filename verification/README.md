# Task manager client — a Dafny model of its deterministic core

The modelled system is a React client for a task-management REST API. It has
a login page, a registration page, a stand-alone add-task form, and a task
list page. The task list fetches the user's tasks, filters them by completion
status, sorts them by creation time, and creates, edits, completes and deletes
tasks, refetching the whole list after each change.

This project models the logic that client decides for itself:

- **Form validation.** The fixed-order chains of required-field checks and
  the e-mail pattern `^[^\s@]+@[^\s@]+\.[^\s@]+$`. The pattern is written as
  a hand-made matcher and proved equal to the language the pattern denotes.
  The title and description rules of the task dialogs are modelled too.
- **The rendered task list.** The status filter followed by a stable sort on
  `createdAt`, in ascending or descending order.
- **Handler state transitions.** What each handler does to page state,
  browser storage, issued requests and raised toasts, for a successful or a
  failed API outcome.

Modules, one per component of the client:

- `Common`: option, API outcome (`Response`), toast.
- `JsStrings`: JavaScript `trim()`, `\s` and `.length`.
- `Browser`: `localStorage` as a `map<string, string>`, and the session kept
  under `token` and `user`.
- `EmailPattern`: the e-mail regular expression.
- `Tasks`: the task record, the `/Task` requests, and the record rewrites.
- `TaskView`: filter, sort, and the derived view.
- `TaskListPage`, `AddTaskForm`, `LoginPage`, `RegisterPage`: the pages.
  Their React state is the fields of a class and their handlers are methods.

Every network call is a parameter: the settled outcome, `Ok(data)` or
`Failed(body)`. A handler returns the requests it issued, the toasts it raised
and, on the auth pages, the new storage map and the path it navigates to.

Two behaviours of the code that the model keeps as written:

- `handleComplete` and `handleDelete` do not check for a token. They send the
  request with whatever `getItem('token')` returns, and the model keeps that.
- The title rule is "non-blank after trim, and at least 3 long before trim".
  Length is `.length`, which counts UTF-16 code units.

## Model

| member | source | states |
|---|---|---|
| `Common.FailureText` | task-manager/src/pages/LoginPage.tsx:60 | the reported message is the server's body when it is present and non-empty, otherwise the page's fallback text |
| `JsStrings.Trim` | task-manager/src/pages/LoginPage.tsx:32 | `trim()` yields the empty string exactly for all-white-space input; otherwise the result starts and ends with a non-space |
| `JsStrings.JsLength` | task-manager/src/pages/TaskList.tsx:146 | `.length` counts UTF-16 code units: between the number of code points and twice that, and equal to it when every code point is in the Basic Multilingual Plane |
| `Browser.HasToken` | task-manager/src/pages/TaskList.tsx:52-53 | the `if (!token)` guard passes exactly when the `token` key is stored with a non-empty value, since both null and `""` are falsy |
| `Browser.SaveSession` | task-manager/src/pages/LoginPage.tsx:55-56 | after a successful login `token` and `user` read back as the response's token and user name, every other key is untouched, and the user counts as logged in exactly when the token is non-empty |
| `Browser.ClearSession` | task-manager/src/pages/TaskList.tsx:75-76 | logout removes exactly the `token` and `user` keys and leaves the user logged out |
| `Browser.ClearUndoesSave` | task-manager/src/pages/TaskList.tsx:74-78 | logging out after a login leaves storage exactly as logging out before it would have |
| `EmailPattern.IsEmailShaped` | task-manager/src/pages/LoginPage.tsx:37-38 | the `emailRegex.test(email)` both forms apply: an accepted address is at least five characters long, contains `@`, and neither starts nor ends with `@` |
| `EmailPattern.ShapedMatchesPattern` | task-manager/src/pages/LoginPage.tsx:37-38 | every string the hand-made matcher accepts splits as non-empty `[^\s@]` runs around a literal `@` and a literal `.` |
| `EmailPattern.PatternIsShaped` | task-manager/src/pages/LoginPage.tsx:37-38 | every string the regular expression matches is accepted by the matcher |
| `EmailPattern.ShapedIffMatchesPattern` | task-manager/src/pages/LoginPage.tsx:37-38 | matcher and regular expression accept exactly the same strings |
| `EmailPattern.MatchedAtIsFirst` | task-manager/src/pages/LoginPage.tsx:37 | the `@` a match uses is the first `@` of the string |
| `EmailPattern.ShapedHasOneAtAndNoSpace` | task-manager/src/pages/LoginPage.tsx:37 | an accepted address has no white space and exactly one `@` |
| `EmailPattern.ShapedIsNotBlank` | task-manager/src/pages/LoginPage.tsx:32-38 | an accepted address always passes the "Email is required" check |
| `EmailPattern.PaddedIsNotShaped` | task-manager/src/pages/LoginPage.tsx:32-38 | the address is tested untrimmed, so leading or trailing white space makes it fail the format check |
| `EmailPattern.AcceptsPlainAddress` | task-manager/src/pages/LoginPage.tsx:37 | `a@b.com` is accepted |
| `EmailPattern.RejectsMalformedAddresses` | task-manager/src/pages/LoginPage.tsx:37 | an empty domain label, a missing top-level part, an empty local part and a second `@` are each rejected |
| `Tasks.MarkCompleted` | task-manager/src/pages/TaskList.tsx:83 | the record sent on "complete" has `completed` set and every other field as before |
| `Tasks.WithEdits` | task-manager/src/pages/TaskList.tsx:128-132 | the record sent on "update" carries the new title and description and every other field of the selected task |
| `TaskView.Keeps` | task-manager/src/pages/TaskList.tsx:183-187 | the filter callback: `all` keeps every task, `completed` exactly the completed ones, `notCompleted` exactly the others |
| `TaskView.FilterTasks` | task-manager/src/pages/TaskList.tsx:183-187 | the filtered list holds each task the filter keeps as often as the input does, and no other task |
| `TaskView.FilterDistributes` | task-manager/src/pages/TaskList.tsx:183-187 | the filter keeps the input order: filtering a concatenation is concatenating the filtered parts |
| `TaskView.FilterAllIsIdentity` | task-manager/src/pages/TaskList.tsx:186 | filter `all` returns the list unchanged |
| `TaskView.FilterPartitions` | task-manager/src/pages/TaskList.tsx:184-185 | `completed` and `notCompleted` together hold every task exactly once, with no overlap |
| `TaskView.Compare` | task-manager/src/pages/TaskList.tsx:188-191 | the comparator is zero exactly on equal timestamps, and negative exactly when the first task is older (`asc`) or newer (`desc`) |
| `TaskView.SortTasks` | task-manager/src/pages/TaskList.tsx:188-192 | the sort returns a permutation of its input, ordered by the comparator: non-decreasing `createdAt` for `asc`, non-increasing for `desc` |
| `TaskView.SortIsStable` | task-manager/src/pages/TaskList.tsx:188-192 | tasks with equal `createdAt` keep their input order, as a stable `Array.prototype.sort` requires |
| `TaskView.SortedIsDeterminedByTies` | task-manager/src/pages/TaskList.tsx:188-192 | two lists sorted by the comparator with the same ties in the same order are equal |
| `TaskView.StableSortIsUnique` | task-manager/src/pages/TaskList.tsx:188-192 | any stable sort by the page's comparator gives exactly the model's sort, whatever algorithm the engine uses |
| `TaskView.FilteredAndSorted` | task-manager/src/pages/TaskList.tsx:182-192 | the rendered list is a sorted permutation of the filtered list, and holds exactly the tasks of the state that the filter keeps |
| `TaskView.FilterKeepsTies` | task-manager/src/pages/TaskList.tsx:183-187 | the tasks of one timestamp in the filtered list are exactly that timestamp's tasks of the input, filtered, in input order |
| `TaskView.ViewKeepsFilterOrderOnTies` | task-manager/src/pages/TaskList.tsx:182-192 | among tasks created at the same time, the rendered list keeps the order they have in the filtered list and so in `tasks` |
| `TaskView.DescIsReversedAsc` | task-manager/src/pages/TaskList.tsx:188-191 | with pairwise distinct timestamps, newest-first is exactly oldest-first reversed |
| `TaskListPage.TaskInputError` | task-manager/src/pages/TaskList.tsx:146-153 | input is accepted exactly when the title is non-blank and at least 3 long and the description at most 500; the title error is reported first |
| `TaskListPage.PaddedShortTitlePasses` | task-manager/src/pages/TaskList.tsx:146-149 | `"  a"` passes because length is taken before trimming; `"Hi"` and `"   "` are rejected |
| `TaskListPage.DisplayName` | task-manager/src/pages/TaskList.tsx:181 | the header shows the stored user name, and "Unknown User" when it is missing or empty |
| `TaskListPage.Logout` | task-manager/src/pages/TaskList.tsx:74-78 | logout navigates to `/login`, leaves no token, makes the header show "Unknown User", and keeps every other key |
| `TaskListPage.FetchedTasks` | task-manager/src/pages/TaskList.tsx:52-65 | after `fetchTasks` the list is the server's list when a token is present and the request succeeds, and is unchanged otherwise |
| `TaskListPage.TaskList.constructor` | task-manager/src/pages/TaskList.tsx:40-49 | initial state: no tasks, filter `all`, order `desc`, dialogs closed, empty fields, no selection |
| `TaskListPage.TaskList.Visible` | task-manager/src/pages/TaskList.tsx:182-192 | what is rendered is drawn from the `tasks` state and sorted; being a function of the state, deriving it changes nothing |
| `TaskListPage.TaskList.FetchTasks` | task-manager/src/pages/TaskList.tsx:51-66 | with no token: no request and a "must be logged in" toast; otherwise one `GET /Task`. Success replaces `tasks` with the response; failure keeps it |
| `TaskListPage.TaskList.OpenUpdateDialog` | task-manager/src/pages/TaskList.tsx:67-72 | selects the task, copies its title and description into the edit fields and opens the dialog |
| `TaskListPage.TaskList.Complete` | task-manager/src/pages/TaskList.tsx:80-92 | always sends a `PUT` of the task with only `completed` set, without checking for a token; a refetch follows only on success |
| `TaskListPage.TaskList.Delete` | task-manager/src/pages/TaskList.tsx:94-105 | always sends the `DELETE`, without checking for a token; a refetch follows only on success |
| `TaskListPage.TaskList.UpdateTask` | task-manager/src/pages/TaskList.tsx:108-142 | does nothing without a selection; a failed input or token check sends nothing and changes nothing; otherwise it sends the selected task with the new title and description, and success closes the dialog, keeps the selection and refetches |
| `TaskListPage.TaskList.AddTask` | task-manager/src/pages/TaskList.tsx:145-175 | a failed input or token check sends nothing and changes nothing; success clears title and description, closes the dialog and refetches; failure keeps the fields |
| `TaskListPage.RejectedInputSendsNothing` | task-manager/src/pages/TaskList.tsx:145-153 | a title shorter than 3 or a description longer than 500 never reaches the network |
| `TaskListPage.AddThenRefetchShowsServerList` | task-manager/src/pages/TaskList.tsx:161-171 | after a successful add and refetch, the list is exactly the server's list and the form is cleared |
| `AddTaskForm.Form.constructor` | task-manager/src/components/AddTaskForm.tsx:9-12 | initial state: empty fields, not loading, no error |
| `AddTaskForm.Form.Begin` | task-manager/src/components/AddTaskForm.tsx:16-21 | a blank title sets "Title is required" and stops; any other title clears the error and sets `loading` before the request |
| `AddTaskForm.Form.Settle` | task-manager/src/components/AddTaskForm.tsx:33-41 | success clears the fields and calls `onTaskAdded` once; failure sets "Failed to add task", keeps the fields and does not call it; `loading` ends false either way |
| `AddTaskForm.Form.Submit` | task-manager/src/components/AddTaskForm.tsx:14-42 | a blank title sends nothing; any other title is posted as typed, with no length or description limit and no token check |
| `AddTaskForm.FormAcceptsMoreThanDialog` | task-manager/src/components/AddTaskForm.tsx:16-19 | every title the task-list dialog accepts passes this form's check, but a one-letter title passes this form alone |
| `LoginPage.WithField` | task-manager/src/pages/LoginPage.tsx:22-25 | an input change sets the named field and leaves the other one unchanged |
| `LoginPage.ValidateLogin` | task-manager/src/pages/LoginPage.tsx:32-46 | blank e-mail first, then a malformed e-mail, then a blank password; the first failure is the only one reported, and the form passes exactly when the e-mail is well formed and the password non-blank |
| `LoginPage.PaddedEmailIsMalformed` | task-manager/src/pages/LoginPage.tsx:32-41 | a non-blank address with surrounding white space passes "required" but is reported as "Invalid email format" |
| `LoginPage.Page.constructor` | task-manager/src/pages/LoginPage.tsx:17-20 | the form starts empty |
| `LoginPage.Page.Change` | task-manager/src/pages/LoginPage.tsx:22-25 | `handleChange` replaces only the named field |
| `LoginPage.Page.Login` | task-manager/src/pages/LoginPage.tsx:29-62 | no request when validation fails; otherwise the credentials are posted as typed. Success stores token and user name and navigates to `/tasks`; failure reports the server's message or "Login failed" and leaves storage unchanged |
| `RegisterPage.WithField` | task-manager/src/pages/RegisterPage.tsx:25-27 | an input change sets the named field and leaves the other four unchanged |
| `RegisterPage.ValidateRegister` | task-manager/src/pages/RegisterPage.tsx:34-41 | the guard chain: the form passes only when all five fields are filled and the address is well formed, and any "is required" message names a blank field |
| `RegisterPage.FirstBlankFieldIsReported` | task-manager/src/pages/RegisterPage.tsx:34-38 | a field's "is required" message is reported exactly when it is blank and all fields checked before it are filled |
| `RegisterPage.FormatCheckedLast` | task-manager/src/pages/RegisterPage.tsx:34-41 | "Invalid email format" is reported only when all five fields are filled and the address is malformed, and the form passes exactly when all are filled and the address is well formed |
| `RegisterPage.BlankMobileBeatsMalformedEmail` | task-manager/src/pages/RegisterPage.tsx:37-41 | a blank mobile number is reported even when the address is also malformed |
| `RegisterPage.EmailCheckAgreesWithLogin` | task-manager/src/pages/RegisterPage.tsx:40-41 | once every field is filled, registration rejects an address as malformed exactly when login does, and accepts the form exactly when login accepts those credentials |
| `RegisterPage.Page.constructor` | task-manager/src/pages/RegisterPage.tsx:17-23 | the form starts with five empty fields |
| `RegisterPage.Page.Change` | task-manager/src/pages/RegisterPage.tsx:25-27 | `handleChange` replaces only the named field |
| `RegisterPage.Page.Submit` | task-manager/src/pages/RegisterPage.tsx:29-53 | no request when validation fails; otherwise the whole form is posted untrimmed. Success stores the session, shows the success toast and navigates to `/tasks`; failure reports the server's message or "Registration failed" |

## Left out

- Network calls. The axios wrapper `api/axios` is not part of this model.
  Each call is a settled outcome passed in. The response bodies are assumed
  to have the expected shape: a token and user name, a task array, a string
  error body.
- Asynchrony. Every handler is atomic. The refetch that a handler starts
  without awaiting (`fetchTasks()`) runs inside the handler, on its own
  outcome. Interleavings of concurrent handlers and of late responses are not
  modelled.
- The mount effect (`useEffect(() => fetchTasks(), [])`) is simply a call of
  `FetchTasks`. It is not modelled as its own member.
- Dates. `new Date(createdAt).getTime()` is an integer timestamp, and the
  comparator subtracts integers. Date parsing, invalid dates (NaN) and
  `toLocaleString` formatting are not modelled.
- Strings are sequences of Unicode scalar values. A lone UTF-16 surrogate
  cannot occur in the model.
- Presentation: JSX, MUI components, the toast container and the text of
  rendered rows. `Header.tsx` is pure presentation, so it is not part of this
  model.
- `App.tsx` routing is delegated to react-router, so it is not part of this
  model. Its unused `isAuthenticated` value is not modelled either.
- Plain state setters with no logic of their own are not modelled:
  - opening and closing the dialogs;
  - the text fields' `onChange`;
  - the filter and sort selects.
- `LoginPage.WithField`, `RegisterPage.WithField`: the input's `name` is one
  of the rendered inputs' names. An arbitrary name, which would add a new key
  to the form object, is not modelled.
- `window.location.href` and `navigate(...)` are a returned path. The page
  change itself is not modelled.
- `console.error` in the add-task form is not modelled.
- `AddTaskForm.Form.Settle`: assumes the `onTaskAdded` callback returns
  normally. The source calls it inside the `try`, so a callback that threw
  would leave the fields cleared and also set "Failed to add task"; the
  parent's callback is not part of this model.
