# Create/Update Task form: a Dafny model

This project models the business logic of the admin "Create/Update Task" page
of the Task-Manager front end (`CreateTask.jsx`). The page holds a task draft
(`taskData`) and an `error` message. It turns the draft's raw checklist into
canonical `{ text, completed }` items (`normalizeTodosForBackend`). It derives
the task status from those items (`getAutoStatus`). On submit it validates the
draft fail-fast and then sends exactly one create or update request
(`handleSubmit`, `createTask`, `updateTask`), and after a successful create it
resets the draft (`clearData`). In the update view it flips one checklist
item's completion (`toggleTodoCompleted`).

Layout:

- `wrappers.dfy`: `Option`, standing for JavaScript's `null`/`undefined`.
- `js_text.dfy` (module `JsText`): JavaScript's `trim`, used by the title and
  description checks.
- `checklist.dfy` (module `Checklist`): raw entries, normalisation and toggle,
  as pure functions with lemmas.
- `auto_status.dfy` (module `AutoStatus`): the derived status.
- `task_form.dfy` (module `TaskForm`): the draft, the payload and the submit
  outcome (`Action`). `Validate` and `Decide` are the pure specification. The
  class `CreateTaskPage` holds the page state (`taskData`, `error`, `taskId`).
  Its methods `HandleSubmit`, `CreateTask`, `UpdateTask`, `ClearData` and
  `ToggleTodoCompleted` follow the source step by step and are proved against
  those functions.

Modelling choices:

- A raw checklist entry is `Nullish | Str | Obj(text, completed) | Other`.
  `Obj.text` is `None` when the property is null or undefined. `Obj.completed`
  is the truthiness of the property. `Other` covers numbers and booleans.
  Falsy entries are dropped: null, undefined, `""`, `0` and `false`.
- The `todoChecklist` field itself is an array (`Entries`), a falsy non-array
  value (`NoList`), or a truthy non-array value (`NonArrayValue`). The last
  records only whether its `length` is 0, because that is all the checks read.
- The draft's `title` and `description` are `Option<string>`: `None` stands for
  null or undefined. `dueDate` and `assignedTo` are optional in the same way.
- The submit outcome `Action` is an error message, a rejection (the promise
  rejects before any request), a create, or an update of `taskId`.
- Where JavaScript would throw a `TypeError`, `Toggle` returns `None` and the
  page state does not change. This happens when reading `completed` of a null
  entry at the index, or when calling `map` on a truthy non-array.
- Each network request is a value in the returned `Action`. Whether the
  request succeeded is a `bool` parameter of `HandleSubmit` and `CreateTask`.
- The status labels are the code's own: `"Pending"`, `"In Progress"` (with a
  space) and `"Completed"`.

Behaviour of the code worth noting:

- Every falsy checklist entry is dropped: null, undefined, `""`, `0` and `false`.
- The in-progress label is spelt `"In Progress"`, with a space.
- An empty due-date string fails the due-date check, like null does.
- An `assignedTo` that is undefined or null passes the assignee check. The code
  tests `assignedTo?.length === 0`.
- `title` and `description` are read with `.trim()` without a guard. When one
  of them is null or undefined (a loaded record may lack it), `.trim()` throws
  a `TypeError`. The submit then stops after clearing the error: no message is
  shown and no request is sent. The model calls this outcome `Rejected`.

Toggling a bare-label entry turns it into an object with no `text`. Its label
is therefore lost on the next normalisation. `ToggleEntry` states this
explicitly. The update view normally holds objects, so this case does not arise
there.

## Model

| member | source | states |
|---|---|---|
| `JsText.TrimStartCuts` | frontend/Task-Manager/src/pages/Admin/CreateTask.jsx:137 | The result is a suffix of the input. Everything cut off is white space or a line terminator. The result does not start with one. |
| `JsText.TrimEndCuts` | frontend/Task-Manager/src/pages/Admin/CreateTask.jsx:137 | The result is a prefix of the input. Everything cut off is white space or a line terminator. The result does not end with one. |
| `JsText.Trim` | frontend/Task-Manager/src/pages/Admin/CreateTask.jsx:137 | `trim()` is never longer than its input, and its result neither starts nor ends with white space or a line terminator (proved from `TrimStartCuts` and `TrimEndCuts`). `TrimIsSlice` states which characters it keeps. |
| `JsText.TrimIsSlice` | frontend/Task-Manager/src/pages/Admin/CreateTask.jsx:137 | `trim()` returns a slice of its input. Everything cut off before and after that slice is white space or a line terminator. |
| `JsText.TrimEmptyIffBlank` | frontend/Task-Manager/src/pages/Admin/CreateTask.jsx:137-144 | `trim()` gives the empty (falsy) string exactly when every character is white space or a line terminator. |
| `Checklist.Canonical` | frontend/Task-Manager/src/pages/Admin/CreateTask.jsx:62-65 | A truthy entry's canonical `completed` is `!!item.completed`, the value the update view's checkbox shows. A label keeps its text, and so does an object with a text. Every other entry gets the text `""`: an object whose `text` is null or undefined, a number, a boolean. |
| `Checklist.NormalizeEntries` | frontend/Task-Manager/src/pages/Admin/CreateTask.jsx:59-67 | The `map`/`filter(Boolean)` pass never lengthens the list. `NormalizeLength`, `NormalizeAt` and `NormalizeAppend` characterise it completely. |
| `Checklist.Normalize` | frontend/Task-Manager/src/pages/Admin/CreateTask.jsx:58 | A checklist value that is not an array normalises to the empty list. |
| `Checklist.NormalizeLength` | frontend/Task-Manager/src/pages/Admin/CreateTask.jsx:59-67 | The output has one item per truthy entry. Falsy entries produce nothing. |
| `Checklist.NormalizeAppend` | frontend/Task-Manager/src/pages/Admin/CreateTask.jsx:59-67 | Normalising distributes over concatenation, so the kept entries stay in input order. |
| `Checklist.NormalizeAt` | frontend/Task-Manager/src/pages/Admin/CreateTask.jsx:60-67 | A truthy entry at index i appears in canonical form at the output position equal to the number of truthy entries before i. |
| `Checklist.NormalizeEmptyIffAllFalsy` | frontend/Task-Manager/src/pages/Admin/CreateTask.jsx:61-67 | The output is empty exactly when every entry is falsy. |
| `Checklist.NormalizeLabels` | frontend/Task-Manager/src/pages/Admin/CreateTask.jsx:62-64 | A list of non-empty strings becomes the same texts, in order, each with `completed == false`. |
| `Checklist.NormalizeEmbedded` | frontend/Task-Manager/src/pages/Admin/CreateTask.jsx:65 | Canonical `{ text, completed }` objects normalise back to exactly themselves. |
| `Checklist.NormalizeIdempotent` | frontend/Task-Manager/src/pages/Admin/CreateTask.jsx:57-68 | Normalising the output of a normalisation gives that output unchanged. |
| `Checklist.ToggleEntry` | frontend/Task-Manager/src/pages/Admin/CreateTask.jsx:228 | A toggled entry is a (truthy) object. Its completion is the negation of what the checkbox showed. An object keeps its text; any other value ends up with no text. |
| `Checklist.Toggle` | frontend/Task-Manager/src/pages/Admin/CreateTask.jsx:226-231 | The toggle throws exactly on a truthy non-array checklist or a null entry at the index. Otherwise the length is kept, every other entry is unchanged, and the entry at the index is toggled. A falsy checklist becomes `[]`. |
| `Checklist.ToggleOutOfRange` | frontend/Task-Manager/src/pages/Admin/CreateTask.jsx:227-229 | An index outside the list leaves the list unchanged. |
| `Checklist.ToggleTwice` | frontend/Task-Manager/src/pages/Admin/CreateTask.jsx:227-229 | Toggling an object entry twice at the same index restores the list. |
| `Checklist.ToggleNormalized` | frontend/Task-Manager/src/pages/Admin/CreateTask.jsx:226-231 | Toggling an object entry flips `completed` of exactly its canonical item in the normalised list. All other items are unchanged. |
| `AutoStatus.CountCompleted` | frontend/Task-Manager/src/pages/Admin/CreateTask.jsx:73 | The completed count is at most the length. `CountCompletedBounds` gives its two extremes. |
| `AutoStatus.GetAutoStatus` | frontend/Task-Manager/src/pages/Admin/CreateTask.jsx:71-79 | The result is always one of "Pending", "In Progress" or "Completed". |
| `AutoStatus.CountCompletedBounds` | frontend/Task-Manager/src/pages/Admin/CreateTask.jsx:72-73 | The completed count is at most the length. It is 0 exactly when no item is completed. It equals the length exactly when all items are completed. |
| `AutoStatus.AutoStatusClassifies` | frontend/Task-Manager/src/pages/Admin/CreateTask.jsx:71-79 | "Completed" exactly when the list is non-empty and all items are completed. "Pending" exactly when none is completed, which includes the empty list. "In Progress" exactly when some items are completed and some are not. |
| `TaskForm.DefaultDraft` | frontend/Task-Manager/src/pages/Admin/CreateTask.jsx:22-31 | The default draft (also the one `clearData` restores at lines 44-53) is stopped by the title check, and its checklist normalises to nothing. |
| `TaskForm.Validate` | frontend/Task-Manager/src/pages/Admin/CreateTask.jsx:136-158 | A draft that passes has a title, a description and a due date. A rejection by `.trim()` means a title or description is null or undefined. `ValidationOrder` characterises it completely. |
| `TaskForm.ValidationOrder` | frontend/Task-Manager/src/pages/Admin/CreateTask.jsx:136-158 | The checks run in the order title, description, due date, assignees, raw checklist, and the first one that stops the submit decides the outcome. That is its failure, or the `TypeError` of `.trim()` on a null or undefined title or description. The draft is valid exactly when no check stops it. |
| `TaskForm.BuildPayload` | frontend/Task-Manager/src/pages/Admin/CreateTask.jsx:86-94 | The payload's checklist is the normalised draft checklist. Its status is "Completed" exactly when that list is non-empty and fully completed, and "Pending" exactly when nothing in it is completed. The same payload is built at lines 112-120. |
| `TaskForm.Decide` | frontend/Task-Manager/src/pages/Admin/CreateTask.jsx:133-166 | An error carries the message of the failed check. A rejection happens exactly when `.trim()` throws. An update targets the truthy `taskId`, and every request carries the derived status. `DecideReportsFirstFailure`, `DecideRejectsMissingField` and `DecideDispatchesOnce` characterise it completely. |
| `TaskForm.MessagesDistinct` | frontend/Task-Manager/src/pages/Admin/CreateTask.jsx:137-157 | The five messages are pairwise different, so the message identifies the failed check. |
| `TaskForm.DecideReportsFirstFailure` | frontend/Task-Manager/src/pages/Admin/CreateTask.jsx:133-158 | A draft whose first stopping check c fails yields exactly c's message and sends no request. |
| `TaskForm.DecideRejectsMissingField` | frontend/Task-Manager/src/pages/Admin/CreateTask.jsx:137-141 | When the first check to stop the submit calls `.trim()` on a null or undefined title or description, the submit is rejected with no message and no request. |
| `TaskForm.DecideDispatchesOnce` | frontend/Task-Manager/src/pages/Admin/CreateTask.jsx:82-166 | A valid draft sends exactly one request. It is an update of `taskId` when `taskId` is truthy and a create otherwise. The payload is the draft with its checklist normalised and its status derived from that checklist. |
| `TaskForm.StatusOverridden` | frontend/Task-Manager/src/pages/Admin/CreateTask.jsx:86-93 | The submit outcome does not depend on the status the user picked. |
| `TaskForm.FalsyChecklistIsPending` | frontend/Task-Manager/src/pages/Admin/CreateTask.jsx:155-158 | A non-empty checklist of falsy entries passes validation, normalises to `[]`, and the task is sent as "Pending". |
| `TaskForm.FreshSubmitExample` | frontend/Task-Manager/src/pages/Admin/CreateTask.jsx:82-98 | Submitting the draft "Fix bug" with labels "step1" and "step2" creates a task with both items open and status "Pending". The user's "Completed" is overridden. |
| `TaskForm.CreateTaskPage.constructor` | frontend/Task-Manager/src/pages/Admin/CreateTask.jsx:22-34 | A new page holds the default draft, an empty error and the `taskId` it was opened with. |
| `TaskForm.CreateTaskPage.ClearData` | frontend/Task-Manager/src/pages/Admin/CreateTask.jsx:42-54 | The draft returns to its defaults. The error is unchanged. |
| `TaskForm.CreateTaskPage.CreateTask` | frontend/Task-Manager/src/pages/Admin/CreateTask.jsx:82-105 | The payload is built from the draft. The draft is reset to its defaults exactly when the request succeeds. |
| `TaskForm.CreateTaskPage.UpdateTask` | frontend/Task-Manager/src/pages/Admin/CreateTask.jsx:108-130 | The request targets `taskId` with the payload built from the draft. The page state is not changed. |
| `TaskForm.CreateTaskPage.HandleSubmit` | frontend/Task-Manager/src/pages/Admin/CreateTask.jsx:133-166 | The outcome is `Decide` of the draft before the call. The error becomes the validation message, or null when a request is sent or `.trim()` throws. The draft is reset only after a successful create. |
| `TaskForm.CreateTaskPage.ToggleTodoCompleted` | frontend/Task-Manager/src/pages/Admin/CreateTask.jsx:226-231 | The checklist becomes the toggled list. The draft is unchanged when JavaScript would throw. The error is unchanged. |

## Left out

- Network I/O is left out: the create, update, fetch and delete requests. A request is only the `Action` value it produces, and its success is a parameter. The server's error message and the toast fallbacks are not modelled.
- Loading a task for editing (`getTaskDetailsByID`) is left out. It is a network read that maps the server record into a draft. That mapping uses the `moment` date library and the server's assignee objects.
- Deleting a task (`deleteTask`) is left out. It is a network call followed by closing the modal and navigating.
- Date conversion is left out. `dueDate` is an opaque string, and the payload carries it in place of `new Date(...).toISOString()`. The `RangeError` an invalid date raises, which ends in the create/update catch branch, is not modelled.
- The `loading` flag, toast notifications, `navigate`, the delete modal and all JSX are left out. This includes the `TodoListInput` adapters. These are presentation and scheduling, not logic.
- `handleValueChange` for the individual inputs is left out. It is a plain field assignment; only its use by `toggleTodoCompleted` is modelled.
- The draft is a record with the eight fields the page defines. Extra keys that `...taskData` would copy into the payload are not modelled.
- An object entry's `text` is a string or missing. A non-string `text` value is not modelled.
- ToggleTwice: restores the list only up to the truthiness of `completed`, because an object entry records whether its `completed` was truthy and not the value itself.
