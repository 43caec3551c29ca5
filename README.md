# Task list client: verified model of its state transitions

This project models the `TaskApp` component of a small task-list web client.
The component holds three pieces of state: the list of tasks mirrored from a
remote store (`tasks`), the text typed into the input field (`newTask`), and
a busy flag raised while a task is being created (`loading`). Four handlers
talk to the store's `/tasks/` resource and update that state:

- load replaces the whole list with the server's list;
- create appends the server's new task, unless the text is blank;
- toggle asks for the negated status and replaces every task with that id;
- delete removes every task with that id.

The footer shows three counts: total, completed and pending.

Every network round trip is abstracted to a `Response<T>`. A response is
either `NetworkError` (`fetch` threw) or `Received(status, body)`. In the
second case `body` is `Some(value)` when `response.json()` parsed, and `None`
when it threw. No handler reads the HTTP status. Each handler takes the
response as a parameter and returns the `Request` it issued.

Files:

- `sequences.dfy` (module `Sequences`): `Filter`, the model of JavaScript's
  `Array.prototype.filter`, with its lemmas. The lemmas cover concatenation,
  the split into kept and dropped elements, and the position of a kept element.
- `tasks.dfy` (module `Tasks`): the `Task` record and the pure list
  transforms. `ReplaceById` is the toggle's `map`, `RemoveById` is the
  delete's `filter`, and `Summarize` gives the footer counts. Lemmas relate them.
- `input.dfy` (module `TaskInput`): `String.prototype.trim`, with the
  ECMAScript whitespace and line-terminator characters listed in full, and
  the blank-input guard `IsBlank`.
- `app.dfy` (module `App`): the class `TaskApp` with fields `tasks`,
  `newTask` and `loading`, one method per handler, and the toggle lemma
  `ToggleNegates`. The method `BuyMilkScenario` plays a short sequence as a
  client: create "Buy milk", toggle it, then delete it while the server
  answers 404. The list ends empty. `BlankAddScenario` submits the empty
  input field: no request is issued and nothing changes.

The model follows the code at these points, where a REST client might be expected to behave differently:

- A delete counts as done whenever any answer arrives, including a 404 or a
  500. The response is never examined (src/App.js:71-74).
- Create, toggle and load count as done whenever the body parses as JSON,
  whatever the status (src/App.js:38-39, 62-63, 19-20).
- A toggle replaces every task with a matching id, not just the first one.
  It maps over the whole list with `===` (src/App.js:63).
- The create request carries the untrimmed text. Trimming is used only for
  the blank test (src/App.js:27, 36).
- Nothing on the client forces a created task to have `completed = false`.
  `SummarizeAppend` states the count effect for either status.

## Model

| member | source | states |
|---|---|---|
| Sequences.Filter | src/App.js:74 | The result is no longer than the input. Every element in it satisfies the predicate and occurs in the input. Every input element that satisfies the predicate occurs in it. |
| Sequences.FilterSplit | src/App.js:161-162 | For complementary predicates, the two filtered lengths add up to the input length. |
| Tasks.ReplaceById | src/App.js:63 | Length is preserved. Every index whose task has the id now holds the returned record. Every other index is unchanged. |
| Tasks.RemoveById | src/App.js:74 | No task with the id remains. Every task without the id survives. Every survivor came from the input. The length drops by exactly the number of tasks with the id. |
| Tasks.Summarize | src/App.js:160-162 | Built from `Completed` and `Pending`, the two filters of lines 161-162. Total is the list length, and completed plus pending equals total. Completed is 0 exactly when no task is completed. Pending is 0 exactly when every task is completed. |
| Tasks.RemoveKeepsOrder | src/App.js:74 | A surviving task at index i lands at index i minus the number of removed tasks before it, so survivors keep their relative order. |
| Tasks.RemoveConcat | src/App.js:74 | Deleting from a concatenation deletes from each part and keeps the parts in order. |
| Tasks.RemoveAbsent | src/App.js:74 | Deleting an id that no task has leaves the list unchanged. |
| Tasks.ReplaceAbsent | src/App.js:63 | Toggling an id that no task has leaves the list unchanged. |
| Tasks.ReplaceIdempotent | src/App.js:63 | Applying the same toggle answer twice gives the same list as applying it once. |
| Tasks.RemoveAfterReplace | src/App.js:63 | If the returned record keeps the id, deleting after a toggle gives the same list as deleting directly. |
| Tasks.AppendFresh | src/App.js:39 | A created task whose id is new occurs exactly once in the list: no earlier task carries its id. |
| Tasks.HasIdIffCounted | src/App.js:74 | Some task carries the id exactly when the number of tasks with that id is positive. |
| Tasks.RemoveUndoesAppend | src/App.js:39 | Deleting a just-created task with a new id restores the list exactly. |
| Tasks.SummarizeEmpty | src/App.js:160-162 | The empty list shows zero in every count. |
| Tasks.SummarizeAppend | src/App.js:160-162 | Appending any task raises the total by one, and raises the completed count by one if the task is completed, otherwise the pending count. With the empty case this fixes the counts over every list. |
| TaskInput.TrimStart | src/App.js:27 | The result is a suffix of the input. Everything removed is whitespace. The result is empty or starts with a non-whitespace character. |
| TaskInput.TrimEnd | src/App.js:27 | The result is a prefix of the input. Everything removed is whitespace. The result is empty or ends with a non-whitespace character. |
| TaskInput.TrimIsInfix | src/App.js:27 | The trimmed text is a contiguous slice of the input. Only whitespace lies outside the slice, and the slice neither starts nor ends with whitespace. |
| TaskInput.Trim | src/App.js:27 | The result is a slice of the input with only whitespace outside it and no whitespace at either end, which determines it (proved by `TaskInput.TrimIsInfix`). |
| TaskInput.IsBlank | src/App.js:27 | The guard fires exactly when every character is whitespace, which includes the empty text. |
| App.TaskApp.constructor | src/App.js:5-7 | The list starts empty, the input text starts as "", and loading starts false. |
| App.TaskApp.SetNewTask | src/App.js:98 | The input text becomes the typed value. The list and the loading flag are unchanged. |
| App.TaskApp.FetchTasks | src/App.js:16-24 | The handler sends a GET. A parsed answer replaces the list wholesale. Any other outcome leaves the list unchanged. The input text and the loading flag never change. |
| App.TaskApp.AddTask | src/App.js:26-45 | Blank text sends nothing and changes no field. Otherwise the untrimmed text is POSTed and loading ends false. A parsed answer is appended at the end and the input text is cleared. Any other outcome leaves the list and the text unchanged. |
| App.TaskApp.ToggleTask | src/App.js:53-67 | The handler sends a PATCH with completed set to the negation of the status shown. A parsed answer replaces every task with the id. Any other outcome leaves the list unchanged. The other fields never change. |
| App.TaskApp.DeleteTask | src/App.js:69-78 | The handler sends a DELETE. Any answer, whatever its status or body, removes every task with the id. Only a network error leaves the list unchanged. The other fields never change. |
| App.ToggleNegates | src/App.js:60-63 | Suppose the server honours the PATCH, and every matching task showed the status that was passed in. Then each matching task now has the opposite status. The total is unchanged. The completed count moves by the number of matching tasks, up when marking done and down when marking undone. |

## Left out

- Network I/O: `fetch`, request headers, JSON encoding and decoding, and the hard-coded `API_URL` are not modelled. Each round trip becomes a `Response` parameter, and the request a handler builds becomes its returned `Request`.
- JSON bodies of an unexpected shape are not modelled. An example is an error object sent with a 404 for a toggle. The code would store such a body in the list as if it were a task. The model's parsed body is always a `Task` or a `seq<Task>`.
- Asynchrony is not modelled. Each handler is one atomic step. Overlapping requests, and the stale `tasks` value each handler captured when it started, can make one update overwrite another. That is a race between concurrent handlers, not sequential logic.
- The intermediate state with `loading` true while the create request is in flight is not visible. `AddTask` raises and lowers the flag within one step, so only the final value can be stated.
- React wiring is not modelled: `useState`, the `useEffect` that loads on mount, the Enter-key handler, disabling the input while loading, rendering, icons and styles. Mounting is the constructor followed by a `FetchTasks` call.
- `console.error` logging in each `catch` is not modelled. It has no effect on state.
- Task ids are modelled as integers compared with `==`. JavaScript's `===` across ids of different runtime types (a number and a string) is not modelled.
