# Task tracker: store, status validation and client list state

A model of a small task tracker. The server keeps tasks
(`{ id, title, description, status }`) in one table behind a `TasksService`
with create, read, update and delete. The body of a status update is
validated by `UpdateTaskDto`. The browser component keeps a local copy of the
list and changes it in four handlers: fetch, create, toggle and delete. It
also derives a filtered, searched view and three counters from that list.

Modules, one per source component:

- `TaskModel` (`task_model.dfy`): the `Task` record, plus `Option`, `Result` and `Outcome`.
- `JsStrings` (`js_strings.dfy`): `trim`, `toLowerCase` and `includes` as the client uses them.
- `JsArrays` (`js_arrays.dfy`): `filter` and `map` on sequences, with the subsequence and counting facts.
- `UpdateTaskDto` (`update_task_dto.dfy`): the `IsNotEmpty` and `IsIn` checks on a status.
- `TasksServiceModel` (`tasks_service.dfy`): the `TasksService` class over a `map<string, Task>` table.
- `TasksController` (`tasks_controller.dfy`): the PATCH route, which validates and then updates.
- `TaskView` (`task_view.dfy`): the client's derived values and the pure parts of its handlers.
- `TaskClient` (`task_client.dfy`): the `TaskManager` class, holding the component's state and its handlers.

The two client components, `taskmanager-frontend/src/task_manager.js` and
`taskmanager-frontend/src/task_manager2.js`, differ only in markup. Their
state, handlers and derived values are the same code at shifted lines, so
one model covers both:

| part | task_manager.js | task_manager2.js |
|---|---|---|
| state hooks | 5-10 | 5-10 |
| fetchTasks | 16-26 | 18-28 |
| createTask | 28-44 | 30-46 |
| toggleTask | 46-59 | 48-61 |
| deleteTask | 61-68 | 63-70 |
| filteredTasks | 70-76 | 72-77 |
| stats | 78-82 | 79-83 |

Each server reply is an input to its handler: `Answered(httpStatus, body)`
or `Threw` (the fetch or the JSON parse rejected). The handlers never read
`response.ok`, and the model never reads `httpStatus`. So an error response
still appends (create), replaces (toggle) or removes (delete) entries. The
toggle sends `'completed'` or `'pending'`. Neither is in the set the DTO
accepts (`'open'`, `'in_progress'`, `'done'`). Assuming a global
`ValidationPipe`, which the modelled files do not install, every toggle ends
in a 400 and the stored task never changes
(`TasksController.ToggleAgainstServer`). Without that pipe the decorators
check nothing and the toggle's status is stored as sent.

Three behaviours of the code worth knowing:

- The service does not default the status on create. The status column's
  default comes from the entity, which is not part of this model, so it is
  a constructor parameter.
- The client does not leave its state unchanged on an error response. Only
  a thrown error (network failure, unparsable body) leaves it unchanged.
- Stats count the literal statuses `'completed'` and `'pending'`. Tasks in
  the server's vocabulary fall in neither bucket (`TaskView.ServerStatusesUncounted`).

## Model

| member | source | states |
|---|---|---|
| `TasksServiceModel.TasksService.constructor` | src/tasks/tasks.service.ts:10-13 | the service starts over an empty, consistent table |
| `TasksServiceModel.TasksService.GetAllTasks` | src/tasks/tasks.service.ts:15-17 | returns every stored task exactly once, and nothing else (same count, each row present, ids distinct) |
| `TasksServiceModel.TasksService.GetTaskById` | src/tasks/tasks.service.ts:19-23 | succeeds exactly when the id is stored, with that row, and otherwise fails with NotFound and the message "Task with id … not found" |
| `TasksServiceModel.TasksService.CreateTask` | src/tasks/tasks.service.ts:25-28 | adds exactly one row under the fresh id, with the given title and description and the column default status, returns it, and keeps every other row |
| `TasksServiceModel.TasksService.UpdateTask` | src/tasks/tasks.service.ts:30-34 | absent id: NotFound and the table is unchanged; present id: only that row's status becomes the given string (any string), everything else is unchanged |
| `TasksServiceModel.TasksService.DeleteTask` | src/tasks/tasks.service.ts:36-41 | passes exactly when a row was affected, fails with NotFound otherwise; the table afterwards is the old one without that id |
| `TasksServiceModel.DeleteTwice` | src/tasks/tasks.service.ts:36-41 | deleting a stored id twice passes the first time and fails with NotFound the second time |
| `TasksServiceModel.CreateThenGet` | src/tasks/tasks.service.ts:19-28 | a created task is read back by its id with the same title, description and default status |
| `UpdateTaskDto.Violations` | src/tasks/dto/update-task.dto.ts:6-10 | no violation exactly when the status is 'open', 'in_progress' or 'done'; IsNotEmpty is broken exactly by the empty string |
| `UpdateTaskDto.IsInSubsumesIsNotEmpty` | src/tasks/dto/update-task.dto.ts:7-8 | whenever IsNotEmpty fails IsIn fails too, so IsIn alone decides acceptance |
| `UpdateTaskDto.EmptyStatusRejected` | src/tasks/dto/update-task.dto.ts:7 | the empty status breaks both constraints |
| `UpdateTaskDto.ClientStatusesRejected` | src/tasks/dto/update-task.dto.ts:8 | 'pending' and 'completed' are rejected by IsIn |
| `TasksController.UpdateTask` | src/tasks/tasks.controller.ts:25-28 | an invalid status gives BadRequest with its violations and leaves the table unchanged; a valid one behaves as the service's update |
| `TasksController.ToggleTargetAlwaysRejected` | taskmanager-frontend/src/task_manager.js:48 | whatever the current status, the status a toggle sends fails IsIn |
| `TasksController.ToggleAgainstServer` | taskmanager-frontend/src/task_manager.js:46-53 | a client toggle sent to the PATCH route is rejected with BadRequest and never changes the stored table |
| `JsStrings.BlankIffAllWhitespace` | taskmanager-frontend/src/task_manager.js:29 | `!title.trim()` holds exactly when every character of the title is ECMAScript whitespace, the empty title included |
| `JsStrings.IncludesIffOccurs` | taskmanager-frontend/src/task_manager.js:72-74 | `includes` is true exactly when the query occurs at some position of the string |
| `JsStrings.IncludesEmpty` | taskmanager-frontend/src/task_manager2.js:74-75 | every string includes the empty query |
| `JsArrays.Filter` | taskmanager-frontend/src/task_manager2.js:72 | `filter` returns only elements of the input that pass the test, contains every passing element, and is no longer than the input (multiplicities: `JsArrays.FilterMultiset`) |
| `JsArrays.FilterMultiset` | taskmanager-frontend/src/task_manager2.js:72 | `filter` keeps every occurrence of a passing element and no occurrence of a failing one |
| `JsArrays.FilterIsSubsequence` | taskmanager-frontend/src/task_manager2.js:72 | `filter` keeps the survivors in their original order |
| `JsArrays.FilterKeepsAll` | taskmanager-frontend/src/task_manager2.js:72 | a test that passes every element leaves the list as it is |
| `JsArrays.FilterDropsAll` | taskmanager-frontend/src/task_manager2.js:81-82 | a test that passes no element gives the empty list |
| `JsArrays.DisjointFilterCounts` | taskmanager-frontend/src/task_manager2.js:80-82 | two filters with disjoint tests keep at most the whole length together, and exactly the whole length when every element passes one of them |
| `TaskView.FilteredTasks` | taskmanager-frontend/src/task_manager2.js:72-77 | the view holds exactly the tasks that pass the status filter and the case-insensitive search in title or non-null description, each as many times as in the list |
| `TaskView.FilteredIsSubsequence` | taskmanager-frontend/src/task_manager2.js:72-77 | the view is an order-preserving subsequence of the list |
| `TaskView.UnfilteredViewIsWholeList` | taskmanager-frontend/src/task_manager.js:70-76 | with filter 'all' and an empty search the view is the whole list |
| `TaskView.SearchIgnoresQueryCase` | taskmanager-frontend/src/task_manager.js:72-74 | for every task and query, the query and its lowercased form match the same tasks |
| `JsStrings.LowerIdempotent` | taskmanager-frontend/src/task_manager.js:72-74 | lowercasing twice is lowercasing once |
| `TaskView.SearchIgnoresCase` | taskmanager-frontend/src/task_manager.js:72-74 | the query "wal" finds the title "Walk dog" |
| `TaskView.TaskStats` | taskmanager-frontend/src/task_manager2.js:79-83 | total is the list length, and completed plus pending never exceeds it |
| `TaskView.StatsBucketsCoverIff` | taskmanager-frontend/src/task_manager2.js:79-83 | completed plus pending equals total exactly when every status is 'completed' or 'pending' |
| `TaskView.ServerStatusesUncounted` | taskmanager-frontend/src/task_manager.js:78-82 | a list holding only the server's statuses counts zero completed and zero pending |
| `TaskView.ToggleTarget` | taskmanager-frontend/src/task_manager2.js:50 | the target is 'pending' exactly for 'completed', and 'completed' for every other status |
| `TaskView.ToggleTwice` | taskmanager-frontend/src/task_manager2.js:50 | toggling twice returns 'pending' and 'completed' to themselves |
| `TaskView.ToggleTwiceLeavesOtherStatuses` | taskmanager-frontend/src/task_manager.js:48 | any other status toggles to 'completed' and then to 'pending', never back to itself |
| `TaskView.ReplaceById` | taskmanager-frontend/src/task_manager2.js:57 | the length is kept, entries with the id become the reply body, and all other entries stay unchanged in place |
| `TaskView.ReplaceAbsentId` | taskmanager-frontend/src/task_manager.js:55 | a reply for an id the list does not hold changes nothing |
| `TaskView.RemoveById` | taskmanager-frontend/src/task_manager2.js:66 | no entry with the id survives, every other entry does, with its multiplicity, in order |
| `TaskView.RemoveAbsentId` | taskmanager-frontend/src/task_manager.js:64 | removing an id the list does not hold changes nothing |
| `TaskClient.TaskManager.constructor` | taskmanager-frontend/src/task_manager.js:5-10 | empty list, loading, empty draft, filter 'all', empty search, modal closed |
| `TaskClient.TaskManager.FetchTasks` | taskmanager-frontend/src/task_manager2.js:18-28 | sends GET; a parsed reply replaces the list whatever its status code, a thrown error leaves it; loading is false afterwards; nothing else changes |
| `TaskClient.TaskManager.CreateTask` | taskmanager-frontend/src/task_manager2.js:30-46 | a blank title sends nothing and changes nothing; otherwise POSTs the draft with status 'pending'; a reply, whatever its status code, is appended at the end, the draft is cleared and the modal closed; a thrown error changes nothing |
| `TaskClient.TaskManager.ToggleTask` | taskmanager-frontend/src/task_manager.js:46-59 | PATCHes the task's id with the toggle target; a reply, whatever its status code, replaces the entries with that id; a thrown error keeps the list; nothing else changes |
| `TaskClient.TaskManager.DeleteTask` | taskmanager-frontend/src/task_manager.js:61-68 | sends DELETE for the id; once it resolves, whatever its status code, the entries with that id are removed; a thrown error keeps the list; nothing else changes |
| `TaskClient.TaskManager.SetFilter` | taskmanager-frontend/src/task_manager.js:124-127 | the filter buttons set the filter and nothing else |
| `TaskClient.TaskManager.SetSearchQuery` | taskmanager-frontend/src/task_manager.js:118-119 | the search box sets the query and nothing else |
| `TaskClient.TaskManager.SetShowAddModal` | taskmanager-frontend/src/task_manager.js:135 | the add and cancel buttons open and close the modal and change nothing else |
| `TaskClient.TaskManager.EditDraft` | taskmanager-frontend/src/task_manager.js:183-193 | the form fields set the draft and nothing else |

## Left out

- Rendering, styling and icons. `loading` and `showAddModal` are kept only as boolean fields.
- HTTP, `fetch`, headers, `API_URL` and JSON parsing. Each reply is an abstract `Reply` given to its handler.
- Reply bodies are typed as task records. In the source an error body (for example the 400 a toggle receives when validation runs) is stored in the list as is. It has no `title`, so the next render would throw in `title.toLowerCase()`. The model cannot represent such a body.
- Asynchronous interleaving and stale closures. The handlers run as sequential steps on the current state.
- `JsStrings.Lower` folds ASCII letters only. Full Unicode `toLowerCase` is not modelled.
- `console.error` logging in the catch blocks.
- TypeORM internals. Id generation is a fresh-id parameter of `CreateTask`. The status column's default is a constructor parameter, since the entity file is not part of this model. `save` is modelled as a write of the row under its id.
- `affected` is modelled as 0 or 1. A driver that leaves it undefined would make `DeleteTask` pass on an absent id; that case is not modelled.
- The GET, POST and DELETE routes of `src/tasks/tasks.controller.ts`. They are one-line delegations to the service. `src/app.module.ts` is database configuration only.
- No modelled file installs a `ValidationPipe` (`src/app.module.ts` registers no pipe, and the PATCH route has no `@UsePipes`). `TasksController.UpdateTask` and `TasksController.ToggleAgainstServer` assume a global pipe applies the DTO's decorators; without one the service receives any status unchecked, as `TasksServiceModel.TasksService.UpdateTask` models.
- The create DTO is not part of this model. No title validation is modelled on the server.
