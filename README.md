# Vue todo list, modelled in Dafny

A model of the state owner of a small Vue 2 todo application: the
`TodoList` component with its data (`todos`, `newTodoText`, `editedTodo`,
`beforeEditCache`, `visibility`), its computed values (`filteredTodos`,
`remaining`, `allDone` with its setter) and its methods (`addTodo`,
`removeTodo`, `editTodo`, `doneEdit`, `cancelEdit`, `clearCompletedTodo`,
`toggleFilter`); the item checkbox bound to `todo.completed`; the
`todoStorage` object that loads the list, renumbers its ids and keeps the id
counter `uid`; the three `filters`; and the `pluralize` filter of the tabs.

Files:

- `text.dfy` (module `Text`): the ECMAScript whitespace set and `Trim`, the
  model of `String.prototype.trim`.
- `todos.dfy` (module `Todos`): the `Todo` record, the filters, `remaining`
  and `allDone`, the pure list rewrites (`removeTodo`, `clearCompletedTodo`,
  the `allDone` setter, the checkbox toggle, the load-time renumbering), the
  id invariant ("ids distinct and below `uid`") and the lemmas about them.
- `storage.dfy` (module `Storage`): class `TodoStorage` with the stored list
  and `uid`; `Fetch` renumbers in a loop, as the source's `forEach` does.
- `todo_list.dfy` (module `TodoApp`): class `TodoList`, whose methods update
  its fields and the storage counter in place and keep `Valid()` (the id
  invariant, extended to the edited id); the `allDone` setter is a loop. Four use
  cases at the end (edit then cancel, edit then commit, a whitespace-only add,
  add "Buy milk") show what callers can
  conclude from the contracts.

The JS object identity used for `editedTodo` (`todo === editedTodo`) is
modelled by the todo's id, which the invariant keeps unique and keeps below
the counter, so a todo created later never reads as being edited; the id stays
valid when `addTodo` shifts the positions of the other todos. Operations
that the template invokes on a rendered todo take the todo's position in
`todos`.

## Model

| member | source | states |
|---|---|---|
| Text.Trim | js/main.js:190 | the trimmed text is empty iff the input is all whitespace; otherwise it starts and ends with non-whitespace; it is a contiguous piece of the input and everything cut off on either side is whitespace |
| Text.TrimIdempotent | js/main.js:190 | trimming twice equals trimming once |
| Text.TrimUntouched | js/main.js:190 | a text with non-whitespace at both ends is left as it is |
| Todos.FilterAll | js/main.js:17-19 | filters.all returns its input unchanged |
| Todos.FilterActive | js/main.js:20-22 | filters.active returns only todos that are not completed |
| Todos.FilterCompleted | js/main.js:23-25 | filters.completed returns only completed todos |
| Todos.FilterMembers | js/main.js:20-25 | a todo is in active's output iff it is in the list and not completed, and in completed's output iff it is in the list and completed |
| Todos.FiltersPartition | js/main.js:16-26 | active and completed each keep the list's order (are subsequences), their lengths add up to the list's length and their multisets add up to the list's multiset |
| Todos.ActiveThenCompletedIsEmpty | js/main.js:20-25 | applying completed to active's output gives the empty list |
| Todos.Filtered | js/main.js:171-173 | filteredTodos is a subsequence of the list; on the All tab it is the whole list; a todo is shown iff it is in the list and matches the tab (open on Active, completed on Completed) |
| Todos.RemainingCountsIncomplete | js/main.js:174-176 | remaining equals an independent count of the todos whose flag is false |
| Todos.AllDoneIff | js/main.js:180-182 | allDone reads true iff every todo is completed |
| Todos.WithCompleted | js/main.js:183-185 | the allDone setter keeps length, ids, texts and order and sets every flag to the written value |
| Todos.SetAllDoneReadsBack | js/main.js:179-186 | after writing allDone := v, remaining is 0 for v true and the full length for v false, and allDone reads v on a non-empty list |
| Todos.Toggled | js/main.js:82 | the checkbox flips the flag of exactly one todo and changes nothing else |
| Todos.ToggleTwice | js/main.js:82 | toggling twice restores the list |
| Todos.ToggleRemaining | js/main.js:82 | one toggle moves remaining by exactly one, up or down according to the old flag |
| Todos.RemoveById | js/main.js:200-202 | no todo with the removed id is left |
| Todos.RemoveByIdDropsExactly | js/main.js:200-202 | removeTodo keeps the remaining todos in order, keeps every todo with another id, and shrinks the list by the number of todos with that id |
| Todos.RemoveAbsentId | js/main.js:200-202 | removing an id no todo carries leaves the list unchanged |
| Todos.ActiveIdempotent | js/main.js:214-216 | clearing completed todos twice equals clearing once |
| Todos.ClearCompletedLeavesRemaining | js/main.js:214-216 | after clearCompletedTodo, remaining equals the length of the list and no completed todo is left |
| Todos.Renumbered | js/main.js:7 | loading gives every todo its position as id and keeps texts, flags and order |
| Todos.RenumberedIdempotent | js/main.js:5-10 | renumbering an already renumbered list changes nothing |
| Todos.RenumberedIdsValid | js/main.js:5-10 | a loaded list has distinct ids, all below the counter set to its length |
| Todos.PrependFreshKeepsIds | js/main.js:192-196 | prepending a todo with id uid and incrementing uid keeps ids distinct and below uid |
| Todos.WhereKeepsIds | js/main.js:201 | filtering the list (removeTodo, clearCompletedTodo) keeps ids distinct and below uid |
| Todos.SameIdsKeepIds | js/main.js:184 | rewriting texts or flags without touching ids keeps the id invariant |
| Todos.PrependRemaining | js/main.js:192-196 | adding an open todo raises remaining by one |
| Todos.Pluralize | js/main.js:118-120 | the unit is "item" when the count is 1 and "items" for every other count |
| Storage.TodoStorage.constructor | js/main.js:4-14 | the storage slot holds the given list and the counter starts at 0 |
| Storage.TodoStorage.Fetch | js/main.js:5-10 | the loaded list is the stored one renumbered 0..n-1, uid becomes n and the id invariant holds |
| Storage.TodoStorage.Save | js/main.js:11-13 | the stored list becomes the given list |
| Storage.SaveThenFetch | js/main.js:5-13 | save then fetch gives back the same texts and flags in the same order, with ids 0..n-1 |
| TodoApp.TodoList.constructor | js/main.js:154-161 | the initial state: the loaded list, empty input, no edit open, the All tab, and the id invariant |
| TodoApp.TodoList.FilteredTodos | js/main.js:171-173 | the shown todos are a subsequence of the list; on the All tab they are the whole list; a todo is shown iff it is in the list and matches the selected tab |
| TodoApp.TodoList.Remaining | js/main.js:174-176 | remaining is the number of todos not completed |
| TodoApp.TodoList.AllDone | js/main.js:180-182 | allDone reads true iff every todo is completed |
| TodoApp.TodoList.SetAllDone | js/main.js:183-185 | every flag is set to the written value, nothing else changes, allDone then reads the value back on a non-empty list, and the id invariant is kept |
| TodoApp.TodoList.SetNewTodoText | js/main.js:224 | the input's text becomes what was typed |
| TodoApp.TodoList.AddTodo | js/main.js:189-199 | a blank input changes nothing; otherwise exactly one open todo with the old uid and the trimmed text is put in front of the unchanged old list, uid goes up by one, the input is cleared, the new todo does not read as being edited, and the invariant is kept |
| TodoApp.TodoList.RemoveTodo | js/main.js:200-202 | the list becomes the old list without the todos carrying the id, and the id invariant is kept |
| TodoApp.TodoList.EditTodo | js/main.js:203-206 | the todo's text is cached, it becomes the one being edited, and the invariant is kept |
| TodoApp.TodoList.Editing | js/main.js:77 | the todo shows its edit field (`todo === editedTodo`) only when an edit is open and no other todo carries the edited id |
| TodoApp.TodoList.AtMostOneEditing | js/main.js:77 | at most one todo is being edited at a time |
| TodoApp.TodoList.SetText | js/main.js:94 | the edit field rewrites one todo's text and nothing else |
| TodoApp.TodoList.DoneEdit | js/main.js:207-209 | only the edit is closed; no text is changed, trimmed or removed, and the invariant is kept |
| TodoApp.TodoList.CancelEdit | js/main.js:210-213 | the cached text is written back into the todo and the edit is closed |
| TodoApp.TodoList.ToggleCompleted | js/main.js:82 | the todo's flag is flipped and the id invariant is kept |
| TodoApp.TodoList.ClearCompletedTodo | js/main.js:214-216 | the list becomes the active part of the old list, remaining then equals its length, and the id invariant is kept |
| TodoApp.TodoList.ToggleFilter | js/main.js:217-219 | the selected tab becomes the given one |
| TodoApp.EditThenCancel | js/main.js:203-213 | edit, type, cancel leaves the list as it was and closes the edit |
| TodoApp.EditThenDone | js/main.js:203-209 | edit, type, commit keeps exactly the typed text |
| TodoApp.AddWhitespaceOnly | js/main.js:190-191 | a whitespace-only input adds nothing: the list, the counter and the input stay as they were |
| TodoApp.AddBuyMilk | js/main.js:189-199 | "Buy milk" adds exactly one open todo with that text in front of the unchanged old list, with an id no other todo has |

## Left out

- The Vue templates, component wiring, `BaseInputText`'s listener merging, the `focus` directive and the root `new Vue` mount with its author and footer: these are view plumbing with no state of their own.
- `localStorage` and `JSON.parse` / `JSON.stringify`: browser I/O; the storage slot is modelled by the list it holds, so malformed JSON throwing during load is not modelled.
- The deep watcher that saves on every change: framework change observation; `Save` exists but the model does not call it after each mutation.
- Keystroke-level editing through `v-model`: modelled as the single assignments `SetNewTodoText` and `SetText`.
- TodoApp.TodoList.constructor: `beforeEditCache` starts as the empty string, while the source leaves it undefined until the first `editTodo`; `cancelEdit` before any `editTodo` is not reachable from the template.
- TodoApp.TodoList.DoneEdit: takes no todo, since the source ignores its argument.
- TodoApp.TodoList.ToggleFilter: takes one of the three tabs; the source accepts any string, and only the tabs' three names reach it.
- Storage.TodoStorage.constructor: `uid` starts at 0, while the source has no `uid` until the first `fetch`; the list component calls `Fetch` on creation, so no todo is ever numbered from that default.
- Storage.TodoStorage.Fetch: `uid` is an unbounded integer; JavaScript numbers lose precision past 2^53, which the model does not capture.
- Object identity: `editedTodo` holds the edited todo's id and per-todo operations take a position, instead of JS object references; a todo removed while being edited is therefore no longer addressable, as in the source it is no longer rendered.
