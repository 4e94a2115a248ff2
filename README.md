# Todo list reducer — a Dafny model

This project models the state core of a browser todo-list app written in
React and TypeScript. The core is the **todo reducer**. It maps a state (an
ordered list of `{id, todo, completed}` records plus a filter mode `ALL`,
`ACTIVE` or `COMPLETED`) and an action to the next state. Around it sit the
list component's derived values: the list shown for the current filter, the
"items left" count, and the record a form submission builds.

The reducer exists twice in the source:

- `src/Reducers/todoReducer.tsx` has six actions: add, toggle, delete, clear
  completed, set filter, and replace all records.
- `src/components/TodoList.tsx` has its own copy with five actions (no
  replace). Its toggle carries a whole record, of which only the id is read.

Modules:

- `Seqs` (`seqs.dfy`) models JavaScript's `Array.prototype.filter` as `Filter`.
  Its lemmas say the result is an order-preserving subsequence with exact
  multiplicities, that filtering is idempotent, and that a test and its
  negation partition the input.
- `Todos` (`todos.dfy`) holds the record, the filter mode and the state. It
  also holds the three list transformations both reducers share: toggle by
  id (a `map`), delete by id and clear completed (both a `filter`). Beside
  them are the lemmas on these transformations and on unique identifiers.
- `TodoReducer` (`todo_reducer.dfy`) holds the standalone reducer and one
  lemma per action.
- `TodoList` (`todo_list.dfy`) holds the component's reducer and its
  agreement with the standalone one. It also models the shown list, the
  items-left count and the submitted record. The class `TodoListComponent`
  holds the reducer state and the input text, and its event handlers
  dispatch actions.

`handleSubmit` (`src/components/TodoList.tsx:88-97`) does not reject an empty
description: it appends the record whatever the text. `SubmitAppends` and
`HandleSubmit` model that.

Toggle and delete act on every record whose id matches, as `map` and
`filter` do. They do not stop at the first match. This matters only when ids
repeat. `ReduceKeepsUnique` shows that no action except add and replace can
make them repeat.

Both reducers end in a `default` branch that returns the state unchanged.
The TypeScript action unions cannot reach it, but a plain JavaScript
dispatch can. The model gives it the action `Unrecognised(kind)`. Here
`kind` is only a label for the unknown tag and is never one of the known
tags: an object tagged with a known tag is the matching constructor.

## Model

| member | source | states |
|---|---|---|
| Seqs.Filter | src/Reducers/todoReducer.tsx:37-42 | the result holds exactly the input's elements that pass the test, and is no longer than the input |
| Seqs.FilterIsSubsequence | src/Reducers/todoReducer.tsx:37-42 | filtering keeps the surviving elements in their original order |
| Seqs.FilterMultiset | src/Reducers/todoReducer.tsx:37-42 | a passing element keeps its number of occurrences; a failing one has none |
| Seqs.FilterIdempotent | src/Reducers/todoReducer.tsx:37-42 | filtering twice by the same test equals filtering once |
| Todos.Flip | src/Reducers/todoReducer.tsx:29-31 | the map callback keeps id and text and negates the flag exactly when the id matches |
| Todos.ToggleById | src/Reducers/todoReducer.tsx:28-32 | the map keeps length, order, ids and texts; a record's flag changes if and only if its id matches |
| Todos.DeleteById | src/Reducers/todoReducer.tsx:37 | no record with the id remains; a record is kept if and only if it was present and its id differs |
| Todos.RemoveCompleted | src/Reducers/todoReducer.tsx:42 | no completed record remains; a record is kept if and only if it was present and incomplete |
| Todos.ToggleTwice | src/Reducers/todoReducer.tsx:28-32 | toggling the same id twice gives back the original list |
| Todos.ToggleUnchangedIff | src/Reducers/todoReducer.tsx:28-32 | a toggle leaves the list unchanged if and only if no record has the id |
| Todos.DeleteKeepsOrder | src/Reducers/todoReducer.tsx:37 | the delete result is an order-preserving subsequence with exactly the records whose id differs |
| Todos.DeleteTwice | src/Reducers/todoReducer.tsx:37 | a second delete of the same id is a no-op |
| Todos.DeleteUnchangedIff | src/Reducers/todoReducer.tsx:37 | a delete leaves the list unchanged if and only if no record has the id |
| Todos.RemoveCompletedKeepsOrder | src/Reducers/todoReducer.tsx:42 | the clear result is an order-preserving subsequence with exactly the incomplete records |
| Todos.RemoveCompletedTwice | src/Reducers/todoReducer.tsx:42 | a second clear is a no-op |
| Todos.SubsequenceKeepsUnique | src/Reducers/todoReducer.tsx:34-43 | dropping records from a list with distinct ids keeps the ids distinct |
| Todos.ToggleKeepsUnique | src/Reducers/todoReducer.tsx:25-33 | toggle keeps distinct ids distinct |
| Todos.DeleteKeepsUnique | src/Reducers/todoReducer.tsx:34-38 | delete keeps distinct ids distinct |
| Todos.RemoveCompletedKeepsUnique | src/Reducers/todoReducer.tsx:39-43 | clear keeps distinct ids distinct |
| Todos.AppendKeepsUnique | src/Reducers/todoReducer.tsx:20-24 | appending a record with a new id keeps ids distinct |
| TodoReducer.Reduce | src/Reducers/todoReducer.tsx:18-57 | only set-filter changes the filter; set-filter and unknown actions keep the records; add grows the list by one; toggle keeps its length; delete and clear only drop records |
| TodoReducer.AddTodoAppends | src/Reducers/todoReducer.tsx:20-24 | add makes the list one longer, puts the payload last, keeps every earlier record and keeps the filter |
| TodoReducer.ToggleTodoFlips | src/Reducers/todoReducer.tsx:25-33 | toggle keeps length, order and filter; a matching record has its flag negated and keeps id and text; every other record is identical |
| TodoReducer.ToggleTodoTwice | src/Reducers/todoReducer.tsx:25-33 | toggling the same id twice restores the whole state |
| TodoReducer.ToggleTodoNoMatch | src/Reducers/todoReducer.tsx:25-33 | a toggle leaves the state unchanged if and only if no record has the id |
| TodoReducer.DeleteTodoRemoves | src/Reducers/todoReducer.tsx:34-38 | delete yields the in-order records whose id differs, with none carrying the id; a second delete is a no-op; the filter is kept |
| TodoReducer.DeleteTodoNoMatch | src/Reducers/todoReducer.tsx:34-38 | a delete leaves the state unchanged if and only if no record has the id |
| TodoReducer.ClearCompletedKeepsActive | src/Reducers/todoReducer.tsx:39-43 | clear yields exactly the incomplete records in order, none completed; a second clear is a no-op; the filter is kept |
| TodoReducer.SetFilterOnlyFilter | src/Reducers/todoReducer.tsx:44-48 | set-filter installs the mode and leaves the records untouched |
| TodoReducer.SetTodosReplaces | src/Reducers/todoReducer.tsx:49-53 | replace installs the given list and leaves the filter untouched |
| TodoReducer.UnrecognisedIsIdentity | src/Reducers/todoReducer.tsx:54-55 | an action with an unknown tag returns the state unchanged |
| TodoReducer.ReduceKeepsUnique | src/Reducers/todoReducer.tsx:18-57 | distinct ids stay distinct under every action, given that an add brings a new id and a replacement list has distinct ids |
| TodoList.InitialState | src/components/TodoList.tsx:23-26 | the component starts from the given records with filter all, so the shown list is exactly those records |
| TodoList.ListReduce | src/components/TodoList.tsx:29-63 | only set-filter changes the filter; set-filter and unknown actions keep the records; toggle keeps the length |
| TodoList.ReducersAgree | src/components/TodoList.tsx:29-63 | the component's reducer equals the standalone reducer on all five shared actions and on unknown ones |
| TodoList.ToggleReadsOnlyId | src/components/TodoList.tsx:36-44 | two toggle payloads with the same id give the same state |
| TodoList.ListUnrecognisedIsIdentity | src/components/TodoList.tsx:60-61 | an action with an unknown tag returns the state unchanged |
| TodoList.Passes | src/components/TodoList.tsx:77-85 | a record is shown always under all, and otherwise exactly when its flag matches the mode (completed shows done records, active shows open ones) |
| TodoList.ShownList | src/components/TodoList.tsx:76-86 | the shown list is no longer than the whole list and holds exactly the records that are present and pass the current filter |
| TodoList.InitialShowsAll | src/components/TodoList.tsx:23-26 | the initial filter is all, so the shown list is exactly the given records |
| TodoList.ShownEqualsFilters | src/components/TodoList.tsx:76-86 | the active view equals what clear-completed keeps; the completed view equals the completed records |
| TodoList.ShownListByFilter | src/components/TodoList.tsx:76-86 | all shows the whole list; active shows exactly the incomplete records and completed exactly the completed ones, each in order |
| TodoList.ActiveCompletedPartition | src/components/TodoList.tsx:76-86 | the active and completed views hold every record once between them, share no record, and their lengths sum to the total |
| TodoList.ItemsLeft | src/components/TodoList.tsx:193 | the count is at most the number of records handed over, and is 0 if and only if all of them are completed |
| TodoList.ItemsLeftOfShown | src/components/TodoList.tsx:146-150 | handed the shown list, the count is 0 under the completed filter and the whole list's incomplete count otherwise |
| TodoList.NewTodo | src/components/TodoList.tsx:90-94 | the submitted record carries the fresh id and the typed text as given, is not completed, and so shows under all and active but not under completed |
| TodoList.SubmitAppends | src/components/TodoList.tsx:88-97 | a submission appends an incomplete record with the typed text, even an empty one; the count grows by one unless the filter is completed; a fresh id keeps ids distinct |
| TodoList.BuyMilkScenario | src/components/TodoList.tsx:88-113 | add, toggle, the active and completed views, then clear, give the expected lists step by step |
| TodoList.TodoListComponent.constructor | src/components/TodoList.tsx:71-72 | mounting starts from the given records, showing all, with an empty input field |
| TodoList.TodoListComponent.Dispatch | src/components/TodoList.tsx:71 | the new state is the reducer's result on the old state; the input text is kept |
| TodoList.TodoListComponent.ChangeDescription | src/components/TodoList.tsx:133 | typing replaces the input text and keeps the reducer state |
| TodoList.TodoListComponent.HandleSubmit | src/components/TodoList.tsx:88-97 | the records gain one incomplete record with the fresh id and the typed text at the end; the filter is kept; the field is emptied |
| TodoList.TodoListComponent.HandleCheck | src/components/TodoList.tsx:99-101 | the records are toggled by the clicked record's id; filter and field are kept |
| TodoList.TodoListComponent.HandleDelete | src/components/TodoList.tsx:103-105 | the records with the id are removed; filter and field are kept |
| TodoList.TodoListComponent.ClearHandle | src/components/TodoList.tsx:107-109 | the completed records are removed; filter and field are kept |
| TodoList.TodoListComponent.FilterHandle | src/components/TodoList.tsx:111-113 | the filter becomes the chosen mode; records and field are kept |

## Left out

- Rendering: the JSX and class-name choices in `TodoList`, `Todo`, `TodoStats` and `App` are markup.
- React runtime: `useReducer` and `useState` become the fields of `TodoListComponent`. Re-rendering and update batching are not modelled. Each handler's combined effect is stated as one step.
- The stats bar's own `activeFilter` highlight state (`src/components/TodoList.tsx:182-187`) only selects a CSS class. Its forwarding to the list's filter is modelled by `FilterHandle`.
- `crypto.randomUUID()` is a random foreign call. It becomes the caller-supplied `freshId`. Its uniqueness is an assumption stated where needed (`!HasId(...)`), not something the model produces.
- The theme flag in `src/App.tsx:13-17` is a plain boolean negation of UI state. `App` renders no list: the list component is commented out there.
- Persistence to browser local storage: no file of the source has it, so it is not part of this model.
- The `{ type: ... }` object encoding of actions and the string encoding of filter modes become Dafny datatypes. Any tag outside the known ones becomes `Unrecognised`. Its `kind` string is a label only, and the model does not constrain it. `Unrecognised("ADD_TODO")` does not stand for an add action: an add is always `AddTodo`.
