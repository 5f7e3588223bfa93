# To-do list widget: a Dafny model of its state transitions

The `ToDoList` React component keeps an ordered list of to-do items
(`id`, `text`, `completed`) and a draft string from its text box. Users add
the draft as a new item, toggle an item's completion, remove an item, or
clear the list; the list is restored from browser storage when the
component mounts. This project models that state core:

- `wrappers.dfy` — `Option`, the shape of "something was saved / nothing was saved".
- `js_string.dfy` (module `JsString`) — `String.prototype.trim` over a
  white-space predicate, and the fact that `trim()` is empty exactly when
  every character is white space.
- `todo_model.dfy` (module `TodoModel`) — the item record, the
  initialiser, and each handler's list transformation as a pure function
  (`Toggle`, `Add`, `Remove`, `Clear`) with its properties.
- `todo_ids.dfy` (module `TodoIds`) — what the `length + 1` id rule
  guarantees: without removals ids stay `1..n` and unique; removing any
  item but the last and then adding produces two items with the same id.
- `todo_widget.dfy` (module `TodoWidget`) — class `ToDoList` with the two
  state cells `todos` and `input` and one method per handler, including the
  early return of `addTodo` and its two-cell update.

Ids are never assumed unique: toggling and removing act on every item that
carries the id, exactly as `map` and `filter` do.

Three details of the code, and how the model treats them:

- Toggle and remove act on every item carrying the id, because they are a
  `map` and a `filter` over the whole list (src/ToDoList.tsx:22-23, 38).
- `JSON.parse` at src/ToDoList.tsx:12 is not guarded, so malformed saved
  data throws. The model does not cover that case: it receives the saved
  list already parsed, as an `Option`.
- `clearAll` empties the list and leaves the draft as it was.

## Model

| member | source | states |
|---|---|---|
| `TodoWidget.ToDoList.constructor` | src/ToDoList.tsx:10-14 | With nothing saved the list is exactly `[{1, "Hello world", false}]`; otherwise it is the saved list (even an empty one). The draft starts as `""`. |
| `TodoIds.InitialWithoutSaved` | src/ToDoList.tsx:12-14 | With nothing saved, the initial state is the one-item seed list with an empty draft, and its ids are sequential. |
| `JsString.TrimStart` | src/ToDoList.tsx:29 | The result is a suffix of the input. Everything dropped is white space, and the result does not start with white space. |
| `JsString.TrimEnd` | src/ToDoList.tsx:29 | The result is a prefix of the input. Everything dropped is white space, and the result does not end with white space. |
| `JsString.Trim` | src/ToDoList.tsx:29 | The trimmed draft is the slice of the draft left after dropping white space at both ends: everything before and after it is white space, and it neither starts nor ends with white space. |
| `JsString.TrimEmptyIffBlank` | src/ToDoList.tsx:29 | `draft.trim() === ""` holds if and only if every character of the draft is white space. |
| `TodoModel.Toggle` | src/ToDoList.tsx:22-23 | The length is kept, and so are every item's id and text. `completed` changes on an item if and only if its id equals the argument. |
| `TodoModel.ToggleAbsent` | src/ToDoList.tsx:22-23 | Toggling an id that no item carries returns the list unchanged. |
| `TodoModel.ToggleTwice` | src/ToDoList.tsx:22-23 | Toggling the same id twice returns the original list. |
| `TodoModel.ToggleCommutes` | src/ToDoList.tsx:22-23 | Toggles of two ids give the same list in either order. |
| `TodoWidget.ToDoList.HandleToggle` | src/ToDoList.tsx:20-26 | `todos` becomes the toggled list; the draft is unchanged. |
| `TodoModel.Add` | src/ToDoList.tsx:28-35 | A draft that is all white space leaves list and draft unchanged. Otherwise the old list is an unchanged prefix, one item `{|old|+1, untrimmed draft, false}` follows, and the draft becomes `""`. |
| `TodoIds.AddAppends` | src/ToDoList.tsx:30-33 | For a non-blank draft the new list is exactly the old list followed by the new item. |
| `TodoWidget.ToDoList.AddTodo` | src/ToDoList.tsx:28-35 | A blank draft returns early with both cells unchanged. Otherwise `todos` gets the new item appended and `input` becomes `""`, as `TodoModel.Add` computes. |
| `TodoModel.CountIdPositiveIff` | src/ToDoList.tsx:38 | An id has a positive match count if and only if some item carries it. |
| `TodoModel.Remove` | src/ToDoList.tsx:38 | Every item kept is an item of the old list, and none carries the id. The new length is the old length minus the number of items carrying the id, so all of them go, not only the first. |
| `TodoModel.RemoveKeepsOthers` | src/ToDoList.tsx:38 | Every item with another id is kept as many times as it occurred, with its fields unchanged. The result is an order-preserving subsequence of the old list. |
| `TodoModel.RemoveAbsent` | src/ToDoList.tsx:38 | Removing an id that no item carries returns the list unchanged. |
| `TodoModel.RemoveTwice` | src/ToDoList.tsx:38 | Afterwards no item carries the id, so removing it again changes nothing. |
| `TodoModel.RemoveAfterToggle` | src/ToDoList.tsx:20-39 | Toggling an id and then removing it gives the same list as removing it directly. |
| `TodoWidget.ToDoList.RemoveTodo` | src/ToDoList.tsx:37-39 | `todos` becomes the filtered list; the draft is unchanged. |
| `TodoWidget.ToDoList.ClearAll` | src/ToDoList.tsx:41-43 | `todos` becomes empty whatever it held; the draft is unchanged. |
| `TodoModel.ClearThenAdd` | src/ToDoList.tsx:28-43 | After clearing, adding a non-blank draft gives exactly `[{1, draft, false}]` and an empty draft. |
| `TodoWidget.ToDoList.SetInput` | src/ToDoList.tsx:81 | The text box's change handler replaces the draft and leaves the list alone. |
| `TodoIds.SequentialIsUnique` | src/ToDoList.tsx:32 | If the ids are `1..n` in order, they are unique and `n + 1` is not yet in use. |
| `TodoIds.SequentialAppend` | src/ToDoList.tsx:32 | Appending id `length + 1` to a list with ids `1..n` keeps them sequential and unique. |
| `TodoIds.AddUniqueIff` | src/ToDoList.tsx:32 | Take a list with unique ids and a non-blank draft. Adding keeps the ids unique if and only if no item already carries `length + 1`. |
| `TodoIds.StepKeepsSequential` | src/ToDoList.tsx:20-43 | Toggle, add, clear and editing the draft each keep ids `1..n`. |
| `TodoIds.RunWithoutRemoveKeepsIdsUnique` | src/ToDoList.tsx:20-43 | Start from ids `1..n` and apply any sequence of handlers with no remove among them. The ids stay sequential, and so unique. |
| `TodoIds.RemoveUniqueAt` | src/ToDoList.tsx:38 | If ids are unique, removing item k's id removes exactly position k and keeps the rest in order. |
| `TodoIds.RemoveSequentialAt` | src/ToDoList.tsx:38 | On a list with ids `1..n`, removing id k drops exactly the k-th item and keeps the rest in order. |
| `TodoIds.NotLastCollides` | src/ToDoList.tsx:32-38 | On a list with ids `1..n`, dropping any item but the last and appending id n gives two items with id n. |
| `TodoIds.RemoveThenAddUniqueIff` | src/ToDoList.tsx:32-38 | On a list with ids `1..n`, remove id k and then add a non-blank draft. The ids stay unique if and only if k was the last id, n. |
| `TodoIds.RemoveThenAddCollides` | src/ToDoList.tsx:32-38 | Start from items with ids 1 and 2, remove 1, and add a non-blank draft. The list becomes `[{2, b, cb}, {2, draft, false}]`, in which two items carry id 2. |

## Left out

- Rendering (JSX, class strings, the completed-item styling) at src/ToDoList.tsx:45-100: presentation only. The one handler wired there inline, the text box's `onChange`, is modelled as `SetInput`.
- Persistence: `localStorage.getItem`/`setItem` and the `useEffect` that saves on every change (src/ToDoList.tsx:11, 16-18). These are browser I/O. The saved entry reaches the model as an `Option` of already-parsed items. `None` covers both a missing entry and the empty string, which the `?:` test treats alike.
- `JSON.stringify`/`JSON.parse`: a library outside this file. No serialisation round trip is claimed, and malformed saved data (which makes the source throw) is not modelled.
- React's hook semantics (batched `setState`, handlers reading the state of the render they were created in): each handler is modelled as running to completion on the current state.
- `IsWhitespace` lists the white space and line terminators of ECMA-262 with the Unicode space separators of current Unicode versions. An engine built on a different Unicode version may differ.
- Ids and lengths are unbounded integers. JavaScript numbers lose precision above 2^53, which a to-do list does not reach.
