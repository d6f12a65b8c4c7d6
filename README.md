# ToDoAppLab01 task list, modelled in Dafny

The application is a single-screen React Native to-do list. All of its behaviour
lives in the `App` component. The component holds the task list, the text of the
new-task input, the colour of the Add button and an edit session. Its handlers
are: add, toggle done, delete, type in the input, start editing, cancel editing
and save an edit. All but `cancelEditing` are bound to a control in the JSX
(App.js:48-93). This project models that state machine. The rendering is not
modelled.

- `Text.dfy` (module `Text`) models `String.prototype.trim` and the add guard
  `taskTitle.trim().length > 0`. It proves that the guard holds exactly when the
  text contains a non-whitespace character.
- `Tasks.dfy` (module `Tasks`) defines the task record `{id, title, done}` and the
  three list transforms the handlers use, as recursive functions over
  `seq<Task>`: the `map` that flips `done` (`Toggled`), the `map` that overwrites
  `title` (`Retitled`) and the `filter` that drops tasks (`Without`). Each one
  acts on every task whose id matches, because ids come from `Math.random()` and
  nothing keeps them distinct. Lemmas give each transform a partner property:
  - toggling twice is the identity;
  - an absent id changes nothing;
  - a second save overrides the first;
  - deleting preserves the survivors' order, is idempotent, and removes exactly
    one task when ids are distinct;
  - each list transform preserves distinct ids, and so does appending a task
    whose id is not already in use.
- `App.dfy` (module `App`) has class `TodoApp`. Its five fields are the five
  `useState` slots, and each handler is a method that assigns the slots that
  handler's setters assign. Every method's postcondition gives the full new
  state in terms of the old one. The class has two more members:
  - `AddEnabled`, the Add button's enabled state;
  - `IdleHasNoDraft`, a predicate saying the draft is empty whenever no edit
    session is open. The constructor establishes it and every method keeps it.
- `Scenarios.dfy` (module `Scenarios`) has client methods that run handler
  call sequences against `TodoApp`. Some of them cannot be produced from the UI
  (see below). They cover: adding the same title
  twice; a blank input being ignored; the button colour around an add; toggling
  twice; cancelling an edit; committing an edit on blur, including an empty
  draft; deleting the task that is being edited; and two tasks that share an id.
  Each claim is checked with `assert`, using only the methods' specifications.

Modelling decisions:
- A task id is an opaque type `TaskId` compared only by equality. `AddTask`
  takes the new id as a parameter.
- The Add button's colour is a two-valued `ButtonColor`: `Grey` is `'#d3d3d3'`
  and `Blue` is `'#007bff'`.
- The whitespace that `trim` strips is ECMAScript's WhiteSpace and
  LineTerminator set, written out code point by code point.

## Behaviours of the code worth noting

- `deleteTask` (App.js:23-25) leaves `editMode` and `editTaskTitle` alone, even
  when they name the deleted task. `DeleteWhileEditing` in `Scenarios.dfy` shows
  this. It is a fact about the handler, not one a user can observe: a row in edit
  mode shows the edit field in place of its Delete button (App.js:64-86). So
  the UI never calls `deleteTask` with the id in edit mode.
- `cancelEditing` (App.js:37-40) is defined but not bound to any control in the
  JSX (App.js:48-93). `CancelEdit` in `Scenarios.dfy` calls it directly.
- `startEditing` (App.js:32-35) takes the draft as a parameter and does not look
  the task up. Its only caller passes the row's own title (App.js:82).
- `saveTaskTitle` (App.js:42-46) has no emptiness check, so a title can become
  empty. Only `addTask` checks its input (App.js:12).
- Ids are `Math.random().toString()` (App.js:13). Nothing checks them for
  collisions, and toggle, save and delete act on every task with a matching id
  (App.js:20,24,43).
- After a successful add, `addTask` sets the button colour to Blue (App.js:15),
  even though the input is now empty and the button is disabled (App.js:58).
  `ButtonAroundAdd` in `Scenarios.dfy` shows this.

## Model

| member | source | states |
|---|---|---|
| `Text.Trim` | App.js:12 | the trimmed text is a slice of the input, everything cut from either end is whitespace, and a non-empty result neither starts nor ends with whitespace |
| `Text.CanAddIffHasContent` | App.js:12 | the add guard `trim().length > 0` (the predicate `CanAdd`, also used by `handleInputChange` at App.js:29 and the button's `disabled` at App.js:58) holds exactly when the text contains a non-whitespace character, so `trim()` yields the empty string exactly on all-whitespace text |
| `Text.TrimIdempotent` | App.js:12 | trimming an already trimmed text changes nothing |
| `Tasks.Toggled` | App.js:20 | the toggled list has the same length and order; on each task, id and title are kept, and `done` is negated exactly when the id matches |
| `Tasks.ToggledTwice` | App.js:19-21 | toggling the same id twice restores the original list |
| `Tasks.ToggledAbsent` | App.js:19-21 | toggling an id that no task carries leaves the list unchanged |
| `Tasks.ToggledKeepsUniqueIds` | App.js:20 | toggling keeps the ids of a list with distinct ids distinct |
| `Tasks.Retitled` | App.js:43 | the saved list has the same length and order; on each task, id and `done` are kept, and the title becomes the new title (which may be empty) exactly when the id matches |
| `Tasks.RetitledAbsent` | App.js:42-46 | saving under an id that no task carries leaves the list unchanged |
| `Tasks.RetitledLastWins` | App.js:42-46 | of two saves under the same id, only the second title remains |
| `Tasks.RetitledSameTitle` | App.js:42-46 | when ids are distinct, saving a task's own title back leaves the list unchanged |
| `Tasks.RetitledKeepsUniqueIds` | App.js:43 | saving keeps the ids of a list with distinct ids distinct |
| `Tasks.Without` | App.js:24 | the remaining list holds exactly the tasks whose id differs, as a subsequence in the original order, and its length drops by the number of tasks that carried the id |
| `Tasks.WithoutAbsent` | App.js:23-25 | deleting an id that no task carries leaves the list unchanged |
| `Tasks.WithoutConcat` | App.js:24 | deleting distributes over concatenation, so survivors keep their relative order |
| `Tasks.WithoutIdempotent` | App.js:23-25 | deleting the same id twice is the same as deleting it once |
| `Tasks.WithoutUniquePresent` | App.js:23-25 | when ids are distinct, deleting a present id removes exactly one task |
| `Tasks.WithoutKeepsUniqueIds` | App.js:24 | deleting keeps the ids of a list with distinct ids distinct |
| `Tasks.AppendFreshKeepsUniqueIds` | App.js:13 | appending a task whose id is not yet in use keeps ids distinct |
| `App.TodoApp.constructor` | App.js:5-9 | the initial state is no tasks, an empty input, a Grey button, no edit session and an empty draft |
| `App.TodoApp.AddEnabled` | App.js:58 | the Add button is enabled exactly when the input contains a non-whitespace character |
| `App.TodoApp.AddTask` | App.js:11-17 | if the trimmed input is non-empty: one task is appended at the end with the given id, the input as its title and `done` false, earlier tasks are kept in order, the input is cleared and the button turns Blue; otherwise tasks, input and colour are unchanged; the edit session is never touched |
| `App.TodoApp.ToggleTaskStatus` | App.js:19-21 | the list becomes the toggled list; input, colour and edit session are unchanged |
| `App.TodoApp.DeleteTask` | App.js:23-25 | the list becomes the filtered list; input, colour, edit mode and draft are all unchanged, even when the edit mode names the deleted id |
| `App.TodoApp.HandleInputChange` | App.js:27-30 | the input becomes the given text; the button is Blue exactly when the add guard holds for that text, and Grey otherwise; tasks and edit session are unchanged |
| `App.TodoApp.StartEditing` | App.js:32-35 | edit mode becomes the id and the draft becomes the given title, replacing any open session; tasks, input and colour are unchanged |
| `App.TodoApp.UpdateDraft` | App.js:64-68 | while a session is open, the edit field's text change replaces the draft and nothing else |
| `App.TodoApp.CancelEditing` | App.js:37-40 | the edit mode is cleared and the draft emptied; tasks, input and colour are unchanged |
| `App.TodoApp.SaveTaskTitle` | App.js:42-46 | the list becomes the retitled list, with no emptiness check on the title; then the edit mode is cleared and the draft emptied |
| `App.TodoApp.Blur` | App.js:64-69 | losing focus on the edit field saves the draft under the id in edit mode, then closes the session |

## Left out

- Rendering (`View`, `FlatList`, `TextInput`, `Switch`, `TouchableOpacity`, `keyExtractor`) and the `StyleSheet` (App.js:48-155). These are presentation. From the wiring, only the edit field's `onChangeText` and `onBlur` handlers are modelled, as `UpdateDraft` and `Blur`.
- `Math.random().toString()` id generation (App.js:13). It is nondeterministic and floating-point, so the caller supplies the id to `AddTask`.
- The hex colour strings. The model keeps only which of the two colours is set.
- React's batched and asynchronous state updates and the closures that capture a stale `tasks`. Each handler is modelled as one atomic, sequential update.
- JavaScript strings are UTF-16 code units, while Dafny strings are Unicode scalar values. Every whitespace code point is in the Basic Multilingual Plane, so trimming agrees on well-formed text. Lone surrogates are not modelled. The space-separator set is the Zs category of current Unicode versions.
- When two tasks share the edit-mode id, the component renders one edit field for each of them. `Blur` models one field losing focus. Every such field saves under the same id.
