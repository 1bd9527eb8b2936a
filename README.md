# Task tracker client: a Dafny model

This project models the client-side logic of a small task-tracking web app.
It is a React front end over a hosted backend. The backend does the storage
and the sign-in; the client only holds state. The model covers four pieces:

- **The task controller** (`useTasks`). It keeps an in-memory mirror of the
  signed-in user's task rows, plus `loading` and `error`. It patches the
  mirror only after the backend confirms a request. It is modelled as the
  class `UseTasks.TaskStore`. The list patches it makes (prepend, replace by
  id, filter by id, find by id) are pure functions with lemmas.
- **The task list view** (`TaskList`). It chooses between a spinner, an error
  banner, an empty state and the list. The list is split into an "Active"
  and a "Completed" section, both in the order the controller holds.
- **The add-task form** (`TaskForm`). This is a small state machine: title
  and description drafts, the description box, and the submit's `loading`
  and `error`.
- **The task card** (`TaskItem`). This is also a state machine: edit mode,
  drafts of title, description and priority, and `loading`. It has toggle,
  save, cancel and a delete that needs confirmation.

Every backend request is replaced by a parameter holding what it came back
with: `Outcome<T> = Ok(value) | Err(thrown)`. Here `thrown` is `Some(m)` when
the code catches an `Error` with message `m`, and `None` when it catches
anything else. A component's `onSubmit`/`onUpdate` answer is an `OpResult`
parameter. The user's answer to the delete prompt is a boolean parameter.

Each asynchronous handler is split at its `await`. The `Begin…` method runs
up to the request and returns what is sent. The `End…` method takes the
answer. The handler itself runs both. This lets the model state what the UI
shows while a request is pending: `loading` is true and the form's error is
cleared.

`String.prototype.trim` is `Text.Trim`. It strips the WhiteSpace code points
of section 12.2 of ECMA-262 (TAB, VT, FF, ZWNBSP and the space separators,
category Zs) and its LineTerminators from section 12.3 (LF, CR, LS, PS).
Category Zs is enumerated as Unicode 15 lists it.

Behaviour the model takes from the code:
- `addTask` does not check the title. Only the form refuses a blank title.
- A failed fetch records the error but keeps the rows. A later successful
  fetch does not clear the error.
- The error text is `err.message`, which may be empty. The list view treats
  an empty error as no error. The form falls back to its default text.
- The `Task` row type has no `priority`, yet the card reads `task.priority`,
  the row's undeclared priority column. The model passes that column's value
  to the card beside the row. `updateTask` accepts title, description and
  `completed` only.

## Model

| member | source | states |
|---|---|---|
| `Text.Trim` | src/components/TaskForm.tsx:16 | the trimmed string is no longer than the input and neither starts nor ends with whitespace |
| `Text.TrimIsSlice` | src/components/TaskForm.tsx:16 | trimming removes a whitespace prefix and a whitespace suffix and nothing else |
| `Text.BlankIffAllWhitespace` | src/components/TaskForm.tsx:16 | `!s.trim()` holds exactly when every character of `s` is whitespace |
| `Text.TrimIdempotent` | src/components/TaskForm.tsx:21 | trimming an already trimmed string changes nothing, so the title the form hands on is left as it is by a second trim |
| `Text.TrimmedOrUndefined` | src/components/TaskForm.tsx:21 | the trimmed-or-undefined value is absent exactly for whitespace-only `s`, else the non-empty trimmed text |
| `Text.OrElse` | src/components/TaskForm.tsx:28 | the fallback-or value gives `s` when it is present and non-empty, else the fallback; with a non-empty fallback the result is never empty |
| `Filtering.Filter` | src/components/TaskList.tsx:44-45 | every kept element satisfies the predicate and comes from the input; every input element that satisfies it is kept |
| `Filtering.FilterConcat` | src/components/TaskList.tsx:44-45 | filtering distributes over concatenation, so the kept elements stay in input order |
| `Filtering.FilterCount` | src/hooks/useTasks.ts:80 | a kept value occurs as often as in the input; a dropped value does not occur |
| `Filtering.FilterKeepsAll` | src/hooks/useTasks.ts:80 | when every element is kept, the result is the input |
| `Filtering.FilterPartition` | src/components/TaskList.tsx:44-45 | complementary predicates split the input: lengths and multisets add up to the input's |
| `Types.ErrorText` | src/hooks/useTasks.ts:22 | a caught `Error` gives its message; anything else gives the operation's default text |
| `UseTasks.InsertPayload` | src/hooks/useTasks.ts:36-41 | the insert is owned by the user, has the given title unchecked, `completed` false, and a null description exactly when the description is absent or empty |
| `UseTasks.FindById` | src/hooks/useTasks.ts:88 | `find` is absent exactly when no entry has the id; otherwise it is an entry of the list with that id |
| `UseTasks.FindByIdFirst` | src/hooks/useTasks.ts:88 | `find` returns the first entry with the id |
| `UseTasks.FindByIdUnique` | src/hooks/useTasks.ts:88 | with unique ids, `find` returns the one entry with the id |
| `UseTasks.ReplaceById` | src/hooks/useTasks.ts:64 | the `map` keeps length and positions, turns each entry with the id into the row, and leaves every other entry as it was |
| `UseTasks.ReplaceByIdAbsent` | src/hooks/useTasks.ts:64 | replacing an id the list does not hold leaves the list unchanged |
| `UseTasks.ReplaceByIdKeepsUnique` | src/hooks/useTasks.ts:64 | a returned row that keeps the id keeps the ids unique |
| `UseTasks.ReplaceTwice` | src/hooks/useTasks.ts:64 | a second replacement of the same id overrides the first |
| `UseTasks.FindAfterReplace` | src/hooks/useTasks.ts:64 | after replacing a present id by a row with that id, `find` returns that row |
| `UseTasks.RemoveById` | src/hooks/useTasks.ts:80 | after the `filter` no entry has the id, and the list is no longer than before |
| `UseTasks.RemoveByIdCount` | src/hooks/useTasks.ts:80 | every entry with the id is removed; every other entry stays as often as it was |
| `UseTasks.RemoveByIdAbsent` | src/hooks/useTasks.ts:80 | deleting an id the list does not hold leaves the list unchanged |
| `UseTasks.RemoveByIdKeepsOrder` | src/hooks/useTasks.ts:80 | deletion distributes over concatenation, so the survivors keep their relative order |
| `UseTasks.RemoveByIdKeepsUnique` | src/hooks/useTasks.ts:80 | deletion keeps the ids unique |
| `UseTasks.PrependKeepsUnique` | src/hooks/useTasks.ts:46 | prepending a row with a new id keeps the ids unique |
| `UseTasks.ToggleRequest` | src/hooks/useTasks.ts:87-93 | no update is sent exactly when no entry has the id; otherwise only `completed` is sent, flipped from the found entry |
| `UseTasks.AppliedUpdate` | src/hooks/useTasks.ts:55-61 | a backend that applies the update sets each of title, description and `completed` that the update carries, keeps each it omits, never changes id, owner or creation time, and stamps `updated_at` |
| `UseTasks.EchoedToggleFlips` | src/hooks/useTasks.ts:88-90 | a toggle echoed by the backend replaces the entries with the id by the found entry with `completed` flipped, and `find` then returns that row |
| `UseTasks.EchoedToggle` | src/hooks/useTasks.ts:88-90 | after a toggle the backend echoes back, the length is kept, an absent id changes nothing, and every entry with the id becomes the first match with `completed` flipped and the new stamp |
| `UseTasks.ToggleTwiceRestores` | src/hooks/useTasks.ts:87-93 | two echoed toggles turn every entry with the id into the first such entry as it was, apart from `updated_at`, and leave all other entries unchanged; with unique ids each toggled entry gets back its own original value |
| `UseTasks.TaskStore.constructor` | src/hooks/useTasks.ts:6-8 | the mirror starts empty, loading, without error |
| `UseTasks.TaskStore.BeginFetch` | src/hooks/useTasks.ts:12 | the fetch marks the mirror loading and changes nothing else |
| `UseTasks.TaskStore.EndFetch` | src/hooks/useTasks.ts:19-25 | rows (or `[]` for null data) replace the mirror and keep the old error; a failure sets the error (message or default) and keeps the rows; loading ends |
| `UseTasks.TaskStore.FetchTasks` | src/hooks/useTasks.ts:10-26 | the whole fetch: same final state as `EndFetch` |
| `UseTasks.TaskStore.AddTask` | src/hooks/useTasks.ts:32-51 | sends `InsertPayload`; on success the returned row is first and the old list follows unchanged; on failure the list is unchanged and the error is the message or 'Failed to add task' |
| `UseTasks.TaskStore.UpdateTask` | src/hooks/useTasks.ts:53-69 | on success the list is `ReplaceById` with the returned row; on failure it is unchanged and the error is the message or 'Failed to update task' |
| `UseTasks.TaskStore.DeleteTask` | src/hooks/useTasks.ts:71-85 | on success the list is `RemoveById`; on failure it is unchanged and the error is the message or 'Failed to delete task' |
| `UseTasks.TaskStore.ToggleComplete` | src/hooks/useTasks.ts:87-93 | an absent id fails with 'Task not found', sends nothing and changes nothing; a present id sends `ToggleRequest` and behaves as `UpdateTask` |
| `TaskList.ActiveTasks` | src/components/TaskList.tsx:44 | every active task is not completed |
| `TaskList.CompletedTasks` | src/components/TaskList.tsx:45 | every completed task is completed |
| `TaskList.PartitionCovers` | src/components/TaskList.tsx:44-45 | every task is in exactly one partition; lengths and multisets add up to the list's |
| `TaskList.PartitionKeepsOrder` | src/components/TaskList.tsx:44-45 | both partitions keep the list's order |
| `TaskList.SectionsOf` | src/components/TaskList.tsx:47-87 | an Active section holds exactly the active tasks and a Completed section exactly the completed ones; a section is rendered exactly when its partition is non-empty; Active comes before Completed; a non-empty list renders one or two sections |
| `TaskList.ShownSections` | src/components/TaskList.tsx:47-87 | the sections show the active tasks and then the completed ones |
| `TaskList.SectionsShowEveryTaskOnce` | src/components/TaskList.tsx:47-87 | the rendered sections show every task exactly as often as the list holds it |
| `TaskList.SelectView` | src/components/TaskList.tsx:14-42 | spinner exactly while loading; error banner exactly when not loading and the error is non-empty; empty state exactly when neither holds and the list is empty; otherwise the sections |
| `TaskForm.SubmissionFor` | src/components/TaskForm.tsx:16-21 | nothing is submitted exactly for a whitespace-only title; otherwise the trimmed non-empty title and the trimmed description (absent when empty) |
| `TaskForm.Form.constructor` | src/components/TaskForm.tsx:8-12 | the form starts empty, idle, without error, with the description box closed |
| `TaskForm.Form.SetTitle` | src/components/TaskForm.tsx:46 | typing sets the title and nothing else |
| `TaskForm.Form.OpenDescription` | src/components/TaskForm.tsx:63 | the button opens the description box and changes nothing else |
| `TaskForm.Form.SetDescription` | src/components/TaskForm.tsx:71 | typing sets the description and nothing else |
| `TaskForm.Form.SubmitDisabled` | src/components/TaskForm.tsx:52 | submit is disabled exactly while loading or when the title is whitespace only |
| `TaskForm.Form.BeginSubmit` | src/components/TaskForm.tsx:14-21 | a blank title sends nothing and changes nothing; otherwise `SubmissionFor` is sent with loading on and the error cleared, drafts kept |
| `TaskForm.Form.EndSubmit` | src/components/TaskForm.tsx:23-31 | success clears both drafts and closes the description box; failure sets the error to the reported text or 'Failed to add task' and keeps the drafts; loading ends |
| `TaskForm.Form.HandleSubmit` | src/components/TaskForm.tsx:14-32 | the whole submit: nothing for a blank title, else the end state of `EndSubmit` with the error cleared on success |
| `TaskItem.DraftDescription` | src/components/TaskItem.tsx:15 | a null description is shown as the empty draft |
| `TaskItem.SavePayload` | src/components/TaskItem.tsx:26-32 | nothing is saved exactly for a whitespace-only draft title; otherwise the trimmed title, the trimmed description (absent when empty) and the draft priority |
| `TaskItem.Item.constructor` | src/components/TaskItem.tsx:13-17 | the card starts out of edit mode, idle, with drafts equal to the task's title, description and priority |
| `TaskItem.Item.ReceiveProps` | src/components/TaskItem.tsx:12 | new props replace the task and priority but keep the card's own state |
| `TaskItem.Item.StartEditing` | src/components/TaskItem.tsx:159 | the edit button enters edit mode and changes nothing else |
| `TaskItem.Item.SetEditTitle` | src/components/TaskItem.tsx:67 | typing sets the title draft and nothing else |
| `TaskItem.Item.SetEditDescription` | src/components/TaskItem.tsx:72 | typing sets the description draft and nothing else |
| `TaskItem.Item.SetEditPriority` | src/components/TaskItem.tsx:86 | a priority button sets the priority draft and nothing else |
| `TaskItem.Item.SaveDisabled` | src/components/TaskItem.tsx:108 | save is disabled exactly while loading or when the draft title is whitespace only |
| `TaskItem.Item.BeginToggle` | src/components/TaskItem.tsx:19-21 | loading goes on and the task's id is sent; nothing else changes |
| `TaskItem.Item.EndRequest` | src/components/TaskItem.tsx:22 | loading ends and nothing else changes |
| `TaskItem.Item.HandleToggle` | src/components/TaskItem.tsx:19-23 | the task's id is sent and loading is off afterwards; nothing else changes |
| `TaskItem.Item.BeginSave` | src/components/TaskItem.tsx:25-32 | a blank draft title sends nothing and changes nothing; otherwise `onUpdate` gets the task's id and `SavePayload`, with loading on |
| `TaskItem.Item.EndSave` | src/components/TaskItem.tsx:33-36 | edit mode ends only on success; the drafts stay; loading ends |
| `TaskItem.Item.HandleSave` | src/components/TaskItem.tsx:25-37 | the whole save: nothing for a blank title, else the task's id and `SavePayload` are sent, edit mode is left only on success, and loading is off |
| `TaskItem.Item.BeginDelete` | src/components/TaskItem.tsx:39-42 | a declined confirmation sends nothing and changes nothing; otherwise the task's id is sent with loading on |
| `TaskItem.Item.HandleDelete` | src/components/TaskItem.tsx:39-44 | the whole delete: nothing without confirmation, else the id is sent and loading is off afterwards |
| `TaskItem.Item.HandleCancel` | src/components/TaskItem.tsx:46-51 | all three drafts are restored from the task and edit mode ends |
| `App.SubmittedInsert` | src/App.tsx:18 | a submitted form inserts the trimmed non-blank title (which a second trim leaves unchanged), `completed` false, and an absent or non-empty trimmed description |
| `App.SubmitNewTask` | src/App.tsx:18 | a blank title reaches neither the form state nor the store; otherwise the insert is exactly `InsertPayload` of the store's owner, the trimmed title and the trimmed or absent description, the store's `loading` and `error` stay, and the backend's answer either prepends the row and clears the form (drafts emptied, description box closed, no error) or keeps the list and the drafts and shows a non-empty error |

## Left out

- The backend's queries, sign-in and network (`src/hooks/useTasks.ts:13-17, 34-43, 55-61, 73-77`) are replaced by outcome parameters. Filtering rows by owner happens on the server and is not modelled.
- The client clock (`new Date().toISOString()` at `src/hooks/useTasks.ts:57`) is not modelled. `UpdateTask` takes whatever row the backend returns. `AppliedUpdate` takes the stamp as a parameter.
- UseTasks.TaskStore.UpdateTask: the `updates` argument goes to the backend, and its effect is visible only through the returned row. `AppliedUpdate` and `EchoedToggle` model a backend that applies exactly the update.
- The React wiring is not modelled. This covers the `useEffect` that fetches on mount (`src/hooks/useTasks.ts:28-30`), the `refetch` alias, and `preventDefault`. Operations run one at a time, and the `Begin…`/`End…` halves are not interleaved with other operations. In-flight requests completing out of order, and the stale `tasks` closure in `toggleComplete`, are not modelled. The model also keeps one `Item` across a toggle or a delete, while React does not: a toggled task moves to the other section's list (`src/components/TaskList.tsx:55`, `:74`), so its card is replaced by a new one with fresh drafts and `isEditing` false, and a deleted task's card is unmounted, so its `setLoading(false)` (`src/components/TaskItem.tsx:22`, `:43`) has no effect.
- The session gate and the sign-out (`src/App.tsx` apart from line 18, `src/components/Header.tsx`) are I/O around the auth provider and are not modelled.
- The card's `onUpdate` is not wired to the controller. Its payload carries `priority`, which `updateTask`'s update type does not list.
- The card's save sends an empty description as `undefined`, which JSON encoding drops. Whether the backend then keeps the old description is up to the backend, which is not modelled.
- JSX markup, CSS classes, icons and the `priorityColors` lookup are presentation only. The priority values come from `src/components/TaskItem.tsx:53-57`.
- `window.confirm` is modelled only as its boolean answer.
- Whitespace: space separators added to category Zs after Unicode 15 are not covered.
