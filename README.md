# task-manager-lite, modelled in Dafny

task-manager-lite is a single-page kanban board. The board state holds two things:

- an ordered list of columns, each owning an ordered list of task ids;
- a dictionary from task id to task.

A zustand store (`src/store.ts`) holds this state and offers ten actions. Four pieces sit around the store:

- the drag-end resolver, which turns a drag-and-drop gesture into at most one store action (`src/components/Board.tsx`);
- the column selectors and the guards in front of the column's title input and "New" button (`src/components/Column.tsx`);
- a small REST client for cloud backups (`src/lib/cloudBackup.ts`);
- the lifecycle hooks that restore the latest backup once at start-up and back up every change after a 90-second debounce (`src/hooks/useCloudBackup.ts`).

The project models each of these, module by module:

| module | file | models |
|---|---|---|
| `Wrappers` | `wrappers.dfy` | `Option`, `Result` |
| `Types` | `types.dfy` | the shapes of `src/types.ts` |
| `JsString` | `js_string.dfy` | `String.prototype.trim` over the ECMAScript whitespace set |
| `SeqOps` | `seq_ops.dfy` | `splice` (a negative start counts from the end, and the start is clamped), `filter` by inequality, `indexOf` |
| `BoardActions` | `board_actions.dfy` | what each store action computes, as functions of the previous board, and what each one keeps |
| `Store` | `store.dfy` | the store as a class `BoardStore`, one method per action (details below) |
| `DragResolver` | `drag_resolver.dfy` | `onDragEnd` as a function to an optional action, plus what the issued action does to the board |
| `ColumnView` | `column_view.dfy` | `selectColumn`, `selectTasks`, the title `onChange` guard, the "New" `onClick` guard |
| `CloudBackup` | `cloud_backup.dfy` | API base, URL building, headers, response classification, and the two calls |
| `BackupLifecycle` | `backup_lifecycle.dfy` | the two hooks as classes driven by explicit events (details below) |

How `Store` models reference identity:

- The store keeps a reference id for `columns` and one for `tasks`.
- Every `set` installs values with fresh ids.
- `resetDemo` reinstalls the identities of `initial` (ids 0 and 1).
- This is what the backup subscriber's identity test observes.

What `BackupLifecycle` models:

- Its events are: effect run, store notification, timer expiry, request settled, teardown.
- A ghost log records every snapshot sent.

The central invariant is `BoardActions.Consistent`:

- column ids are unique;
- no task id occurs twice across all columns, counted as a multiset;
- every id a column lists is a key of `tasks`.

Every store action keeps this invariant, provided the id generator returns unused ids. So does every action the drag resolver issues.

Where the code and its own comments or documented intent differ, the model follows the code:

- **`renameColumn` always calls `set`.** Its comment says it avoids redundant updates, and the `map` does keep every element identical when the trimmed title is unchanged. But `set` is still called with a new array. So subscribers are notified, and a backup of the unchanged board is scheduled. `Store.BoardStore.RenameColumn` states that the columns reference always changes. `BackupLifecycle.TrailingSpaceSchedulesBackup` shows the consequence: typing a trailing space into a title schedules a backup of an identical board.
- **`addTask` with an unknown column id still adds the task.** The task lands in `tasks`, owned by no column. It is not a no-op.
- **`moveTask` into the column the task already sits in drops the task from every column.** The first branch of the `map` wins, so the id is filtered out and never reinserted. The task stays in `tasks`. The drag resolver never issues such a move (`DragResolver.OnDragEnd`).
- **An empty `error` field in a failure body yields the default message, not the status text.** `(data.message || data.error) ?? statusText` only falls back on `null`/`undefined`. For the same reason a falsy body (`false`, `0`, `""`) also yields the default message, since `data && …` is then that falsy value rather than `null`.
- **A change made while a send is in flight can be stranded.** If that change's timer fires while the send is still busy, `flush` returns and keeps the snapshot pending, and nothing reschedules it. It is backed up only after a later change. `BackupLifecycle.BusyTimerStrandsChange` exhibits this.
- **The "New" guard tests the untrimmed title.** A title made only of spaces gets through, and the store creates a task with an empty title (`ColumnView.BlankTitleGetsThrough`).

## Model

| member | source | states |
|---|---|---|
| JsString.Trim | src/store.ts:41 | the result has no leading or trailing whitespace and is no longer than the input |
| JsString.TrimOpt | src/store.ts:42 | an absent description stays absent; a present one is trimmed |
| JsString.TrimPadded | src/store.ts:59-60 | trimming a whitespace-padded trimmed string gives that string back, an independent characterisation of `trim` |
| JsString.TrimIdempotent | src/store.ts:128 | trimming twice is trimming once |
| SeqOps.SpliceStart | src/store.ts:84 | the splice position: the start when in range, counted from the end when negative, clamped to [0, length] |
| SeqOps.InsertAt | src/store.ts:83-84 | one longer, the multiset gains exactly the inserted element, the element sits at the splice position and the others keep their order |
| SeqOps.RemoveAt | src/store.ts:99 | one shorter, the multiset loses exactly the removed element, the others close up in order |
| SeqOps.RemoveInsertRoundTrip | src/store.ts:99-100 | removing an element and inserting it back at the same index restores the sequence |
| SeqOps.MoveItem | src/store.ts:109-111 | a permutation (same length and multiset) that puts the moved element at the clamped target, and at `to` itself when `to` is in range |
| SeqOps.MoveItemKeepsOthers | src/store.ts:98-100 | taking the moved element back out of the result gives the original without it: the other elements keep their relative order |
| SeqOps.Without | src/store.ts:71 | the result's multiset is the input's with every occurrence of the id removed, and the id no longer occurs |
| SeqOps.WithoutConcat | src/store.ts:82 | filtering distributes over concatenation, so the kept ids keep their order |
| SeqOps.WithoutAbsent | src/store.ts:82 | filtering out an id that does not occur changes nothing |
| SeqOps.IndexOf | src/components/Board.tsx:57-58 | -1 exactly when the element is absent; otherwise an index holding it with no earlier occurrence |
| BoardActions.FindColumn | src/store.ts:79 | the first index whose column has the id, or none exactly when no column has it |
| BoardActions.FindOwner | src/store.ts:78 | the first index whose column lists the task, or none exactly when no column lists it |
| BoardActions.UpdateWhere | src/store.ts:101-103 | same length; each column with the id is transformed and every other column is kept |
| BoardActions.WithoutColumn | src/store.ts:144 | the result holds exactly the columns of the input whose id differs, and the list does not grow |
| BoardActions.IdSet | src/store.ts:142 | the set of ids holds exactly the ids the column lists |
| BoardActions.Initial | src/store.ts:22-29 | three columns, all empty, and no tasks |
| BoardActions.InitialConsistent | src/store.ts:22-29 | the initial board satisfies the consistency invariant |
| BoardActions.ResetConsistent | src/store.ts:149 | the reset target is consistent and no column owns any task |
| BoardActions.NewTask | src/store.ts:36-45 | the new task has the given id, the trimmed title and description (each free of outer whitespace), and creation time equal to update time |
| BoardActions.AddTask | src/store.ts:36-51 | the task keys gain exactly the new id; the columns keep their number and ids |
| BoardActions.EditTask | src/store.ts:53-64 | the columns and the set of task keys are untouched |
| BoardActions.StripTask | src/store.ts:69-72 | every column keeps its id and title and loses every occurrence of the task id, other ids kept in order |
| BoardActions.DeleteTask | src/store.ts:66-74 | the task keys lose exactly the id; the columns keep their number and no column lists the id |
| BoardActions.MoveTask | src/store.ts:76-92 | tasks untouched; the columns keep their number and ids |
| BoardActions.ReorderTaskWithinColumn | src/store.ts:94-105 | tasks untouched; the columns keep their number and ids |
| BoardActions.ReorderColumns | src/store.ts:107-113 | tasks untouched; the columns are a permutation of the old ones |
| BoardActions.AddColumn | src/store.ts:115-123 | tasks untouched; the old columns are kept as a prefix and one column follows, with the new id, no tasks and a title free of outer whitespace |
| BoardActions.RenameColumn | src/store.ts:126-135 | tasks untouched; the columns keep their number, ids and task ids |
| BoardActions.DeleteColumn | src/store.ts:137-147 | no task key is added, no column is added, and no remaining column has the id |
| BoardActions.AddTaskEffect | src/store.ts:36-51 | the task is added; the id is appended to the end of the target column and no other column changes; with no such column the columns are unchanged and the task is owned by none; a fresh id keeps the board consistent |
| BoardActions.EditTaskEffect | src/store.ts:53-64 | no-op for an unknown id; otherwise only that task's title, description and update time change (id and creation time kept); columns untouched; consistency kept |
| BoardActions.DeleteTaskEffect | src/store.ts:66-74 | the task keys become exactly the old keys without the id; the task leaves every column; each column keeps its other ids in order; every other task is unchanged; owned ids lose exactly that id; consistency kept |
| BoardActions.MoveTaskNoOp | src/store.ts:76-80 | no change when the task is in no column or the target column does not exist |
| BoardActions.MoveTaskBetweenColumns | src/store.ts:76-92 | between two different columns the id leaves the source, lands at the clamped index of the target, every other column and all tasks are unchanged, the owned multiset is preserved, and the board stays consistent |
| BoardActions.MoveTaskWithinOwnColumnOrphans | src/store.ts:86-90 | a move into the task's own column removes it from every column while it stays in `tasks` |
| BoardActions.ReorderTaskEffect | src/store.ts:94-105 | the column's ids are permuted, the moved id lands at the clamped target, the others keep their order; tasks and every other column unchanged; consistency kept |
| BoardActions.ReorderColumnsEffect | src/store.ts:107-113 | the columns are permuted, the moved column lands at the target, the others keep their order; tasks and owned ids unchanged; consistency kept |
| BoardActions.AddColumnEffect | src/store.ts:115-123 | one empty column with the trimmed title is appended; existing columns and tasks unchanged; a fresh id keeps consistency |
| BoardActions.RenameColumnEffect | src/store.ts:126-135 | only the matching column's title changes, to the trimmed title; when it already equals that title, the board is unchanged; consistency kept |
| BoardActions.DeleteColumnEffect | src/store.ts:137-147 | no-op for an unknown id; otherwise exactly that column goes, the task keys become exactly the old keys minus the ids it listed, other tasks are unchanged, and the board stays consistent |
| Store.BoardStore.constructor | src/store.ts:22-34 | the store starts from the initial board with the initial identities |
| Store.BoardStore.SetColumns | src/store.ts:91 | `set({ columns })`: only `columns` is replaced and only it gets a fresh identity |
| Store.BoardStore.SetTasks | src/store.ts:63 | `set({ tasks })`: only `tasks` is replaced and only it gets a fresh identity |
| Store.BoardStore.SetBoth | src/store.ts:50 | `set({ tasks, columns })`: both parts are replaced and both get fresh identities |
| Store.BoardStore.AddTask | src/store.ts:36-51 | the new state is the add-task board; both parts get new identities; consistency is kept |
| Store.BoardStore.EditTask | src/store.ts:53-64 | the new state is the edit-task board; `set` is reached exactly when the id is known and then only `tasks` is replaced; otherwise nothing changes |
| Store.BoardStore.DeleteTask | src/store.ts:66-74 | the new state is the delete-task board; both parts are always replaced, even for an unknown id; consistency kept |
| Store.BoardStore.MoveTask | src/store.ts:76-92 | the new state is the move-task board; `set` is reached exactly when both columns are found, and only `columns` is replaced; consistency and tasks kept |
| Store.BoardStore.ReorderTaskWithinColumn | src/store.ts:94-105 | the new state is the reorder board; `set` is reached exactly when the column exists; only `columns` is replaced; consistency kept |
| Store.BoardStore.ReorderColumns | src/store.ts:107-113 | the new state is the reordered board; `columns` is always replaced; consistency kept |
| Store.BoardStore.AddColumn | src/store.ts:115-123 | the new state is the add-column board; only `columns` is replaced; consistency kept |
| Store.BoardStore.RenameColumn | src/store.ts:126-135 | the new state is the renamed board, and `columns` always gets a new identity, even when no title changes |
| Store.BoardStore.DeleteColumn | src/store.ts:137-147 | the loop deleting the column's ids from a copy of `tasks` yields the delete-column board; `set` is reached exactly when the column exists; consistency kept |
| Store.BoardStore.ResetDemo | src/store.ts:149 | the state is the initial board again, with the initial identities |
| Store.BoardStore.ReplaceBoardState | src/hooks/useCloudBackup.ts:26 | the state becomes the given board and both parts get new identities |
| DragResolver.OnDragEnd | src/components/Board.tsx:28-69 | no drop target, or a target task in no column, gives no action; a column reorder has two distinct found indices; a task move never targets the task's own column, and goes to the dropped-on column at its length (0 when it is unknown) or to the target task's column at that task's index; an in-column reorder has a from-index holding the dragged task and, with unique column ids, a distinct to-index holding the target task |
| DragResolver.HandleDragEnd | src/components/Board.tsx:28-69 | with no action issued, the board is unchanged |
| DragResolver.DragEndKeepsBoard | src/components/Board.tsx:28-69 | every drop keeps the board consistent, keeps every task and keeps the multiset of owned ids |
| DragResolver.DropOnColumnAppends | src/components/Board.tsx:44-49 | a task dropped on another column is appended to it and filtered out of its source |
| DragResolver.DropOnTaskInserts | src/components/Board.tsx:64-66 | a task dropped on a task of another column is inserted just before that task |
| DragResolver.DropWithinColumnLands | src/components/Board.tsx:60-63 | a task dropped on another task of its own column takes that task's position, the column permuted |
| DragResolver.DropColumnLands | src/components/Board.tsx:32-36 | a column dropped on another column takes that column's position, the columns permuted |
| DragResolver.ApplyDrags | src/components/Board.tsx:28-69 | any sequence of drops keeps the board consistent, all tasks and the owned multiset |
| ColumnView.SelectColumn | src/components/Column.tsx:10-15 | the title and ids of the first column with the id; an empty title and no ids when none has it |
| ColumnView.SelectEveryColumn | src/components/Column.tsx:10-15 | with unique column ids every column reads back its own title and ids |
| ColumnView.SelectTasks | src/components/Column.tsx:17-20 | no longer than the ids; only tasks of the map; when every id is present, exactly the tasks of the ids in their order |
| ColumnView.SelectTasksConcat | src/components/Column.tsx:17-20 | the projection distributes over concatenation, so it keeps the order of the ids |
| ColumnView.SelectTasksSkipsMissing | src/components/Column.tsx:20 | an id with no task contributes nothing |
| ColumnView.ColumnShowsEveryTask | src/components/Column.tsx:17-20 | on a consistent board a column shows one task per listed id, in order |
| ColumnView.OnTitleChange | src/components/Column.tsx:45-48 | rename is requested exactly when the input differs from the shown title |
| ColumnView.TitleEditShowsTrimmed | src/components/Column.tsx:45-48 | after the requested rename, the column shows the trimmed input with its ids unchanged |
| ColumnView.TrailingSpaceKeepsColumns | src/components/Column.tsx:45-48 | a trailing space added to a trimmed title is a rename request that leaves the board unchanged |
| ColumnView.OnNewTaskClick | src/components/Column.tsx:52-57 | a task is requested exactly for a non-empty title; an empty or cancelled description becomes absent |
| ColumnView.BlankTitleGetsThrough | src/components/Column.tsx:53-56 | a title of spaces passes the guard and yields a task with an empty title |
| CloudBackup.TrimTrailingSlashes | src/lib/cloudBackup.ts:7-10 | a prefix of the input, not ending in '/', with only '/' removed |
| CloudBackup.TrimTrailingSlashesPadded | src/lib/cloudBackup.ts:7-10 | any number of trailing slashes on a slash-free end are all removed |
| CloudBackup.TrimTrailingSlashesIdempotent | src/lib/cloudBackup.ts:7-10 | stripping twice is stripping once |
| CloudBackup.ApiBase | src/lib/cloudBackup.ts:7-10 | the default base when unset, otherwise the configured base stripped of trailing slashes |
| CloudBackup.BuildUrl | src/lib/cloudBackup.ts:49-50 | base and path, with `?` and the search appended only for a non-empty search |
| CloudBackup.BuildUrlSplits | src/lib/cloudBackup.ts:49-50 | the first `?` of a built URL separates base and path from the search string |
| CloudBackup.IsConfigured | src/lib/cloudBackup.ts:52 | a key is set and is not the empty string, the truthiness of the key |
| CloudBackup.CommonHeaders | src/lib/cloudBackup.ts:28-37 | the missing-key error exactly when the key is absent or empty, otherwise the JSON content type and the key |
| CloudBackup.ErrorText | src/lib/cloudBackup.ts:43-44 | never empty; for a truthy body a non-empty message first, then a present error field, then the status text; a `null` body gives the status text; a falsy body (`false`, `0`, `""`) gives the default text; the default text replaces an empty choice |
| CloudBackup.EmptyErrorFieldHidesStatusText | src/lib/cloudBackup.ts:43-44 | an empty error field gives the default text rather than the status text |
| CloudBackup.HandleResponse | src/lib/cloudBackup.ts:39-47 | success exactly for 204 or an ok status; 204 is null whatever the body; a failure carries the error text |
| CloudBackup.CreateRequest | src/lib/cloudBackup.ts:54-63 | without a key, the missing-key error; otherwise a POST to the backups path with the common headers and a body of the fixed profile, the fixed user id and the payload |
| CloudBackup.CreateBackup | src/lib/cloudBackup.ts:54-66 | no request is sent exactly when the key is missing; otherwise the response is classified by `handleResponse` |
| CloudBackup.FetchRequest | src/lib/cloudBackup.ts:68-81 | without a key, the missing-key error; otherwise a GET of the latest path with the profile query, `Accept` before the common headers |
| CloudBackup.FetchOutcome | src/lib/cloudBackup.ts:83-88 | 404 and 204 are no backup; other failures carry the error text; success gives the record's payload, or none for a record without one or a `null` or falsy body |
| CloudBackup.FetchLatestBackup | src/lib/cloudBackup.ts:68-89 | no request is sent exactly when the key is missing; otherwise the outcome is that of the response |
| CloudBackup.MissingKeySendsNothing | src/lib/cloudBackup.ts:69 | with no key neither call sends a request and both fail with the missing-key error |
| CloudBackup.BackupRoundTrip | src/lib/cloudBackup.ts:58-62 | when the latest record carries the payload a backup sent, fetching yields exactly that board |
| BackupLifecycle.InitialRestore.constructor | src/hooks/useCloudBackup.ts:13 | nothing attempted yet |
| BackupLifecycle.InitialRestore.Activate | src/hooks/useCloudBackup.ts:15-18 | a fetch starts exactly on the first run with backup configured; at most one fetch ever starts |
| BackupLifecycle.InitialRestore.Teardown | src/hooks/useCloudBackup.ts:32-34 | the run that started the fetch is marked cancelled |
| BackupLifecycle.InitialRestore.FetchSettled | src/hooks/useCloudBackup.ts:22-30 | the board is replaced exactly when the fetch returned a payload and the run is not cancelled; otherwise the store is untouched |
| BackupLifecycle.AutoBackup.constructor | src/hooks/useCloudBackup.ts:40-45 | subscribed exactly when configured; no timer, no pending snapshot, nothing sent |
| BackupLifecycle.AutoBackup.OnStoreChange | src/hooks/useCloudBackup.ts:69-79 | a notification is accepted exactly when subscribed and not both parts are the same references as before; an accepted one becomes the pending snapshot and restarts the timer at now plus 90 s |
| BackupLifecycle.AutoBackup.Schedule | src/hooks/useCloudBackup.ts:61-67 | the single timer is due 90 s from now |
| BackupLifecycle.AutoBackup.TimerFire | src/hooks/useCloudBackup.ts:63-66 | the timer is cleared and the latest snapshot is sent exactly when no send is busy and the hook is not torn down |
| BackupLifecycle.AutoBackup.Flush | src/hooks/useCloudBackup.ts:47-59 | sends exactly when a snapshot is pending, not busy and not cancelled; the sent snapshot is the latest accepted one and is cleared; otherwise the pending snapshot is kept |
| BackupLifecycle.AutoBackup.SendSettled | src/hooks/useCloudBackup.ts:56-58 | busy is cleared on success and failure alike, leaving no send in flight |
| BackupLifecycle.AutoBackup.Teardown | src/hooks/useCloudBackup.ts:81-85 | cancelled, unsubscribed, no timer left |
| BackupLifecycle.DebounceScenario | src/hooks/useCloudBackup.ts:61-79 | after three changes 10 s apart, the one timer expiry, 90 s after the last change, sends the last board |
| BackupLifecycle.BusyTimerStrandsChange | src/hooks/useCloudBackup.ts:47-67 | a change whose timer fires during a send stays pending with no timer after the send settles |
| BackupLifecycle.TeardownStopsSending | src/hooks/useCloudBackup.ts:81-85 | after teardown a flush sends nothing |
| BackupLifecycle.TrailingSpaceSchedulesBackup | src/hooks/useCloudBackup.ts:69-79 | a content-free rename from the title input is accepted by the subscriber and schedules a backup of the unchanged board |

## Left out

- Rendering, JSX, dnd-kit sensors and contexts, `TaskCard.tsx` and `App.tsx`: presentation only.
- `prompt()` dialogs: their answers are parameters (`None` for a cancelled prompt).
- `fetch`, `res.json()` and JSON serialisation. A response is an abstract `(status, ok, statusText, body)`. The body is told apart only as `null` (or unparseable), another falsy value, or a truthy value, and of a truthy value only `message`, `error` and `payload` are kept (a truthy value that is not an object has none of them). Fields of other types than string are not modelled.
- `import.meta.env`: the API base and key are `Option<string>` parameters.
- `persist` and localStorage (the persistence middleware): not modelled.
- `uid` is not part of this model. The id it returns is a parameter, with the precondition that it is not already in use.
- `Date.now()` is a parameter.
- `setTimeout` and async scheduling are explicit events with time as a parameter. Interleavings are whatever sequence of events a caller chooses.
- `console.error` logging: not modelled.
- `selectBoardState` and `replaceBoardState`: `src/hooks/useCloudBackup.ts` imports them from the store, but `src/store.ts` as modelled here does not define them, so they are not part of this model. A snapshot is taken to be the board itself, and a replacement a wholesale `set` of both parts.
- React StrictMode's double effect runs are covered only by `Activate` being callable more than once.
- Store.BoardStore.ReorderTaskWithinColumn: requires `0 <= fromIndex < length`. For a negative `fromIndex` on a non-empty array, `splice` removes the element counted from the end (clamped to the first one), which the model leaves out. For `fromIndex >= length`, or any index on an empty array, nothing is removed and `undefined` is then inserted, which a list of ids cannot hold. The drag resolver only passes an index that holds the dragged task.
- Store.BoardStore.ReorderColumns: requires `0 <= fromIndex < length`, for the same two reasons; the drag resolver only passes a found index.
- BoardActions.ReorderTaskWithinColumn: carries the same `fromIndex` requires as `Store.BoardStore.ReorderTaskWithinColumn`, for the same reasons.
- BoardActions.ReorderColumns: carries the same `fromIndex` requires as `Store.BoardStore.ReorderColumns`, for the same reasons.
- BackupLifecycle.DebounceScenario: that no other send happens is an assertion in its body about the ghost send log; its `ensures` states only what the one timer expiry sends, since a method's contract cannot read the log of an object it creates.
- Store.BoardStore.ReplaceBoardState: the restored board is not validated by the source, so no consistency is promised for it.
- Reference identity of individual column and task objects is not modelled. Only the `columns` and `tasks` values carry identities, which is all the subscriber compares.
