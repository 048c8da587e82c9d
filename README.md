# Task list of the to-do agenda, in Dafny

This project models the state core of a single-page to-do application
(`src/App.tsx`). The core has three parts:

- **The task store.** `tasksReducer` takes the ordered task list and one of six
  commands (ADD, UPDATE, DELETE, SET_STATUS, REORDER, HYDRATE) and returns a new
  list. `move` is its remove-then-insert helper. The form's `isValid` guard
  decides whether ADD or UPDATE is dispatched at all.
- **The derived view.** `counts` gives the per-status counters on the filter
  chips. `filtered` is the visible list after the search text and the status
  filter.
- **The drag gesture.** The `dragId` / `overId` fields and the handlers
  `onDragStart`, `onDragOver`, `onDrop` and `onDragEnd` turn a drop into at most
  one REORDER.

Modules, one per file:

| file | module | contents |
|---|---|---|
| wrappers.dfy | Wrappers | `Option` |
| text.dfy | Text | `trim` (ECMAScript whitespace), ASCII `toLowerCase`, `includes` |
| seqs.dfy | Seqs | `Array.prototype.filter` and order-preserving subsequences |
| move.dfy | Move | `move` as a specification (`Moved`) and as the in-place method (`Move`) |
| tasks.dfy | Tasks | `Task`, `Status`, the command union, one function per reducer case, `Reduce`, the form guard |
| task_laws.dfy | TaskLaws | the list invariant (unique ids, trimmed non-empty titles, trimmed descriptions, `createdAt <= updatedAt`) and how each command keeps it |
| view.dfy | View | `counts` (a loop with three counters) and `filtered` |
| drag.dfy | Drag | `findIndex`, drop resolution, and the `Board` class holding `tasks`, `dragId` and `overId` |

The foreign calls become inputs. `crypto.randomUUID()` and `Date.now()` are an
`Env(freshId, now)` argument of `Reduce`. The drag event's
`dataTransfer.getData("text/plain")` is the `dropData` argument of `OnDrop`.
Freshness of the id and a clock that does not run backwards are assumptions in
`TaskLaws.Admissible`. They are needed only for the invariant, not by the
reducer itself.

Two behaviours of the code are worth stating outright:

- The reducer does not check titles. ADD of a blank title prepends a task
  titled `""` (`TaskLaws.ReducerAcceptsBlankTitle`). Only the form's `isValid`
  and `handleSubmit` (src/App.tsx:206-210) keep blank titles out.
  `Tasks.Submit` and `TaskLaws.BlankSubmitIsIgnored` model that guard.
- UPDATE and SET_STATUS map over the whole list, so every task carrying the id
  changes (`Tasks.UpdateTask`, `Tasks.SetTaskStatus`). With unique ids that is
  one task.

## Model

| member | source | states |
|---|---|---|
| `Seqs.Filter` | src/App.tsx:67 | `Array.prototype.filter` keeps exactly the elements that pass the test, in their order: the result is a subsequence of the input, every kept element passes, every passing element is kept, and an all-passing input comes back whole |
| `Seqs.FilterConcat` | src/App.tsx:439-443 | filtering `a + b` gives the filter of `a` followed by the filter of `b` |
| `Text.Trim` | src/App.tsx:44 | `trim` returns the infix of its input left after stripping ECMAScript whitespace from both ends; the result has no whitespace at either end; it is empty exactly when the input is blank |
| `Text.TrimIdempotent` | src/App.tsx:44 | trimming an already trimmed title or description changes nothing |
| `Text.ToLowerIdempotent` | src/App.tsx:438 | a lowered string has no upper-case ASCII letter, and lowering it again is the identity |
| `Text.TrimLowerCommute` | src/App.tsx:438 | trimming then lowering the query equals lowering then trimming |
| `Text.ToLower` | src/App.tsx:438-440 | lowering keeps the length and lowers each character on its own |
| `Text.Includes` | src/App.tsx:440 | the empty query is included in every string, and an included query is no longer than the string |
| `Text.IncludesIff` | src/App.tsx:440 | `includes` holds exactly when the query occurs at some offset of the string; the empty query occurs in every string |
| `Move.Moved` | src/App.tsx:27-32 | after `move`, the length is unchanged and the element taken from `from` sits at `to` |
| `Move.MovedAt` | src/App.tsx:27-32 | position by position, the elements between `from` and `to` shift one place towards `from`, and all other positions keep their element |
| `Move.MovedPermutation` | src/App.tsx:27-32 | `move` is a permutation: the multiset of elements is unchanged |
| `Move.MovedKeepsOthersInOrder` | src/App.tsx:27-32 | dropping the moved element from the result gives the input without its element at `from`; all other elements keep their relative order |
| `Move.MovedToSelf` | src/App.tsx:27-32 | moving an element onto its own index returns the same sequence |
| `Move.Move` | src/App.tsx:27-32 | copying the array and splicing it twice, done by shifts on a fixed-size array, yields exactly the remove-then-insert sequence |
| `Tasks.NormalizeDescription` | src/App.tsx:45 | a missing description becomes `""`, a present one its trimmed text; the result is always trimmed, so a blank description is stored as `""` |
| `Tasks.AddTask` | src/App.tsx:39-51 | ADD puts one task in front of the unchanged list; it has the fresh id, status pending, the trimmed title, the normalised description, and `createdAt == updatedAt == now` |
| `Tasks.UpdateTask` | src/App.tsx:53-65 | UPDATE keeps the length, every position, every task with another id, and the id, status and `createdAt` of matching tasks; matching tasks get the trimmed title, the normalised description and `updatedAt == now`; an unknown id returns the input list |
| `Tasks.SetTaskStatus` | src/App.tsx:68-73 | SET_STATUS keeps the length, the positions, and the id, title, description and `createdAt` of every task; matching tasks get the new status and `updatedAt == now`, the others are untouched; an unknown id returns the input list |
| `Tasks.DeleteTask` | src/App.tsx:66-67 | DELETE keeps an order-preserving subsequence with no task carrying the id, and keeps every task with another id; an unknown id returns the input list |
| `Tasks.ReorderTasks` | src/App.tsx:74-78 | REORDER keeps the length; equal or out-of-range indices return the list unchanged; otherwise the task at `from` lands at `to` |
| `Tasks.ReorderTasksMoves` | src/App.tsx:74-78 | REORDER is a permutation, and with both indices in range the tasks other than the moved one keep their order |
| `Tasks.Reduce` | src/App.tsx:34-82 | HYDRATE returns its payload; ADD prepends one task with the fresh id to the unchanged list; UPDATE, SET_STATUS and REORDER keep the length; DELETE never lengthens the list; UPDATE, SET_STATUS and DELETE of an unknown id return the input; UPDATE and SET_STATUS keep every id and `createdAt` in place |
| `Tasks.IsValidTitle` | src/App.tsx:206 | `isValid` holds exactly when the title is not blank |
| `Tasks.AfterSubmit` | src/App.tsx:208-210 | a blank title leaves the list unchanged; otherwise create mode prepends one pending task with the trimmed title to the unchanged list, and edit mode keeps the length |
| `Tasks.Submit` | src/App.tsx:446-458 | a submit dispatches a command exactly when the title is not blank: ADD in create mode, UPDATE of the edited task's id in edit mode, with the raw inputs |
| `TaskLaws.ValidTitleIff` | src/App.tsx:206 | `isValid` holds exactly when the title has a non-whitespace character |
| `TaskLaws.BlankSubmitIsIgnored` | src/App.tsx:206-210 | submitting a blank title leaves the list as it was, in both modes |
| `TaskLaws.SubmittedTitleIsVisible` | src/App.tsx:446-458 | a create submit with a valid title prepends one task whose title is trimmed and non-empty, and whose description is the trimmed input; the rest of the list is unchanged |
| `TaskLaws.ReducerAcceptsBlankTitle` | src/App.tsx:39-51 | the reducer itself does not reject a blank title: ADD still adds a task, titled `""` |
| `TaskLaws.AddKeepsUniqueIds` | src/App.tsx:39-51 | with an id not already in the list, ADD keeps ids unique |
| `TaskLaws.FilterKeepsUniqueIds` | src/App.tsx:66-67 | filtering a list with unique ids keeps them unique |
| `TaskLaws.ReorderKeepsUniqueIds` | src/App.tsx:74-78 | REORDER keeps ids unique |
| `TaskLaws.DeleteLength` | src/App.tsx:66-67 | with unique ids, DELETE drops exactly one task when the id is present and none when it is absent |
| `TaskLaws.DeleteIsPointwise` | src/App.tsx:66-67 | DELETE drops a single task exactly when its id matches and distributes over concatenation, so the result is exactly the non-matching tasks in their order |
| `TaskLaws.AddPreservesWellFormed` | src/App.tsx:39-51 | given a valid title and a fresh id, ADD keeps the list invariant |
| `TaskLaws.UpdatePreservesWellFormed` | src/App.tsx:53-65 | given a valid title and a clock not behind the list, UPDATE keeps the list invariant |
| `TaskLaws.SetStatusPreservesWellFormed` | src/App.tsx:68-73 | given a clock not behind the list, SET_STATUS keeps the list invariant |
| `TaskLaws.DeletePreservesWellFormed` | src/App.tsx:66-67 | DELETE keeps the list invariant |
| `TaskLaws.ReorderPreservesWellFormed` | src/App.tsx:74-78 | REORDER keeps the list invariant |
| `TaskLaws.ReducePreservesWellFormed` | src/App.tsx:34-82 | every admitted command keeps ids unique, titles trimmed and non-empty, descriptions trimmed and `createdAt <= updatedAt`; HYDRATE passes it through only for a well-formed payload |
| `TaskLaws.RunPreservesWellFormed` | src/App.tsx:89 | the invariant holds after any sequence of admitted dispatches |
| `TaskLaws.UnknownIdIsNoOp` | src/App.tsx:53-73 | UPDATE, SET_STATUS and DELETE of an id not in the list return a list equal to the input |
| `TaskLaws.HydrateVerbatim` | src/App.tsx:36-38 | HYDRATE returns its payload verbatim whatever the prior list, so applying it twice equals applying it once |
| `View.CountsPartition` | src/App.tsx:425-435 | every task is counted under exactly one of the three statuses |
| `View.ComputeCounts` | src/App.tsx:425-435 | `all` is the length of the unfiltered list; `p`, `ip` and `c` are the numbers of pending, in-progress and completed tasks, and they sum to `all` |
| `View.NormalizeQuery` | src/App.tsx:438 | the normalised query is empty exactly when the search text is blank, is no longer than it, and has no upper-case ASCII letter |
| `View.MatchesText` | src/App.tsx:440 | the empty query matches every task, and a matching query is no longer than the title or the description |
| `View.MatchesTextIff` | src/App.tsx:440 | a task matches exactly when the query is empty or occurs at some offset of its lowered title or lowered description |
| `View.MatchesStatus` | src/App.tsx:441 | the status test holds exactly for "todas" or the task's own status |
| `View.Filtered` | src/App.tsx:437-444 | the visible list is an order-preserving subsequence; a task is kept when the trimmed, lowered query is empty or occurs in the lowered title or description, and the filter is "todas" or the task's status |
| `View.BlankSearchShowsAll` | src/App.tsx:437-444 | a blank search with "todas" shows the whole list in order |
| `View.FilteredIgnoresQueryCase` | src/App.tsx:438 | the view does not depend on the letter case of the search text |
| `View.FilteredConcat` | src/App.tsx:439-443 | the view never reorders: filtering a concatenation filters each part |
| `View.ChipCountIsBlankSearchSize` | src/App.tsx:425-444 | the count on a status chip equals the number of tasks that chip shows when the search is blank |
| `View.SearchExample` | src/App.tsx:437-444 | with "Buy milk" (pending) and "Walk dog" (completed), searching "milk" under "todas" shows only the first task |
| `View.StatusExample` | src/App.tsx:425-444 | with the same two tasks, the "completada" filter shows only the second task, and the counts are 1 pending, 0 in progress and 1 completed |
| `Drag.FindIndex` | src/App.tsx:479-480 | `findIndex` gives -1 exactly when no task has the id, and otherwise the first position holding it |
| `Drag.DropSource` | src/App.tsx:473 | the source is non-empty exactly when the drag id or the drop data is; a non-empty drag id is the source, and otherwise the drop data is |
| `Drag.DropCommand` | src/App.tsx:471-486 | a drop issues a command exactly when the source is non-empty, differs from the target, and both ids are in the list; the command is a REORDER between two distinct in-range positions, the first ones holding the source and the target |
| `Drag.DropMovesSourceToTarget` | src/App.tsx:471-486 | after an issued drop, the list is a permutation with the dragged task at the target's former index and the other tasks in their order |
| `Drag.DragBOntoA` | src/App.tsx:471-486 | on `[A, B, C]`, dragging B onto A issues REORDER(1, 0) and gives `[B, A, C]`: move, not swap |
| `Drag.DropOnSelfIssuesNothing` | src/App.tsx:473-478 | dropping the source on itself issues nothing |
| `Drag.Board.constructor` | src/App.tsx:421-422 | the page starts with an empty list and no drag source or hover target |
| `Drag.Board.Dispatch` | src/App.tsx:89 | a dispatch replaces the list by the reducer's result and leaves the drag fields alone |
| `Drag.Board.OnDragStart` | src/App.tsx:461-465 | drag start records the source id and changes nothing else |
| `Drag.Board.OnDragOver` | src/App.tsx:466-470 | drag over records the hover id and changes nothing else |
| `Drag.Board.OnDrop` | src/App.tsx:471-486 | a drop dispatches exactly the resolved command, if any; a well-formed list stays well formed; both drag fields are cleared on every path |
| `Drag.Board.OnDragEnd` | src/App.tsx:487-490 | drag end clears both drag fields and leaves the list alone |

## Left out

- Rendering and the presentational components (`Toast`, `FiltersBar`, `TaskItem`, `EmptyState`, `ConfirmModal`, the JSX): they display state and change none of it. The delete confirmation is modelled only as the DELETE it dispatches.
- Persistence in `useTasks` (`localStorage`, `JSON.parse` / `JSON.stringify`, the `hydrated` save gate): this is I/O and effect scheduling. HYDRATE is modelled as receiving whatever list was saved.
- The shape of a hydrated payload is taken as the declared `Task` type. A stored status outside the three literals, or a non-string field, is not modelled. For such data the `else c++` branch of `counts` would count unknown statuses as completed.
- A hydrated task without a `description` field is modelled with `""`. Every use in the core (the search match, the normalisation) treats the two alike.
- `useTheme` and the `data-theme` attribute: DOM and storage side effects.
- The toast timer: timer-driven and cosmetic.
- The form's inputs and the page's mode are UI state. After a submit the form clears its inputs (src/App.tsx:211-212), and after an edit the page returns to create mode (src/App.tsx:452), so the next valid submit dispatches ADD, not UPDATE. `Tasks.Submit` takes the mode and the inputs as arguments, so this sequencing is not modelled.
- `crypto.randomUUID` and `Date.now`: foreign calls, passed in as `Env`.
- The `DataTransfer` plumbing (`setData`, `effectAllowed`, `dropEffect`, `preventDefault`): the drop's fallback source is the `dropData` string, with `""` for nothing set.
- Full Unicode case mapping in `toLowerCase`: only the ASCII letters are lowered.
- JavaScript strings are sequences of UTF-16 code units, while a Dafny `string` is a sequence of Unicode scalar values, so a lone surrogate cannot be represented. For well-formed text, `trim`, ASCII lowering, `includes` and `.length > 0` agree in both.
- The REORDER indices are JavaScript `number`s, modelled as `int` (`Reorder(fromIndex: int, toIndex: int)`). A NaN or fractional index is not modelled: NaN passes the guard at src/App.tsx:76 and `splice` treats it as 0. The only caller, `onDrop`, passes `findIndex` results, so no reachable behaviour is lost.
- `Move.Move` requires in-range indices. JavaScript `splice` also accepts negative or too-large indices, but the only caller, REORDER, guards against them first.
- The reducer's `default` branch: the command union is closed, so it cannot be reached.
- React's render snapshots and batching: each handler is modelled as running on the current state, one event at a time.
