/**
 * The task list and its reducer: the closed union of six commands that
 * the application dispatches, and the form guard that decides whether a
 * create or edit command is dispatched at all.
 */
module Tasks {
  import opened Wrappers
  import opened Text
  import opened Move
  import Seqs

  /** The status literals "pendiente", "en progreso" and "completada". */
  datatype Status = Pending | InProgress | Completed

  /** One to-do item; timestamps are milliseconds as `Date.now()` returns them. */
  datatype Task = Task(id: string, title: string, description: string, status: Status,
                       createdAt: int, updatedAt: int)

  /** The commands ADD, UPDATE, DELETE, SET_STATUS, REORDER and HYDRATE. */
  datatype Action =
    | Add(title: string, description: Option<string>)
    | Update(id: string, title: string, description: Option<string>)
    | Delete(id: string)
    | SetStatus(id: string, status: Status)
    | Reorder(fromIndex: int, toIndex: int)
    | Hydrate(payload: seq<Task>)

  /** What `crypto.randomUUID()` and `Date.now()` return while a command is reduced. */
  datatype Env = Env(freshId: string, now: int)

  predicate HasId(state: seq<Task>, id: string) {
    exists i :: 0 <= i < |state| && state[i].id == id
  }

  /** `description?.trim() || ""`: a missing description and a blank one both become "". */
  function NormalizeDescription(description: Option<string>): (r: string)
    ensures description.None? ==> r == ""
    ensures description.Some? ==> r == Trim(description.value)
    ensures IsTrimmed(r)
  {
    match description
    case None => ""
    case Some(d) => Trim(d)
  }

  /** ADD: a new pending task, stamped `now`, in front of the unchanged list. */
  function AddTask(state: seq<Task>, title: string, description: Option<string>, env: Env): (r: seq<Task>)
    ensures |r| == |state| + 1 && r[1..] == state
    ensures r[0].id == env.freshId && r[0].status == Pending
    ensures r[0].title == Trim(title) && r[0].description == NormalizeDescription(description)
    ensures r[0].createdAt == env.now && r[0].updatedAt == env.now
  {
    [Task(env.freshId, Trim(title), NormalizeDescription(description), Pending, env.now, env.now)] + state
  }

  /** UPDATE: new title and description and a fresh `updatedAt` on the tasks with that id, nothing else. */
  function UpdateTask(state: seq<Task>, id: string, title: string, description: Option<string>, now: int): (r: seq<Task>)
    ensures |r| == |state|
    ensures forall i :: 0 <= i < |state| ==>
      r[i].id == state[i].id && r[i].status == state[i].status && r[i].createdAt == state[i].createdAt
    ensures forall i :: 0 <= i < |state| && state[i].id != id ==> r[i] == state[i]
    ensures forall i :: 0 <= i < |state| && state[i].id == id ==>
      r[i].title == Trim(title) && r[i].description == NormalizeDescription(description) && r[i].updatedAt == now
    ensures !HasId(state, id) ==> r == state
  {
    seq(|state|, i requires 0 <= i < |state| =>
      if state[i].id == id
      then state[i].(title := Trim(title), description := NormalizeDescription(description), updatedAt := now)
      else state[i])
  }

  /** SET_STATUS: a new status and a fresh `updatedAt` on the tasks with that id, nothing else. */
  function SetTaskStatus(state: seq<Task>, id: string, status: Status, now: int): (r: seq<Task>)
    ensures |r| == |state|
    ensures forall i :: 0 <= i < |state| ==>
      r[i].id == state[i].id && r[i].title == state[i].title && r[i].description == state[i].description
      && r[i].createdAt == state[i].createdAt
    ensures forall i :: 0 <= i < |state| && state[i].id != id ==> r[i] == state[i]
    ensures forall i :: 0 <= i < |state| && state[i].id == id ==> r[i].status == status && r[i].updatedAt == now
    ensures !HasId(state, id) ==> r == state
  {
    seq(|state|, i requires 0 <= i < |state| =>
      if state[i].id == id then state[i].(status := status, updatedAt := now) else state[i])
  }

  /** The filter callback of DELETE. */
  function IdDiffers(id: string): Task -> bool {
    (t: Task) => t.id != id
  }

  /** DELETE: the tasks whose id differs, in their original order. */
  function DeleteTask(state: seq<Task>, id: string): (r: seq<Task>)
    ensures forall i :: 0 <= i < |r| ==> r[i] in state && r[i].id != id
    ensures forall i :: 0 <= i < |state| && state[i].id != id ==> state[i] in r
    ensures Seqs.IsSubsequence(r, state)
    ensures !HasId(state, id) ==> r == state
  {
    Seqs.Filter(state, IdDiffers(id))
  }

  predicate InRange(state: seq<Task>, k: int) {
    0 <= k < |state|
  }

  /** REORDER: guarded `move`; a no-op for equal or out-of-range indices. */
  function ReorderTasks(state: seq<Task>, fromIndex: int, toIndex: int): (r: seq<Task>)
    ensures |r| == |state|
    ensures fromIndex == toIndex || !InRange(state, fromIndex) || !InRange(state, toIndex) ==> r == state
    ensures InRange(state, fromIndex) && InRange(state, toIndex) ==> r[toIndex] == state[fromIndex]
  {
    if fromIndex == toIndex || fromIndex < 0 || toIndex < 0 || fromIndex >= |state| || toIndex >= |state| then state
    else Moved(state, fromIndex, toIndex)
  }

  /** REORDER is a permutation, and apart from the moved task the order of the list is kept. */
  lemma ReorderTasksMoves(state: seq<Task>, fromIndex: int, toIndex: int)
    ensures multiset(ReorderTasks(state, fromIndex, toIndex)) == multiset(state)
    ensures InRange(state, fromIndex) && InRange(state, toIndex) ==>
      RemoveAt(ReorderTasks(state, fromIndex, toIndex), toIndex) == RemoveAt(state, fromIndex)
  {
    if fromIndex != toIndex && InRange(state, fromIndex) && InRange(state, toIndex) {
      MovedPermutation(state, fromIndex, toIndex);
      MovedKeepsOthersInOrder(state, fromIndex, toIndex);
    }
  }

  /** `tasksReducer`. */
  function Reduce(state: seq<Task>, action: Action, env: Env): (r: seq<Task>)
    ensures action.Hydrate? ==> r == action.payload
    ensures action.Add? ==> |r| == |state| + 1 && r[1..] == state && r[0].id == env.freshId
    ensures action.Update? || action.SetStatus? || action.Reorder? ==> |r| == |state|
    ensures action.Delete? ==> |r| <= |state|
    ensures (action.Update? || action.SetStatus? || action.Delete?) && !HasId(state, action.id) ==> r == state
    ensures action.Update? || action.SetStatus? ==>
      forall i :: 0 <= i < |state| ==> r[i].id == state[i].id && r[i].createdAt == state[i].createdAt
  {
    match action
    case Hydrate(payload) => payload
    case Add(title, description) => AddTask(state, title, description, env)
    case Update(id, title, description) => UpdateTask(state, id, title, description, env.now)
    case Delete(id) => DeleteTask(state, id)
    case SetStatus(id, status) => SetTaskStatus(state, id, status, env.now)
    case Reorder(fromIndex, toIndex) => ReorderTasks(state, fromIndex, toIndex)
  }

  /** A command together with what the id generator and the clock return while it is reduced. */
  datatype Step = Step(action: Action, env: Env)

  /** The state after dispatching the steps one after the other. */
  function Run(state: seq<Task>, steps: seq<Step>): seq<Task>
    decreases |steps|
  {
    if steps == [] then state else Run(Reduce(state, steps[0].action, steps[0].env), steps[1..])
  }

  /** Whether the task form creates a task or edits one. */
  datatype FormMode = Create | Edit(task: Task)

  /** `isValid`: the trimmed title is not empty. */
  predicate IsValidTitle(title: string)
    ensures IsValidTitle(title) <==> !IsBlank(title)
  {
    |Trim(title)| > 0
  }

  /**
   * The form's submit handler together with the application's: nothing is
   * dispatched for a blank title; otherwise ADD in create mode and UPDATE of
   * the edited task in edit mode, with the raw (untrimmed) inputs.
   */
  function Submit(mode: FormMode, title: string, description: string): (r: Option<Action>)
    ensures r.Some? <==> !IsBlank(title)
    ensures r.Some? && mode.Create? ==> r.value == Add(title, Some(description))
    ensures r.Some? && mode.Edit? ==> r.value == Update(mode.task.id, title, Some(description))
  {
    if !IsValidTitle(title) then None
    else if mode.Edit? then Some(Update(mode.task.id, title, Some(description)))
    else Some(Add(title, Some(description)))
  }

  /** The state after a submit: unchanged when nothing is dispatched. */
  function AfterSubmit(state: seq<Task>, mode: FormMode, title: string, description: string, env: Env): (r: seq<Task>)
    ensures IsBlank(title) ==> r == state
    ensures !IsBlank(title) && mode.Create? ==>
      |r| == |state| + 1 && r[1..] == state && r[0].title == Trim(title) && r[0].status == Pending
    ensures !IsBlank(title) && mode.Edit? ==> |r| == |state|
  {
    match Submit(mode, title, description)
    case None => state
    case Some(action) => Reduce(state, action, env)
  }
}
