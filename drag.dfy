/**
 * Drag-and-drop reordering: the `dragId` / `overId` fields of the page,
 * the four handlers that update them, and how a drop is resolved into at
 * most one REORDER command.
 */
module Drag {
  import opened Wrappers
  import opened Move
  import opened Tasks
  import opened TaskLaws

  /** `tasks.findIndex(t => t.id === id)`: the first position holding `id`, or -1. */
  function FindIndex(tasks: seq<Task>, id: string): (r: int)
    ensures -1 <= r < |tasks|
    ensures r == -1 <==> !HasId(tasks, id)
    ensures 0 <= r ==> tasks[r].id == id && forall j :: 0 <= j < r ==> tasks[j].id != id
  {
    if tasks == [] then -1
    else if tasks[0].id == id then 0
    else
      var k := FindIndex(tasks[1..], id);
      if k == -1 then -1 else k + 1
  }

  /** `dragId || e.dataTransfer.getData("text/plain")`; `getData` yields "" when nothing was set. */
  function DropSource(dragId: Option<string>, dropData: string): (r: string)
    ensures r != "" <==> (dragId.Some? && dragId.value != "") || dropData != ""
    ensures dragId.Some? && dragId.value != "" ==> r == dragId.value
    ensures !(dragId.Some? && dragId.value != "") ==> r == dropData
  {
    if dragId.Some? && dragId.value != "" then dragId.value else dropData
  }

  /**
   * The command a drop on the task `target` issues: none when the source is
   * empty, is the target itself, or either id is not in the list; otherwise
   * REORDER between the two positions, which then differ.
   */
  function DropCommand(tasks: seq<Task>, dragId: Option<string>, dropData: string, target: string): (r: Option<Action>)
    ensures var source := DropSource(dragId, dropData);
      r.Some? <==> source != "" && source != target && HasId(tasks, source) && HasId(tasks, target)
    ensures r.Some? ==>
      (r.value.Reorder?
       && InRange(tasks, r.value.fromIndex) && InRange(tasks, r.value.toIndex)
       && r.value.fromIndex != r.value.toIndex
       && tasks[r.value.fromIndex].id == DropSource(dragId, dropData)
       && tasks[r.value.toIndex].id == target
       && (forall j :: 0 <= j < r.value.fromIndex ==> tasks[j].id != DropSource(dragId, dropData))
       && (forall j :: 0 <= j < r.value.toIndex ==> tasks[j].id != target))
  {
    var source := DropSource(dragId, dropData);
    if source == "" || source == target then None
    else
      var from := FindIndex(tasks, source);
      var to := FindIndex(tasks, target);
      if from != -1 && to != -1 then Some(Reorder(from, to)) else None
  }

  /** The list after a drop: the dragged task lands where the target was, the rest keep their order. */
  lemma DropMovesSourceToTarget(tasks: seq<Task>, dragId: Option<string>, dropData: string, target: string, env: Env)
    requires DropCommand(tasks, dragId, dropData, target).Some?
    ensures var cmd := DropCommand(tasks, dragId, dropData, target).value;
      var r := Reduce(tasks, cmd, env);
      multiset(r) == multiset(tasks)
      && r[cmd.toIndex].id == DropSource(dragId, dropData)
      && RemoveAt(r, cmd.toIndex) == RemoveAt(tasks, cmd.fromIndex)
  {
    var cmd := DropCommand(tasks, dragId, dropData, target).value;
    ReorderTasksMoves(tasks, cmd.fromIndex, cmd.toIndex);
  }

  /** On [A, B, C], dragging B onto A gives [B, A, C]: move, not swap. */
  lemma DragBOntoA(a: Task, b: Task, c: Task, env: Env)
    requires a.id != b.id && b.id != c.id && a.id != c.id && b.id != ""
    ensures DropCommand([a, b, c], Some(b.id), "", a.id) == Some(Reorder(1, 0))
    ensures Reduce([a, b, c], Reorder(1, 0), env) == [b, a, c]
  {
    assert FindIndex([a, b, c], b.id) == 1 by {
      assert [a, b, c][1..] == [b, c];
    }
    assert Moved([a, b, c], 1, 0) == [b, a, c];
  }

  /** Dropping a task on itself issues nothing. */
  lemma DropOnSelfIssuesNothing(tasks: seq<Task>, dragId: Option<string>, dropData: string)
    ensures DropCommand(tasks, dragId, dropData, DropSource(dragId, dropData)).None?
  {
  }

  /** The page state the drag handlers update, next to the task list held by the reducer. */
  class Board {
    var tasks: seq<Task>
    var dragId: Option<string>
    var overId: Option<string>

    /** `useReducer(tasksReducer, [])` and two `useState(null)`. */
    constructor ()
      ensures tasks == [] && dragId == None && overId == None
    {
      tasks := [];
      dragId := None;
      overId := None;
    }

    /** `dispatch`: the reducer replaces the list; the drag fields stay. */
    method Dispatch(action: Action, env: Env)
      modifies this
      ensures tasks == Reduce(old(tasks), action, env)
      ensures dragId == old(dragId) && overId == old(overId)
    {
      tasks := Reduce(tasks, action, env);
    }

    method OnDragStart(id: string)
      modifies this
      ensures dragId == Some(id)
      ensures tasks == old(tasks) && overId == old(overId)
    {
      dragId := Some(id);
    }

    method OnDragOver(id: string)
      modifies this
      ensures overId == Some(id)
      ensures tasks == old(tasks) && dragId == old(dragId)
    {
      overId := Some(id);
    }

    /**
     * A drop on the task `target`, with `dropData` the text the drag event
     * carries: at most one REORDER is dispatched, a well-formed list stays
     * well formed, and both drag fields are cleared on every path.
     */
    method OnDrop(target: string, dropData: string, env: Env) returns (issued: Option<Action>)
      modifies this
      ensures issued == DropCommand(old(tasks), old(dragId), dropData, target)
      ensures tasks == if issued.Some? then Reduce(old(tasks), issued.value, env) else old(tasks)
      ensures WellFormed(old(tasks)) ==> WellFormed(tasks)
      ensures dragId == None && overId == None
    {
      issued := DropCommand(tasks, dragId, dropData, target);
      if issued.Some? {
        ghost var wellFormed := WellFormed(tasks);
        if wellFormed {
          ReorderPreservesWellFormed(tasks, issued.value.fromIndex, issued.value.toIndex);
        }
        Dispatch(issued.value, env);
      }
      dragId := None;
      overId := None;
    }

    method OnDragEnd()
      modifies this
      ensures dragId == None && overId == None
      ensures tasks == old(tasks)
    {
      dragId := None;
      overId := None;
    }
  }
}
