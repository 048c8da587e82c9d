/**
 * What the reducer keeps true: unique ids, trimmed non-empty titles,
 * trimmed descriptions and `createdAt <= updatedAt`, provided the form
 * guard, a fresh id and a clock that does not run backwards.
 */
module TaskLaws {
  import opened Wrappers
  import opened Text
  import opened Move
  import Seqs
  import opened Tasks

  predicate UniqueIds(state: seq<Task>) {
    forall i, j :: 0 <= i < |state| && 0 <= j < |state| && i != j ==> state[i].id != state[j].id
  }

  predicate TaskWellFormed(t: Task) {
    t.title != [] && IsTrimmed(t.title) && IsTrimmed(t.description)
    && t.createdAt <= t.updatedAt
  }

  predicate WellFormed(state: seq<Task>) {
    UniqueIds(state) && forall i :: 0 <= i < |state| ==> TaskWellFormed(state[i])
  }

  /** The clock has not gone back past any recorded update. */
  predicate ClockNotBehind(state: seq<Task>, now: int) {
    forall i :: 0 <= i < |state| ==> state[i].updatedAt <= now
  }

  /**
   * What a command needs from its environment to keep the list well formed:
   * a valid title (the form guard), a fresh id for ADD, a clock not behind
   * for the commands that stamp `updatedAt`, and a well-formed HYDRATE payload.
   */
  predicate Admissible(state: seq<Task>, action: Action, env: Env) {
    match action
    case Add(title, _) => IsValidTitle(title) && !HasId(state, env.freshId)
    case Update(_, title, _) => IsValidTitle(title) && ClockNotBehind(state, env.now)
    case SetStatus(_, _) => ClockNotBehind(state, env.now)
    case Delete(_) => true
    case Reorder(_, _) => true
    case Hydrate(payload) => WellFormed(payload)
  }

  predicate AllAdmissible(state: seq<Task>, steps: seq<Step>)
    decreases |steps|
  {
    steps == []
    || (Admissible(state, steps[0].action, steps[0].env)
        && AllAdmissible(Reduce(state, steps[0].action, steps[0].env), steps[1..]))
  }

  /** The form guard `isValid` accepts exactly the titles with a non-whitespace character. */
  lemma ValidTitleIff(title: string)
    ensures IsValidTitle(title) <==> exists i :: 0 <= i < |title| && !IsWhitespace(title[i])
  {
  }

  /** ADD prepends the new task and keeps ids unique when the id is fresh. */
  lemma AddKeepsUniqueIds(state: seq<Task>, title: string, description: Option<string>, env: Env)
    requires UniqueIds(state) && !HasId(state, env.freshId)
    ensures UniqueIds(AddTask(state, title, description, env))
  {
    var r := AddTask(state, title, description, env);
    forall i, j | 0 <= i < |r| && 0 <= j < |r| && i != j
      ensures r[i].id != r[j].id
    {
      if i == 0 {
        assert r[j] == state[j - 1];
      } else if j == 0 {
        assert r[i] == state[i - 1];
      } else {
        assert r[i] == state[i - 1] && r[j] == state[j - 1];
      }
    }
  }

  /** Filtering a list with unique ids keeps them unique. */
  lemma {:induction false} FilterKeepsUniqueIds(state: seq<Task>, keep: Task -> bool)
    requires UniqueIds(state)
    ensures UniqueIds(Seqs.Filter(state, keep))
  {
    if state != [] {
      var tail := state[1..];
      TailUniqueIds(state);
      FilterKeepsUniqueIds(tail, keep);
      if keep(state[0]) {
        var rest := Seqs.Filter(tail, keep);
        var r := [state[0]] + rest;
        assert Seqs.Filter(state, keep) == r;
        forall i | 0 <= i < |rest|
          ensures rest[i].id != state[0].id
        {
          var k :| 0 <= k < |tail| && tail[k] == rest[i];
          assert state[k + 1] == rest[i];
        }
        forall i, j | 0 <= i < |r| && 0 <= j < |r| && i != j
          ensures r[i].id != r[j].id
        {
          if i != 0 && j != 0 {
            assert r[i] == rest[i - 1] && r[j] == rest[j - 1];
          } else if i == 0 {
            assert r[j] == rest[j - 1];
          } else {
            assert r[i] == rest[i - 1];
          }
        }
      }
    }
  }

  /** REORDER keeps ids unique: it only permutes positions. */
  lemma ReorderKeepsUniqueIds(state: seq<Task>, fromIndex: int, toIndex: int)
    requires UniqueIds(state)
    ensures UniqueIds(ReorderTasks(state, fromIndex, toIndex))
  {
    if fromIndex != toIndex && InRange(state, fromIndex) && InRange(state, toIndex) {
      var r := Moved(state, fromIndex, toIndex);
      forall i, j | 0 <= i < |r| && 0 <= j < |r| && i != j
        ensures r[i].id != r[j].id
      {
        MovedAt(state, fromIndex, toIndex, i);
        MovedAt(state, fromIndex, toIndex, j);
        MovedSourceInjective(fromIndex, toIndex, i, j);
      }
    }
  }

  lemma TailUniqueIds(state: seq<Task>)
    requires state != [] && UniqueIds(state)
    ensures UniqueIds(state[1..])
    ensures !HasId(state[1..], state[0].id)
  {
    var tail := state[1..];
    forall i, j | 0 <= i < |tail| && 0 <= j < |tail| && i != j
      ensures tail[i].id != tail[j].id
    {
      assert tail[i] == state[i + 1] && tail[j] == state[j + 1];
    }
    forall k | 0 <= k < |tail|
      ensures tail[k].id != state[0].id
    {
      assert tail[k] == state[k + 1];
    }
  }

  lemma HasIdTail(state: seq<Task>, id: string)
    requires state != [] && state[0].id != id
    ensures HasId(state, id) <==> HasId(state[1..], id)
  {
    if HasId(state, id) {
      var k :| 0 <= k < |state| && state[k].id == id;
      assert state[1..][k - 1] == state[k];
    }
    if HasId(state[1..], id) {
      var k :| 0 <= k < |state| - 1 && state[1..][k].id == id;
      assert state[k + 1] == state[1..][k];
    }
  }

  lemma DeleteUnfold(state: seq<Task>, id: string)
    requires state != []
    ensures DeleteTask(state, id) == (if state[0].id != id then [state[0]] else []) + DeleteTask(state[1..], id)
  {
  }

  /** With unique ids, DELETE drops exactly one task when the id is present and none otherwise. */
  lemma {:induction false} DeleteLength(state: seq<Task>, id: string)
    requires UniqueIds(state)
    ensures |DeleteTask(state, id)| == if HasId(state, id) then |state| - 1 else |state|
  {
    if state != [] {
      TailUniqueIds(state);
      DeleteUnfold(state, id);
      if state[0].id == id {
        assert HasId(state, id);
        assert DeleteTask(state[1..], id) == state[1..];
      } else {
        HasIdTail(state, id);
        DeleteLength(state[1..], id);
      }
    }
  }

  /**
   * DELETE decides task by task: a single task goes exactly when its id
   * matches, and a list is handled piece by piece, so the result is exactly
   * the non-matching tasks in their original order.
   */
  lemma DeleteIsPointwise(a: seq<Task>, b: seq<Task>, t: Task, id: string)
    ensures DeleteTask([t], id) == if t.id == id then [] else [t]
    ensures DeleteTask(a + b, id) == DeleteTask(a, id) + DeleteTask(b, id)
  {
    Seqs.FilterConcat(a, b, IdDiffers(id));
    assert [t][1..] == [];
  }

  lemma AddPreservesWellFormed(state: seq<Task>, title: string, description: Option<string>, env: Env)
    requires WellFormed(state) && IsValidTitle(title) && !HasId(state, env.freshId)
    ensures WellFormed(AddTask(state, title, description, env))
  {
    var r := AddTask(state, title, description, env);
    AddKeepsUniqueIds(state, title, description, env);
    assert TaskWellFormed(r[0]);
    assert forall i :: 1 <= i < |r| ==> r[i] == state[i - 1];
  }

  lemma UpdatePreservesWellFormed(state: seq<Task>, id: string, title: string, description: Option<string>, now: int)
    requires WellFormed(state) && IsValidTitle(title) && ClockNotBehind(state, now)
    ensures WellFormed(UpdateTask(state, id, title, description, now))
  {
    var r := UpdateTask(state, id, title, description, now);
    assert forall i :: 0 <= i < |r| ==> TaskWellFormed(r[i]);
  }

  lemma SetStatusPreservesWellFormed(state: seq<Task>, id: string, status: Status, now: int)
    requires WellFormed(state) && ClockNotBehind(state, now)
    ensures WellFormed(SetTaskStatus(state, id, status, now))
  {
    var r := SetTaskStatus(state, id, status, now);
    assert forall i :: 0 <= i < |r| ==> TaskWellFormed(r[i]);
  }

  lemma DeletePreservesWellFormed(state: seq<Task>, id: string)
    requires WellFormed(state)
    ensures WellFormed(DeleteTask(state, id))
  {
    var r := DeleteTask(state, id);
    FilterKeepsUniqueIds(state, IdDiffers(id));
    forall i | 0 <= i < |r|
      ensures TaskWellFormed(r[i])
    {
      var k :| 0 <= k < |state| && state[k] == r[i];
    }
  }

  lemma ReorderPreservesWellFormed(state: seq<Task>, fromIndex: int, toIndex: int)
    requires WellFormed(state)
    ensures WellFormed(ReorderTasks(state, fromIndex, toIndex))
  {
    var r := ReorderTasks(state, fromIndex, toIndex);
    ReorderKeepsUniqueIds(state, fromIndex, toIndex);
    ReorderTasksMoves(state, fromIndex, toIndex);
    forall i | 0 <= i < |r|
      ensures TaskWellFormed(r[i])
    {
      assert r[i] in multiset(state);
    }
  }

  /** Every command the environment admits keeps the list well formed. */
  lemma ReducePreservesWellFormed(state: seq<Task>, action: Action, env: Env)
    requires WellFormed(state) && Admissible(state, action, env)
    ensures WellFormed(Reduce(state, action, env))
  {
    match action
    case Add(title, description) => AddPreservesWellFormed(state, title, description, env);
    case Update(id, title, description) => UpdatePreservesWellFormed(state, id, title, description, env.now);
    case SetStatus(id, status) => SetStatusPreservesWellFormed(state, id, status, env.now);
    case Delete(id) => DeletePreservesWellFormed(state, id);
    case Reorder(fromIndex, toIndex) => ReorderPreservesWellFormed(state, fromIndex, toIndex);
    case Hydrate(payload) =>
  }

  /** The whole invariant (unique ids, trimmed non-empty titles, trimmed descriptions, `createdAt <= updatedAt`) holds along any run of admitted commands. */
  lemma {:induction false} RunPreservesWellFormed(state: seq<Task>, steps: seq<Step>)
    requires WellFormed(state) && AllAdmissible(state, steps)
    ensures WellFormed(Run(state, steps))
    decreases |steps|
  {
    if steps != [] {
      ReducePreservesWellFormed(state, steps[0].action, steps[0].env);
      RunPreservesWellFormed(Reduce(state, steps[0].action, steps[0].env), steps[1..]);
    }
  }

  /** UPDATE, SET_STATUS and DELETE on an unknown id return the input list itself. */
  lemma UnknownIdIsNoOp(state: seq<Task>, id: string, title: string, description: Option<string>,
                        status: Status, env: Env)
    requires !HasId(state, id)
    ensures Reduce(state, Update(id, title, description), env) == state
    ensures Reduce(state, SetStatus(id, status), env) == state
    ensures Reduce(state, Delete(id), env) == state
  {
  }

  /** HYDRATE copies its payload verbatim whatever the prior list, so it is idempotent. */
  lemma HydrateVerbatim(state: seq<Task>, other: seq<Task>, payload: seq<Task>, env: Env, env': Env)
    ensures Reduce(state, Hydrate(payload), env) == payload
    ensures Reduce(Reduce(state, Hydrate(payload), env), Hydrate(payload), env')
         == Reduce(other, Hydrate(payload), env')
  {
  }

  /** A blank title dispatches nothing, so the list keeps its length and contents. */
  lemma BlankSubmitIsIgnored(state: seq<Task>, mode: FormMode, title: string, description: string, env: Env)
    requires IsBlank(title)
    ensures AfterSubmit(state, mode, title, description, env) == state
  {
  }

  /** A submitted title reaches the list trimmed and non-empty. */
  lemma SubmittedTitleIsVisible(state: seq<Task>, title: string, description: string, env: Env)
    requires !IsBlank(title)
    ensures var r := AfterSubmit(state, Create, title, description, env);
      |r| == |state| + 1 && r[0].title != [] && Trim(r[0].title) == r[0].title
      && r[0].description == Trim(description) && r[1..] == state
  {
  }

  /** The reducer itself does not reject blank titles: ADD still prepends a task, titled "". */
  lemma ReducerAcceptsBlankTitle(state: seq<Task>, title: string, env: Env)
    requires IsBlank(title)
    ensures var r := Reduce(state, Add(title, None), env);
      |r| == |state| + 1 && r[0].title == "" && r[0].description == ""
  {
  }
}
