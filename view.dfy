/**
 * The derived view of the task list: the per-status counts shown on the
 * filter chips and the visible list after search and status filter.
 */
module View {
  import opened Text
  import Seqs
  import opened Tasks

  /** The status filter: "todas" or one status. */
  datatype StatusFilter = All | Only(status: Status)

  /** The chip counters `{ all, p, ip, c }`. */
  datatype Counts = Counts(all: nat, p: nat, ip: nat, c: nat)

  /** How many tasks have status `st`, counted from the end of the list. */
  function CountStatus(tasks: seq<Task>, st: Status): nat {
    if tasks == [] then 0
    else CountStatus(tasks[..|tasks| - 1], st) + (if tasks[|tasks| - 1].status == st then 1 else 0)
  }

  /** Every task has exactly one of the three statuses. */
  lemma {:induction false} CountsPartition(tasks: seq<Task>)
    ensures CountStatus(tasks, Pending) + CountStatus(tasks, InProgress) + CountStatus(tasks, Completed) == |tasks|
  {
    if tasks != [] {
      CountsPartition(tasks[..|tasks| - 1]);
    }
  }

  /** The `counts` memo: one pass over the unfiltered list with three counters. */
  method ComputeCounts(tasks: seq<Task>) returns (r: Counts)
    ensures r.all == |tasks| && r.p + r.ip + r.c == r.all
    ensures r.p == CountStatus(tasks, Pending)
    ensures r.ip == CountStatus(tasks, InProgress)
    ensures r.c == CountStatus(tasks, Completed)
  {
    var p, ip, c := 0, 0, 0;
    for i := 0 to |tasks|
      invariant p == CountStatus(tasks[..i], Pending)
      invariant ip == CountStatus(tasks[..i], InProgress)
      invariant c == CountStatus(tasks[..i], Completed)
    {
      assert tasks[..i + 1][..i] == tasks[..i];
      var t := tasks[i];
      if t.status == Pending {
        p := p + 1;
      } else if t.status == InProgress {
        ip := ip + 1;
      } else {
        c := c + 1;
      }
    }
    assert tasks[..|tasks|] == tasks;
    CountsPartition(tasks);
    r := Counts(|tasks|, p, ip, c);
  }

  /** `search.trim().toLowerCase()`. */
  function NormalizeQuery(search: string): (q: string)
    ensures q == [] <==> IsBlank(search)
    ensures |q| <= |search|
    ensures forall i :: 0 <= i < |q| ==> !('A' <= q[i] <= 'Z')
  {
    ToLower(Trim(search))
  }

  /** `byText`: an empty query, or a substring of the lowered title or description. */
  predicate MatchesText(t: Task, q: string)
    ensures q == [] ==> MatchesText(t, q)
    ensures MatchesText(t, q) ==> |q| <= |t.title| || |q| <= |t.description|
  {
    q == [] || Includes(ToLower(t.title), q) || Includes(ToLower(t.description), q)
  }

  /** A task matches a non-empty query exactly when the query occurs in its lowered title or description. */
  lemma MatchesTextIff(t: Task, q: string)
    ensures MatchesText(t, q) <==>
      q == [] || (exists i :: OccursAt(ToLower(t.title), q, i)) || (exists i :: OccursAt(ToLower(t.description), q, i))
  {
    IncludesIff(ToLower(t.title), q);
    IncludesIff(ToLower(t.description), q);
    assert MatchesText(t, q) <==> q == [] || Includes(ToLower(t.title), q) || Includes(ToLower(t.description), q);
  }

  /** `byStatus`: "todas", or the task's own status. */
  predicate MatchesStatus(t: Task, filter: StatusFilter)
    ensures MatchesStatus(t, filter) <==> filter == All || filter == Only(t.status)
  {
    filter.All? || t.status == filter.status
  }

  /** The callback of the `filtered` memo. */
  function VisibleTest(q: string, filter: StatusFilter): Task -> bool {
    (t: Task) => MatchesText(t, q) && MatchesStatus(t, filter)
  }

  /** The `filtered` memo: the tasks passing both the text and the status test, in list order. */
  function Filtered(tasks: seq<Task>, search: string, filter: StatusFilter): (r: seq<Task>)
    ensures Seqs.IsSubsequence(r, tasks)
    ensures forall i :: 0 <= i < |r| ==>
      r[i] in tasks && MatchesText(r[i], NormalizeQuery(search)) && MatchesStatus(r[i], filter)
    ensures forall i :: 0 <= i < |tasks| ==>
      (MatchesText(tasks[i], NormalizeQuery(search)) && MatchesStatus(tasks[i], filter) ==> tasks[i] in r)
  {
    Seqs.Filter(tasks, VisibleTest(NormalizeQuery(search), filter))
  }

  /** A blank search with "todas" shows every task, in order. */
  lemma BlankSearchShowsAll(tasks: seq<Task>, search: string)
    requires IsBlank(search)
    ensures Filtered(tasks, search, All) == tasks
  {
    assert NormalizeQuery(search) == [];
  }

  /** The upper- or lower-case spelling of the query does not change the view. */
  lemma FilteredIgnoresQueryCase(tasks: seq<Task>, search: string, filter: StatusFilter)
    ensures Filtered(tasks, ToLower(search), filter) == Filtered(tasks, search, filter)
  {
    TrimLowerCommute(search);
    ToLowerIdempotent(Trim(search));
    assert NormalizeQuery(ToLower(search)) == NormalizeQuery(search);
  }

  /** The view never reorders: filtering a concatenation filters each part. */
  lemma FilteredConcat(a: seq<Task>, b: seq<Task>, search: string, filter: StatusFilter)
    ensures Filtered(a + b, search, filter) == Filtered(a, search, filter) + Filtered(b, search, filter)
  {
    Seqs.FilterConcat(a, b, VisibleTest(NormalizeQuery(search), filter));
  }

  /**
   * The count on a status chip is the number of tasks that chip shows when
   * the search is blank: counts are taken over the unfiltered list.
   */
  lemma {:induction false} ChipCountIsBlankSearchSize(tasks: seq<Task>, search: string, st: Status)
    requires IsBlank(search)
    ensures |Filtered(tasks, search, Only(st))| == CountStatus(tasks, st)
  {
    if tasks != [] {
      var n := |tasks| - 1;
      assert tasks == tasks[..n] + [tasks[n]];
      var keep := VisibleTest(NormalizeQuery(search), Only(st));
      assert NormalizeQuery(search) == [];
      Seqs.FilterConcat(tasks[..n], [tasks[n]], keep);
      assert Seqs.Filter([tasks[n]], keep) == if tasks[n].status == st then [tasks[n]] else [];
      ChipCountIsBlankSearchSize(tasks[..n], search, st);
    }
  }

  // The three lemmas below lower and slice the example strings one character at
  // a time: each step is a small fact the solver checks quickly, whereas the
  // whole string at once exceeds its resource budget. They state nothing beyond
  // their ensures.
  lemma MilkQuery()
    ensures NormalizeQuery("milk") == "milk"
  {
    TrimOfTrimmed("milk");
    assert ToLower("k") == "k";
    assert ToLower("lk") == "lk";
    assert ToLower("ilk") == "ilk";
    assert ToLower("milk") == "milk";
  }

  lemma LowerBuyMilk()
    ensures ToLower("Buy milk") == "buy milk"
  {
    assert ToLower("k") == "k";
    assert ToLower("lk") == "lk";
    assert ToLower("ilk") == "ilk";
    assert ToLower("milk") == "milk";
    assert ToLower(" milk") == " milk";
    assert ToLower("y milk") == "y milk";
    assert ToLower("uy milk") == "uy milk";
  }

  lemma MilkInBuyMilk()
    ensures Includes(ToLower("Buy milk"), "milk")
  {
    LowerBuyMilk();
    assert StartsWith("milk", "milk");
    assert " milk"[1..] == "milk";
    assert "y milk"[1..] == " milk";
    assert "uy milk"[1..] == "y milk";
    assert "buy milk"[1..] == "uy milk";
  }

  lemma MilkNotInWalkDog()
    ensures !Includes(ToLower("Walk dog"), "milk") && !Includes(ToLower(""), "milk")
  {
    assert ToLower("Walk dog") == "walk dog";
    FirstCharMissing("walk dog", "milk");
    FirstCharMissing("", "milk");
  }

  lemma MilkVisible(milk: Task, dog: Task)
    requires milk == Task("1", "Buy milk", "", Pending, 0, 0)
    requires dog == Task("2", "Walk dog", "", Completed, 0, 0)
    ensures VisibleTest("milk", All)(milk) && !VisibleTest("milk", All)(dog)
  {
    MilkInBuyMilk();
    MilkNotInWalkDog();
  }

  /** "Buy milk" (pending) and "Walk dog" (completed): searching "milk" shows the first one only. */
  lemma SearchExample(milk: Task, dog: Task)
    requires milk == Task("1", "Buy milk", "", Pending, 0, 0)
    requires dog == Task("2", "Walk dog", "", Completed, 0, 0)
    ensures Filtered([milk, dog], "milk", All) == [milk]
  {
    MilkQuery();
    MilkVisible(milk, dog);
    var keep := VisibleTest("milk", All);
    assert [milk, dog][1..] == [dog];
    assert Seqs.Filter([dog], keep) == [];
    assert Seqs.Filter([milk, dog], keep) == [milk];
  }

  /** The same two tasks: the "completada" chip shows the second one only; the status counts are 1 pending, 0 in progress, 1 completed. */
  lemma StatusExample(milk: Task, dog: Task)
    requires milk == Task("1", "Buy milk", "", Pending, 0, 0)
    requires dog == Task("2", "Walk dog", "", Completed, 0, 0)
    ensures Filtered([milk, dog], "", Only(Completed)) == [dog]
    ensures CountStatus([milk, dog], Pending) == 1 && CountStatus([milk, dog], InProgress) == 0
    ensures CountStatus([milk, dog], Completed) == 1
  {
    assert NormalizeQuery("") == [];
    var keep := VisibleTest([], Only(Completed));
    assert [milk, dog][1..] == [dog];
    assert Seqs.Filter([dog], keep) == [dog];
    assert [milk, dog][..1] == [milk];
    assert [milk][..0] == [];
    assert CountStatus([milk], Pending) == 1 && CountStatus([milk], Completed) == 0;
    assert CountStatus([milk], InProgress) == 0;
  }
}
