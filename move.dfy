/**
 * The `move` helper of the task reducer: copy the array, `splice` the
 * element at `from` out, and `splice` it back in at `to`, an index into the
 * shortened array.
 */
module Move {

  /** `splice(k, 1)`: the sequence without its element at `k`. */
  function RemoveAt<T>(s: seq<T>, k: nat): (r: seq<T>)
    requires k < |s|
    ensures |r| == |s| - 1
  {
    s[..k] + s[k + 1..]
  }

  /** `splice(k, 0, x)`: the sequence with `x` inserted before position `k`. */
  function InsertAt<T>(s: seq<T>, k: nat, x: T): (r: seq<T>)
    requires k <= |s|
    ensures |r| == |s| + 1 && r[k] == x
  {
    s[..k] + [x] + s[k..]
  }

  /** Remove-then-insert (not swap): the element at `from` ends up at `to`. */
  function Moved<T>(s: seq<T>, from: nat, to: nat): (r: seq<T>)
    requires from < |s| && to < |s|
    ensures |r| == |s| && r[to] == s[from]
  {
    InsertAt(RemoveAt(s, from), to, s[from])
  }

  /** The index of `s` whose element `Moved(s, from, to)` holds at `i`. */
  function MovedSource(from: nat, to: nat, i: nat): nat {
    if i == to then from
    else if from < to && from <= i < to then i + 1
    else if to < from && to < i <= from then i - 1
    else i
  }

  /** Elementwise view of a move: between the two positions everything shifts by one, elsewhere nothing moves. */
  lemma MovedAt<T>(s: seq<T>, from: nat, to: nat, i: nat)
    requires from < |s| && to < |s| && i < |s|
    ensures MovedSource(from, to, i) < |s|
    ensures Moved(s, from, to)[i] == s[MovedSource(from, to, i)]
  {
    var rest := RemoveAt(s, from);
    if i < to {
      assert Moved(s, from, to)[i] == rest[i];
    } else if i > to {
      assert Moved(s, from, to)[i] == rest[i - 1];
    }
  }

  /** Distinct positions of the result come from distinct positions of the input. */
  lemma MovedSourceInjective(from: nat, to: nat, i: nat, j: nat)
    requires i != j
    ensures MovedSource(from, to, i) != MovedSource(from, to, j)
  {
  }

  /** A move is a permutation: nothing is added, removed or duplicated. */
  lemma MovedPermutation<T>(s: seq<T>, from: nat, to: nat)
    requires from < |s| && to < |s|
    ensures multiset(Moved(s, from, to)) == multiset(s)
  {
    var rest := RemoveAt(s, from);
    assert s == s[..from] + [s[from]] + s[from + 1..];
    assert rest == rest[..to] + rest[to..];
    calc {
      multiset(Moved(s, from, to));
      multiset(rest[..to]) + multiset([s[from]]) + multiset(rest[to..]);
      multiset(rest) + multiset([s[from]]);
      multiset(s[..from]) + multiset(s[from + 1..]) + multiset([s[from]]);
      multiset(s);
    }
  }

  /** Apart from the moved element, the relative order of all elements is unchanged. */
  lemma MovedKeepsOthersInOrder<T>(s: seq<T>, from: nat, to: nat)
    requires from < |s| && to < |s|
    ensures RemoveAt(Moved(s, from, to), to) == RemoveAt(s, from)
  {
    var rest := RemoveAt(s, from);
    var r := Moved(s, from, to);
    assert r[..to] == rest[..to];
    assert r[to + 1..] == rest[to..];
  }

  /** Moving an element onto its own position is the identity. */
  lemma MovedToSelf<T>(s: seq<T>, k: nat)
    requires k < |s|
    ensures Moved(s, k, k) == s
  {
    assert Moved(s, k, k) == s[..k] + [s[k]] + s[k + 1..];
  }

  /**
   * `move` as the source runs it on a copy of the array: the two `splice`
   * calls on a buffer of fixed length amount to shifting the elements
   * between `from` and `to` by one place and storing the item at `to`.
   */
  method Move<T>(arr: seq<T>, from: nat, to: nat) returns (r: seq<T>)
    requires from < |arr| && to < |arr|
    ensures r == Moved(arr, from, to)
  {
    var copy := new T[|arr|](i requires 0 <= i < |arr| => arr[i]);
    var item := copy[from];
    if from < to {
      var i := from;
      while i < to
        invariant from <= i <= to
        invariant forall k :: from <= k < i ==> copy[k] == arr[k + 1]
        invariant forall k :: 0 <= k < |arr| && !(from <= k < i) ==> copy[k] == arr[k]
      {
        copy[i] := copy[i + 1];
        i := i + 1;
      }
    } else {
      var i := from;
      while i > to
        invariant to <= i <= from
        invariant forall k :: i < k <= from ==> copy[k] == arr[k - 1]
        invariant forall k :: 0 <= k < |arr| && !(i < k <= from) ==> copy[k] == arr[k]
      {
        copy[i] := copy[i - 1];
        i := i - 1;
      }
    }
    copy[to] := item;
    r := copy[..];
    forall k | 0 <= k < |arr|
      ensures r[k] == Moved(arr, from, to)[k]
    {
      MovedAt(arr, from, to, k);
    }
  }
}
