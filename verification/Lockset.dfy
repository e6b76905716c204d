/** lockset_lock of src/bench_list_scale.c: the locks of a plan, in ascending order, each once. */
module Lockset {
  predicate Ascending(ks: seq<int>) {
    forall i, j :: 0 <= i < j < |ks| ==> ks[i] < ks[j]
  }

  /** Adds k to an ascending sequence, unless it is there. */
  function Insert(ks: seq<int>, k: int): seq<int> {
    if ks == [] || k < ks[0] then [k] + ks
    else if k == ks[0] then ks
    else [ks[0]] + Insert(ks[1..], k)
  }

  /** The distinct locks of v in ascending order. */
  function Keys(v: seq<int>): seq<int> {
    if v == [] then [] else Insert(Keys(v[..|v| - 1]), v[|v| - 1])
  }

  lemma {:induction false} InsertSorted(ks: seq<int>, k: int)
    requires Ascending(ks)
    ensures Ascending(Insert(ks, k)) && forall x: int :: x in Insert(ks, k) <==> x in ks || x == k
  {
    if ks != [] && ks[0] < k {
      InsertSorted(ks[1..], k);
      var r := Insert(ks[1..], k);
      assert forall x: int :: x in ks <==> x == ks[0] || x in ks[1..];
      forall i | 0 <= i < |r| ensures ks[0] < r[i] {
        assert r[i] in r;
      }
    }
  }

  /** Keys orders the locks and neither loses nor adds one. */
  lemma {:induction false} KeysSorted(v: seq<int>)
    ensures Ascending(Keys(v)) && forall x: int :: x in Keys(v) <==> x in v
  {
    if v != [] {
      var u := v[..|v| - 1];
      KeysSorted(u);
      InsertSorted(Keys(u), v[|v| - 1]);
      assert v == u + [v[|v| - 1]];
    }
  }

  /** An ascending sequence is determined by its elements. */
  lemma {:induction false} AscendingUnique(a: seq<int>, b: seq<int>)
    requires Ascending(a) && Ascending(b) && forall x: int :: x in a <==> x in b
    ensures a == b
  {
    assert a != [] ==> a[0] in a;
    assert b != [] ==> b[0] in b;
    if a != [] && b != [] {
      assert a[0] in b && b[0] in a;
      assert a[0] == b[0];
      forall x: int ensures x in a[1..] <==> x in b[1..] {
        assert x in a <==> x == a[0] || x in a[1..];
        assert x in b <==> x == b[0] || x in b[1..];
        assert x in a[1..] ==> x > a[0];
        assert x in b[1..] ==> x > b[0];
      }
      AscendingUnique(a[1..], b[1..]);
      assert a == [a[0]] + a[1..] && b == [b[0]] + b[1..];
    }
  }

  predicate Sorted(v: seq<int>) {
    forall i, j :: 0 <= i < j < |v| ==> v[i] <= v[j]
  }

  /** a with the elements before and at j swapped. */
  function Swapped(a: seq<int>, j: int): seq<int>
    requires 0 < j < |a|
  {
    a[j := a[j - 1]][j - 1 := a[j]]
  }

  lemma SwapKeeps(a: seq<int>, j: int)
    requires 0 < j < |a|
    ensures multiset(Swapped(a, j)) == multiset(a)
  {
  }

  /** Sorted but for the element at j, which may belong further to the left. */
  predicate SortedBut(a: seq<int>, j: int) {
    forall x, y :: 0 <= x < y < |a| && y != j ==> a[x] <= a[y]
  }

  lemma SinkStep(a: seq<int>, j: int)
    requires 0 < j < |a| && SortedBut(a, j) && a[j - 1] > a[j]
    ensures SortedBut(Swapped(a, j), j - 1)
  {
  }

  lemma SinkEnds(a: seq<int>, j: int)
    requires 0 <= j < |a| && SortedBut(a, j) && (j > 0 ==> a[j - 1] <= a[j])
    ensures Sorted(a)
  {
    forall x, y | 0 <= x < y < |a| ensures a[x] <= a[y] {
      if y == j && x < j - 1 { assert a[x] <= a[j - 1]; }
    }
  }

  /** One round of the insertion sort: v[i] sinks to its place among the sorted v[..i]. */
  method Sink(v: array<int>, i: int)
    requires 0 <= i < v.Length && Sorted(v[..i])
    modifies v
    ensures Sorted(v[..i + 1]) && multiset(v[..]) == multiset(old(v[..]))
  {
    var j := i;
    while j > 0 && v[j - 1] > v[j]
      invariant 0 <= j <= i && SortedBut(v[..i + 1], j)
      invariant multiset(v[..]) == multiset(old(v[..]))
    {
      ghost var was, part := v[..], v[..i + 1];
      SwapKeeps(was, j);
      SinkStep(part, j);
      v[j], v[j - 1] := v[j - 1], v[j];
      assert v[..] == Swapped(was, j) && v[..i + 1] == Swapped(part, j);
      j := j - 1;
    }
    SinkEnds(v[..i + 1], j);
  }

  /** The insertion sort, in place. */
  method Sort(v: array<int>)
    modifies v
    ensures Sorted(v[..]) && multiset(v[..]) == multiset(old(v[..]))
  {
    var i := if v.Length == 0 then 0 else 1;
    while i < v.Length
      invariant 0 <= i <= v.Length && Sorted(v[..i])
      invariant multiset(v[..]) == multiset(old(v[..]))
    {
      Sink(v, i);
      i := i + 1;
    }
    assert v[..i] == v[..];
  }

  /** Equal neighbours are taken once. */
  method Dedup(v: seq<int>) returns (key: seq<int>)
    requires Sorted(v)
    ensures Ascending(key) && forall x: int :: x in key <==> x in v
  {
    key := [];
    var i := 0;
    while i < |v|
      invariant 0 <= i <= |v| && Ascending(key)
      invariant if i == 0 then key == [] else key != [] && key[|key| - 1] == v[i - 1]
      invariant forall x: int :: x in key <==> x in v[..i]
    {
      assert v[..i + 1] == v[..i] + [v[i]];
      if |key| == 0 || key[|key| - 1] != v[i] {
        key := key + [v[i]];
      }
      i := i + 1;
    }
    assert v[..i] == v;
  }

  /** The key array of lockset_lock, which is then locked from left to right. */
  method LocksetKeys(v: array<int>) returns (key: seq<int>)
    modifies v
    ensures key == Keys(old(v[..]))
  {
    ghost var was := v[..];
    Sort(v);
    key := Dedup(v[..]);
    forall x: int ensures x in key <==> x in was {
      assert x in v[..] <==> x in multiset(v[..]);
      assert x in was <==> x in multiset(was);
    }
    KeysSorted(was);
    AscendingUnique(key, Keys(was));
  }
}
