/** Circular lists as sequences: what linking and unlinking one node does to the forward links. */
module PlanRing {
  import opened RingList
  import opened PlanLock

  predicate Distinct(ring: seq<int>) {
    forall i, j :: 0 <= i < j < |ring| ==> ring[i] != ring[j]
  }

  /** The position after i, around the end. */
  function Wrap(ring: seq<int>, i: int): int { if i + 1 == |ring| then 0 else i + 1 }

  /** The node after the i-th. */
  function NextIn(ring: seq<int>, i: int): int
    requires 0 <= i < |ring|
  {
    ring[Wrap(ring, i)]
  }

  predicate Follows(heap: map<int, Node>, ring: seq<int>, i: int)
    requires 0 <= i < |ring|
  {
    ring[i] in heap && heap[ring[i]].next == NextIn(ring, i)
  }

  /** The forward links lead from the head through the whole sequence and back. */
  ghost predicate Cycle(heap: map<int, Node>, ring: seq<int>) {
    && ring != [] && ring[0] == HEAD && Distinct(ring)
    && (forall i: int {:trigger Follows(heap, ring, i)} :: 0 <= i < |ring| ==> Follows(heap, ring, i))
  }

  lemma {:induction false} AfterAt(ring: seq<int>, k: int, e: int)
    requires Distinct(ring) && 0 <= k < |ring|
    ensures After(ring, ring[k], e) == ring[..k + 1] + [e] + ring[k + 1..]
  {
    if k > 0 {
      assert ring[0] != ring[k];
      AfterAt(ring[1..], k - 1, e);
      assert ring[..k + 1] == [ring[0]] + ring[1..][..k];
    }
  }

  lemma {:induction false} MinusAt(ring: seq<int>, k: int)
    requires Distinct(ring) && 0 <= k < |ring|
    ensures Minus(ring, ring[k]) == ring[..k] + ring[k + 1..]
  {
    if k > 0 {
      assert ring[0] != ring[k];
      MinusAt(ring[1..], k - 1);
      assert ring[..k] == [ring[0]] + ring[1..][..k - 1];
    }
  }

  lemma AfterMembers(ring: seq<int>, k: int, e: int)
    requires Distinct(ring) && 0 <= k < |ring|
    ensures forall x: int :: x in After(ring, ring[k], e) <==> x in ring || x == e
  {
    AfterAt(ring, k, e);
    assert ring == ring[..k + 1] + ring[k + 1..];
  }

  lemma MinusMembers(ring: seq<int>, k: int)
    requires Distinct(ring) && 0 <= k < |ring|
    ensures forall x: int :: x in Minus(ring, ring[k]) <==> x in ring && x != ring[k]
  {
    MinusAt(ring, k);
    assert ring == ring[..k] + [ring[k]] + ring[k + 1..];
  }

  lemma DistinctAfter(ring: seq<int>, k: int, e: int)
    requires Distinct(ring) && 0 <= k < |ring| && e !in ring
    ensures Distinct(After(ring, ring[k], e))
  {
    AfterAt(ring, k, e);
    var r := After(ring, ring[k], e);
    assert |r| == |ring| + 1 && r[k + 1] == e;
    forall i | 0 <= i < |r| && i != k + 1 ensures r[i] == ring[if i <= k then i else i - 1] && r[i] in ring { }
  }

  lemma DistinctMinus(ring: seq<int>, k: int)
    requires Distinct(ring) && 0 <= k < |ring|
    ensures Distinct(Minus(ring, ring[k]))
  {
    MinusAt(ring, k);
    var r := Minus(ring, ring[k]);
    assert |r| == |ring| - 1;
    forall i | 0 <= i < |r| ensures r[i] == ring[if i < k then i else i + 1] { }
  }

  /** One store links e after the k-th node. */
  lemma CycleInsert(heap: map<int, Node>, ring: seq<int>, k: int, e: int, heap': map<int, Node>)
    requires Cycle(heap, ring) && 0 <= k < |ring| && e !in ring && e in heap && heap[e].next == NextIn(ring, k)
    requires ring[k] in heap && heap' == heap[ring[k] := heap[ring[k]].(next := e)]
    ensures Cycle(heap', After(ring, ring[k], e))
  {
    AfterAt(ring, k, e);
    DistinctAfter(ring, k, e);
    var r := After(ring, ring[k], e);
    forall i: int | 0 <= i < |r| ensures Follows(heap', r, i) {
      InsertFollows(heap, ring, k, e, heap', i);
    }
  }

  lemma InsertFollows(heap: map<int, Node>, ring: seq<int>, k: int, e: int, heap': map<int, Node>, i: int)
    requires Cycle(heap, ring) && 0 <= k < |ring| && e !in ring && e in heap && heap[e].next == NextIn(ring, k)
    requires ring[k] in heap && heap' == heap[ring[k] := heap[ring[k]].(next := e)] && 0 <= i <= |ring|
    ensures |After(ring, ring[k], e)| == |ring| + 1 && Follows(heap', After(ring, ring[k], e), i)
  {
    AfterAt(ring, k, e);
    var r := After(ring, ring[k], e);
    if i == k + 1 {
      assert r[i] == e && NextIn(r, i) == NextIn(ring, k) && ring[k] in ring;
    } else {
      var j := if i <= k then i else i - 1;
      assert r[i] == ring[j] && Follows(heap, ring, j);
      assert NextIn(r, i) == if i == k then e else NextIn(ring, j);
    }
  }

  /** One store unlinks the node after the k-th, which is not the head. */
  lemma CycleRemove(heap: map<int, Node>, ring: seq<int>, k: int, heap': map<int, Node>)
    requires Cycle(heap, ring) && 0 <= k && k + 1 < |ring|
    requires ring[k] in heap && heap' == heap[ring[k] := heap[ring[k]].(next := NextIn(ring, k + 1))]
    ensures Cycle(heap', Minus(ring, ring[k + 1]))
  {
    MinusAt(ring, k + 1);
    DistinctMinus(ring, k + 1);
    var r := Minus(ring, ring[k + 1]);
    forall i: int | 0 <= i < |r| ensures Follows(heap', r, i) {
      var j := if i <= k then i else i + 1;
      assert r[i] == ring[j] && Follows(heap, ring, j);
      assert NextIn(r, i) == if i == k then NextIn(ring, k + 1) else NextIn(ring, j);
    }
  }

  /** Other fields may change freely. */
  lemma CycleFrame(heap: map<int, Node>, ring: seq<int>, heap': map<int, Node>)
    requires Cycle(heap, ring) && forall x: int :: x in ring && x in heap ==> x in heap' && heap'[x].next == heap[x].next
    ensures Cycle(heap', ring)
  {
    forall i: int | 0 <= i < |ring| ensures Follows(heap', ring, i) {
      assert Follows(heap, ring, i);
    }
  }
}
