/**
 Sorted singly linked bucket chains between a LONG_MIN and a LONG_MAX sentinel, and
 what a lock-free walker of one can rely on while the chain changes under it.

 `home` maps every linked node to its bucket.  A node that is not in `home` is
 private, or was unlinked and waits for its grace period.
 */
module SortedChain {
  const MIN: int := -0x8000_0000_0000_0000
  const MAX: int := 0x7fff_ffff_ffff_ffff

  datatype Cell = Cell(key: int, next: int)

  function Head(b: int): int { 2 * b }
  function Tail(b: int): int { 2 * b + 1 }

  predicate In(home: map<int, int>, b: int, x: int) {
    x in home && home[x] == b
  }

  /** x's next is its successor in key order among the linked nodes of b. */
  ghost predicate Ordered(heap: map<int, Cell>, home: map<int, int>, b: int, x: int)
    requires forall y: int :: In(home, b, y) ==> y in heap
    requires x in heap
  {
    var n := heap[x].next;
    && In(home, b, n) && heap[x].key < heap[n].key
    && (forall y: int :: In(home, b, y) ==> heap[y].key <= heap[x].key || heap[n].key <= heap[y].key)
  }

  /** A sorted chain from head to tail; keys are unique. */
  ghost predicate Chain(heap: map<int, Cell>, home: map<int, int>, b: int) {
    && In(home, b, Head(b)) && In(home, b, Tail(b))
    && (forall x: int :: In(home, b, x) ==> x in heap && MIN <= heap[x].key <= MAX)
    && heap[Head(b)].key == MIN && heap[Tail(b)].key == MAX && heap[Tail(b)].next == Tail(b)
    && (forall x: int {:trigger Ordered(heap, home, b, x)} :: In(home, b, x) && x != Tail(b) ==> Ordered(heap, home, b, x))
    && Unique(heap, home, b)
  }

  ghost predicate Unique(heap: map<int, Cell>, home: map<int, int>, b: int)
    requires forall y: int :: In(home, b, y) ==> y in heap
  {
    forall x: int, y: int :: In(home, b, x) && In(home, b, y) && heap[x].key == heap[y].key ==> x == y
  }

  /** Key k is in bucket b. */
  ghost predicate Member(heap: map<int, Cell>, home: map<int, int>, b: int, k: int) {
    exists x: int :: In(home, b, x) && x in heap && heap[x].key == k
  }

  /** What an uninterrupted lookup that stands at x returns, by memory alone. */
  function LookupFrom(heap: map<int, Cell>, x: int, k: int): bool
    decreases if x in heap && heap[x].key < k then k - heap[x].key else 0
  {
    if x !in heap then false
    else if heap[x].key >= k then heap[x].key == k
    else if heap[x].next in heap && heap[x].key < heap[heap[x].next].key then LookupFrom(heap, heap[x].next, k)
    else false
  }

  /** On a chain that is membership. */
  lemma {:induction false} LookupIsMember(heap: map<int, Cell>, home: map<int, int>, b: int, x: int, k: int)
    requires Chain(heap, home, b) && In(home, b, x) && k < MAX
    requires heap[x].key < k || forall y: int :: In(home, b, y) && heap[y].key < heap[x].key ==> heap[y].key < k
    ensures LookupFrom(heap, x, k) <==> Member(heap, home, b, k)
    decreases if heap[x].key < k then k - heap[x].key else 0
  {
    if heap[x].key < k {
      assert Ordered(heap, home, b, x);
      LookupIsMember(heap, home, b, heap[x].next, k);
    }
  }

  /** The nodes met by following next from x for as long as keys grow, by memory alone. */
  function Spine(heap: map<int, Cell>, x: int): (r: seq<int>)
    ensures r != []
    decreases if x in heap && heap[x].key < MAX then MAX - heap[x].key else 0
  {
    if x in heap && heap[x].key < MAX && heap[x].next in heap && heap[x].key < heap[heap[x].next].key then
      [x] + Spine(heap, heap[x].next)
    else [x]
  }

  /** On a chain they are the linked nodes, in key order, up to the tail. */
  lemma {:induction false} SpineReachesTail(heap: map<int, Cell>, home: map<int, int>, b: int, x: int)
    requires Chain(heap, home, b) && In(home, b, x)
    ensures var r := Spine(heap, x); r[|r| - 1] == Tail(b)
    decreases MAX - heap[x].key
  {
    if x != Tail(b) {
      assert Ordered(heap, home, b, x);
      SpineReachesTail(heap, home, b, heap[x].next);
    }
  }

  /** And all of them from x on. */
  lemma {:induction false} SpineHasAll(heap: map<int, Cell>, home: map<int, int>, b: int, x: int, y: int)
    requires Chain(heap, home, b) && In(home, b, x) && In(home, b, y) && heap[x].key <= heap[y].key
    ensures y in Spine(heap, x)
    decreases MAX - heap[x].key
  {
    if x != y {
      assert Ordered(heap, home, b, x);
      SpineHasAll(heap, home, b, heap[x].next, y);
    }
  }

  /** Between a linked node below k and its successor above k there is no k. */
  lemma Window(heap: map<int, Cell>, home: map<int, int>, b: int, x: int, k: int)
    requires Chain(heap, home, b) && In(home, b, x) && x != Tail(b) && heap[x].key < k
    ensures In(home, b, heap[x].next) && heap[x].key < heap[heap[x].next].key
    ensures heap[heap[x].next].key == k ==> Member(heap, home, b, k)
    ensures heap[heap[x].next].key > k ==> !Member(heap, home, b, k)
  {
    assert Ordered(heap, home, b, x);
  }

  /** n goes between pred and its successor: order around a linked x. */
  lemma LinkOrdered(heap: map<int, Cell>, home: map<int, int>, b: int, pred: int, n: int,
                    heap': map<int, Cell>, home': map<int, int>, x: int)
    requires (forall y: int :: In(home, b, y) ==> y in heap) && In(home, b, pred) && n in heap && n !in home
    requires heap' == heap[pred := heap[pred].(next := n)] && home' == home[n := b]
    requires Ordered(heap, home, b, pred) && heap[n].next == heap[pred].next
    requires heap[pred].key < heap[n].key < heap[heap[pred].next].key
    requires In(home, b, x) && Ordered(heap, home, b, x) && (heap[x].key == heap[pred].key ==> x == pred)
    ensures (forall y: int :: In(home', b, y) ==> y in heap') && Ordered(heap', home', b, x)
  {
    assert forall y: int :: In(home', b, y) <==> In(home, b, y) || y == n;
  }

  lemma LinkOrderedNew(heap: map<int, Cell>, home: map<int, int>, b: int, pred: int, n: int,
                       heap': map<int, Cell>, home': map<int, int>)
    requires (forall y: int :: In(home, b, y) ==> y in heap) && In(home, b, pred) && n in heap && n !in home
    requires heap' == heap[pred := heap[pred].(next := n)] && home' == home[n := b]
    requires Ordered(heap, home, b, pred) && heap[n].next == heap[pred].next
    requires heap[pred].key < heap[n].key < heap[heap[pred].next].key
    ensures (forall y: int :: In(home', b, y) ==> y in heap') && Ordered(heap', home', b, n)
  {
    assert forall y: int :: In(home', b, y) <==> In(home, b, y) || y == n;
  }

  lemma LinkUnique(heap: map<int, Cell>, home: map<int, int>, b: int, n: int, heap': map<int, Cell>, home': map<int, int>)
    requires (forall y: int :: In(home, b, y) ==> y in heap) && Unique(heap, home, b) && n in heap
    requires forall x: int :: In(home', b, x) <==> In(home, b, x) || x == n
    requires forall x: int :: x in heap ==> x in heap' && heap'[x].key == heap[x].key
    requires forall x: int :: In(home, b, x) ==> heap[x].key != heap[n].key
    ensures (forall y: int :: In(home', b, y) ==> y in heap') && Unique(heap', home', b)
  {
  }

  /** One store links n between pred and its successor. */
  lemma Link(heap: map<int, Cell>, home: map<int, int>, b: int, pred: int, n: int)
    requires Chain(heap, home, b) && In(home, b, pred) && pred != Tail(b)
    requires n in heap && n !in home && heap[n].next == heap[pred].next && In(home, b, heap[pred].next)
    requires heap[pred].key < heap[n].key < heap[heap[pred].next].key
    ensures Chain(heap[pred := heap[pred].(next := n)], home[n := b], b)
  {
    var heap', home' := heap[pred := heap[pred].(next := n)], home[n := b];
    assert Ordered(heap, home, b, pred);
    assert forall x: int :: In(home', b, x) <==> In(home, b, x) || x == n;
    LinkUnique(heap, home, b, n, heap', home');
    forall x: int | In(home', b, x) && x != Tail(b) ensures Ordered(heap', home', b, x) {
      if x == n {
        LinkOrderedNew(heap, home, b, pred, n, heap', home');
      } else {
        assert Ordered(heap, home, b, x);
        LinkOrdered(heap, home, b, pred, n, heap', home', x);
      }
    }
  }

  lemma LinkMember(heap: map<int, Cell>, home: map<int, int>, b: int, pred: int, n: int, k: int)
    requires pred in heap && n in heap && n !in home && pred in home
    ensures Member(heap[pred := heap[pred].(next := n)], home[n := b], b, k) <==>
              Member(heap, home, b, k) || k == heap[n].key
  {
    var heap', home' := heap[pred := heap[pred].(next := n)], home[n := b];
    if Member(heap, home, b, k) {
      var x: int :| In(home, b, x) && x in heap && heap[x].key == k;
      assert In(home', b, x) && x in heap' && heap'[x].key == k;
    } else if k == heap[n].key {
      assert In(home', b, n) && heap'[n].key == k;
    }
  }

  lemma UnlinkOrdered(heap: map<int, Cell>, home: map<int, int>, b: int, pred: int, x: int,
                      heap': map<int, Cell>, home': map<int, int>, y: int)
    requires (forall z: int :: In(home, b, z) ==> z in heap) && In(home, b, pred) && In(home, b, x) && heap[pred].next == x
    requires heap' == heap[pred := heap[pred].(next := heap[x].next)] && home' == home - {x}
    requires Ordered(heap, home, b, pred) && Ordered(heap, home, b, x)
    requires In(home', b, y) && Ordered(heap, home, b, y)
    requires Unique(heap, home, b)
    ensures (forall z: int :: In(home', b, z) ==> z in heap') && Ordered(heap', home', b, y)
  {
    assert forall z: int :: In(home', b, z) <==> In(home, b, z) && z != x;
  }

  lemma UnlinkUnique(heap: map<int, Cell>, home: map<int, int>, b: int, heap': map<int, Cell>, home': map<int, int>)
    requires (forall y: int :: In(home, b, y) ==> y in heap) && Unique(heap, home, b)
    requires forall x: int :: In(home', b, x) ==> In(home, b, x)
    requires forall x: int :: x in heap ==> x in heap' && heap'[x].key == heap[x].key
    ensures (forall y: int :: In(home', b, y) ==> y in heap') && Unique(heap', home', b)
  {
  }

  /** One store unlinks the successor x of pred. */
  lemma Unlink(heap: map<int, Cell>, home: map<int, int>, b: int, pred: int, x: int)
    requires Chain(heap, home, b) && In(home, b, pred) && pred != Tail(b) && heap[pred].next == x && x != Tail(b) && In(home, b, x)
    ensures Chain(heap[pred := heap[pred].(next := heap[x].next)], home - {x}, b)
  {
    var heap', home' := heap[pred := heap[pred].(next := heap[x].next)], home - {x};
    assert Ordered(heap, home, b, pred) && Ordered(heap, home, b, x);
    assert forall y: int :: In(home', b, y) <==> In(home, b, y) && y != x;
    UnlinkUnique(heap, home, b, heap', home');
    forall y: int | In(home', b, y) && y != Tail(b) ensures Ordered(heap', home', b, y) {
      assert Ordered(heap, home, b, y);
      UnlinkOrdered(heap, home, b, pred, x, heap', home', y);
    }
  }

  lemma UnlinkMember(heap: map<int, Cell>, home: map<int, int>, b: int, pred: int, x: int, k: int)
    requires Chain(heap, home, b) && In(home, b, pred) && In(home, b, x)
    ensures Member(heap[pred := heap[pred].(next := heap[x].next)], home - {x}, b, k) <==>
              Member(heap, home, b, k) && k != heap[x].key
  {
    var heap', home' := heap[pred := heap[pred].(next := heap[x].next)], home - {x};
    if Member(heap, home, b, k) && k != heap[x].key {
      var y: int :| In(home, b, y) && y in heap && heap[y].key == k;
      assert In(home', b, y) && y in heap' && heap'[y].key == k;
    }
  }

  /** A change outside the bucket's nodes does not touch its chain. */
  lemma ChainFrame(heap: map<int, Cell>, home: map<int, int>, heap': map<int, Cell>, home': map<int, int>, b: int)
    requires Chain(heap, home, b)
    requires forall x: int :: In(home, b, x) <==> In(home', b, x)
    requires forall x: int :: In(home, b, x) ==> x in heap' && heap'[x] == heap[x]
    ensures Chain(heap', home', b)
  {
    forall x: int | In(home', b, x) && x != Tail(b) ensures Ordered(heap', home', b, x) {
      assert Ordered(heap, home, b, x);
    }
  }

  lemma MemberFrame(heap: map<int, Cell>, home: map<int, int>, heap': map<int, Cell>, home': map<int, int>, b: int, k: int)
    requires forall x: int :: In(home, b, x) <==> In(home', b, x)
    requires forall x: int :: In(home, b, x) ==> x in heap && x in heap' && heap'[x] == heap[x]
    ensures Member(heap', home', b, k) <==> Member(heap, home, b, k)
  {
    if Member(heap, home, b, k) {
      var x: int :| In(home, b, x) && x in heap && heap[x].key == k;
      assert In(home', b, x) && x in heap' && heap'[x].key == k;
    }
  }

  // ---- a walker -----------------------------------------------------------

  /**
   What has happened since a walker started: the nodes unlinked from its bucket, and
   the answers that were right at some instant.
   */
  datatype Trace = Trace(gone: set<int>, seen: set<bool>)

  ghost predicate Reachable(home: map<int, int>, b: int, o: Trace, x: int) {
    In(home, b, x) || x in o.gone
  }

  ghost predicate TraceInv(heap: map<int, Cell>, home: map<int, int>, b: int, k: int, o: Trace) {
    && (Member(heap, home, b, k) in o.seen)
    && (forall x: int :: x in o.gone ==> x in heap && x !in home)
    && (forall x: int {:trigger Departed(heap, home, b, k, o, x)} :: x in o.gone ==> Departed(heap, home, b, k, o, x))
  }

  /** A node that left during the walk still leads back, past a window that was real. */
  ghost predicate Departed(heap: map<int, Cell>, home: map<int, int>, b: int, k: int, o: Trace, x: int)
    requires x in heap
  {
    var n := heap[x].next;
    && n in heap && Reachable(home, b, o, n) && heap[x].key < heap[n].key
    && (heap[x].key <= k < heap[n].key ==> false in o.seen)
    && (heap[n].key == k ==> true in o.seen)
  }

  /** One hop: the walker stands on a node it may stand on, and the window it crossed was real. */
  lemma Hop(heap: map<int, Cell>, home: map<int, int>, b: int, k: int, o: Trace, x: int)
    requires Chain(heap, home, b) && TraceInv(heap, home, b, k, o) && Reachable(home, b, o, x) && heap[x].key < k <= MAX
    ensures heap[x].next in heap && Reachable(home, b, o, heap[x].next) && heap[x].key < heap[heap[x].next].key
    ensures heap[heap[x].next].key == k ==> true in o.seen
    ensures heap[heap[x].next].key > k ==> false in o.seen
  {
    if In(home, b, x) {
      Window(heap, home, b, x, k);
    } else {
      assert Departed(heap, home, b, k, o, x);
    }
  }

  /** The trace after a step that ends in (heap', home'); `left` are the nodes it unlinked. */
  ghost function Observe(heap': map<int, Cell>, home': map<int, int>, b: int, k: int, o: Trace, left: set<int>): Trace {
    Trace(o.gone + left, o.seen + {Member(heap', home', b, k)})
  }

  lemma TraceLink(heap: map<int, Cell>, home: map<int, int>, b: int, pred: int, n: int, k: int, o: Trace)
    requires Chain(heap, home, b) && In(home, b, pred) && n in heap && n !in home && n !in o.gone
    requires TraceInv(heap, home, b, k, o)
    ensures var heap', home' := heap[pred := heap[pred].(next := n)], home[n := b];
            TraceInv(heap', home', b, k, Observe(heap', home', b, k, o, {}))
  {
    var heap', home' := heap[pred := heap[pred].(next := n)], home[n := b];
    var o' := Observe(heap', home', b, k, o, {});
    forall x: int | x in o'.gone ensures Departed(heap', home', b, k, o', x) {
      assert Departed(heap, home, b, k, o, x);
    }
  }

  lemma TraceUnlink(heap: map<int, Cell>, home: map<int, int>, b: int, pred: int, x: int, k: int, o: Trace)
    requires Chain(heap, home, b) && In(home, b, pred) && pred != Tail(b) && heap[pred].next == x && x != Tail(b) && In(home, b, x)
    requires TraceInv(heap, home, b, k, o)
    ensures var heap', home' := heap[pred := heap[pred].(next := heap[x].next)], home - {x};
            TraceInv(heap', home', b, k, Observe(heap', home', b, k, o, {x}))
  {
    var heap', home' := heap[pred := heap[pred].(next := heap[x].next)], home - {x};
    var o' := Observe(heap', home', b, k, o, {x});
    assert Ordered(heap, home, b, pred) && Ordered(heap, home, b, x);
    if heap[x].key < k { Window(heap, home, b, x, k); }
    if heap[heap[x].next].key == k { assert Member(heap, home, b, k); }
    forall y: int | y in o'.gone ensures Departed(heap', home', b, k, o', y) {
      if y != x { assert Departed(heap, home, b, k, o, y); }
    }
  }

  /** Steps elsewhere: another bucket, a private node, a free of a node the walker cannot reach. */
  lemma TraceFrame(heap: map<int, Cell>, home: map<int, int>, heap': map<int, Cell>, home': map<int, int>, b: int, k: int, o: Trace)
    requires Chain(heap, home, b) && TraceInv(heap, home, b, k, o)
    requires forall x: int :: In(home, b, x) <==> In(home', b, x)
    requires forall x: int :: Reachable(home, b, o, x) ==> x in heap' && heap'[x] == heap[x]
    requires forall x: int :: x in o.gone ==> x !in home'
    ensures TraceInv(heap', home', b, k, o)
    ensures Observe(heap', home', b, k, o, {}) == o
  {
    MemberFrame(heap, home, heap', home', b, k);
    forall x: int | x in o.gone ensures Departed(heap', home', b, k, o, x) {
      assert Departed(heap, home, b, k, o, x);
    }
  }

  /** A walker that starts now. */
  lemma TraceStart(heap: map<int, Cell>, home: map<int, int>, b: int, k: int)
    ensures TraceInv(heap, home, b, k, Trace({}, {Member(heap, home, b, k)}))
  {
  }
}
