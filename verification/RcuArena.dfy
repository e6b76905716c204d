/**
 Memory shared by lock-free walkers and by writers of sorted chains: allocation,
 linking, unlinking, call_rcu and free, and what each of them leaves intact.

 call_rcu is modelled by its contract: a node is freed only once every thread that was
 inside a read-side section at the call has left it.  malloc may return any address
 that is not allocated, including one freed before.
 */
module RcuArena {
  import opened SortedChain

  datatype Space = Space(buckets: int, range: int)

  predicate ValidSpace(c: Space) {
    c.buckets >= 1 && 2 <= c.range <= MAX
  }

  function Bucket(c: Space, k: int): int
    requires ValidSpace(c)
  {
    k % c.buckets
  }

  predicate KeyOf(c: Space, key: int, b: int)
    requires ValidSpace(c)
  {
    0 <= key < c.range && Bucket(c, key) == b
  }

  /** Of two keys of one bucket, the larger has at least one smaller key more. */
  lemma Spaced(n: int, pk: int, key: int)
    requires n >= 1 && 0 <= pk < key && pk % n == key % n
    ensures 0 <= pk / n && pk / n + 1 <= key / n
  {
    var i, j := key / n, pk / n;
    assert key == n * i + key % n && pk == n * j + pk % n;
    assert i <= j ==> n * i <= n * j;
  }

  /** `limbo` maps a node handed to call_rcu to the sections it still waits for. */
  datatype Mem = Mem(heap: map<int, Cell>, limbo: map<int, set<int>>, sections: set<int>)

  /** A thread that walks the bucket of key k. */
  datatype Walk = Walk(k: int, o: Trace)

  /**
   History: the bucket of every linked node, the owner of every allocated node that is
   not linked yet (`mine`) and of every unlinked one that is not retired yet (`out`),
   and the walks under way.
   */
  datatype Ghost = Ghost(home: map<int, int>, mine: map<int, int>, out: map<int, int>, walks: map<int, Walk>)

  /** rcu_read_unlock: grace periods no longer wait for thread t. */
  function Unlock(a: Mem, t: int): Mem {
    a.(sections := a.sections - {t}, limbo := map x | x in a.limbo :: a.limbo[x] - {t})
  }

  function InitMem(c: Space): Mem {
    Mem(map x: int | 0 <= x < 2 * c.buckets :: if x % 2 == 0 then Cell(MIN, x + 1) else Cell(MAX, x), map[], {})
  }

  function InitGhost(c: Space): Ghost {
    Ghost(map x: int | 0 <= x < 2 * c.buckets :: x / 2, map[], map[], map[])
  }

  // ---- invariant ----------------------------------------------------------

  /** Linked nodes are sentinels or hash to their bucket. */
  ghost predicate Placed(c: Space, heap: map<int, Cell>, home: map<int, int>)
    requires ValidSpace(c)
  {
    && (forall x: int :: x in home ==> x in heap && 0 <= home[x] < c.buckets)
    && (forall x: int :: x in home ==> x == Head(home[x]) || x == Tail(home[x]) || KeyOf(c, heap[x].key, home[x]))
  }

  ghost predicate Chains(c: Space, heap: map<int, Cell>, home: map<int, int>) {
    forall b: int {:trigger Chain(heap, home, b)} :: 0 <= b < c.buckets ==> Chain(heap, home, b)
  }

  /** Linked, private, unlinked and retired nodes are different nodes, and all allocated. */
  ghost predicate Apart(a: Mem, g: Ghost) {
    && (forall x: int :: x in g.mine ==> x in a.heap && x !in g.home && x !in g.out && x !in a.limbo)
    && (forall x: int :: x in g.out ==> x in a.heap && x !in g.home && x !in a.limbo)
    && (forall x: int :: x in a.limbo ==> x in a.heap && x !in g.home)
  }

  /** What walker t may still reach is allocated, waits for its section, and is nobody's new node. */
  ghost predicate WalkInv(c: Space, a: Mem, g: Ghost, t: int)
    requires ValidSpace(c) && t in g.walks
  {
    var k, o := g.walks[t].k, g.walks[t].o;
    && t in a.sections && 0 <= k < c.range
    && TraceInv(a.heap, g.home, Bucket(c, k), k, o)
    && (forall x: int :: x in o.gone ==> KeyOf(c, a.heap[x].key, Bucket(c, k)) && x !in g.mine)
    && (forall x: int :: x in o.gone && x in a.limbo ==> t in a.limbo[x])
  }

  ghost predicate ArenaInv(c: Space, a: Mem, g: Ghost)
    requires ValidSpace(c)
  {
    && Placed(c, a.heap, g.home) && Chains(c, a.heap, g.home) && Apart(a, g)
    && (forall t: int {:trigger WalkInv(c, a, g, t)} :: t in g.walks ==> WalkInv(c, a, g, t))
  }

  lemma InitArena(c: Space)
    requires ValidSpace(c)
    ensures ArenaInv(c, InitMem(c), InitGhost(c))
  {
    forall b: int | 0 <= b < c.buckets ensures Chain(InitMem(c).heap, InitGhost(c).home, b) {
      InitChain(c, b);
    }
  }

  lemma InitChain(c: Space, b: int)
    requires ValidSpace(c) && 0 <= b < c.buckets
    ensures Chain(InitMem(c).heap, InitGhost(c).home, b)
  {
    var heap, home := InitMem(c).heap, InitGhost(c).home;
    assert forall x: int :: In(home, b, x) <==> x == Head(b) || x == Tail(b);
    assert Ordered(heap, home, b, Head(b));
  }

  // ---- what a step of thread t on bucket b leaves intact ------------------

  /** Walker u keeps every node it can stand on, with its key, and every answer it has seen. */
  ghost predicate WalkKept(c: Space, a: Mem, g: Ghost, a': Mem, g': Ghost, u: int)
    requires ValidSpace(c) && u in g.walks
  {
    && u in g'.walks && g'.walks[u].k == g.walks[u].k && g.walks[u].o.seen <= g'.walks[u].o.seen
    && (forall x: int :: Reachable(g.home, Bucket(c, g.walks[u].k), g.walks[u].o, x) && x in a.heap ==>
          Reachable(g'.home, Bucket(c, g.walks[u].k), g'.walks[u].o, x) && x in a'.heap && a'.heap[x].key == a.heap[x].key)
  }

  /** Thread t worked on bucket b, on nodes of its own, and on its own walk. */
  ghost predicate Evolves(c: Space, a: Mem, g: Ghost, a': Mem, g': Ghost, t: int, b: int)
    requires ValidSpace(c)
  {
    && (forall u: int {:trigger WalkKept(c, a, g, a', g', u)} :: u in g.walks && u != t ==> WalkKept(c, a, g, a', g', u))
    && (forall x: int, d: int :: d != b && In(g.home, d, x) && x in a.heap ==> In(g'.home, d, x) && x in a'.heap && a'.heap[x] == a.heap[x])
    && (forall x: int :: x in g.mine && g.mine[x] != t && x in a.heap ==> x in g'.mine && g'.mine[x] == g.mine[x] && x in a'.heap && a'.heap[x] == a.heap[x])
    && (forall x: int :: x in g.out && g.out[x] != t ==> x in g'.out && g'.out[x] == g.out[x])
  }

  // ---- steps on nodes outside every chain ---------------------------------

  /** The heaps agree on every address but n. */
  ghost predicate SameBut(heap: map<int, Cell>, heap': map<int, Cell>, n: int) {
    && (forall y: int :: y != n ==> (y in heap <==> y in heap'))
    && (forall y: int :: y != n && y in heap ==> heap'[y] == heap[y])
  }

  ghost predicate Unreached(g: Ghost, n: int) {
    n !in g.home && forall u: int :: u in g.walks ==> n !in g.walks[u].o.gone
  }

  lemma AsideChains(c: Space, heap: map<int, Cell>, heap': map<int, Cell>, home: map<int, int>, n: int)
    requires ValidSpace(c) && Placed(c, heap, home) && Chains(c, heap, home) && SameBut(heap, heap', n) && n !in home
    ensures Placed(c, heap', home) && Chains(c, heap', home)
  {
    forall b: int | 0 <= b < c.buckets ensures Chain(heap', home, b) {
      assert Chain(heap, home, b);
      ChainFrame(heap, home, heap', home, b);
    }
  }

  lemma AsideWalk(c: Space, a: Mem, g: Ghost, a': Mem, g': Ghost, n: int, u: int)
    requires ValidSpace(c) && ArenaInv(c, a, g) && u in g.walks
    requires SameBut(a.heap, a'.heap, n) && Unreached(g, n) && g'.home == g.home && g'.walks == g.walks
    requires a'.sections == a.sections && (forall x: int :: x in a'.limbo && x != n ==> x in a.limbo && a'.limbo[x] == a.limbo[x])
    requires forall x: int :: x in g'.mine && x != n ==> x in g.mine
    ensures WalkInv(c, a', g', u) && WalkKept(c, a, g, a', g', u)
  {
    var k, o := g.walks[u].k, g.walks[u].o;
    assert WalkInv(c, a, g, u) && Chain(a.heap, g.home, Bucket(c, k));
    TraceFrame(a.heap, g.home, a'.heap, g'.home, Bucket(c, k), k, o);
  }

  /** Allocation, initialisation or free of a node nobody else can reach. */
  lemma Aside(c: Space, a: Mem, g: Ghost, a': Mem, g': Ghost, n: int, t: int)
    requires ValidSpace(c) && ArenaInv(c, a, g)
    requires SameBut(a.heap, a'.heap, n) && Unreached(g, n) && g'.home == g.home && g'.walks == g.walks && g'.out == g.out && n !in g.out
    requires a'.sections == a.sections && a'.limbo == a.limbo - {n}
    requires g'.mine == (if n in a'.heap then g.mine[n := t] else g.mine - {n})
    requires n in g.mine ==> g.mine[n] == t
    ensures ArenaInv(c, a', g') && forall b: int :: Evolves(c, a, g, a', g', t, b)
  {
    AsideChains(c, a.heap, a'.heap, g.home, n);
    forall u: int | u in g.walks ensures WalkInv(c, a', g', u) && WalkKept(c, a, g, a', g', u) {
      AsideWalk(c, a, g, a', g', n, u);
    }
  }

  /** A node that is not allocated, or is its owner's alone, or has sat out its grace period. */
  lemma FreeIsUnreached(c: Space, a: Mem, g: Ghost, n: int)
    requires ValidSpace(c) && ArenaInv(c, a, g)
    requires n !in a.heap || n in g.mine || (n in a.limbo && a.limbo[n] == {})
    ensures Unreached(g, n)
  {
    forall u: int | u in g.walks ensures n !in g.walks[u].o.gone {
      assert WalkInv(c, a, g, u);
    }
  }

  lemma AllocStep(c: Space, a: Mem, g: Ghost, n: int, cell: Cell, t: int)
    requires ValidSpace(c) && ArenaInv(c, a, g) && n !in a.heap
    ensures var a', g' := a.(heap := a.heap[n := cell]), g.(mine := g.mine[n := t]);
            ArenaInv(c, a', g') && forall b: int :: Evolves(c, a, g, a', g', t, b)
  {
    FreeIsUnreached(c, a, g, n);
    Aside(c, a, g, a.(heap := a.heap[n := cell]), g.(mine := g.mine[n := t]), n, t);
  }

  lemma WriteStep(c: Space, a: Mem, g: Ghost, n: int, cell: Cell, t: int)
    requires ValidSpace(c) && ArenaInv(c, a, g) && n in g.mine && g.mine[n] == t
    ensures var a' := a.(heap := a.heap[n := cell]);
            ArenaInv(c, a', g) && forall b: int :: Evolves(c, a, g, a', g, t, b)
  {
    FreeIsUnreached(c, a, g, n);
    assert g.mine[n := t] == g.mine;
    Aside(c, a, g, a.(heap := a.heap[n := cell]), g, n, t);
  }

  /** free() of a node that was never linked. */
  lemma DropStep(c: Space, a: Mem, g: Ghost, n: int, t: int)
    requires ValidSpace(c) && ArenaInv(c, a, g) && n in g.mine && g.mine[n] == t
    ensures var a', g' := a.(heap := a.heap - {n}), g.(mine := g.mine - {n});
            ArenaInv(c, a', g') && forall b: int :: Evolves(c, a, g, a', g', t, b)
  {
    FreeIsUnreached(c, a, g, n);
    Aside(c, a, g, a.(heap := a.heap - {n}), g.(mine := g.mine - {n}), n, t);
  }

  /** The reclaimer frees a node whose grace period is over. */
  lemma FreeStep(c: Space, a: Mem, g: Ghost, n: int)
    requires ValidSpace(c) && ArenaInv(c, a, g) && n in a.limbo && a.limbo[n] == {}
    ensures var a' := a.(heap := a.heap - {n}, limbo := a.limbo - {n});
            ArenaInv(c, a', g) && forall t: int, b: int :: Evolves(c, a, g, a', g, t, b)
  {
    var a' := a.(heap := a.heap - {n}, limbo := a.limbo - {n});
    FreeIsUnreached(c, a, g, n);
    assert g.mine - {n} == g.mine;
    Aside(c, a, g, a', g, n, 0);
    forall t: int, b: int ensures Evolves(c, a, g, a', g, t, b) {
      Aside(c, a, g, a', g, n, t);
    }
  }

  // ---- sections and walks -------------------------------------------------

  lemma EnterStep(c: Space, a: Mem, g: Ghost, t: int)
    requires ValidSpace(c) && ArenaInv(c, a, g)
    ensures var a' := a.(sections := a.sections + {t});
            ArenaInv(c, a', g) && forall b: int :: Evolves(c, a, g, a', g, t, b)
  {
    var a' := a.(sections := a.sections + {t});
    forall u: int | u in g.walks ensures WalkInv(c, a', g, u) && WalkKept(c, a, g, a', g, u) {
      assert WalkInv(c, a, g, u);
    }
  }

  lemma LeaveStep(c: Space, a: Mem, g: Ghost, t: int)
    requires ValidSpace(c) && ArenaInv(c, a, g) && t !in g.walks
    ensures var a' := Unlock(a, t);
            ArenaInv(c, a', g) && forall b: int :: Evolves(c, a, g, a', g, t, b)
  {
    var a' := Unlock(a, t);
    forall u: int | u in g.walks ensures WalkInv(c, a', g, u) && WalkKept(c, a, g, a', g, u) {
      assert WalkInv(c, a, g, u);
    }
  }

  ghost function StartWalk(c: Space, a: Mem, g: Ghost, k: int): Walk
    requires ValidSpace(c)
  {
    Walk(k, Trace({}, {Member(a.heap, g.home, Bucket(c, k), k)}))
  }

  lemma BeginStep(c: Space, a: Mem, g: Ghost, t: int, k: int)
    requires ValidSpace(c) && ArenaInv(c, a, g) && t in a.sections && 0 <= k < c.range
    ensures var g' := g.(walks := g.walks[t := StartWalk(c, a, g, k)]);
            ArenaInv(c, a, g') && forall b: int :: Evolves(c, a, g, a, g', t, b)
  {
    var g' := g.(walks := g.walks[t := StartWalk(c, a, g, k)]);
    TraceStart(a.heap, g.home, Bucket(c, k), k);
    forall u: int | u in g'.walks ensures WalkInv(c, a, g', u) && (u != t ==> WalkKept(c, a, g, a, g', u)) {
      assert u != t ==> WalkInv(c, a, g, u);
    }
  }

  lemma EndStep(c: Space, a: Mem, g: Ghost, t: int)
    requires ValidSpace(c) && ArenaInv(c, a, g)
    ensures var g' := g.(walks := g.walks - {t});
            ArenaInv(c, a, g') && forall b: int :: Evolves(c, a, g, a, g', t, b)
  {
    var g' := g.(walks := g.walks - {t});
    forall u: int | u in g'.walks ensures WalkInv(c, a, g', u) && WalkKept(c, a, g, a, g', u) {
      assert WalkInv(c, a, g, u);
    }
  }

  /** A walk ends, and the section is open again or still. */
  lemma ReenterStep(c: Space, a: Mem, g: Ghost, t: int)
    requires ValidSpace(c) && ArenaInv(c, a, g)
    ensures var a', g' := a.(sections := a.sections + {t}), g.(walks := g.walks - {t});
            ArenaInv(c, a', g') && forall b: int :: Evolves(c, a, g, a', g', t, b)
  {
    var a', g' := a.(sections := a.sections + {t}), g.(walks := g.walks - {t});
    forall u: int | u in g'.walks ensures WalkInv(c, a', g', u) && WalkKept(c, a, g, a', g', u) {
      assert WalkInv(c, a, g, u);
    }
  }

  /** Walk and section end together. */
  lemma ExitStep(c: Space, a: Mem, g: Ghost, t: int)
    requires ValidSpace(c) && ArenaInv(c, a, g)
    ensures var a' := Unlock(a, t);
            var g' := g.(walks := g.walks - {t});
            ArenaInv(c, a', g') && forall b: int :: Evolves(c, a, g, a', g', t, b)
  {
    var a' := Unlock(a, t);
    var g' := g.(walks := g.walks - {t});
    forall u: int | u in g'.walks ensures WalkInv(c, a', g', u) && WalkKept(c, a, g, a', g', u) {
      assert WalkInv(c, a, g, u);
    }
  }

  /** Nothing happened to the memory. */
  lemma SameStep(c: Space, a: Mem, g: Ghost, t: int)
    requires ValidSpace(c) && ArenaInv(c, a, g)
    ensures forall b: int :: Evolves(c, a, g, a, g, t, b)
  {
    forall u: int | u in g.walks ensures WalkKept(c, a, g, a, g, u) {
    }
  }

  /** call_rcu: the node waits for every section that is open now. */
  lemma RetireStep(c: Space, a: Mem, g: Ghost, x: int, t: int)
    requires ValidSpace(c) && ArenaInv(c, a, g) && x in g.out && g.out[x] == t
    ensures var a', g' := a.(limbo := a.limbo[x := a.sections]), g.(out := g.out - {x});
            ArenaInv(c, a', g') && forall b: int :: Evolves(c, a, g, a', g', t, b)
  {
    var a', g' := a.(limbo := a.limbo[x := a.sections]), g.(out := g.out - {x});
    forall u: int | u in g.walks ensures WalkInv(c, a', g', u) && WalkKept(c, a, g, a', g', u) {
      assert WalkInv(c, a, g, u);
    }
  }

  // ---- the two publishing stores ------------------------------------------

  /** Every walk after a store on bucket b that unlinked `left`. */
  ghost function Seen(c: Space, heap': map<int, Cell>, home': map<int, int>, walks: map<int, Walk>, b: int, left: set<int>): map<int, Walk>
    requires ValidSpace(c)
  {
    map u | u in walks ::
      Walk(walks[u].k, Observe(heap', home', Bucket(c, walks[u].k), walks[u].k, walks[u].o,
                               if Bucket(c, walks[u].k) == b then left else {}))
  }

  /** Buckets other than b keep their nodes and cells. */
  lemma FarChains(c: Space, heap: map<int, Cell>, home: map<int, int>, heap': map<int, Cell>, home': map<int, int>, b: int)
    requires ValidSpace(c) && Chains(c, heap, home) && Chain(heap', home', b)
    requires forall x: int, d: int :: d != b ==> (In(home, d, x) <==> In(home', d, x))
    requires forall x: int, d: int :: d != b && In(home, d, x) && x in heap ==> x in heap' && heap'[x] == heap[x]
    ensures Chains(c, heap', home')
  {
    forall d: int | 0 <= d < c.buckets ensures Chain(heap', home', d) {
      if d != b {
        assert Chain(heap, home, d);
        ChainFrame(heap, home, heap', home', d);
      }
    }
  }

  /** pred is a linked node of b below n; n becomes its successor. */
  ghost predicate CanLink(c: Space, a: Mem, g: Ghost, pred: int, n: int, b: int, t: int)
    requires ValidSpace(c)
  {
    && 0 <= b < c.buckets && In(g.home, b, pred) && pred in a.heap && pred != Tail(b)
    && n in g.mine && g.mine[n] == t && n in a.heap
    && a.heap[n].next == a.heap[pred].next && In(g.home, b, a.heap[pred].next) && a.heap[pred].next in a.heap
    && a.heap[pred].key < a.heap[n].key < a.heap[a.heap[pred].next].key && KeyOf(c, a.heap[n].key, b)
  }

  function LinkMem(a: Mem, pred: int, n: int): Mem
    requires pred in a.heap
  {
    a.(heap := a.heap[pred := a.heap[pred].(next := n)])
  }

  ghost function LinkGhost(c: Space, a': Mem, g: Ghost, n: int, b: int): Ghost
    requires ValidSpace(c)
  {
    var home' := g.home[n := b];
    g.(home := home', mine := g.mine - {n}, walks := Seen(c, a'.heap, home', g.walks, b, {}))
  }

  lemma LinkWalk(c: Space, a: Mem, g: Ghost, pred: int, n: int, b: int, t: int, u: int)
    requires ValidSpace(c) && ArenaInv(c, a, g) && CanLink(c, a, g, pred, n, b, t) && u in g.walks
    ensures var a' := LinkMem(a, pred, n);
            var g' := LinkGhost(c, a', g, n, b);
            WalkInv(c, a', g', u) && WalkKept(c, a, g, a', g', u)
  {
    var k, o, a' := g.walks[u].k, g.walks[u].o, LinkMem(a, pred, n);
    assert WalkInv(c, a, g, u) && Chain(a.heap, g.home, Bucket(c, k));
    if Bucket(c, k) == b {
      TraceLink(a.heap, g.home, b, pred, n, k, o);
    } else {
      TraceFrame(a.heap, g.home, a'.heap, g.home[n := b], Bucket(c, k), k, o);
    }
  }

  lemma LinkStep(c: Space, a: Mem, g: Ghost, pred: int, n: int, b: int, t: int)
    requires ValidSpace(c) && ArenaInv(c, a, g) && CanLink(c, a, g, pred, n, b, t)
    ensures var a' := LinkMem(a, pred, n);
            var g' := LinkGhost(c, a', g, n, b);
            ArenaInv(c, a', g') && Evolves(c, a, g, a', g', t, b)
  {
    var a' := LinkMem(a, pred, n);
    var g' := LinkGhost(c, a', g, n, b);
    assert Chain(a.heap, g.home, b);
    Link(a.heap, g.home, b, pred, n);
    FarChains(c, a.heap, g.home, a'.heap, g'.home, b);
    forall u: int | u in g.walks ensures WalkInv(c, a', g', u) && WalkKept(c, a, g, a', g', u) {
      LinkWalk(c, a, g, pred, n, b, t, u);
    }
  }

  /** x is the linked successor of pred in b, and no sentinel. */
  ghost predicate CanUnlink(c: Space, a: Mem, g: Ghost, pred: int, x: int, b: int)
    requires ValidSpace(c)
  {
    && 0 <= b < c.buckets && In(g.home, b, pred) && pred in a.heap && pred != Tail(b)
    && a.heap[pred].next == x && In(g.home, b, x) && x in a.heap && KeyOf(c, a.heap[x].key, b)
  }

  function UnlinkMem(a: Mem, pred: int, x: int): Mem
    requires pred in a.heap && x in a.heap
  {
    a.(heap := a.heap[pred := a.heap[pred].(next := a.heap[x].next)])
  }

  ghost function UnlinkGhost(c: Space, a': Mem, g: Ghost, x: int, b: int, t: int): Ghost
    requires ValidSpace(c)
  {
    var home' := g.home - {x};
    g.(home := home', out := g.out[x := t], walks := Seen(c, a'.heap, home', g.walks, b, {x}))
  }

  lemma UnlinkWalk(c: Space, a: Mem, g: Ghost, pred: int, x: int, b: int, t: int, u: int)
    requires ValidSpace(c) && ArenaInv(c, a, g) && CanUnlink(c, a, g, pred, x, b) && u in g.walks
    ensures var a' := UnlinkMem(a, pred, x);
            var g' := UnlinkGhost(c, a', g, x, b, t);
            WalkInv(c, a', g', u) && WalkKept(c, a, g, a', g', u)
  {
    var k, o, a' := g.walks[u].k, g.walks[u].o, UnlinkMem(a, pred, x);
    assert WalkInv(c, a, g, u) && Chain(a.heap, g.home, Bucket(c, k)) && Chain(a.heap, g.home, b);
    if Bucket(c, k) == b {
      TraceUnlink(a.heap, g.home, b, pred, x, k, o);
    } else {
      TraceFrame(a.heap, g.home, a'.heap, g.home - {x}, Bucket(c, k), k, o);
    }
  }

  lemma UnlinkStep(c: Space, a: Mem, g: Ghost, pred: int, x: int, b: int, t: int)
    requires ValidSpace(c) && ArenaInv(c, a, g) && CanUnlink(c, a, g, pred, x, b)
    ensures var a' := UnlinkMem(a, pred, x);
            var g' := UnlinkGhost(c, a', g, x, b, t);
            ArenaInv(c, a', g') && Evolves(c, a, g, a', g', t, b)
  {
    var a' := UnlinkMem(a, pred, x);
    var g' := UnlinkGhost(c, a', g, x, b, t);
    assert Chain(a.heap, g.home, b);
    Unlink(a.heap, g.home, b, pred, x);
    FarChains(c, a.heap, g.home, a'.heap, g'.home, b);
    forall u: int | u in g.walks ensures WalkInv(c, a', g', u) && WalkKept(c, a, g, a', g', u) {
      UnlinkWalk(c, a, g, pred, x, b, t, u);
    }
  }

  // ---- membership ---------------------------------------------------------

  /** Linking adds exactly the key of n. */
  lemma LinkKeys(c: Space, a: Mem, g: Ghost, pred: int, n: int, b: int, t: int, k: int)
    requires ValidSpace(c) && ArenaInv(c, a, g) && CanLink(c, a, g, pred, n, b, t) && 0 <= k < c.range
    ensures var a' := LinkMem(a, pred, n);
            Member(a'.heap, g.home[n := b], Bucket(c, k), k) <==> Member(a.heap, g.home, Bucket(c, k), k) || k == a.heap[n].key
    ensures !Member(a.heap, g.home, b, a.heap[n].key)
  {
    assert Chain(a.heap, g.home, b) && Chain(a.heap, g.home, Bucket(c, k));
    Window(a.heap, g.home, b, pred, a.heap[n].key);
    if Bucket(c, k) == b { LinkMember(a.heap, g.home, b, pred, n, k); }
    else { MemberFrame(a.heap, g.home, LinkMem(a, pred, n).heap, g.home[n := b], Bucket(c, k), k); }
  }

  /** Unlinking removes exactly the key of x. */
  lemma UnlinkKeys(c: Space, a: Mem, g: Ghost, pred: int, x: int, b: int, k: int)
    requires ValidSpace(c) && ArenaInv(c, a, g) && CanUnlink(c, a, g, pred, x, b) && 0 <= k < c.range
    ensures var a' := UnlinkMem(a, pred, x);
            Member(a'.heap, g.home - {x}, Bucket(c, k), k) <==> Member(a.heap, g.home, Bucket(c, k), k) && k != a.heap[x].key
    ensures Member(a.heap, g.home, b, a.heap[x].key)
  {
    assert Chain(a.heap, g.home, b) && Chain(a.heap, g.home, Bucket(c, k));
    if Bucket(c, k) == b { UnlinkMember(a.heap, g.home, b, pred, x, k); }
    else { MemberFrame(a.heap, g.home, UnlinkMem(a, pred, x).heap, g.home - {x}, Bucket(c, k), k); }
  }
}
