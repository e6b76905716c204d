/** The inductive invariant of the rcu_hlist engine and its preservation by every step. */
module RcuHashInvariant {
  import opened SortedChain
  import opened RcuArena
  import opened RcuHash

  predicate Looking(pc: Pc) {
    pc.RHead? || pc.RLoop? || pc.RNext? || pc.RDone?
  }

  /** Inside the bucket's critical section. */
  predicate Critical(pc: Pc) {
    !pc.Idle? && !Looking(pc) && !pc.WLock?
  }

  // ---- writers ------------------------------------------------------------

  ghost predicate Before(a: Mem, g: Ghost, b: int, pred: int, k: int) {
    In(g.home, b, pred) && pred in a.heap && a.heap[pred].key < k
  }

  /** pred and cur are adjacent, and pred is below k. */
  ghost predicate Around(a: Mem, g: Ghost, b: int, pred: int, cur: int, k: int) {
    Before(a, g, b, pred, k) && a.heap[pred].next == cur && In(g.home, b, cur) && cur in a.heap
  }

  ghost predicate WriterInv(c: Config, a: Mem, g: Ghost, t: int, pc: Pc)
    requires ValidConfig(c) && !pc.Idle?
  {
    var k := pc.k;
    var b := Bucket(c.space, k);
    0 <= k < c.space.range &&
    match pc
    case WLoop(_, pred, cur) => Around(a, g, b, pred, cur, k)
    case WNext(_, pred) => Before(a, g, b, pred, k)
    case WSucc(_, pred, cur) => Around(a, g, b, pred, cur, k) && a.heap[cur].key == k
    case WUnlink(_, pred, cur, succ) => Around(a, g, b, pred, cur, k) && a.heap[cur].key == k && a.heap[cur].next == succ
    case WRetire(_, cur) => cur in g.out && g.out[cur] == t
    case WAlloc(_, pred, cur) => Around(a, g, b, pred, cur, k) && a.heap[cur].key > k
    case WInit(_, pred, cur, n) =>
      Around(a, g, b, pred, cur, k) && a.heap[cur].key > k && n in a.heap && n in g.mine && g.mine[n] == t && a.heap[n].key == k
    case WPublish(_, pred, cur, n) =>
      Around(a, g, b, pred, cur, k) && a.heap[cur].key > k && n in a.heap && n in g.mine && g.mine[n] == t && a.heap[n] == Cell(k, cur)
    case _ => true
  }

  // ---- lookups ------------------------------------------------------------

  /** The number of smaller keys that share a bucket with k. */
  function Smaller(c: Config, k: int): int
    requires ValidConfig(c)
  {
    k / c.space.buckets
  }

  /** After `steps` hops, the last key has at least steps - 1 smaller ones in its bucket. */
  predicate Count(c: Config, b: int, pk: int, steps: int)
    requires ValidConfig(c)
  {
    (steps == 0 && pk == MIN) || (steps >= 1 && KeyOf(c.space, pk, b) && steps - 1 <= Smaller(c, pk))
  }

  ghost predicate ReaderInv(c: Config, a: Mem, g: Ghost, t: int, pc: Pc)
    requires ValidConfig(c) && !pc.Idle?
  {
    var k := pc.k;
    var b := Bucket(c.space, k);
    t in g.walks && g.walks[t].k == k &&
    var o := g.walks[t].o;
    match pc
    case RLoop(_, cur, pk, steps) =>
      && Reachable(g.home, b, o, cur) && cur in a.heap && a.heap[cur].key > pk && Count(c, b, pk, steps)
      && (a.heap[cur].key == k ==> true in o.seen) && (a.heap[cur].key > k ==> false in o.seen)
    case RNext(_, cur, pk, steps) =>
      Reachable(g.home, b, o, cur) && cur in a.heap && a.heap[cur].key == pk < k && steps >= 1 && Count(c, b, pk, steps)
    case RDone(_, ans, viol) => if viol then c.limit < Smaller(c, k) else ans in o.seen
    case _ => true
  }

  // ---- everything together ------------------------------------------------

  ghost predicate PcInv(c: Config, a: Mem, g: Ghost, t: int, pc: Pc)
    requires ValidConfig(c)
  {
    && (t in g.walks <==> Looking(pc))
    && (!pc.Idle? ==> if Looking(pc) then ReaderInv(c, a, g, t, pc) else WriterInv(c, a, g, t, pc))
  }

  ghost predicate Owners(c: Config, s: State)
    requires ValidConfig(c)
  {
    forall t :: 0 <= t < |s.pc| && Critical(s.pc[t]) ==>
      Bucket(c.space, s.pc[t].k) in s.owner && s.owner[Bucket(c.space, s.pc[t].k)] == t
  }

  ghost predicate Inv(c: Config, s: State, h: Past)
    requires ValidConfig(c)
  {
    && !s.fault && ArenaInv(c.space, s.mem, h.g) && Owners(c, s)
    && (forall t :: 0 <= t < |s.pc| ==> PcInv(c, s.mem, h.g, t, s.pc[t]))
  }

  /** A thread does not notice what another thread does elsewhere. */
  lemma PcFrame(c: Config, a: Mem, g: Ghost, a': Mem, g': Ghost, t: int, b: int, u: int, pc: Pc)
    requires ValidConfig(c) && PcInv(c, a, g, u, pc) && Evolves(c.space, a, g, a', g', t, b) && u != t
    requires Critical(pc) ==> Bucket(c.space, pc.k) != b
    requires u in g'.walks ==> u in g.walks
    ensures PcInv(c, a', g', u, pc)
  {
    if Looking(pc) { assert WalkKept(c.space, a, g, a', g', u); }
  }

  /** Thread t took a step on bucket b (b < 0: on no bucket). */
  lemma Finish(c: Config, s: State, h: Past, s': State, h': Past, t: int, b: int)
    requires ValidConfig(c) && Inv(c, s, h) && |s'.pc| == |s.pc|
    requires forall u :: 0 <= u < |s.pc| && u != t ==> s'.pc[u] == s.pc[u]
    requires ArenaInv(c.space, s'.mem, h'.g) && Evolves(c.space, s.mem, h.g, s'.mem, h'.g, t, b)
    requires b < 0 || (0 <= t < |s.pc| && Critical(s.pc[t]) && Bucket(c.space, s.pc[t].k) == b)
    requires h'.g.walks.Keys - {t} <= h.g.walks.Keys
    requires !s'.fault && Owners(c, s')
    requires 0 <= t < |s.pc| ==> PcInv(c, s'.mem, h'.g, t, s'.pc[t])
    ensures Inv(c, s', h')
  {
    forall u | 0 <= u < |s.pc| ensures PcInv(c, s'.mem, h'.g, u, s'.pc[u]) {
      if u != t {
        assert PcInv(c, s.mem, h.g, u, s.pc[u]);
        assert u in h'.g.walks ==> u in h'.g.walks.Keys - {t};
        PcFrame(c, s.mem, h.g, s'.mem, h'.g, t, b, u, s.pc[u]);
      }
    }
  }

  ghost predicate Kept(c: Config, s: State, h: Past, m: Move, now: nat)
    requires ValidConfig(c)
  {
    Inv(c, Step(c, s, m), StepPast(c, s, h, m, now))
  }

  lemma FreeKept(c: Config, s: State, h: Past, m: Move, now: nat)
    requires ValidConfig(c) && Inv(c, s, h) && Enabled(c, s, m) && m.Free?
    ensures Kept(c, s, h, m, now)
  {
    FreeStep(c.space, s.mem, h.g, m.x);
    Finish(c, s, h, Step(c, s, m), StepPast(c, s, h, m, now), -1, -1);
  }

  lemma SectionKept(c: Config, s: State, h: Past, m: Move, now: nat)
    requires ValidConfig(c) && Inv(c, s, h) && Enabled(c, s, m) && (m.Enter? || m.Leave?)
    ensures Kept(c, s, h, m, now)
  {
    assert PcInv(c, s.mem, h.g, m.t, s.pc[m.t]);
    if m.Enter? { EnterStep(c.space, s.mem, h.g, m.t); } else { LeaveStep(c.space, s.mem, h.g, m.t); }
    Finish(c, s, h, Step(c, s, m), StepPast(c, s, h, m, now), m.t, -1);
  }

  lemma FindKept(c: Config, s: State, h: Past, m: Move, now: nat)
    requires ValidConfig(c) && Inv(c, s, h) && Enabled(c, s, m) && m.Find?
    ensures Kept(c, s, h, m, now)
  {
    assert PcInv(c, s.mem, h.g, m.t, s.pc[m.t]);
    BeginStep(c.space, s.mem, h.g, m.t, m.k);
    Finish(c, s, h, Step(c, s, m), StepPast(c, s, h, m, now), m.t, -1);
  }

  lemma ToggleKept(c: Config, s: State, h: Past, m: Move, now: nat)
    requires ValidConfig(c) && Inv(c, s, h) && Enabled(c, s, m) && m.Toggle?
    ensures Kept(c, s, h, m, now)
  {
    assert PcInv(c, s.mem, h.g, m.t, s.pc[m.t]);
    SameStep(c.space, s.mem, h.g, m.t);
    Finish(c, s, h, Step(c, s, m), StepPast(c, s, h, m, now), m.t, -1);
  }

  // ---- lookups ------------------------------------------------------------

  /** The lookup's own step. */
  lemma Hops(c: Config, s: State, g: Ghost, t: int, addr: int)
    requires ValidConfig(c) && Enabled(c, s, Run(t, addr)) && ArenaInv(c.space, s.mem, g)
    requires Looking(s.pc[t]) && !s.pc[t].RDone? && ReaderInv(c, s.mem, g, t, s.pc[t])
    ensures Touches(c, s.pc[t]) in s.mem.heap
    ensures var pc' := Access(c, s, t, addr).pc[t]; Looking(pc') && ReaderInv(c, s.mem, g, t, pc')
  {
    var pc, k, o, heap := s.pc[t], s.pc[t].k, g.walks[t].o, s.mem.heap;
    var b := Bucket(c.space, k);
    assert WalkInv(c.space, s.mem, g, t) && Chain(heap, g.home, b);
    if pc.RHead? {
      Hop(heap, g.home, b, k, o, Head(b));
    } else if pc.RNext? {
      Hop(heap, g.home, b, k, o, pc.cur);
    } else if heap[pc.cur].key < k {
      assert KeyOf(c.space, heap[pc.cur].key, b);
      if pc.steps > 0 { Spaced(c.space.buckets, pc.pk, heap[pc.cur].key); }
      Spaced(c.space.buckets, heap[pc.cur].key, k);
    }
  }

  lemma ReaderKept(c: Config, s: State, h: Past, m: Move, now: nat)
    requires ValidConfig(c) && Inv(c, s, h) && Enabled(c, s, m) && m.Run? && Looking(s.pc[m.t])
    ensures Kept(c, s, h, m, now)
  {
    var s', h', t := Step(c, s, m), StepPast(c, s, h, m, now), m.t;
    assert PcInv(c, s.mem, h.g, t, s.pc[t]);
    if s.pc[t].RDone? {
      assert Chain(s.mem.heap, h.g.home, Bucket(c.space, s.pc[t].k));
      EndStep(c.space, s.mem, h.g, t);
    } else {
      Hops(c, s, h.g, t, m.addr);
      SameStep(c.space, s.mem, h.g, t);
    }
    Finish(c, s, h, s', h', t, -1);
  }

  // ---- writers ------------------------------------------------------------

  /** Steps of a writer that store nothing into the list. */
  predicate Walks(pc: Pc) {
    pc.WLock? || pc.WHead? || pc.WLoop? || pc.WNext? || pc.WSucc? || pc.WUnlock?
  }

  lemma WriterWalks(c: Config, s: State, g: Ghost, t: int, addr: int)
    requires ValidConfig(c) && Enabled(c, s, Run(t, addr)) && ArenaInv(c.space, s.mem, g)
    requires Walks(s.pc[t]) && WriterInv(c, s.mem, g, t, s.pc[t])
    ensures Touches(c, s.pc[t]) in s.mem.heap
    ensures var pc' := Access(c, s, t, addr).pc[t]; !Looking(pc') && (!pc'.Idle? ==> WriterInv(c, s.mem, g, t, pc'))
  {
    var pc := s.pc[t];
    var b := Bucket(c.space, pc.k);
    assert Chain(s.mem.heap, g.home, b);
    if pc.WHead? { assert Ordered(s.mem.heap, g.home, b, Head(b)); }
    if pc.WNext? { assert Ordered(s.mem.heap, g.home, b, pc.pred); }
  }

  /** The lock of a bucket changes hands only by its holder's unlock and the next lock. */
  lemma WalksOwners(c: Config, s: State, t: int, addr: int)
    requires ValidConfig(c) && Enabled(c, s, Run(t, addr)) && Walks(s.pc[t]) && Owners(c, s) && Touches(c, s.pc[t]) in s.mem.heap
    ensures Owners(c, Access(c, s, t, addr))
  {
    var s', b := Access(c, s, t, addr), Bucket(c.space, s.pc[t].k);
    if s.pc[t].WUnlock? { assert s'.owner == s.owner - {b}; }
    else if s.pc[t].WLock? && b !in s.owner { assert s'.owner == s.owner[b := t]; }
    else { assert s'.owner == s.owner; }
  }

  lemma WalksKept(c: Config, s: State, h: Past, m: Move, now: nat)
    requires ValidConfig(c) && Inv(c, s, h) && Enabled(c, s, m) && m.Run? && Walks(s.pc[m.t])
    ensures Kept(c, s, h, m, now)
  {
    var s', h', t := Step(c, s, m), StepPast(c, s, h, m, now), m.t;
    assert PcInv(c, s.mem, h.g, t, s.pc[t]);
    WriterWalks(c, s, h.g, t, m.addr);
    WalksOwners(c, s, t, m.addr);
    SameStep(c.space, s.mem, h.g, t);
    Finish(c, s, h, s', h', t, -1);
  }

  lemma AllocKept(c: Config, s: State, h: Past, m: Move, now: nat)
    requires ValidConfig(c) && Inv(c, s, h) && Enabled(c, s, m) && m.Run? && s.pc[m.t].WAlloc?
    ensures Kept(c, s, h, m, now)
  {
    var s', h', t := Step(c, s, m), StepPast(c, s, h, m, now), m.t;
    assert PcInv(c, s.mem, h.g, t, s.pc[t]) && Chain(s.mem.heap, h.g.home, Bucket(c.space, s.pc[t].k));
    AllocStep(c.space, s.mem, h.g, m.addr, Cell(s.pc[t].k, 0), t);
    Finish(c, s, h, s', h', t, -1);
  }

  lemma InitKept(c: Config, s: State, h: Past, m: Move, now: nat)
    requires ValidConfig(c) && Inv(c, s, h) && Enabled(c, s, m) && m.Run? && s.pc[m.t].WInit?
    ensures Kept(c, s, h, m, now)
  {
    var s', h', t, n := Step(c, s, m), StepPast(c, s, h, m, now), m.t, s.pc[m.t].n;
    assert PcInv(c, s.mem, h.g, t, s.pc[t]);
    WriteStep(c.space, s.mem, h.g, n, s.mem.heap[n].(next := s.pc[t].cur), t);
    Finish(c, s, h, s', h', t, -1);
  }

  lemma PublishKept(c: Config, s: State, h: Past, m: Move, now: nat)
    requires ValidConfig(c) && Inv(c, s, h) && Enabled(c, s, m) && m.Run? && s.pc[m.t].WPublish?
    ensures CanLink(c.space, s.mem, h.g, s.pc[m.t].pred, s.pc[m.t].n, Bucket(c.space, s.pc[m.t].k), m.t)
    ensures Kept(c, s, h, m, now)
  {
    var s', h', pc := Step(c, s, m), StepPast(c, s, h, m, now), s.pc[m.t];
    var b := Bucket(c.space, pc.k);
    assert PcInv(c, s.mem, h.g, m.t, pc) && Chain(s.mem.heap, h.g.home, b);
    LinkStep(c.space, s.mem, h.g, pc.pred, pc.n, b, m.t);
    assert s'.mem == LinkMem(s.mem, pc.pred, pc.n);
    Finish(c, s, h, s', h', m.t, b);
  }

  lemma UnlinkKept(c: Config, s: State, h: Past, m: Move, now: nat)
    requires ValidConfig(c) && Inv(c, s, h) && Enabled(c, s, m) && m.Run? && s.pc[m.t].WUnlink?
    ensures CanUnlink(c.space, s.mem, h.g, s.pc[m.t].pred, s.pc[m.t].cur, Bucket(c.space, s.pc[m.t].k))
    ensures Kept(c, s, h, m, now)
  {
    var s', h', pc := Step(c, s, m), StepPast(c, s, h, m, now), s.pc[m.t];
    var b := Bucket(c.space, pc.k);
    assert PcInv(c, s.mem, h.g, m.t, pc) && Chain(s.mem.heap, h.g.home, b);
    UnlinkStep(c.space, s.mem, h.g, pc.pred, pc.cur, b, m.t);
    assert s'.mem == UnlinkMem(s.mem, pc.pred, pc.cur);
    Finish(c, s, h, s', h', m.t, b);
  }

  lemma RetireKept(c: Config, s: State, h: Past, m: Move, now: nat)
    requires ValidConfig(c) && Inv(c, s, h) && Enabled(c, s, m) && m.Run? && s.pc[m.t].WRetire?
    ensures Kept(c, s, h, m, now)
  {
    var s', h', t := Step(c, s, m), StepPast(c, s, h, m, now), m.t;
    assert PcInv(c, s.mem, h.g, t, s.pc[t]);
    RetireStep(c.space, s.mem, h.g, s.pc[t].cur, t);
    Finish(c, s, h, s', h', t, -1);
  }

  // ---- every step, every schedule -----------------------------------------

  lemma StepKept(c: Config, s: State, h: Past, m: Move, now: nat)
    requires ValidConfig(c) && Inv(c, s, h) && Enabled(c, s, m)
    ensures Kept(c, s, h, m, now)
  {
    if m.Free? { FreeKept(c, s, h, m, now); }
    else if m.Enter? || m.Leave? { SectionKept(c, s, h, m, now); }
    else if m.Find? { FindKept(c, s, h, m, now); }
    else if m.Toggle? { ToggleKept(c, s, h, m, now); }
    else if Looking(s.pc[m.t]) { ReaderKept(c, s, h, m, now); }
    else if Walks(s.pc[m.t]) { WalksKept(c, s, h, m, now); }
    else if s.pc[m.t].WAlloc? { AllocKept(c, s, h, m, now); }
    else if s.pc[m.t].WInit? { InitKept(c, s, h, m, now); }
    else if s.pc[m.t].WPublish? { PublishKept(c, s, h, m, now); }
    else if s.pc[m.t].WUnlink? { UnlinkKept(c, s, h, m, now); }
    else { RetireKept(c, s, h, m, now); }
  }

  /** The invariant holds after every schedule. */
  lemma {:induction false} Invariant(c: Config, sched: seq<Move>)
    requires ValidConfig(c)
    ensures Inv(c, Exec(c, sched), History(c, sched))
  {
    if sched == [] {
      InitArena(c.space);
    } else {
      var before, m := sched[..|sched| - 1], sched[|sched| - 1];
      Invariant(c, before);
      if Enabled(c, Exec(c, before), m) {
        StepKept(c, Exec(c, before), History(c, before), m, |sched|);
      }
    }
  }
}
