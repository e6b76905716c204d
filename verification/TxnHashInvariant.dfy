/** The inductive invariant of the txn_hlist engine and its preservation by every step. */
module TxnHashInvariant {
  import opened SortedChain
  import opened RcuArena
  import opened TxnHash

  /** Thread t may stand on x: linked, or unlinked since it began and not freed. */
  ghost predicate Stands(c: Config, a: Mem, g: Ghost, t: int, x: int)
    requires ValidConfig(c) && t in g.walks
  {
    Reachable(g.home, Bucket(c.space, g.walks[t].k), g.walks[t].o, x) && x in a.heap
  }

  ghost predicate Owns(a: Mem, g: Ghost, t: int, n: int, k: int) {
    n in g.mine && g.mine[n] == t && n in a.heap && a.heap[n].key == k
  }

  /** The next load starts a walk. */
  predicate Starts(pc: Pc) { pc.LHead? || pc.FHead? }

  /** The number of smaller keys that share a bucket with k. */
  function Smaller(c: Config, k: int): int
    requires ValidConfig(c)
  {
    k / c.space.buckets
  }

  /** After `steps` hops, the last key has at least steps - 1 smaller ones in its bucket. */
  predicate Count(c: Config, b: int, pk: int, steps: int)
    requires ValidConfig(c)
  {
    (steps == 0 && pk == MIN) || (steps >= 1 && KeyOf(c.space, pk, b) && steps - 1 <= Smaller(c, pk))
  }

  ghost predicate PcInv(c: Config, a: Mem, g: Ghost, t: int, pc: Pc)
    requires ValidConfig(c)
  {
    && (t in g.walks <==> !pc.Idle? && !Starts(pc))
    && (Starts(pc) ==> 0 <= pc.k < c.space.range && t in a.sections)
    && (t in g.walks ==> g.walks[t].k == pc.k && WalkerInv(c, a, g, t, pc))
  }

  ghost predicate WalkerInv(c: Config, a: Mem, g: Ghost, t: int, pc: Pc)
    requires ValidConfig(c) && t in g.walks && !pc.Idle?
  {
    var k, seen := pc.k, g.walks[t].o.seen;
    match pc
    case FLoop(_, cur, pk, steps) =>
      && Stands(c, a, g, t, cur) && a.heap[cur].key > pk && pk < k && Count(c, Bucket(c.space, k), pk, steps)
      && (a.heap[cur].key == k ==> true in seen) && (a.heap[cur].key > k ==> false in seen)
    case FNext(_, cur, pk, steps) =>
      Stands(c, a, g, t, cur) && a.heap[cur].key == pk < k && steps >= 1 && Count(c, Bucket(c.space, k), pk, steps)
    case FDone(_, ans, viol) => if viol then c.limit <= Smaller(c, k) else ans in seen
    case LLoop(_, cur) => Stands(c, a, g, t, cur)
    case LNext(_, cur) => Stands(c, a, g, t, cur) && a.heap[cur].key < k
    case Del(_, x) => Stands(c, a, g, t, x) && a.heap[x].key == k
    case Retire(_, x) => x in g.out && g.out[x] == t
    case AHead(_, n) => Owns(a, g, t, n, k)
    case ALoop(_, n, pred, cur) =>
      && Owns(a, g, t, n, k) && Stands(c, a, g, t, pred) && a.heap[pred].key < k && Stands(c, a, g, t, cur)
      && (a.heap[cur].key == k ==> true in seen)
    case ANext(_, n, pred) => Owns(a, g, t, n, k) && Stands(c, a, g, t, pred) && a.heap[pred].key < k
    case Prep(_, n, pred, cur) =>
      Owns(a, g, t, n, k) && Stands(c, a, g, t, pred) && a.heap[pred].key < k && Stands(c, a, g, t, cur) && a.heap[cur].key > k
    case Commit(_, n, pred, cur) =>
      && Owns(a, g, t, n, k) && Stands(c, a, g, t, pred) && a.heap[pred].key < k && Stands(c, a, g, t, cur) && a.heap[cur].key > k
      && a.heap[n].next == cur
    case Drop(_, n) => Owns(a, g, t, n, k) && true in seen
    case _ => true
  }

  /** A node is marked once it is unlinked, and pprev names the slot of every linked node. */
  ghost predicate MarkInv(g: Ghost, marked: set<int>) {
    && (forall x: int :: x in g.home || x in g.mine ==> x !in marked)
    && (forall t: int, x: int :: t in g.walks && x in g.walks[t].o.gone ==> x in marked)
  }

  ghost predicate PrevOk(heap: map<int, Cell>, home: map<int, int>, pprev: map<int, int>, x: int)
    requires x in home
  {
    x != Head(home[x]) ==> x in pprev && pprev[x] in heap && heap[pprev[x]].next == x && In(home, home[x], pprev[x])
  }

  ghost predicate PrevInv(heap: map<int, Cell>, home: map<int, int>, pprev: map<int, int>) {
    forall x: int {:trigger PrevOk(heap, home, pprev, x)} :: x in home ==> PrevOk(heap, home, pprev, x)
  }

  ghost predicate Inv(c: Config, s: State, h: Past)
    requires ValidConfig(c)
  {
    && !s.fault && ArenaInv(c.space, s.mem, h.g) && MarkInv(h.g, s.marked) && PrevInv(s.mem.heap, h.g.home, s.pprev)
    && (forall t :: 0 <= t < |s.pc| ==> PcInv(c, s.mem, h.g, t, s.pc[t]))
  }

  /** No thread loses its place by what another thread does. */
  lemma PcFrame(c: Config, a: Mem, g: Ghost, a': Mem, g': Ghost, t: int, b: int, u: int, pc: Pc)
    requires ValidConfig(c) && PcInv(c, a, g, u, pc) && Evolves(c.space, a, g, a', g', t, b) && u != t
    requires (u in g'.walks ==> u in g.walks) && (u in a.sections ==> u in a'.sections)
    ensures PcInv(c, a', g', u, pc)
  {
    if u in g.walks {
      assert WalkKept(c.space, a, g, a', g', u);
      assert forall x: int :: Stands(c, a, g, u, x) ==> Stands(c, a', g', u, x) && a'.heap[x].key == a.heap[x].key;
    }
  }

  lemma Finish(c: Config, s: State, h: Past, s': State, h': Past, t: int, b: int)
    requires ValidConfig(c) && Inv(c, s, h) && |s'.pc| == |s.pc|
    requires forall u :: 0 <= u < |s.pc| && u != t ==> s'.pc[u] == s.pc[u]
    requires ArenaInv(c.space, s'.mem, h'.g) && Evolves(c.space, s.mem, h.g, s'.mem, h'.g, t, b)
    requires h'.g.walks.Keys - {t} <= h.g.walks.Keys && s.mem.sections - {t} <= s'.mem.sections
    requires !s'.fault && MarkInv(h'.g, s'.marked) && PrevInv(s'.mem.heap, h'.g.home, s'.pprev)
    requires 0 <= t < |s.pc| ==> PcInv(c, s'.mem, h'.g, t, s'.pc[t])
    ensures Inv(c, s', h')
  {
    forall u | 0 <= u < |s.pc| ensures PcInv(c, s'.mem, h'.g, u, s'.pc[u]) {
      if u != t {
        assert PcInv(c, s.mem, h.g, u, s.pc[u]);
        assert u in h'.g.walks ==> u in h'.g.walks.Keys - {t};
        assert u in s.mem.sections ==> u in s.mem.sections - {t};
        PcFrame(c, s.mem, h.g, s'.mem, h'.g, t, b, u, s.pc[u]);
      }
    }
  }

  ghost predicate Kept(c: Config, s: State, h: Past, m: Move, now: nat)
    requires ValidConfig(c)
  {
    Inv(c, Step(c, s, m), StepPast(c, s, h, m, now))
  }

  /** pprev survives changes of nodes outside every chain. */
  lemma PrevAside(heap: map<int, Cell>, home: map<int, int>, heap': map<int, Cell>, pprev: map<int, int>, n: int)
    requires PrevInv(heap, home, pprev) && SameBut(heap, heap', n) && n !in home
    ensures PrevInv(heap', home, pprev)
  {
    forall x: int | x in home ensures PrevOk(heap', home, pprev, x) {
      assert PrevOk(heap, home, pprev, x);
    }
  }

  lemma FreeKept(c: Config, s: State, h: Past, m: Move, now: nat)
    requires ValidConfig(c) && Inv(c, s, h) && Enabled(c, s, m) && m.Free?
    ensures Kept(c, s, h, m, now)
  {
    FreeStep(c.space, s.mem, h.g, m.x);
    PrevAside(s.mem.heap, h.g.home, Step(c, s, m).mem.heap, s.pprev, m.x);
    Finish(c, s, h, Step(c, s, m), StepPast(c, s, h, m, now), -1, -1);
  }

  lemma ToggleKept(c: Config, s: State, h: Past, m: Move, now: nat)
    requires ValidConfig(c) && Inv(c, s, h) && Enabled(c, s, m) && m.Toggle?
    ensures Kept(c, s, h, m, now)
  {
    assert PcInv(c, s.mem, h.g, m.t, s.pc[m.t]);
    EnterStep(c.space, s.mem, h.g, m.t);
    Finish(c, s, h, Step(c, s, m), StepPast(c, s, h, m, now), m.t, -1);
  }

  lemma FindKept(c: Config, s: State, h: Past, m: Move, now: nat)
    requires ValidConfig(c) && Inv(c, s, h) && Enabled(c, s, m) && m.Find?
    ensures Kept(c, s, h, m, now)
  {
    assert PcInv(c, s.mem, h.g, m.t, s.pc[m.t]);
    ReenterStep(c.space, s.mem, h.g, m.t);
    Finish(c, s, h, Step(c, s, m), StepPast(c, s, h, m, now), m.t, -1);
  }

  // ---- walking ------------------------------------------------------------

  /** Steps of a writer's walks. */
  predicate Walks(pc: Pc) {
    pc.LLoop? || pc.LNext? || pc.AHead? || pc.ALoop? || pc.ANext?
  }

  /** Steps of a lookup. */
  predicate Looks(pc: Pc) { pc.FLoop? || pc.FNext? || pc.FDone? }

  /** Such a step only moves its thread. */
  lemma MoveShape(c: Config, s: State, h: Past, m: Move, now: nat)
    requires ValidConfig(c) && Enabled(c, s, m) && m.Run? && (Walks(s.pc[m.t]) || Looks(s.pc[m.t])) && Touches(c, s.pc[m.t]) in s.mem.heap
    ensures Step(c, s, m) == Goto(s, m.t, Access(c, s, m.t, m.addr, m.abort).pc[m.t]) && StepPast(c, s, h, m, now) == h
  {
  }

  /** A thread that only moves keeps the invariant if it may stand where it goes. */
  lemma Settle(c: Config, s: State, h: Past, t: int, pc: Pc)
    requires ValidConfig(c) && Inv(c, s, h) && 0 <= t < |s.pc| && PcInv(c, s.mem, h.g, t, pc)
    ensures Inv(c, Goto(s, t, pc), h)
  {
    SameStep(c.space, s.mem, h.g, t);
    Finish(c, s, h, Goto(s, t, pc), h, t, -1);
  }

  /** Above `steps` keys of its bucket, a key has at least as many smaller ones. */
  lemma Passed(c: Config, b: int, pk: int, key: int, steps: int)
    requires ValidConfig(c) && Count(c, b, pk, steps) && pk < key && KeyOf(c.space, key, b)
    ensures steps <= Smaller(c, key)
  {
    if steps > 0 { Spaced(c.space.buckets, pk, key); }
  }

  lemma LookHops(c: Config, s: State, g: Ghost, t: int, addr: int, abort: bool)
    requires ValidConfig(c) && Enabled(c, s, Run(t, addr, abort)) && ArenaInv(c.space, s.mem, g)
    requires Looks(s.pc[t]) && t in g.walks && g.walks[t].k == s.pc[t].k && WalkerInv(c, s.mem, g, t, s.pc[t])
    ensures Touches(c, s.pc[t]) in s.mem.heap
    ensures var pc' := Access(c, s, t, addr, abort).pc[t]; !pc'.Idle? && !Starts(pc') && pc'.k == s.pc[t].k && WalkerInv(c, s.mem, g, t, pc')
  {
    var pc, k, o, heap := s.pc[t], s.pc[t].k, g.walks[t].o, s.mem.heap;
    var b := Bucket(c.space, k);
    assert WalkInv(c.space, s.mem, g, t) && Chain(heap, g.home, b);
    if pc.FLoop? {
      Passed(c, b, pc.pk, k, pc.steps);
      if pc.cur != Tail(b) { Passed(c, b, pc.pk, heap[pc.cur].key, pc.steps); }
    }
    if pc.FNext? { Hop(heap, g.home, b, k, o, pc.cur); }
  }

  lemma LocateHops(c: Config, s: State, g: Ghost, t: int, addr: int, abort: bool)
    requires ValidConfig(c) && Enabled(c, s, Run(t, addr, abort)) && ArenaInv(c.space, s.mem, g)
    requires (s.pc[t].LLoop? || s.pc[t].LNext?) && t in g.walks && g.walks[t].k == s.pc[t].k && WalkerInv(c, s.mem, g, t, s.pc[t])
    ensures Touches(c, s.pc[t]) in s.mem.heap
    ensures var pc' := Access(c, s, t, addr, abort).pc[t]; !pc'.Idle? && !Starts(pc') && pc'.k == s.pc[t].k && WalkerInv(c, s.mem, g, t, pc')
  {
    var pc := s.pc[t];
    var b := Bucket(c.space, pc.k);
    assert WalkInv(c.space, s.mem, g, t) && Chain(s.mem.heap, g.home, b);
    if pc.LNext? { Hop(s.mem.heap, g.home, b, pc.k, g.walks[t].o, pc.cur); }
  }

  lemma InsertHops(c: Config, s: State, g: Ghost, t: int, addr: int, abort: bool)
    requires ValidConfig(c) && Enabled(c, s, Run(t, addr, abort)) && ArenaInv(c.space, s.mem, g)
    requires (s.pc[t].AHead? || s.pc[t].ALoop? || s.pc[t].ANext?)
    requires t in g.walks && g.walks[t].k == s.pc[t].k && WalkerInv(c, s.mem, g, t, s.pc[t])
    ensures Touches(c, s.pc[t]) in s.mem.heap
    ensures var pc' := Access(c, s, t, addr, abort).pc[t]; !pc'.Idle? && !Starts(pc') && pc'.k == s.pc[t].k && WalkerInv(c, s.mem, g, t, pc')
  {
    var pc := s.pc[t];
    var b := Bucket(c.space, pc.k);
    assert WalkInv(c.space, s.mem, g, t) && Chain(s.mem.heap, g.home, b);
    if !pc.ALoop? { Hop(s.mem.heap, g.home, b, pc.k, g.walks[t].o, if pc.AHead? then Head(b) else pc.pred); }
  }

  lemma WalksKept(c: Config, s: State, h: Past, m: Move, now: nat)
    requires ValidConfig(c) && Inv(c, s, h) && Enabled(c, s, m) && m.Run? && (Walks(s.pc[m.t]) || Looks(s.pc[m.t]))
    ensures Kept(c, s, h, m, now)
  {
    assert PcInv(c, s.mem, h.g, m.t, s.pc[m.t]);
    var pc := s.pc[m.t];
    if Looks(pc) { LookHops(c, s, h.g, m.t, m.addr, m.abort); }
    else if pc.LLoop? || pc.LNext? { LocateHops(c, s, h.g, m.t, m.addr, m.abort); }
    else { InsertHops(c, s, h.g, m.t, m.addr, m.abort); }
    MoveShape(c, s, h, m, now);
    Settle(c, s, h, m.t, Access(c, s, m.t, m.addr, m.abort).pc[m.t]);
  }

  lemma BeginShape(c: Config, s: State, h: Past, m: Move, now: nat)
    requires ValidConfig(c) && Enabled(c, s, m) && m.Run? && Starts(s.pc[m.t]) && Head(Bucket(c.space, s.pc[m.t].k)) in s.mem.heap
    ensures var pc, first := s.pc[m.t], s.mem.heap[Head(Bucket(c.space, s.pc[m.t].k))].next;
            && StepPast(c, s, h, m, now) == Past(h.g.(walks := h.g.walks[m.t := StartWalk(c.space, s.mem, h.g, pc.k)]), h.since[m.t := now])
            && Step(c, s, m) == Goto(s, m.t, if pc.FHead? then FLoop(pc.k, first, MIN, 0) else LLoop(pc.k, first))
  {
  }

  lemma BeginTo(c: Config, s: State, h: Past, t: int, h': Past)
    requires ValidConfig(c) && Inv(c, s, h) && 0 <= t < |s.pc| && Starts(s.pc[t]) && Head(Bucket(c.space, s.pc[t].k)) in s.mem.heap
    requires h'.g == h.g.(walks := h.g.walks[t := StartWalk(c.space, s.mem, h.g, s.pc[t].k)])
    ensures var pc, first := s.pc[t], s.mem.heap[Head(Bucket(c.space, s.pc[t].k))].next;
            Inv(c, Goto(s, t, if pc.FHead? then FLoop(pc.k, first, MIN, 0) else LLoop(pc.k, first)), h')
  {
    var k := s.pc[t].k;
    var b := Bucket(c.space, k);
    assert PcInv(c, s.mem, h.g, t, s.pc[t]);
    BeginStep(c.space, s.mem, h.g, t, k);
    assert WalkInv(c.space, s.mem, h'.g, t) && Chain(s.mem.heap, h.g.home, b);
    Hop(s.mem.heap, h.g.home, b, k, h'.g.walks[t].o, Head(b));
    var first := s.mem.heap[Head(b)].next;
    Finish(c, s, h, Goto(s, t, if s.pc[t].FHead? then FLoop(k, first, MIN, 0) else LLoop(k, first)), h', t, -1);
  }

  lemma BeginKept(c: Config, s: State, h: Past, m: Move, now: nat)
    requires ValidConfig(c) && Inv(c, s, h) && Enabled(c, s, m) && m.Run? && Starts(s.pc[m.t])
    ensures Kept(c, s, h, m, now)
  {
    assert PcInv(c, s.mem, h.g, m.t, s.pc[m.t]);
    assert Chain(s.mem.heap, h.g.home, Bucket(c.space, s.pc[m.t].k));
    BeginShape(c, s, h, m, now);
    BeginTo(c, s, h, m.t, StepPast(c, s, h, m, now));
  }

  lemma ExitKept(c: Config, s: State, h: Past, m: Move, now: nat)
    requires ValidConfig(c) && Inv(c, s, h) && Enabled(c, s, m) && m.Run? && s.pc[m.t].Exit?
    ensures Kept(c, s, h, m, now)
  {
    assert PcInv(c, s.mem, h.g, m.t, s.pc[m.t]) && WalkInv(c.space, s.mem, h.g, m.t);
    assert Chain(s.mem.heap, h.g.home, Bucket(c.space, s.pc[m.t].k));
    ExitStep(c.space, s.mem, h.g, m.t);
    Finish(c, s, h, Step(c, s, m), StepPast(c, s, h, m, now), m.t, -1);
  }

  // ---- the node to insert -------------------------------------------------

  lemma AllocShape(c: Config, s: State, h: Past, m: Move, now: nat)
    requires ValidConfig(c) && Enabled(c, s, m) && m.Run? && s.pc[m.t].Alloc? && Touches(c, s.pc[m.t]) in s.mem.heap
    ensures var k := s.pc[m.t].k;
            && StepPast(c, s, h, m, now) == h.(g := h.g.(mine := h.g.mine[m.addr := m.t]))
            && Step(c, s, m) == s.(mem := s.mem.(heap := s.mem.heap[m.addr := Cell(k, 0)]), marked := s.marked - {m.addr},
                                   pc := s.pc[m.t := AHead(k, m.addr)])
  {
  }

  lemma AllocTo(c: Config, s: State, h: Past, t: int, n: int, s': State, h': Past)
    requires ValidConfig(c) && Inv(c, s, h) && 0 <= t < |s.pc| && s.pc[t].Alloc? && n !in s.mem.heap
    requires h' == h.(g := h.g.(mine := h.g.mine[n := t]))
    requires var k := s.pc[t].k;
             s' == s.(mem := s.mem.(heap := s.mem.heap[n := Cell(k, 0)]), marked := s.marked - {n}, pc := s.pc[t := AHead(k, n)])
    ensures Inv(c, s', h')
  {
    assert PcInv(c, s.mem, h.g, t, s.pc[t]);
    FreeIsUnreached(c.space, s.mem, h.g, n);
    AllocStep(c.space, s.mem, h.g, n, Cell(s.pc[t].k, 0), t);
    PrevAside(s.mem.heap, h.g.home, s'.mem.heap, s.pprev, n);
    Finish(c, s, h, s', h', t, -1);
  }

  lemma AllocKept(c: Config, s: State, h: Past, m: Move, now: nat)
    requires ValidConfig(c) && Inv(c, s, h) && Enabled(c, s, m) && m.Run? && s.pc[m.t].Alloc?
    ensures Kept(c, s, h, m, now)
  {
    assert PcInv(c, s.mem, h.g, m.t, s.pc[m.t]) && WalkInv(c.space, s.mem, h.g, m.t);
    assert Chain(s.mem.heap, h.g.home, Bucket(c.space, s.pc[m.t].k));
    AllocShape(c, s, h, m, now);
    AllocTo(c, s, h, m.t, m.addr, Step(c, s, m), StepPast(c, s, h, m, now));
  }

  lemma PrepShape(c: Config, s: State, h: Past, m: Move, now: nat)
    requires ValidConfig(c) && Enabled(c, s, m) && m.Run? && s.pc[m.t].Prep? && s.pc[m.t].n in s.mem.heap
    ensures var pc, s' := s.pc[m.t], Step(c, s, m);
            && StepPast(c, s, h, m, now) == h
            && if pc.cur in s.marked then s' == Goto(s, m.t, AHead(pc.k, pc.n))
               else s' == s.(mem := s.mem.(heap := s.mem.heap[pc.n := s.mem.heap[pc.n].(next := pc.cur)]),
                             pc := s.pc[m.t := Commit(pc.k, pc.n, pc.pred, pc.cur)])
  {
  }

  lemma PrepTo(c: Config, s: State, h: Past, t: int, s': State)
    requires ValidConfig(c) && Inv(c, s, h) && 0 <= t < |s.pc| && s.pc[t].Prep? && s.pc[t].n in s.mem.heap
    requires var pc := s.pc[t];
             s' == s.(mem := s.mem.(heap := s.mem.heap[pc.n := s.mem.heap[pc.n].(next := pc.cur)]),
                      pc := s.pc[t := Commit(pc.k, pc.n, pc.pred, pc.cur)])
    ensures Inv(c, s', h)
  {
    var n := s.pc[t].n;
    assert PcInv(c, s.mem, h.g, t, s.pc[t]);
    FreeIsUnreached(c.space, s.mem, h.g, n);
    WriteStep(c.space, s.mem, h.g, n, s.mem.heap[n].(next := s.pc[t].cur), t);
    PrevAside(s.mem.heap, h.g.home, s'.mem.heap, s.pprev, n);
    Finish(c, s, h, s', h, t, -1);
  }

  lemma PrepKept(c: Config, s: State, h: Past, m: Move, now: nat)
    requires ValidConfig(c) && Inv(c, s, h) && Enabled(c, s, m) && m.Run? && s.pc[m.t].Prep?
    ensures Kept(c, s, h, m, now)
  {
    var pc := s.pc[m.t];
    assert PcInv(c, s.mem, h.g, m.t, pc);
    PrepShape(c, s, h, m, now);
    if pc.cur in s.marked { Settle(c, s, h, m.t, AHead(pc.k, pc.n)); } else { PrepTo(c, s, h, m.t, Step(c, s, m)); }
  }

  lemma DropKept(c: Config, s: State, h: Past, m: Move, now: nat)
    requires ValidConfig(c) && Inv(c, s, h) && Enabled(c, s, m) && m.Run? && s.pc[m.t].Drop?
    ensures Kept(c, s, h, m, now)
  {
    var s', h', t, n := Step(c, s, m), StepPast(c, s, h, m, now), m.t, s.pc[m.t].n;
    assert PcInv(c, s.mem, h.g, t, s.pc[t]);
    FreeIsUnreached(c.space, s.mem, h.g, n);
    DropStep(c.space, s.mem, h.g, n, t);
    PrevAside(s.mem.heap, h.g.home, s'.mem.heap, s.pprev, n);
    Finish(c, s, h, s', h', t, -1);
  }

  // ---- the commits --------------------------------------------------------

  /** The slot still holds the unmarked successor, so its owner is linked right before it. */
  lemma CommitLinks(c: Config, s: State, h: Past, m: Move)
    requires ValidConfig(c) && Inv(c, s, h) && Enabled(c, s, m) && Commits(s, m) && s.pc[m.t].Commit?
    ensures CanLink(c.space, s.mem, h.g, s.pc[m.t].pred, s.pc[m.t].n, Bucket(c.space, s.pc[m.t].k), m.t)
    ensures s.mem.heap[s.pc[m.t].n].key == s.pc[m.t].k
  {
    var pc := s.pc[m.t];
    var b := Bucket(c.space, pc.k);
    assert PcInv(c, s.mem, h.g, m.t, pc) && WalkInv(c.space, s.mem, h.g, m.t) && Chain(s.mem.heap, h.g.home, b);
    assert Ordered(s.mem.heap, h.g.home, b, pc.pred);
  }

  lemma PrevLink(c: Config, a: Mem, g: Ghost, pprev: map<int, int>, pred: int, n: int, b: int, t: int)
    requires ValidConfig(c) && ArenaInv(c.space, a, g) && CanLink(c.space, a, g, pred, n, b, t) && PrevInv(a.heap, g.home, pprev)
    ensures var a' := LinkMem(a, pred, n);
            PrevInv(a'.heap, LinkGhost(c.space, a', g, n, b).home, pprev[n := pred][a.heap[pred].next := n])
  {
    assert Chain(a.heap, g.home, b) && Ordered(a.heap, g.home, b, pred);
    var a' := LinkMem(a, pred, n);
    var home', pprev' := g.home[n := b], pprev[n := pred][a.heap[pred].next := n];
    forall y: int | y in home' ensures PrevOk(a'.heap, home', pprev', y) {
      if y != n { assert PrevOk(a.heap, g.home, pprev, y); }
    }
  }

  lemma CommitShape(c: Config, s: State, h: Past, m: Move, now: nat)
    requires ValidConfig(c) && Enabled(c, s, m) && m.Run? && s.pc[m.t].Commit? && s.pc[m.t].pred in s.mem.heap && s.pc[m.t].n in s.mem.heap
    ensures var pc, s', h' := s.pc[m.t], Step(c, s, m), StepPast(c, s, h, m, now);
            if Commits(s, m) then
              && s' == s.(mem := LinkMem(s.mem, pc.pred, pc.n), pprev := s.pprev[pc.n := pc.pred][pc.cur := pc.n], pc := s.pc[m.t := Exit(pc.k)])
              && h' == h.(g := LinkGhost(c.space, s'.mem, h.g, pc.n, Bucket(c.space, pc.k)))
            else s' == Goto(s, m.t, AHead(pc.k, pc.n)) && h' == h
  {
  }

  lemma CommitTo(c: Config, s: State, h: Past, m: Move, s': State, h': Past)
    requires ValidConfig(c) && Inv(c, s, h) && Enabled(c, s, m) && Commits(s, m) && s.pc[m.t].Commit?
    requires var pc := s.pc[m.t];
             && pc.pred in s.mem.heap && pc.n in s.mem.heap
             && s' == s.(mem := LinkMem(s.mem, pc.pred, pc.n), pprev := s.pprev[pc.n := pc.pred][pc.cur := pc.n], pc := s.pc[m.t := Exit(pc.k)])
             && h' == h.(g := LinkGhost(c.space, s'.mem, h.g, pc.n, Bucket(c.space, pc.k)))
    ensures Inv(c, s', h')
  {
    var t, pc := m.t, s.pc[m.t];
    var b := Bucket(c.space, pc.k);
    assert PcInv(c, s.mem, h.g, t, pc);
    CommitLinks(c, s, h, m);
    LinkStep(c.space, s.mem, h.g, pc.pred, pc.n, b, t);
    PrevLink(c, s.mem, h.g, s.pprev, pc.pred, pc.n, b, t);
    Finish(c, s, h, s', h', t, b);
  }

  lemma CommitKept(c: Config, s: State, h: Past, m: Move, now: nat)
    requires ValidConfig(c) && Inv(c, s, h) && Enabled(c, s, m) && m.Run? && s.pc[m.t].Commit?
    ensures Kept(c, s, h, m, now)
  {
    var pc := s.pc[m.t];
    assert PcInv(c, s.mem, h.g, m.t, pc);
    CommitShape(c, s, h, m, now);
    if Commits(s, m) {
      CommitTo(c, s, h, m, Step(c, s, m), StepPast(c, s, h, m, now));
    } else {
      Settle(c, s, h, m.t, AHead(pc.k, pc.n));
    }
  }

  /** An unmarked node is linked, and pprev names the slot to swing. */
  lemma DelUnlinks(c: Config, s: State, h: Past, m: Move)
    requires ValidConfig(c) && Inv(c, s, h) && Enabled(c, s, m) && Commits(s, m) && s.pc[m.t].Del?
    ensures var x := s.pc[m.t].x;
            && x in s.pprev && x in s.mem.heap && s.mem.heap[x].key == s.pc[m.t].k
            && CanUnlink(c.space, s.mem, h.g, s.pprev[x], x, Bucket(c.space, s.pc[m.t].k))
  {
    var pc := s.pc[m.t];
    var b := Bucket(c.space, pc.k);
    assert PcInv(c, s.mem, h.g, m.t, pc) && WalkInv(c.space, s.mem, h.g, m.t) && Chain(s.mem.heap, h.g.home, b);
    assert In(h.g.home, b, pc.x) && pc.x != Head(b) && pc.x != Tail(b) && PrevOk(s.mem.heap, h.g.home, s.pprev, pc.x);
  }

  lemma PrevUnlink(c: Config, a: Mem, g: Ghost, pprev: map<int, int>, p: int, x: int, b: int, t: int)
    requires ValidConfig(c) && ArenaInv(c.space, a, g) && CanUnlink(c.space, a, g, p, x, b) && PrevInv(a.heap, g.home, pprev)
    requires x in pprev && pprev[x] == p
    ensures var a' := UnlinkMem(a, p, x);
            PrevInv(a'.heap, UnlinkGhost(c.space, a', g, x, b, t).home, pprev[a.heap[x].next := p])
  {
    assert Chain(a.heap, g.home, b) && Ordered(a.heap, g.home, b, x) && Ordered(a.heap, g.home, b, p);
    var a' := UnlinkMem(a, p, x);
    var home', pprev' := g.home - {x}, pprev[a.heap[x].next := p];
    forall y: int | y in home' ensures PrevOk(a'.heap, home', pprev', y) {
      assert PrevOk(a.heap, g.home, pprev, y);
    }
  }

  lemma DelShape(c: Config, s: State, h: Past, m: Move, now: nat)
    requires ValidConfig(c) && Enabled(c, s, m) && m.Run? && s.pc[m.t].Del? && s.pc[m.t].x in s.mem.heap
    requires Commits(s, m) ==> s.pc[m.t].x in s.pprev && s.pprev[s.pc[m.t].x] in s.mem.heap
    ensures var k, x, s', h' := s.pc[m.t].k, s.pc[m.t].x, Step(c, s, m), StepPast(c, s, h, m, now);
            if Commits(s, m) then
              && s' == s.(mem := UnlinkMem(s.mem, s.pprev[x], x), marked := s.marked + {x},
                          pprev := s.pprev[s.mem.heap[x].next := s.pprev[x]], pc := s.pc[m.t := Retire(k, x)])
              && h' == h.(g := UnlinkGhost(c.space, s'.mem, h.g, x, Bucket(c.space, k), m.t))
            else s' == Goto(s, m.t, if m.abort then s.pc[m.t] else Exit(k)) && h' == h
  {
  }

  lemma DelTo(c: Config, s: State, h: Past, m: Move, s': State, h': Past)
    requires ValidConfig(c) && Inv(c, s, h) && Enabled(c, s, m) && Commits(s, m) && s.pc[m.t].Del?
    requires var k, x := s.pc[m.t].k, s.pc[m.t].x;
             && x in s.mem.heap && x in s.pprev && s.pprev[x] in s.mem.heap
             && s' == s.(mem := UnlinkMem(s.mem, s.pprev[x], x), marked := s.marked + {x},
                         pprev := s.pprev[s.mem.heap[x].next := s.pprev[x]], pc := s.pc[m.t := Retire(k, x)])
             && h' == h.(g := UnlinkGhost(c.space, s'.mem, h.g, x, Bucket(c.space, k), m.t))
    ensures Inv(c, s', h')
  {
    var t, pc := m.t, s.pc[m.t];
    var b := Bucket(c.space, pc.k);
    assert PcInv(c, s.mem, h.g, t, pc);
    DelUnlinks(c, s, h, m);
    UnlinkStep(c.space, s.mem, h.g, s.pprev[pc.x], pc.x, b, t);
    PrevUnlink(c, s.mem, h.g, s.pprev, s.pprev[pc.x], pc.x, b, t);
    Finish(c, s, h, s', h', t, b);
  }

  lemma DelKept(c: Config, s: State, h: Past, m: Move, now: nat)
    requires ValidConfig(c) && Inv(c, s, h) && Enabled(c, s, m) && m.Run? && s.pc[m.t].Del?
    ensures Kept(c, s, h, m, now)
  {
    var pc := s.pc[m.t];
    assert PcInv(c, s.mem, h.g, m.t, pc);
    if Commits(s, m) { DelUnlinks(c, s, h, m); }
    DelShape(c, s, h, m, now);
    if Commits(s, m) {
      DelTo(c, s, h, m, Step(c, s, m), StepPast(c, s, h, m, now));
    } else {
      Settle(c, s, h, m.t, if m.abort then pc else Exit(pc.k));
    }
  }

  lemma RetireKept(c: Config, s: State, h: Past, m: Move, now: nat)
    requires ValidConfig(c) && Inv(c, s, h) && Enabled(c, s, m) && m.Run? && s.pc[m.t].Retire?
    ensures Kept(c, s, h, m, now)
  {
    assert PcInv(c, s.mem, h.g, m.t, s.pc[m.t]);
    RetireStep(c.space, s.mem, h.g, s.pc[m.t].x, m.t);
    Finish(c, s, h, Step(c, s, m), StepPast(c, s, h, m, now), m.t, -1);
  }

  // ---- every step, every schedule -----------------------------------------

  lemma StepKept(c: Config, s: State, h: Past, m: Move, now: nat)
    requires ValidConfig(c) && Inv(c, s, h) && Enabled(c, s, m)
    ensures Kept(c, s, h, m, now)
  {
    if m.Free? { FreeKept(c, s, h, m, now); }
    else if m.Toggle? { ToggleKept(c, s, h, m, now); }
    else if m.Find? { FindKept(c, s, h, m, now); }
    else if Walks(s.pc[m.t]) || Looks(s.pc[m.t]) { WalksKept(c, s, h, m, now); }
    else {
      match s.pc[m.t]
      case FHead(_) => BeginKept(c, s, h, m, now);
      case LHead(_) => BeginKept(c, s, h, m, now);
      case Del(_, _) => DelKept(c, s, h, m, now);
      case Retire(_, _) => RetireKept(c, s, h, m, now);
      case Alloc(_) => AllocKept(c, s, h, m, now);
      case Prep(_, _, _, _) => PrepKept(c, s, h, m, now);
      case Commit(_, _, _, _) => CommitKept(c, s, h, m, now);
      case Drop(_, _) => DropKept(c, s, h, m, now);
      case Exit(_) => ExitKept(c, s, h, m, now);
    }
  }

  lemma InitPrevInv(c: Config)
    requires ValidConfig(c)
    ensures PrevInv(InitMem(c.space).heap, InitGhost(c.space).home, InitPrev(c))
  {
    var heap, home, p := InitMem(c.space).heap, InitGhost(c.space).home, InitPrev(c);
    forall x: int | x in home ensures PrevOk(heap, home, p, x) {
      if x != Head(home[x]) {
        assert x == 2 * (x / 2) + 1;
        assert (x - 1) / 2 == x / 2 && (x - 1) % 2 == 0;
      }
    }
  }

  /** The invariant holds after every schedule. */
  lemma {:induction false} Invariant(c: Config, sched: seq<Move>)
    requires ValidConfig(c)
    ensures Inv(c, Exec(c, sched), History(c, sched))
  {
    if sched == [] {
      InitArena(c.space);
      InitPrevInv(c);
    } else {
      var before, m := sched[..|sched| - 1], sched[|sched| - 1];
      Invariant(c, before);
      if Enabled(c, Exec(c, before), m) {
        StepKept(c, Exec(c, before), History(c, before), m, |sched|);
      }
    }
  }
}
