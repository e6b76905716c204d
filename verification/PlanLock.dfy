/**
 The plan / lock / validate protocol of src/bench_list_scale.c (BENCH_NODE_LOCKS over the
 RCU list): any number of writers insert after, and delete, nodes of one circular doubly
 linked list.  A writer plans without locks, takes the locks of the planned nodes in
 ascending order, validates the plan, and commits it by plain stores; if the plan went
 stale it releases its locks and plans again.

 LockOf gives the lock of a node: any assignment of nodes to stripes, which nodes may
 share, or else the node's own state word.  One step is one load, store, lock or unlock; the links of a new node are
 written by the step that allocates it.  A node that a running writer has planned is not
 recycled, because writers run inside read sections.
 */
module PlanLock {
  import opened RingList
  import opened Lockset

  datatype Config = Config(stripe: map<int, int>, n: int, threads: int)

  predicate ValidConfig(c: Config) { c.n >= 0 && c.threads >= 0 }

  datatype Node = Node(next: int, prev: int, dead: bool)
  datatype Op = Ins(at: int) | Del(at: int)

  /** The planned neighbours and the locks to take; for an insert, pred is the anchor. */
  datatype Plan = Plan(op: Op, pred: int, succ: int, keys: seq<int>)

  datatype Pc =
    | Idle
    | Load1(op: Op)                        // Ins: succ = at->next.  Del: pred = at->prev
    | Load2(op: Op, pred: int)             // Del: succ = at->next
    | Lock(pl: Plan, i: int)               // locks [0, i) are held
    | Check(pl: Plan, k: int)              // conditions [0, k) have been read and hold
    | Undo(pl: Plan, i: int)               // validation failed; locks [0, i) are still held
    | New(pl: Plan)
    | LinkPrev(pl: Plan, e: int)           // pred->next->prev = e
    | LinkNext(pl: Plan, e: int)           // pred->next = e
    | Kill(pl: Plan)                       // tombstone
    | UnPrev(pl: Plan)                     // at->next->prev = at->prev
    | UnNext(pl: Plan)                     // at->prev->next = at->next
    | Release(pl: Plan, e: int, i: int)    // committed; locks [0, i) are still held

  datatype State = State(heap: map<int, Node>, owner: map<int, int>, known: set<int>, retries: int, pc: seq<Pc>, fault: bool)

  datatype Move = Begin(t: int, op: Op) | Run(t: int, addr: int)

  // ---- the locks and conditions of a plan ---------------------------------

  function LockOf(c: Config, x: int): int { if x in c.stripe then c.stripe[x] else x }

  /** The plan with its lock set. */
  function MakePlan(c: Config, op: Op, pred: int, succ: int): Plan {
    var locks := if op.Ins? then [LockOf(c, pred), LockOf(c, succ)] else [LockOf(c, pred), LockOf(c, op.at), LockOf(c, succ)];
    Plan(op, pred, succ, Keys(locks))
  }

  /** How many conditions the validation reads. */
  function Conditions(pl: Plan): int { if pl.op.Ins? then 3 else 5 }

  /** The node that the k-th condition reads. */
  function Subject(pl: Plan, k: int): int {
    if pl.op.Ins? then (if k == 1 then pl.succ else pl.pred)
    else if k == 0 then pl.op.at else if k == 1 || k == 3 then pl.pred else pl.succ
  }

  /** The k-th condition of the validation. */
  predicate Cond(heap: map<int, Node>, pl: Plan, k: int) {
    var x := Subject(pl, k);
    && x in heap
    && (if pl.op.Ins? then (if k < 2 then !heap[x].dead else heap[x].next == pl.succ)
        else if k < 3 then !heap[x].dead
        else if k == 3 then heap[x].next == pl.op.at
        else heap[x].prev == pl.op.at)
  }

  // ---- steps --------------------------------------------------------------

  predicate Enabled(c: Config, s: State, m: Move) {
    && !s.fault && 0 <= m.t < |s.pc|
    && match m
       case Begin(t, op) => s.pc[t].Idle? && op.at in s.known && (op.Del? ==> op.at != HEAD)
       case Run(t, addr) =>
         && !s.pc[t].Idle? && addr !in s.heap
         && (s.pc[t].Lock? ==> Wanted(s.pc[t]) !in s.owner)
  }

  /** The lock that a writer is about to take. */
  function Wanted(pc: Pc): int
    requires pc.Lock?
  {
    if 0 <= pc.i < |pc.pl.keys| then pc.pl.keys[pc.i] else 0
  }

  function Goto(s: State, t: int, pc: Pc): State
    requires 0 <= t < |s.pc|
  {
    s.(pc := s.pc[t := pc])
  }

  function Store(s: State, t: int, x: int, node: Node, pc: Pc): State
    requires 0 <= t < |s.pc|
  {
    Goto(s.(heap := s.heap[x := node]), t, pc)
  }

  /** The nodes that a step of this writer dereferences. */
  function Touches(heap: map<int, Node>, pc: Pc): seq<int> {
    match pc
    case Load1(op) => [op.at]
    case Load2(op, _) => [op.at]
    case Check(pl, k) => [Subject(pl, k)]
    case New(pl) => [pl.pred]
    case LinkPrev(pl, _) => if pl.pred in heap then [pl.pred, heap[pl.pred].next] else [pl.pred]
    case LinkNext(pl, _) => [pl.pred]
    case Kill(pl) => [pl.op.at]
    case UnPrev(pl) => if pl.op.at in heap then [pl.op.at, heap[pl.op.at].next] else [pl.op.at]
    case UnNext(pl) => if pl.op.at in heap then [pl.op.at, heap[pl.op.at].prev] else [pl.op.at]
    case _ => []
  }

  predicate Safe(heap: map<int, Node>, pc: Pc) {
    forall x: int :: x in Touches(heap, pc) ==> x in heap
  }

  function Access(c: Config, s: State, t: int, addr: int): (r: State)
    requires 0 <= t < |s.pc| && Safe(s.heap, s.pc[t])
    ensures |r.pc| == |s.pc|
  {
    var heap := s.heap;
    match s.pc[t]
    case Idle => s
    case Load1(op) =>
      assert op.at in Touches(heap, s.pc[t]);
      Goto(s, t, if op.Ins? then Lock(MakePlan(c, op, op.at, heap[op.at].next), 0) else Load2(op, heap[op.at].prev))
    case Load2(op, pred) =>
      assert op.at in Touches(heap, s.pc[t]);
      Goto(s, t, Lock(MakePlan(c, op, pred, heap[op.at].next), 0))
    case Lock(pl, i) =>
      Goto(s.(owner := s.owner[Wanted(s.pc[t]) := t]), t, if i + 1 < |pl.keys| then Lock(pl, i + 1) else Check(pl, 0))
    case Check(pl, k) =>
      Goto(s, t, if !Cond(heap, pl, k) then Undo(pl, |pl.keys|)
                 else if k + 1 < Conditions(pl) then Check(pl, k + 1)
                 else if pl.op.Ins? then New(pl) else Kill(pl))
    case Undo(pl, i) =>
      var r := s.(owner := Without(s.owner, pl, i));
      if i <= 1 then Goto(r.(retries := s.retries + 1), t, Load1(pl.op)) else Goto(r, t, Undo(pl, i - 1))
    case New(pl) =>
      assert pl.pred in Touches(heap, s.pc[t]);
      Store(s, t, addr, Node(heap[pl.pred].next, pl.pred, false), LinkPrev(pl, addr))
    case LinkPrev(pl, e) =>
      assert pl.pred in Touches(heap, s.pc[t]);
      var x := heap[pl.pred].next;
      assert x in Touches(heap, s.pc[t]);
      Store(s, t, x, heap[x].(prev := e), LinkNext(pl, e))
    case LinkNext(pl, e) =>
      assert pl.pred in Touches(heap, s.pc[t]);
      Store(s, t, pl.pred, heap[pl.pred].(next := e), Release(pl, e, |pl.keys|))
    case Kill(pl) =>
      assert pl.op.at in Touches(heap, s.pc[t]);
      Store(s, t, pl.op.at, heap[pl.op.at].(dead := true), UnPrev(pl))
    case UnPrev(pl) =>
      assert pl.op.at in Touches(heap, s.pc[t]);
      var x := heap[pl.op.at].next;
      assert x in Touches(heap, s.pc[t]);
      Store(s, t, x, heap[x].(prev := heap[pl.op.at].prev), UnNext(pl))
    case UnNext(pl) =>
      assert pl.op.at in Touches(heap, s.pc[t]);
      var x := heap[pl.op.at].prev;
      assert x in Touches(heap, s.pc[t]);
      Store(s, t, x, heap[x].(next := heap[pl.op.at].next), Release(pl, pl.op.at, |pl.keys|))
    case Release(pl, e, i) =>
      var r := s.(owner := Without(s.owner, pl, i));
      if i <= 1 then Goto(r.(known := if pl.op.Ins? then s.known + {e} else s.known - {e}), t, Idle) else Goto(r, t, Release(pl, e, i - 1))
  }

  /** Unlocks the last of the first i locks. */
  function Without(owner: map<int, int>, pl: Plan, i: int): map<int, int> {
    if 0 < i <= |pl.keys| then owner - {pl.keys[i - 1]} else owner
  }

  function Step(c: Config, s: State, m: Move): (r: State)
    ensures |r.pc| == |s.pc|
  {
    if !Enabled(c, s, m) then s
    else
      match m
      case Begin(t, op) => Goto(s, t, Load1(op))
      case Run(t, addr) => if Safe(s.heap, s.pc[t]) then Access(c, s, t, addr) else s.(fault := true)
  }

  /** The head and n stable nodes. */
  function Ring(c: Config): map<int, Node> {
    map i: int | -1 <= i < c.n :: Node(Succ(c.n, i), if i == -1 then c.n - 1 else i - 1, false)
  }

  function Build(c: Config): State
    requires ValidConfig(c)
  {
    State(Ring(c), map[], Ring(c).Keys, 0, seq(c.threads, i => Idle), false)
  }

  /** The state after a whole schedule. */
  function Exec(c: Config, sched: seq<Move>): (s: State)
    requires ValidConfig(c)
    ensures |s.pc| == c.threads
  {
    if sched == [] then Build(c) else Step(c, Exec(c, sched[..|sched| - 1]), sched[|sched| - 1])
  }

  // ---- history ------------------------------------------------------------

  /** The list as the commits so far have made it, all nodes ever linked, and nodes not linked yet. */
  datatype Past = Past(ring: seq<int>, linked: set<int>, mine: map<int, int>)

  function After(ring: seq<int>, p: int, e: int): seq<int> {
    if ring == [] then [] else if ring[0] == p then [p, e] + ring[1..] else [ring[0]] + After(ring[1..], p, e)
  }

  function Minus(ring: seq<int>, e: int): seq<int> {
    if ring == [] then [] else if ring[0] == e then ring[1..] else [ring[0]] + Minus(ring[1..], e)
  }

  ghost function StepPast(c: Config, s: State, h: Past, m: Move): Past {
    if !Enabled(c, s, m) || !m.Run? then h
    else
      match s.pc[m.t]
      case New(_) => h.(mine := h.mine[m.addr := m.t])
      case LinkNext(pl, e) => Past(After(h.ring, pl.pred, e), h.linked + {e}, h.mine - {e})
      case UnNext(pl) => h.(ring := Minus(h.ring, pl.op.at))
      case _ => h
  }

  ghost function History(c: Config, sched: seq<Move>): Past
    requires ValidConfig(c)
  {
    if sched == [] then Past(seq(c.n + 1, i => i - 1), Ring(c).Keys, map[])
    else
      var before := sched[..|sched| - 1];
      StepPast(c, Exec(c, before), History(c, before), sched[|sched| - 1])
  }
}
