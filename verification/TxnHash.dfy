/**
 The txn_hlist engine of src/bench_list_scale.c: optimistic sorted insert and validated
 delete on chains whose deleted nodes carry a mark in their next pointer, and lookups that
 walk through marked nodes.  Any number of threads toggle and look up keys at once,
 without locks.

 A transaction's commit is modelled by its contract, one atomic compare-and-swap of
 several words: an insert commits only if the slot still holds the exact unmarked
 successor, a delete only if its node is not marked yet.  A commit may also abort for
 no reason, and the operation then starts over.  `pprev` names the slot that points to
 a node.  A bucket's head pointer is the next field of Head(b); a null pointer is
 Tail(b), whose key is above every key.
 */
module TxnHash {
  import opened SortedChain
  import opened RcuArena

  datatype Config = Config(space: Space, limit: int, threads: int)

  predicate ValidConfig(c: Config) {
    ValidSpace(c.space) && c.limit >= 0 && c.threads >= 0
  }

  /** F*: thl_contains.  The others: thl_write.  `k` is the key looked up or toggled. */
  datatype Pc =
    | Idle
    | FHead(k: int)                                    // load head->first
    | FLoop(k: int, cur: int, pk: int, steps: int)     // test cur, load cur->key
    | FNext(k: int, cur: int, pk: int, steps: int)     // load cur->next
    | FDone(k: int, ans: bool, viol: bool)
    | LHead(k: int)                                    // locate: load head->first
    | LLoop(k: int, cur: int)                          // load cur->key
    | LNext(k: int, cur: int)                          // load cur->next
    | Del(k: int, x: int)                              // urcu_txn_hlist_del_rcu
    | Retire(k: int, x: int)                           // call_rcu
    | Alloc(k: int)
    | AHead(k: int, n: int)                            // insert: load head->first
    | ALoop(k: int, n: int, pred: int, cur: int)       // load cur->key
    | ANext(k: int, n: int, pred: int)                 // load pred->next with its mark
    | Prep(k: int, n: int, pred: int, cur: int)        // insert_at_slot_prepare
    | Commit(k: int, n: int, pred: int, cur: int)
    | Drop(k: int, n: int)                             // someone else added k: free the node
    | Exit(k: int)                                     // rcu_read_unlock

  datatype State = State(mem: Mem, marked: set<int>, pprev: map<int, int>, pc: seq<Pc>, fault: bool)

  datatype Move =
    | Find(t: int, k: int)                             // rcu_read_lock of thl_read, or its next lookup
    | Toggle(t: int, k: int)                           // rcu_read_lock of thl_write
    | Run(t: int, addr: int, abort: bool)
    | Free(x: int)

  predicate Enabled(c: Config, s: State, m: Move) {
    && !s.fault
    && (!m.Free? ==> 0 <= m.t < |s.pc|)
    && match m
       case Find(t, k) => (s.pc[t].Idle? || s.pc[t].FDone?) && 0 <= k < c.space.range
       case Toggle(t, k) => s.pc[t].Idle? && 0 <= k < c.space.range
       case Run(t, addr, _) => !s.pc[t].Idle? && addr !in s.mem.heap
       case Free(x) => x in s.mem.limbo && s.mem.limbo[x] == {}
  }

  function Goto(s: State, t: int, pc: Pc): State
    requires 0 <= t < |s.pc|
  {
    s.(pc := s.pc[t := pc])
  }

  function Store(s: State, x: int, cell: Cell): State {
    s.(mem := s.mem.(heap := s.mem.heap[x := cell]))
  }

  function Apply(c: Config, s: State, m: Move): (r: State)
    requires ValidConfig(c) && Enabled(c, s, m)
    ensures |r.pc| == |s.pc|
  {
    match m
    case Find(t, k) => Goto(s.(mem := s.mem.(sections := s.mem.sections + {t})), t, FHead(k))
    case Toggle(t, k) => Goto(s.(mem := s.mem.(sections := s.mem.sections + {t})), t, LHead(k))
    case Free(x) => s.(mem := s.mem.(heap := s.mem.heap - {x}, limbo := s.mem.limbo - {x}))
    case Run(t, addr, abort) =>
      if Touches(c, s.pc[t]) in s.mem.heap then Access(c, s, t, addr, abort) else s.(fault := true)
  }

  /** The node an access dereferences; following a pointer to memory that is not allocated is a fault. */
  function Touches(c: Config, pc: Pc): int
    requires ValidConfig(c)
  {
    match pc
    case FLoop(_, cur, _, _) => cur
    case FNext(_, cur, _, _) => cur
    case LLoop(_, cur) => cur
    case LNext(_, cur) => cur
    case Del(_, x) => x
    case Retire(_, x) => x
    case ALoop(_, _, _, cur) => cur
    case ANext(_, _, pred) => pred
    case Prep(_, n, _, _) => n
    case Commit(_, _, pred, _) => pred
    case Drop(_, n) => n
    case Idle => Head(0)
    case _ => Head(Bucket(c.space, pc.k))
  }

  /** One access or commit of thread t. */
  function Access(c: Config, s: State, t: int, addr: int, abort: bool): (r: State)
    requires ValidConfig(c) && Enabled(c, s, Run(t, addr, abort)) && Touches(c, s.pc[t]) in s.mem.heap
    ensures |r.pc| == |s.pc|
  {
    var b := Bucket(c.space, s.pc[t].k);
    var cell := s.mem.heap[Touches(c, s.pc[t])];
    match s.pc[t]
    case FHead(k) => Goto(s, t, FLoop(k, cell.next, MIN, 0))
    case FLoop(k, cur, pk, steps) =>
      if cur == Tail(b) then Goto(s, t, FDone(k, false, false))
      else if cell.key < pk || steps + 1 > c.limit then Goto(s, t, FDone(k, false, true))
      else if cell.key >= k then Goto(s, t, FDone(k, cell.key == k, false))
      else Goto(s, t, FNext(k, cur, cell.key, steps + 1))
    case FNext(k, _, pk, steps) => Goto(s, t, FLoop(k, cell.next, pk, steps))
    case FDone(k, _, _) => Goto(s, t, Exit(k))
    case LHead(k) => Goto(s, t, LLoop(k, cell.next))
    case LLoop(k, cur) => Goto(s, t, if cell.key < k then LNext(k, cur) else if cell.key == k then Del(k, cur) else Alloc(k))
    case LNext(k, _) => Goto(s, t, LLoop(k, cell.next))
    case Del(k, x) =>
      if abort then s
      else if x in s.marked then Goto(s, t, Exit(k))
      else if x in s.pprev && s.pprev[x] in s.mem.heap then
        var p := s.pprev[x];
        Goto(Store(s, p, s.mem.heap[p].(next := cell.next)).(marked := s.marked + {x}, pprev := s.pprev[cell.next := p]),
             t, Retire(k, x))
      else s.(fault := true)
    case Retire(k, x) => Goto(s.(mem := s.mem.(limbo := s.mem.limbo[x := s.mem.sections])), t, Exit(k))
    case Alloc(k) => Goto(Store(s, addr, Cell(k, 0)).(marked := s.marked - {addr}), t, AHead(k, addr))
    case AHead(k, n) => Goto(s, t, ALoop(k, n, Head(b), cell.next))
    case ALoop(k, n, pred, cur) =>
      Goto(s, t, if cell.key < k then ANext(k, n, cur) else if cell.key == k then Drop(k, n) else Prep(k, n, pred, cur))
    case ANext(k, n, pred) => Goto(s, t, if pred in s.marked then AHead(k, n) else ALoop(k, n, pred, cell.next))
    case Prep(k, n, pred, cur) =>
      if cur in s.marked then Goto(s, t, AHead(k, n))
      else Goto(Store(s, n, cell.(next := cur)), t, Commit(k, n, pred, cur))
    case Commit(k, n, pred, cur) =>
      if abort || cell.next != cur || pred in s.marked then Goto(s, t, AHead(k, n))
      else Goto(Store(s, pred, cell.(next := n)).(pprev := s.pprev[n := pred][cur := n]), t, Exit(k))
    case Drop(k, n) => Goto(s.(mem := s.mem.(heap := s.mem.heap - {n})), t, Exit(k))
    case Exit(_) => Goto(s.(mem := Unlock(s.mem, t)), t, Idle)
  }

  function Step(c: Config, s: State, m: Move): State
    requires ValidConfig(c)
  {
    if Enabled(c, s, m) then Apply(c, s, m) else s
  }

  function InitPrev(c: Config): map<int, int> {
    map x: int | 0 <= x < 2 * c.space.buckets && x % 2 == 1 :: x - 1
  }

  /** The state after a whole schedule, from empty buckets and idle threads. */
  function Exec(c: Config, sched: seq<Move>): (s: State)
    requires ValidConfig(c)
    ensures |s.pc| == c.threads
  {
    if sched == [] then
      State(InitMem(c.space), {}, InitPrev(c), seq(c.threads, i => Idle), false)
    else Step(c, Exec(c, sched[..|sched| - 1]), sched[|sched| - 1])
  }

  /** Thread t's commit is about to succeed. */
  predicate Commits(s: State, m: Move) {
    && m.Run? && !m.abort && 0 <= m.t < |s.pc|
    && match s.pc[m.t]
       case Del(_, x) => x !in s.marked
       case Commit(_, _, pred, cur) => pred in s.mem.heap && s.mem.heap[pred].next == cur && pred !in s.marked
       case _ => false
  }

  // ---- history ------------------------------------------------------------

  datatype Past = Past(g: Ghost, since: map<int, nat>)

  ghost function StepPast(c: Config, s: State, h: Past, m: Move, now: nat): Past
    requires ValidConfig(c)
  {
    if !Enabled(c, s, m) || m.Free? || m.Toggle? then h
    else if m.Find? then h.(g := h.g.(walks := h.g.walks - {m.t}))
    else
      (match s.pc[m.t]
       case FHead(k) => Past(h.g.(walks := h.g.walks[m.t := StartWalk(c.space, s.mem, h.g, k)]), h.since[m.t := now])
       case LHead(k) => Past(h.g.(walks := h.g.walks[m.t := StartWalk(c.space, s.mem, h.g, k)]), h.since[m.t := now])
       case Alloc(_) => h.(g := h.g.(mine := h.g.mine[m.addr := m.t]))
       case Commit(k, n, _, _) =>
         if Commits(s, m) then h.(g := LinkGhost(c.space, Apply(c, s, m).mem, h.g, n, Bucket(c.space, k))) else h
       case Del(k, x) =>
         if Commits(s, m) then h.(g := UnlinkGhost(c.space, Apply(c, s, m).mem, h.g, x, Bucket(c.space, k), m.t)) else h
       case Retire(_, x) => h.(g := h.g.(out := h.g.out - {x}))
       case Drop(_, n) => h.(g := h.g.(mine := h.g.mine - {n}))
       case Exit(_) => h.(g := h.g.(walks := h.g.walks - {m.t}))
       case _ => h)
  }

  ghost function History(c: Config, sched: seq<Move>): Past
    requires ValidConfig(c)
  {
    if sched == [] then Past(InitGhost(c.space), map[])
    else
      var before := sched[..|sched| - 1];
      StepPast(c, Exec(c, before), History(c, before), sched[|sched| - 1], |sched|)
  }
}
