/**
 The rcu_hlist engine of src/bench_list_scale.c: a hash of sorted chains, writers under
 a per-bucket mutex, lookups without any lock inside RCU read-side sections.  One load,
 store or lock operation per step.
 */
module RcuHash {
  import opened SortedChain
  import opened RcuArena

  datatype Config = Config(space: Space, limit: int, threads: int)

  predicate ValidConfig(c: Config) {
    ValidSpace(c.space) && c.limit >= 0 && c.threads >= 0
  }

  /** R*: chl_contains.  W*: chl_write.  `k` is the key looked up or toggled. */
  datatype Pc =
    | Idle
    | RHead(k: int)                                       // load head->next
    | RLoop(k: int, cur: int, pk: int, steps: int)        // load cur->key
    | RNext(k: int, cur: int, pk: int, steps: int)        // load cur->next
    | RDone(k: int, ans: bool, viol: bool)
    | WLock(k: int)
    | WHead(k: int)
    | WLoop(k: int, pred: int, cur: int)                  // load cur->key
    | WNext(k: int, pred: int)                            // load pred->next
    | WSucc(k: int, pred: int, cur: int)                  // load cur->next
    | WUnlink(k: int, pred: int, cur: int, succ: int)     // store pred->next
    | WRetire(k: int, cur: int)                           // call_rcu
    | WAlloc(k: int, pred: int, cur: int)
    | WInit(k: int, pred: int, cur: int, n: int)          // store n->next
    | WPublish(k: int, pred: int, cur: int, n: int)       // store pred->next
    | WUnlock(k: int)

  /** `owner` maps a locked bucket to its holder. */
  datatype State = State(mem: Mem, owner: map<int, int>, pc: seq<Pc>, fault: bool)

  datatype Move =
    | Enter(t: int) | Leave(t: int)
    | Find(t: int, k: int) | Toggle(t: int, k: int)
    | Run(t: int, addr: int)              // addr: what malloc returns, if it is called
    | Free(x: int)

  predicate Enabled(c: Config, s: State, m: Move) {
    && !s.fault
    && (!m.Free? ==> 0 <= m.t < |s.pc|)
    && match m
       case Enter(t) => s.pc[t].Idle? && t !in s.mem.sections
       case Leave(t) => s.pc[t].Idle? && t in s.mem.sections
       case Find(t, k) => s.pc[t].Idle? && t in s.mem.sections && 0 <= k < c.space.range
       case Toggle(t, k) => s.pc[t].Idle? && 0 <= k < c.space.range
       case Run(t, addr) => !s.pc[t].Idle? && addr !in s.mem.heap
       case Free(x) => x in s.mem.limbo && s.mem.limbo[x] == {}
  }

  function Goto(s: State, t: int, pc: Pc): State
    requires 0 <= t < |s.pc|
  {
    s.(pc := s.pc[t := pc])
  }

  function Store(s: State, x: int, cell: Cell): State {
    s.(mem := s.mem.(heap := s.mem.heap[x := cell]))
  }

  function Apply(c: Config, s: State, m: Move): (r: State)
    requires ValidConfig(c) && Enabled(c, s, m)
    ensures |r.pc| == |s.pc|
  {
    match m
    case Enter(t) => s.(mem := s.mem.(sections := s.mem.sections + {t}))
    case Leave(t) =>
      s.(mem := Unlock(s.mem, t))
    case Find(t, k) => Goto(s, t, RHead(k))
    case Toggle(t, k) => Goto(s, t, WLock(k))
    case Free(x) => s.(mem := s.mem.(heap := s.mem.heap - {x}, limbo := s.mem.limbo - {x}))
    case Run(t, addr) => if Touches(c, s.pc[t]) in s.mem.heap then Access(c, s, t, addr) else s.(fault := true)
  }

  /** The node an access dereferences; following a pointer to memory that is not allocated is a fault. */
  function Touches(c: Config, pc: Pc): int
    requires ValidConfig(c)
  {
    match pc
    case RLoop(_, cur, _, _) => cur
    case RNext(_, cur, _, _) => cur
    case WLoop(_, _, cur) => cur
    case WNext(_, pred) => pred
    case WSucc(_, _, cur) => cur
    case WUnlink(_, pred, _, _) => pred
    case WInit(_, _, _, n) => n
    case WPublish(_, pred, _, _) => pred
    case WRetire(_, cur) => cur
    case Idle => Head(0)
    case _ => Head(Bucket(c.space, pc.k))
  }

  /** One access of thread t. */
  function Access(c: Config, s: State, t: int, addr: int): (r: State)
    requires ValidConfig(c) && Enabled(c, s, Run(t, addr)) && Touches(c, s.pc[t]) in s.mem.heap
    ensures |r.pc| == |s.pc|
  {
    var b := Bucket(c.space, s.pc[t].k);
    var cell := s.mem.heap[Touches(c, s.pc[t])];
    match s.pc[t]
    case RHead(k) => Goto(s, t, RLoop(k, cell.next, MIN, 0))
    case RLoop(k, cur, pk, steps) =>
      if cell.key >= k then Goto(s, t, RDone(k, cell.key == k, false))
      else if cell.key < pk || steps + 1 > c.limit then Goto(s, t, RDone(k, false, true))
      else Goto(s, t, RNext(k, cur, cell.key, steps + 1))
    case RNext(k, _, pk, steps) => Goto(s, t, RLoop(k, cell.next, pk, steps))
    case RDone(_, _, _) => Goto(s, t, Idle)
    case WLock(k) => if b in s.owner then s else Goto(s.(owner := s.owner[b := t]), t, WHead(k))
    case WHead(k) => Goto(s, t, WLoop(k, Head(b), cell.next))
    case WLoop(k, pred, cur) =>
      Goto(s, t, if cell.key < k then WNext(k, cur) else if cell.key == k then WSucc(k, pred, cur) else WAlloc(k, pred, cur))
    case WNext(k, pred) => Goto(s, t, WLoop(k, pred, cell.next))
    case WSucc(k, pred, cur) => Goto(s, t, WUnlink(k, pred, cur, cell.next))
    case WUnlink(k, pred, cur, succ) => Goto(Store(s, pred, cell.(next := succ)), t, WRetire(k, cur))
    case WRetire(k, cur) => Goto(s.(mem := s.mem.(limbo := s.mem.limbo[cur := s.mem.sections])), t, WUnlock(k))
    case WAlloc(k, pred, cur) => Goto(Store(s, addr, Cell(k, 0)), t, WInit(k, pred, cur, addr))
    case WInit(k, pred, cur, n) => Goto(Store(s, n, cell.(next := cur)), t, WPublish(k, pred, cur, n))
    case WPublish(k, pred, _, n) => Goto(Store(s, pred, cell.(next := n)), t, WUnlock(k))
    case WUnlock(_) => Goto(s.(owner := s.owner - {b}), t, Idle)
  }

  function Step(c: Config, s: State, m: Move): State
    requires ValidConfig(c)
  {
    if Enabled(c, s, m) then Apply(c, s, m) else s
  }

  /** The state after a whole schedule, from empty buckets and idle threads. */
  function Exec(c: Config, sched: seq<Move>): (s: State)
    requires ValidConfig(c)
    ensures |s.pc| == c.threads
  {
    if sched == [] then State(InitMem(c.space), map[], seq(c.threads, i => Idle), false)
    else Step(c, Exec(c, sched[..|sched| - 1]), sched[|sched| - 1])
  }

  // ---- history ------------------------------------------------------------

  /** `since[t]` is the schedule length at the start of t's last lookup. */
  datatype Past = Past(g: Ghost, since: map<int, nat>)

  ghost function StepPast(c: Config, s: State, h: Past, m: Move, now: nat): Past
    requires ValidConfig(c)
  {
    if !Enabled(c, s, m) then h
    else if m.Find? then
      Past(h.g.(walks := h.g.walks[m.t := StartWalk(c.space, s.mem, h.g, m.k)]), h.since[m.t := now])
    else if m.Run? then
      (match s.pc[m.t]
       case RDone(_, _, _) => h.(g := h.g.(walks := h.g.walks - {m.t}))
       case WAlloc(_, _, _) => h.(g := h.g.(mine := h.g.mine[m.addr := m.t]))
       case WPublish(k, _, _, n) => h.(g := LinkGhost(c.space, Apply(c, s, m).mem, h.g, n, Bucket(c.space, k)))
       case WUnlink(k, _, cur, _) => h.(g := UnlinkGhost(c.space, Apply(c, s, m).mem, h.g, cur, Bucket(c.space, k), m.t))
       case WRetire(_, cur) => h.(g := h.g.(out := h.g.out - {cur}))
       case _ => h)
    else h
  }

  ghost function History(c: Config, sched: seq<Move>): Past
    requires ValidConfig(c)
  {
    if sched == [] then Past(InitGhost(c.space), map[])
    else
      var before := sched[..|sched| - 1];
      StepPast(c, Exec(c, before), History(c, before), sched[|sched| - 1], |sched|)
  }
}
