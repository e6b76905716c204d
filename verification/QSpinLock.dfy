/**
 The queued spinlock of experiments/dcache/dcache_qspinlock.h as a state machine:
 any number of threads, any number of locks, one atomic load, store or
 read-modify-write per step, sequentially consistent.

 A thread may hold several locks and waits for at most one.  Every thread has one
 queue node, shared by all its waits.
 */
module QSpinLock {
  import opened Basics

  const MAX_NODES := 65535
  const PENDING_LOOPS := 512

  /** The 32-bit lock word by its fields; `LockWord` ties this to the bit tests. */
  datatype Word = Word(locked: bool, pending: bool, tail: nat)

  const FREE := Word(false, false, 0)
  const PENDING := Word(false, true, 0)

  datatype Node = Node(next: Option<nat>, locked: bool)

  /** The next shared access of a thread; `l` is the lock it is working on. */
  datatype Pc =
    | Idle
    | LockCas(l: nat)                       // dc_qspin_lock: the fast-path cmpxchg
    | TryLoad(l: nat) | TryCas(l: nat)      // dc_qspin_trylock called by a user
    | PendSpin(l: nat, cnt: nat)            // load in the bounded hand-over wait
    | PendOr(l: nat)                        // fetch_or of the pending bit
    | PendUndo(l: nat)                      // store pending = 0
    | PendWait(l: nat)                      // load of the locked byte
    | PendTake(l: nat)                      // store locked_pending = 1
    | RegCount(l: nat)                      // dc_qnode_register: fetch_add
    | RegStore(l: nat, idx: nat)            // dc_qnode_register: publish the node
    | Aborting(l: nat)                      // too many queueing threads
    | InitLocked(l: nat) | InitNext(l: nat)
    | QTryLoad(l: nat) | QTryCas(l: nat)    // the trylock after node set-up
    | TailXchg(l: nat)
    | LoadPrev(l: nat, pred: nat)           // load dc_qnode_tab[pred - 1]
    | LinkPrev(l: nat, prev: nat)           // store prev->next
    | WaitNode(l: nat)                      // load node->locked
    | LoadNext(l: nat)                      // load node->next once headed
    | HeadWait(l: nat, next: Option<nat>)   // load of the word by the queue head
    | HeadCas(l: nat, next: Option<nat>)    // n,0,0 -> 0,0,1
    | HeadByte(l: nat, next: Option<nat>)   // store locked = 1
    | WaitNext(l: nat)                      // load node->next
    | Handoff(l: nat, succ: nat)            // store next->locked = 1

  /** `tail` is the thread's encoded node index, 0 while it is not registered. */
  datatype Thread = Thread(pc: Pc, held: set<nat>, tail: nat, node: Node)

  /** `fault` records a null dereference; `aborted` a call of abort(). */
  datatype State = State(words: seq<Word>, th: seq<Thread>, tab: map<nat, nat>,
                         count: nat, aborted: bool, fault: bool)

  /** What a scheduler may ask of thread `t`: start an operation, or run one access. */
  datatype Act = Lock(l: nat) | Trylock(l: nat) | Unlock(l: nat) | Run
  datatype Move = Move(t: nat, act: Act)

  function Init(threads: nat, locks: nat): State {
    State(seq(locks, i => FREE), seq(threads, i => Thread(Idle, {}, 0, Node(None, false))),
          map[], 0, false, false)
  }

  /** A user releases only what it holds; nothing else is asked of it. */
  predicate Enabled(s: State, m: Move) {
    && !s.aborted && !s.fault && m.t < |s.th|
    && match m.act
       case Lock(l) => s.th[m.t].pc.Idle? && l < |s.words|
       case Trylock(l) => s.th[m.t].pc.Idle? && l < |s.words|
       case Unlock(l) => s.th[m.t].pc.Idle? && l < |s.words| && l in s.th[m.t].held
       case Run => !s.th[m.t].pc.Idle? && s.th[m.t].pc.l < |s.words|
  }

  function Goto(s: State, t: nat, pc: Pc): State
    requires t < |s.th|
  {
    s.(th := s.th[t := s.th[t].(pc := pc)])
  }

  function SetWord(s: State, l: nat, w: Word): State
    requires l < |s.words|
  {
    s.(words := s.words[l := w])
  }

  /** The call returns to its user with the lock held. */
  function Return(s: State, t: nat, l: nat): State
    requires t < |s.th|
  {
    s.(th := s.th[t := s.th[t].(pc := Idle, held := s.th[t].held + {l})])
  }

  /** `queue:` -- register the node first if this thread never queued. */
  function Queue(s: State, t: nat, l: nat): State
    requires t < |s.th|
  {
    Goto(s, t, if s.th[t].tail != 0 then InitLocked(l) else RegCount(l))
  }

  /** Any contention beyond an owner queues; otherwise try to become pending. */
  function Contend(s: State, t: nat, l: nat, val: Word): State
    requires t < |s.th|
  {
    if val.pending || val.tail != 0 then Queue(s, t, l) else Goto(s, t, PendOr(l))
  }

  function Apply(s: State, m: Move): (r: State)
    requires Enabled(s, m)
    ensures |r.th| == |s.th| && |r.words| == |s.words|
  {
    match m.act
    case Lock(l) => Goto(s, m.t, LockCas(l))
    case Trylock(l) => Goto(s, m.t, TryLoad(l))
    case Unlock(l) =>
      SetWord(s, l, s.words[l].(locked := false)).(
        th := s.th[m.t := s.th[m.t].(held := s.th[m.t].held - {l})])
    case Run => Access(s, m.t)
  }

  /** One access of thread `t` and the thread-local code up to the next one. */
  function Access(s: State, t: nat): (r: State)
    requires Enabled(s, Move(t, Run))
    ensures |r.th| == |s.th| && |r.words| == |s.words|
  {
    var me := s.th[t];
    var l := me.pc.l;
    var w := s.words[l];
    match me.pc
    case LockCas(_) =>
      if w == FREE then Return(SetWord(s, l, w.(locked := true)), t, l)
      else if w == PENDING then Goto(s, t, PendSpin(l, PENDING_LOOPS))
      else Contend(s, t, l, w)
    case TryLoad(_) => Goto(s, t, if w == FREE then TryCas(l) else Idle)
    case TryCas(_) =>
      if w == FREE then Return(SetWord(s, l, w.(locked := true)), t, l) else Goto(s, t, Idle)
    case PendSpin(_, cnt) =>
      if w == PENDING && cnt != 0 then Goto(s, t, PendSpin(l, cnt - 1)) else Contend(s, t, l, w)
    case PendOr(_) =>
      var s1 := SetWord(s, l, w.(pending := true));
      if w.pending || w.tail != 0 then
        if !w.pending then Goto(s1, t, PendUndo(l)) else Queue(s1, t, l)
      else Goto(s1, t, if w.locked then PendWait(l) else PendTake(l))
    case PendUndo(_) => Queue(SetWord(s, l, w.(pending := false)), t, l)
    case PendWait(_) => if w.locked then s else Goto(s, t, PendTake(l))
    case PendTake(_) => Return(SetWord(s, l, w.(locked := true, pending := false)), t, l)
    case RegCount(_) =>
      Goto(s.(count := s.count + 1), t, if s.count >= MAX_NODES then Aborting(l) else RegStore(l, s.count))
    case RegStore(_, idx) =>
      Goto(s.(tab := s.tab[idx := t], th := s.th[t := me.(tail := idx + 1)]), t, InitLocked(l))
    case Aborting(_) => s.(aborted := true)
    case InitLocked(_) => Goto(s.(th := s.th[t := me.(node := me.node.(locked := false))]), t, InitNext(l))
    case InitNext(_) => Goto(s.(th := s.th[t := me.(node := me.node.(next := None))]), t, QTryLoad(l))
    case QTryLoad(_) => Goto(s, t, if w == FREE then QTryCas(l) else TailXchg(l))
    case QTryCas(_) =>
      if w == FREE then Return(SetWord(s, l, w.(locked := true)), t, l) else Goto(s, t, TailXchg(l))
    case TailXchg(_) =>
      Goto(SetWord(s, l, w.(tail := me.tail)), t,
           if w.tail != 0 then LoadPrev(l, w.tail) else HeadWait(l, None))
    case LoadPrev(_, pred) =>
      if pred != 0 && pred - 1 in s.tab then Goto(s, t, LinkPrev(l, s.tab[pred - 1])) else s.(fault := true)
    case LinkPrev(_, prev) =>
      if prev < |s.th| then
        var s1 := s.(th := s.th[prev := s.th[prev].(node := s.th[prev].node.(next := Some(t)))]);
        Goto(s1, t, WaitNode(l))
      else s.(fault := true)
    case WaitNode(_) => if me.node.locked then Goto(s, t, LoadNext(l)) else s
    case LoadNext(_) => Goto(s, t, HeadWait(l, me.node.next))
    case HeadWait(_, next) =>
      if w.locked || w.pending then s
      else Goto(s, t, if w.tail == me.tail then HeadCas(l, next) else HeadByte(l, next))
    case HeadCas(_, next) =>
      if w == Word(false, false, me.tail) then Return(SetWord(s, l, Word(true, false, 0)), t, l)
      else Goto(s, t, HeadByte(l, next))
    case HeadByte(_, next) =>
      Goto(SetWord(s, l, w.(locked := true)), t,
           if next.None? then WaitNext(l) else Handoff(l, next.value))
    case WaitNext(_) => if me.node.next.Some? then Goto(s, t, Handoff(l, me.node.next.value)) else s
    case Handoff(_, succ) =>
      if succ < |s.th| then
        var s1 := s.(th := s.th[succ := s.th[succ].(node := s.th[succ].node.(locked := true))]);
        Return(s1, t, l)
      else s.(fault := true)
  }

  /** A move that is not enabled does nothing. */
  function Step(s: State, m: Move): State {
    if Enabled(s, m) then Apply(s, m) else s
  }

  /** The state after a whole schedule, from free locks and idle threads. */
  function Exec(threads: nat, locks: nat, sched: seq<Move>): State {
    if sched == [] then Init(threads, locks)
    else Step(Exec(threads, locks, sched[..|sched| - 1]), sched[|sched| - 1])
  }

  /** Thread `th` is between its acquisition of `l` and its unlock of it. */
  predicate Owns(th: Thread, l: nat) {
    l in th.held || ((th.pc.WaitNext? || th.pc.Handoff?) && th.pc.l == l)
  }
}
