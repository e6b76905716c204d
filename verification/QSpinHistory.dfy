/**
 History variables of the queued spinlock: who owns the locked byte, who owns the
 pending byte, which threads are in the queue, and what happened so far.  They are
 computed from the run and never read by it.
 */
module QSpinHistory {
  import opened Basics
  import opened QSpinLock

  /** Fast: the word was 0.  Waited: by the pending byte.  Queued: as queue head. */
  datatype How = Fast | Waited | Queued

  datatype Event = Exchanged(t: nat) | Acquired(t: nat, how: How)

  datatype Past = Past(own: Option<nat>, pend: Option<nat>, q: seq<nat>, log: seq<Event>)

  function Past0(locks: nat): seq<Past> {
    seq(locks, i => Past(None, None, [], []))
  }

  function Took(g: Past, t: nat, how: How): Past {
    g.(own := Some(t), log := g.log + [Acquired(t, how)])
  }

  function Record(s: State, g: Past, m: Move): Past
    requires Enabled(s, m)
  {
    match m.act
    case Unlock(_) => g.(own := None)
    case Run =>
      var me := s.th[m.t];
      var w := s.words[me.pc.l];
      (match me.pc
       case LockCas(_) => if w == FREE then Took(g, m.t, Fast) else g
       case TryCas(_) => if w == FREE then Took(g, m.t, Fast) else g
       case QTryCas(_) => if w == FREE then Took(g, m.t, Fast) else g
       case PendOr(_) => if w.pending then g else g.(pend := Some(m.t))
       case PendUndo(_) => g.(pend := None)
       case PendTake(_) => Took(g, m.t, Waited).(pend := None)
       case TailXchg(_) => g.(q := g.q + [m.t], log := g.log + [Exchanged(m.t)])
       case HeadCas(_, _) =>
         if w == Word(false, false, me.tail) then Took(g, m.t, Queued).(q := []) else g
       case HeadByte(_, _) => Took(g, m.t, Queued)
       case Handoff(_, _) => g.(q := if g.q == [] then [] else g.q[1..])
       case _ => g)
    case _ => g
  }

  /** The lock a move is about. */
  function LockOf(s: State, m: Move): nat
    requires Enabled(s, m)
  {
    match m.act
    case Lock(l) => l
    case Trylock(l) => l
    case Unlock(l) => l
    case Run => s.th[m.t].pc.l
  }

  function StepPast(s: State, h: seq<Past>, m: Move): (r: seq<Past>)
    requires |h| == |s.words|
    ensures |r| == |h|
  {
    if Enabled(s, m) then
      var l := LockOf(s, m);
      h[l := Record(s, h[l], m)]
    else h
  }

  /** The history of a whole schedule. */
  function History(threads: nat, locks: nat, sched: seq<Move>): (h: seq<Past>)
    ensures |h| == locks == |Exec(threads, locks, sched).words|
    ensures |Exec(threads, locks, sched).th| == threads
  {
    if sched == [] then Past0(locks)
    else
      var before := sched[..|sched| - 1];
      StepPast(Exec(threads, locks, before), History(threads, locks, before), sched[|sched| - 1])
  }

  /** The threads that exchanged the tail, in order. */
  function Exchanges(log: seq<Event>): seq<nat> {
    if log == [] then []
    else
      var e := log[|log| - 1];
      Exchanges(log[..|log| - 1]) + if e.Exchanged? then [e.t] else []
  }

  /** The threads that acquired as queue head, in order. */
  function Served(log: seq<Event>): seq<nat> {
    if log == [] then []
    else
      var e := log[|log| - 1];
      Served(log[..|log| - 1]) + if e.Acquired? && e.how.Queued? then [e.t] else []
  }

  /** 1 for an acquisition through the pending byte, 2 for one on the fast path. */
  function Weight(e: Event): nat {
    if e.Exchanged? || e.how.Queued? then 0 else if e.how.Waited? then 1 else 2
  }

  function Total(log: seq<Event>): nat {
    if log == [] then 0 else Total(log[..|log| - 1]) + Weight(log[|log| - 1])
  }

  /** Weight of the acquisitions that passed the queue since it was last fully served. */
  function Overtakes(log: seq<Event>): nat {
    if log == [] then 0
    else
      var before := log[..|log| - 1];
      var e := log[|log| - 1];
      if e.Exchanged? && |Exchanges(before)| <= |Served(before)| then 0
      else Overtakes(before) + Weight(e)
  }
}
