/** First come, first served, and how far the queue can be overtaken. */
module QSpinFairness {
  import opened QSpinLock
  import opened QSpinHistory
  import opened QSpinInvariant
  import opened QSpinPreserve
  import opened QSpinTheorems

  /** The head holds the locked byte already. */
  predicate HoldsByte(s: State, t: nat) { t < |s.th| && (s.th[t].pc.WaitNext? || s.th[t].pc.Handoff?) }

  /** The queued threads that have not acquired yet. */
  function Waiting(s: State, g: Past): seq<nat> {
    if g.q != [] && HoldsByte(s, g.q[0]) then g.q[1..] else g.q
  }

  predicate WillTake(s: State, t: nat) { t < |s.th| && (s.th[t].pc.PendWait? || s.th[t].pc.PendTake?) }

  /** The number of pending waiters that will take the lock rather than undo their bit. */
  function PendingWaiters(s: State, g: Past): nat {
    if g.pend.Some? && WillTake(s, g.pend.value) then 1 else 0
  }

  /** Served in order so far, and the queue has been passed at most once, counting a pending waiter. */
  ghost predicate Fair(log: seq<Event>, waiting: seq<nat>, pending: nat) {
    && Exchanges(log) == Served(log) + waiting
    && (waiting != [] ==> Overtakes(log) + pending <= 1)
  }

  ghost predicate LogInv(s: State, g: Past) {
    Fair(g.log, Waiting(s, g), PendingWaiters(s, g))
  }

  ghost predicate Logs(s: State, h: seq<Past>) {
    forall l :: 0 <= l < |h| ==> LogInv(s, h[l])
  }

  /** One more event at the end of a log. */
  lemma Extend(log: seq<Event>, e: Event)
    ensures Exchanges(log + [e]) == Exchanges(log) + (if e.Exchanged? then [e.t] else [])
    ensures Served(log + [e]) == Served(log) + (if e.Acquired? && e.how.Queued? then [e.t] else [])
    ensures Total(log + [e]) == Total(log) + Weight(e)
    ensures Overtakes(log + [e]) == if e.Exchanged? && |Exchanges(log)| <= |Served(log)| then 0 else Overtakes(log) + Weight(e)
  {
    assert (log + [e])[..|log|] == log;
  }

  // ---- who the head and the pending waiter are ----------------------------

  lemma Places(s: State, h: seq<Past>, l: nat)
    requires Inv(s, h) && l < |h|
    ensures var g := h[l];
            && (g.q != [] ==> g.q[0] < |s.th| && Queues(s.th[g.q[0]].pc, l))
            && (g.pend.Some? ==> g.pend.value < |s.th| && Pends(s.th[g.pend.value].pc, l))
  {
    assert LockInv(s, h[l], l);
  }

  /** A head that does not move keeps its place before the others. */
  lemma HeadStays(s: State, m: Move, g: Past, g': Past)
    requires Enabled(s, m) && g'.q == g.q && (g.q != [] ==> g.q[0] < |s.th| && g.q[0] != m.t)
    ensures Waiting(Step(s, m), g') == Waiting(s, g)
  {
    if g.q != [] { OthersStay(s, m, g.q[0]); }
  }

  lemma PendingStays(s: State, m: Move, g: Past, g': Past)
    requires Enabled(s, m) && g'.pend == g.pend && (g.pend.Some? ==> g.pend.value < |s.th| && g.pend.value != m.t)
    ensures PendingWaiters(Step(s, m), g') == PendingWaiters(s, g)
  {
    if g.pend.Some? { OthersStay(s, m, g.pend.value); }
  }

  // ---- moves on other locks, and moves that log nothing -------------------

  lemma OtherShape(s: State, h: seq<Past>, m: Move, l: nat)
    requires |h| == |s.words| && Enabled(s, m) && l < |h| && l != LockOf(s, m)
    ensures StepPast(s, h, m)[l] == h[l]
  {
  }

  /** Locks other than the one a move is about keep their logs, queues and pending waiters. */
  lemma OtherLogs(s: State, h: seq<Past>, m: Move, l: nat)
    requires Inv(s, h) && Enabled(s, m) && l < |h| && l != LockOf(s, m) && LogInv(s, h[l])
    ensures LogInv(Step(s, m), StepPast(s, h, m)[l])
  {
    OtherShape(s, h, m, l);
    Places(s, h, l);
    Elsewhere(s, m, l);
    HeadStays(s, m, h[l], h[l]);
    PendingStays(s, m, h[l], h[l]);
  }

  /** Whoever moves on another lock is neither in this one's queue nor its pending waiter. */
  lemma Elsewhere(s: State, m: Move, l: nat)
    requires Enabled(s, m) && l != LockOf(s, m)
    ensures !Queues(s.th[m.t].pc, l) && !Pends(s.th[m.t].pc, l)
  {
  }

  /** Moves that write nothing into the log and leave queue and pending owner as they were. */
  predicate Quiet(s: State, m: Move)
    requires Enabled(s, m)
  {
    m.act.Run? ==>
      var pc, w := s.th[m.t].pc, s.words[s.th[m.t].pc.l];
      && !(Cas(pc) && w == FREE) && !(pc.PendOr? && !w.pending) && !pc.PendUndo? && !pc.PendTake? && !pc.TailXchg?
      && !(pc.HeadCas? && w == Word(false, false, s.th[m.t].tail)) && !pc.HeadByte? && !pc.Handoff?
  }

  /** A quiet move neither starts nor stops holding the byte at the head, nor a pending wait. */
  lemma QuietStay(s: State, m: Move, u: nat)
    requires Enabled(s, m) && Quiet(s, m) && u < |s.th|
    ensures HoldsByte(Step(s, m), u) == HoldsByte(s, u) && WillTake(Step(s, m), u) == WillTake(s, u)
  {
    if u != m.t { OthersStay(s, m, u); }
  }

  lemma QuietShape(s: State, h: seq<Past>, m: Move, l: nat)
    requires |h| == |s.words| && Enabled(s, m) && l == LockOf(s, m) < |h| && Quiet(s, m)
    ensures var g, g' := h[l], StepPast(s, h, m)[l]; g'.q == g.q && g'.pend == g.pend && g'.log == g.log
  {
  }

  lemma QuietLog(s: State, h: seq<Past>, m: Move, l: nat)
    requires Inv(s, h) && Enabled(s, m) && l == LockOf(s, m) < |h| && LogInv(s, h[l]) && Quiet(s, m)
    ensures LogInv(Step(s, m), StepPast(s, h, m)[l])
  {
    var g := h[l];
    QuietShape(s, h, m, l);
    Places(s, h, l);
    if g.q != [] { QuietStay(s, m, g.q[0]); }
    if g.pend.Some? { QuietStay(s, m, g.pend.value); }
  }

  // ---- logs, as sequences -------------------------------------------------

  lemma FairEmpty(log: seq<Event>, log': seq<Event>, p: nat, p': nat)
    requires Fair(log, [], p) && Exchanges(log') == Exchanges(log) && Served(log') == Served(log)
    ensures Fair(log', [], p')
  {
  }

  lemma FairLess(log: seq<Event>, w: seq<nat>, p: nat, p': nat)
    requires Fair(log, w, p) && p' <= p
    ensures Fair(log, w, p')
  {
  }

  lemma FairTake(log: seq<Event>, w: seq<nat>, t: nat)
    requires Fair(log, w, 1)
    ensures Fair(log + [Acquired(t, Waited)], w, 0)
  {
    Extend(log, Acquired(t, Waited));
  }

  lemma FairPush(log: seq<Event>, w: seq<nat>, p: nat, t: nat)
    requires Fair(log, w, p) && p <= 1
    ensures Fair(log + [Exchanged(t)], w + [t], p)
  {
    Extend(log, Exchanged(t));
  }

  lemma FairServe(log: seq<Event>, w: seq<nat>, p: nat, t: nat)
    requires Fair(log, [t] + w, p)
    ensures Fair(log + [Acquired(t, Queued)], w, p)
  {
    Extend(log, Acquired(t, Queued));
    assert Served(log) + ([t] + w) == Served(log) + [t] + w;
  }

  // ---- the moves that log something ---------------------------------------

  lemma EmptyShape(s: State, h: seq<Past>, t: nat, l: nat)
    requires Enabled(s, Move(t, Run)) && |h| == |s.words| && l == s.th[t].pc.l
    requires (Cas(s.th[t].pc) && s.words[l] == FREE) || (s.th[t].pc.PendOr? && !s.words[l].pending)
    ensures var g, g' := h[l], StepPast(s, h, Move(t, Run))[l];
            g'.q == g.q && (g'.log == g.log || g'.log == g.log + [Acquired(t, Fast)])
  {
  }

  /** Fast path and a fetch_or that yields a pending waiter happen on an empty queue only. */
  lemma EmptyQueueLog(s: State, h: seq<Past>, t: nat, l: nat)
    requires Ready(s, h, t) && l == s.th[t].pc.l && LogInv(s, h[l]) && s.words[l].tail == 0
    requires (Cas(s.th[t].pc) && s.words[l] == FREE) || (s.th[t].pc.PendOr? && !s.words[l].pending)
    ensures LogInv(Access(s, t), StepPast(s, h, Move(t, Run))[l])
  {
    var g, g' := h[l], StepPast(s, h, Move(t, Run))[l];
    if g.q != [] { BusyTail(s, h, l); }
    EmptyShape(s, h, t, l);
    Extend(g.log, Acquired(t, Fast));
    FairEmpty(g.log, g'.log, PendingWaiters(s, g), PendingWaiters(Access(s, t), g'));
  }

  lemma TransientShape(s: State, h: seq<Past>, t: nat, l: nat)
    requires Enabled(s, Move(t, Run)) && |h| == |s.words| && l == s.th[t].pc.l
    requires s.th[t].pc.PendUndo? || (s.th[t].pc.PendOr? && !s.words[l].pending && s.words[l].tail != 0)
    ensures var g' := StepPast(s, h, Move(t, Run))[l]; g'.q == h[l].q && g'.log == h[l].log && PendingWaiters(Access(s, t), g') == 0
  {
  }

  /** A transient pending bit is not a pending waiter. */
  lemma TransientLog(s: State, h: seq<Past>, t: nat, l: nat)
    requires Ready(s, h, t) && l == s.th[t].pc.l && LogInv(s, h[l])
    requires s.th[t].pc.PendUndo? || (s.th[t].pc.PendOr? && !s.words[l].pending && s.words[l].tail != 0)
    ensures LogInv(Access(s, t), StepPast(s, h, Move(t, Run))[l])
  {
    var g, g' := h[l], StepPast(s, h, Move(t, Run))[l];
    TransientShape(s, h, t, l);
    Places(s, h, l);
    HeadStays(s, Move(t, Run), g, g');
    FairLess(g.log, Waiting(s, g), PendingWaiters(s, g), 0);
  }

  lemma PendTakeShape(s: State, h: seq<Past>, t: nat, l: nat)
    requires Enabled(s, Move(t, Run)) && |h| == |s.words| && l == s.th[t].pc.l && s.th[t].pc.PendTake?
    ensures var g' := StepPast(s, h, Move(t, Run))[l];
            g'.q == h[l].q && g'.log == h[l].log + [Acquired(t, Waited)] && PendingWaiters(Access(s, t), g') == 0
  {
  }

  lemma PendTakeLog(s: State, h: seq<Past>, t: nat, l: nat)
    requires Ready(s, h, t) && l == s.th[t].pc.l && LogInv(s, h[l]) && s.th[t].pc.PendTake?
    ensures LogInv(Access(s, t), StepPast(s, h, Move(t, Run))[l])
  {
    var g, g' := h[l], StepPast(s, h, Move(t, Run))[l];
    assert RoleInv(s, h, t) && WillTake(s, t);
    PendTakeShape(s, h, t, l);
    Places(s, h, l);
    HeadStays(s, Move(t, Run), g, g');
    FairTake(g.log, Waiting(s, g), t);
  }

  lemma TailXchgShape(s: State, h: seq<Past>, t: nat, l: nat)
    requires Enabled(s, Move(t, Run)) && |h| == |s.words| && l == s.th[t].pc.l && s.th[t].pc.TailXchg?
    ensures var g, g' := h[l], StepPast(s, h, Move(t, Run))[l];
            && g'.q == g.q + [t] && g'.pend == g.pend && g'.log == g.log + [Exchanged(t)]
            && !HoldsByte(s, t) && !HoldsByte(Access(s, t), t)
  {
  }

  lemma PushWaiting(s: State, t: nat, g: Past, g': Past)
    requires Enabled(s, Move(t, Run)) && g'.q == g.q + [t] && !HoldsByte(Access(s, t), t)
    requires g.q != [] ==> g.q[0] < |s.th| && g.q[0] != t
    ensures Waiting(Access(s, t), g') == Waiting(s, g) + [t]
  {
    if g.q != [] {
      OthersStay(s, Move(t, Run), g.q[0]);
      assert (g.q + [t])[1..] == g.q[1..] + [t];
    }
  }

  lemma TailXchgLog(s: State, h: seq<Past>, t: nat, l: nat)
    requires Ready(s, h, t) && l == s.th[t].pc.l && LogInv(s, h[l]) && s.th[t].pc.TailXchg?
    ensures LogInv(Access(s, t), StepPast(s, h, Move(t, Run))[l])
  {
    var g, g' := h[l], StepPast(s, h, Move(t, Run))[l];
    TailXchgShape(s, h, t, l);
    Places(s, h, l);
    PushWaiting(s, t, g, g');
    PendingStays(s, Move(t, Run), g, g');
    FairPush(g.log, Waiting(s, g), PendingWaiters(s, g), t);
  }

  lemma HeadTakesShape(s: State, h: seq<Past>, t: nat, l: nat)
    requires Enabled(s, Move(t, Run)) && |h| == |s.words| && l == s.th[t].pc.l
    requires s.th[t].pc.HeadByte? || (s.th[t].pc.HeadCas? && s.words[l] == Word(false, false, s.th[t].tail))
    ensures var g, g' := h[l], StepPast(s, h, Move(t, Run))[l];
            && g'.pend == g.pend && g'.log == g.log + [Acquired(t, Queued)] && !HoldsByte(s, t)
            && (if s.th[t].pc.HeadByte? then g'.q == g.q && HoldsByte(Access(s, t), t) else g'.q == [])
  {
  }

  /** The head takes the lock from the front of the queue. */
  lemma ServeWaiting(s: State, h: seq<Past>, t: nat, l: nat)
    requires Ready(s, h, t) && l == s.th[t].pc.l
    requires s.th[t].pc.HeadByte? || (s.th[t].pc.HeadCas? && s.words[l] == Word(false, false, s.th[t].tail))
    ensures Waiting(s, h[l]) == [t] + Waiting(Access(s, t), StepPast(s, h, Move(t, Run))[l])
  {
    HeadTakesShape(s, h, t, l);
    assert RoleInv(s, h, t);
    LoneHead(s, h, t, l);
    assert h[l].q == [t] + h[l].q[1..];
  }

  lemma HeadTakesLog(s: State, h: seq<Past>, t: nat, l: nat)
    requires Ready(s, h, t) && l == s.th[t].pc.l && LogInv(s, h[l])
    requires s.th[t].pc.HeadByte? || (s.th[t].pc.HeadCas? && s.words[l] == Word(false, false, s.th[t].tail))
    ensures LogInv(Access(s, t), StepPast(s, h, Move(t, Run))[l])
  {
    var g, g' := h[l], StepPast(s, h, Move(t, Run))[l];
    HeadTakesShape(s, h, t, l);
    ServeWaiting(s, h, t, l);
    Places(s, h, l);
    PendingStays(s, Move(t, Run), g, g');
    FairServe(g.log, Waiting(Access(s, t), g'), PendingWaiters(s, g), t);
  }

  lemma HandoffRecord(s: State, h: seq<Past>, t: nat, l: nat)
    requires Enabled(s, Move(t, Run)) && |h| == |s.words| && l == s.th[t].pc.l && s.th[t].pc.Handoff? && h[l].q != []
    ensures var g, g' := h[l], StepPast(s, h, Move(t, Run))[l]; g'.q == g.q[1..] && g'.pend == g.pend && g'.log == g.log
  {
  }

  /** The next head has not taken the lock yet. */
  lemma HandoffWaiting(s: State, h: seq<Past>, t: nat, l: nat)
    requires Ready(s, h, t) && l == s.th[t].pc.l && s.th[t].pc.Handoff?
    ensures Waiting(Access(s, t), StepPast(s, h, Move(t, Run))[l]) == Waiting(s, h[l])
  {
    var q := h[l].q;
    assert RoleInv(s, h, t) && LockInv(s, h[l], l);
    assert s.th[q[1]].pc == WaitNode(l) && q[1] != t;
    HandoffRecord(s, h, t, l);
    OthersStay(s, Move(t, Run), q[1]);
  }

  lemma HandoffLog(s: State, h: seq<Past>, t: nat, l: nat)
    requires Ready(s, h, t) && l == s.th[t].pc.l && LogInv(s, h[l]) && s.th[t].pc.Handoff?
    ensures LogInv(Access(s, t), StepPast(s, h, Move(t, Run))[l])
  {
    assert RoleInv(s, h, t);
    HandoffRecord(s, h, t, l);
    HandoffWaiting(s, h, t, l);
    Places(s, h, l);
    PendingStays(s, Move(t, Run), h[l], StepPast(s, h, Move(t, Run))[l]);
  }

  lemma LogKept(s: State, h: seq<Past>, m: Move, l: nat)
    requires Inv(s, h) && Enabled(s, m) && l == LockOf(s, m) < |h| && LogInv(s, h[l])
    ensures LogInv(Step(s, m), StepPast(s, h, m)[l])
  {
    if Quiet(s, m) { QuietLog(s, h, m, l); }
    else {
      var pc := s.th[m.t].pc;
      if pc.PendTake? { PendTakeLog(s, h, m.t, l); }
      else if pc.TailXchg? { TailXchgLog(s, h, m.t, l); }
      else if pc.HeadByte? || pc.HeadCas? { HeadTakesLog(s, h, m.t, l); }
      else if pc.Handoff? { HandoffLog(s, h, m.t, l); }
      else if pc.PendUndo? || s.words[l].tail != 0 { TransientLog(s, h, m.t, l); }
      else { EmptyQueueLog(s, h, m.t, l); }
    }
  }

  lemma {:induction false} LogInvariant(threads: nat, locks: nat, sched: seq<Move>)
    ensures Logs(Exec(threads, locks, sched), History(threads, locks, sched))
  {
    if sched != [] {
      var before, m := sched[..|sched| - 1], sched[|sched| - 1];
      LogInvariant(threads, locks, before);
      Invariant(threads, locks, before);
      var s, h := Exec(threads, locks, before), History(threads, locks, before);
      if Enabled(s, m) {
        assert m.act.Run? ==> RoleInv(s, h, m.t);
        forall l | 0 <= l < |h| ensures LogInv(Step(s, m), StepPast(s, h, m)[l]) {
          if l == LockOf(s, m) { LogKept(s, h, m, l); } else { OtherLogs(s, h, m, l); }
        }
      }
    }
  }

  // ---- the theorems -------------------------------------------------------

  /** Queued threads acquire in the order of their tail exchanges, and nobody is skipped. */
  lemma Fifo(threads: nat, locks: nat, sched: seq<Move>, l: nat)
    requires l < locks
    ensures var log := History(threads, locks, sched)[l].log; Served(log) <= Exchanges(log)
  {
    LogInvariant(threads, locks, sched);
    assert LogInv(Exec(threads, locks, sched), History(threads, locks, sched)[l]);
  }

  lemma {:induction false} Grows(a: seq<Event>, b: seq<Event>)
    ensures Exchanges(a) <= Exchanges(a + b) && Served(a) <= Served(a + b)
  {
    if b == [] {
      assert a + b == a;
    } else {
      var c, e := b[..|b| - 1], b[|b| - 1];
      Grows(a, c);
      Extend(a + c, e);
      assert a + b == a + c + [e];
    }
  }

  /** As long as someone keeps waiting, every overtaking is counted. */
  lemma {:induction false} Counted(a: seq<Event>, b: seq<Event>)
    requires |Served(a + b)| < |Exchanges(a)|
    ensures Total(b) <= Overtakes(a + b)
  {
    if b != [] {
      var c, e := b[..|b| - 1], b[|b| - 1];
      assert a + b == a + c + [e] && b == c + [e];
      Extend(a + c, e);
      Extend(c, e);
      Grows(a, c);
      Counted(a, c);
    }
  }

  /**
   Bounded bypass.  Take any moment after thread t exchanged the tail and before it is
   served: at most one acquisition since then was through the pending byte, none was on
   the fast path, and everyone served from the queue so far had exchanged before t.
   */
  lemma BoundedBypass(threads: nat, locks: nat, sched: seq<Move>, l: nat, a: seq<Event>, t: nat, b: seq<Event>)
    requires l < locks && History(threads, locks, sched)[l].log == a + [Exchanged(t)] + b
    requires |Served(a + [Exchanged(t)] + b)| <= |Exchanges(a)|
    ensures Total(b) <= 1
    ensures Served(a + [Exchanged(t)] + b) <= Exchanges(a)
  {
    LogInvariant(threads, locks, sched);
    Bypass(Exec(threads, locks, sched), History(threads, locks, sched)[l], a, t, b);
  }

  lemma Bypass(s: State, g: Past, a: seq<Event>, t: nat, b: seq<Event>)
    requires LogInv(s, g) && g.log == a + [Exchanged(t)] + b && |Served(g.log)| <= |Exchanges(a)|
    ensures Total(b) <= 1 && Served(g.log) <= Exchanges(a)
  {
    var x := a + [Exchanged(t)];
    Extend(a, Exchanged(t));
    Grows(x, b);
    Counted(x, b);
    assert forall i :: 0 <= i < |Served(g.log)| ==> Served(g.log)[i] == Exchanges(g.log)[i];
    assert forall i :: 0 <= i < |Exchanges(a)| ==> Exchanges(a)[i] == Exchanges(g.log)[i];
  }
}
