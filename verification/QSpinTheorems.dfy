/** What the invariant means for every schedule of the queued spinlock. */
module QSpinTheorems {
  import opened Basics
  import opened QSpinLock
  import opened QSpinHistory
  import opened QSpinInvariant
  import opened QSpinPreserve

  /** At most one thread is between its acquisition of a lock and its unlock; no null node is followed. */
  lemma MutualExclusion(threads: nat, locks: nat, sched: seq<Move>, l: nat, t: nat, u: nat)
    requires t < threads && u < threads && l < locks
    ensures |Exec(threads, locks, sched).th| == threads && |Exec(threads, locks, sched).words| == locks
    ensures var s := Exec(threads, locks, sched);
            && !s.fault
            && (Owns(s.th[t], l) && Owns(s.th[u], l) ==> t == u)
            && (s.words[l].locked <==> exists o :: 0 <= o < threads && Owns(s.th[o], l))
  {
    var s, h := Exec(threads, locks, sched), History(threads, locks, sched);
    Invariant(threads, locks, sched);
    assert RoleInv(s, h, t) && RoleInv(s, h, u) && LockInv(s, h[l], l);
    forall o | 0 <= o < threads && Owns(s.th[o], l) ensures s.words[l].locked {
      assert RoleInv(s, h, o);
    }
  }

  /** The node of thread t that an access of another thread is about to touch, or a pointer to it that it keeps. */
  predicate RefersTo(pc: Pc, t: nat) {
    KnownNext(pc) == Some(t) || (pc.LinkPrev? && pc.prev == t)
  }

  /**
   One node per thread suffices: whoever refers to a thread's node finds that thread
   still queued on the same lock, hence not re-initialising the node for another wait.
   */
  lemma NodePrivacy(threads: nat, locks: nat, sched: seq<Move>, t: nat, u: nat)
    requires t < threads && u < threads && |Exec(threads, locks, sched).th| == threads
    requires RefersTo(Exec(threads, locks, sched).th[u].pc, t)
    ensures var s := Exec(threads, locks, sched);
            u != t && Queues(s.th[t].pc, s.th[u].pc.l) && (s.th[u].pc.LinkPrev? ==> s.th[t].node.next == None)
  {
    var s, h := Exec(threads, locks, sched), History(threads, locks, sched);
    Invariant(threads, locks, sched);
    assert RoleInv(s, h, u);
    var l := s.th[u].pc.l;
    assert LockInv(s, h[l], l);
    if s.th[u].pc.LinkPrev? {
      var i := Place(s, h, u, l);
      assert s.th[h[l].q[i - 1]].node.next == NextOf(s, h[l].q[i], l);
    }
  }

  /** A tail in a lock word fits its 16 bits and names, through the node table, a thread queued on that lock. */
  lemma TailNamesWaiter(threads: nat, locks: nat, sched: seq<Move>, l: nat)
    requires l < locks
    ensures |Exec(threads, locks, sched).words| == locks
    ensures var s := Exec(threads, locks, sched);
            var tail := s.words[l].tail;
            && tail <= MAX_NODES
            && (tail != 0 ==> tail - 1 in s.tab && s.tab[tail - 1] < |s.th| && Queues(s.th[s.tab[tail - 1]].pc, l))
  {
    var s, h := Exec(threads, locks, sched), History(threads, locks, sched);
    Invariant(threads, locks, sched);
    assert LockInv(s, h[l], l);
    var q := h[l].q;
    if q != [] {
      assert RegInv(s, q[|q| - 1]);
    }
  }

  // ---- waiting ends -------------------------------------------------------

  /** Accesses a thread still makes before it has stored its predecessor's next. */
  function Remaining(pc: Pc): nat {
    match pc
    case PendUndo(_) => 10
    case RegCount(_) => 9
    case RegStore(_, _) => 8
    case InitLocked(_) => 7
    case InitNext(_) => 6
    case QTryLoad(_) => 5
    case QTryCas(_) => 4
    case TailXchg(_) => 3
    case LoadPrev(_, _) => 2
    case LinkPrev(_, _) => 1
    case Aborting(_) => 3
    case _ => 0
  }

  /** Thread u will end the wait of the head of queue q for its next pointer. */
  predicate Rescuer(s: State, q: seq<nat>, l: nat, u: nat) {
    u < |s.th| && if |q| >= 2 then q[1] == u && (s.th[u].pc.LoadPrev? || s.th[u].pc.LinkPrev?)
                  else Committed(s.th[u].pc, l)
  }

  /** Head t holds the locked byte and waits for a follower. */
  predicate Stranded(s: State, t: nat, l: nat) {
    t < |s.th| && s.th[t].pc == WaitNext(l) && s.th[t].node.next == None
  }

  /** A head that took the locked byte alone always has a thread bound to link behind it. */
  lemma NoStrandedHead(threads: nat, locks: nat, sched: seq<Move>, t: nat, l: nat) returns (u: nat)
    requires l < locks && Stranded(Exec(threads, locks, sched), t, l)
    ensures u != t && Rescuer(Exec(threads, locks, sched), History(threads, locks, sched)[l].q, l, u)
    ensures 1 <= Remaining(Exec(threads, locks, sched).th[u].pc) <= 10
  {
    var s, h := Exec(threads, locks, sched), History(threads, locks, sched);
    Invariant(threads, locks, sched);
    u := FindRescuer(s, h, t, l);
  }

  lemma FindRescuer(s: State, h: seq<Past>, t: nat, l: nat) returns (u: nat)
    requires Inv(s, h) && l < |h| && Stranded(s, t, l)
    ensures u != t && Rescuer(s, h[l].q, l, u) && 1 <= Remaining(s.th[u].pc) <= 10
  {
    assert RoleInv(s, h, t) && LockInv(s, h[l], l);
    var q := h[l].q;
    if |q| >= 2 {
      u := q[1];
      assert Follower(s, q[1], q[0], l) && s.th[q[0]].node.next == NextOf(s, q[1], l);
    } else {
      assert Rescued(s, q, l);
      u :| 0 <= u < |s.th| && Committed(s.th[u].pc, l);
    }
  }

  /** Accesses that store into another thread's node. */
  predicate StoresNode(pc: Pc) {
    pc.LinkPrev? || pc.Handoff?
  }

  lemma OthersStayLocal(s: State, t: nat, u: nat)
    requires Enabled(s, Move(t, Run)) && u < |s.th| && t != u && !StoresNode(s.th[t].pc)
    ensures Access(s, t).th[u] == s.th[u]
  {
  }

  lemma OthersStayStore(s: State, t: nat, u: nat)
    requires Enabled(s, Move(t, Run)) && u < |s.th| && t != u && StoresNode(s.th[t].pc)
    ensures Access(s, t).th[u] == s.th[u].(node := Access(s, t).th[u].node)
  {
  }

  /** A thread keeps everything but its node unless it is the one that moves. */
  lemma OthersStay(s: State, m: Move, u: nat)
    requires Enabled(s, m) && u < |s.th| && m.t != u
    ensures Step(s, m).th[u] == s.th[u].(node := Step(s, m).th[u].node)
  {
    if m.act.Run? {
      if StoresNode(s.th[m.t].pc) { OthersStayStore(s, m.t, u); } else { OthersStayLocal(s, m.t, u); }
    }
  }

  /** A committed thread comes strictly nearer to linking itself as long as the tail is busy. */
  lemma CommittedStep(s: State, u: nat, l: nat)
    requires Enabled(s, Move(u, Run)) && Committed(s.th[u].pc, l) && s.words[l].tail != 0
    ensures var s' := Access(s, u);
            s'.aborted || (&& (Committed(s'.th[u].pc, l) || s'.th[u].pc.LoadPrev?)
                           && Remaining(s'.th[u].pc) < Remaining(s.th[u].pc))
  {
  }

  /** While the head waits for its next pointer the queue can only grow. */
  lemma QueueGrows(s: State, h: seq<Past>, t: nat, l: nat, m: Move)
    requires Inv(s, h) && l < |h| && Stranded(s, t, l) && Enabled(s, m)
    ensures var q' := StepPast(s, h, m)[l].q;
            if m.act.Run? && s.th[m.t].pc == TailXchg(l) then q' == h[l].q + [m.t] else q' == h[l].q
  {
    assert RoleInv(s, h, t) && RoleInv(s, h, m.t);
  }

  /**
   Whatever move comes next, the wait is over, the process aborts, or there is again
   a rescuer, no further away than the old one -- and nearer if it was the one to move.
   */
  lemma RescueProgress(threads: nat, locks: nat, sched: seq<Move>, t: nat, l: nat, u: nat, m: Move) returns (v: nat)
    requires l < locks && Stranded(Exec(threads, locks, sched), t, l)
    requires Rescuer(Exec(threads, locks, sched), History(threads, locks, sched)[l].q, l, u)
    requires Enabled(Exec(threads, locks, sched), m)
    ensures var s, s' := Exec(threads, locks, sched), Exec(threads, locks, sched + [m]);
            s'.aborted || !Stranded(s', t, l)
            || (&& Rescuer(s', History(threads, locks, sched + [m])[l].q, l, v)
                && Remaining(s'.th[v].pc) <= Remaining(s.th[u].pc)
                && (m == Move(u, Run) ==> Remaining(s'.th[v].pc) < Remaining(s.th[u].pc)))
  {
    var s, h := Exec(threads, locks, sched), History(threads, locks, sched);
    Invariant(threads, locks, sched);
    assert (sched + [m])[..|sched|] == sched;
    v := RescueStep(s, h, t, l, u, m);
  }

  /** The rescuer itself moves: it comes nearer, or it links and ends the wait. */
  lemma RescuerStep(s: State, h: seq<Past>, t: nat, l: nat, u: nat)
    requires Inv(s, h) && l < |h| && Stranded(s, t, l) && Rescuer(s, h[l].q, l, u) && Enabled(s, Move(u, Run))
    ensures var s' := Access(s, u);
            s'.aborted || !Stranded(s', t, l)
            || (&& Rescuer(s', StepPast(s, h, Move(u, Run))[l].q, l, u)
                && Remaining(s'.th[u].pc) < Remaining(s.th[u].pc))
  {
    var q := h[l].q;
    assert RoleInv(s, h, t);
    BusyTail(s, h, l);
    QueueGrows(s, h, t, l, Move(u, Run));
    if |q| < 2 {
      CommittedStep(s, u, l);
    } else {
      assert LockInv(s, h[l], l);
      var i := Place(s, h, u, l);
      assert i == 1;
    }
  }

  /** Someone else moves: the rescuer stays, or the mover overtakes it at the tail. */
  lemma BystanderStep(s: State, h: seq<Past>, t: nat, l: nat, u: nat, m: Move) returns (v: nat)
    requires Inv(s, h) && l < |h| && Stranded(s, t, l) && Rescuer(s, h[l].q, l, u) && Enabled(s, m) && m.t != u
    ensures Rescuer(Step(s, m), StepPast(s, h, m)[l].q, l, v)
    ensures Remaining(Step(s, m).th[v].pc) <= Remaining(s.th[u].pc)
  {
    assert RoleInv(s, h, t);
    QueueGrows(s, h, t, l, m);
    OthersStay(s, m, u);
    v := u;
    if |h[l].q| < 2 && m.act.Run? && s.th[m.t].pc == TailXchg(l) {
      BusyTail(s, h, l);
      v := m.t;
    }
  }

  lemma RescueStep(s: State, h: seq<Past>, t: nat, l: nat, u: nat, m: Move) returns (v: nat)
    requires Inv(s, h) && l < |h| && Stranded(s, t, l) && Rescuer(s, h[l].q, l, u) && Enabled(s, m)
    ensures var s' := Step(s, m);
            s'.aborted || !Stranded(s', t, l)
            || (&& Rescuer(s', StepPast(s, h, m)[l].q, l, v)
                && Remaining(s'.th[v].pc) <= Remaining(s.th[u].pc)
                && (m == Move(u, Run) ==> Remaining(s'.th[v].pc) < Remaining(s.th[u].pc)))
  {
    if m.t == u {
      v := u;
      RescuerStep(s, h, t, l, u);
    } else {
      v := BystanderStep(s, h, t, l, u, m);
    }
  }

  /** Thread t's next access would leave everything as it is. */
  predicate Spins(s: State, t: nat)
    requires t < |s.th|
  {
    s.th[t].pc.Idle? || s.th[t].pc.l >= |s.words| || s.aborted || s.fault || Access(s, t) == s
  }

  /**
   No lock-up: while someone is inside an operation on lock l, a user holds l or
   some thread's next access on l changes the state.
   */
  lemma NoLockup(threads: nat, locks: nat, sched: seq<Move>, t: nat) returns (o: nat)
    requires t < threads && |Exec(threads, locks, sched).th| == threads
    requires !Exec(threads, locks, sched).th[t].pc.Idle? && !Exec(threads, locks, sched).aborted
    ensures var s := Exec(threads, locks, sched);
            var l := s.th[t].pc.l;
            o < threads && (l in s.th[o].held || (!Spins(s, o) && s.th[o].pc.l == l))
  {
    var s, h := Exec(threads, locks, sched), History(threads, locks, sched);
    Invariant(threads, locks, sched);
    assert RoleInv(s, h, t);
    var l := s.th[t].pc.l;
    if s.words[l].locked {
      o := LockedMover(s, h, l);
    } else if s.words[l].pending {
      assert LockInv(s, h[l], l);
      o := h[l].pend.value;
    } else {
      o := FreeMover(s, h, t, l);
    }
  }

  /** A locked byte belongs to a user, or to a head that hands over or is rescued. */
  lemma LockedMover(s: State, h: seq<Past>, l: nat) returns (o: nat)
    requires Inv(s, h) && l < |h| && s.words[l].locked && !s.aborted
    ensures o < |s.th| && (l in s.th[o].held || (!Spins(s, o) && s.th[o].pc.l == l))
  {
    assert LockInv(s, h[l], l);
    o := h[l].own.value;
    assert RoleInv(s, h, o);
    if l !in s.th[o].held && s.th[o].pc.WaitNext? && s.th[o].node.next == None {
      o := FindRescuer(s, h, o, l);
      RescuerMoves(s, h, l, o);
    }
  }

  lemma RescuerMoves(s: State, h: seq<Past>, l: nat, o: nat)
    requires Inv(s, h) && l < |h| && !s.aborted && h[l].q != [] && Rescuer(s, h[l].q, l, o)
    ensures !Spins(s, o) && s.th[o].pc.l == l
  {
    BusyTail(s, h, l);
    assert LockInv(s, h[l], l);
    if |h[l].q| >= 2 {
      var i := Place(s, h, o, l);
    } else {
      CommittedStep(s, o, l);
    }
  }

  /** With the word neither locked nor pending, someone on the lock can move. */
  lemma FreeMover(s: State, h: seq<Past>, t: nat, l: nat) returns (o: nat)
    requires Inv(s, h) && t < |s.th| && !s.th[t].pc.Idle? && s.th[t].pc.l == l && l < |h| && !s.aborted
    requires !s.words[l].locked && !s.words[l].pending
    ensures o < |s.th| && !Spins(s, o) && s.th[o].pc.l == l
  {
    assert RoleInv(s, h, t) && LockInv(s, h[l], l);
    o := t;
    if Queues(s.th[t].pc, l) {
      o := h[l].q[0];
      assert RoleInv(s, h, o);
    }
  }
}
