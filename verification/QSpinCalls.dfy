/** What calls of the queued spinlock come to: how they return, which way they take, and when the program gives up. */
module QSpinCalls {
  import opened Basics
  import opened QSpinLock
  import opened QSpinHistory
  import opened QSpinInvariant
  import opened QSpinPreserve
  import opened QSpinTheorems

  lemma Then(threads: nat, locks: nat, sched: seq<Move>, m: Move)
    ensures Exec(threads, locks, sched + [m]) == Step(Exec(threads, locks, sched), m)
  {
    assert (sched + [m])[..|sched|] == sched;
  }

  lemma {:induction false} Sizes(threads: nat, locks: nat, sched: seq<Move>)
    ensures |Exec(threads, locks, sched).th| == threads && |Exec(threads, locks, sched).words| == locks
  {
    if sched != [] { Sizes(threads, locks, sched[..|sched| - 1]); }
  }

  // ---- how a call returns -------------------------------------------------

  /** Inside dc_qspin_trylock, as called by a user. */
  predicate Trying(pc: Pc) { pc.TryLoad? || pc.TryCas? }

  /** The accesses before the tail exchange. */
  predicate Early(pc: Pc) {
    pc.LockCas? || pc.TryLoad? || pc.TryCas? || pc.PendSpin? || pc.PendOr? || pc.PendUndo? || pc.PendWait? || pc.PendTake?
  }

  predicate Middle(pc: Pc) {
    pc.RegCount? || pc.RegStore? || pc.Aborting? || pc.InitLocked? || pc.InitNext? || pc.QTryLoad? || pc.QTryCas? || pc.TailXchg?
  }

  /** The call goes on, on the same lock, or it returns with what it promises. */
  predicate Promise(me: Thread, me': Thread, w: Word)
    requires !me.pc.Idle?
  {
    if !me'.pc.Idle? then me'.held == me.held && me'.pc.l == me.pc.l && Trying(me'.pc) == Trying(me.pc)
    else me'.held == me.held + if Trying(me.pc) && w != FREE then {} else {me.pc.l}
  }

  lemma EarlyCall(s: State, t: nat)
    requires Enabled(s, Move(t, Run)) && Early(s.th[t].pc)
    ensures Promise(s.th[t], Access(s, t).th[t], s.words[s.th[t].pc.l])
  {
  }

  lemma MiddleCall(s: State, t: nat)
    requires Enabled(s, Move(t, Run)) && Middle(s.th[t].pc)
    ensures Promise(s.th[t], Access(s, t).th[t], s.words[s.th[t].pc.l])
  {
  }

  lemma LateCall(s: State, t: nat)
    requires Enabled(s, Move(t, Run)) && !Early(s.th[t].pc) && !Middle(s.th[t].pc) && !Access(s, t).fault
    ensures Promise(s.th[t], Access(s, t).th[t], s.words[s.th[t].pc.l])
  {
  }

  lemma AccessCall(s: State, t: nat)
    requires Enabled(s, Move(t, Run)) && !Access(s, t).fault
    ensures Promise(s.th[t], Access(s, t).th[t], s.words[s.th[t].pc.l])
  {
    if Early(s.th[t].pc) { EarlyCall(s, t); } else if Middle(s.th[t].pc) { MiddleCall(s, t); } else { LateCall(s, t); }
  }

  /** While thread t is in a call, its call and what it holds change only by its own accesses. */
  lemma CallStep(threads: nat, locks: nat, sched: seq<Move>, m: Move, t: nat)
    requires t < threads
    ensures |Exec(threads, locks, sched).th| == threads == |Exec(threads, locks, sched + [m]).th|
    ensures |Exec(threads, locks, sched).words| == locks
    ensures var s := Exec(threads, locks, sched);
            var me, me' := s.th[t], Exec(threads, locks, sched + [m]).th[t];
            !me.pc.Idle? ==> me.pc.l < locks && Promise(me, me', s.words[me.pc.l])
  {
    Sizes(threads, locks, sched);
    Sizes(threads, locks, sched + [m]);
    Then(threads, locks, sched, m);
    Invariant(threads, locks, sched);
    Invariant(threads, locks, sched + [m]);
    var s, h := Exec(threads, locks, sched), History(threads, locks, sched);
    assert RoleInv(s, h, t);
    if Enabled(s, m) && !s.th[t].pc.Idle? {
      if m.t == t {
        AccessCall(s, t);
      } else {
        OthersStay(s, m, t);
      }
    }
  }

  /** Thread t has not returned to its user in any of the states after `from`. */
  ghost predicate Inside(threads: nat, locks: nat, from: seq<Move>, ext: seq<Move>, t: nat) {
    forall j :: 0 <= j < |ext| ==> t < |Exec(threads, locks, from + ext[..j]).th| && !Exec(threads, locks, from + ext[..j]).th[t].pc.Idle?
  }

  /** A call that is still running is the call that was started. */
  lemma {:induction false} SameCall(threads: nat, locks: nat, from: seq<Move>, ext: seq<Move>, t: nat)
    requires t < threads && |Exec(threads, locks, from).th| == threads && Inside(threads, locks, from, ext, t)
    requires |Exec(threads, locks, from + ext).th| == threads
    requires !Exec(threads, locks, from).th[t].pc.Idle? && !Exec(threads, locks, from + ext).th[t].pc.Idle?
    ensures var me, me' := Exec(threads, locks, from).th[t], Exec(threads, locks, from + ext).th[t];
            me'.held == me.held && me'.pc.l == me.pc.l && Trying(me'.pc) == Trying(me.pc)
  {
    if ext == [] {
      assert from + ext == from;
    } else {
      var most, m := ext[..|ext| - 1], ext[|ext| - 1];
      assert from + ext == from + most + [m];
      forall j | 0 <= j < |most| ensures most[..j] == ext[..j] { }
      assert Inside(threads, locks, from, most, t);
      CallStep(threads, locks, from + most, m, t);
      SameCall(threads, locks, from, most, t);
    }
  }

  /**
   dc_qspin_lock returns with the lock: take any run in which thread t calls it and, after
   any interleaving, is back with its user for the first time.
   */
  lemma LockReturns(threads: nat, locks: nat, before: seq<Move>, t: nat, l: nat, ext: seq<Move>)
    requires t < threads && |Exec(threads, locks, before).th| == threads && Enabled(Exec(threads, locks, before), Move(t, Lock(l)))
    requires Inside(threads, locks, before + [Move(t, Lock(l))], ext, t)
    ensures var at := before + [Move(t, Lock(l))] + ext;
            && |Exec(threads, locks, at).th| == threads
            && (Exec(threads, locks, at).th[t].pc.Idle? ==>
                  ext != [] && Exec(threads, locks, at).th[t].held == Exec(threads, locks, before).th[t].held + {l})
  {
    var from := before + [Move(t, Lock(l))];
    Then(threads, locks, before, Move(t, Lock(l)));
    Sizes(threads, locks, from);
    Sizes(threads, locks, from + ext);
    if ext == [] {
      assert from + ext == from;
    } else {
      Finishes(threads, locks, from, ext, t);
    }
  }

  /** The last step of a call. */
  lemma Finishes(threads: nat, locks: nat, from: seq<Move>, ext: seq<Move>, t: nat)
    requires t < threads && |Exec(threads, locks, from).th| == threads && |Exec(threads, locks, from + ext).th| == threads
    requires !Exec(threads, locks, from).th[t].pc.Idle? && ext != [] && Inside(threads, locks, from, ext, t)
    ensures |Exec(threads, locks, from + ext[..|ext| - 1]).words| == locks && Exec(threads, locks, from).th[t].pc.l < locks
    ensures var me, me', w := Exec(threads, locks, from).th[t], Exec(threads, locks, from + ext).th[t],
                              Exec(threads, locks, from + ext[..|ext| - 1]).words[Exec(threads, locks, from).th[t].pc.l];
            me'.pc.Idle? ==> me'.held == me.held + (if Trying(me.pc) && w != FREE then {} else {me.pc.l})
  {
    var most, m := ext[..|ext| - 1], ext[|ext| - 1];
    assert from + ext == from + most + [m];
    forall j | 0 <= j < |most| ensures most[..j] == ext[..j] { }
    assert Inside(threads, locks, from, most, t);
    assert !Exec(threads, locks, from + ext[..|ext| - 1]).th[t].pc.Idle?;
    Sizes(threads, locks, from + most);
    SameCall(threads, locks, from, most, t);
    CallStep(threads, locks, from + most, m, t);
  }

  /** dc_qspin_trylock returns with the lock if and only if the word was free at its last access. */
  lemma TrylockReturns(threads: nat, locks: nat, before: seq<Move>, t: nat, l: nat, ext: seq<Move>)
    requires t < threads && |Exec(threads, locks, before).th| == threads && Enabled(Exec(threads, locks, before), Move(t, Trylock(l)))
    requires Inside(threads, locks, before + [Move(t, Trylock(l))], ext, t)
    ensures var from := before + [Move(t, Trylock(l))];
            && |Exec(threads, locks, from + ext).th| == threads
            && (Exec(threads, locks, from + ext).th[t].pc.Idle? ==>
                  && ext != [] && l < |Exec(threads, locks, from + ext[..|ext| - 1]).words|
                  && Exec(threads, locks, from + ext).th[t].held
                     == Exec(threads, locks, before).th[t].held
                        + if Exec(threads, locks, from + ext[..|ext| - 1]).words[l] == FREE then {l} else {})
  {
    var from := before + [Move(t, Trylock(l))];
    Then(threads, locks, before, Move(t, Trylock(l)));
    Sizes(threads, locks, from);
    Sizes(threads, locks, from + ext);
    if ext == [] {
      assert from + ext == from;
    } else {
      Finishes(threads, locks, from, ext, t);
    }
  }

  // ---- which way a call takes ---------------------------------------------

  /**
   The three ways in, by who is there: the fast path if nobody is, the pending byte if
   there is only an owner, the queue if there is more than that.  A lone pending waiter
   that is about to take over is waited for a little.
   */
  lemma WayIn(threads: nat, locks: nat, sched: seq<Move>, t: nat)
    requires var s := Exec(threads, locks, sched); t < |s.th| && Enabled(s, Move(t, Run)) && s.th[t].pc.LockCas?
    ensures var s, s' := Exec(threads, locks, sched), Exec(threads, locks, sched + [Move(t, Run)]);
            var l, pc' := s.th[t].pc.l, s'.th[t].pc;
            && l < |History(threads, locks, sched)|
            && var g := History(threads, locks, sched)[l];
               && (pc'.Idle? <==> g.own.None? && g.pend.None? && g.q == [])
               && (pc'.PendOr? <==> g.own.Some? && g.pend.None? && g.q == [])
               && (pc'.PendSpin? <==> g.own.None? && g.pend.Some? && g.q == [])
               && (Committed(pc', l) <==> g.q != [] || (g.own.Some? && g.pend.Some?))
  {
    Then(threads, locks, sched, Move(t, Run));
    Invariant(threads, locks, sched);
    var s, h := Exec(threads, locks, sched), History(threads, locks, sched);
    var l := s.th[t].pc.l;
    Fields(s, h, l);
  }

  /** The fields of the word say who is there. */
  lemma Fields(s: State, h: seq<Past>, l: nat)
    requires Inv(s, h) && l < |h|
    ensures (s.words[l].locked <==> h[l].own.Some?) && (s.words[l].pending <==> h[l].pend.Some?) && (s.words[l].tail == 0 <==> h[l].q == [])
  {
    assert LockInv(s, h[l], l);
    if h[l].q != [] { BusyTail(s, h, l); }
  }

  lemma OrStep(s: State, t: nat)
    requires Enabled(s, Move(t, Run)) && s.th[t].pc.PendOr?
    ensures var l, pc' := s.th[t].pc.l, Access(s, t).th[t].pc;
            var w := s.words[l];
            && (pc'.PendWait? || pc'.PendTake? <==> !w.pending && w.tail == 0)
            && (Committed(pc', l) <==> w.pending || w.tail != 0) && (pc'.PendWait? ==> w.locked)
  {
  }

  /** The fetch_or makes a pending waiter of a thread if and only if nobody is pending or queued; otherwise it queues. */
  lemma BecomesPending(threads: nat, locks: nat, sched: seq<Move>, t: nat)
    requires var s := Exec(threads, locks, sched); t < |s.th| && Enabled(s, Move(t, Run)) && s.th[t].pc.PendOr?
    ensures var s, s' := Exec(threads, locks, sched), Exec(threads, locks, sched + [Move(t, Run)]);
            var l, pc' := s.th[t].pc.l, s'.th[t].pc;
            && l < |History(threads, locks, sched)|
            && var g := History(threads, locks, sched)[l];
               && (pc'.PendWait? || pc'.PendTake? <==> g.pend.None? && g.q == [])
               && (Committed(pc', l) <==> g.pend.Some? || g.q != [])
               && (pc'.PendWait? ==> g.own.Some?)
  {
    Then(threads, locks, sched, Move(t, Run));
    Invariant(threads, locks, sched);
    var s := Exec(threads, locks, sched);
    OrStep(s, t);
    Fields(s, History(threads, locks, sched), s.th[t].pc.l);
  }

  /** The wait for a hand-over is short, and it ends on its way to the pending byte or to the queue. */
  lemma ShortSpin(threads: nat, locks: nat, sched: seq<Move>, t: nat)
    requires var s := Exec(threads, locks, sched); t < |s.th| && Enabled(s, Move(t, Run)) && s.th[t].pc.PendSpin?
    ensures var s := Exec(threads, locks, sched);
            var pc, pc', l := s.th[t].pc, Exec(threads, locks, sched + [Move(t, Run)]).th[t].pc, s.th[t].pc.l;
            && pc.cnt <= PENDING_LOOPS && l < |s.words|
            && (if pc'.PendSpin? then pc'.cnt < pc.cnt && s.words[l] == PENDING
                else (s.words[l] == PENDING ==> pc.cnt == 0) && (pc'.PendOr? <==> !s.words[l].pending && s.words[l].tail == 0)
                     && (Committed(pc', l) <==> s.words[l].pending || s.words[l].tail != 0))
  {
    Then(threads, locks, sched, Move(t, Run));
    SpinCount(threads, locks, sched, t);
  }

  lemma {:induction false} SpinCount(threads: nat, locks: nat, sched: seq<Move>, t: nat)
    requires var s := Exec(threads, locks, sched); t < |s.th| && s.th[t].pc.PendSpin?
    ensures Exec(threads, locks, sched).th[t].pc.cnt <= PENDING_LOOPS
  {
    var before, m := sched[..|sched| - 1], sched[|sched| - 1];
    var s := Exec(threads, locks, before);
    if s.th[t].pc.PendSpin? { SpinCount(threads, locks, before, t); }
    if Enabled(s, m) {
      if m.t != t { OthersStay(s, m, t); } else if m.act.Run? { SpinStep(s, t); }
    }
  }

  lemma SpinStep(s: State, t: nat)
    requires Enabled(s, Move(t, Run)) && Access(s, t).th[t].pc.PendSpin?
    ensures s.th[t].pc.LockCas? || s.th[t].pc.PendSpin?
    ensures Access(s, t).th[t].pc.cnt <= if s.th[t].pc.PendSpin? then s.th[t].pc.cnt else PENDING_LOOPS
  {
    var pc := s.th[t].pc;
    if Middle(pc) { MiddleSpin(s, t); } else if !Early(pc) { LateSpin(s, t); }
  }

  lemma MiddleSpin(s: State, t: nat)
    requires Enabled(s, Move(t, Run)) && Middle(s.th[t].pc)
    ensures !Access(s, t).th[t].pc.PendSpin?
  {
  }

  lemma LateSpin(s: State, t: nat)
    requires Enabled(s, Move(t, Run)) && !Early(s.th[t].pc) && !Middle(s.th[t].pc)
    ensures !Access(s, t).th[t].pc.PendSpin? && !Access(s, t).th[t].pc.TailXchg?
  {
  }

  /** Nobody gets in line for a lock that is free: the word was busy at the access before the tail exchange. */
  lemma QueuesOnlyIfBusy(threads: nat, locks: nat, sched: seq<Move>, m: Move, t: nat)
    requires var s, s' := Exec(threads, locks, sched), Exec(threads, locks, sched + [m]);
             t < |s.th| && t < |s'.th| && s'.th[t].pc.TailXchg? && !s.th[t].pc.TailXchg?
    ensures var s := Exec(threads, locks, sched); !s.th[t].pc.Idle? && s.th[t].pc.l < |s.words| && s.words[s.th[t].pc.l] != FREE
  {
    Then(threads, locks, sched, m);
    GetsInLine(Exec(threads, locks, sched), m, t);
  }

  lemma GetsInLine(s: State, m: Move, t: nat)
    requires t < |s.th| && t < |Step(s, m).th| && Step(s, m).th[t].pc.TailXchg? && !s.th[t].pc.TailXchg?
    ensures Enabled(s, m) && m == Move(t, Run) && !s.th[t].pc.Idle? && s.th[t].pc.l < |s.words| && s.words[s.th[t].pc.l] != FREE
  {
    assert Enabled(s, m);
    if m.t != t {
      OthersStay(s, m, t);
    } else if m.act.Run? {
      var pc := s.th[t].pc;
      if Early(pc) { EarlyLine(s, t); } else if Middle(pc) { MiddleLine(s, t); } else { LateSpin(s, t); }
    }
  }

  lemma EarlyLine(s: State, t: nat)
    requires Enabled(s, Move(t, Run)) && Early(s.th[t].pc)
    ensures !Access(s, t).th[t].pc.TailXchg?
  {
  }

  lemma MiddleLine(s: State, t: nat)
    requires Enabled(s, Move(t, Run)) && Middle(s.th[t].pc) && !s.th[t].pc.TailXchg? && Access(s, t).th[t].pc.TailXchg?
    ensures s.words[s.th[t].pc.l] != FREE
  {
  }

  // ---- running out of nodes -----------------------------------------------

  /** Has drawn a node number. */
  predicate Drew(me: Thread) { me.tail != 0 || me.pc.RegStore? || me.pc.Aborting? }

  ghost function Drawn(s: State): set<nat> { set t: nat | t < |s.th| && Drew(s.th[t]) }

  lemma OneDraws(s: State, m: Move)
    requires Enabled(s, m) && (s.th[m.t].pc.RegCount? ==> !Drew(s.th[m.t]))
    ensures var s' := Step(s, m);
            if Draws(s, m) then s'.count == s.count + 1 && m.t !in Drawn(s) && Drawn(s') == Drawn(s) + {m.t}
            else s'.count == s.count && Drawn(s') == Drawn(s)
  {
    var s' := Step(s, m);
    forall u: nat | u < |s.th| && u != m.t ensures Drew(s'.th[u]) == Drew(s.th[u]) { DrewStays(s, m, u); }
    DrawStep(s, m);
  }

  lemma DrewStays(s: State, m: Move, u: nat)
    requires Enabled(s, m) && u < |s.th| && u != m.t
    ensures Drew(Step(s, m).th[u]) == Drew(s.th[u])
  {
    OthersStay(s, m, u);
  }

  predicate Draws(s: State, m: Move)
    requires Enabled(s, m)
  {
    m.act.Run? && s.th[m.t].pc.RegCount?
  }

  /** What a move does to the counter and to the mover's number. */
  predicate Drawing(s: State, m: Move, s': State)
    requires Enabled(s, m) && |s'.th| == |s.th|
  {
    && s'.count == s.count + (if Draws(s, m) then 1 else 0)
    && (Draws(s, m) ==> Drew(s'.th[m.t])) && (!Draws(s, m) ==> Drew(s'.th[m.t]) == Drew(s.th[m.t]))
    && (s'.aborted ==> m.act.Run? && s.th[m.t].pc.Aborting?)
    && (s'.th[m.t].pc.Aborting? ==> (Draws(s, m) && s.count >= MAX_NODES) || (m.act.Run? && s.th[m.t].pc.Aborting?))
  }

  lemma EarlyDraw(s: State, t: nat)
    requires Enabled(s, Move(t, Run)) && Early(s.th[t].pc)
    ensures Drawing(s, Move(t, Run), Access(s, t))
  {
  }

  lemma MiddleDraw(s: State, t: nat)
    requires Enabled(s, Move(t, Run)) && Middle(s.th[t].pc)
    ensures Drawing(s, Move(t, Run), Access(s, t))
  {
  }

  lemma LateDraw(s: State, t: nat)
    requires Enabled(s, Move(t, Run)) && !Early(s.th[t].pc) && !Middle(s.th[t].pc)
    ensures Drawing(s, Move(t, Run), Access(s, t))
  {
  }

  lemma DrawStep(s: State, m: Move)
    requires Enabled(s, m)
    ensures Drawing(s, m, Step(s, m))
  {
    if m.act.Run? {
      var pc := s.th[m.t].pc;
      assert m == Move(m.t, Run);
      if Early(pc) { EarlyDraw(s, m.t); } else if Middle(pc) { MiddleDraw(s, m.t); } else { LateDraw(s, m.t); }
    }
  }

  /** Every node number was drawn by a thread of its own. */
  lemma {:induction false} DrawnCount(threads: nat, locks: nat, sched: seq<Move>)
    ensures var s := Exec(threads, locks, sched); s.count == |Drawn(s)| && |s.th| == threads
  {
    if sched == [] {
      assert Drawn(Init(threads, locks)) == {};
    } else {
      var before, m := sched[..|sched| - 1], sched[|sched| - 1];
      var s, h := Exec(threads, locks, before), History(threads, locks, before);
      DrawnCount(threads, locks, before);
      Invariant(threads, locks, before);
      Invariant(threads, locks, sched);
      if Enabled(s, m) {
        assert RegInv(s, m.t);
        OneDraws(s, m);
      }
    }
  }

  lemma {:induction false} Few(threads: nat, some: set<nat>)
    requires forall t :: t in some ==> t < threads
    ensures |some| <= threads
  {
    if threads > 0 {
      Few(threads - 1, some - {threads - 1});
      assert some <= (some - {threads - 1}) + {threads - 1};
      assert |some| <= |some - {threads - 1}| + 1;
    } else {
      assert some == {};
    }
  }

  /** Every thread registers at most once, so the program gives up only with more threads than there are nodes. */
  lemma AbortsOnlyIfCrowded(threads: nat, locks: nat, sched: seq<Move>)
    requires Exec(threads, locks, sched).aborted || exists t :: 0 <= t < |Exec(threads, locks, sched).th| && Exec(threads, locks, sched).th[t].pc.Aborting?
    ensures threads > MAX_NODES
  {
    CountBeyond(threads, locks, sched);
    DrawnCount(threads, locks, sched);
    Few(threads, Drawn(Exec(threads, locks, sched)));
  }

  lemma {:induction false} CountBeyond(threads: nat, locks: nat, sched: seq<Move>)
    ensures var s := Exec(threads, locks, sched);
            s.aborted || (exists t :: 0 <= t < |s.th| && s.th[t].pc.Aborting?) ==> s.count > MAX_NODES
  {
    if sched != [] {
      var before, m := sched[..|sched| - 1], sched[|sched| - 1];
      CountBeyond(threads, locks, before);
      if Enabled(Exec(threads, locks, before), m) { CountStep(Exec(threads, locks, before), m); }
    }
  }

  lemma CountStep(s: State, m: Move)
    requires Enabled(s, m) && (s.aborted || (exists t :: 0 <= t < |s.th| && s.th[t].pc.Aborting?) ==> s.count > MAX_NODES)
    ensures var s' := Step(s, m);
            s'.aborted || (exists t :: 0 <= t < |s'.th| && s'.th[t].pc.Aborting?) ==> s'.count > MAX_NODES
  {
    var s' := Step(s, m);
    DrawStep(s, m);
    forall t | 0 <= t < |s'.th| && s'.th[t].pc.Aborting? ensures s'.count > MAX_NODES {
      if t != m.t { OthersStay(s, m, t); }
    }
  }
}
