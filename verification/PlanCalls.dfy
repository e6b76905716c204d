/** What operations of the plan / lock / validate protocol come to, in every interleaving: each commits exactly once. */
module PlanCalls {
  import opened RingList
  import opened PlanLock
  import opened PlanRing
  import opened PlanInvariant
  import opened PlanCommit
  import opened PlanTheorems

  lemma Then(c: Config, sched: seq<Move>, m: Move)
    requires ValidConfig(c)
    ensures Exec(c, sched + [m]) == Step(c, Exec(c, sched), m)
    ensures History(c, sched + [m]) == StepPast(c, Exec(c, sched), History(c, sched), m)
    ensures !Exec(c, sched).fault && !Exec(c, sched + [m]).fault
  {
    assert (sched + [m])[..|sched|] == sched;
    LinksValid(c, sched);
    LinksValid(c, sched + [m]);
  }

  // ---- one access ---------------------------------------------------------

  /** The operation a writer is at. */
  function OpOf(pc: Pc): Op
    requires !pc.Idle?
  {
    if pc.Load1? || pc.Load2? then pc.op else pc.pl.op
  }

  /** The last store of the commit is still to come. */
  predicate Pending(pc: Pc) { !pc.Idle? && !pc.Release? }

  /** The access that makes the operation visible to forward walkers. */
  predicate CommitsOp(c: Config, s: State, m: Move, t: int, op: Op) {
    Enabled(c, s, m) && m.Run? && m.t == t && (s.pc[t].LinkNext? || s.pc[t].UnNext?) && s.pc[t].pl.op == op
  }

  /** A validation that finds the plan stale. */
  predicate Fails(c: Config, s: State, m: Move) {
    Enabled(c, s, m) && m.Run? && s.pc[m.t].Check? && !Cond(s.heap, s.pc[m.t].pl, s.pc[m.t].k)
  }

  predicate Advances(c: Config, s: State, t: int, s': State)
    requires 0 <= t < |s.pc| && !s.pc[t].Idle?
  {
    var pc := s.pc[t];
    && |s'.pc| == |s.pc| && s'.pc == s.pc[t := s'.pc[t]]
    && var pc' := s'.pc[t];
       && (pc'.Idle? <==> pc.Release? && pc.i <= 1)
       && (!pc'.Idle? ==> OpOf(pc') == OpOf(pc))
       && (Pending(pc') ==> Pending(pc))
       && (Pending(pc) && !Pending(pc') <==> pc.LinkNext? || pc.UnNext?)
       && (pc'.Undo? <==> (pc.Check? && !Cond(s.heap, pc.pl, pc.k)) || (pc.Undo? && pc.i > 1))
       && s'.retries == s.retries + (if pc.Undo? && pc.i <= 1 then 1 else 0)
       && s'.known == (if pc.Release? && pc.i <= 1 then (if pc.pl.op.Ins? then s.known + {pc.e} else s.known - {pc.e}) else s.known)
  }

  lemma PlanAdvances(c: Config, s: State, t: int, addr: int)
    requires 0 <= t < |s.pc| && Safe(s.heap, s.pc[t]) && (s.pc[t].Load1? || s.pc[t].Load2? || s.pc[t].Lock? || s.pc[t].Check? || s.pc[t].Undo?)
    ensures Advances(c, s, t, Access(c, s, t, addr))
  {
  }

  lemma CommitAdvances(c: Config, s: State, t: int, addr: int)
    requires 0 <= t < |s.pc| && Safe(s.heap, s.pc[t]) && (s.pc[t].New? || s.pc[t].LinkPrev? || s.pc[t].LinkNext? || s.pc[t].Kill?)
    ensures Advances(c, s, t, Access(c, s, t, addr))
  {
  }

  lemma EndAdvances(c: Config, s: State, t: int, addr: int)
    requires 0 <= t < |s.pc| && Safe(s.heap, s.pc[t]) && (s.pc[t].UnPrev? || s.pc[t].UnNext? || s.pc[t].Release?)
    ensures Advances(c, s, t, Access(c, s, t, addr))
  {
  }

  lemma AccessAdvances(c: Config, s: State, t: int, addr: int)
    requires 0 <= t < |s.pc| && Safe(s.heap, s.pc[t]) && !s.pc[t].Idle?
    ensures Advances(c, s, t, Access(c, s, t, addr))
  {
    var pc := s.pc[t];
    if pc.Load1? || pc.Load2? || pc.Lock? || pc.Check? || pc.Undo? { PlanAdvances(c, s, t, addr); }
    else if pc.New? || pc.LinkPrev? || pc.LinkNext? || pc.Kill? { CommitAdvances(c, s, t, addr); }
    else { EndAdvances(c, s, t, addr); }
  }

  /** One move, seen from writer t. */
  lemma MoveAdvances(c: Config, s: State, m: Move, t: int)
    requires 0 <= t < |s.pc| && !s.fault && !Step(c, s, m).fault
    ensures var s' := Step(c, s, m);
            if Enabled(c, s, m) && m.t == t then
              (if m.Begin? then s.pc[t].Idle? && s'.pc[t] == Load1(m.op) else !s.pc[t].Idle? && Advances(c, s, t, s'))
            else s'.pc[t] == s.pc[t]
  {
    if Enabled(c, s, m) && m.Run? { AccessAdvances(c, s, m.t, m.addr); }
  }

  // ---- every operation commits once ---------------------------------------

  predicate Starts(c: Config, s: State, m: Move, t: int, op: Op) { Enabled(c, s, m) && m == Begin(t, op) }

  /** How often writer t has begun this operation, and how often it has committed it. */
  ghost function Begun(c: Config, sched: seq<Move>, t: int, op: Op): nat
    requires ValidConfig(c)
  {
    if sched == [] then 0
    else
      var before := sched[..|sched| - 1];
      Begun(c, before, t, op) + if Starts(c, Exec(c, before), sched[|sched| - 1], t, op) then 1 else 0
  }

  ghost function Committed(c: Config, sched: seq<Move>, t: int, op: Op): nat
    requires ValidConfig(c)
  {
    if sched == [] then 0
    else
      var before := sched[..|sched| - 1];
      Committed(c, before, t, op) + if CommitsOp(c, Exec(c, before), sched[|sched| - 1], t, op) then 1 else 0
  }

  predicate PendingOn(pc: Pc, op: Op) { Pending(pc) && OpOf(pc) == op }

  /** An operation is committed exactly once: every begun one has been, except the one that is still on its way. */
  lemma {:induction false} CommitsOnce(c: Config, sched: seq<Move>, t: int, op: Op)
    requires ValidConfig(c) && 0 <= t < c.threads
    ensures Begun(c, sched, t, op) == Committed(c, sched, t, op) + if PendingOn(Exec(c, sched).pc[t], op) then 1 else 0
  {
    if sched != [] {
      var before, m := sched[..|sched| - 1], sched[|sched| - 1];
      assert before + [m] == sched;
      CommitsOnce(c, before, t, op);
      Then(c, before, m);
      MoveAdvances(c, Exec(c, before), m, t);
      OnceStep(c, Exec(c, before), m, t, op);
    }
  }

  lemma OnceStep(c: Config, s: State, m: Move, t: int, op: Op)
    requires 0 <= t < |s.pc| && |Step(c, s, m).pc| == |s.pc|
    requires var s' := Step(c, s, m);
             if Enabled(c, s, m) && m.t == t then
               (if m.Begin? then s.pc[t].Idle? && s'.pc[t] == Load1(m.op) else !s.pc[t].Idle? && Advances(c, s, t, s'))
             else s'.pc[t] == s.pc[t]
    ensures (if Starts(c, s, m, t, op) then 1 else 0) + (if PendingOn(s.pc[t], op) then 1 else 0)
         == (if CommitsOp(c, s, m, t, op) then 1 else 0) + if PendingOn(Step(c, s, m).pc[t], op) then 1 else 0
  {
  }

  /**
   A writer returns only from the release of its last lock, with no lock left; an insert has
   then made its node known, and a delete has taken its node out.
   */
  lemma Returns(c: Config, sched: seq<Move>, m: Move, t: int)
    requires ValidConfig(c) && 0 <= t < c.threads && !Exec(c, sched).pc[t].Idle? && Exec(c, sched + [m]).pc[t].Idle?
    ensures var s, s' := Exec(c, sched), Exec(c, sched + [m]);
            && s.pc[t].Release? && (forall k: int :: k in s'.owner ==> s'.owner[k] != t)
            && s'.known == (if s.pc[t].pl.op.Ins? then s.known + {s.pc[t].e} else s.known - {s.pc[t].e})
  {
    Then(c, sched, m);
    MoveAdvances(c, Exec(c, sched), m, t);
    Invariant(c, sched + [m]);
    var s' := Exec(c, sched + [m]);
    forall k: int | k in s'.owner ensures s'.owner[k] != t { assert HoldsKey(s'.pc[s'.owner[k]], k); }
  }

  // ---- retries ------------------------------------------------------------

  /** How many writers are giving back the locks of a stale plan. */
  function Undoing(pcs: seq<Pc>): nat {
    if pcs == [] then 0 else Undoing(pcs[..|pcs| - 1]) + if pcs[|pcs| - 1].Undo? then 1 else 0
  }

  lemma {:induction false} UndoingUpdate(pcs: seq<Pc>, t: int, pc: Pc)
    requires 0 <= t < |pcs|
    ensures Undoing(pcs[t := pc]) + (if pcs[t].Undo? then 1 else 0) == Undoing(pcs) + if pc.Undo? then 1 else 0
  {
    var last := |pcs| - 1;
    if t == last {
      assert pcs[t := pc][..last] == pcs[..last];
    } else {
      assert pcs[t := pc][..last] == pcs[..last][t := pc];
      UndoingUpdate(pcs[..last], t, pc);
    }
  }

  lemma {:induction false} NoneUndoing(n: nat)
    ensures Undoing(seq(n, i => Idle)) == 0
  {
    if n > 0 {
      assert seq(n, i => Idle)[..n - 1] == seq(n - 1, i => Idle);
      NoneUndoing(n - 1);
    }
  }

  /** The validations that found their plan stale. */
  ghost function Failed(c: Config, sched: seq<Move>): nat
    requires ValidConfig(c)
  {
    if sched == [] then 0
    else
      var before := sched[..|sched| - 1];
      Failed(c, before) + if Fails(c, Exec(c, before), sched[|sched| - 1]) then 1 else 0
  }

  /** g_plan_retries counts the failed validations whose locks have been given back. */
  lemma {:induction false} RetriesCount(c: Config, sched: seq<Move>)
    requires ValidConfig(c)
    ensures Exec(c, sched).retries == Failed(c, sched) - Undoing(Exec(c, sched).pc)
  {
    if sched == [] {
      NoneUndoing(c.threads);
    } else {
      var before, m := sched[..|sched| - 1], sched[|sched| - 1];
      assert before + [m] == sched;
      RetriesCount(c, before);
      Then(c, before, m);
      RetryStep(c, Exec(c, before), m);
    }
  }

  lemma RetryStep(c: Config, s: State, m: Move)
    requires !s.fault && !Step(c, s, m).fault
    ensures Step(c, s, m).retries + Undoing(Step(c, s, m).pc) == s.retries + Undoing(s.pc) + if Fails(c, s, m) then 1 else 0
  {
    if Enabled(c, s, m) {
      if m.Run? {
        AccessAdvances(c, s, m.t, m.addr);
        UndoingUpdate(s.pc, m.t, Step(c, s, m).pc[m.t]);
      } else {
        UndoingUpdate(s.pc, m.t, Load1(m.op));
      }
    }
  }
}
