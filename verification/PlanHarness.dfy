/**
 The protocol as the benchmark drives it: every churn slot belongs to one writer and has
 an anchor of its own, and stable nodes are never deleted.  Then no plan ever goes stale.
 */
module PlanHarness {
  import opened RingList
  import opened PlanLock
  import opened PlanInvariant
  import opened PlanCommit

  /** Which writer owns the slot with this anchor. */
  type Owners = map<int, int>

  predicate ValidOwners(c: Config, own: Owners) {
    ValidConfig(c) && forall a: int :: a in own ==> 0 <= a < c.n && 0 <= own[a] < c.threads
  }

  datatype HMove = Toggle(t: int, a: int) | Go(t: int, addr: int)

  /** The steps so far, the node of every slot that is present, and the slot each writer last worked on. */
  datatype Play = Play(sched: seq<Move>, slots: map<int, int>, work: map<int, int>)

  /** A whole run of the harness, as a run of the protocol. */
  ghost function Run(c: Config, own: Owners, hs: seq<HMove>): Play
    requires ValidOwners(c, own)
  {
    if hs == [] then Play([], map[], map[]) else Turn(c, own, Run(c, own, hs[..|hs| - 1]), hs[|hs| - 1])
  }

  ghost function Turn(c: Config, own: Owners, p: Play, m: HMove): Play
    requires ValidOwners(c, own)
  {
    var s := Exec(c, p.sched);
    match m
    case Toggle(t, a) =>
      if a in own && own[a] == t && s.pc[t].Idle? then
        Play(p.sched + [Begin(t, if a in p.slots then Del(p.slots[a]) else Ins(a))], p.slots, p.work[t := a])
      else p
    case Go(t, addr) =>
      var r := PlanLock.Run(t, addr);
      if !Enabled(c, s, r) then p
      else
        Play(p.sched + [r],
             if s.pc[t].Release? && s.pc[t].i <= 1 && t in p.work then
               (if s.pc[t].pl.op.Ins? then p.slots[p.work[t] := s.pc[t].e] else p.slots - {p.work[t]})
             else p.slots,
             p.work)
  }

  // ---- the gaps -----------------------------------------------------------

  predicate Closed(c: Config, heap: map<int, Node>, a: int) {
    a in heap && heap[a].next == Succ(c.n, a) && Succ(c.n, a) in heap && heap[Succ(c.n, a)].prev == a
  }

  predicate Between(c: Config, heap: map<int, Node>, a: int, e: int, dead: bool) {
    !(-1 <= e < c.n) && e in heap && heap[e] == Node(Succ(c.n, a), a, dead)
  }

  predicate Full(c: Config, heap: map<int, Node>, a: int, e: int, dead: bool) {
    && a in heap && heap[a].next == e && Succ(c.n, a) in heap && heap[Succ(c.n, a)].prev == e
    && Between(c, heap, a, e, dead)
  }

  /** The slot is not being toggled. */
  predicate Still(c: Config, heap: map<int, Node>, slots: map<int, int>, a: int) {
    if a in slots then Full(c, heap, a, slots[a], false) else Closed(c, heap, a)
  }

  predicate OpOk(slots: map<int, int>, a: int, op: Op) {
    if op.Ins? then op.at == a && a !in slots else a in slots && op.at == slots[a]
  }

  predicate PlanOk(c: Config, slots: map<int, int>, a: int, pl: Plan) {
    OpOk(slots, a, pl.op) && pl.pred == a && pl.succ == Succ(c.n, a)
  }

  /** The slot is being toggled by a writer at pc. */
  predicate Busy(c: Config, heap: map<int, Node>, slots: map<int, int>, a: int, pc: Pc) {
    match pc
    case Idle => Still(c, heap, slots, a)
    case Load1(op) => OpOk(slots, a, op) && Still(c, heap, slots, a)
    case Load2(op, pred) => OpOk(slots, a, op) && pred == a && Still(c, heap, slots, a)
    case Undo(_, _) => false
    case LinkPrev(pl, e) => PlanOk(c, slots, a, pl) && a !in slots && Closed(c, heap, a) && Between(c, heap, a, e, false)
    case LinkNext(pl, e) =>
      && PlanOk(c, slots, a, pl) && a !in slots && Between(c, heap, a, e, false)
      && a in heap && heap[a].next == Succ(c.n, a) && Succ(c.n, a) in heap && heap[Succ(c.n, a)].prev == e
    case UnPrev(pl) => PlanOk(c, slots, a, pl) && pl.op.Del? && Full(c, heap, a, pl.op.at, true)
    case UnNext(pl) =>
      && PlanOk(c, slots, a, pl) && pl.op.Del? && Between(c, heap, a, pl.op.at, true)
      && a in heap && heap[a].next == pl.op.at && Succ(c.n, a) in heap && heap[Succ(c.n, a)].prev == a
    case Release(pl, e, _) =>
      && PlanOk(c, slots, a, pl)
      && (if pl.op.Ins? then Full(c, heap, a, e, false) else e == pl.op.at && Closed(c, heap, a) && Between(c, heap, a, e, true))
    case _ => PlanOk(c, slots, a, pc.pl) && Still(c, heap, slots, a) && (pc.New? ==> pc.pl.op.Ins?) && (pc.Kill? ==> pc.pl.op.Del?)
  }

  predicate OnSlot(own: Owners, p: Play, a: int) {
    a in own && own[a] in p.work && p.work[own[a]] == a
  }

  ghost predicate GapInv(c: Config, own: Owners, s: State, p: Play, a: int) {
    if OnSlot(own, p, a) && 0 <= own[a] < |s.pc| then Busy(c, s.heap, p.slots, a, s.pc[own[a]])
    else Still(c, s.heap, p.slots, a)
  }

  ghost predicate HInv(c: Config, own: Owners, s: State, p: Play) {
    && s.retries == 0
    && (forall i: int :: -1 <= i < c.n ==> i in s.heap && !s.heap[i].dead)
    && (forall a: int {:trigger GapInv(c, own, s, p, a)} :: 0 <= a < c.n ==> GapInv(c, own, s, p, a))
    && (forall a: int :: a in p.slots ==> a in own && p.slots[a] in s.known)
    && (forall i: int :: 0 <= i < c.n ==> i in s.known)
    && (forall t: int :: 0 <= t < |s.pc| && !s.pc[t].Idle? ==> t in p.work)
    && (forall t: int :: t in p.work ==> p.work[t] in own && own[p.work[t]] == t)
  }

  // ---- a writer's own gap -------------------------------------------------

  predicate StableInv(c: Config, heap: map<int, Node>) {
    forall i: int :: -1 <= i < c.n ==> i in heap && !heap[i].dead
  }

  /** Every condition of the validation holds as long as the slot is still. */
  lemma PlanHolds(c: Config, heap: map<int, Node>, slots: map<int, int>, a: int, pl: Plan, k: int)
    requires 0 <= a < c.n && StableInv(c, heap) && PlanOk(c, slots, a, pl) && Still(c, heap, slots, a) && 0 <= k < Conditions(pl)
    ensures Cond(heap, pl, k)
  {
  }

  /** What a step of writer t may do to the list, given the slot it works on. */
  ghost predicate Stays(c: Config, heap: map<int, Node>, heap': map<int, Node>, a: int) {
    && (forall x: int :: x in heap && x != a && x != Succ(c.n, a) && !(heap[x].prev == a && !(-1 <= x < c.n)) ==> x in heap' && heap'[x] == heap[x])
    && (a in heap ==> a in heap' && heap'[a].prev == heap[a].prev && heap'[a].dead == heap[a].dead)
    && (Succ(c.n, a) in heap ==> Succ(c.n, a) in heap' && heap'[Succ(c.n, a)].next == heap[Succ(c.n, a)].next && heap'[Succ(c.n, a)].dead == heap[Succ(c.n, a)].dead)
  }

  /** Writer t takes a step while it toggles the slot with anchor a. */
  ghost predicate Acts(c: Config, s: State, slots: map<int, int>, a: int, t: int, addr: int) {
    && 0 <= a < c.n && 0 <= t < |s.pc| && !s.pc[t].Idle? && StableInv(c, s.heap) && Busy(c, s.heap, slots, a, s.pc[t])
    && CountInv(c, s.pc[t]) && addr !in s.heap && Safe(s.heap, s.pc[t])
  }

  /** The step keeps to the gap, and the gap is as the writer's new position says. */
  ghost predicate Acted(c: Config, s: State, slots: map<int, int>, a: int, t: int, s': State)
    requires 0 <= t < |s.pc| && |s'.pc| == |s.pc|
  {
    && s'.retries == s.retries && StableInv(c, s'.heap) && Stays(c, s.heap, s'.heap, a)
    && Busy(c, s'.heap,
            if s.pc[t].Release? && s.pc[t].i <= 1 then (if s.pc[t].pl.op.Ins? then slots[a := s.pc[t].e] else slots - {a}) else slots,
            a, s'.pc[t])
  }

  lemma ActsQuietly(c: Config, s: State, slots: map<int, int>, a: int, t: int, addr: int)
    requires Acts(c, s, slots, a, t, addr) && (s.pc[t].Load1? || s.pc[t].Load2? || s.pc[t].Lock? || s.pc[t].Check? || s.pc[t].Release?)
    ensures Acted(c, s, slots, a, t, Access(c, s, t, addr))
  {
    if s.pc[t].Check? {
      PlanHolds(c, s.heap, slots, a, s.pc[t].pl, s.pc[t].k);
    }
  }

  lemma ActsInsert(c: Config, s: State, slots: map<int, int>, a: int, t: int, addr: int)
    requires Acts(c, s, slots, a, t, addr) && (s.pc[t].New? || s.pc[t].LinkPrev? || s.pc[t].LinkNext?)
    ensures Acted(c, s, slots, a, t, Access(c, s, t, addr))
  {
  }

  lemma ActsDelete(c: Config, s: State, slots: map<int, int>, a: int, t: int, addr: int)
    requires Acts(c, s, slots, a, t, addr) && (s.pc[t].Kill? || s.pc[t].UnPrev? || s.pc[t].UnNext?)
    ensures Acted(c, s, slots, a, t, Access(c, s, t, addr))
  {
  }

  lemma GapFrame(c: Config, own: Owners, s: State, p: Play, s': State, p': Play, a: int, b: int, t: int)
    requires 0 <= a < c.n && 0 <= b < c.n && a != b && StableInv(c, s.heap) && Stays(c, s.heap, s'.heap, a)
    requires |s'.pc| == |s.pc| && (forall u :: 0 <= u < |s.pc| && u != t ==> s'.pc[u] == s.pc[u])
    requires (b in p.slots <==> b in p'.slots) && (b in p.slots ==> p'.slots[b] == p.slots[b])
    requires OnSlot(own, p, b) <==> OnSlot(own, p', b)
    requires OnSlot(own, p, b) ==> own[b] != t
    requires GapInv(c, own, s, p, b)
    ensures GapInv(c, own, s', p', b)
  {
    forall e: int, dead: bool | Between(c, s.heap, b, e, dead) ensures Between(c, s'.heap, b, e, dead) {
    }
    assert s'.heap[b].next == s.heap[b].next && s'.heap[Succ(c.n, b)].prev == s.heap[Succ(c.n, b)].prev;
  }

  // ---- every run ----------------------------------------------------------

  lemma RunMeans(c: Config, sched: seq<Move>, t: int, addr: int)
    requires ValidConfig(c) && Enabled(c, Exec(c, sched), PlanLock.Run(t, addr))
    ensures var s := Exec(c, sched);
            CountInv(c, s.pc[t]) && Safe(s.heap, s.pc[t]) && Exec(c, sched + [PlanLock.Run(t, addr)]) == Access(c, s, t, addr)
  {
    var r := PlanLock.Run(t, addr);
    assert (sched + [r])[..|sched|] == sched;
    Invariant(c, sched);
    Invariant(c, sched + [r]);
  }

  lemma ActsStep(c: Config, s: State, slots: map<int, int>, a: int, t: int, addr: int)
    requires Acts(c, s, slots, a, t, addr)
    ensures Acted(c, s, slots, a, t, Access(c, s, t, addr))
  {
    var pc := s.pc[t];
    if pc.New? || pc.LinkPrev? || pc.LinkNext? { ActsInsert(c, s, slots, a, t, addr); }
    else if pc.Kill? || pc.UnPrev? || pc.UnNext? { ActsDelete(c, s, slots, a, t, addr); }
    else if !pc.Undo? { ActsQuietly(c, s, slots, a, t, addr); }
  }

  lemma OthersIdle(c: Config, s: State, t: int, addr: int)
    requires 0 <= t < |s.pc| && Safe(s.heap, s.pc[t])
    ensures forall u :: 0 <= u < |s.pc| && u != t ==> Access(c, s, t, addr).pc[u] == s.pc[u]
  {
  }

  lemma GoKept(c: Config, own: Owners, p: Play, t: int, addr: int)
    requires ValidOwners(c, own) && HInv(c, own, Exec(c, p.sched), p) && Enabled(c, Exec(c, p.sched), PlanLock.Run(t, addr))
    ensures var p' := Turn(c, own, p, Go(t, addr)); HInv(c, own, Exec(c, p'.sched), p')
  {
    var s, p' := Exec(c, p.sched), Turn(c, own, p, Go(t, addr));
    RunMeans(c, p.sched, t, addr);
    GoGaps(c, own, s, p, p', t, addr);
  }

  /** The node of a slot sits in the slot's gap, and so in no other. */
  lemma SlotNode(c: Config, own: Owners, s: State, p: Play, b: int)
    requires GapInv(c, own, s, p, b) && b in p.slots
    ensures !(-1 <= p.slots[b] < c.n) && p.slots[b] in s.heap && s.heap[p.slots[b]].prev == b
  {
  }

  lemma GoKnown(c: Config, own: Owners, s: State, p: Play, p': Play, t: int, addr: int)
    requires ValidOwners(c, own) && HInv(c, own, s, p) && |s.pc| == c.threads && Enabled(c, s, PlanLock.Run(t, addr))
    requires Safe(s.heap, s.pc[t]) && t in p.work
    requires p'.slots == if s.pc[t].Release? && s.pc[t].i <= 1 then
               (if s.pc[t].pl.op.Ins? then p.slots[p.work[t] := s.pc[t].e] else p.slots - {p.work[t]}) else p.slots
    ensures var s' := Access(c, s, t, addr);
            (forall a: int :: a in p'.slots ==> a in own && p'.slots[a] in s'.known) && (forall i: int :: 0 <= i < c.n ==> i in s'.known)
  {
    var s', a := Access(c, s, t, addr), p.work[t];
    assert GapInv(c, own, s, p, a);
    if s.pc[t].Release? && s.pc[t].i <= 1 {
      forall b: int | b in p'.slots ensures b in own && p'.slots[b] in s'.known {
        if b != a {
          assert GapInv(c, own, s, p, b);
          SlotNode(c, own, s, p, b);
        }
      }
    }
  }

  lemma GoGaps(c: Config, own: Owners, s: State, p: Play, p': Play, t: int, addr: int)
    requires ValidOwners(c, own) && HInv(c, own, s, p) && |s.pc| == c.threads && Enabled(c, s, PlanLock.Run(t, addr))
    requires CountInv(c, s.pc[t]) && Safe(s.heap, s.pc[t]) && t in p.work && p'.work == p.work
    requires p'.slots == if s.pc[t].Release? && s.pc[t].i <= 1 then
               (if s.pc[t].pl.op.Ins? then p.slots[p.work[t] := s.pc[t].e] else p.slots - {p.work[t]}) else p.slots
    ensures HInv(c, own, Access(c, s, t, addr), p')
  {
    var s', a := Access(c, s, t, addr), p.work[t];
    assert GapInv(c, own, s, p, a);
    ActsStep(c, s, p.slots, a, t, addr);
    OthersIdle(c, s, t, addr);
    GoKnown(c, own, s, p, p', t, addr);
    forall b: int | 0 <= b < c.n ensures GapInv(c, own, s', p', b) {
      if b != a {
        assert GapInv(c, own, s, p, b);
        GapFrame(c, own, s, p, s', p', a, b, t);
      }
    }
  }

  lemma ToggleKept(c: Config, own: Owners, p: Play, t: int, a: int)
    requires ValidOwners(c, own) && HInv(c, own, Exec(c, p.sched), p)
    ensures var p' := Turn(c, own, p, Toggle(t, a)); HInv(c, own, Exec(c, p'.sched), p')
  {
    var s, p' := Exec(c, p.sched), Turn(c, own, p, Toggle(t, a));
    if p' != p {
      var m := p'.sched[|p.sched|];
      assert p'.sched == p.sched + [m] && p'.sched[..|p.sched|] == p.sched;
      assert GapInv(c, own, s, p, a);
      BeginMeans(c, p, a, m);
      var s' := Exec(c, p'.sched);
      forall b: int | 0 <= b < c.n ensures GapInv(c, own, s', p', b) {
        assert GapInv(c, own, s, p, b);
      }
    }
  }

  /** A slot's node is one the protocol knows. */
  lemma BeginMeans(c: Config, p: Play, a: int, m: Move)
    requires ValidConfig(c) && m.Begin? && 0 <= m.t < c.threads && Exec(c, p.sched).pc[m.t].Idle?
    requires m.op.at in Exec(c, p.sched).known && (m.op.Del? ==> m.op.at != HEAD)
    ensures Exec(c, p.sched + [m]) == Goto(Exec(c, p.sched), m.t, Load1(m.op))
  {
    assert (p.sched + [m])[..|p.sched|] == p.sched;
    Invariant(c, p.sched);
  }

  lemma {:induction false} HarnessInvariant(c: Config, own: Owners, hs: seq<HMove>)
    requires ValidOwners(c, own)
    ensures var p := Run(c, own, hs); HInv(c, own, Exec(c, p.sched), p)
  {
    if hs == [] {
      var p := Run(c, own, hs);
      forall a: int | 0 <= a < c.n ensures GapInv(c, own, Exec(c, p.sched), p, a) { }
    } else {
      var before, m := hs[..|hs| - 1], hs[|hs| - 1];
      HarnessInvariant(c, own, before);
      var p := Run(c, own, before);
      match m
      case Toggle(t, a) => ToggleKept(c, own, p, t, a);
      case Go(t, addr) =>
        if Enabled(c, Exec(c, p.sched), PlanLock.Run(t, addr)) {
          GoKept(c, own, p, t, addr);
        }
    }
  }

  /** In the harness no validation ever fails: g_plan_retries stays 0. */
  lemma NoPlanGoesStale(c: Config, own: Owners, hs: seq<HMove>, t: int)
    requires ValidOwners(c, own) && 0 <= t < c.threads
    ensures var s := Exec(c, Run(c, own, hs).sched);
            && s.retries == 0 && !s.pc[t].Undo?
            && (s.pc[t].Check? ==> forall k: int :: 0 <= k < Conditions(s.pc[t].pl) ==> Cond(s.heap, s.pc[t].pl, k))
  {
    HarnessInvariant(c, own, hs);
    var p := Run(c, own, hs);
    var s := Exec(c, p.sched);
    if !s.pc[t].Idle? {
      var a := p.work[t];
      assert GapInv(c, own, s, p, a);
      if s.pc[t].Check? {
        forall k: int | 0 <= k < Conditions(s.pc[t].pl) ensures Cond(s.heap, s.pc[t].pl, k) {
          PlanHolds(c, s.heap, p.slots, a, s.pc[t].pl, k);
        }
      }
    }
  }
}
