/**
 An operation of the plan / lock / validate protocol that runs while no other is under
 way: it never retries, and it inserts or takes out exactly its node.
 */
module PlanAlone {
  import opened Basics
  import opened RingList
  import opened Lockset
  import opened PlanLock
  import opened PlanRing
  import opened PlanInvariant
  import opened PlanCommit
  import opened PlanTheorems
  import opened PlanCalls

  // ---- the nodes that callers may name ------------------------------------

  /** Writer t has allocated e and its caller has not learnt of it yet. */
  predicate Hidden(pc: Pc, e: int) {
    (pc.LinkPrev? && pc.e == e) || (pc.LinkNext? && pc.e == e) || (pc.Release? && pc.pl.op.Ins? && pc.e == e)
  }

  /** Writer t has tombstoned x and not returned yet. */
  predicate Ending(pc: Pc, x: int) {
    (pc.UnPrev? && pc.pl.op == Del(x)) || (pc.UnNext? && pc.pl.op == Del(x)) || (pc.Release? && pc.pl.op == Del(x) && pc.e == x)
  }

  /** Nobody else can name a hidden node, and it is alive. */
  ghost predicate HiddenInv(s: State, t: int, e: int)
    requires 0 <= t < |s.pc|
  {
    Hidden(s.pc[t], e) ==>
      && e in s.heap && !s.heap[e].dead && e !in s.known
      && (forall u :: 0 <= u < |s.pc| && !s.pc[u].Idle? ==> OpOf(s.pc[u]).at != e)
      && (forall u :: 0 <= u < |s.pc| && u != t ==> !Hidden(s.pc[u], e))
  }

  ghost predicate Ended(s: State, x: int) {
    exists t :: 0 <= t < |s.pc| && Ending(s.pc[t], x)
  }

  ghost predicate NamesInv(s: State) {
    && (forall t, e: int {:trigger HiddenInv(s, t, e)} :: 0 <= t < |s.pc| ==> HiddenInv(s, t, e))
    && (forall x: int :: x in s.known ==> x in s.heap && (s.heap[x].dead ==> Ended(s, x)))
    && (forall t :: 0 <= t < |s.pc| && !s.pc[t].Idle? ==> OpOf(s.pc[t]).at in s.heap)
  }

  /** What an access does to tombstones and to the mover's own new node. */
  ghost predicate Touching(s: State, t: int, addr: int, s': State)
    requires 0 <= t < |s.pc| && |s'.pc| == |s.pc|
  {
    var pc, pc' := s.pc[t], s'.pc[t];
    && (forall x: int :: x in s.heap ==> x in s'.heap && s'.heap[x].dead == (s.heap[x].dead || (pc.Kill? && pc.pl.op.at == x)))
    && (forall e: int :: Hidden(pc', e) ==> (if pc.New? then e == addr && addr in s'.heap && !s'.heap[addr].dead else Hidden(pc, e)))
    && (forall x: int :: Ending(pc, x) ==> Ending(pc', x) || (pc.Release? && pc'.Idle? && pc.e == x && pc.pl.op == Del(x)))
    && (pc.Kill? ==> pc'.UnPrev? && pc'.pl == pc.pl)
    && (pc'.Release? && pc'.pl.op.Del? ==> (pc.Release? && pc'.e == pc.e && pc'.pl == pc.pl) || pc'.e == pc'.pl.op.at)
  }

  lemma PlanTouches(c: Config, s: State, t: int, addr: int)
    requires 0 <= t < |s.pc| && Safe(s.heap, s.pc[t]) && (s.pc[t].Load1? || s.pc[t].Load2? || s.pc[t].Lock? || s.pc[t].Check? || s.pc[t].Undo?)
    ensures Touching(s, t, addr, Access(c, s, t, addr))
  {
  }

  lemma LinkTouches(c: Config, s: State, t: int, addr: int)
    requires 0 <= t < |s.pc| && Safe(s.heap, s.pc[t]) && (s.pc[t].New? || s.pc[t].LinkPrev? || s.pc[t].LinkNext?) && addr !in s.heap
    requires s.pc[t].LinkNext? ==> s.pc[t].pl.op.Ins?
    ensures Touching(s, t, addr, Access(c, s, t, addr))
  {
  }

  lemma UnlinkTouches(c: Config, s: State, t: int, addr: int)
    requires 0 <= t < |s.pc| && Safe(s.heap, s.pc[t]) && (s.pc[t].Kill? || s.pc[t].UnPrev? || s.pc[t].UnNext? || s.pc[t].Release?)
    requires s.pc[t].Kill? || s.pc[t].UnPrev? || s.pc[t].UnNext? ==> s.pc[t].pl.op.Del?
    ensures Touching(s, t, addr, Access(c, s, t, addr))
  {
  }

  lemma AccessTouches(c: Config, s: State, h: Past, t: int, addr: int)
    requires Inv(c, s, h) && 0 <= t < |s.pc| && Safe(s.heap, s.pc[t]) && !s.pc[t].Idle? && addr !in s.heap
    ensures Touching(s, t, addr, Access(c, s, t, addr))
  {
    var pc := s.pc[t];
    assert PcInv(c, s, h, t, pc);
    if pc.Load1? || pc.Load2? || pc.Lock? || pc.Check? || pc.Undo? { PlanTouches(c, s, t, addr); }
    else if pc.New? || pc.LinkPrev? || pc.LinkNext? { LinkTouches(c, s, t, addr); }
    else { UnlinkTouches(c, s, t, addr); }
  }

  lemma HiddenKept(c: Config, s: State, h: Past, s': State, t: int, addr: int, u: int, e: int)
    requires NamesInv(s) && 0 <= t < |s.pc| && !s.pc[t].Idle? && addr !in s.heap
    requires Advances(c, s, t, s') && Touching(s, t, addr, s') && 0 <= u < |s.pc|
    ensures HiddenInv(s', u, e)
  {
    assert HiddenInv(s, u, e) && HiddenInv(s, t, e);
    if Hidden(s'.pc[u], e) {
      if u == t && s.pc[t].New? {
        assert e == addr && e !in s.known && s'.known == s.known;
        forall v | 0 <= v < |s.pc| ensures !Hidden(s.pc[v], e) { assert HiddenInv(s, v, e); }
      } else {
        assert Hidden(s.pc[u], e);
        assert u != t ==> !Hidden(s.pc[t], e);
      }
    }
  }

  lemma KnownKept(c: Config, s: State, s': State, t: int, addr: int, x: int)
    requires NamesInv(s) && 0 <= t < |s.pc| && !s.pc[t].Idle? && Advances(c, s, t, s') && Touching(s, t, addr, s') && x in s'.known
    requires s.pc[t].Kill? ==> s.pc[t].pl.op.Del?
    ensures x in s'.heap && (s'.heap[x].dead ==> Ended(s', x))
  {
    if x !in s.known {
      assert HiddenInv(s, t, x);
    } else if s'.heap[x].dead {
      if s.heap[x].dead {
        var u :| 0 <= u < |s.pc| && Ending(s.pc[u], x);
        assert u != t ==> Ending(s'.pc[u], x);
      } else {
        assert Ending(s'.pc[t], x);
      }
    }
  }

  lemma RunNames(c: Config, s: State, h: Past, m: Move)
    requires Inv(c, s, h) && NamesInv(s) && Enabled(c, s, m) && m.Run? && !Step(c, s, m).fault
    ensures NamesInv(Step(c, s, m))
  {
    var s' := Step(c, s, m);
    AccessAdvances(c, s, m.t, m.addr);
    AccessTouches(c, s, h, m.t, m.addr);
    assert PcInv(c, s, h, m.t, s.pc[m.t]);
    forall u, e: int | 0 <= u < |s'.pc| ensures HiddenInv(s', u, e) { HiddenKept(c, s, h, s', m.t, m.addr, u, e); }
    forall x: int | x in s'.known ensures x in s'.heap && (s'.heap[x].dead ==> Ended(s', x)) { KnownKept(c, s, s', m.t, m.addr, x); }
    assert forall u :: 0 <= u < |s'.pc| && !s'.pc[u].Idle? ==> !s.pc[u].Idle? && OpOf(s'.pc[u]) == OpOf(s.pc[u]);
  }

  lemma BeginNames(c: Config, s: State, m: Move)
    requires NamesInv(s) && Enabled(c, s, m) && m.Begin?
    ensures NamesInv(Step(c, s, m))
  {
    var s' := Step(c, s, m);
    forall u, e: int | 0 <= u < |s'.pc| ensures HiddenInv(s', u, e) { assert HiddenInv(s, u, e); }
    forall x: int | x in s'.known ensures x in s'.heap && (s'.heap[x].dead ==> Ended(s', x)) {
      if s'.heap[x].dead {
        var u :| 0 <= u < |s.pc| && Ending(s.pc[u], x);
        assert Ending(s'.pc[u], x);
      }
    }
  }

  lemma {:induction false} Names(c: Config, sched: seq<Move>)
    requires ValidConfig(c)
    ensures NamesInv(Exec(c, sched))
  {
    if sched != [] {
      var before, m := sched[..|sched| - 1], sched[|sched| - 1];
      assert before + [m] == sched;
      Names(c, before);
      Invariant(c, before);
      Then(c, before, m);
      if Enabled(c, Exec(c, before), m) {
        if m.Run? { RunNames(c, Exec(c, before), History(c, before), m); } else { BeginNames(c, Exec(c, before), m); }
      }
    }
  }

  // ---- no node is forgotten -----------------------------------------------

  /** Node x is tombstoned, or callers may name it, or its inserter has not returned yet. */
  ghost predicate Kept(s: State, x: int) {
    x in s.known || (x in s.heap && s.heap[x].dead) || exists t :: 0 <= t < |s.pc| && Hidden(s.pc[t], x)
  }

  /** Writer t is past its tombstone. */
  predicate Victim(pc: Pc, x: int) {
    (pc.UnPrev? && pc.pl.op == Del(x)) || (pc.UnNext? && pc.pl.op == Del(x)) || (pc.Release? && pc.pl.op.Del? && pc.e == x)
  }

  ghost predicate KeptInv(s: State) {
    && (forall x: int :: x in s.heap ==> Kept(s, x))
    && (forall t, x: int :: 0 <= t < |s.pc| && Victim(s.pc[t], x) ==> x in s.heap && s.heap[x].dead)
  }

  /** What an access allocates, and what becomes of the mover's own node and of its victim. */
  ghost predicate Allots(s: State, t: int, s': State)
    requires 0 <= t < |s.pc| && |s'.pc| == |s.pc|
  {
    var pc, pc' := s.pc[t], s'.pc[t];
    && (forall x: int :: x in s'.heap ==> x in s.heap || Hidden(pc', x))
    && (forall x: int :: Hidden(pc, x) ==> Hidden(pc', x) || (pc.Release? && pc.i <= 1 && pc.pl.op.Ins? && pc.e == x))
    && (forall x: int :: Victim(pc', x) ==> Victim(pc, x) || (pc.Kill? && pc.pl.op.at == x))
  }

  lemma PlanAllots(c: Config, s: State, t: int, addr: int)
    requires 0 <= t < |s.pc| && Safe(s.heap, s.pc[t]) && (s.pc[t].Load1? || s.pc[t].Load2? || s.pc[t].Lock? || s.pc[t].Check? || s.pc[t].Undo?)
    ensures Allots(s, t, Access(c, s, t, addr))
  {
  }

  lemma LinkAllots(c: Config, s: State, t: int, addr: int)
    requires 0 <= t < |s.pc| && Safe(s.heap, s.pc[t]) && (s.pc[t].New? || s.pc[t].LinkPrev? || s.pc[t].LinkNext?)
    requires s.pc[t].LinkNext? ==> s.pc[t].pl.op.Ins?
    ensures Allots(s, t, Access(c, s, t, addr))
  {
  }

  lemma UnlinkAllots(c: Config, s: State, t: int, addr: int)
    requires 0 <= t < |s.pc| && Safe(s.heap, s.pc[t]) && (s.pc[t].Kill? || s.pc[t].UnPrev? || s.pc[t].UnNext? || s.pc[t].Release?)
    requires s.pc[t].Kill? || s.pc[t].UnPrev? || s.pc[t].UnNext? ==> s.pc[t].pl.op.Del?
    ensures Allots(s, t, Access(c, s, t, addr))
  {
  }

  lemma AccessAllots(c: Config, s: State, h: Past, t: int, addr: int)
    requires Inv(c, s, h) && 0 <= t < |s.pc| && Safe(s.heap, s.pc[t]) && !s.pc[t].Idle?
    ensures Allots(s, t, Access(c, s, t, addr))
  {
    var pc := s.pc[t];
    assert PcInv(c, s, h, t, pc);
    if pc.Load1? || pc.Load2? || pc.Lock? || pc.Check? || pc.Undo? { PlanAllots(c, s, t, addr); }
    else if pc.New? || pc.LinkPrev? || pc.LinkNext? { LinkAllots(c, s, t, addr); }
    else { UnlinkAllots(c, s, t, addr); }
  }

  lemma StillKept(c: Config, s: State, s': State, t: int, addr: int, x: int)
    requires KeptInv(s) && 0 <= t < |s.pc| && !s.pc[t].Idle? && Advances(c, s, t, s') && Touching(s, t, addr, s') && Allots(s, t, s')
    requires x in s'.heap
    ensures Kept(s', x)
  {
    if x !in s.heap {
      assert Hidden(s'.pc[t], x);
    } else if x in s.known {
      assert x !in s'.known ==> Victim(s.pc[t], x);
    } else if !s.heap[x].dead {
      assert Kept(s, x);
      var u :| 0 <= u < |s.pc| && Hidden(s.pc[u], x);
      assert Hidden(s'.pc[u], x) || x in s'.known;
    }
  }

  lemma StillVictim(c: Config, s: State, s': State, t: int, addr: int, u: int, x: int)
    requires KeptInv(s) && 0 <= t < |s.pc| && !s.pc[t].Idle? && Advances(c, s, t, s') && Touching(s, t, addr, s') && Allots(s, t, s')
    requires s.pc[t].Kill? ==> s.pc[t].pl.op.at in s.heap
    requires 0 <= u < |s'.pc| && Victim(s'.pc[u], x)
    ensures x in s'.heap && s'.heap[x].dead
  {
    assert (u == t && s.pc[t].Kill? && s.pc[t].pl.op.at == x) || Victim(s.pc[u], x);
  }

  lemma KeptTo(c: Config, s: State, s': State, t: int, addr: int)
    requires KeptInv(s) && 0 <= t < |s.pc| && !s.pc[t].Idle? && Advances(c, s, t, s') && Touching(s, t, addr, s') && Allots(s, t, s')
    requires s.pc[t].Kill? ==> s.pc[t].pl.op.at in s.heap
    ensures KeptInv(s')
  {
    forall x: int | x in s'.heap ensures Kept(s', x) { StillKept(c, s, s', t, addr, x); }
    forall u, x: int | 0 <= u < |s'.pc| && Victim(s'.pc[u], x) ensures x in s'.heap && s'.heap[x].dead {
      StillVictim(c, s, s', t, addr, u, x);
    }
  }

  lemma RunKeeps(c: Config, s: State, h: Past, m: Move)
    requires Inv(c, s, h) && KeptInv(s) && NamesInv(s) && Enabled(c, s, m) && m.Run? && !Step(c, s, m).fault
    ensures KeptInv(Step(c, s, m))
  {
    var s' := Step(c, s, m);
    AccessAdvances(c, s, m.t, m.addr);
    AccessTouches(c, s, h, m.t, m.addr);
    AccessAllots(c, s, h, m.t, m.addr);
    assert OpOf(s.pc[m.t]).at in s.heap;
    KeptTo(c, s, s', m.t, m.addr);
  }

  lemma BeginKeeps(c: Config, s: State, m: Move)
    requires KeptInv(s) && Enabled(c, s, m) && m.Begin?
    ensures KeptInv(Step(c, s, m))
  {
    var s' := Step(c, s, m);
    forall x: int | x in s'.heap ensures Kept(s', x) {
      assert Kept(s, x);
      if x !in s.known && !s.heap[x].dead {
        var u :| 0 <= u < |s.pc| && Hidden(s.pc[u], x);
        assert Hidden(s'.pc[u], x);
      }
    }
    forall u, x: int | 0 <= u < |s'.pc| && Victim(s'.pc[u], x) ensures x in s'.heap && s'.heap[x].dead {
      assert Victim(s.pc[u], x);
    }
  }

  lemma {:induction false} AllKept(c: Config, sched: seq<Move>)
    requires ValidConfig(c)
    ensures KeptInv(Exec(c, sched))
  {
    if sched != [] {
      var before, m := sched[..|sched| - 1], sched[|sched| - 1];
      assert before + [m] == sched;
      AllKept(c, before);
      Names(c, before);
      Invariant(c, before);
      Then(c, before, m);
      if Enabled(c, Exec(c, before), m) {
        if m.Run? { RunKeeps(c, Exec(c, before), History(c, before), m); } else { BeginKeeps(c, Exec(c, before), m); }
      }
    }
  }

  /** While no operation is under way, the list holds exactly the nodes that callers may name, and all others are tombstoned. */
  lemma KnownIsListed(c: Config, sched: seq<Move>, x: int)
    requires ValidConfig(c) && forall t :: 0 <= t < c.threads ==> Exec(c, sched).pc[t].Idle?
    ensures x in Exec(c, sched).known <==> x in History(c, sched).ring
    ensures x in Exec(c, sched).known <==> x in Exec(c, sched).heap && !Exec(c, sched).heap[x].dead
  {
    Names(c, sched);
    AllKept(c, sched);
    Invariant(c, sched);
    var s, h := Exec(c, sched), History(c, sched);
    if x in s.heap {
      assert Kept(s, x);
      assert x in h.mine ==> Making(s, h, x);
    }
    if x in h.linked { assert NodeInv(c, s, h, x); }
  }

  // ---- an operation that runs alone ---------------------------------------

  predicate Alive(heap: map<int, Node>, x: int) { x in heap && !heap[x].dead }

  /** The plan is what the links say. */
  predicate Matches(heap: map<int, Node>, pl: Plan) {
    && Alive(heap, pl.op.at) && heap[pl.op.at].next == pl.succ
    && pl.pred == if pl.op.Ins? then pl.op.at else heap[pl.op.at].prev
  }

  ghost predicate OthersIdle(s: State, t: int) {
    0 <= t < |s.pc| && forall u :: 0 <= u < |s.pc| && u != t ==> s.pc[u].Idle?
  }

  predicate OnTrack(heap: map<int, Node>, pc: Pc) {
    match pc
    case Idle => true
    case Load1(op) => Alive(heap, op.at)
    case Load2(op, pred) => Alive(heap, op.at) && heap[op.at].prev == pred
    case Lock(pl, _) => Matches(heap, pl)
    case Check(pl, _) => Matches(heap, pl)
    case New(pl) => Matches(heap, pl)
    case Kill(pl) => Matches(heap, pl)
    case Undo(_, _) => false
    case _ => true
  }

  predicate Calm(pc: Pc) { !pc.LinkPrev? && !pc.LinkNext? && !pc.UnPrev? && !pc.UnNext? }

  /** With nobody inside a commit, every node on the ring is alive and its links are inverse. */
  lemma CalmRing(c: Config, s: State, h: Past, t: int, i: int)
    requires Inv(c, s, h) && OthersIdle(s, t) && Calm(s.pc[t]) && 0 <= i < |h.ring|
    ensures Alive(s.heap, h.ring[i]) && s.heap[h.ring[i]].next == NextIn(h.ring, i)
    ensures NextIn(h.ring, i) in s.heap && s.heap[NextIn(h.ring, i)].prev == h.ring[i]
  {
    assert h.ring[i] in h.ring && NodeInv(c, s, h, h.ring[i]) && Follows(s.heap, h.ring, i) && BackInv(c, s, h.ring, i);
  }

  /** Then a plan that matches the links passes every condition of its validation. */
  lemma CalmConds(c: Config, s: State, h: Past, t: int, pl: Plan, k: int)
    requires Inv(c, s, h) && OthersIdle(s, t) && Calm(s.pc[t]) && Matches(s.heap, pl) && pl.op.at in h.linked && 0 <= k < Conditions(pl)
    ensures Cond(s.heap, pl, k)
  {
    assert NodeInv(c, s, h, pl.op.at);
    var i :| 0 <= i < |h.ring| && h.ring[i] == pl.op.at;
    var j := if i == 0 then |h.ring| - 1 else i - 1;
    CalmRing(c, s, h, t, i);
    CalmRing(c, s, h, t, j);
    CalmRing(c, s, h, t, Wrap(h.ring, i));
  }

  /** The lock it wants is free. */
  lemma CalmLock(c: Config, s: State, t: int)
    requires LockInv(c, s) && OthersIdle(s, t) && s.pc[t].Lock?
    ensures Wanted(s.pc[t]) !in s.owner
  {
    var pc := s.pc[t];
    assert CountInv(c, pc);
    forall k: int | k in s.owner ensures k in pc.pl.keys[..pc.i] { assert HoldsKey(s.pc[s.owner[k]], k); }
    assert pc.pl.keys[pc.i] !in pc.pl.keys[..pc.i];
  }

  function Stage(pc: Pc): nat {
    match pc
    case Idle => 0
    case Load1(_) => 9
    case Load2(_, _) => 8
    case Lock(_, _) => 7
    case Check(_, _) => 6
    case New(_) => 5
    case Kill(_) => 5
    case LinkPrev(_, _) => 4
    case UnPrev(_) => 4
    case LinkNext(_, _) => 3
    case UnNext(_) => 3
    case Release(_, _, _) => 2
    case Undo(_, _) => 10
  }

  function Rest(pc: Pc): int {
    match pc
    case Lock(pl, i) => |pl.keys| - i
    case Check(pl, k) => Conditions(pl) - k
    case Release(_, _, i) => i
    case _ => 0
  }

  predicate Nearer(pc: Pc, pc': Pc) {
    Stage(pc') < Stage(pc) || (Stage(pc') == Stage(pc) && 0 <= Rest(pc') < Rest(pc))
  }

  /** The node that a step before the commit allocates is new; others carry theirs along. */
  predicate Carries(pc: Pc, addr: int, pc': Pc) {
    && (pc'.LinkPrev? <==> pc.New?) && (pc'.LinkPrev? ==> pc'.e == addr)
    && (pc'.LinkNext? ==> pc.LinkPrev? && pc'.e == pc.e)
  }

  ghost predicate StepsOn(s: State, t: int, addr: int, s': State)
    requires 0 <= t < |s.pc| && |s'.pc| == |s.pc|
  {
    && OnTrack(s'.heap, s'.pc[t]) && Nearer(s.pc[t], s'.pc[t]) && Carries(s.pc[t], addr, s'.pc[t])
  }

  lemma LoadAlone(c: Config, s: State, h: Past, t: int, addr: int)
    requires Inv(c, s, h) && OthersIdle(s, t) && OnTrack(s.heap, s.pc[t]) && Safe(s.heap, s.pc[t]) && (s.pc[t].Load1? || s.pc[t].Load2?)
    ensures StepsOn(s, t, addr, Access(c, s, t, addr))
  {
    assert PcInv(c, s, h, t, s.pc[t]);
  }

  lemma LockAlone(c: Config, s: State, h: Past, t: int, addr: int)
    requires Inv(c, s, h) && OthersIdle(s, t) && OnTrack(s.heap, s.pc[t]) && Safe(s.heap, s.pc[t]) && (s.pc[t].Lock? || s.pc[t].Check?)
    ensures StepsOn(s, t, addr, Access(c, s, t, addr))
  {
    var pc := s.pc[t];
    assert PcInv(c, s, h, t, pc) && CountInv(c, pc);
    if pc.Check? { CalmConds(c, s, h, t, pc.pl, pc.k); }
  }

  lemma StoreAlone(c: Config, s: State, h: Past, t: int, addr: int)
    requires Inv(c, s, h) && OthersIdle(s, t) && OnTrack(s.heap, s.pc[t]) && Safe(s.heap, s.pc[t])
    requires s.pc[t].New? || s.pc[t].LinkPrev? || s.pc[t].LinkNext? || s.pc[t].Kill?
    ensures StepsOn(s, t, addr, Access(c, s, t, addr))
  {
    assert CountInv(c, s.pc[t]);
  }

  lemma EndAlone(c: Config, s: State, h: Past, t: int, addr: int)
    requires Inv(c, s, h) && OthersIdle(s, t) && OnTrack(s.heap, s.pc[t]) && Safe(s.heap, s.pc[t])
    requires s.pc[t].UnPrev? || s.pc[t].UnNext? || s.pc[t].Release?
    ensures StepsOn(s, t, addr, Access(c, s, t, addr))
  {
    assert CountInv(c, s.pc[t]);
  }

  /** Writer t is at an operation and nobody else is. */
  ghost predicate Alone(c: Config, sched: seq<Move>, t: int)
    requires ValidConfig(c)
  {
    var s := Exec(c, sched);
    OthersIdle(s, t) && !s.pc[t].Idle? && OnTrack(s.heap, s.pc[t])
  }

  lemma AloneStep(c: Config, sched: seq<Move>, t: int, addr: int)
    requires ValidConfig(c) && Alone(c, sched, t) && addr !in Exec(c, sched).heap
    ensures var s, s' := Exec(c, sched), Exec(c, sched + [Run(t, addr)]);
            && Enabled(c, s, Run(t, addr)) && OthersIdle(s', t) && StepsOn(s, t, addr, s') && Advances(c, s, t, s')
  {
    var s, h := Exec(c, sched), History(c, sched);
    Then(c, sched, Run(t, addr));
    Invariant(c, sched);
    if s.pc[t].Lock? { CalmLock(c, s, t); }
    assert Enabled(c, s, Run(t, addr));
    AccessAdvances(c, s, t, addr);
    if s.pc[t].Load1? || s.pc[t].Load2? { LoadAlone(c, s, h, t, addr); }
    else if s.pc[t].Lock? || s.pc[t].Check? { LockAlone(c, s, h, t, addr); }
    else if s.pc[t].New? || s.pc[t].LinkPrev? || s.pc[t].LinkNext? || s.pc[t].Kill? { StoreAlone(c, s, h, t, addr); }
    else { EndAlone(c, s, h, t, addr); }
  }

  /** The list before and after what is left of an operation; e is its new node. */
  ghost predicate Effect(pc: Pc, r: seq<int>, r': seq<int>, e: int) {
    if !Pending(pc) then r' == r
    else if OpOf(pc).Ins? then
      e !in r && r' == After(r, OpOf(pc).at, e) && (pc.LinkPrev? ==> pc.e == e) && (pc.LinkNext? ==> pc.e == e)
    else r' == Minus(r, OpOf(pc).at)
  }

  lemma {:induction false} FinishAlone(c: Config, sched: seq<Move>, t: int) returns (done: seq<Move>, e: int)
    requires ValidConfig(c) && Alone(c, sched, t)
    ensures var s, s' := Exec(c, sched), Exec(c, done);
            && (forall u :: 0 <= u < c.threads ==> s'.pc[u].Idle?) && s'.retries == s.retries
            && Effect(s.pc[t], History(c, sched).ring, History(c, done).ring, e)
            && (Pending(s.pc[t]) && OpOf(s.pc[t]).Ins? && !s.pc[t].LinkPrev? && !s.pc[t].LinkNext? ==> e !in s.heap)
    decreases Stage(Exec(c, sched).pc[t]), Rest(Exec(c, sched).pc[t])
  {
    var s := Exec(c, sched);
    var addr := FreshAddress(s.heap.Keys);
    assert addr !in s.heap;
    var m := Run(t, addr);
    AloneStep(c, sched, t, addr);
    done := sched + [m];
    e := if s.pc[t].LinkNext? then s.pc[t].e else addr;
    CommitsAtomic(c, sched, m);
    HeapGrows(c, sched, m);
    if !Exec(c, done).pc[t].Idle? {
      var rest, x := FinishAlone(c, done, t);
      OneEffect(c, sched, t, addr, rest, x);
      done := rest;
      if !s.pc[t].LinkNext? { e := x; }
    }
  }

  lemma HeapGrows(c: Config, sched: seq<Move>, m: Move)
    requires ValidConfig(c)
    ensures Exec(c, sched).heap.Keys <= Exec(c, sched + [m]).heap.Keys
  {
    Then(c, sched, m);
    Grows(c, Exec(c, sched), m);
  }

  lemma Grows(c: Config, s: State, m: Move)
    ensures s.heap.Keys <= Step(c, s, m).heap.Keys
  {
  }

  /** One step of the operation, and then the rest of it. */
  lemma OneEffect(c: Config, sched: seq<Move>, t: int, addr: int, rest: seq<Move>, x: int)
    requires ValidConfig(c) && Alone(c, sched, t) && addr !in Exec(c, sched).heap
    requires var s, s' := Exec(c, sched), Exec(c, sched + [Run(t, addr)]);
             && Enabled(c, s, Run(t, addr)) && StepsOn(s, t, addr, s') && Advances(c, s, t, s') && !s'.pc[t].Idle?
             && Effect(s'.pc[t], History(c, sched + [Run(t, addr)]).ring, History(c, rest).ring, x)
    ensures var pc := Exec(c, sched).pc[t];
            && Effect(pc, History(c, sched).ring, History(c, rest).ring, if pc.LinkNext? then pc.e else x)
            && (pc.New? ==> x == addr)
  {
    CommitsAtomic(c, sched, Run(t, addr));
    NewInserts(c, sched, t);
  }

  lemma NewInserts(c: Config, sched: seq<Move>, t: int)
    requires ValidConfig(c) && 0 <= t < c.threads
    ensures Exec(c, sched).pc[t].New? ==> Exec(c, sched).pc[t].pl.op.Ins?
  {
    Invariant(c, sched);
    assert PcInv(c, Exec(c, sched), History(c, sched), t, Exec(c, sched).pc[t]);
  }

  /**
   An operation that starts while no other is under way can be run to its end without a
   retry.  An insert then puts one node of its own right after its anchor, a delete takes its
   node out, and nothing else changes on the list.
   */
  lemma OperationAlone(c: Config, sched: seq<Move>, t: int, op: Op) returns (done: seq<Move>, e: int)
    requires ValidConfig(c) && 0 <= t < c.threads && op.at in Exec(c, sched).known && (op.Del? ==> op.at != HEAD)
    requires forall u :: 0 <= u < c.threads ==> Exec(c, sched).pc[u].Idle?
    ensures (forall u :: 0 <= u < c.threads ==> Exec(c, done).pc[u].Idle?) && Exec(c, done).retries == Exec(c, sched).retries
    ensures var r, r' := History(c, sched).ring, History(c, done).ring;
            && Cycle(Exec(c, sched).heap, r) && Cycle(Exec(c, done).heap, r')
            && op.at in r && (if op.Ins? then e !in Exec(c, sched).heap && r' == After(r, op.at, e) else r' == Minus(r, op.at))
  {
    var m := Begin(t, op);
    KnownIsListed(c, sched, op.at);
    Then(c, sched, m);
    CommitsAtomic(c, sched, m);
    done, e := FinishAlone(c, sched + [m], t);
    Invariant(c, done);
  }
}
