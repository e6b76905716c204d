/**
 What operations of the rcu_hlist engine come to, in every interleaving: toggles flip
 their key exactly once, lookups end, locks are given back, and no memory is lost.
 */
module RcuHashCalls {
  import opened SortedChain
  import opened RcuArena
  import opened RcuHash
  import opened RcuHashInvariant
  import opened RcuHashTheorems
  import opened RcuHashGuard

  // ---- toggles ------------------------------------------------------------

  predicate PendingOn(pc: Pc, k: int) { Pending(pc) && pc.k == k }

  predicate Starts(c: Config, s: State, m: Move, k: int) { Enabled(c, s, m) && m.Toggle? && m.k == k }

  /** How many toggles of key k the schedule has started. */
  ghost function Begun(c: Config, sched: seq<Move>, k: int): nat
    requires ValidConfig(c)
  {
    if sched == [] then 0
    else
      var before := sched[..|sched| - 1];
      Begun(c, before, k) + if Starts(c, Exec(c, before), sched[|sched| - 1], k) then 1 else 0
  }

  /** How many threads have still to publish or unlink key k. */
  function Waiting(pcs: seq<Pc>, k: int): nat {
    if pcs == [] then 0
    else Waiting(pcs[..|pcs| - 1], k) + if PendingOn(pcs[|pcs| - 1], k) then 1 else 0
  }

  lemma {:induction false} WaitingUpdate(pcs: seq<Pc>, t: int, pc: Pc, k: int)
    requires 0 <= t < |pcs|
    ensures Waiting(pcs[t := pc], k) + (if PendingOn(pcs[t], k) then 1 else 0) == Waiting(pcs, k) + if PendingOn(pc, k) then 1 else 0
  {
    var last := |pcs| - 1;
    if t == last {
      assert pcs[t := pc][..last] == pcs[..last];
    } else {
      assert pcs[t := pc][..last] == pcs[..last][t := pc];
      WaitingUpdate(pcs[..last], t, pc, k);
    }
  }

  /** An access ends a pending toggle exactly if it publishes or unlinks the key. */
  lemma AccessPending(c: Config, s: State, t: int, addr: int)
    requires ValidConfig(c) && Enabled(c, s, Run(t, addr)) && Touches(c, s.pc[t]) in s.mem.heap
    ensures var pc, s' := s.pc[t], Access(c, s, t, addr);
            && s'.pc == s.pc[t := s'.pc[t]]
            && (Pending(s'.pc[t]) ==> Pending(pc) && s'.pc[t].k == pc.k)
            && (Pending(pc) && !Pending(s'.pc[t]) <==> pc.WPublish? || pc.WUnlink?)
  {
  }

  lemma MovePending(c: Config, s: State, m: Move, k: int)
    requires ValidConfig(c) && Enabled(c, s, m) && !Step(c, s, m).fault
    ensures Waiting(Step(c, s, m).pc, k) + (if TogglesKey(c, s, m, k) then 1 else 0) == Waiting(s.pc, k) + if Starts(c, s, m, k) then 1 else 0
  {
    var s' := Step(c, s, m);
    match m
    case Run(t, addr) =>
      AccessPending(c, s, t, addr);
      WaitingUpdate(s.pc, t, s'.pc[t], k);
    case Find(t, x) => WaitingUpdate(s.pc, t, RHead(x), k);
    case Toggle(t, x) => WaitingUpdate(s.pc, t, WLock(x), k);
    case _ =>
  }

  lemma {:induction false} NoneWaiting(n: nat, k: int)
    ensures Waiting(seq(n, i => Idle), k) == 0
  {
    if n > 0 {
      assert seq(n, i => Idle)[..n - 1] == seq(n - 1, i => Idle);
      NoneWaiting(n - 1, k);
    }
  }

  lemma WaitingStep(c: Config, before: seq<Move>, m: Move, k: int)
    requires ValidConfig(c)
    ensures Begun(c, before + [m], k) == Begun(c, before, k) + if Starts(c, Exec(c, before), m, k) then 1 else 0
    ensures Waiting(Exec(c, before + [m]).pc, k) + (if TogglesKey(c, Exec(c, before), m, k) then 1 else 0)
         == Waiting(Exec(c, before).pc, k) + if Starts(c, Exec(c, before), m, k) then 1 else 0
  {
    assert (before + [m])[..|before|] == before;
    Then(c, before, m);
    if Enabled(c, Exec(c, before), m) { MovePending(c, Exec(c, before), m, k); }
  }

  /** The toggles of key k that have taken effect. */
  ghost function Done(c: Config, sched: seq<Move>, k: int): int
    requires ValidConfig(c)
  {
    Begun(c, sched, k) - Waiting(Exec(c, sched).pc, k)
  }

  lemma OddStep(done: int, done': int, flip: bool)
    requires done' == done + if flip then 1 else 0
    ensures done' % 2 == 1 <==> (done % 2 == 1) != flip
  {
  }

  lemma NoneDone(c: Config, k: int)
    requires ValidConfig(c) && 0 <= k < c.space.range
    ensures Done(c, [], k) == 0 && !Answer(c, [], k)
  {
    NoneWaiting(c.threads, k);
    NoneFilled(c, 0);
  }

  /** A key is there exactly after an odd number of completed toggles: every one flips it once, whoever else runs. */
  lemma {:induction false} KeyParity(c: Config, sched: seq<Move>, k: int)
    requires ValidConfig(c) && 0 <= k < c.space.range
    ensures Done(c, sched, k) >= 0 && (Answer(c, sched, k) <==> Done(c, sched, k) % 2 == 1)
  {
    if sched == [] {
      NoneDone(c, k);
    } else {
      var before, m := sched[..|sched| - 1], sched[|sched| - 1];
      assert before + [m] == sched;
      KeyParity(c, before, k);
      UpdatesAtomic(c, before, m, k);
      WaitingStep(c, before, m, k);
      OddStep(Done(c, before, k), Done(c, sched, k), Answer(c, sched, k) != Answer(c, before, k));
    }
  }

  // ---- lookups ------------------------------------------------------------

  /** How many more accesses of its own a lookup can make before it has its answer. */
  function Left(c: Config, pc: Pc): int {
    match pc
    case RHead(_) => 2 * c.limit + 2
    case RLoop(_, _, _, steps) => 2 * (c.limit - steps) + 1
    case RNext(_, _, _, steps) => 2 * (c.limit - steps) + 2
    case _ => 0
  }

  predicate Walking(pc: Pc) { pc.RHead? || pc.RLoop? || pc.RNext? }

  predicate StepsOk(c: Config, pc: Pc) { (pc.RLoop? || pc.RNext? ==> 0 <= pc.steps <= c.limit) && (pc.RNext? ==> pc.steps >= 1) }

  lemma AccessShrinks(c: Config, s: State, t: int, addr: int)
    requires ValidConfig(c) && Enabled(c, s, Run(t, addr)) && Touches(c, s.pc[t]) in s.mem.heap && StepsOk(c, s.pc[t])
    ensures var pc, pc' := s.pc[t], Access(c, s, t, addr).pc[t];
            && StepsOk(c, pc')
            && (Walking(pc) ==> !pc'.Idle? && pc'.k == pc.k && (pc'.RDone? || Walking(pc')) && Left(c, pc') < Left(c, pc))
  {
  }

  lemma {:induction false} StepsBounded(c: Config, sched: seq<Move>, t: int)
    requires ValidConfig(c) && 0 <= t < c.threads
    ensures StepsOk(c, Exec(c, sched).pc[t])
  {
    if sched != [] {
      var before, m := sched[..|sched| - 1], sched[|sched| - 1];
      assert before + [m] == sched;
      StepsBounded(c, before, t);
      Then(c, before, m);
      LookStep(c, Exec(c, before), m, t);
    }
  }

  /** One move, seen from thread t. */
  lemma LookStep(c: Config, s: State, m: Move, t: int)
    requires ValidConfig(c) && 0 <= t < |s.pc| && !s.fault && !Step(c, s, m).fault && StepsOk(c, s.pc[t])
    ensures |Step(c, s, m).pc| == |s.pc|
    ensures var pc, pc' := s.pc[t], Step(c, s, m).pc[t];
            && StepsOk(c, pc')
            && (Walking(pc) && Enabled(c, s, m) && m.Run? && m.t == t ==> !pc'.Idle? && pc'.k == pc.k && (pc'.RDone? || Walking(pc')) && Left(c, pc') < Left(c, pc))
            && (Walking(pc) && !(Enabled(c, s, m) && m.Run? && m.t == t) ==> pc' == pc)
  {
    if Enabled(c, s, m) && m.Run? {
      AccessPending(c, s, m.t, m.addr);
      if m.t == t { AccessShrinks(c, s, t, m.addr); }
    }
  }

  /** The accesses that thread t has made in the last moves of the schedule. */
  ghost function Own(c: Config, sched: seq<Move>, ext: seq<Move>, t: int): nat
    requires ValidConfig(c)
  {
    if ext == [] then 0
    else
      var most, m := ext[..|ext| - 1], ext[|ext| - 1];
      Own(c, sched, most, t) + if Enabled(c, Exec(c, sched + most), m) && m.Run? && m.t == t then 1 else 0
  }

  lemma LookNext(c: Config, at: seq<Move>, m: Move, t: int)
    requires ValidConfig(c) && 0 <= t < c.threads && Walking(Exec(c, at).pc[t])
    ensures var pc, pc' := Exec(c, at).pc[t], Exec(c, at + [m]).pc[t];
            && !pc'.Idle? && pc'.k == pc.k
            && (pc'.RDone? || (Walking(pc') && 0 < Left(c, pc') <= Left(c, pc) - if Enabled(c, Exec(c, at), m) && m.Run? && m.t == t then 1 else 0))
  {
    StepsBounded(c, at, t);
    StepsBounded(c, at + [m], t);
    Then(c, at, m);
    LookStep(c, Exec(c, at), m, t);
  }

  /** Every lookup has its answer within 2 * limit + 2 accesses of its own, whatever runs meanwhile. */
  lemma {:induction false} LookupEnds(c: Config, sched: seq<Move>, ext: seq<Move>, t: int) returns (j: nat)
    requires ValidConfig(c) && 0 <= t < c.threads && Walking(Exec(c, sched).pc[t])
    ensures Left(c, Exec(c, sched).pc[t]) <= 2 * c.limit + 2
    ensures j <= |ext|
    ensures var pc, pc' := Exec(c, sched).pc[t], Exec(c, sched + ext[..j]).pc[t];
            && !pc'.Idle? && pc'.k == pc.k
            && (pc'.RDone? || (j == |ext| && Walking(pc') && 0 < Left(c, pc') <= Left(c, pc) - Own(c, sched, ext, t)))
  {
    StepsBounded(c, sched, t);
    if ext == [] {
      assert sched + ext == sched;
      j := 0;
    } else {
      var most, m := ext[..|ext| - 1], ext[|ext| - 1];
      j := LookupEnds(c, sched, most, t);
      assert most[..j] == ext[..j];
      if !Exec(c, sched + most[..j]).pc[t].RDone? {
        assert most[..j] == most && sched + ext == (sched + most) + [m];
        LookNext(c, sched + most, m, t);
        j := |ext|;
        assert ext[..j] == ext;
      }
    }
  }

  // ---- locks --------------------------------------------------------------

  /** A locked bucket's holder is working on that bucket. */
  ghost predicate Held(c: Config, s: State)
    requires ValidConfig(c)
  {
    forall b: int :: b in s.owner ==> 0 <= s.owner[b] < |s.pc| && Critical(s.pc[s.owner[b]]) && Bucket(c.space, s.pc[s.owner[b]].k) == b
  }

  lemma AccessLocks(c: Config, s: State, t: int, addr: int)
    requires ValidConfig(c) && Enabled(c, s, Run(t, addr)) && Touches(c, s.pc[t]) in s.mem.heap
    ensures var pc, s' := s.pc[t], Access(c, s, t, addr);
            var b := Bucket(c.space, pc.k);
            && s'.pc == s.pc[t := s'.pc[t]]
            && (if pc.WUnlock? then s'.owner == s.owner - {b}
                else if pc.WLock? && b !in s.owner then s'.owner == s.owner[b := t] && Critical(s'.pc[t]) && s'.pc[t].k == pc.k
                else s'.owner == s.owner && (Critical(pc) ==> Critical(s'.pc[t]) && s'.pc[t].k == pc.k))
  {
  }

  lemma HeldStep(c: Config, s: State, m: Move)
    requires ValidConfig(c) && Enabled(c, s, m) && !Step(c, s, m).fault && Held(c, s)
    ensures Held(c, Step(c, s, m))
  {
    if m.Run? { AccessLocks(c, s, m.t, m.addr); }
  }

  lemma {:induction false} AlwaysHeld(c: Config, sched: seq<Move>)
    requires ValidConfig(c)
    ensures Held(c, Exec(c, sched))
  {
    if sched != [] {
      var before, m := sched[..|sched| - 1], sched[|sched| - 1];
      assert before + [m] == sched;
      AlwaysHeld(c, before);
      Then(c, before, m);
      if Enabled(c, Exec(c, before), m) { HeldStep(c, Exec(c, before), m); }
    }
  }

  /** Keys of nodes that stay allocated do not change. */
  lemma KeysStay(c: Config, s: State, m: Move, x: int)
    requires ValidConfig(c) && x in s.mem.heap && x in Step(c, s, m).mem.heap
    ensures Step(c, s, m).mem.heap[x].key == s.mem.heap[x].key
  {
  }

  /**
   A writer gets through: inside the critical section every access of its own brings it
   strictly nearer to its unlock, and nothing that others do sets it back.
   */
  lemma WriterNearer(c: Config, sched: seq<Move>, m: Move, t: int)
    requires ValidConfig(c) && 0 <= t < c.threads && Critical(Exec(c, sched).pc[t])
    ensures var s, s' := Exec(c, sched), Exec(c, sched + [m]);
            var pc, pc' := s.pc[t], s'.pc[t];
            if Enabled(c, s, m) && m.Run? && m.t == t then Nears(s.mem.heap, pc, s'.mem.heap, pc')
            else pc' == pc && Ahead(s'.mem.heap, pc') == Ahead(s.mem.heap, pc)
  {
    Then(c, sched, m);
    Invariant(c, sched);
    Invariant(c, sched + [m]);
    var s, s', h, h' := Exec(c, sched), Exec(c, sched + [m]), History(c, sched), History(c, sched + [m]);
    assert PcInv(c, s.mem, h.g, t, s.pc[t]);
    if Enabled(c, s, m) && m.Run? && m.t == t {
      CriticalStep(c, s, h.g, t, m.addr);
    } else {
      if Enabled(c, s, m) && m.Run? { AccessPending(c, s, m.t, m.addr); }
      assert s'.pc[t] == s.pc[t] && PcInv(c, s'.mem, h'.g, t, s'.pc[t]);
      var pc := s.pc[t];
      if pc.WLoop? { KeysStay(c, s, m, pc.cur); }
      if pc.WNext? { KeysStay(c, s, m, pc.pred); }
    }
  }

  ghost predicate Nears(heap: map<int, Cell>, pc: Pc, heap': map<int, Cell>, pc': Pc) {
    pc'.Idle? || (Critical(pc') && (Phase(pc') < Phase(pc) || (Phase(pc') == Phase(pc) && 0 <= Ahead(heap', pc') < Ahead(heap, pc))))
  }

  lemma WalkStep(c: Config, s: State, g: Ghost, t: int, addr: int)
    requires ValidConfig(c) && Enabled(c, s, Run(t, addr)) && (s.pc[t].WLoop? || s.pc[t].WNext?) && Touches(c, s.pc[t]) in s.mem.heap
    requires ArenaInv(c.space, s.mem, g) && WriterInv(c, s.mem, g, t, s.pc[t])
    ensures Nears(s.mem.heap, s.pc[t], Access(c, s, t, addr).mem.heap, Access(c, s, t, addr).pc[t])
  {
    var pc := s.pc[t];
    var b := Bucket(c.space, pc.k);
    assert Chain(s.mem.heap, g.home, b);
    if pc.WNext? { assert Ordered(s.mem.heap, g.home, b, pc.pred); }
  }

  lemma PhaseStep(c: Config, s: State, t: int, addr: int)
    requires ValidConfig(c) && Enabled(c, s, Run(t, addr)) && Critical(s.pc[t]) && !s.pc[t].WLoop? && !s.pc[t].WNext?
    requires Touches(c, s.pc[t]) in s.mem.heap
    ensures Nears(s.mem.heap, s.pc[t], Access(c, s, t, addr).mem.heap, Access(c, s, t, addr).pc[t])
  {
  }

  lemma CriticalStep(c: Config, s: State, g: Ghost, t: int, addr: int)
    requires ValidConfig(c) && Enabled(c, s, Run(t, addr)) && Critical(s.pc[t]) && Touches(c, s.pc[t]) in s.mem.heap
    requires ArenaInv(c.space, s.mem, g) && WriterInv(c, s.mem, g, t, s.pc[t])
    ensures Nears(s.mem.heap, s.pc[t], Access(c, s, t, addr).mem.heap, Access(c, s, t, addr).pc[t])
  {
    if s.pc[t].WLoop? || s.pc[t].WNext? { WalkStep(c, s, g, t, addr); } else { PhaseStep(c, s, t, addr); }
  }

  /** A writer that waits for a bucket's lock waits for one that is inside its critical section on that bucket. */
  lemma LockIsBusy(c: Config, sched: seq<Move>, t: int) returns (u: int)
    requires ValidConfig(c) && 0 <= t < c.threads && Exec(c, sched).pc[t].WLock?
    requires Bucket(c.space, Exec(c, sched).pc[t].k) in Exec(c, sched).owner
    ensures var s := Exec(c, sched);
            0 <= u < c.threads && Critical(s.pc[u]) && Bucket(c.space, s.pc[u].k) == Bucket(c.space, s.pc[t].k)
  {
    AlwaysHeld(c, sched);
    u := Exec(c, sched).owner[Bucket(c.space, Exec(c, sched).pc[t].k)];
  }

  // ---- memory -------------------------------------------------------------

  /** Where an allocated node is. */
  ghost predicate Accounted(s: State, g: Ghost, x: int) {
    || x in g.home || x in s.mem.limbo
    || (x in g.mine && 0 <= g.mine[x] < |s.pc| && (s.pc[g.mine[x]].WInit? || s.pc[g.mine[x]].WPublish?) && s.pc[g.mine[x]].n == x)
    || (x in g.out && 0 <= g.out[x] < |s.pc| && s.pc[g.out[x]].WRetire? && s.pc[g.out[x]].cur == x)
  }

  ghost predicate MemKept(s: State, g: Ghost) {
    && (forall x: int {:trigger Accounted(s, g, x)} :: x in s.mem.heap ==> Accounted(s, g, x))
    && (forall x: int :: x in s.mem.limbo ==> s.mem.limbo[x] <= s.mem.sections)
  }

  predicate Moves(pc: Pc) { pc.WAlloc? || pc.WPublish? || pc.WUnlink? || pc.WRetire? }

  lemma MovesKept(c: Config, s: State, h: Past, m: Move, now: nat, x: int)
    requires ValidConfig(c) && Inv(c, s, h) && Enabled(c, s, m) && m.Run? && !Step(c, s, m).fault && Moves(s.pc[m.t])
    requires x in Step(c, s, m).mem.heap && (x in s.mem.heap ==> Accounted(s, h.g, x))
    ensures Accounted(Step(c, s, m), StepPast(c, s, h, m, now).g, x)
  {
    assert PcInv(c, s.mem, h.g, m.t, s.pc[m.t]);
  }

  /** Other accesses leave every node where it is. */
  lemma StaysShape(c: Config, s: State, h: Past, m: Move, now: nat)
    requires ValidConfig(c) && Enabled(c, s, m) && m.Run? && !Step(c, s, m).fault && !Moves(s.pc[m.t])
    ensures var s', g' := Step(c, s, m), StepPast(c, s, h, m, now).g;
            && s'.mem.heap.Keys == s.mem.heap.Keys && s'.mem.limbo == s.mem.limbo && s'.pc == s.pc[m.t := s'.pc[m.t]]
            && g'.home == h.g.home && g'.mine == h.g.mine && g'.out == h.g.out
            && (s.pc[m.t].WInit? ==> s'.pc[m.t].WPublish? && s'.pc[m.t].n == s.pc[m.t].n)
  {
  }

  lemma AccessKept(c: Config, s: State, h: Past, m: Move, now: nat, x: int)
    requires ValidConfig(c) && Inv(c, s, h) && Enabled(c, s, m) && m.Run? && !Step(c, s, m).fault && MemKept(s, h.g)
    requires x in Step(c, s, m).mem.heap
    ensures Accounted(Step(c, s, m), StepPast(c, s, h, m, now).g, x)
  {
    if x in s.mem.heap { assert Accounted(s, h.g, x); }
    if Moves(s.pc[m.t]) { MovesKept(c, s, h, m, now, x); } else { StaysShape(c, s, h, m, now); }
  }

  lemma OtherKept(c: Config, s: State, h: Past, m: Move, now: nat, x: int)
    requires ValidConfig(c) && Inv(c, s, h) && Enabled(c, s, m) && !m.Run? && MemKept(s, h.g)
    requires x in Step(c, s, m).mem.heap
    ensures Accounted(Step(c, s, m), StepPast(c, s, h, m, now).g, x)
  {
    assert Accounted(s, h.g, x);
  }

  lemma WaitsStep(c: Config, s: State, m: Move)
    requires ValidConfig(c) && Enabled(c, s, m) && forall x: int :: x in s.mem.limbo ==> s.mem.limbo[x] <= s.mem.sections
    ensures forall x: int :: x in Step(c, s, m).mem.limbo ==> Step(c, s, m).mem.limbo[x] <= Step(c, s, m).mem.sections
  {
  }

  lemma {:induction false} AllKept(c: Config, sched: seq<Move>)
    requires ValidConfig(c)
    ensures MemKept(Exec(c, sched), History(c, sched).g)
  {
    if sched != [] {
      var before, m := sched[..|sched| - 1], sched[|sched| - 1];
      assert before + [m] == sched;
      AllKept(c, before);
      Invariant(c, before);
      Then(c, before, m);
      var s, h := Exec(c, before), History(c, before);
      if Enabled(c, s, m) {
        WaitsStep(c, s, m);
        forall x: int | x in Exec(c, sched).mem.heap ensures Accounted(Exec(c, sched), History(c, sched).g, x) {
          if m.Run? { AccessKept(c, s, h, m, |sched|, x); } else { OtherKept(c, s, h, m, |sched|, x); }
        }
      }
    }
  }

  /**
   No leak: when no toggle is under way, every allocated node is met on the walk of some
   bucket or waits to be freed, and what waits, waits only for sections that are open now.
   */
  lemma NoLeak(c: Config, sched: seq<Move>, x: int)
    requires ValidConfig(c) && x in Exec(c, sched).mem.heap && forall t :: 0 <= t < c.threads ==> !Writing(Exec(c, sched).pc[t])
    ensures var a := Exec(c, sched).mem;
            || (x in a.limbo && a.limbo[x] <= a.sections)
            || exists b: int :: 0 <= b < c.space.buckets && x in Spine(a.heap, Head(b))
  {
    AllKept(c, sched);
    Invariant(c, sched);
    var s, g := Exec(c, sched), History(c, sched).g;
    assert Accounted(s, g, x);
    if x in g.home {
      var b := g.home[x];
      assert Chain(s.mem.heap, g.home, b);
      SpineHasAll(s.mem.heap, g.home, b, Head(b), x);
    }
  }
}
