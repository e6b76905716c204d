/**
 What operations of the txn_hlist engine come to, in every interleaving: a toggle commits
 exactly once or loses for a reason, lookups end, and no memory is lost.
 */
module TxnHashCalls {
  import opened SortedChain
  import opened RcuArena
  import opened TxnHash
  import opened TxnHashInvariant
  import opened TxnHashTheorems
  import opened TxnHashGuard

  // ---- toggles ------------------------------------------------------------

  predicate PendingOn(pc: Pc, k: int) { Pending(pc) && pc.k == k }

  predicate Starts(c: Config, s: State, m: Move, k: int) { Enabled(c, s, m) && m.Toggle? && m.k == k }

  /** A toggle of k gives up: its victim is marked already, or its insert finds the key. */
  predicate Loses(c: Config, s: State, m: Move, k: int) {
    && Enabled(c, s, m) && m.Run? && s.pc[m.t].k == k
    && match s.pc[m.t]
       case Del(_, x) => !m.abort && x in s.marked
       case ALoop(_, _, _, cur) => cur in s.mem.heap && s.mem.heap[cur].key == k
       case _ => false
  }

  /** How many toggles of key k the schedule has started, and how many of them gave up. */
  ghost function Begun(c: Config, sched: seq<Move>, k: int): nat
    requires ValidConfig(c)
  {
    if sched == [] then 0
    else
      var before := sched[..|sched| - 1];
      Begun(c, before, k) + if Starts(c, Exec(c, before), sched[|sched| - 1], k) then 1 else 0
  }

  ghost function Lost(c: Config, sched: seq<Move>, k: int): nat
    requires ValidConfig(c)
  {
    if sched == [] then 0
    else
      var before := sched[..|sched| - 1];
      Lost(c, before, k) + if Loses(c, Exec(c, before), sched[|sched| - 1], k) then 1 else 0
  }

  /** How many threads are still at a toggle of key k. */
  function Waiting(pcs: seq<Pc>, k: int): nat {
    if pcs == [] then 0
    else Waiting(pcs[..|pcs| - 1], k) + if PendingOn(pcs[|pcs| - 1], k) then 1 else 0
  }

  lemma {:induction false} WaitingUpdate(pcs: seq<Pc>, t: int, pc: Pc, k: int)
    requires 0 <= t < |pcs|
    ensures Waiting(pcs[t := pc], k) + (if PendingOn(pcs[t], k) then 1 else 0) == Waiting(pcs, k) + if PendingOn(pc, k) then 1 else 0
  {
    var last := |pcs| - 1;
    if t == last {
      assert pcs[t := pc][..last] == pcs[..last];
    } else {
      assert pcs[t := pc][..last] == pcs[..last][t := pc];
      WaitingUpdate(pcs[..last], t, pc, k);
    }
  }

  predicate Locates(pc: Pc) { pc.LHead? || pc.LLoop? || pc.LNext? || pc.Del? || pc.Retire? || pc.Exit? }

  predicate Inserts(pc: Pc) { pc.Alloc? || pc.AHead? || pc.ALoop? || pc.ANext? || pc.Prep? || pc.Commit? || pc.Drop? }

  /** An access ends a pending toggle exactly if it commits or loses. */
  predicate Ends(c: Config, s: State, t: int, addr: int, abort: bool, s': State)
    requires 0 <= t < |s.pc| && !s.pc[t].Idle?
  {
    && |s'.pc| == |s.pc| && s'.pc == s.pc[t := s'.pc[t]]
    && (Pending(s'.pc[t]) ==> Pending(s.pc[t]) && s'.pc[t].k == s.pc[t].k)
    && (Pending(s.pc[t]) && !Pending(s'.pc[t]) <==> Commits(s, Run(t, addr, abort)) || Loses(c, s, Run(t, addr, abort), s.pc[t].k))
    && !(Commits(s, Run(t, addr, abort)) && Loses(c, s, Run(t, addr, abort), s.pc[t].k))
  }

  lemma LocateEnds(c: Config, s: State, t: int, addr: int, abort: bool)
    requires ValidConfig(c) && Enabled(c, s, Run(t, addr, abort)) && Touches(c, s.pc[t]) in s.mem.heap
    requires Locates(s.pc[t]) && !Access(c, s, t, addr, abort).fault
    ensures Ends(c, s, t, addr, abort, Access(c, s, t, addr, abort))
  {
  }

  lemma InsertEnds(c: Config, s: State, t: int, addr: int, abort: bool)
    requires ValidConfig(c) && Enabled(c, s, Run(t, addr, abort)) && Touches(c, s.pc[t]) in s.mem.heap && Inserts(s.pc[t])
    ensures Ends(c, s, t, addr, abort, Access(c, s, t, addr, abort))
  {
  }

  lemma LookEnds(c: Config, s: State, t: int, addr: int, abort: bool)
    requires ValidConfig(c) && Enabled(c, s, Run(t, addr, abort)) && Touches(c, s.pc[t]) in s.mem.heap
    requires !Locates(s.pc[t]) && !Inserts(s.pc[t])
    ensures Ends(c, s, t, addr, abort, Access(c, s, t, addr, abort))
  {
  }

  lemma AccessEnds(c: Config, s: State, t: int, addr: int, abort: bool)
    requires ValidConfig(c) && Enabled(c, s, Run(t, addr, abort)) && Touches(c, s.pc[t]) in s.mem.heap && !Access(c, s, t, addr, abort).fault
    ensures Ends(c, s, t, addr, abort, Access(c, s, t, addr, abort))
  {
    if Locates(s.pc[t]) { LocateEnds(c, s, t, addr, abort); }
    else if Inserts(s.pc[t]) { InsertEnds(c, s, t, addr, abort); }
    else { LookEnds(c, s, t, addr, abort); }
  }

  lemma MovePending(c: Config, s: State, m: Move, k: int)
    requires ValidConfig(c) && Enabled(c, s, m) && !Step(c, s, m).fault
    ensures Waiting(Step(c, s, m).pc, k) + (if CommitsKey(c, s, m, k) then 1 else 0) + (if Loses(c, s, m, k) then 1 else 0)
         == Waiting(s.pc, k) + if Starts(c, s, m, k) then 1 else 0
  {
    var s' := Step(c, s, m);
    match m
    case Run(t, addr, abort) =>
      AccessEnds(c, s, t, addr, abort);
      WaitingUpdate(s.pc, t, s'.pc[t], k);
    case Find(t, x) => WaitingUpdate(s.pc, t, FHead(x), k);
    case Toggle(t, x) => WaitingUpdate(s.pc, t, LHead(x), k);
    case _ =>
  }

  lemma {:induction false} NoneWaiting(n: nat, k: int)
    ensures Waiting(seq(n, i => Idle), k) == 0
  {
    if n > 0 {
      assert seq(n, i => Idle)[..n - 1] == seq(n - 1, i => Idle);
      NoneWaiting(n - 1, k);
    }
  }

  lemma WaitingStep(c: Config, before: seq<Move>, m: Move, k: int)
    requires ValidConfig(c)
    ensures Begun(c, before + [m], k) == Begun(c, before, k) + if Starts(c, Exec(c, before), m, k) then 1 else 0
    ensures Lost(c, before + [m], k) == Lost(c, before, k) + if Loses(c, Exec(c, before), m, k) then 1 else 0
    ensures Waiting(Exec(c, before + [m]).pc, k) + (if CommitsKey(c, Exec(c, before), m, k) then 1 else 0)
              + (if Loses(c, Exec(c, before), m, k) then 1 else 0)
         == Waiting(Exec(c, before).pc, k) + if Starts(c, Exec(c, before), m, k) then 1 else 0
  {
    assert (before + [m])[..|before|] == before;
    Then(c, before, m);
    if Enabled(c, Exec(c, before), m) { MovePending(c, Exec(c, before), m, k); }
  }

  /** The toggles of key k that have taken effect. */
  ghost function Done(c: Config, sched: seq<Move>, k: int): int
    requires ValidConfig(c)
  {
    Begun(c, sched, k) - Lost(c, sched, k) - Waiting(Exec(c, sched).pc, k)
  }

  lemma OddStep(done: int, done': int, flip: bool)
    requires done' == done + if flip then 1 else 0
    ensures done' % 2 == 1 <==> (done % 2 == 1) != flip
  {
  }

  lemma NoneDone(c: Config, k: int)
    requires ValidConfig(c) && 0 <= k < c.space.range
    ensures Done(c, [], k) == 0 && !Answer(c, [], k)
  {
    NoneWaiting(c.threads, k);
    NoneFilled(c, 0);
  }

  /** A key is there exactly after an odd number of commits: one for every toggle but the pending ones and the losers. */
  lemma {:induction false} KeyParity(c: Config, sched: seq<Move>, k: int)
    requires ValidConfig(c) && 0 <= k < c.space.range
    ensures Done(c, sched, k) >= 0 && (Answer(c, sched, k) <==> Done(c, sched, k) % 2 == 1)
  {
    if sched == [] {
      NoneDone(c, k);
    } else {
      var before, m := sched[..|sched| - 1], sched[|sched| - 1];
      assert before + [m] == sched;
      KeyParity(c, before, k);
      UpdatesAtomic(c, before, m, k);
      WaitingStep(c, before, m, k);
      OddStep(Done(c, before, k), Done(c, sched, k), Answer(c, sched, k) != Answer(c, before, k));
    }
  }

  // ---- lookups ------------------------------------------------------------

  /** How many more accesses of its own a lookup can make before it has its answer. */
  function Left(c: Config, pc: Pc): int {
    match pc
    case FHead(_) => 2 * c.limit + 2
    case FLoop(_, _, _, steps) => 2 * (c.limit - steps) + 1
    case FNext(_, _, _, steps) => 2 * (c.limit - steps) + 2
    case _ => 0
  }

  predicate StepsOk(c: Config, pc: Pc) { (pc.FLoop? || pc.FNext? ==> 0 <= pc.steps <= c.limit) && (pc.FNext? ==> pc.steps >= 1) }

  predicate Shrinks(c: Config, pc: Pc, pc': Pc) {
    && StepsOk(c, pc')
    && (Looking(pc) ==> !pc'.Idle? && pc'.k == pc.k && (pc'.FDone? || Looking(pc')) && Left(c, pc') < Left(c, pc))
  }

  lemma LookShrinks(c: Config, s: State, t: int, addr: int, abort: bool)
    requires ValidConfig(c) && Enabled(c, s, Run(t, addr, abort)) && Touches(c, s.pc[t]) in s.mem.heap && StepsOk(c, s.pc[t])
    requires !Locates(s.pc[t]) && !Inserts(s.pc[t])
    ensures Shrinks(c, s.pc[t], Access(c, s, t, addr, abort).pc[t])
  {
  }

  lemma WriteShrinks(c: Config, s: State, t: int, addr: int, abort: bool)
    requires ValidConfig(c) && Enabled(c, s, Run(t, addr, abort)) && Touches(c, s.pc[t]) in s.mem.heap
    requires Locates(s.pc[t]) || Inserts(s.pc[t])
    ensures Shrinks(c, s.pc[t], Access(c, s, t, addr, abort).pc[t])
  {
  }

  /** One move, seen from thread t. */
  lemma LookStep(c: Config, s: State, m: Move, t: int)
    requires ValidConfig(c) && 0 <= t < |s.pc| && !s.fault && !Step(c, s, m).fault && StepsOk(c, s.pc[t])
    ensures |Step(c, s, m).pc| == |s.pc|
    ensures var pc, pc' := s.pc[t], Step(c, s, m).pc[t];
            if Enabled(c, s, m) && m.Run? && m.t == t then Shrinks(c, pc, pc')
            else StepsOk(c, pc') && (Looking(pc) ==> pc' == pc)
  {
    if Enabled(c, s, m) && m.Run? {
      AccessEnds(c, s, m.t, m.addr, m.abort);
      if m.t == t {
        if Locates(s.pc[t]) || Inserts(s.pc[t]) { WriteShrinks(c, s, t, m.addr, m.abort); } else { LookShrinks(c, s, t, m.addr, m.abort); }
      }
    }
  }

  lemma {:induction false} StepsBounded(c: Config, sched: seq<Move>, t: int)
    requires ValidConfig(c) && 0 <= t < c.threads
    ensures StepsOk(c, Exec(c, sched).pc[t])
  {
    if sched != [] {
      var before, m := sched[..|sched| - 1], sched[|sched| - 1];
      assert before + [m] == sched;
      StepsBounded(c, before, t);
      Then(c, before, m);
      LookStep(c, Exec(c, before), m, t);
    }
  }

  /** The accesses that thread t has made in the last moves of the schedule. */
  ghost function Own(c: Config, sched: seq<Move>, ext: seq<Move>, t: int): nat
    requires ValidConfig(c)
  {
    if ext == [] then 0
    else
      var most, m := ext[..|ext| - 1], ext[|ext| - 1];
      Own(c, sched, most, t) + if Enabled(c, Exec(c, sched + most), m) && m.Run? && m.t == t then 1 else 0
  }

  lemma LookNext(c: Config, at: seq<Move>, m: Move, t: int)
    requires ValidConfig(c) && 0 <= t < c.threads && Looking(Exec(c, at).pc[t])
    ensures var pc, pc' := Exec(c, at).pc[t], Exec(c, at + [m]).pc[t];
            && !pc'.Idle? && pc'.k == pc.k
            && (pc'.FDone? || (Looking(pc') && 0 < Left(c, pc') <= Left(c, pc) - if Enabled(c, Exec(c, at), m) && m.Run? && m.t == t then 1 else 0))
  {
    StepsBounded(c, at, t);
    StepsBounded(c, at + [m], t);
    Then(c, at, m);
    LookStep(c, Exec(c, at), m, t);
  }

  /** Every lookup has its answer within 2 * limit + 2 accesses of its own, whatever runs meanwhile. */
  lemma {:induction false} LookupEnds(c: Config, sched: seq<Move>, ext: seq<Move>, t: int) returns (j: nat)
    requires ValidConfig(c) && 0 <= t < c.threads && Looking(Exec(c, sched).pc[t])
    ensures Left(c, Exec(c, sched).pc[t]) <= 2 * c.limit + 2
    ensures j <= |ext|
    ensures var pc, pc' := Exec(c, sched).pc[t], Exec(c, sched + ext[..j]).pc[t];
            && !pc'.Idle? && pc'.k == pc.k
            && (pc'.FDone? || (j == |ext| && Looking(pc') && 0 < Left(c, pc') <= Left(c, pc) - Own(c, sched, ext, t)))
  {
    StepsBounded(c, sched, t);
    if ext == [] {
      assert sched + ext == sched;
      j := 0;
    } else {
      var most, m := ext[..|ext| - 1], ext[|ext| - 1];
      j := LookupEnds(c, sched, most, t);
      assert most[..j] == ext[..j];
      if !Exec(c, sched + most[..j]).pc[t].FDone? {
        assert most[..j] == most && sched + ext == (sched + most) + [m];
        LookNext(c, sched + most, m, t);
        j := |ext|;
        assert ext[..j] == ext;
      }
    }
  }

  // ---- memory -------------------------------------------------------------

  predicate Prepares(pc: Pc) { pc.AHead? || pc.ALoop? || pc.ANext? || pc.Prep? || pc.Commit? || pc.Drop? }

  /** Where an allocated node is. */
  ghost predicate Accounted(s: State, g: Ghost, x: int) {
    || x in g.home || x in s.mem.limbo
    || (x in g.mine && 0 <= g.mine[x] < |s.pc| && Prepares(s.pc[g.mine[x]]) && s.pc[g.mine[x]].n == x)
    || (x in g.out && 0 <= g.out[x] < |s.pc| && s.pc[g.out[x]].Retire? && s.pc[g.out[x]].x == x)
  }

  ghost predicate MemKept(s: State, g: Ghost) {
    && (forall x: int {:trigger Accounted(s, g, x)} :: x in s.mem.heap ==> Accounted(s, g, x))
    && (forall x: int :: x in s.mem.limbo ==> s.mem.limbo[x] <= s.mem.sections)
  }

  predicate Moves(s: State, m: Move)
    requires m.Run? && 0 <= m.t < |s.pc|
  {
    s.pc[m.t].Alloc? || s.pc[m.t].Retire? || s.pc[m.t].Drop? || Commits(s, m)
  }

  lemma CommitsKept(c: Config, s: State, h: Past, m: Move, now: nat, x: int)
    requires ValidConfig(c) && Inv(c, s, h) && Enabled(c, s, m) && m.Run? && !Step(c, s, m).fault && Commits(s, m)
    requires x in Step(c, s, m).mem.heap && (x in s.mem.heap ==> Accounted(s, h.g, x))
    ensures Accounted(Step(c, s, m), StepPast(c, s, h, m, now).g, x)
  {
    assert PcInv(c, s.mem, h.g, m.t, s.pc[m.t]);
    if s.pc[m.t].Commit? {
      CommitShape(c, s, h, m, now);
    } else {
      DelUnlinks(c, s, h, m);
      DelShape(c, s, h, m, now);
    }
  }

  lemma AllocsKept(c: Config, s: State, h: Past, m: Move, now: nat, x: int)
    requires ValidConfig(c) && Inv(c, s, h) && Enabled(c, s, m) && m.Run? && !Step(c, s, m).fault && s.pc[m.t].Alloc?
    requires x in Step(c, s, m).mem.heap && (x in s.mem.heap ==> Accounted(s, h.g, x))
    ensures Accounted(Step(c, s, m), StepPast(c, s, h, m, now).g, x)
  {
    assert PcInv(c, s.mem, h.g, m.t, s.pc[m.t]) && WalkInv(c.space, s.mem, h.g, m.t);
    assert Chain(s.mem.heap, h.g.home, Bucket(c.space, s.pc[m.t].k));
    AllocShape(c, s, h, m, now);
  }

  lemma FreesKept(c: Config, s: State, h: Past, m: Move, now: nat, x: int)
    requires ValidConfig(c) && Inv(c, s, h) && Enabled(c, s, m) && m.Run? && !Step(c, s, m).fault && (s.pc[m.t].Retire? || s.pc[m.t].Drop?)
    requires x in Step(c, s, m).mem.heap && (x in s.mem.heap ==> Accounted(s, h.g, x))
    ensures Accounted(Step(c, s, m), StepPast(c, s, h, m, now).g, x)
  {
  }

  lemma MovesKept(c: Config, s: State, h: Past, m: Move, now: nat, x: int)
    requires ValidConfig(c) && Inv(c, s, h) && Enabled(c, s, m) && m.Run? && !Step(c, s, m).fault && Moves(s, m)
    requires x in Step(c, s, m).mem.heap && (x in s.mem.heap ==> Accounted(s, h.g, x))
    ensures Accounted(Step(c, s, m), StepPast(c, s, h, m, now).g, x)
  {
    if s.pc[m.t].Alloc? { AllocsKept(c, s, h, m, now, x); }
    else if Commits(s, m) { CommitsKept(c, s, h, m, now, x); }
    else { FreesKept(c, s, h, m, now, x); }
  }

  /** Other accesses leave every node where it is. */
  ghost predicate Stays(s: State, g: Ghost, t: int, s': State, g': Ghost)
    requires 0 <= t < |s.pc|
  {
    && |s'.pc| == |s.pc| && s'.mem.heap.Keys == s.mem.heap.Keys && s'.mem.limbo.Keys == s.mem.limbo.Keys && s'.pc == s.pc[t := s'.pc[t]]
    && g'.home == g.home && g'.mine == g.mine && g'.out == g.out
    && (Prepares(s.pc[t]) ==> Prepares(s'.pc[t]) && s'.pc[t].n == s.pc[t].n)
  }

  lemma LocateStays(c: Config, s: State, h: Past, m: Move, now: nat)
    requires ValidConfig(c) && Enabled(c, s, m) && m.Run? && !Step(c, s, m).fault && !Moves(s, m) && Locates(s.pc[m.t])
    ensures Stays(s, h.g, m.t, Step(c, s, m), StepPast(c, s, h, m, now).g)
  {
  }

  lemma InsertStays(c: Config, s: State, h: Past, m: Move, now: nat)
    requires ValidConfig(c) && Enabled(c, s, m) && m.Run? && !Step(c, s, m).fault && !Moves(s, m) && Inserts(s.pc[m.t])
    ensures Stays(s, h.g, m.t, Step(c, s, m), StepPast(c, s, h, m, now).g)
  {
  }

  lemma LookStays(c: Config, s: State, h: Past, m: Move, now: nat)
    requires ValidConfig(c) && Enabled(c, s, m) && m.Run? && !Step(c, s, m).fault && !Locates(s.pc[m.t]) && !Inserts(s.pc[m.t])
    ensures Stays(s, h.g, m.t, Step(c, s, m), StepPast(c, s, h, m, now).g)
  {
  }

  lemma AccessKept(c: Config, s: State, h: Past, m: Move, now: nat, x: int)
    requires ValidConfig(c) && Inv(c, s, h) && Enabled(c, s, m) && m.Run? && !Step(c, s, m).fault && MemKept(s, h.g)
    requires x in Step(c, s, m).mem.heap
    ensures Accounted(Step(c, s, m), StepPast(c, s, h, m, now).g, x)
  {
    if x in s.mem.heap { assert Accounted(s, h.g, x); }
    if Moves(s, m) {
      MovesKept(c, s, h, m, now, x);
    } else {
      if Locates(s.pc[m.t]) { LocateStays(c, s, h, m, now); }
      else if Inserts(s.pc[m.t]) { InsertStays(c, s, h, m, now); }
      else { LookStays(c, s, h, m, now); }
      assert x in s.mem.heap;
    }
  }

  lemma OtherKept(c: Config, s: State, h: Past, m: Move, now: nat, x: int)
    requires ValidConfig(c) && Inv(c, s, h) && Enabled(c, s, m) && !m.Run? && MemKept(s, h.g)
    requires x in Step(c, s, m).mem.heap
    ensures Accounted(Step(c, s, m), StepPast(c, s, h, m, now).g, x)
  {
    assert Accounted(s, h.g, x);
  }

  lemma WaitsStep(c: Config, s: State, m: Move)
    requires ValidConfig(c) && Enabled(c, s, m) && forall x: int :: x in s.mem.limbo ==> s.mem.limbo[x] <= s.mem.sections
    ensures forall x: int :: x in Step(c, s, m).mem.limbo ==> Step(c, s, m).mem.limbo[x] <= Step(c, s, m).mem.sections
  {
  }

  lemma {:induction false} AllKept(c: Config, sched: seq<Move>)
    requires ValidConfig(c)
    ensures MemKept(Exec(c, sched), History(c, sched).g)
  {
    if sched != [] {
      var before, m := sched[..|sched| - 1], sched[|sched| - 1];
      assert before + [m] == sched;
      AllKept(c, before);
      Invariant(c, before);
      Then(c, before, m);
      var s, h := Exec(c, before), History(c, before);
      if Enabled(c, s, m) {
        WaitsStep(c, s, m);
        forall x: int | x in Exec(c, sched).mem.heap ensures Accounted(Exec(c, sched), History(c, sched).g, x) {
          if m.Run? { AccessKept(c, s, h, m, |sched|, x); } else { OtherKept(c, s, h, m, |sched|, x); }
        }
      }
    }
  }

  /** Thread t is in a toggle. */
  predicate Toggling(pc: Pc) { Locates(pc) || Inserts(pc) }

  /**
   No leak: when no toggle is under way, every allocated node is met on the walk of some
   bucket or waits to be freed, and what waits, waits only for sections that are open now.
   */
  lemma NoLeak(c: Config, sched: seq<Move>, x: int)
    requires ValidConfig(c) && x in Exec(c, sched).mem.heap && forall t :: 0 <= t < c.threads ==> !Toggling(Exec(c, sched).pc[t])
    ensures var a := Exec(c, sched).mem;
            || (x in a.limbo && a.limbo[x] <= a.sections)
            || exists b: int :: 0 <= b < c.space.buckets && x in Spine(a.heap, Head(b))
  {
    AllKept(c, sched);
    Invariant(c, sched);
    var s, g := Exec(c, sched), History(c, sched).g;
    assert Accounted(s, g, x);
    if x in g.home {
      var b := g.home[x];
      assert Chain(s.mem.heap, g.home, b);
      SpineHasAll(s.mem.heap, g.home, b, Head(b), x);
    }
  }
}
