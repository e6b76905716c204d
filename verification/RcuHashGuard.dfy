/**
 The step guard of chl_contains: which lookups some run makes trip it.  A run that trips
 it on key k inserts the smaller keys of its bucket one after the other and looks k up.
 */
module RcuHashGuard {
  import opened Basics
  import opened SortedChain
  import opened RcuArena
  import opened RcuHash
  import opened RcuHashInvariant
  import opened RcuHashTheorems
  import opened Slots

  lemma Then(c: Config, sched: seq<Move>, m: Move)
    requires ValidConfig(c)
    ensures Exec(c, sched + [m]) == Step(c, Exec(c, sched), m)
    ensures !Exec(c, sched).fault && !Exec(c, sched + [m]).fault
  {
    assert (sched + [m])[..|sched|] == sched;
    NoUseAfterFree(c, sched);
    NoUseAfterFree(c, sched + [m]);
  }

  // ---- a writer that runs alone -------------------------------------------

  predicate Writing(pc: Pc) { !pc.Idle? && !Looking(pc) }

  /** The store that shows or hides the key is still to come. */
  predicate Pending(pc: Pc) { Writing(pc) && !pc.WRetire? && !pc.WUnlock? }

  /** Thread 0 is in a toggle, and nobody else holds a lock. */
  predicate Alone(c: Config, s: State)
    requires ValidConfig(c)
  {
    && |s.pc| > 0 && Writing(s.pc[0]) && s.mem.sections == {}
    && s.owner == if s.pc[0].WLock? then map[] else map[Bucket(c.space, s.pc[0].k) := 0]
  }

  /** What a lookup of x will answer once thread 0 is done. */
  ghost predicate Will(c: Config, sched: seq<Move>, x: int)
    requires ValidConfig(c) && c.threads > 0
  {
    var pc := Exec(c, sched).pc[0];
    Answer(c, sched, x) != (Pending(pc) && pc.k == x)
  }

  function Phase(pc: Pc): nat {
    match pc
    case WLock(_) => 9 case WHead(_) => 8 case WLoop(_, _, _) => 7 case WNext(_, _) => 7
    case WSucc(_, _, _) => 6 case WAlloc(_, _, _) => 6 case WUnlink(_, _, _, _) => 5 case WInit(_, _, _, _) => 5
    case WPublish(_, _, _, _) => 4 case WRetire(_, _) => 4 case WUnlock(_) => 3 case _ => 0
  }

  /** How far the locating walk is from the end of the chain. */
  function Ahead(heap: map<int, Cell>, pc: Pc): int {
    match pc
    case WLoop(_, _, cur) => if cur in heap then 2 * (MAX - heap[cur].key) + 1 else 0
    case WNext(_, pred) => if pred in heap then 2 * (MAX - heap[pred].key) else 0
    case _ => 0
  }

  ghost predicate Nearer(s: State, s': State)
    requires |s.pc| == |s'.pc| > 0
  {
    || Phase(s'.pc[0]) < Phase(s.pc[0])
    || (Phase(s'.pc[0]) == Phase(s.pc[0]) && 0 <= Ahead(s'.mem.heap, s'.pc[0]) < Ahead(s.mem.heap, s.pc[0]))
  }

  /** The lock is taken by the first step and given back by the last. */
  predicate LockKept(c: Config, s: State, s': State)
    requires ValidConfig(c) && |s.pc| == |s'.pc| > 0 && !s.pc[0].Idle?
  {
    if s'.pc[0].Idle? then s'.owner == map[] && !Pending(s.pc[0]) else Alone(c, s') && s'.pc[0].k == s.pc[0].k
  }

  lemma LockStep(c: Config, s: State, addr: int)
    requires ValidConfig(c) && Alone(c, s) && !s.fault && addr !in s.mem.heap && !Step(c, s, Run(0, addr)).fault
    ensures var s' := Step(c, s, Run(0, addr)); |s'.pc| == |s.pc| && LockKept(c, s, s') && s'.mem.sections == {}
    ensures var pc, pc' := s.pc[0], Step(c, s, Run(0, addr)).pc[0];
            (Pending(pc) && !Pending(pc') <==> pc.WPublish? || pc.WUnlink?) && (Pending(pc') ==> Pending(pc))
  {
  }

  lemma AloneStep(c: Config, s: State, g: Ghost, addr: int)
    requires ValidConfig(c) && Alone(c, s) && !s.fault && addr !in s.mem.heap
    requires ArenaInv(c.space, s.mem, g) && WriterInv(c, s.mem, g, 0, s.pc[0]) && !Step(c, s, Run(0, addr)).fault
    ensures var s' := Step(c, s, Run(0, addr));
            |s'.pc| == |s.pc| && Nearer(s, s')
  {
    var pc := s.pc[0];
    var b := Bucket(c.space, pc.k);
    assert Chain(s.mem.heap, g.home, b);
    if pc.WNext? { assert Ordered(s.mem.heap, g.home, b, pc.pred); }
  }

  lemma ToggleStep(c: Config, sched: seq<Move>, addr: int)
    requires ValidConfig(c) && c.threads > 0 && Alone(c, Exec(c, sched)) && addr !in Exec(c, sched).mem.heap
    ensures var s, s' := Exec(c, sched), Exec(c, sched + [Run(0, addr)]);
            Nearer(s, s') && s'.mem.sections == {} && if s'.pc[0].Idle? then s'.owner == map[] else Alone(c, s')
    ensures forall x :: 0 <= x < c.space.range ==> Will(c, sched + [Run(0, addr)], x) == Will(c, sched, x)
  {
    var s, m := Exec(c, sched), Run(0, addr);
    Then(c, sched, m);
    Invariant(c, sched);
    assert PcInv(c, s.mem, History(c, sched).g, 0, s.pc[0]);
    AloneStep(c, s, History(c, sched).g, addr);
    LockStep(c, s, addr);
    forall x | 0 <= x < c.space.range ensures Will(c, sched + [m], x) == Will(c, sched, x) {
      UpdatesAtomic(c, sched, m, x);
    }
  }

  lemma {:induction false} FinishToggle(c: Config, sched: seq<Move>) returns (done: seq<Move>)
    requires ValidConfig(c) && c.threads > 0 && Alone(c, Exec(c, sched))
    ensures var s := Exec(c, done); s.pc[0].Idle? && s.owner == map[] && s.mem.sections == {}
    ensures forall x :: 0 <= x < c.space.range ==> Answer(c, done, x) == Will(c, sched, x)
    decreases Phase(Exec(c, sched).pc[0]), Ahead(Exec(c, sched).mem.heap, Exec(c, sched).pc[0])
  {
    var addr := FreshAddress(Exec(c, sched).mem.heap.Keys);
    ToggleStep(c, sched, addr);
    done := sched + [Run(0, addr)];
    if !Exec(c, done).pc[0].Idle? {
      done := FinishToggle(c, done);
    }
  }

  /** Thread 0 toggles key k without interruption: that key's answer flips, and no other. */
  lemma ToggleKey(c: Config, sched: seq<Move>, k: int) returns (done: seq<Move>)
    requires ValidConfig(c) && c.threads > 0 && 0 <= k < c.space.range
    requires var s := Exec(c, sched); s.pc[0].Idle? && s.owner == map[] && s.mem.sections == {}
    ensures var s := Exec(c, done); s.pc[0].Idle? && s.owner == map[] && s.mem.sections == {}
    ensures forall x :: 0 <= x < c.space.range ==> Answer(c, done, x) == (Answer(c, sched, x) != (x == k))
  {
    var m := Toggle(0, k);
    Then(c, sched, m);
    forall x | 0 <= x < c.space.range ensures Answer(c, sched + [m], x) == Answer(c, sched, x) { UpdatesAtomic(c, sched, m, x); }
    done := FinishToggle(c, sched + [m]);
  }

  // ---- the smaller keys of a bucket ---------------------------------------

  /** The first j keys of bucket b, and no others, are present. */
  ghost predicate Filled(c: Config, sched: seq<Move>, b: int, j: int)
    requires ValidConfig(c)
  {
    forall x :: 0 <= x < c.space.range ==> (Answer(c, sched, x) <==> x % c.space.buckets == b && x / c.space.buckets < j)
  }

  lemma NoneFilled(c: Config, b: int)
    requires ValidConfig(c)
    ensures Filled(c, [], b, 0)
  {
    forall x | 0 <= x < c.space.range ensures !Answer(c, [], x) && x / c.space.buckets >= 0 {
      AnswerIsMember(c, [], x);
      SlotsPartition(c.space.buckets, x);
    }
  }

  lemma {:induction false} FillBucket(c: Config, b: int, j: int) returns (sched: seq<Move>)
    requires ValidConfig(c) && c.threads > 0 && 0 <= b < c.space.buckets && 0 <= j && (j > 0 ==> Slot(b, c.space.buckets, j - 1) < c.space.range)
    ensures var s := Exec(c, sched); s.pc[0].Idle? && s.owner == map[] && s.mem.sections == {}
    ensures Filled(c, sched, b, j)
    decreases j
  {
    if j == 0 {
      sched := [];
      NoneFilled(c, b);
    } else {
      var n := c.space.buckets;
      var key := Slot(b, n, j - 1);
      if j > 1 { SlotGrows(b, n, j - 2, j - 1); }
      var before := FillBucket(c, b, j - 1);
      SlotOf(n, b, j - 1);
      sched := ToggleKey(c, before, key);
      forall x | 0 <= x < c.space.range ensures Answer(c, sched, x) <==> x % n == b && x / n < j { SlotsPartition(n, x); }
    }
  }

  // ---- the lookup ---------------------------------------------------------

  /** The chain holds the first `limit` + 1 keys of its bucket, all of them below k. */
  ghost predicate Crowded(c: Config, heap: map<int, Cell>, home: map<int, int>, b: int, k: int)
    requires ValidConfig(c)
  {
    && Chain(heap, home, b) && b == Bucket(c.space, k) && k < MAX
    && forall i: int {:trigger Slot(b, c.space.buckets, i)} :: 0 <= i <= c.limit ==>
         Slot(b, c.space.buckets, i) < k && Member(heap, home, b, Slot(b, c.space.buckets, i))
  }

  lemma LookupRun(c: Config, sched: seq<Move>) returns (next: seq<Move>)
    requires ValidConfig(c) && c.threads > 0 && Looking(Exec(c, sched).pc[0])
    requires Touches(c, Exec(c, sched).pc[0]) in Exec(c, sched).mem.heap
    ensures var s, s' := Exec(c, sched), Exec(c, next);
            exists addr :: Enabled(c, s, Run(0, addr)) && s' == Access(c, s, 0, addr)
  {
    var addr := FreshAddress(Exec(c, sched).mem.heap.Keys);
    Then(c, sched, Run(0, addr));
    next := sched + [Run(0, addr)];
    assert Enabled(c, Exec(c, sched), Run(0, addr));
  }

  /** At a linked node no further than the next key of the bucket, the walk ends at the guard. */
  lemma {:induction false} WalkTrips(c: Config, sched: seq<Move>, home: map<int, int>, b: int, k: int, cur: int, pk: int, steps: int)
    returns (done: seq<Move>)
    requires ValidConfig(c) && c.threads > 0 && Exec(c, sched).pc[0] == RLoop(k, cur, pk, steps) && 0 <= steps <= c.limit
    requires var heap := Exec(c, sched).mem.heap;
             Crowded(c, heap, home, b, k) && In(home, b, cur) && pk < heap[cur].key <= Slot(b, c.space.buckets, steps)
    ensures Exec(c, done).pc[0] == RDone(k, false, true)
    decreases c.limit - steps
  {
    var heap, n := Exec(c, sched).mem.heap, c.space.buckets;
    assert heap[cur].key < k;
    done := LookupRun(c, sched);
    if steps < c.limit {
      assert Ordered(heap, home, b, cur);
      var key := heap[cur].key;
      SlotGrows(b, n, steps, steps + 1);
      var x: int :| In(home, b, x) && x in heap && heap[x].key == Slot(b, n, steps + 1);
      done := LookupRun(c, done);
      done := WalkTrips(c, done, home, b, k, heap[cur].next, key, steps + 1);
    }
  }

  ghost predicate Trips(c: Config, sched: seq<Move>, t: int, k: int)
    requires ValidConfig(c)
  {
    0 <= t < c.threads && Exec(c, sched).pc[t].RDone? && Exec(c, sched).pc[t].k == k && Exec(c, sched).pc[t].viol
  }

  lemma LookUp(c: Config, before: seq<Move>, home: map<int, int>, b: int, k: int) returns (done: seq<Move>)
    requires ValidConfig(c) && c.threads > 0 && 0 <= k < c.space.range
    requires var s := Exec(c, before); s.pc[0].Idle? && s.mem.sections == {} && Crowded(c, s.mem.heap, home, b, k)
    ensures Trips(c, done, 0, k)
  {
    var heap, n := Exec(c, before).mem.heap, c.space.buckets;
    Then(c, before, Enter(0));
    Then(c, before + [Enter(0)], Find(0, k));
    var found := before + [Enter(0)] + [Find(0, k)];
    assert Exec(c, found).pc[0] == RHead(k) && Exec(c, found).mem.heap == heap;
    done := LookupRun(c, found);
    assert Ordered(heap, home, b, Head(b));
    var first := Slot(b, n, 0);
    var x: int :| In(home, b, x) && x in heap && heap[x].key == first;
    SlotStep(b, n, 0);
    done := WalkTrips(c, done, home, b, k, heap[Head(b)].next, MIN, 0);
  }

  /** Some lookup of k trips the step guard in some run if and only if k has more than the limit of smaller keys in its bucket. */
  lemma GuardTripsIff(c: Config, k: int)
    requires ValidConfig(c) && c.threads > 0 && 0 <= k < c.space.range
    ensures (exists sched, t :: Trips(c, sched, t, k)) <==> c.limit < Smaller(c, k)
  {
    forall sched, t | Trips(c, sched, t, k) ensures c.limit < Smaller(c, k) {
      var _ := LookupLinearizable(c, sched, t);
    }
    if c.limit < Smaller(c, k) {
      var n, b := c.space.buckets, Bucket(c.space, k);
      SlotsPartition(n, k);
      SlotGrows(b, n, c.limit, k / n);
      var filled := FillBucket(c, b, c.limit + 1);
      BucketCrowded(c, filled, b, k);
      var done := LookUp(c, filled, History(c, filled).g.home, b, k);
    }
  }

  lemma BucketCrowded(c: Config, sched: seq<Move>, b: int, k: int)
    requires ValidConfig(c) && 0 <= k < c.space.range && b == Bucket(c.space, k) && c.limit < Smaller(c, k) && Filled(c, sched, b, c.limit + 1)
    ensures Crowded(c, Exec(c, sched).mem.heap, History(c, sched).g.home, b, k)
  {
    var n := c.space.buckets;
    Invariant(c, sched);
    SlotsPartition(n, k);
    forall i: int | 0 <= i <= c.limit
      ensures Slot(b, n, i) < k && Member(Exec(c, sched).mem.heap, History(c, sched).g.home, b, Slot(b, n, i))
    {
      SlotGrows(b, n, i, k / n);
      SlotOf(n, b, i);
      AnswerIsMember(c, sched, Slot(b, n, i));
    }
  }
}
