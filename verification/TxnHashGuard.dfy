/**
 The step guard of thl_contains counts the node it stops at, so it trips one node earlier
 than that of chl_contains.  A run that trips it on key k inserts the first keys of its
 bucket one after the other and looks k up.
 */
module TxnHashGuard {
  import opened Basics
  import opened SortedChain
  import opened RcuArena
  import opened TxnHash
  import opened TxnHashInvariant
  import opened TxnHashTheorems
  import opened Slots

  lemma Then(c: Config, sched: seq<Move>, m: Move)
    requires ValidConfig(c)
    ensures Exec(c, sched + [m]) == Step(c, Exec(c, sched), m)
    ensures History(c, sched + [m]) == StepPast(c, Exec(c, sched), History(c, sched), m, |sched| + 1)
    ensures !Exec(c, sched).fault && !Exec(c, sched + [m]).fault
  {
    assert (sched + [m])[..|sched|] == sched;
    NoUseAfterFree(c, sched);
    NoUseAfterFree(c, sched + [m]);
  }

  // ---- a writer that runs alone -------------------------------------------

  /** The commit is still to come. */
  predicate Pending(pc: Pc) {
    !pc.Idle? && !pc.FHead? && !pc.FLoop? && !pc.FNext? && !pc.FDone? && !pc.Retire? && !pc.Drop? && !pc.Exit?
  }

  /** Nothing has been unlinked since thread 0 began its walk. */
  ghost predicate Calm(g: Ghost) { 0 in g.walks && g.walks[0].o.gone == {} }

  /** Where thread 0 stands in a toggle that nobody interferes with. */
  ghost predicate Alone(c: Config, heap: map<int, Cell>, g: Ghost, pc: Pc)
    requires ValidConfig(c)
  {
    !pc.Idle? &&
    var k := pc.k;
    var b := Bucket(c.space, k);
    match pc
    case LHead(_) => true
    case LLoop(_, cur) => Calm(g) && FirstFrom(heap, g.home, b, k, cur)
    case LNext(_, cur) => Calm(g) && In(g.home, b, cur)
    case Del(_, x) => Calm(g) && In(g.home, b, x)
    case Alloc(_) => Calm(g) && !Member(heap, g.home, b, k)
    case AHead(_, _) => Calm(g) && !Member(heap, g.home, b, k)
    case ALoop(_, _, pred, cur) => Calm(g) && !Member(heap, g.home, b, k) && Next(heap, g.home, b, pred, cur)
    case ANext(_, _, pred) => Calm(g) && !Member(heap, g.home, b, k) && In(g.home, b, pred)
    case Prep(_, _, pred, cur) => Calm(g) && !Member(heap, g.home, b, k) && Next(heap, g.home, b, pred, cur)
    case Commit(_, _, pred, cur) => Calm(g) && !Member(heap, g.home, b, k) && Next(heap, g.home, b, pred, cur)
    case Retire(_, _) => true
    case Exit(_) => true
    case _ => false
  }

  /** cur is linked, and every linked node before it is below k. */
  ghost predicate FirstFrom(heap: map<int, Cell>, home: map<int, int>, b: int, k: int, cur: int) {
    && In(home, b, cur) && cur in heap
    && forall y: int :: In(home, b, y) && y in heap && heap[y].key < heap[cur].key ==> heap[y].key < k
  }

  predicate Next(heap: map<int, Cell>, home: map<int, int>, b: int, pred: int, cur: int) {
    In(home, b, pred) && pred in heap && heap[pred].next == cur
  }

  function Phase(pc: Pc): nat {
    match pc
    case LHead(_) => 12 case LLoop(_, _) => 11 case LNext(_, _) => 11 case Alloc(_) => 10
    case AHead(_, _) => 9 case ALoop(_, _, _, _) => 8 case ANext(_, _, _) => 8 case Prep(_, _, _, _) => 7
    case Commit(_, _, _, _) => 6 case Del(_, _) => 6 case Retire(_, _) => 4 case Exit(_) => 3 case _ => 0
  }

  /** How far a walk is from the end of the chain. */
  function Ahead(heap: map<int, Cell>, pc: Pc): int {
    match pc
    case LLoop(_, cur) => if cur in heap then 2 * (MAX - heap[cur].key) + 1 else 0
    case LNext(_, cur) => if cur in heap then 2 * (MAX - heap[cur].key) else 0
    case ALoop(_, _, _, cur) => if cur in heap then 2 * (MAX - heap[cur].key) + 1 else 0
    case ANext(_, _, pred) => if pred in heap then 2 * (MAX - heap[pred].key) else 0
    case _ => 0
  }

  predicate Nearer(heap: map<int, Cell>, pc: Pc, heap': map<int, Cell>, pc': Pc) {
    Phase(pc') < Phase(pc) || (Phase(pc') == Phase(pc) && 0 <= Ahead(heap', pc') < Ahead(heap, pc))
  }

  /** What one step of thread 0 alone achieves. */
  ghost predicate Advances(c: Config, s: State, h: Past, m: Move, now: nat)
    requires ValidConfig(c) && m.Run? && |s.pc| > 0
  {
    var s', h' := Step(c, s, m), StepPast(c, s, h, m, now);
    && |s'.pc| == |s.pc|
    && var pc, pc' := s.pc[0], s'.pc[0];
       && Nearer(s.mem.heap, pc, s'.mem.heap, pc')
       && (if pc'.Idle? then !Pending(pc) else Alone(c, s'.mem.heap, h'.g, pc') && !pc.Idle? && pc'.k == pc.k)
       && (Pending(pc') ==> Pending(pc)) && (Pending(pc) && !Pending(pc') <==> Commits(s, m))
  }

  ghost predicate Ready(c: Config, s: State, h: Past, m: Move)
    requires ValidConfig(c)
  {
    && |s.pc| > 0 && Inv(c, s, h) && Enabled(c, s, m) && m.Run? && m.t == 0 && !m.abort
    && Alone(c, s.mem.heap, h.g, s.pc[0])
  }

  /** Thread 0 stands on linked nodes only. */
  lemma Chained(c: Config, s: State, h: Past, m: Move)
    requires ValidConfig(c) && Ready(c, s, h, m)
    ensures PcInv(c, s.mem, h.g, 0, s.pc[0]) && Chain(s.mem.heap, h.g.home, Bucket(c.space, s.pc[0].k))
    ensures 0 in h.g.walks ==> WalkInv(c.space, s.mem, h.g, 0)
    ensures 0 <= s.pc[0].k < c.space.range
  {
    assert PcInv(c, s.mem, h.g, 0, s.pc[0]);
    if 0 in h.g.walks { assert WalkInv(c.space, s.mem, h.g, 0); }
  }

  lemma StartAlone(c: Config, s: State, h: Past, m: Move, now: nat)
    requires ValidConfig(c) && Ready(c, s, h, m) && s.pc[0].LHead?
    ensures Advances(c, s, h, m, now)
  {
    Chained(c, s, h, m);
    var b := Bucket(c.space, s.pc[0].k);
    BeginShape(c, s, h, m, now);
    assert Ordered(s.mem.heap, h.g.home, b, Head(b));
  }

  lemma LocateAlone(c: Config, s: State, h: Past, m: Move, now: nat)
    requires ValidConfig(c) && Ready(c, s, h, m) && (s.pc[0].LLoop? || s.pc[0].LNext?)
    ensures Advances(c, s, h, m, now)
  {
    Chained(c, s, h, m);
    var b := Bucket(c.space, s.pc[0].k);
    MoveShape(c, s, h, m, now);
    if s.pc[0].LNext? { assert Ordered(s.mem.heap, h.g.home, b, s.pc[0].cur); }
  }

  lemma TestAlone(c: Config, s: State, h: Past, m: Move, now: nat)
    requires ValidConfig(c) && Ready(c, s, h, m) && s.pc[0].ALoop?
    ensures Advances(c, s, h, m, now)
  {
    Chained(c, s, h, m);
    MoveShape(c, s, h, m, now);
    assert Ordered(s.mem.heap, h.g.home, Bucket(c.space, s.pc[0].k), s.pc[0].pred);
  }

  lemma InsertAlone(c: Config, s: State, h: Past, m: Move, now: nat)
    requires ValidConfig(c) && Ready(c, s, h, m) && (s.pc[0].AHead? || s.pc[0].ANext?)
    ensures Advances(c, s, h, m, now)
  {
    Chained(c, s, h, m);
    var b := Bucket(c.space, s.pc[0].k);
    MoveShape(c, s, h, m, now);
    if s.pc[0].AHead? { assert Ordered(s.mem.heap, h.g.home, b, Head(b)); }
    if s.pc[0].ANext? { assert Ordered(s.mem.heap, h.g.home, b, s.pc[0].pred); }
  }

  lemma AllocAlone(c: Config, s: State, h: Past, m: Move, now: nat)
    requires ValidConfig(c) && Ready(c, s, h, m) && s.pc[0].Alloc?
    ensures Advances(c, s, h, m, now)
  {
    Chained(c, s, h, m);
    AllocShape(c, s, h, m, now);
    MemberFrame(s.mem.heap, h.g.home, Step(c, s, m).mem.heap, h.g.home, Bucket(c.space, s.pc[0].k), s.pc[0].k);
  }

  lemma PrepAlone(c: Config, s: State, h: Past, m: Move, now: nat)
    requires ValidConfig(c) && Ready(c, s, h, m) && s.pc[0].Prep?
    ensures Advances(c, s, h, m, now)
  {
    Chained(c, s, h, m);
    PrepShape(c, s, h, m, now);
    MemberFrame(s.mem.heap, h.g.home, Step(c, s, m).mem.heap, h.g.home, Bucket(c.space, s.pc[0].k), s.pc[0].k);
  }

  lemma CommitAlone(c: Config, s: State, h: Past, m: Move, now: nat)
    requires ValidConfig(c) && Ready(c, s, h, m) && (s.pc[0].Commit? || s.pc[0].Del?)
    ensures Advances(c, s, h, m, now)
  {
    Chained(c, s, h, m);
    assert Commits(s, m);
    if s.pc[0].Commit? {
      CommitShape(c, s, h, m, now);
    } else {
      DelUnlinks(c, s, h, m);
      DelShape(c, s, h, m, now);
    }
  }

  lemma EndAlone(c: Config, s: State, h: Past, m: Move, now: nat)
    requires ValidConfig(c) && Ready(c, s, h, m) && (s.pc[0].Retire? || s.pc[0].Exit?)
    ensures Advances(c, s, h, m, now)
  {
    Chained(c, s, h, m);
  }

  lemma AloneStep(c: Config, s: State, h: Past, m: Move, now: nat)
    requires ValidConfig(c) && Ready(c, s, h, m)
    ensures Advances(c, s, h, m, now)
  {
    match s.pc[0]
    case LHead(_) => StartAlone(c, s, h, m, now);
    case LLoop(_, _) => LocateAlone(c, s, h, m, now);
    case LNext(_, _) => LocateAlone(c, s, h, m, now);
    case ALoop(_, _, _, _) => TestAlone(c, s, h, m, now);
    case Alloc(_) => AllocAlone(c, s, h, m, now);
    case Prep(_, _, _, _) => PrepAlone(c, s, h, m, now);
    case Commit(_, _, _, _) => CommitAlone(c, s, h, m, now);
    case Del(_, _) => CommitAlone(c, s, h, m, now);
    case Retire(_, _) => EndAlone(c, s, h, m, now);
    case Exit(_) => EndAlone(c, s, h, m, now);
    case _ => InsertAlone(c, s, h, m, now);
  }

  /** What a lookup of x will answer once thread 0 is done. */
  ghost predicate Will(c: Config, sched: seq<Move>, x: int)
    requires ValidConfig(c) && c.threads > 0
  {
    var pc := Exec(c, sched).pc[0];
    Answer(c, sched, x) != (Pending(pc) && pc.k == x)
  }

  ghost predicate AloneAfter(c: Config, sched: seq<Move>)
    requires ValidConfig(c) && c.threads > 0
  {
    Alone(c, Exec(c, sched).mem.heap, History(c, sched).g, Exec(c, sched).pc[0])
  }

  lemma ToggleStep(c: Config, sched: seq<Move>, addr: int)
    requires ValidConfig(c) && c.threads > 0 && AloneAfter(c, sched) && addr !in Exec(c, sched).mem.heap
    ensures var m := Run(0, addr, false);
            && Nearer(Exec(c, sched).mem.heap, Exec(c, sched).pc[0], Exec(c, sched + [m]).mem.heap, Exec(c, sched + [m]).pc[0])
            && (Exec(c, sched + [m]).pc[0].Idle? || AloneAfter(c, sched + [m]))
            && forall x :: 0 <= x < c.space.range ==> Will(c, sched + [m], x) == Will(c, sched, x)
  {
    var m := Run(0, addr, false);
    Then(c, sched, m);
    Invariant(c, sched);
    AloneStep(c, Exec(c, sched), History(c, sched), m, |sched| + 1);
    forall x | 0 <= x < c.space.range ensures Will(c, sched + [m], x) == Will(c, sched, x) {
      UpdatesAtomic(c, sched, m, x);
    }
  }

  lemma {:induction false} FinishToggle(c: Config, sched: seq<Move>) returns (done: seq<Move>)
    requires ValidConfig(c) && c.threads > 0 && AloneAfter(c, sched)
    ensures Exec(c, done).pc[0].Idle?
    ensures forall x :: 0 <= x < c.space.range ==> Answer(c, done, x) == Will(c, sched, x)
    decreases Phase(Exec(c, sched).pc[0]), Ahead(Exec(c, sched).mem.heap, Exec(c, sched).pc[0])
  {
    var addr := FreshAddress(Exec(c, sched).mem.heap.Keys);
    ToggleStep(c, sched, addr);
    done := sched + [Run(0, addr, false)];
    if !Exec(c, done).pc[0].Idle? {
      done := FinishToggle(c, done);
    }
  }

  /** Thread 0 toggles key k without interruption: that key's answer flips, and no other. */
  lemma ToggleKey(c: Config, sched: seq<Move>, k: int) returns (done: seq<Move>)
    requires ValidConfig(c) && c.threads > 0 && 0 <= k < c.space.range && Exec(c, sched).pc[0].Idle?
    ensures Exec(c, done).pc[0].Idle?
    ensures forall x :: 0 <= x < c.space.range ==> Answer(c, done, x) == (Answer(c, sched, x) != (x == k))
  {
    var m := Toggle(0, k);
    Then(c, sched, m);
    forall x | 0 <= x < c.space.range ensures Answer(c, sched + [m], x) == Answer(c, sched, x) { UpdatesAtomic(c, sched, m, x); }
    done := FinishToggle(c, sched + [m]);
  }

  // ---- the smaller keys of a bucket ---------------------------------------

  /** The first j keys of bucket b, and no others, are present. */
  ghost predicate Filled(c: Config, sched: seq<Move>, b: int, j: int)
    requires ValidConfig(c)
  {
    forall x :: 0 <= x < c.space.range ==> (Answer(c, sched, x) <==> x % c.space.buckets == b && x / c.space.buckets < j)
  }

  lemma NoneFilled(c: Config, b: int)
    requires ValidConfig(c)
    ensures Filled(c, [], b, 0)
  {
    forall x | 0 <= x < c.space.range ensures !Answer(c, [], x) && x / c.space.buckets >= 0 {
      AnswerIsMember(c, [], x);
      SlotsPartition(c.space.buckets, x);
    }
  }

  lemma {:induction false} FillBucket(c: Config, b: int, j: int) returns (sched: seq<Move>)
    requires ValidConfig(c) && c.threads > 0 && 0 <= b < c.space.buckets && 0 <= j && (j > 0 ==> Slot(b, c.space.buckets, j - 1) < c.space.range)
    ensures Exec(c, sched).pc[0].Idle? && Filled(c, sched, b, j)
    decreases j
  {
    if j == 0 {
      sched := [];
      NoneFilled(c, b);
    } else {
      var n := c.space.buckets;
      var key := Slot(b, n, j - 1);
      if j > 1 { SlotGrows(b, n, j - 2, j - 1); }
      var before := FillBucket(c, b, j - 1);
      SlotOf(n, b, j - 1);
      sched := ToggleKey(c, before, key);
      forall x | 0 <= x < c.space.range ensures Answer(c, sched, x) <==> x % n == b && x / n < j { SlotsPartition(n, x); }
    }
  }

  // ---- the lookup ---------------------------------------------------------

  /** The chain holds the first `limit` + 1 keys of its bucket, all of them at most k. */
  ghost predicate Crowded(c: Config, heap: map<int, Cell>, home: map<int, int>, b: int, k: int)
    requires ValidConfig(c)
  {
    && Chain(heap, home, b) && b == Bucket(c.space, k) && k < MAX
    && forall i: int {:trigger Slot(b, c.space.buckets, i)} :: 0 <= i <= c.limit ==>
         Slot(b, c.space.buckets, i) <= k && Member(heap, home, b, Slot(b, c.space.buckets, i))
  }

  predicate Looking(pc: Pc) { pc.FHead? || pc.FLoop? || pc.FNext? }

  lemma LookupRun(c: Config, sched: seq<Move>) returns (next: seq<Move>)
    requires ValidConfig(c) && c.threads > 0 && Looking(Exec(c, sched).pc[0])
    requires Touches(c, Exec(c, sched).pc[0]) in Exec(c, sched).mem.heap
    ensures var s, s' := Exec(c, sched), Exec(c, next);
            exists addr :: Enabled(c, s, Run(0, addr, false)) && s' == Access(c, s, 0, addr, false)
  {
    var addr := FreshAddress(Exec(c, sched).mem.heap.Keys);
    Then(c, sched, Run(0, addr, false));
    next := sched + [Run(0, addr, false)];
    assert Enabled(c, Exec(c, sched), Run(0, addr, false));
  }

  /** At a linked node no further than the next key of the bucket, the walk ends at the guard. */
  lemma {:induction false} WalkTrips(c: Config, sched: seq<Move>, home: map<int, int>, b: int, k: int, cur: int, pk: int, steps: int)
    returns (done: seq<Move>)
    requires ValidConfig(c) && c.threads > 0 && Exec(c, sched).pc[0] == FLoop(k, cur, pk, steps) && 0 <= steps <= c.limit
    requires var heap := Exec(c, sched).mem.heap;
             Crowded(c, heap, home, b, k) && In(home, b, cur) && pk < heap[cur].key <= Slot(b, c.space.buckets, steps)
    ensures Exec(c, done).pc[0] == FDone(k, false, true)
    decreases c.limit - steps
  {
    var heap, n := Exec(c, sched).mem.heap, c.space.buckets;
    assert heap[cur].key <= k;
    done := LookupRun(c, sched);
    if steps < c.limit {
      assert Ordered(heap, home, b, cur);
      var key := heap[cur].key;
      SlotGrows(b, n, steps, steps + 1);
      var x: int :| In(home, b, x) && x in heap && heap[x].key == Slot(b, n, steps + 1);
      done := LookupRun(c, done);
      done := WalkTrips(c, done, home, b, k, heap[cur].next, key, steps + 1);
    }
  }

  ghost predicate Trips(c: Config, sched: seq<Move>, t: int, k: int)
    requires ValidConfig(c)
  {
    0 <= t < c.threads && Exec(c, sched).pc[t].FDone? && Exec(c, sched).pc[t].k == k && Exec(c, sched).pc[t].viol
  }

  lemma LookUp(c: Config, before: seq<Move>, home: map<int, int>, b: int, k: int) returns (done: seq<Move>)
    requires ValidConfig(c) && c.threads > 0 && 0 <= k < c.space.range
    requires Exec(c, before).pc[0].Idle? && Crowded(c, Exec(c, before).mem.heap, home, b, k)
    ensures Trips(c, done, 0, k)
  {
    var heap, n := Exec(c, before).mem.heap, c.space.buckets;
    Then(c, before, Find(0, k));
    var found := before + [Find(0, k)];
    assert Exec(c, found).pc[0] == FHead(k) && Exec(c, found).mem.heap == heap;
    done := LookupRun(c, found);
    assert Ordered(heap, home, b, Head(b));
    var first := Slot(b, n, 0);
    var x: int :| In(home, b, x) && x in heap && heap[x].key == first;
    SlotStep(b, n, 0);
    done := WalkTrips(c, done, home, b, k, heap[Head(b)].next, MIN, 0);
  }

  /** Some lookup of k trips the step guard in some run if and only if k has at least the limit of smaller keys in its bucket. */
  lemma GuardTripsIff(c: Config, k: int)
    requires ValidConfig(c) && c.threads > 0 && 0 <= k < c.space.range
    ensures (exists sched, t :: Trips(c, sched, t, k)) <==> c.limit <= Smaller(c, k)
  {
    forall sched, t | Trips(c, sched, t, k) ensures c.limit <= Smaller(c, k) {
      var _ := LookupLinearizable(c, sched, t);
    }
    if c.limit <= Smaller(c, k) {
      var n, b := c.space.buckets, Bucket(c.space, k);
      SlotsPartition(n, k);
      if c.limit < k / n { SlotGrows(b, n, c.limit, k / n); }
      var filled := FillBucket(c, b, c.limit + 1);
      BucketCrowded(c, filled, b, k);
      var done := LookUp(c, filled, History(c, filled).g.home, b, k);
    }
  }

  lemma BucketCrowded(c: Config, sched: seq<Move>, b: int, k: int)
    requires ValidConfig(c) && 0 <= k < c.space.range && b == Bucket(c.space, k) && c.limit <= Smaller(c, k) && Filled(c, sched, b, c.limit + 1)
    ensures Crowded(c, Exec(c, sched).mem.heap, History(c, sched).g.home, b, k)
  {
    var n := c.space.buckets;
    Invariant(c, sched);
    SlotsPartition(n, k);
    forall i: int | 0 <= i <= c.limit
      ensures Slot(b, n, i) <= k && Member(Exec(c, sched).mem.heap, History(c, sched).g.home, b, Slot(b, n, i))
    {
      if i < k / n { SlotGrows(b, n, i, k / n); }
      SlotOf(n, b, i);
      AnswerIsMember(c, sched, Slot(b, n, i));
    }
  }
}
