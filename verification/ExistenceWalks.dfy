/** Walks of the existence list end, and exactly one slot can make one report a violation. */
module ExistenceWalks {
  import opened RingList
  import opened Existence
  import opened ExistenceInvariant
  import opened ExistenceReaders
  import opened ExistenceTheorems

  // ---- every walk ends ----------------------------------------------------

  predicate Walking(pc: RPc) { !pc.RIdle? && !pc.REnd? }

  /** How many more loads of its own a walk can make. */
  function Left(c: Config, pc: RPc): int {
    if !Walking(pc) then 0
    else
      var rest := 4 * (2 * c.n - |pc.w.trail| - pc.w.steps);
      match pc
      case RLoad(_, _) => rest + 1
      case RTest(_, _) => rest
      case RState(_, _, _, _) => rest - 1
      case _ => rest - 2
  }

  /** The two positions belong to the same walk. */
  predicate SameWalk(pc: RPc, pc': RPc) {
    !pc.RIdle? && !pc'.RIdle? && pc'.w.fwd == pc.w.fwd && pc'.w.second == pc.w.second
  }

  /** A walk at a node has at least that node left. */
  lemma WalkMeans(c: Config, sched: seq<Move>, t: int)
    requires ValidConfig(c) && 0 <= t < c.threads && Walking(Exec(c, sched).rd[t])
    ensures var s := Exec(c, sched); var pc := s.rd[t];
            && !s.fault && Loadable(s.heap, s.groups, pc) && 0 < Left(c, pc) <= 8 * c.n + 1
            && (!pc.RLoad? ==> |pc.w.trail| + pc.w.steps < 2 * c.n)
  {
    Invariant(c, sched);
    var s, h := Exec(c, sched), History(c, sched);
    assert ReaderInv(c, s, h, t);
    CanLoad(c, s, h, t);
    var p := if s.rd[t].RLoad? then s.rd[t].p else s.rd[t].q;
    if p in h.home { assert NodeInv(c, s, h.home, p); }
  }

  /** Over any memory at all, each load brings the end nearer. */
  lemma LoadShrinks(c: Config, heap: map<int, Node>, groups: map<int, int>, pc: RPc)
    requires Walking(pc) && Loadable(heap, groups, pc)
    ensures var pc' := Load(c, heap, groups, pc); SameWalk(pc, pc') && (pc'.REnd? || (Walking(pc') && Left(c, pc') < Left(c, pc)))
  {
  }

  lemma ReaderMoves(c: Config, s: State, m: Move, t: int)
    requires ValidConfig(c) && 0 <= t < |s.rd| && Walking(s.rd[t]) && !s.fault && Loadable(s.heap, s.groups, s.rd[t])
    ensures Step(c, s, m).rd[t] == if m == Read(t) then Load(c, s.heap, s.groups, s.rd[t]) else s.rd[t]
  {
    if !m.Read? { OthersStay(c, s, m); }
  }

  lemma WalkStep(c: Config, sched: seq<Move>, m: Move, t: int)
    requires ValidConfig(c) && 0 <= t < c.threads && Walking(Exec(c, sched).rd[t])
    ensures var pc, pc' := Exec(c, sched).rd[t], Exec(c, sched + [m]).rd[t];
            && SameWalk(pc, pc')
            && (pc'.REnd? || (Walking(pc') && 0 < Left(c, pc') <= Left(c, pc) - if m == Read(t) then 1 else 0))
  {
    assert (sched + [m])[..|sched|] == sched;
    WalkMeans(c, sched, t);
    if Walking(Exec(c, sched + [m]).rd[t]) { WalkMeans(c, sched + [m], t); }
    var s := Exec(c, sched);
    ReaderMoves(c, s, m, t);
    LoadShrinks(c, s.heap, s.groups, s.rd[t]);
  }

  function Own(ext: seq<Move>, t: int): int {
    if ext == [] then 0 else Own(ext[..|ext| - 1], t) + if ext[|ext| - 1] == Read(t) then 1 else 0
  }

  /** Every walk ends within 8n + 1 loads of its own, whatever runs meanwhile. */
  lemma {:induction false} WalkEnds(c: Config, sched: seq<Move>, ext: seq<Move>, t: int) returns (j: nat)
    requires ValidConfig(c) && 0 <= t < c.threads && Walking(Exec(c, sched).rd[t])
    ensures Left(c, Exec(c, sched).rd[t]) <= 8 * c.n + 1
    ensures j <= |ext|
    ensures var pc := Exec(c, sched + ext[..j]).rd[t];
            && SameWalk(Exec(c, sched).rd[t], pc)
            && (pc.REnd? || (j == |ext| && Walking(pc) && 0 < Left(c, pc) <= Left(c, Exec(c, sched).rd[t]) - Own(ext, t)))
  {
    WalkMeans(c, sched, t);
    if ext == [] {
      assert sched + ext == sched;
      j := 0;
    } else {
      var most, m := ext[..|ext| - 1], ext[|ext| - 1];
      j := WalkEnds(c, sched, most, t);
      assert most[..j] == ext[..j];
      if !Exec(c, sched + most[..j]).rd[t].REnd? {
        assert most[..j] == most && sched + ext == (sched + most) + [m];
        WalkStep(c, sched + most, m, t);
        j := |ext|;
        assert ext[..j] == ext;
      }
    }
  }

  // ---- the slot whose key is INT_MAX --------------------------------------

  lemma Then(c: Config, sched: seq<Move>, m: Move)
    requires ValidConfig(c)
    ensures Exec(c, sched + [m]) == Step(c, Exec(c, sched), m) && !Exec(c, sched).fault
  {
    assert (sched + [m])[..|sched|] == sched;
    NoUseAfterFree(c, sched);
  }

  function Reads(t: int, k: nat): seq<Move> { seq(k, i => Read(t)) }

  lemma {:induction false} OwnReads(t: int, k: nat)
    ensures Own(Reads(t, k), t) == k
  {
    if k > 0 {
      assert Reads(t, k)[..k - 1] == Reads(t, k - 1);
      OwnReads(t, k - 1);
    }
  }

  lemma ReadKeeps(c: Config, s: State, m: Move)
    requires ValidConfig(c) && m.Read?
    ensures var s' := Step(c, s, m); s'.heap == s.heap && s'.groups == s.groups && s'.churn == s.churn && s'.w == s.w
  {
  }

  /** Readers leave the list as it was built. */
  lemma {:induction false} StillBuilt(c: Config, sched: seq<Move>)
    requires ValidConfig(c) && forall m :: m in sched ==> m.Read?
    ensures var s := Exec(c, sched); s.heap == Build(c).heap && s.groups == map[] && s.churn == map[] && s.w.WIdle?
  {
    if sched != [] {
      var before, m := sched[..|sched| - 1], sched[|sched| - 1];
      StillBuilt(c, before);
      assert m in sched;
      ReadKeeps(c, Exec(c, before), m);
    }
  }

  /** Reader 0 alone finishes the first walk of exl_walk. */
  lemma WalkForward(c: Config) returns (sched: seq<Move>)
    requires ValidConfig(c) && c.threads > 0
    ensures var s := Exec(c, sched);
            && s.rd[0].REnd? && s.rd[0].w.fwd && !s.rd[0].w.second
            && s.heap == Build(c).heap && s.groups == map[] && s.churn == map[] && s.w.WIdle?
  {
    var first, ext := [] + [Read(0)], Reads(0, 8 * c.n + 2);
    Then(c, [], Read(0));
    var j := WalkEnds(c, first, ext, 0);
    OwnReads(0, 8 * c.n + 2);
    sched := first + ext[..j];
    StillBuilt(c, sched);
  }

  /** Up to the toggle's last store but the flip: the node of the top slot is linked. */
  lemma LinkTop(c: Config, before: seq<Move>) returns (sched: seq<Move>)
    requires ValidConfig(c) && TOP in c.anchors
    requires var s := Exec(c, before); s.heap == Build(c).heap && s.groups == map[] && s.churn == map[] && s.w.WIdle?
    ensures var s := Exec(c, sched);
            && s.rd == Exec(c, before).rd && s.w == IPrev(TOP, 0, c.n, TOP, HEAD) && s.groups == map[0 := 0]
            && s.heap == Build(c).heap[c.n := Node(INT_MAX, HEAD, TOP, Tagged(0, 1))]
  {
    Then(c, before, Toggle(TOP, 0));
    var s1 := before + [Toggle(TOP, 0)];
    Then(c, s1, Write(c.n));
    sched := s1 + [Write(c.n)];
  }

  /** The writer links and shows the node of the top slot. */
  lemma ShowTop(c: Config, before: seq<Move>) returns (sched: seq<Move>)
    requires ValidConfig(c) && TOP in c.anchors
    requires var s := Exec(c, before);
             && s.w == IPrev(TOP, 0, c.n, TOP, HEAD) && s.groups == map[0 := 0]
             && s.heap == Build(c).heap[c.n := Node(INT_MAX, HEAD, TOP, Tagged(0, 1))]
    ensures var s := Exec(c, sched); s.rd == Exec(c, before).rd && TopShown(c, s.heap, s.groups)
  {
    var s, m := Exec(c, before), Write(c.n + 1);
    Then(c, before, m);
    TopStores(c, s);
    Then(c, before + [m], m);
    Then(c, before + [m] + [m], m);
    sched := before + [m] + [m] + [m];
  }

  /** The three stores from there to the flip. */
  lemma TopStores(c: Config, s: State)
    requires ValidConfig(c) && TOP in c.anchors && !s.fault && s.w == IPrev(TOP, 0, c.n, TOP, HEAD) && s.groups == map[0 := 0]
    requires s.heap == Build(c).heap[c.n := Node(INT_MAX, HEAD, TOP, Tagged(0, 1))]
    ensures var m := Write(c.n + 1);
            var s1 := Step(c, s, m);
            var s2 := Step(c, s1, m);
            var s3 := Step(c, s2, m);
            s3.rd == s.rd && TopShown(c, s3.heap, s3.groups)
  {
    var m := Write(c.n + 1);
    var head, top := s.heap[HEAD].(prev := c.n), s.heap[TOP].(next := c.n);
    var s1 := Step(c, s, m);
    assert s1 == s.(heap := s.heap[HEAD := head], w := INext(TOP, 0, c.n, TOP, HEAD));
    var s2 := Step(c, s1, m);
    assert s2 == s1.(heap := s1.heap[TOP := top], w := IFlip(TOP, 0, c.n));
  }

  predicate TopShown(c: Config, heap: map<int, Node>, groups: map<int, int>) {
    && HEAD in heap && heap[HEAD].prev == c.n && c.n in heap && heap[c.n].key == INT_MAX
    && heap[c.n].egi == Tagged(0, 1) && groups == map[0 := 1]
  }

  lemma ReadNext(c: Config, sched: seq<Move>)
    requires ValidConfig(c) && c.threads > 0
    ensures var s, s' := Exec(c, sched), Exec(c, sched + [Read(0)]);
            s'.heap == s.heap && s'.groups == s.groups && Loadable(s.heap, s.groups, s.rd[0]) && s'.rd[0] == Load(c, s.heap, s.groups, s.rd[0])
  {
    Then(c, sched, Read(0));
    Invariant(c, sched);
    CanLoad(c, Exec(c, sched), History(c, sched), 0);
  }

  /** A backward walk over that memory: head, node, tag, state, key. */
  lemma TopLoads(c: Config, heap: map<int, Node>, groups: map<int, int>)
    requires ValidConfig(c) && TopShown(c, heap, groups)
    ensures var w := Start(false, true);
            && Load(c, heap, groups, RLoad(w, HEAD)) == RTest(w, c.n)
            && Load(c, heap, groups, RTest(w, c.n)) == RState(w, c.n, 0, 1)
            && Load(c, heap, groups, RState(w, c.n, 0, 1)) == RKey(w, c.n)
            && Load(c, heap, groups, RKey(w, c.n)) == REnd(w, true)
  {
  }

  /** A backward walk that starts now stops at that node. */
  lemma StopsAtTop(c: Config, before: seq<Move>) returns (sched: seq<Move>)
    requires ValidConfig(c) && c.threads > 0 && !c.forwardOnly
    requires var s := Exec(c, before); s.rd[0].REnd? && !s.rd[0].w.second && TopShown(c, s.heap, s.groups)
    ensures Exec(c, sched).rd[0] == REnd(Start(false, true), true)
  {
    TopLoads(c, Exec(c, before).heap, Exec(c, before).groups);
    ReadNext(c, before);
    var s1 := before + [Read(0)];
    ReadNext(c, s1);
    var s2 := s1 + [Read(0)];
    ReadNext(c, s2);
    var s3 := s2 + [Read(0)];
    ReadNext(c, s3);
    var s4 := s3 + [Read(0)];
    ReadNext(c, s4);
    sched := s4 + [Read(0)];
  }

  ghost predicate Violates(c: Config, sched: seq<Move>, t: int)
    requires ValidConfig(c)
  {
    0 <= t < c.threads && Exec(c, sched).rd[t].REnd? && Exec(c, sched).rd[t].viol
  }

  /** Some run reports a violation if and only if there is a slot whose key is INT_MAX and readers walk backward. */
  lemma ViolationIff(c: Config)
    requires ValidConfig(c)
    ensures (exists sched, t :: Violates(c, sched, t)) <==> TOP in c.anchors && !c.forwardOnly && c.threads > 0
  {
    forall sched, t | Violates(c, sched, t) ensures TOP in c.anchors && !c.forwardOnly && c.threads > 0 {
      WalkComplete(c, sched, t);
      if c.forwardOnly { WayOfWalk(c, sched, t); }
    }
    if TOP in c.anchors && !c.forwardOnly && c.threads > 0 {
      var walked := WalkForward(c);
      var linked := LinkTop(c, walked);
      var shown := ShowTop(c, linked);
      var sched := StopsAtTop(c, shown);
      assert Violates(c, sched, 0);
    }
  }

  /** A forward-only benchmark never walks backward. */
  lemma {:induction false} WayOfWalk(c: Config, sched: seq<Move>, t: int)
    requires ValidConfig(c) && 0 <= t < c.threads && c.forwardOnly && !Exec(c, sched).rd[t].RIdle?
    ensures Exec(c, sched).rd[t].w.fwd
  {
    var before, m := sched[..|sched| - 1], sched[|sched| - 1];
    if !Exec(c, before).rd[t].RIdle? { WayOfWalk(c, before, t); }
    WayStays(c, Exec(c, before), m, t);
  }

  lemma WayStays(c: Config, s: State, m: Move, t: int)
    requires ValidConfig(c) && 0 <= t < |s.rd| && c.forwardOnly && (s.rd[t].RIdle? || s.rd[t].w.fwd)
    ensures var pc := Step(c, s, m).rd[t]; pc.RIdle? || pc.w.fwd
  {
    if !m.Read? { OthersStay(c, s, m); }
  }
}
