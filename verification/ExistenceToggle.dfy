/**
 What toggles of the existence list come to, in every interleaving: each flips its gap
 exactly once, and nothing it allocates is lost.
 */
module ExistenceToggle {
  import opened Basics
  import opened RingList
  import opened Existence
  import opened ExistenceInvariant
  import opened ExistenceReaders
  import opened ExistenceTheorems

  lemma Then(c: Config, sched: seq<Move>, m: Move)
    requires ValidConfig(c)
    ensures Exec(c, sched + [m]) == Step(c, Exec(c, sched), m)
    ensures !Exec(c, sched).fault && !Exec(c, sched + [m]).fault
  {
    assert (sched + [m])[..|sched|] == sched;
    NoUseAfterFree(c, sched);
    NoUseAfterFree(c, sched + [m]);
  }

  // ---- a toggle flips its gap once ----------------------------------------

  /** The store to the group's state is still to come. */
  predicate Pending(w: WPc) {
    w.DLoad? || w.DTag? || w.DFlip? || w.ILoad? || w.IPrev? || w.INext? || w.IFlip?
  }

  predicate PendingOn(w: WPc, a: int) { Pending(w) && w.a == a }

  /** The move starts a toggle of gap a. */
  predicate Starts(c: Config, s: State, m: Move, a: int) { Enabled(c, s, m) && m.Toggle? && m.a == a }

  /** A toggle is pending from its start to its flip, on the same gap. */
  lemma PendingStep(c: Config, s: State, m: Move, a: int)
    requires ValidConfig(c) && !Step(c, s, m).fault
    ensures var w, w' := s.w, Step(c, s, m).w;
            PendingOn(w', a) <==> Starts(c, s, m, a) || (PendingOn(w, a) && !Flips(c, s, m, a))
  {
    if Enabled(c, s, m) && m.Write? {
      WriteStep(c, s, m.addr);
    } else {
      assert m.Toggle? || Step(c, s, m).w == s.w;
    }
  }

  function Rank(w: WPc): nat {
    match w
    case WIdle => 0
    case Put(_, _) => 1
    case DFree(_, _, _) => 2
    case DPrev(_, _, _, _, _) => 3
    case DNext(_, _, _, _, _) => 4
    case DFlip(_, _, _, _, _) => 5
    case DTag(_, _, _, _, _) => 6
    case DLoad(_, _) => 7
    case IPerm(_, _, _) => 2
    case IFlip(_, _, _) => 3
    case INext(_, _, _, _, _) => 4
    case IPrev(_, _, _, _, _) => 5
    case ILoad(_, _) => 6
  }

  /** What one step of the writer does to its position. */
  predicate WriteOk(c: Config, s: State, addr: int, w': WPc) {
    && Rank(w') < Rank(s.w)
    && (Pending(w') ==> Pending(s.w) && w'.a == s.w.a)
    && (Pending(s.w) && !Pending(w') <==> s.w.DFlip? || s.w.IFlip?)
  }

  lemma HideSteps(c: Config, s: State, addr: int)
    requires ValidConfig(c) && Enabled(c, s, Write(addr)) && !WriterStep(c, s, addr).fault && (s.w.DLoad? || s.w.DTag? || s.w.DFlip?)
    ensures WriteOk(c, s, addr, WriterStep(c, s, addr).w)
  {
  }

  lemma UnlinkStep(c: Config, s: State, addr: int)
    requires ValidConfig(c) && Enabled(c, s, Write(addr)) && !WriterStep(c, s, addr).fault && s.w.DNext?
    ensures WriteOk(c, s, addr, WriterStep(c, s, addr).w)
  {
  }

  lemma BypassStep(c: Config, s: State, addr: int)
    requires ValidConfig(c) && Enabled(c, s, Write(addr)) && !WriterStep(c, s, addr).fault && (s.w.DPrev? || s.w.DFree?)
    ensures WriteOk(c, s, addr, WriterStep(c, s, addr).w)
  {
  }

  lemma LinkBackStep(c: Config, s: State, addr: int)
    requires ValidConfig(c) && Enabled(c, s, Write(addr)) && !WriterStep(c, s, addr).fault && s.w.IPrev?
    ensures WriteOk(c, s, addr, WriterStep(c, s, addr).w)
  {
  }

  lemma LinkStep(c: Config, s: State, addr: int)
    requires ValidConfig(c) && Enabled(c, s, Write(addr)) && !WriterStep(c, s, addr).fault && s.w.INext?
    ensures WriteOk(c, s, addr, WriterStep(c, s, addr).w)
  {
  }

  lemma AllocSteps(c: Config, s: State, addr: int)
    requires ValidConfig(c) && Enabled(c, s, Write(addr)) && !WriterStep(c, s, addr).fault && s.w.ILoad?
    ensures WriteOk(c, s, addr, WriterStep(c, s, addr).w)
  {
  }

  lemma ShowSteps(c: Config, s: State, addr: int)
    requires ValidConfig(c) && Enabled(c, s, Write(addr)) && !WriterStep(c, s, addr).fault && (s.w.IFlip? || s.w.IPerm? || s.w.Put?)
    ensures WriteOk(c, s, addr, WriterStep(c, s, addr).w)
  {
  }

  lemma WriteStep(c: Config, s: State, addr: int)
    requires ValidConfig(c) && Enabled(c, s, Write(addr)) && !WriterStep(c, s, addr).fault
    ensures WriteOk(c, s, addr, WriterStep(c, s, addr).w)
  {
    if s.w.DLoad? || s.w.DTag? || s.w.DFlip? { HideSteps(c, s, addr); }
    else if s.w.DNext? { UnlinkStep(c, s, addr); }
    else if s.w.DPrev? || s.w.DFree? { BypassStep(c, s, addr); }
    else if s.w.ILoad? { AllocSteps(c, s, addr); }
    else if s.w.IPrev? { LinkBackStep(c, s, addr); }
    else if s.w.INext? { LinkStep(c, s, addr); }
    else { ShowSteps(c, s, addr); }
  }

  /** How many toggles of gap a the schedule has started. */
  ghost function Begun(c: Config, sched: seq<Move>, a: int): nat
    requires ValidConfig(c)
  {
    if sched == [] then 0
    else
      var before := sched[..|sched| - 1];
      Begun(c, before, a) + if Starts(c, Exec(c, before), sched[|sched| - 1], a) then 1 else 0
  }

  /** A gap shows a node exactly after an odd number of flips: one for every toggle but the one still pending. */
  lemma {:induction false} ShownIff(c: Config, sched: seq<Move>, a: int)
    requires ValidConfig(c) && 0 <= a < c.n
    ensures var s := Exec(c, sched);
            var flips := Begun(c, sched, a) - if PendingOn(s.w, a) then 1 else 0;
            flips >= 0 && (Shown(c, s, a) <==> flips % 2 == 1)
  {
    if sched == [] {
      HeadShows(c, [], 2 * c.n);
      NoneShown(c, a);
    } else {
      var before, m := sched[..|sched| - 1], sched[|sched| - 1];
      assert before + [m] == sched;
      var s := Exec(c, before);
      ShownIff(c, before, a);
      Then(c, before, m);
      PendingStep(c, s, m, a);
      ShownStep(c, before, m, a);
      assert Flips(c, s, m, a) ==> PendingOn(s.w, a);
    }
  }

  lemma NoneShown(c: Config, a: int)
    requires ValidConfig(c) && 0 <= a < c.n
    ensures !Shown(c, Exec(c, []), a)
  {
  }

  /** The slots that have been toggled an odd number of times. */
  ghost function Odd(c: Config, sched: seq<Move>): set<int>
    requires ValidConfig(c)
  {
    set a: int | 0 <= a < c.n && Begun(c, sched, a) % 2 == 1
  }

  /**
   Whenever the writer is between toggles, the list shows exactly the stable keys and the
   keys of the slots that have been toggled an odd number of times, in order.
   */
  lemma IdleShows(c: Config, sched: seq<Move>, fuel: nat)
    requires ValidConfig(c) && fuel >= 2 * c.n && Exec(c, sched).w.WIdle?
    ensures var s := Exec(c, sched);
            && HEAD in s.heap
            && Visible(s, true, s.heap[HEAD].next, fuel) == From(c.n, Odd(c, sched), 0)
  {
    HeadShows(c, sched, fuel);
    forall a: int | 0 <= a < c.n ensures a in ShownGaps(c, Exec(c, sched)) <==> a in Odd(c, sched) { IdleShown(c, sched, a); }
    assert ShownGaps(c, Exec(c, sched)) == Odd(c, sched);
  }

  // ---- and comes to an end ------------------------------------------------

  /** Every step of the writer brings it nearer to the end of its toggle, and no other step moves it. */
  lemma WriterNearer(c: Config, sched: seq<Move>, m: Move)
    requires ValidConfig(c)
    ensures var s, s' := Exec(c, sched), Exec(c, sched + [m]);
            && Rank(s.w) <= 7
            && (Enabled(c, s, m) && m.Write? ==> Rank(s'.w) < Rank(s.w))
            && (!m.Write? && !m.Toggle? ==> s'.w == s.w)
            && (m.Toggle? && !s.w.WIdle? ==> s'.w == s.w)
  {
    Then(c, sched, m);
    OneStep(c, Exec(c, sched), m);
  }

  lemma OneStep(c: Config, s: State, m: Move)
    requires ValidConfig(c) && !Step(c, s, m).fault
    ensures var w' := Step(c, s, m).w;
            && Rank(s.w) <= 7
            && (Enabled(c, s, m) && m.Write? ==> Rank(w') < Rank(s.w))
            && (!m.Write? && !m.Toggle? ==> w' == s.w) && (m.Toggle? && !s.w.WIdle? ==> w' == s.w)
  {
    if Enabled(c, s, m) && m.Write? { WriteStep(c, s, m.addr); }
  }

  /** The writer alone finishes what it is doing. */
  lemma {:induction false} Drain(c: Config, sched: seq<Move>) returns (done: seq<Move>)
    requires ValidConfig(c)
    ensures Exec(c, done).w.WIdle? && forall a: int :: Begun(c, done, a) == Begun(c, sched, a)
    decreases Rank(Exec(c, sched).w)
  {
    var s := Exec(c, sched);
    if s.w.WIdle? {
      done := sched;
    } else {
      var x := FreshAddress(s.heap.Keys);
      var addr := if x < c.n then c.n else x;
      assert addr !in s.heap;
      var m := Write(addr);
      WriterNearer(c, sched, m);
      Then(c, sched, m);
      assert (sched + [m])[..|sched|] == sched;
      done := Drain(c, sched + [m]);
    }
  }

  /** From any state with an idle writer, a toggle run to its end flips the toggled key and no other. */
  lemma ToggleAlone(c: Config, sched: seq<Move>, a: int, fuel: nat) returns (done: seq<Move>)
    requires ValidConfig(c) && a in c.anchors && Exec(c, sched).w.WIdle? && fuel >= 2 * c.n
    ensures var s, s' := Exec(c, sched), Exec(c, done);
            && s'.w.WIdle? && HEAD in s.heap && HEAD in s'.heap
            && forall k: int :: (k in Visible(s', true, s'.heap[HEAD].next, fuel)) != (k in Visible(s, true, s.heap[HEAD].next, fuel)) <==> k == 2 * a + 1
  {
    var g := FreshAddress(Exec(c, sched).groups.Keys);
    assert g !in Exec(c, sched).groups;
    var m := Toggle(a, g);
    Then(c, sched, m);
    assert (sched + [m])[..|sched|] == sched;
    done := Drain(c, sched + [m]);
    IdleShows(c, sched, fuel);
    IdleShows(c, done, fuel);
    OneMore(c, sched, done, a);
  }

  /** One more toggle of slot a changes one key. */
  lemma OneMore(c: Config, sched: seq<Move>, done: seq<Move>, a: int)
    requires ValidConfig(c) && 0 <= a < c.n
    requires forall b: int :: Begun(c, done, b) == Begun(c, sched, b) + if b == a then 1 else 0
    ensures forall k: int :: (k in From(c.n, Odd(c, done), 0)) != (k in From(c.n, Odd(c, sched), 0)) <==> k == 2 * a + 1
  {
    forall k: int ensures (k in From(c.n, Odd(c, done), 0)) != (k in From(c.n, Odd(c, sched), 0)) <==> k == 2 * a + 1 {
      InFrom(c.n, Odd(c, sched), 0, k);
      InFrom(c.n, Odd(c, done), 0, k);
      var b := k / 2;
      assert b in Odd(c, done) <==> 0 <= b < c.n && Begun(c, done, b) % 2 == 1;
      assert b in Odd(c, sched) <==> 0 <= b < c.n && Begun(c, sched, b) % 2 == 1;
    }
  }

  // ---- nothing is lost ----------------------------------------------------

  /** The node of a present slot, a node on its way in, or one that waits to be freed. */
  predicate Kept(s: State, home: map<int, int>, x: int)
    requires x in home
  {
    || x in s.limbo || (home[x] in s.churn && s.churn[home[x]] == x)
    || ((s.w.IPrev? || s.w.INext? || s.w.IFlip? || s.w.IPerm?) && s.w.x == x)
  }

  ghost predicate NodesKept(s: State, home: map<int, int>) {
    forall x: int {:trigger Kept(s, home, x)} :: x in home ==> Kept(s, home, x)
  }

  /** Every group is the writer's or waits to be freed, and no grace period waits for a closed section. */
  ghost predicate GroupsKept(s: State) {
    && (forall g: int :: g in s.groups ==> g in s.glimbo || (!s.w.WIdle? && s.w.g == g))
    && (forall g: int :: g in s.glimbo ==> s.glimbo[g] <= s.sections)
  }

  /** A step of the writer other than an allocation, a retirement or the end of an insert. */
  lemma KeptQuiet(c: Config, s: State, home: map<int, int>, addr: int, x: int)
    requires ValidConfig(c) && Enabled(c, s, Write(addr)) && !WriterStep(c, s, addr).fault && x in home && Kept(s, home, x)
    requires s.w.DLoad? || s.w.DTag? || s.w.DFlip? || s.w.DNext? || s.w.DPrev? || s.w.Put?
    ensures Kept(WriterStep(c, s, addr), home, x)
  {
  }

  lemma KeptInsert(c: Config, s: State, home: map<int, int>, addr: int, x: int)
    requires ValidConfig(c) && Enabled(c, s, Write(addr)) && !WriterStep(c, s, addr).fault && x in home && Kept(s, home, x)
    requires s.w.IPrev? || s.w.INext? || s.w.IFlip?
    ensures Kept(WriterStep(c, s, addr), home, x)
  {
  }

  lemma KeptMoved(c: Config, s: State, home: map<int, int>, m: Move, x: int)
    requires ValidConfig(c) && MemInv(c, s, home) && Enabled(c, s, m) && m.Write? && !Step(c, s, m).fault
    requires (s.w.DFree? || s.w.IPerm? || s.w.ILoad?) && x in Homes(c, s, home, m) && NodesKept(s, home)
    ensures Kept(Step(c, s, m), Homes(c, s, home, m), x)
  {
    if x in home { assert Kept(s, home, x); }
  }

  lemma NodesWrite(c: Config, s: State, home: map<int, int>, m: Move)
    requires ValidConfig(c) && MemInv(c, s, home) && Enabled(c, s, m) && m.Write? && NodesKept(s, home) && !Step(c, s, m).fault
    ensures NodesKept(Step(c, s, m), Homes(c, s, home, m))
  {
    forall x: int | x in Homes(c, s, home, m) ensures Kept(Step(c, s, m), Homes(c, s, home, m), x) {
      if s.w.DFree? || s.w.IPerm? || s.w.ILoad? {
        KeptMoved(c, s, home, m, x);
      } else {
        assert Kept(s, home, x);
        if s.w.IPrev? || s.w.INext? || s.w.IFlip? { KeptInsert(c, s, home, m.addr, x); } else { KeptQuiet(c, s, home, m.addr, x); }
      }
    }
  }

  lemma NodesOther(c: Config, s: State, home: map<int, int>, m: Move)
    requires ValidConfig(c) && MemInv(c, s, home) && Enabled(c, s, m) && !m.Write? && NodesKept(s, home)
    ensures NodesKept(Step(c, s, m), Homes(c, s, home, m))
  {
    var s', home' := Step(c, s, m), Homes(c, s, home, m);
    forall x: int | x in home' ensures Kept(s', home', x) {
      assert Kept(s, home, x);
    }
  }

  lemma GroupsWrite(c: Config, s: State, m: Move)
    requires ValidConfig(c) && Enabled(c, s, m) && m.Write? && GroupsKept(s) && !Step(c, s, m).fault && s.w.g in s.groups
    ensures GroupsKept(Step(c, s, m))
  {
    GroupOf(c, s, m.addr);
  }

  predicate GroupOk(s: State, s': State) {
    && !s.w.WIdle? && s'.groups.Keys == s.groups.Keys
    && if s.w.Put? then s'.glimbo == s.glimbo[s.w.g := s.sections] && s'.w.WIdle?
       else s'.glimbo == s.glimbo && !s'.w.WIdle? && s'.w.g == s.w.g
  }

  lemma GroupHide(c: Config, s: State, addr: int)
    requires ValidConfig(c) && Enabled(c, s, Write(addr)) && !WriterStep(c, s, addr).fault && s.w.g in s.groups
    requires s.w.DLoad? || s.w.DTag? || s.w.DFlip? || s.w.DNext?
    ensures GroupOk(s, WriterStep(c, s, addr))
  {
  }

  lemma GroupFree(c: Config, s: State, addr: int)
    requires ValidConfig(c) && Enabled(c, s, Write(addr)) && !WriterStep(c, s, addr).fault && s.w.g in s.groups
    requires s.w.DPrev? || s.w.DFree? || s.w.Put? || s.w.IPerm?
    ensures GroupOk(s, WriterStep(c, s, addr))
  {
  }

  lemma GroupShow(c: Config, s: State, addr: int)
    requires ValidConfig(c) && Enabled(c, s, Write(addr)) && !WriterStep(c, s, addr).fault && s.w.g in s.groups
    requires s.w.ILoad? || s.w.IPrev? || s.w.INext? || s.w.IFlip?
    ensures GroupOk(s, WriterStep(c, s, addr))
  {
  }

  /** The writer keeps its group until it hands it to call_rcu. */
  lemma GroupOf(c: Config, s: State, addr: int)
    requires ValidConfig(c) && Enabled(c, s, Write(addr)) && !WriterStep(c, s, addr).fault && s.w.g in s.groups
    ensures GroupOk(s, WriterStep(c, s, addr))
  {
    if s.w.DLoad? || s.w.DTag? || s.w.DFlip? || s.w.DNext? { GroupHide(c, s, addr); }
    else if s.w.ILoad? || s.w.IPrev? || s.w.INext? || s.w.IFlip? { GroupShow(c, s, addr); }
    else { GroupFree(c, s, addr); }
  }

  lemma GroupsOther(c: Config, s: State, m: Move)
    requires ValidConfig(c) && Enabled(c, s, m) && !m.Write? && GroupsKept(s)
    ensures GroupsKept(Step(c, s, m))
  {
  }

  lemma {:induction false} AllKept(c: Config, sched: seq<Move>)
    requires ValidConfig(c)
    ensures NodesKept(Exec(c, sched), History(c, sched).home) && GroupsKept(Exec(c, sched))
  {
    if sched != [] {
      var before, m := sched[..|sched| - 1], sched[|sched| - 1];
      assert before + [m] == sched;
      var s, home := Exec(c, before), History(c, before).home;
      AllKept(c, before);
      Invariant(c, before);
      Then(c, before, m);
      if Enabled(c, s, m) {
        if m.Write? {
          NodesWrite(c, s, home, m);
          GroupsWrite(c, s, m);
        } else {
          NodesOther(c, s, home, m);
          GroupsOther(c, s, m);
        }
      }
    }
  }

  predicate InSlot(s: State, a: int, x: int) { a in s.churn && s.churn[a] == x }

  /**
   No leak: between toggles every allocated node is the head, a stable node, the node of a
   present slot, or waits to be freed, and every group waits to be freed; and what waits,
   waits only for sections that are open now.
   */
  lemma NoLeak(c: Config, sched: seq<Move>)
    requires ValidConfig(c) && Exec(c, sched).w.WIdle?
    ensures var s := Exec(c, sched);
            && (forall x: int :: x in s.heap ==> x == HEAD || 0 <= x < c.n || x in s.limbo || exists a: int :: InSlot(s, a, x))
            && (forall g: int :: g in s.groups ==> g in s.glimbo)
            && (forall x: int :: x in s.limbo ==> s.limbo[x] <= s.sections)
            && (forall g: int :: g in s.glimbo ==> s.glimbo[g] <= s.sections)
  {
    AllKept(c, sched);
    Invariant(c, sched);
    var s, home := Exec(c, sched), History(c, sched).home;
    forall x: int | x in s.heap && x != HEAD && !(0 <= x < c.n) && x !in s.limbo ensures exists a: int :: InSlot(s, a, x) {
      assert Kept(s, home, x);
      assert InSlot(s, home[x], x);
    }
  }

  /** The slots whose node is in the list are the ones that show it, between toggles. */
  lemma ChurnIsShown(c: Config, sched: seq<Move>, a: int)
    requires ValidConfig(c) && 0 <= a < c.n && Exec(c, sched).w.WIdle?
    ensures a in Exec(c, sched).churn <==> Begun(c, sched, a) % 2 == 1
  {
    IdleShown(c, sched, a);
    Invariant(c, sched);
    ShownIsChurn(c, Exec(c, sched), History(c, sched).home, a);
  }

  lemma IdleShown(c: Config, sched: seq<Move>, a: int)
    requires ValidConfig(c) && 0 <= a < c.n && Exec(c, sched).w.WIdle?
    ensures Shown(c, Exec(c, sched), a) <==> Begun(c, sched, a) % 2 == 1
  {
    ShownIff(c, sched, a);
  }

  lemma ShownIsChurn(c: Config, s: State, home: map<int, int>, a: int)
    requires ValidConfig(c) && MemInv(c, s, home) && s.w.WIdle? && 0 <= a < c.n
    ensures Shown(c, s, a) <==> a in s.churn
  {
    GapShows(c, s, home, a);
  }
}
