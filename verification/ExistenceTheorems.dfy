/** What the invariant means for every schedule of the existence list. */
module ExistenceTheorems {
  import opened RingList
  import opened Existence
  import opened ExistenceInvariant
  import opened ExistenceReaders

  // ---- the list that a walk at one instant shows --------------------------

  /** The keys of the nodes from p on that exist; no more than `fuel` nodes are followed. */
  function Visible(s: State, fwd: bool, p: int, fuel: nat): seq<int>
    decreases fuel
  {
    if fuel == 0 || p == HEAD || p !in s.heap then []
    else (if Exists(s.heap, s.groups, p) then [s.heap[p].key] else []) + Visible(s, fwd, Link(s.heap[p], fwd), fuel - 1)
  }

  ghost function ShownGaps(c: Config, s: State): set<int> {
    set i: int | 0 <= i < c.n && Shown(c, s, i)
  }

  /** What a walk sees of stable node i and its gap before it comes to the next stable node. */
  lemma GapForward(c: Config, s: State, home: map<int, int>, i: int, fuel: nat)
    requires ValidConfig(c) && MemInv(c, s, home) && 0 <= i < c.n && fuel >= 2
    ensures i in s.heap
    ensures Visible(s, true, i, fuel)
         == Pair(ShownGaps(c, s), i) + Visible(s, true, Succ(c.n, i), if s.heap[i].next == Succ(c.n, i) then fuel - 1 else fuel - 2)
  {
    GapShows(c, s, home, i);
    assert Stable(c, s, i);
    var f := s.heap[i].next;
    if f != Succ(c.n, i) {
      assert NodeInv(c, s, home, f);
      assert Visible(s, true, f, fuel - 1) == (if Shown(c, s, i) then [2 * i + 1] else []) + Visible(s, true, Succ(c.n, i), fuel - 2);
    }
  }

  lemma {:induction false} ForwardShows(c: Config, s: State, home: map<int, int>, i: int, fuel: nat)
    requires ValidConfig(c) && MemInv(c, s, home) && 0 <= i <= c.n && fuel >= 2 * (c.n - i)
    ensures Visible(s, true, if i == c.n then HEAD else i, fuel) == From(c.n, ShownGaps(c, s), i)
    decreases c.n - i
  {
    if i < c.n {
      GapForward(c, s, home, i, fuel);
      ForwardShows(c, s, home, i + 1, if s.heap[i].next == Succ(c.n, i) then fuel - 1 else fuel - 2);
    }
  }

  /** The backward walk from stable node i - 1, or from the node in its gap. */
  lemma {:induction false} BackwardShows(c: Config, s: State, home: map<int, int>, i: int, fuel: nat)
    requires ValidConfig(c) && MemInv(c, s, home) && 0 <= i <= c.n && fuel >= 2 * i
    requires var p := if i == c.n then HEAD else i; p in s.heap
    ensures Visible(s, false, s.heap[if i == c.n then HEAD else i].prev, fuel) == Reverse(UpTo(ShownGaps(c, s), i))
    decreases i
  {
    if i > 0 {
      GapShows(c, s, home, i - 1);
      assert Stable(c, s, i - 1);
      var b := s.heap[Succ(c.n, i - 1)].prev;
      ReversePair(ShownGaps(c, s), i);
      if b == i - 1 {
        BackwardShows(c, s, home, i - 1, fuel - 1);
      } else {
        assert NodeInv(c, s, home, b);
        BackwardShows(c, s, home, i - 1, fuel - 2);
        assert Visible(s, false, i - 1, fuel - 1) == [2 * i - 2] + Reverse(UpTo(ShownGaps(c, s), i - 1));
      }
    }
  }

  lemma HeadShows(c: Config, sched: seq<Move>, fuel: nat)
    requires ValidConfig(c) && fuel >= 2 * c.n
    ensures var s := Exec(c, sched);
            && HEAD in s.heap
            && Visible(s, true, s.heap[HEAD].next, fuel) == From(c.n, ShownGaps(c, s), 0)
            && Visible(s, false, s.heap[HEAD].prev, fuel) == Reverse(From(c.n, ShownGaps(c, s), 0))
  {
    Invariant(c, sched);
    var s, home := Exec(c, sched), History(c, sched).home;
    ForwardShows(c, s, home, 0, fuel);
    BackwardShows(c, s, home, c.n, fuel);
    Whole(c.n, ShownGaps(c, s));
  }

  /**
   After every single store, the forward walk filtered by exs_exists is the reverse of
   the filtered backward walk.
   */
  lemma BothWaysAgree(c: Config, sched: seq<Move>, fuel: nat)
    requires ValidConfig(c) && fuel >= 2 * c.n
    ensures var s := Exec(c, sched);
            && HEAD in s.heap
            && Visible(s, false, s.heap[HEAD].prev, fuel) == Reverse(Visible(s, true, s.heap[HEAD].next, fuel))
  {
    HeadShows(c, sched, fuel);
  }

  // ---- when the list changes ----------------------------------------------

  /** The store to a group's state that toggles gap i. */
  predicate Flips(c: Config, s: State, m: Move, i: int) {
    Enabled(c, s, m) && m.Write? && (s.w.DFlip? || s.w.IFlip?) && s.w.a == i
  }

  lemma FilledHide(c: Config, s: State, addr: int, i: int)
    requires ValidConfig(c) && Enabled(c, s, Write(addr)) && !WriterStep(c, s, addr).fault
    requires s.w.DLoad? || s.w.DTag? || s.w.DFlip?
    ensures (Filled(c, WriterStep(c, s, addr), i) != Filled(c, s, i)) <==> s.w.DFlip? && s.w.a == i
  {
  }

  lemma FilledUnlink(c: Config, s: State, addr: int, i: int)
    requires ValidConfig(c) && Enabled(c, s, Write(addr)) && !WriterStep(c, s, addr).fault
    requires s.w.DNext? || s.w.DPrev? || s.w.DFree? || s.w.Put?
    ensures Filled(c, WriterStep(c, s, addr), i) <==> Filled(c, s, i)
  {
  }

  lemma FilledLink(c: Config, s: State, addr: int, i: int)
    requires ValidConfig(c) && Enabled(c, s, Write(addr)) && !WriterStep(c, s, addr).fault
    requires s.w.IPrev? || s.w.INext?
    ensures Filled(c, WriterStep(c, s, addr), i) <==> Filled(c, s, i)
  {
  }

  lemma FilledAlloc(c: Config, s: State, addr: int, i: int)
    requires ValidConfig(c) && Enabled(c, s, Write(addr)) && !WriterStep(c, s, addr).fault && s.w.ILoad?
    ensures Filled(c, WriterStep(c, s, addr), i) <==> Filled(c, s, i)
  {
  }

  lemma FilledShow(c: Config, s: State, addr: int, i: int)
    requires ValidConfig(c) && Enabled(c, s, Write(addr)) && !WriterStep(c, s, addr).fault
    requires s.w.IFlip? || s.w.IPerm?
    ensures (Filled(c, WriterStep(c, s, addr), i) != Filled(c, s, i)) <==> s.w.IFlip? && s.w.a == i
  {
  }

  lemma FilledStep(c: Config, s: State, m: Move, i: int)
    requires ValidConfig(c) && !Step(c, s, m).fault
    ensures (Filled(c, Step(c, s, m), i) != Filled(c, s, i)) <==> Flips(c, s, m, i)
  {
    if Enabled(c, s, m) && m.Write? {
      if s.w.DLoad? || s.w.DTag? || s.w.DFlip? { FilledHide(c, s, m.addr, i); }
      else if s.w.ILoad? { FilledAlloc(c, s, m.addr, i); }
      else if s.w.IPrev? || s.w.INext? { FilledLink(c, s, m.addr, i); }
      else if s.w.IFlip? || s.w.IPerm? { FilledShow(c, s, m.addr, i); }
      else { FilledUnlink(c, s, m.addr, i); }
    } else {
      assert m.Toggle? || (Step(c, s, m).w == s.w && Step(c, s, m).churn == s.churn);
    }
  }

  lemma ShownStep(c: Config, sched: seq<Move>, m: Move, i: int)
    requires ValidConfig(c) && 0 <= i < c.n
    ensures (Shown(c, Exec(c, sched + [m]), i) != Shown(c, Exec(c, sched), i)) <==> Flips(c, Exec(c, sched), m, i)
  {
    assert (sched + [m])[..|sched|] == sched;
    Invariant(c, sched);
    Invariant(c, sched + [m]);
    GapShows(c, Exec(c, sched), History(c, sched).home, i);
    GapShows(c, Exec(c, sched + [m]), History(c, sched + [m]).home, i);
    FilledStep(c, Exec(c, sched), m, i);
  }

  /** The shown list changes at exactly the stores to a group's state, by the one key of the toggled gap. */
  lemma ChangesAtFlip(c: Config, sched: seq<Move>, m: Move, fuel: nat)
    requires ValidConfig(c) && fuel >= 2 * c.n
    ensures var s, s' := Exec(c, sched), Exec(c, sched + [m]);
            && HEAD in s.heap && HEAD in s'.heap
            && var r, r' := Visible(s, true, s.heap[HEAD].next, fuel), Visible(s', true, s'.heap[HEAD].next, fuel);
               && ((forall i: int :: !Flips(c, s, m, i)) ==> r' == r)
               && (forall i: int, k: int :: Flips(c, s, m, i) ==> ((k in r') != (k in r) <==> k == 2 * i + 1))
  {
    var s, s' := Exec(c, sched), Exec(c, sched + [m]);
    HeadShows(c, sched, fuel);
    HeadShows(c, sched + [m], fuel);
    if forall i: int :: !Flips(c, s, m, i) {
      NoFlipSame(c, sched, m);
    }
    forall i: int, k: int | Flips(c, s, m, i) ensures (k in From(c.n, ShownGaps(c, s'), 0)) != (k in From(c.n, ShownGaps(c, s), 0)) <==> k == 2 * i + 1 {
      FlipToggles(c, sched, m, i, k);
    }
  }

  lemma NoFlipSame(c: Config, sched: seq<Move>, m: Move)
    requires ValidConfig(c) && forall i: int :: !Flips(c, Exec(c, sched), m, i)
    ensures ShownGaps(c, Exec(c, sched + [m])) == ShownGaps(c, Exec(c, sched))
  {
    forall i: int | 0 <= i < c.n ensures Shown(c, Exec(c, sched + [m]), i) <==> Shown(c, Exec(c, sched), i) {
      ShownStep(c, sched, m, i);
    }
  }

  lemma FlipGap(c: Config, sched: seq<Move>, m: Move, i: int)
    requires ValidConfig(c) && Flips(c, Exec(c, sched), m, i)
    ensures 0 <= i < c.n
  {
    Invariant(c, sched);
  }

  lemma FlipToggles(c: Config, sched: seq<Move>, m: Move, i: int, k: int)
    requires ValidConfig(c) && Flips(c, Exec(c, sched), m, i)
    ensures (k in From(c.n, ShownGaps(c, Exec(c, sched + [m])), 0)) != (k in From(c.n, ShownGaps(c, Exec(c, sched)), 0)) <==> k == 2 * i + 1
  {
    var shown, shown' := ShownGaps(c, Exec(c, sched)), ShownGaps(c, Exec(c, sched + [m]));
    FlipGap(c, sched, m, i);
    InFrom(c.n, shown, 0, k);
    InFrom(c.n, shown', 0, k);
    if 0 <= k < 2 * c.n {
      ShownStep(c, sched, m, k / 2);
      assert k / 2 in shown <==> Shown(c, Exec(c, sched), k / 2);
      assert k / 2 in shown' <==> Shown(c, Exec(c, sched + [m]), k / 2);
    }
  }

  // ---- readers ------------------------------------------------------------

  /** No reader and no writer ever follows a pointer to a freed node or group. */
  lemma NoUseAfterFree(c: Config, sched: seq<Move>)
    requires ValidConfig(c)
    ensures !Exec(c, sched).fault
  {
    Invariant(c, sched);
  }

  lemma LookStep(c: Config, s: State, h: Past, m: Move, now: nat, t: int)
    requires ValidConfig(c) && t in StepPast(c, s, h, m, now).seen && !Begins(c, s, m, t)
    ensures t in h.seen && StepPast(c, s, h, m, now).seen[t] == Look(c, Step(c, s, m), h.seen[t])
  {
  }

  lemma {:induction false} FromBounded(c: Config, sched: seq<Move>, t: int)
    requires ValidConfig(c) && t in History(c, sched).seen
    ensures History(c, sched).seen[t].from <= |sched|
  {
    var before, m := sched[..|sched| - 1], sched[|sched| - 1];
    if !Begins(c, Exec(c, before), m, t) {
      LookStep(c, Exec(c, before), History(c, before), m, |sched|, t);
      FromBounded(c, before, t);
    }
  }

  /** A gap recorded as filled, or as empty, was so at an instant of the current walk. */
  lemma {:induction false} SeenMeans(c: Config, sched: seq<Move>, t: int, i: int, yes: bool) returns (j: nat)
    requires ValidConfig(c) && t in History(c, sched).seen
    requires var o := History(c, sched).seen[t]; i in (if yes then o.filled else o.empty)
    ensures History(c, sched).seen[t].from <= j <= |sched| && Shown(c, Exec(c, sched[..j]), i) == yes
  {
    var before, m := sched[..|sched| - 1], sched[|sched| - 1];
    var s, h := Exec(c, before), History(c, before);
    assert sched[..|sched|] == sched;
    FromBounded(c, sched, t);
    if !Begins(c, s, m, t) {
      LookStep(c, s, h, m, |sched|, t);
      if i in (if yes then h.seen[t].filled else h.seen[t].empty) {
        j := SeenMeans(c, before, t, i, yes);
        assert sched[..j] == before[..j];
        return;
      }
    }
    j := |sched|;
  }

  /** A gap that shows a node is the gap of a slot. */
  lemma ShownAnchored(c: Config, sched: seq<Move>, i: int)
    requires ValidConfig(c) && 0 <= i < c.n && Shown(c, Exec(c, sched), i)
    ensures i in c.anchors
  {
    Invariant(c, sched);
    GapShows(c, Exec(c, sched), History(c, sched).home, i);
  }

  /**
   A finished walk, whatever ran meanwhile: keys strictly monotone in the direction of the
   walk, every stable node visited exactly once, no trip of the step guard, and no order
   violation, except that a backward walk stops at a node whose key is INT_MAX.
   */
  lemma WalkComplete(c: Config, sched: seq<Move>, t: int)
    requires ValidConfig(c) && 0 <= t < c.threads && Exec(c, sched).rd[t].REnd?
    ensures var pc := Exec(c, sched).rd[t];
            if pc.viol then !pc.w.fwd && pc.w.trail == [] && TOP in c.anchors
            else
              && Monotone(pc.w.fwd, pc.w.trail)
              && (forall v: int :: 0 <= v < 2 * c.n && v % 2 == 0 ==> v in pc.w.trail)
              && (forall v: int :: v in pc.w.trail ==> 0 <= v < 2 * c.n)
  {
    Invariant(c, sched);
    assert ReaderInv(c, Exec(c, sched), History(c, sched), t);
    if Exec(c, sched).rd[t].viol {
      var j := SeenMeans(c, sched, t, TOP, true);
      ShownAnchored(c, sched[..j], TOP);
    }
  }

  /** Its verdict on every gap, visited or not, was right at some instant of the walk. */
  lemma WalkTruthful(c: Config, sched: seq<Move>, t: int, i: int) returns (j: nat)
    requires ValidConfig(c) && 0 <= t < c.threads && 0 <= i < c.n
    requires Exec(c, sched).rd[t].REnd? && !Exec(c, sched).rd[t].viol
    ensures t in History(c, sched).seen && History(c, sched).seen[t].from <= j <= |sched|
    ensures Shown(c, Exec(c, sched[..j]), i) <==> 2 * i + 1 in Exec(c, sched).rd[t].w.trail
  {
    VerdictSettled(c, sched, t, i);
    j := SeenMeans(c, sched, t, i, 2 * i + 1 in Exec(c, sched).rd[t].w.trail);
  }

  lemma VerdictSettled(c: Config, sched: seq<Move>, t: int, i: int)
    requires ValidConfig(c) && 0 <= t < c.threads && 0 <= i < c.n
    requires Exec(c, sched).rd[t].REnd? && !Exec(c, sched).rd[t].viol
    ensures t in History(c, sched).seen && Settled(Exec(c, sched).rd[t].w, History(c, sched).seen[t], i)
  {
    Invariant(c, sched);
    assert ReaderInv(c, Exec(c, sched), History(c, sched), t);
  }
}
