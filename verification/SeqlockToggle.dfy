/** What toggles of the seqlock engine come to, in every interleaving. */
module SeqlockToggle {
  import opened RingList
  import opened Seqlock
  import opened SeqlockInvariant
  import opened SeqlockTheorems
  import opened SeqlockWrap

  /** The last store of the toggle to the list is still to come. */
  predicate PendingOn(w: WPc, a: int) { !w.WIdle? && !w.WEven? && w.a == a }

  predicate Starts(c: Config, s: State, m: Move, a: int) { Enabled(c, s, m) && m == Toggle(a) }

  /** How many toggles of slot a the schedule has started. */
  ghost function Begun(c: Config, sched: seq<Move>, a: int): nat
    requires ValidConfig(c)
  {
    if sched == [] then 0
    else
      var before := sched[..|sched| - 1];
      Begun(c, before, a) + if Starts(c, Exec(c, before), sched[|sched| - 1], a) then 1 else 0
  }

  /** The node of a pending toggle appears or vanishes by the step that ends it, and by no other. */
  lemma PresentStep(c: Config, s: State, m: Move, a: int)
    requires !Step(c, s, m).fault
    requires (s.w.L1? || s.w.L2? || s.w.L3? || s.w.L4? ==> s.w.a !in s.present) && (s.w.U1? || s.w.U2? ==> s.w.a in s.present)
    ensures var s' := Step(c, s, m);
            && (PendingOn(s'.w, a) ==> PendingOn(s.w, a) || Starts(c, s, m, a))
            && (Starts(c, s, m, a) ==> PendingOn(s'.w, a) && !PendingOn(s.w, a))
            && ((a in s'.present) != (a in s.present) <==> PendingOn(s.w, a) && !PendingOn(s'.w, a))
  {
  }

  /** A slot's node is in the list exactly after an odd number of toggles, not counting one that is still pending. */
  lemma {:induction false} PresentIff(c: Config, sched: seq<Move>, a: int)
    requires ValidConfig(c)
    ensures var s := Exec(c, sched);
            var done := Begun(c, sched, a) - if PendingOn(s.w, a) then 1 else 0;
            done >= 0 && (a in s.present <==> done % 2 == 1)
  {
    if sched != [] {
      var before, m := sched[..|sched| - 1], sched[|sched| - 1];
      PresentIff(c, before, a);
      Invariant(c, before);
      Invariant(c, sched);
      PresentStep(c, Exec(c, before), m, a);
    }
  }

  ghost function Odd(c: Config, sched: seq<Move>): set<int>
    requires ValidConfig(c)
  {
    set a: int | a in c.anchors && Begun(c, sched, a) % 2 == 1
  }

  /** Between toggles a forward walk finds the stable keys and the keys of the slots toggled an odd number of times. */
  lemma IdleList(c: Config, sched: seq<Move>)
    requires ValidConfig(c) && Exec(c, sched).w.WIdle?
    ensures Traverse(c, Exec(c, sched).heap, Exec(c, sched).sq).there == From(c.n, Odd(c, sched), 0)
  {
    Invariant(c, sched);
    var s := Exec(c, sched);
    QuietTraverse(c, s, s.sq);
    forall a: int ensures a in s.present <==> a in Odd(c, sched) { PresentIff(c, sched, a); }
    assert s.present == Odd(c, sched);
  }

  /** Every step of the writer brings it nearer to the end of its toggle, and no other step moves it. */
  lemma WriterNearer(c: Config, sched: seq<Move>, m: Move)
    requires ValidConfig(c)
    ensures var s, s' := Exec(c, sched), Exec(c, sched + [m]);
            && Rank(s.w) <= 6
            && (Enabled(c, s, m) && m.Write? ==> Rank(s'.w) < Rank(s.w))
            && (m.Read? || (m.Toggle? && !s.w.WIdle?) ==> s'.w == s.w)
  {
    assert (sched + [m])[..|sched|] == sched;
    if m.Write? && !Exec(c, sched).w.WIdle? { OneWrite(c, sched); }
  }
}
