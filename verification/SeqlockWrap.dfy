/**
 Runs of the seqlock engine at its limits: a slot whose key is INT_MAX, and the one way
 past the check, 2^64 stores to the sequence number in one attempt.
 */
module SeqlockWrap {
  import opened RingList
  import opened Seqlock
  import opened SeqlockInvariant
  import opened SeqlockTheorems

  /** The gaps that hold a node once the writer is done. */
  function Goal(s: State): set<int> {
    if s.w.WIdle? || s.w.WEven? then s.present
    else if s.w.a in s.present then s.present - {s.w.a} else s.present + {s.w.a}
  }

  function Rank(w: WPc): nat {
    match w
    case WIdle => 0 case WEven(_, _) => 1 case L4(_, _) => 2 case U2(_, _) => 2 case L3(_, _) => 3 case U1(_, _) => 3
    case L2(_, _) => 4 case L1(_, _) => 5 case WOdd(_) => 6
  }

  lemma OneWrite(c: Config, sched: seq<Move>)
    requires ValidConfig(c) && !Exec(c, sched).w.WIdle?
    ensures var s, s' := Exec(c, sched), Exec(c, sched + [Write]);
            && s'.rd == s.rd && Rank(s'.w) < Rank(s.w) && Goal(s') == Goal(s) && !s'.w.WOdd?
            && History(c, sched + [Write]) == History(c, sched).(bumps := History(c, sched).bumps + if s.w.WOdd? || s.w.WEven? then 1 else 0)
  {
    assert (sched + [Write])[..|sched|] == sched;
    Invariant(c, sched);
    Invariant(c, sched + [Write]);
    WriteShape(c, Exec(c, sched));
  }

  lemma WriteShape(c: Config, s: State)
    requires !s.w.WIdle? && !WriterStep(c, s).fault
    requires (s.w.L1? || s.w.L2? || s.w.L3? || s.w.L4? ==> s.w.a !in s.present) && (s.w.U1? || s.w.U2? ==> s.w.a in s.present)
    ensures var s' := WriterStep(c, s); s'.rd == s.rd && Rank(s'.w) < Rank(s.w) && Goal(s') == Goal(s) && !s'.w.WOdd?
  {
  }

  /** The writer finishes its toggle. */
  lemma {:induction false} Drain(c: Config, sched: seq<Move>) returns (ext: seq<Move>)
    requires ValidConfig(c) && !Exec(c, sched).w.WIdle?
    ensures var s, s' := Exec(c, sched), Exec(c, sched + ext);
            && s'.rd == s.rd && s'.w.WIdle? && s'.present == Goal(s)
            && History(c, sched + ext) == History(c, sched).(bumps := History(c, sched).bumps + if s.w.WOdd? then 2 else 1)
    decreases Rank(Exec(c, sched).w)
  {
    OneWrite(c, sched);
    var next := sched + [Write];
    if Exec(c, next).w.WIdle? {
      ext := [Write];
      Invariant(c, sched);
    } else {
      var rest := Drain(c, next);
      ext := [Write] + rest;
      assert sched + ext == next + rest;
    }
  }

  /** k whole toggles of the slot with anchor a. */
  lemma {:induction false} Toggles(c: Config, sched: seq<Move>, a: int, k: nat) returns (ext: seq<Move>)
    requires ValidConfig(c) && Exec(c, sched).w.WIdle? && a in c.anchors
    ensures var s, s' := Exec(c, sched), Exec(c, sched + ext);
            && s'.rd == s.rd && s'.w.WIdle?
            && (a in s'.present <==> (a in s.present) != (k % 2 == 1))
            && History(c, sched + ext) == History(c, sched).(bumps := History(c, sched).bumps + 2 * k)
    decreases k
  {
    if k == 0 {
      ext := [];
      assert sched + ext == sched;
    } else {
      var one := OneToggle(c, sched, a);
      var rest := Toggles(c, sched + one, a, k - 1);
      ext := one + rest;
      assert sched + ext == (sched + one) + rest;
    }
  }

  lemma OneToggle(c: Config, sched: seq<Move>, a: int) returns (ext: seq<Move>)
    requires ValidConfig(c) && Exec(c, sched).w.WIdle? && a in c.anchors
    ensures var s, s' := Exec(c, sched), Exec(c, sched + ext);
            && s'.rd == s.rd && s'.w.WIdle? && (a in s'.present <==> a !in s.present)
            && History(c, sched + ext) == History(c, sched).(bumps := History(c, sched).bumps + 2)
  {
    var next := sched + [Toggle(a)];
    assert next[..|sched|] == sched;
    LinksValid(c, sched);
    var rest := Drain(c, next);
    ext := [Toggle(a)] + rest;
    assert sched + ext == next + rest;
  }

  // ---- the slot whose key is INT_MAX --------------------------------------

  /** The number is even, and a walk at this instant would report a violation. */
  ghost predicate Reports(c: Config, sched: seq<Move>)
    requires ValidConfig(c)
  {
    History(c, sched).bumps % 2 == 0 && Traverse(c, Exec(c, sched).heap, Exec(c, sched).sq).viol != 0
  }

  /** Some even instant of some run shows a violation if and only if there is a slot whose key is INT_MAX. */
  lemma ReportsIff(c: Config)
    requires ValidConfig(c)
    ensures (exists sched :: Reports(c, sched)) <==> TOP in c.anchors
  {
    forall sched | Reports(c, sched) ensures TOP in c.anchors {
      EvenTraverse(c, sched, Exec(c, sched).sq);
      Invariant(c, sched);
    }
    if TOP in c.anchors {
      var ext := Toggles(c, [], TOP, 1);
      EvenTraverse(c, [] + ext, Exec(c, [] + ext).sq);
      assert Reports(c, [] + ext);
    }
  }

  // ---- a torn walk that is accepted ---------------------------------------

  /** One stable node, one churn slot, one reader. */
  const TINY: Config := Config(1, {0}, 1)

  lemma OneRead(sched: seq<Move>)
    ensures var s, s' := Exec(TINY, sched), Exec(TINY, sched + [Read(0)]);
            && !s.fault && Loadable(s.heap, s.rd[0]) && s'.rd[0] == Load(TINY, s.heap, s.sq, s.rd[0])
            && s'.heap == s.heap && s'.present == s.present && s'.sq == s.sq && s'.w == s.w
            && History(TINY, sched + [Read(0)]) == StepPast(TINY, s, History(TINY, sched), Read(0), |sched| + 1)
  {
    assert (sched + [Read(0)])[..|sched|] == sched;
    LinksValid(TINY, sched);
    LinksValid(TINY, sched + [Read(0)]);
  }

  /** What the links of the tiny list are whenever no toggle is under way. */
  lemma TinyLinks(sched: seq<Move>)
    requires Exec(TINY, sched).w.WIdle?
    ensures var s := Exec(TINY, sched);
            && HEAD in s.heap && 0 in s.heap && 1 in s.heap && s.heap[0].key == 0 && s.heap[1].key == 1
            && s.heap[HEAD].next == 0 && s.heap[0].prev == HEAD
            && (if 0 in s.present then s.heap[0].next == 1 == s.heap[HEAD].prev && s.heap[1].prev == 0
                else s.heap[0].next == HEAD && s.heap[HEAD].prev == 0)
            && s.sq == Ulong(History(TINY, sched).bumps)
  {
    Invariant(TINY, sched);
    assert GapInv(TINY, Exec(TINY, sched), 0);
  }

  /** An attempt has begun and loaded the first link. */
  lemma WalkOut() returns (sched: seq<Move>)
    ensures var s, h := Exec(TINY, sched), History(TINY, sched);
            && s.w.WIdle? && 0 !in s.present && s.rd[0] == SKey(Begin(0), 0)
            && h.bumps == 0 && 0 in h.win && h.win[0].bumps == 0
  {
    OneRead([]);
    var s1 := [] + [Read(0)];
    OneRead(s1);
    var s2 := s1 + [Read(0)];
    TinyLinks(s2);
    OneRead(s2);
    sched := s2 + [Read(0)];
  }

  /** The forward half of a walk over the list without the churn node. */
  lemma WalkThere() returns (sched: seq<Move>)
    ensures var s, h := Exec(TINY, sched), History(TINY, sched);
            && s.w.WIdle? && 0 !in s.present && s.rd[0] == SLoad(Turn(Attempt(0, true, 0, 1, 0, [0], [])), HEAD)
            && h.bumps == 0 && 0 in h.win && h.win[0].bumps == 0
  {
    var s3 := WalkOut();
    TinyLinks(s3);
    OneRead(s3);
    var s4 := s3 + [Read(0)];
    TinyLinks(s4);
    OneRead(s4);
    sched := s4 + [Read(0)];
  }

  /** The backward half over the list with the churn node. */
  lemma WalkBack(before: seq<Move>, w: Attempt) returns (sched: seq<Move>)
    requires var s := Exec(TINY, before); s.w.WIdle? && 0 in s.present && s.rd[0] == SLoad(w, HEAD)
    requires w == Turn(Attempt(0, true, 0, 1, 0, [0], []))
    ensures var s := Exec(TINY, sched);
            && s.w.WIdle? && 0 in s.present && s.rd[0] == SCheck(w.(prev := 0, steps := 2, back := [1, 0]))
            && History(TINY, sched) == History(TINY, before)
  {
    TinyLinks(before);
    OneRead(before);
    var s1 := before + [Read(0)];
    TinyLinks(s1);
    OneRead(s1);
    var s2 := s1 + [Read(0)];
    TinyLinks(s2);
    OneRead(s2);
    var s3 := s2 + [Read(0)];
    TinyLinks(s3);
    OneRead(s3);
    var s4 := s3 + [Read(0)];
    TinyLinks(s4);
    OneRead(s4);
    sched := s4 + [Read(0)];
  }

  /** With 2^64 stores in one attempt, a walk is accepted whose two halves disagree. */
  lemma WrapTears() returns (sched: seq<Move>)
    ensures var s := Exec(TINY, sched);
            s.rd[0].SDone? && s.rd[0].w.there == [0] && s.rd[0].w.back == [1, 0] && s.rd[0].w.back != Reverse(s.rd[0].w.there)
    ensures 0 in History(TINY, sched).win && 0 in History(TINY, sched).end && Bumps(TINY, sched, 0) == WRAP
  {
    var there := WalkThere();
    var once := Toggles(TINY, there, 0, 1);
    var back := WalkBack(there + once, Turn(Attempt(0, true, 0, 1, 0, [0], [])));
    var many := Toggles(TINY, back, 0, WRAP / 2 - 1);
    var last := back + many;
    CheckAccepts(last, Exec(TINY, last).rd[0].w);
    sched := last + [Read(0)];
  }

  /** 2^64 stores after it began with 0, an attempt finds 0 again. */
  lemma CheckAccepts(last: seq<Move>, w: Attempt)
    requires var s, h := Exec(TINY, last), History(TINY, last);
             s.w.WIdle? && s.rd[0] == SCheck(w) && w.sq == 0 && h.bumps == WRAP && 0 in h.win && h.win[0].bumps == 0
    ensures Exec(TINY, last + [Read(0)]).rd[0] == SDone(w)
    ensures var h := History(TINY, last + [Read(0)]); 0 in h.win && 0 in h.end && Bumps(TINY, last + [Read(0)], 0) == WRAP
  {
    TinyLinks(last);
    OneRead(last);
  }
}
