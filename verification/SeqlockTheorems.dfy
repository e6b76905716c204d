/** What the invariant means for every schedule of the seqlock engine. */
module SeqlockTheorems {
  import opened RingList
  import opened Seqlock
  import opened SeqlockInvariant

  // ---- a walk at one instant at which the number is even ------------------

  /** One node of a still walk. */
  lemma GoOn(c: Config, heap: map<int, Node>, w: Attempt, p: int, q: int)
    requires p in heap && q == Link(heap[p], w.fwd) && q != HEAD && q in heap && !Bad(c, w, heap[q].key)
    ensures Go(c, heap, w, p) == Go(c, heap, Visit(w, heap[q].key), q)
  {
  }

  /** From a node whose next leads to stable node i, the forward walk finds all keys from there on. */
  lemma {:induction false} GoForward(c: Config, s: State, w: Attempt, p: int, i: int)
    requires ValidConfig(c) && MemInv(c, s) && !Mid(s.w) && 0 <= i <= c.n
    requires p in s.heap && s.heap[p].next == (if i == c.n then HEAD else i)
    requires w.fwd && w.prev < 2 * i && w.steps + |From(c.n, s.present, i)| <= Limit(c)
    ensures var r := Go(c, s.heap, w, p); r.there == w.there + From(c.n, s.present, i) && r.viol == w.viol && r.back == w.back && r.fwd && r.sq == w.sq
    decreases c.n - i
  {
    if i < c.n {
      assert GapInv(c, s, i);
      var w1 := Visit(w, 2 * i);
      GoOn(c, s.heap, w, p, i);
      if i in s.present {
        var w2 := Visit(w1, 2 * i + 1);
        GoOn(c, s.heap, w1, i, c.n + i);
        GoForward(c, s, w2, c.n + i, i + 1);
        assert w2.there + From(c.n, s.present, i + 1) == w.there + From(c.n, s.present, i);
      } else {
        GoForward(c, s, w1, i, i + 1);
        assert w1.there + From(c.n, s.present, i + 1) == w.there + From(c.n, s.present, i);
      }
    }
  }

  /** From what follows gap i - 1, the backward walk finds all keys before stable node i, in reverse. */
  lemma {:induction false} GoBackward(c: Config, s: State, w: Attempt, i: int)
    requires ValidConfig(c) && MemInv(c, s) && !Mid(s.w) && 0 <= i <= c.n
    requires !w.fwd && (w.prev >= 2 * i || (w.prev == 2 * i - 1 && i - 1 !in s.present)) && w.steps + |Reverse(UpTo(s.present, i))| <= Limit(c)
    ensures var r := Go(c, s.heap, w, if i == c.n then HEAD else i);
            r.back == w.back + Reverse(UpTo(s.present, i)) && r.viol == w.viol && r.there == w.there && !r.fwd && r.sq == w.sq
    decreases i
  {
    if i > 0 {
      assert GapInv(c, s, i - 1);
      ReversePair(s.present, i);
      if i - 1 in s.present {
        var w1 := Visit(w, 2 * i - 1);
        var w2 := Visit(w1, 2 * i - 2);
        GoOn(c, s.heap, w, if i == c.n then HEAD else i, c.n + i - 1);
        GoOn(c, s.heap, w1, c.n + i - 1, i - 1);
        GoBackward(c, s, w2, i - 1);
        assert w2.back + Reverse(UpTo(s.present, i - 1)) == w.back + Reverse(UpTo(s.present, i));
      } else {
        var w1 := Visit(w, 2 * i - 2);
        GoBackward(c, s, w1, i - 1);
        assert w1.back + Reverse(UpTo(s.present, i - 1)) == w.back + Reverse(UpTo(s.present, i));
      }
    }
  }

  lemma {:induction false} ReverseLength(a: seq<int>)
    ensures |Reverse(a)| == |a|
  {
    if a != [] { ReverseLength(a[1..]); }
  }

  /** What the two halves of a walk find in a list with the gaps `present` filled. */
  predicate Finds(c: Config, r: Attempt, present: set<int>) {
    && r.there == From(c.n, present, 0)
    && (if TOP in present then r.viol == 1 && r.back == [] else r.viol == 0 && r.back == Reverse(r.there))
  }

  /** A backward walk stops at once at a node whose key is INT_MAX. */
  lemma StopsAtTop(c: Config, s: State, w: Attempt)
    requires ValidConfig(c) && MemInv(c, s) && !Mid(s.w) && TOP in s.present && !w.fwd && w.prev == INT_MAX
    ensures Go(c, s.heap, w, HEAD) == w.(viol := w.viol + 1)
  {
    assert GapInv(c, s, TOP);
  }

  /**
   Whenever the number is even, the list shows every key forward, and the same backward
   without a violation, unless it holds the node whose key is INT_MAX.
   */
  lemma QuietTraverse(c: Config, s: State, sq: int)
    requires ValidConfig(c) && MemInv(c, s) && !Mid(s.w)
    ensures var r := Traverse(c, s.heap, sq); Finds(c, r, s.present) && !r.fwd && r.sq == sq
  {
    var keys := From(c.n, s.present, 0);
    ListLength(c.n, s.present);
    assert c.anchors == s.present + (c.anchors - s.present);
    GoForward(c, s, Begin(sq), HEAD, 0);
    Whole(c.n, s.present);
    ReverseLength(keys);
    var w := Turn(Go(c, s.heap, Begin(sq), HEAD));
    if TOP in s.present { StopsAtTop(c, s, w); } else { GoBackward(c, s, w, c.n); }
  }

  // ---- accepted walks -----------------------------------------------------

  /** The window of a running or accepted attempt begins at an instant at which the number was even. */
  lemma {:induction false} WindowMeans(c: Config, sched: seq<Move>, t: int)
    requires ValidConfig(c) && 0 <= t < c.threads && t in History(c, sched).win
    ensures var win := History(c, sched).win[t];
            && win.from <= |sched| && win.heap == Exec(c, sched[..win.from]).heap
            && win.bumps == History(c, sched[..win.from]).bumps
  {
    var before, m := sched[..|sched| - 1], sched[|sched| - 1];
    var s := Exec(c, before);
    assert sched[..|sched|] == sched;
    if Enabled(c, s, m) && m == Read(t) && s.rd[t].SSeq? {
    } else {
      WindowMeans(c, before, t);
      var from := History(c, before).win[t].from;
      assert sched[..from] == before[..from];
    }
  }

  /** The stores to g_seq between the load that began an accepted attempt and the load that accepted it. */
  ghost function Bumps(c: Config, sched: seq<Move>, t: int): int
    requires ValidConfig(c) && t in History(c, sched).win && t in History(c, sched).end
  {
    History(c, sched).end[t] - History(c, sched).win[t].bumps
  }

  /**
   An accepted walk is the forward-and-backward traversal of the list at a single
   instant of the attempt, unless the number went all the way around, that is, unless
   2^64 or more stores to it fell into the attempt; and it reports a violation exactly if
   the node whose key is INT_MAX was in the list at that instant.
   */
  lemma AcceptedIsAtomic(c: Config, sched: seq<Move>, t: int)
    requires ValidConfig(c) && 0 <= t < c.threads && Exec(c, sched).rd[t].SDone?
    ensures t in History(c, sched).win && t in History(c, sched).end && Bumps(c, sched, t) >= 0 && Ulong(Bumps(c, sched, t)) == 0
    ensures Bumps(c, sched, t) < WRAP ==>
              var w, from := Exec(c, sched).rd[t].w, History(c, sched).win[t].from;
              && from <= |sched|
              && w == Traverse(c, Exec(c, sched[..from]).heap, w.sq)
              && Finds(c, w, Exec(c, sched[..from]).present)
  {
    var h := History(c, sched);
    DoneMeans(c, sched, t);
    SameRest(h.end[t], h.win[t].bumps, Bumps(c, sched, t));
    WindowMeans(c, sched, t);
    EvenTraverse(c, sched[..h.win[t].from], Exec(c, sched).rd[t].w.sq);
  }

  lemma DoneMeans(c: Config, sched: seq<Move>, t: int)
    requires ValidConfig(c) && 0 <= t < c.threads && Exec(c, sched).rd[t].SDone?
    ensures var h := History(c, sched);
            && t in h.win && t in h.end && 0 <= h.win[t].bumps <= h.end[t] && h.win[t].bumps % 2 == 0
            && Ulong(h.end[t]) == Ulong(h.win[t].bumps)
            && (h.end[t] == h.win[t].bumps ==> var w := Exec(c, sched).rd[t].w; w == Traverse(c, h.win[t].heap, w.sq))
  {
    Invariant(c, sched);
    assert ReaderInv(c, Exec(c, sched), History(c, sched), t, Exec(c, sched).rd[t]);
  }

  lemma EvenTraverse(c: Config, sched: seq<Move>, sq: int)
    requires ValidConfig(c) && History(c, sched).bumps % 2 == 0
    ensures Finds(c, Traverse(c, Exec(c, sched).heap, sq), Exec(c, sched).present)
  {
    Invariant(c, sched);
    QuietTraverse(c, Exec(c, sched), sq);
  }

  lemma SameRest(x: int, y: int, d: int)
    requires 0 <= y <= x && d == x - y && Ulong(x) == Ulong(y)
    ensures Ulong(d) == 0 && (d < WRAP ==> x == y)
  {
  }

  /** The stores to g_seq since the load that began the current attempt. */
  ghost function Since(c: Config, sched: seq<Move>, t: int): int
    requires ValidConfig(c) && t in History(c, sched).win
  {
    History(c, sched).bumps - History(c, sched).win[t].bumps
  }

  /** The second load accepts an attempt exactly when the number of stores in between is a multiple of 2^64. */
  lemma AcceptsIff(c: Config, sched: seq<Move>, t: int)
    requires ValidConfig(c) && 0 <= t < c.threads && Exec(c, sched).rd[t].SCheck?
    ensures t in History(c, sched).win
    ensures Exec(c, sched + [Read(t)]).rd[t].SDone? <==> Ulong(Since(c, sched, t)) == 0
  {
    CheckMeans(c, sched, t);
    CheckNext(c, sched, t);
    var h := History(c, sched);
    CongruentIff(h.bumps, h.win[t].bumps, Since(c, sched, t));
  }

  lemma CheckStep(c: Config, s: State, t: int)
    requires !s.fault && 0 <= t < |s.rd| && s.rd[t].SCheck?
    ensures Step(c, s, Read(t)).rd[t].SDone? <==> s.sq == s.rd[t].w.sq
  {
  }

  lemma CheckNext(c: Config, sched: seq<Move>, t: int)
    requires ValidConfig(c) && 0 <= t < c.threads && Exec(c, sched).rd[t].SCheck? && !Exec(c, sched).fault
    ensures Exec(c, sched + [Read(t)]).rd[t].SDone? <==> Exec(c, sched).sq == Exec(c, sched).rd[t].w.sq
  {
    assert (sched + [Read(t)])[..|sched|] == sched;
    CheckStep(c, Exec(c, sched), t);
  }

  lemma CheckMeans(c: Config, sched: seq<Move>, t: int)
    requires ValidConfig(c) && 0 <= t < c.threads && Exec(c, sched).rd[t].SCheck?
    ensures var s, h := Exec(c, sched), History(c, sched);
            !s.fault && t in h.win && 0 <= h.win[t].bumps <= h.bumps && s.sq == Ulong(h.bumps) && s.rd[t].w.sq == Ulong(h.win[t].bumps)
  {
    Invariant(c, sched);
    assert ReaderInv(c, Exec(c, sched), History(c, sched), t, Exec(c, sched).rd[t]);
  }

  lemma CongruentIff(x: int, y: int, d: int)
    requires d == x - y
    ensures Ulong(x) == Ulong(y) <==> Ulong(d) == 0
  {
  }

  /** No reader and no writer ever follows a link to anything but a node of the list. */
  lemma LinksValid(c: Config, sched: seq<Move>)
    requires ValidConfig(c)
    ensures !Exec(c, sched).fault
  {
    Invariant(c, sched);
  }

  // ---- torn walks end -----------------------------------------------------

  /** How many more loads of its own an attempt can make before its final check. */
  function Left(c: Config, pc: RPc): int {
    match pc
    case SLoad(w, _) => 2 * (Limit(c) - w.steps) + 2 + (if w.fwd then 2 * Limit(c) + 3 else 0)
    case SKey(w, _) => 2 * (Limit(c) - w.steps) + 1 + (if w.fwd then 2 * Limit(c) + 3 else 0)
    case _ => 0
  }

  /** Over any memory at all, each load brings the end nearer. */
  lemma LoadShrinks(c: Config, heap: map<int, Node>, sq: int, pc: RPc)
    requires (pc.SLoad? || pc.SKey?) && Loadable(heap, pc) && 0 <= pc.w.steps <= Limit(c)
    ensures 0 <= Left(c, Load(c, heap, sq, pc)) < Left(c, pc) <= 4 * Limit(c) + 5
  {
  }

  lemma WalkMeans(c: Config, sched: seq<Move>, t: int)
    requires ValidConfig(c) && 0 <= t < c.threads
    requires var pc := Exec(c, sched).rd[t]; pc.SLoad? || pc.SKey?
    ensures var s := Exec(c, sched);
            !s.fault && Loadable(s.heap, s.rd[t]) && 0 <= s.rd[t].w.steps <= Limit(c) && 0 < Left(c, s.rd[t]) <= 4 * Limit(c) + 5
  {
    Invariant(c, sched);
    var s := Exec(c, sched);
    assert ReaderInv(c, s, History(c, sched), t, s.rd[t]);
    Closed(c, s, true, if s.rd[t].SLoad? then s.rd[t].p else s.rd[t].q);
  }

  lemma WalkStep(c: Config, s: State, m: Move, t: int)
    requires 0 <= t < |s.rd| && !s.fault && (s.rd[t].SLoad? || s.rd[t].SKey?) && Loadable(s.heap, s.rd[t])
    requires 0 <= s.rd[t].w.steps <= Limit(c)
    ensures var pc, pc' := s.rd[t], Step(c, s, m).rd[t];
            if m == Read(t) then pc'.SCheck? || ((pc'.SLoad? || pc'.SKey?) && Left(c, pc') < Left(c, pc)) else pc' == pc
  {
    if m == Read(t) {
      LoadShrinks(c, s.heap, s.sq, s.rd[t]);
    }
  }

  function Own(ext: seq<Move>, t: int): int {
    if ext == [] then 0 else Own(ext[..|ext| - 1], t) + if ext[|ext| - 1] == Read(t) then 1 else 0
  }

  /**
   Every attempt, torn or not, gets to its final check within at most 4 * STEP_LIMIT + 5
   loads of its own, whatever the writers do meanwhile.
   */
  lemma {:induction false} AttemptEnds(c: Config, sched: seq<Move>, ext: seq<Move>, t: int) returns (j: nat)
    requires ValidConfig(c) && 0 <= t < c.threads
    requires var pc := Exec(c, sched).rd[t]; pc.SLoad? || pc.SKey?
    ensures Left(c, Exec(c, sched).rd[t]) <= 4 * Limit(c) + 5
    ensures j <= |ext|
    ensures var pc := Exec(c, sched + ext[..j]).rd[t];
            pc.SCheck? || (j == |ext| && (pc.SLoad? || pc.SKey?) && 0 < Left(c, pc) <= Left(c, Exec(c, sched).rd[t]) - Own(ext, t))
  {
    WalkMeans(c, sched, t);
    if ext == [] {
      assert sched + ext == sched;
      j := 0;
    } else {
      var most := ext[..|ext| - 1];
      j := AttemptEnds(c, sched, most, t);
      assert most[..j] == ext[..j];
      if !Exec(c, sched + most[..j]).rd[t].SCheck? {
        var m := ext[|ext| - 1];
        assert most[..j] == most && sched + ext == (sched + most) + [m] && ((sched + most) + [m])[..|sched + most|] == sched + most;
        WalkMeans(c, sched + most, t);
        j := |ext|;
        assert ext[..j] == ext;
        WalkStep(c, Exec(c, sched + most), m, t);
      }
    }
  }
}
