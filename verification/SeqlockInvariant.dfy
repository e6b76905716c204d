/** The inductive invariant of the seqlock engine and its preservation by every step. */
module SeqlockInvariant {
  import opened RingList
  import opened Seqlock

  /** The number is odd: stores to the list may be half done. */
  predicate Mid(w: WPc) { !w.WIdle? && !w.WOdd? }

  predicate Working(s: State, i: int) { !s.w.WIdle? && s.w.a == i }

  // ---- memory -------------------------------------------------------------

  ghost function Fwd(c: Config, s: State, i: int): int {
    if i in s.present && !(Working(s, i) && s.w.U2?) then c.n + i else Succ(c.n, i)
  }

  ghost function Bwd(c: Config, s: State, i: int): int {
    if i in s.present || (Working(s, i) && s.w.L4?) then c.n + i else i
  }

  /** The churn node of gap i has been linked at least once; its links never change again. */
  predicate Placed(c: Config, heap: map<int, Node>, i: int) {
    c.n + i in heap && heap[c.n + i].next == Succ(c.n, i) && heap[c.n + i].prev == i
  }

  ghost predicate GapInv(c: Config, s: State, i: int) {
    && i in s.heap && s.heap[i].key == 2 * i && s.heap[i].next == Fwd(c, s, i)
    && Succ(c.n, i) in s.heap && s.heap[Succ(c.n, i)].prev == Bwd(c, s, i)
    && c.n + i in s.heap && s.heap[c.n + i].key == 2 * i + 1
    && (i in s.present || (Working(s, i) && (s.w.L3? || s.w.L4?)) ==> Placed(c, s.heap, i))
    && (Working(s, i) && s.w.L2? ==> s.heap[c.n + i].prev == i)
  }

  ghost predicate MemInv(c: Config, s: State)
    requires ValidConfig(c)
  {
    && !s.fault && s.present <= c.anchors
    && HEAD in s.heap
    && (if c.n == 0 then s.heap[HEAD].next == HEAD && s.heap[HEAD].prev == HEAD
        else s.heap[HEAD].next == 0 && 0 in s.heap && s.heap[0].prev == HEAD)
    && (forall i: int {:trigger GapInv(c, s, i)} :: 0 <= i < c.n ==> GapInv(c, s, i))
    && (!s.w.WIdle? ==> s.w.a in c.anchors)
    && (s.w.L1? || s.w.L2? || s.w.L3? || s.w.L4? ==> s.w.a !in s.present)
    && (s.w.U1? || s.w.U2? ==> s.w.a in s.present)
  }

  ghost predicate SeqInv(s: State, h: Past) {
    && h.bumps >= 0 && s.sq == Ulong(h.bumps) && (h.bumps % 2 == 1 <==> Mid(s.w))
    && (Mid(s.w) ==> 0 <= s.w.s < WRAP && s.sq == Ulong(s.w.s + 1))
  }

  /** A step of the writer keeps the links of every gap as its position says, and no placed node moves. */
  lemma WriterMem(c: Config, s: State)
    requires ValidConfig(c) && MemInv(c, s)
    ensures MemInv(c, WriterStep(c, s))
    ensures forall i: int :: 0 <= i < c.n && Placed(c, s.heap, i) ==> Placed(c, WriterStep(c, s).heap, i)
    ensures !Mid(s.w) || s.w.WEven? ==> WriterStep(c, s).heap == s.heap
  {
    var s' := WriterStep(c, s);
    if !s.w.WIdle? { assert GapInv(c, s, s.w.a); }
    forall i: int | 0 <= i < c.n ensures GapInv(c, s', i) && (Placed(c, s.heap, i) ==> Placed(c, s'.heap, i)) {
      assert GapInv(c, s, i);
    }
  }

  /** What a step of the writer does to the number. */
  lemma SeqShape(c: Config, s: State)
    requires !WriterStep(c, s).fault && !s.w.WIdle?
    ensures var s' := WriterStep(c, s);
            if s.w.WOdd? then s'.sq == Ulong(s.sq + 1) && Mid(s'.w) && s'.w.s == s.sq
            else if s.w.WEven? then s'.sq == Ulong(s.w.s + 2) && s'.w.WIdle?
            else s'.sq == s.sq && Mid(s'.w) && s'.w.s == s.w.s
  {
  }

  lemma WriterSeq(c: Config, s: State, h: Past, m: Move, now: nat)
    requires SeqInv(s, h) && Enabled(c, s, m) && !m.Read? && !Step(c, s, m).fault
    ensures SeqInv(Step(c, s, m), StepPast(c, s, h, m, now))
  {
    if m.Write? {
      SeqShape(c, s);
      if s.w.WOdd? { ToOdd(h.bumps, s.sq, Step(c, s, m).sq); }
      if s.w.WEven? { ToEven(h.bumps, s.sq, s.w.s, Step(c, s, m).sq); }
    }
  }

  lemma ToOdd(bumps: int, sq: int, sq': int)
    requires bumps % 2 == 0 && sq == Ulong(bumps) && sq' == Ulong(sq + 1)
    ensures (bumps + 1) % 2 == 1 && sq' == Ulong(bumps + 1) && 0 <= sq < WRAP
  {
    Parity(bumps);
    Congruent(bumps, bumps + 1);
    InRange(bumps);
  }

  lemma ToEven(bumps: int, sq: int, q: int, sq': int)
    requires bumps % 2 == 1 && sq == Ulong(bumps) == Ulong(q + 1) && sq' == Ulong(q + 2)
    ensures (bumps + 1) % 2 == 0 && sq' == Ulong(bumps + 1)
  {
    Parity(bumps);
    Congruent(bumps, bumps + 1);
    Congruent(q + 1, q + 2);
  }

  lemma Parity(x: int)
    ensures (x + 1) % 2 == 1 - x % 2
  {
  }

  lemma InRange(x: int)
    ensures 0 <= Ulong(x) < WRAP
  {
  }

  lemma Congruent(x: int, y: int)
    requires y == x + 1
    ensures Ulong(y) == Ulong(Ulong(x) + 1)
  {
  }

  // ---- readers ------------------------------------------------------------

  /** A reader may load from p, however torn its view is. */
  predicate Stands(c: Config, heap: map<int, Node>, p: int) {
    p == HEAD || 0 <= p < c.n || (c.n <= p < 2 * c.n && Placed(c, heap, p - c.n))
  }

  /** What this attempt would find if the memory stood still from here on. */
  function Finish(c: Config, heap: map<int, Node>, pc: RPc): Attempt
    requires pc.SLoad? || pc.SKey? || pc.SCheck? || pc.SDone?
  {
    match pc
    case SLoad(w, p) => OneWay(c, heap, Go(c, heap, w, p))
    case SKey(w, q) =>
      if q !in heap then w
      else if Bad(c, w, heap[q].key) then OneWay(c, heap, w.(viol := w.viol + 1))
      else OneWay(c, heap, Go(c, heap, Visit(w, heap[q].key), q))
    case SCheck(w) => w
    case SDone(w) => w
  }

  function OneWay(c: Config, heap: map<int, Node>, w: Attempt): Attempt {
    if w.fwd then Go(c, heap, Turn(w), HEAD) else w
  }

  predicate Walking(pc: RPc) { pc.SLoad? || pc.SKey? || pc.SCheck? }

  ghost predicate ReaderInv(c: Config, s: State, h: Past, t: int, pc: RPc) {
    && (pc.SLoad? ==> Stands(c, s.heap, pc.p) && 0 <= pc.w.steps <= Limit(c))
    && (pc.SKey? ==> Stands(c, s.heap, pc.q) && pc.q != HEAD && 0 <= pc.w.steps <= Limit(c))
    && (Walking(pc) || pc.SDone? ==>
          && t in h.win && 0 <= h.win[t].bumps <= h.bumps && h.win[t].bumps % 2 == 0
          && pc.w.sq == Ulong(h.win[t].bumps))
    && (Walking(pc) && h.bumps == h.win[t].bumps ==>
          s.heap == h.win[t].heap && Finish(c, s.heap, pc) == Traverse(c, s.heap, pc.w.sq))
    && (pc.SDone? ==>
          && t in h.end && h.win[t].bumps <= h.end[t] && Ulong(h.end[t]) == Ulong(h.win[t].bumps)
          && (h.end[t] == h.win[t].bumps ==> pc.w == Traverse(c, h.win[t].heap, pc.w.sq)))
  }

  /** A one-way walk keeps its direction. */
  lemma {:induction false} GoKeepsWay(c: Config, heap: map<int, Node>, w: Attempt, p: int)
    ensures Go(c, heap, w, p).fwd == w.fwd
    decreases Limit(c) - w.steps
  {
    if p in heap {
      var q := Link(heap[p], w.fwd);
      if q != HEAD && q in heap && !Bad(c, w, heap[q].key) {
        GoKeepsWay(c, heap, Visit(w, heap[q].key), q);
      }
    }
  }

  /** A step of a reader over a still memory does not change what it will find. */
  lemma FinishStep(c: Config, heap: map<int, Node>, sq: int, pc: RPc)
    requires (pc.SLoad? || pc.SKey?) && Loadable(heap, pc) && Loadable(heap, Load(c, heap, sq, pc))
    ensures Finish(c, heap, Load(c, heap, sq, pc)) == Finish(c, heap, pc)
  {
    if pc.SLoad? {
      GoKeepsWay(c, heap, pc.w, pc.p);
    } else if !Bad(c, pc.w, heap[pc.q].key) {
      GoKeepsWay(c, heap, Visit(pc.w, heap[pc.q].key), pc.q);
    }
    GoKeepsWay(c, heap, Turn(pc.w), HEAD);
    GoKeepsWay(c, heap, Turn(pc.w.(viol := pc.w.viol + 1)), HEAD);
  }

  /** Every link leads to a node a reader may load from. */
  lemma Closed(c: Config, s: State, fwd: bool, p: int)
    requires ValidConfig(c) && MemInv(c, s) && Stands(c, s.heap, p)
    ensures p in s.heap && Stands(c, s.heap, Link(s.heap[p], fwd)) && Link(s.heap[p], fwd) in s.heap
  {
    var i := if p == HEAD then c.n - 1 else if p >= c.n then p - c.n else p;
    if 0 <= i < c.n { assert GapInv(c, s, i); }
    if 0 < i && !fwd { assert GapInv(c, s, i - 1); }
    if i + 1 < c.n { assert GapInv(c, s, i + 1); }
    if 0 < c.n { assert GapInv(c, s, 0); }
  }

  ghost predicate ReadOk(c: Config, s: State, h: Past, t: int, now: nat)
    requires 0 <= t < |s.rd|
  {
    var s', h' := Step(c, s, Read(t)), StepPast(c, s, h, Read(t), now);
    |s'.rd| == |s.rd| && !s'.fault && ReaderInv(c, s', h', t, s'.rd[t])
  }

  lemma LinkKept(c: Config, s: State, h: Past, t: int, now: nat)
    requires ValidConfig(c) && MemInv(c, s) && Enabled(c, s, Read(t)) && ReaderInv(c, s, h, t, s.rd[t]) && s.rd[t].SLoad?
    ensures ReadOk(c, s, h, t, now)
  {
    Closed(c, s, s.rd[t].w.fwd, s.rd[t].p);
    FinishStep(c, s.heap, s.sq, s.rd[t]);
  }

  lemma KeyKept(c: Config, s: State, h: Past, t: int, now: nat)
    requires ValidConfig(c) && MemInv(c, s) && Enabled(c, s, Read(t)) && ReaderInv(c, s, h, t, s.rd[t]) && s.rd[t].SKey?
    ensures ReadOk(c, s, h, t, now)
  {
    Closed(c, s, s.rd[t].w.fwd, s.rd[t].q);
    Closed(c, s, true, HEAD);
    FinishStep(c, s.heap, s.sq, s.rd[t]);
  }

  lemma NumberKept(c: Config, s: State, h: Past, t: int, now: nat)
    requires ValidConfig(c) && MemInv(c, s) && SeqInv(s, h) && Enabled(c, s, Read(t)) && ReaderInv(c, s, h, t, s.rd[t])
    requires !s.rd[t].SLoad? && !s.rd[t].SKey?
    ensures ReadOk(c, s, h, t, now)
  {
    if s.rd[t].SSeq? {
      GoKeepsWay(c, s.heap, Begin(s.sq), HEAD);
      SameParity(h.bumps);
    }
  }

  /** An even number of stores leaves an even number, also around 2^64. */
  lemma SameParity(x: int)
    ensures Ulong(x) % 2 == x % 2
  {
    var q := x / 0x1_0000_0000_0000_0000;
    EvenShift(0x8000_0000_0000_0000 * q, Ulong(x), x);
  }

  lemma EvenShift(k: int, r: int, x: int)
    requires x == 2 * k + r
    ensures r % 2 == x % 2
  {
  }

  lemma ReaderKept(c: Config, s: State, h: Past, t: int, now: nat)
    requires ValidConfig(c) && MemInv(c, s) && SeqInv(s, h) && Enabled(c, s, Read(t)) && ReaderInv(c, s, h, t, s.rd[t])
    ensures ReadOk(c, s, h, t, now)
  {
    if s.rd[t].SLoad? { LinkKept(c, s, h, t, now); }
    else if s.rd[t].SKey? { KeyKept(c, s, h, t, now); }
    else { NumberKept(c, s, h, t, now); }
  }

  // ---- every step, every schedule -----------------------------------------

  ghost predicate Inv(c: Config, s: State, h: Past)
    requires ValidConfig(c)
  {
    MemInv(c, s) && SeqInv(s, h) && forall t :: 0 <= t < |s.rd| ==> ReaderInv(c, s, h, t, s.rd[t])
  }

  lemma WriteKept(c: Config, s: State, h: Past, m: Move, now: nat)
    requires ValidConfig(c) && Inv(c, s, h) && Enabled(c, s, m) && !m.Read?
    ensures Inv(c, Step(c, s, m), StepPast(c, s, h, m, now))
  {
    var s', h' := Step(c, s, m), StepPast(c, s, h, m, now);
    if m.Write? {
      WriterMem(c, s);
    } else {
      forall i: int | 0 <= i < c.n ensures GapInv(c, s', i) { assert GapInv(c, s, i); }
    }
    WriterSeq(c, s, h, m, now);
    forall t | 0 <= t < |s'.rd| ensures ReaderInv(c, s', h', t, s'.rd[t]) {
      assert ReaderInv(c, s, h, t, s.rd[t]) && s'.rd == s.rd;
    }
  }

  lemma ReadKept(c: Config, s: State, h: Past, m: Move, now: nat)
    requires ValidConfig(c) && Inv(c, s, h) && Enabled(c, s, m) && m.Read?
    ensures Inv(c, Step(c, s, m), StepPast(c, s, h, m, now))
  {
    var s', h' := Step(c, s, m), StepPast(c, s, h, m, now);
    ReaderKept(c, s, h, m.t, now);
    forall i: int | 0 <= i < c.n ensures GapInv(c, s', i) { assert GapInv(c, s, i); }
    forall t | 0 <= t < |s'.rd| ensures ReaderInv(c, s', h', t, s'.rd[t]) {
      assert ReaderInv(c, s, h, t, s.rd[t]);
    }
  }

  /** The invariant holds after every schedule. */
  lemma {:induction false} Invariant(c: Config, sched: seq<Move>)
    requires ValidConfig(c)
    ensures Inv(c, Exec(c, sched), History(c, sched))
  {
    if sched == [] {
      var s := Build(c);
      forall i: int | 0 <= i < c.n ensures GapInv(c, s, i) {
      }
    } else {
      var before, m := sched[..|sched| - 1], sched[|sched| - 1];
      Invariant(c, before);
      var s, h := Exec(c, before), History(c, before);
      if Enabled(c, s, m) {
        if m.Read? { ReadKept(c, s, h, m, |sched|); } else { WriteKept(c, s, h, m, |sched|); }
      }
    }
  }
}
