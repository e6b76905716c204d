/** What the invariant means for every schedule of the plan / lock / validate protocol. */
module PlanTheorems {
  import opened RingList
  import opened PlanLock
  import opened PlanRing
  import opened PlanInvariant
  import opened PlanCommit

  // ---- no deadlock --------------------------------------------------------

  /** Writer t waits for a lock that u holds. */
  predicate Waits(s: State, t: int, u: int) {
    0 <= t < |s.pc| && s.pc[t].Lock? && Wanted(s.pc[t]) in s.owner && s.owner[Wanted(s.pc[t])] == u
  }

  /** Along a wait, the wanted lock grows. */
  lemma WaitsClimb(c: Config, sched: seq<Move>, t: int, u: int)
    requires ValidConfig(c) && Waits(Exec(c, sched), t, u)
    ensures 0 <= u < c.threads
    ensures var s := Exec(c, sched); s.pc[u].Lock? ==> Wanted(s.pc[t]) < Wanted(s.pc[u])
  {
    Invariant(c, sched);
    var s := Exec(c, sched);
    assert CountInv(c, s.pc[t]) && HoldsKey(s.pc[u], Wanted(s.pc[t])) && CountInv(c, s.pc[u]);
  }

  ghost predicate Chain(s: State, chain: seq<int>) {
    |chain| >= 2 && forall i, j :: 0 <= i < |chain| && j == i + 1 && j < |chain| ==> Waits(s, chain[i], chain[j])
  }

  lemma {:induction false} ChainClimbs(c: Config, sched: seq<Move>, chain: seq<int>)
    requires ValidConfig(c) && Chain(Exec(c, sched), chain)
    ensures var s, last := Exec(c, sched), chain[|chain| - 1];
            Waits(s, chain[0], chain[1]) && 0 <= last < c.threads && (s.pc[last].Lock? ==> Wanted(s.pc[chain[0]]) < Wanted(s.pc[last]))
  {
    var s, rest := Exec(c, sched), chain[1..];
    assert Waits(s, chain[0], chain[1]);
    WaitsClimb(c, sched, chain[0], chain[1]);
    if |chain| > 2 {
      assert forall i, j :: 0 <= i < |rest| && j == i + 1 && j < |rest| ==> rest[i] == chain[i + 1] && rest[j] == chain[j + 1];
      ChainClimbs(c, sched, rest);
    }
  }

  /** No writers ever wait for each other in a circle. */
  lemma NoWaitCycle(c: Config, sched: seq<Move>, chain: seq<int>)
    requires ValidConfig(c) && Chain(Exec(c, sched), chain)
    ensures chain[0] != chain[|chain| - 1]
  {
    ChainClimbs(c, sched, chain);
  }

  ghost function Higher(s: State, t: int): set<int>
    requires 0 <= t < |s.pc| && s.pc[t].Lock?
  {
    set v: int | 0 <= v < |s.pc| && s.pc[v].Lock? && Wanted(s.pc[t]) < Wanted(s.pc[v])
  }

  /** Whenever a writer waits, some writer that holds a lock can take its next step. */
  lemma {:induction false} SomeHolderRuns(c: Config, sched: seq<Move>, t: int, u: int) returns (v: int)
    requires ValidConfig(c) && Waits(Exec(c, sched), t, u)
    ensures var s := Exec(c, sched);
            0 <= v < c.threads && Held(s.pc[v]) != [] && (s.pc[v].Lock? ==> Wanted(s.pc[v]) !in s.owner)
    decreases |Higher(Exec(c, sched), t)|
  {
    Invariant(c, sched);
    var s := Exec(c, sched);
    WaitsClimb(c, sched, t, u);
    assert HoldsKey(s.pc[u], Wanted(s.pc[t]));
    if s.pc[u].Lock? && Wanted(s.pc[u]) in s.owner {
      var w := s.owner[Wanted(s.pc[u])];
      assert Higher(s, u) < Higher(s, t) by { assert u in Higher(s, t) && u !in Higher(s, u); }
      Smaller(Higher(s, u), Higher(s, t));
      v := SomeHolderRuns(c, sched, u, w);
    } else {
      v := u;
    }
  }

  lemma Smaller(a: set<int>, b: set<int>)
    requires a < b
    ensures |a| < |b|
  {
    assert b == a + (b - a) && b - a != {};
  }

  // ---- the list -----------------------------------------------------------

  /** The k-th node of a forward walk from the head. */
  function Nth(heap: map<int, Node>, k: nat): int {
    if k == 0 then HEAD else var x := Nth(heap, k - 1); if x in heap then heap[x].next else x
  }

  /** The position k steps around a ring of n nodes. */
  function Turn(n: nat, k: nat): nat
    ensures n > 0 ==> Turn(n, k) < n
    ensures k < n ==> Turn(n, k) == k
  {
    if k == 0 then 0 else if Turn(n, k - 1) + 1 < n then Turn(n, k - 1) + 1 else 0
  }

  lemma {:induction false} NthIsRing(heap: map<int, Node>, ring: seq<int>, k: nat)
    requires Cycle(heap, ring)
    ensures Nth(heap, k) == ring[Turn(|ring|, k)]
  {
    if k > 0 {
      NthIsRing(heap, ring, k - 1);
      assert Follows(heap, ring, Turn(|ring|, k - 1));
    }
  }

  /**
   Commits are atomic for forward walkers: the list they see changes only by the last
   store of a commit, which inserts the new node right after its anchor or takes out the
   victim, and by nothing else.
   */
  lemma CommitsAtomic(c: Config, sched: seq<Move>, m: Move)
    requires ValidConfig(c)
    ensures var s, r, r' := Exec(c, sched), History(c, sched).ring, History(c, sched + [m]).ring;
            && Cycle(s.heap, r) && Cycle(Exec(c, sched + [m]).heap, r')
            && (if Enabled(c, s, m) && m.Run? && s.pc[m.t].LinkNext? then
                  && s.pc[m.t].pl.op == Ins(s.pc[m.t].pl.pred)
                  && s.pc[m.t].pl.pred in r && s.pc[m.t].e !in r && r' == After(r, s.pc[m.t].pl.pred, s.pc[m.t].e)
                else if Enabled(c, s, m) && m.Run? && s.pc[m.t].UnNext? then
                  s.pc[m.t].pl.op.Del? && s.pc[m.t].pl.op.at in r && r' == Minus(r, s.pc[m.t].pl.op.at)
                else r' == r)
  {
    assert (sched + [m])[..|sched|] == sched;
    Invariant(c, sched);
    Invariant(c, sched + [m]);
    var s, h := Exec(c, sched), History(c, sched);
    if Enabled(c, s, m) && m.Run? {
      assert PcInv(c, s, h, m.t, s.pc[m.t]);
      if s.pc[m.t].LinkNext? {
        var k := AnchorOnRing(c, s, h, m.t);
      }
    }
  }

  /** Some writer stands where P holds of it. */
  ghost predicate Some(s: State, P: Pc -> bool) {
    exists t :: 0 <= t < |s.pc| && P(s.pc[t])
  }

  /** The successor's prev names another node: the new one, or already the victim's predecessor. */
  predicate Overtaken(pc: Pc, x: int) {
    (pc.LinkNext? && pc.pl.pred == x) || (pc.UnNext? && pc.pl.op.at == x)
  }

  /** prev names the victim's predecessor, whose next is still the victim. */
  predicate Bypassing(pc: Pc, x: int) {
    pc.UnNext? && pc.pl.succ == x
  }

  ghost predicate Before(ring: seq<int>, j: int, i: int) {
    0 <= i < |ring| && 0 <= j < |ring| && Wrap(ring, j) == i
  }

  lemma DeadIff(c: Config, s: State, h: Past, i: int)
    requires Inv(c, s, h) && 0 <= i < |h.ring|
    ensures var x := h.ring[i]; x in s.heap && (s.heap[x].dead <==> Some(s, pc => Killing(pc, x)))
  {
    var x := h.ring[i];
    assert x in h.ring && NodeInv(c, s, h, x);
    forall t | 0 <= t < |s.pc| && Killing(s.pc[t], x) ensures s.heap[x].dead {
      assert PcInv(c, s, h, t, s.pc[t]);
    }
    if s.heap[x].dead {
      assert Killing(s.pc[s.owner[LockOf(c, x)]], x);
    }
  }

  lemma OvertakenAt(c: Config, s: State, h: Past, i: int, t: int)
    requires Inv(c, s, h) && 0 <= i < |h.ring| && 0 <= t < |s.pc| && Overtaken(s.pc[t], h.ring[i])
    ensures var y := NextIn(h.ring, i); y in s.heap && s.heap[y].prev != h.ring[i]
  {
    assert PcInv(c, s, h, t, s.pc[t]);
    if s.pc[t].LinkNext? {
      var k := AnchorOnRing(c, s, h, t);
      assert k == i && h.ring[i] in h.ring;
    } else {
      var k := BetweenNeighbours(c, s, h, t);
      assert k + 1 == i;
    }
  }

  /** Whoever makes the prev of y run ahead of the ring works right before y. */
  lemma SplicerBefore(c: Config, s: State, h: Past, i: int, t: int)
    requires Inv(c, s, h) && 0 <= i < |h.ring| && 0 <= t < |s.pc| && Splicing(s.pc[t], NextIn(h.ring, i))
    ensures Overtaken(s.pc[t], h.ring[i])
  {
    if s.pc[t].LinkNext? {
      var k := AnchorOnRing(c, s, h, t);
      assert Wrap(h.ring, k) == Wrap(h.ring, i);
    } else {
      var k := BetweenNeighbours(c, s, h, t);
      assert Wrap(h.ring, k + 1) == Wrap(h.ring, i);
    }
  }

  lemma NextIff(c: Config, s: State, h: Past, i: int)
    requires Inv(c, s, h) && 0 <= i < |h.ring|
    ensures var x, y := h.ring[i], NextIn(h.ring, i);
            x in s.heap && s.heap[x].next == y && y in s.heap && (s.heap[y].prev != x <==> Some(s, pc => Overtaken(pc, x)))
  {
    var x, y := h.ring[i], NextIn(h.ring, i);
    assert Follows(s.heap, h.ring, i) && BackInv(c, s, h.ring, i);
    forall t | 0 <= t < |s.pc| && Overtaken(s.pc[t], x) ensures s.heap[y].prev != x { OvertakenAt(c, s, h, i, t); }
    if s.heap[y].prev != x {
      SplicerBefore(c, s, h, i, s.owner[LockOf(c, y)]);
    }
  }

  lemma BypassingAt(c: Config, s: State, h: Past, i: int, t: int)
    requires Inv(c, s, h) && 0 <= i < |h.ring| && 0 <= t < |s.pc| && Bypassing(s.pc[t], h.ring[i])
    ensures var x := h.ring[i]; x in s.heap && s.heap[x].prev in s.heap && s.heap[s.heap[x].prev].next != x
  {
    var k := BetweenNeighbours(c, s, h, t);
    assert PcInv(c, s, h, t, s.pc[t]) && Follows(s.heap, h.ring, k);
  }

  lemma PrevIff(c: Config, s: State, h: Past, j: int, i: int)
    requires Inv(c, s, h) && Before(h.ring, j, i)
    ensures var x := h.ring[i];
            x in s.heap && s.heap[x].prev in s.heap && (s.heap[s.heap[x].prev].next != x <==> Some(s, pc => Bypassing(pc, x)))
  {
    var x := h.ring[i];
    assert x in h.ring && NodeInv(c, s, h, x) && Follows(s.heap, h.ring, j) && BackInv(c, s, h.ring, j);
    forall t | 0 <= t < |s.pc| && Bypassing(s.pc[t], x) ensures s.heap[s.heap[x].prev].next != x { BypassingAt(c, s, h, i, t); }
    if s.heap[s.heap[x].prev].next != x {
      var t := s.owner[LockOf(c, x)];
      assert Splicing(s.pc[t], x) && PcInv(c, s, h, t, s.pc[t]);
      assert Bypassing(s.pc[t], x);
    }
  }

  /**
   At a node x that a forward walk reaches, exactly the commits in flight break a link,
   whatever nodes share a lock: x is tombstoned while some writer unlinks it; the prev of
   its successor names another node while a new node is linked after x or x is taken out
   after the first store; and the next of its predecessor names another node while a
   victim right before x is taken out after the first store.
   */
  lemma LinksInverse(c: Config, sched: seq<Move>, k: nat)
    requires ValidConfig(c)
    ensures var s := Exec(c, sched);
            var x := Nth(s.heap, k);
            && x in s.heap && s.heap[x].next in s.heap && s.heap[x].prev in s.heap
            && (s.heap[x].dead <==> Some(s, pc => Killing(pc, x)))
            && (s.heap[s.heap[x].next].prev != x <==> Some(s, pc => Overtaken(pc, x)))
            && (s.heap[s.heap[x].prev].next != x <==> Some(s, pc => Bypassing(pc, x)))
  {
    Invariant(c, sched);
    var s, h := Exec(c, sched), History(c, sched);
    NthIsRing(s.heap, h.ring, k);
    var i := Turn(|h.ring|, k);
    DeadIff(c, s, h, i);
    NextIff(c, s, h, i);
    PrevIff(c, s, h, if i == 0 then |h.ring| - 1 else i - 1, i);
  }

  /** A node whose insert has returned and that is not tombstoned is on the forward walk. */
  lemma NoNodeLost(c: Config, sched: seq<Move>, x: int) returns (k: nat)
    requires ValidConfig(c) && x in Exec(c, sched).known
    ensures x in Exec(c, sched).heap
    ensures !Exec(c, sched).heap[x].dead ==> Nth(Exec(c, sched).heap, k) == x
  {
    Invariant(c, sched);
    var s, h := Exec(c, sched), History(c, sched);
    assert NodeInv(c, s, h, x);
    k := 0;
    if !s.heap[x].dead {
      k :| 0 <= k < |h.ring| && h.ring[k] == x;
      NthIsRing(s.heap, h.ring, k);
    }
  }

  /** No writer ever follows a link to anything but a node. */
  lemma LinksValid(c: Config, sched: seq<Move>)
    requires ValidConfig(c)
    ensures !Exec(c, sched).fault
  {
    Invariant(c, sched);
  }
}
