/** The commits of the plan / lock / validate protocol keep the invariant, and so does every schedule. */
module PlanCommit {
  import opened RingList
  import opened PlanLock
  import opened PlanRing
  import opened PlanInvariant
  import opened PlanPreserve

  // ---- what a store does to the other writers -----------------------------

  /** A writer past its lock step holds the locks of its planned nodes. */
  predicate Armed(pc: Pc) { HasPlan(pc) && !pc.Lock? && !pc.Undo? && !pc.Release? }

  lemma ArmedHolds(c: Config, s: State, t: int)
    requires LockInv(c, s) && 0 <= t < |s.pc| && Armed(s.pc[t])
    ensures var pl := s.pc[t].pl; Holds(c, s, t, pl.pred) && Holds(c, s, t, pl.succ) && (pl.op.Del? ==> Holds(c, s, t, pl.op.at))
  {
    var pc := s.pc[t];
    assert CountInv(c, pc);
    assert HoldsKey(pc, LockOf(c, pc.pl.pred)) && HoldsKey(pc, LockOf(c, pc.pl.succ));
    assert pc.pl.op.Del? ==> HoldsKey(pc, LockOf(c, pc.pl.op.at));
  }

  /** Writer t stores to node x, which is new or whose lock it holds. */
  ghost predicate StoresTo(c: Config, s: State, h: Past, s': State, h': Past, t: int, x: int) {
    && OnlyPc(s, s', t) && s'.owner == s.owner && s'.known == s.known
    && (x in s.heap ==> x in h.linked && Holds(c, s, t, x))
    && x in s'.heap && (forall y: int :: y in s.heap && y != x ==> y in s'.heap && s'.heap[y] == s.heap[y])
    && h.linked <= h'.linked
    && (forall y: int :: y in h.mine && h.mine[y] != t ==> y in h'.mine && h'.mine[y] == h.mine[y])
    && (forall y: int :: y in h.ring && !Holds(c, s, t, y) ==> y in h'.ring)
  }

  lemma PcFrame(c: Config, s: State, h: Past, s': State, h': Past, t: int, x: int, u: int)
    requires Inv(c, s, h) && StoresTo(c, s, h, s', h', t, x) && 0 <= u < |s.pc| && u != t
    ensures PcInv(c, s', h', u, s.pc[u])
  {
    var pc := s.pc[u];
    assert PcInv(c, s, h, u, pc);
    if Armed(pc) {
      ArmedHolds(c, s, u);
      KeepsConds(c, s, h, s', pc.pl, t, u, x);
    }
  }

  lemma KeepsConds(c: Config, s: State, h: Past, s': State, pl: Plan, t: int, u: int, x: int)
    requires t != u && Planned(s, h, pl) && Holds(c, s, u, pl.pred) && Holds(c, s, u, pl.succ) && (pl.op.Del? ==> Holds(c, s, u, pl.op.at))
    requires x in s.heap ==> Holds(c, s, t, x)
    requires forall y: int :: y in s.heap && y != x ==> y in s'.heap && s'.heap[y] == s.heap[y]
    ensures forall k: int :: Cond(s.heap, pl, k) ==> Cond(s'.heap, pl, k)
  {
  }

  lemma Finish(c: Config, s: State, h: Past, s': State, h': Past, t: int, x: int)
    requires Inv(c, s, h) && StoresTo(c, s, h, s', h', t, x) && !s'.fault
    requires CountInv(c, s'.pc[t]) && (forall k: int :: HoldsKey(s'.pc[t], k) <==> HoldsKey(s.pc[t], k))
    requires MemInv(c, s', h') && PcInv(c, s', h', t, s'.pc[t])
    ensures Inv(c, s', h')
  {
    SameLocks(c, s, s', t);
    forall u | 0 <= u < |s'.pc| ensures PcInv(c, s', h', u, s'.pc[u]) {
      if u != t {
        PcFrame(c, s, h, s', h', t, x, u);
      }
    }
  }

  ghost predicate Kept(c: Config, s: State, h: Past, m: Move) {
    Inv(c, Step(c, s, m), StepPast(c, s, h, m))
  }

  // ---- inserts ------------------------------------------------------------

  /** Writer t allocates a node that nobody else knows. */
  ghost predicate Adds(s: State, h: Past, s': State, t: int, addr: int, node: Node) {
    && OnlyPc(s, s', t) && s'.owner == s.owner && s'.known == s.known && addr !in s.heap && addr !in h.linked
    && s'.heap == s.heap[addr := node] && s.pc[t].New? && s'.pc[t].LinkPrev? && s'.pc[t].e == addr
  }

  lemma AddBack(c: Config, s: State, h: Past, s': State, t: int, addr: int, node: Node, i: int)
    requires Adds(s, h, s', t, addr, node) && 0 <= i < |h.ring| && BackInv(c, s, h.ring, i)
    ensures BackInv(c, s', h.ring, i)
  {
  }

  lemma AddNode(c: Config, s: State, h: Past, s': State, h': Past, t: int, addr: int, node: Node, x: int)
    requires Adds(s, h, s', t, addr, node) && NodeInv(c, s, h, x) && h'.linked == h.linked && h'.ring == h.ring
    ensures NodeInv(c, s', h', x)
  {
  }

  lemma AddSets(s: State, h: Past, s': State, h': Past, t: int, addr: int, node: Node)
    requires Adds(s, h, s', t, addr, node) && SetsInv(s, h) && h' == h.(mine := h.mine[addr := t])
    ensures SetsInv(s', h')
  {
    forall x: int | x in h'.mine ensures Making(s', h', x) {
      if x != addr { assert Making(s, h, x); }
    }
  }

  lemma NewMem(c: Config, s: State, h: Past, s': State, h': Past, t: int, addr: int, node: Node)
    requires MemInv(c, s, h) && Adds(s, h, s', t, addr, node) && h' == h.(mine := h.mine[addr := t])
    ensures MemInv(c, s', h')
  {
    CycleFrame(s.heap, h.ring, s'.heap);
    forall i: int | 0 <= i < |h.ring| ensures BackInv(c, s', h.ring, i) {
      assert BackInv(c, s, h.ring, i);
      AddBack(c, s, h, s', t, addr, node, i);
    }
    forall x: int | x in h.linked ensures NodeInv(c, s', h', x) {
      assert NodeInv(c, s, h, x);
      AddNode(c, s, h, s', h', t, addr, node, x);
    }
    AddSets(s, h, s', h', t, addr, node);
  }

  lemma NewKept(c: Config, s: State, h: Past, m: Move)
    requires Inv(c, s, h) && Enabled(c, s, m) && m.Run? && s.pc[m.t].New?
    ensures Kept(c, s, h, m)
  {
    var t, pc := m.t, s.pc[m.t];
    assert PcInv(c, s, h, t, pc) && NodeInv(c, s, h, pc.pl.pred) && CountInv(c, pc) && Cond(s.heap, pc.pl, 2);
    assert Safe(s.heap, pc);
    var s', h' := Step(c, s, m), StepPast(c, s, h, m);
    assert m.addr in h.linked ==> NodeInv(c, s, h, m.addr);
    NewMem(c, s, h, s', h', t, m.addr, Node(s.heap[pc.pl.pred].next, pc.pl.pred, false));
    forall k: int | 0 <= k < 3 ensures Cond(s'.heap, pc.pl, k) { assert Cond(s.heap, pc.pl, k); }
    Finish(c, s, h, s', h', t, m.addr);
  }

  /** The first store of a commit: y's prev runs ahead of the ring. */
  ghost predicate RunsAhead(c: Config, s: State, s': State, t: int, y: int, v: int) {
    && OnlyPc(s, s', t) && s'.owner == s.owner && s'.known == s.known && !s.pc[t].LinkNext? && !s.pc[t].UnNext?
    && y in s.heap && v in s.heap && Holds(c, s, t, y) && s'.heap == s.heap[y := s.heap[y].(prev := v)]
    && Splicing(s'.pc[t], y)
    && (s.pc[t].LinkPrev? ==> s'.pc[t].LinkNext? && s'.pc[t].e == s.pc[t].e)
    && (s.pc[t].UnPrev? ==> s'.pc[t].UnNext? && s'.pc[t].pl == s.pc[t].pl)
  }

  lemma AheadBack(c: Config, s: State, ring: seq<int>, s': State, t: int, y: int, v: int, i: int)
    requires RunsAhead(c, s, s', t, y, v) && 0 <= i < |ring| && BackInv(c, s, ring, i)
    ensures BackInv(c, s', ring, i)
  {
  }

  lemma AheadNode(c: Config, s: State, h: Past, s': State, t: int, y: int, v: int, x: int)
    requires RunsAhead(c, s, s', t, y, v) && NodeInv(c, s, h, x)
    ensures NodeInv(c, s', h, x)
  {
  }

  lemma PrevMem(c: Config, s: State, h: Past, s': State, t: int, y: int, v: int)
    requires MemInv(c, s, h) && RunsAhead(c, s, s', t, y, v)
    ensures MemInv(c, s', h)
  {
    AheadRing(c, s, h.ring, s', t, y, v);
    AheadNodes(c, s, h, s', t, y, v);
    assert SetsInv(s', h);
  }

  lemma AheadRing(c: Config, s: State, ring: seq<int>, s': State, t: int, y: int, v: int)
    requires RingInv(c, s, ring) && RunsAhead(c, s, s', t, y, v)
    ensures RingInv(c, s', ring)
  {
    CycleFrame(s.heap, ring, s'.heap);
    forall i: int | 0 <= i < |ring| ensures BackInv(c, s', ring, i) {
      assert BackInv(c, s, ring, i);
      AheadBack(c, s, ring, s', t, y, v, i);
    }
  }

  lemma AheadNodes(c: Config, s: State, h: Past, s': State, t: int, y: int, v: int)
    requires NodesInv(c, s, h) && RunsAhead(c, s, s', t, y, v)
    ensures NodesInv(c, s', h)
  {
    forall x: int | x in h.linked ensures NodeInv(c, s', h, x) {
      assert NodeInv(c, s, h, x);
      AheadNode(c, s, h, s', t, y, v, x);
    }
  }

  lemma LinkPrevKept(c: Config, s: State, h: Past, m: Move)
    requires Inv(c, s, h) && Enabled(c, s, m) && m.Run? && s.pc[m.t].LinkPrev?
    ensures Kept(c, s, h, m)
  {
    var t, pc, pl := m.t, s.pc[m.t], s.pc[m.t].pl;
    assert PcInv(c, s, h, t, pc) && NodeInv(c, s, h, pl.pred) && NodeInv(c, s, h, pl.succ) && CountInv(c, pc) && Cond(s.heap, pl, 2);
    ArmedHolds(c, s, t);
    assert Safe(s.heap, pc);
    var s' := Step(c, s, m);
    PrevMem(c, s, h, s', t, pl.succ, pc.e);
    forall k: int | 0 <= k < 3 ensures Cond(s'.heap, pl, k) { assert Cond(s.heap, pl, k); }
    Finish(c, s, h, s', h, t, pl.succ);
  }

  // ---- the second store of an insert --------------------------------------

  /** The anchor of a validated insert is on the ring. */
  lemma AnchorOnRing(c: Config, s: State, h: Past, t: int) returns (k: int)
    requires Inv(c, s, h) && 0 <= t < |s.pc| && s.pc[t].LinkNext?
    ensures 0 <= k < |h.ring| && h.ring[k] == s.pc[t].pl.pred && NextIn(h.ring, k) == s.pc[t].pl.succ
  {
    var pl := s.pc[t].pl;
    assert PcInv(c, s, h, t, s.pc[t]) && NodeInv(c, s, h, pl.pred) && Cond(s.heap, pl, 0) && Cond(s.heap, pl, 2);
    k :| 0 <= k < |h.ring| && h.ring[k] == pl.pred;
    assert Follows(s.heap, h.ring, k);
  }

  /** The last store of an insert. */
  ghost predicate Inserts(c: Config, s: State, ring: seq<int>, s': State, t: int, k: int, e: int) {
    && OnlyPc(s, s', t) && s'.owner == s.owner && s'.known == s.known && 0 <= k < |ring| && e !in ring
    && s.pc[t].LinkNext? && Quiet(s'.pc[t]) && s.pc[t].pl.succ == NextIn(ring, k) && s.pc[t].e == e
    && ring[k] in s.heap && s'.heap == s.heap[ring[k] := s.heap[ring[k]].(next := e)]
    && e in s.heap && s.heap[e] == Node(NextIn(ring, k), ring[k], false)
    && NextIn(ring, k) in s.heap && s.heap[NextIn(ring, k)].prev == e
  }

  /** Every edge but the one that was split is as it was. */
  lemma OldEdge(c: Config, s: State, ring: seq<int>, s': State, t: int, k: int, e: int, j: int)
    requires Distinct(ring) && Inserts(c, s, ring, s', t, k, e) && 0 <= j < |ring| && j != k && BackInv(c, s, ring, j)
    ensures var r := After(ring, ring[k], e); |r| == |ring| + 1 && BackInv(c, s', r, if j < k then j else j + 1)
  {
    AfterAt(ring, k, e);
    var r := After(ring, ring[k], e);
    assert NextIn(r, if j < k then j else j + 1) == NextIn(ring, j) && NextIn(ring, j) != NextIn(ring, k);
  }

  lemma NewEdges(c: Config, s: State, ring: seq<int>, s': State, t: int, k: int, e: int)
    requires Distinct(ring) && Inserts(c, s, ring, s', t, k, e)
    ensures var r := After(ring, ring[k], e); |r| == |ring| + 1 && BackInv(c, s', r, k) && BackInv(c, s', r, k + 1)
  {
    AfterAt(ring, k, e);
    var r := After(ring, ring[k], e);
    assert r[k] == ring[k] && NextIn(r, k) == e && r[k + 1] == e && NextIn(r, k + 1) == NextIn(ring, k);
  }

  lemma InsertRing(c: Config, s: State, ring: seq<int>, s': State, t: int, k: int, e: int)
    requires RingInv(c, s, ring) && Inserts(c, s, ring, s', t, k, e)
    ensures RingInv(c, s', After(ring, ring[k], e))
  {
    CycleInsert(s.heap, ring, k, e, s'.heap);
    NewEdges(c, s, ring, s', t, k, e);
    var r := After(ring, ring[k], e);
    forall i: int | 0 <= i < |r| ensures BackInv(c, s', r, i) {
      if i != k && i != k + 1 {
        var j := if i < k then i else i - 1;
        assert BackInv(c, s, ring, j);
        OldEdge(c, s, ring, s', t, k, e, j);
      }
    }
  }

  lemma InsertNode(c: Config, s: State, h: Past, s': State, h': Past, t: int, k: int, e: int, x: int)
    requires Inserts(c, s, h.ring, s', t, k, e) && NextIn(h.ring, k) in h.linked && (x == e || NodeInv(c, s, h, x))
    requires h'.linked == h.linked + {e} && forall y: int :: y in h'.ring <==> y in h.ring || y == e
    ensures NodeInv(c, s', h', x)
  {
  }

  lemma InsertNodes(c: Config, s: State, h: Past, s': State, h': Past, t: int, k: int, e: int)
    requires NodesInv(c, s, h) && Inserts(c, s, h.ring, s', t, k, e) && NextIn(h.ring, k) in h.linked
    requires h'.linked == h.linked + {e} && forall y: int :: y in h'.ring <==> y in h.ring || y == e
    ensures NodesInv(c, s', h')
  {
    forall x: int | x in h'.linked ensures NodeInv(c, s', h', x) {
      assert x != e ==> NodeInv(c, s, h, x);
      InsertNode(c, s, h, s', h', t, k, e, x);
    }
  }

  lemma InsertMem(c: Config, s: State, h: Past, s': State, h': Past, t: int, k: int, e: int)
    requires MemInv(c, s, h) && Inserts(c, s, h.ring, s', t, k, e) && e in h.mine && h.mine[e] == t
    requires h' == Past(After(h.ring, h.ring[k], e), h.linked + {e}, h.mine - {e})
    ensures MemInv(c, s', h')
  {
    InsertRing(c, s, h.ring, s', t, k, e);
    AfterMembers(h.ring, k, e);
    assert NextIn(h.ring, k) in h.ring;
    InsertNodes(c, s, h, s', h', t, k, e);
    assert SetsInv(s', h');
  }

  lemma LinkNextKept(c: Config, s: State, h: Past, m: Move)
    requires Inv(c, s, h) && Enabled(c, s, m) && m.Run? && s.pc[m.t].LinkNext?
    ensures Kept(c, s, h, m)
  {
    var t, pc, pl := m.t, s.pc[m.t], s.pc[m.t].pl;
    assert PcInv(c, s, h, t, pc) && NodeInv(c, s, h, pl.pred) && CountInv(c, pc);
    assert Safe(s.heap, pc);
    ArmedHolds(c, s, t);
    var k := AnchorOnRing(c, s, h, t);
    var s', h' := Step(c, s, m), StepPast(c, s, h, m);
    assert pl.keys[..|pl.keys|] == pl.keys;
    AfterMembers(h.ring, k, pc.e);
    InsertMem(c, s, h, s', h', t, k, pc.e);
    Finish(c, s, h, s', h', t, pl.pred);
  }

  // ---- deletes ------------------------------------------------------------

  /** A validated delete stands on the ring right between its planned neighbours. */
  lemma VictimOnRing(c: Config, s: State, h: Past, t: int) returns (k: int)
    requires Inv(c, s, h) && 0 <= t < |s.pc| && s.pc[t].Kill?
    ensures 0 <= k && k + 1 < |h.ring|
    ensures var pl := s.pc[t].pl;
            && h.ring[k] == pl.pred && h.ring[k + 1] == pl.op.at && NextIn(h.ring, k + 1) == pl.succ
            && pl.op.at in s.heap && s.heap[pl.op.at].next == pl.succ && s.heap[pl.op.at].prev == pl.pred
  {
    VictimLive(c, s, h, t);
    k := VictimPlace(c, s, h.ring, s.pc[t].pl);
  }

  /** What validation under the locks says about the three nodes. */
  lemma VictimLive(c: Config, s: State, h: Past, t: int)
    requires Inv(c, s, h) && 0 <= t < |s.pc| && s.pc[t].Kill?
    ensures var pl := s.pc[t].pl;
            && pl.pred in h.ring && pl.succ in h.ring && pl.op.at in s.heap && pl.succ in s.heap && pl.pred in s.heap
            && s.heap[pl.pred].next == pl.op.at && s.heap[pl.succ].prev == pl.op.at && pl.op.at != HEAD
            && !Splicing(Holder(s, LockOf(c, pl.op.at)), pl.op.at) && !Splicing(Holder(s, LockOf(c, pl.succ)), pl.succ)
  {
    var pl := s.pc[t].pl;
    assert PcInv(c, s, h, t, s.pc[t]) && NodeInv(c, s, h, pl.op.at) && NodeInv(c, s, h, pl.succ);
    assert Cond(s.heap, pl, 0) && Cond(s.heap, pl, 1) && Cond(s.heap, pl, 2) && Cond(s.heap, pl, 3) && Cond(s.heap, pl, 4);
    ArmedHolds(c, s, t);
    PredLinked(c, s, h, t);
    assert NodeInv(c, s, h, pl.pred);
  }

  /** Neighbours whose links name the victim enclose it on the ring. */
  lemma VictimPlace(c: Config, s: State, ring: seq<int>, pl: Plan) returns (k: int)
    requires RingInv(c, s, ring) && pl.pred in ring && pl.succ in ring && pl.op.at != HEAD
    requires pl.op.at in s.heap && pl.succ in s.heap && pl.pred in s.heap
    requires s.heap[pl.pred].next == pl.op.at && s.heap[pl.succ].prev == pl.op.at
    requires !Splicing(Holder(s, LockOf(c, pl.op.at)), pl.op.at) && !Splicing(Holder(s, LockOf(c, pl.succ)), pl.succ)
    ensures 0 <= k && k + 1 < |ring| && ring[k] == pl.pred && ring[k + 1] == pl.op.at && NextIn(ring, k + 1) == pl.succ
    ensures s.heap[pl.op.at].next == pl.succ && s.heap[pl.op.at].prev == pl.pred
  {
    k :| 0 <= k < |ring| && ring[k] == pl.pred;
    assert Follows(s.heap, ring, k) && BackInv(c, s, ring, k);
    assert pl.op.at == NextIn(ring, k) && k + 1 < |ring|;
    var j :| 0 <= j < |ring| && ring[j] == pl.succ;
    var i := if j == 0 then |ring| - 1 else j - 1;
    assert NextIn(ring, i) == pl.succ && BackInv(c, s, ring, i);
    assert ring[i] == pl.op.at && i == k + 1;
    assert Follows(s.heap, ring, i);
  }

  /** A node whose next is locked by this writer is not one of another writer's new nodes. */
  lemma PredLinked(c: Config, s: State, h: Past, t: int)
    requires Inv(c, s, h) && 0 <= t < |s.pc| && s.pc[t].Kill?
    ensures s.pc[t].pl.pred in h.linked
  {
    var pl := s.pc[t].pl;
    assert PcInv(c, s, h, t, s.pc[t]) && Cond(s.heap, pl, 3);
    ArmedHolds(c, s, t);
    if pl.pred in h.mine {
      var u := h.mine[pl.pred];
      assert Making(s, h, pl.pred) && PcInv(c, s, h, u, s.pc[u]);
      ArmedHolds(c, s, u);
    }
  }

  /** The tombstone. */
  lemma KillMem(c: Config, s: State, h: Past, s': State, t: int, x: int)
    requires MemInv(c, s, h) && Kills(c, s, s', t, x)
    ensures MemInv(c, s', h)
  {
    CycleFrame(s.heap, h.ring, s'.heap);
    forall i: int | 0 <= i < |h.ring| ensures BackInv(c, s', h.ring, i) {
      assert BackInv(c, s, h.ring, i);
      KillBack(c, s, h.ring, s', t, x, i);
    }
    forall y: int | y in h.linked ensures NodeInv(c, s', h, y) {
      assert NodeInv(c, s, h, y);
      KillNode(c, s, h, s', t, x, y);
    }
    assert SetsInv(s', h);
  }

  ghost predicate Kills(c: Config, s: State, s': State, t: int, x: int) {
    && OnlyPc(s, s', t) && s'.owner == s.owner && s'.known == s.known && s.pc[t].Kill?
    && x in s.heap && Holds(c, s, t, x) && s'.heap == s.heap[x := s.heap[x].(dead := true)] && s'.pc[t].UnPrev? && Killing(s'.pc[t], x)
  }

  lemma KillBack(c: Config, s: State, ring: seq<int>, s': State, t: int, x: int, i: int)
    requires Kills(c, s, s', t, x) && 0 <= i < |ring| && BackInv(c, s, ring, i)
    ensures BackInv(c, s', ring, i)
  {
  }

  lemma KillNode(c: Config, s: State, h: Past, s': State, t: int, x: int, y: int)
    requires Kills(c, s, s', t, x) && NodeInv(c, s, h, y)
    ensures NodeInv(c, s', h, y)
  {
  }

  lemma KillKept(c: Config, s: State, h: Past, m: Move)
    requires Inv(c, s, h) && Enabled(c, s, m) && m.Run? && s.pc[m.t].Kill?
    ensures Kept(c, s, h, m)
  {
    var t, pc, pl := m.t, s.pc[m.t], s.pc[m.t].pl;
    assert PcInv(c, s, h, t, pc) && CountInv(c, pc);
    var k := VictimOnRing(c, s, h, t);
    ArmedHolds(c, s, t);
    assert Safe(s.heap, pc);
    var s' := Step(c, s, m);
    KillMem(c, s, h, s', t, pl.op.at);
    forall j: int | 1 <= j < 5 && j != 2 ensures Cond(s'.heap, pl, j) { assert Cond(s.heap, pl, j); }
    assert h.ring[k] in h.ring && h.ring[k + 1] in h.ring;
    Finish(c, s, h, s', h, t, pl.op.at);
  }

  lemma UnPrevKept(c: Config, s: State, h: Past, m: Move)
    requires Inv(c, s, h) && Enabled(c, s, m) && m.Run? && s.pc[m.t].UnPrev?
    ensures Kept(c, s, h, m)
  {
    var t, pc, pl := m.t, s.pc[m.t], s.pc[m.t].pl;
    assert PcInv(c, s, h, t, pc) && NodeInv(c, s, h, pl.succ) && CountInv(c, pc);
    var k := BetweenNeighbours(c, s, h, t);
    ArmedHolds(c, s, t);
    assert Safe(s.heap, pc);
    var s' := Step(c, s, m);
    PrevMem(c, s, h, s', t, pl.succ, pl.pred);
    forall j: int | j == 1 || j == 3 ensures Cond(s'.heap, pl, j) { assert Cond(s.heap, pl, j); }
    Finish(c, s, h, s', h, t, pl.succ);
  }

  /** The victim stays between its neighbours until it is unlinked. */
  lemma BetweenNeighbours(c: Config, s: State, h: Past, t: int) returns (k: int)
    requires Inv(c, s, h) && 0 <= t < |s.pc| && (s.pc[t].UnPrev? || s.pc[t].UnNext?)
    ensures var pl := s.pc[t].pl;
            && 0 <= k && k + 1 < |h.ring| && h.ring[k] == pl.pred && h.ring[k + 1] == pl.op.at && NextIn(h.ring, k + 1) == pl.succ
            && pl.succ != pl.op.at
  {
    var pl := s.pc[t].pl;
    assert PcInv(c, s, h, t, s.pc[t]) && Cond(s.heap, pl, 3);
    k :| 0 <= k < |h.ring| && h.ring[k] == pl.pred;
    assert Follows(s.heap, h.ring, k);
    assert pl.op.at == NextIn(h.ring, k) && k + 1 < |h.ring|;
    assert Follows(s.heap, h.ring, k + 1);
  }

  // ---- the last store of a delete -----------------------------------------

  ghost predicate Removes(c: Config, s: State, ring: seq<int>, s': State, t: int, k: int) {
    && OnlyPc(s, s', t) && s'.owner == s.owner && s'.known == s.known && 0 <= k && k + 1 < |ring|
    && s.pc[t].UnNext? && Quiet(s'.pc[t]) && s.pc[t].pl.succ == NextIn(ring, k + 1) && s.pc[t].pl.op.at == ring[k + 1]
    && ring[k] in s.heap && s'.heap == s.heap[ring[k] := s.heap[ring[k]].(next := NextIn(ring, k + 1))]
    && NextIn(ring, k + 1) in s.heap && s.heap[NextIn(ring, k + 1)].prev == ring[k]
  }

  lemma RemoveEdge(c: Config, s: State, ring: seq<int>, s': State, t: int, k: int, j: int)
    requires Distinct(ring) && Removes(c, s, ring, s', t, k) && 0 <= j < |ring| && j != k + 1 && BackInv(c, s, ring, j)
    ensures var r := Minus(ring, ring[k + 1]); |r| == |ring| - 1 && BackInv(c, s', r, if j <= k then j else j - 1)
  {
    MinusAt(ring, k + 1);
    var r := Minus(ring, ring[k + 1]);
    var i := if j <= k then j else j - 1;
    assert r[i] == ring[j] && NextIn(r, i) == (if j == k then NextIn(ring, k + 1) else NextIn(ring, j));
    assert j != k ==> NextIn(ring, j) != NextIn(ring, k + 1);
  }

  lemma RemoveRing(c: Config, s: State, ring: seq<int>, s': State, t: int, k: int)
    requires RingInv(c, s, ring) && Removes(c, s, ring, s', t, k)
    ensures RingInv(c, s', Minus(ring, ring[k + 1]))
  {
    CycleRemove(s.heap, ring, k, s'.heap);
    MinusAt(ring, k + 1);
    var r := Minus(ring, ring[k + 1]);
    forall i: int | 0 <= i < |r| ensures BackInv(c, s', r, i) {
      RemoveBack(c, s, ring, s', t, k, i);
    }
  }

  lemma RemoveBack(c: Config, s: State, ring: seq<int>, s': State, t: int, k: int, i: int)
    requires RingInv(c, s, ring) && Removes(c, s, ring, s', t, k) && 0 <= i < |ring| - 1
    ensures var r := Minus(ring, ring[k + 1]); |r| == |ring| - 1 && BackInv(c, s', r, i)
  {
    var j := if i <= k then i else i + 1;
    assert BackInv(c, s, ring, j);
    RemoveEdge(c, s, ring, s', t, k, j);
  }

  lemma RemoveNodes(c: Config, s: State, h: Past, s': State, h': Past, t: int, k: int)
    requires NodesInv(c, s, h) && Removes(c, s, h.ring, s', t, k) && NextIn(h.ring, k + 1) in h.linked
    requires h.ring[k + 1] in s.heap && s.heap[h.ring[k + 1]].dead && h.ring[k + 1] != h.ring[k]
    requires h'.linked == h.linked && forall y: int :: y in h'.ring <==> y in h.ring && y != h.ring[k + 1]
    ensures NodesInv(c, s', h')
  {
    forall x: int | x in h'.linked ensures NodeInv(c, s', h', x) { assert NodeInv(c, s, h, x); }
  }

  lemma RemoveMem(c: Config, s: State, h: Past, s': State, h': Past, t: int, k: int)
    requires MemInv(c, s, h) && Removes(c, s, h.ring, s', t, k) && h' == h.(ring := Minus(h.ring, h.ring[k + 1]))
    requires h.ring[k + 1] in s.heap && s.heap[h.ring[k + 1]].dead && h.ring[k + 1] != h.ring[k]
    requires forall x: int :: x in h.mine ==> Making(s', h, x)
    ensures MemInv(c, s', h')
  {
    RemoveRing(c, s, h.ring, s', t, k);
    MinusMembers(h.ring, k + 1);
    assert NextIn(h.ring, k + 1) in h.ring;
    RemoveNodes(c, s, h, s', h', t, k);
    assert SetsInv(s', h');
  }

  lemma UnNextShape(c: Config, s: State, h: Past, m: Move)
    requires Enabled(c, s, m) && m.Run? && s.pc[m.t].UnNext? && Safe(s.heap, s.pc[m.t]) && Bridges(s, s.pc[m.t].pl) && s.pc[m.t].pl.pred in s.heap
    ensures var pl := s.pc[m.t].pl;
            && StepPast(c, s, h, m) == h.(ring := Minus(h.ring, pl.op.at))
            && Step(c, s, m) == s.(heap := s.heap[pl.pred := s.heap[pl.pred].(next := pl.succ)],
                                   pc := s.pc[m.t := Release(pl, pl.op.at, |pl.keys|)])
  {
  }

  /** Making a node is a matter of its own writer. */
  lemma StillMaking(s: State, h: Past, s': State, t: int)
    requires SetsInv(s, h) && OnlyPc(s, s', t) && !s.pc[t].LinkPrev? && !s.pc[t].LinkNext?
    ensures forall x: int :: x in h.mine ==> Making(s', h, x)
  {
    forall x: int | x in h.mine ensures Making(s', h, x) { assert Making(s, h, x); }
  }

  lemma UnNextTo(c: Config, s: State, h: Past, t: int, k: int, s': State, h': Past)
    requires Inv(c, s, h) && 0 <= t < |s.pc| && s.pc[t].UnNext? && PcInv(c, s, h, t, s.pc[t])
    requires var pl := s.pc[t].pl;
             && 0 <= k && k + 1 < |h.ring| && h.ring[k] == pl.pred && h.ring[k + 1] == pl.op.at && NextIn(h.ring, k + 1) == pl.succ
             && pl.pred in s.heap && pl.pred != pl.op.at && h' == h.(ring := Minus(h.ring, pl.op.at))
             && s' == s.(heap := s.heap[pl.pred := s.heap[pl.pred].(next := pl.succ)], pc := s.pc[t := Release(pl, pl.op.at, |pl.keys|)])
    ensures Inv(c, s', h')
  {
    var pl := s.pc[t].pl;
    assert CountInv(c, s.pc[t]) && pl.keys[..|pl.keys|] == pl.keys;
    ArmedHolds(c, s, t);
    StillMaking(s, h, s', t);
    RemoveMem(c, s, h, s', h', t, k);
    MinusMembers(h.ring, k + 1);
    assert h.ring[k] in h.ring;
    Finish(c, s, h, s', h', t, pl.pred);
  }

  lemma UnNextKept(c: Config, s: State, h: Past, m: Move)
    requires Inv(c, s, h) && Enabled(c, s, m) && m.Run? && s.pc[m.t].UnNext?
    ensures Kept(c, s, h, m)
  {
    var pc, pl := s.pc[m.t], s.pc[m.t].pl;
    assert PcInv(c, s, h, m.t, pc) && Cond(s.heap, pl, 1);
    var k := BetweenNeighbours(c, s, h, m.t);
    assert Safe(s.heap, pc) && h.ring[k] != h.ring[k + 1];
    UnNextShape(c, s, h, m);
    UnNextTo(c, s, h, m.t, k, Step(c, s, m), StepPast(c, s, h, m));
  }

  // ---- every step, every schedule -----------------------------------------

  lemma StepKept(c: Config, s: State, h: Past, m: Move)
    requires Inv(c, s, h) && Enabled(c, s, m)
    ensures Kept(c, s, h, m)
  {
    if m.Begin? { BeginKept(c, s, h, m); }
    else {
      match s.pc[m.t]
      case Load1(_) => LoadKept(c, s, h, m);
      case Load2(_, _) => LoadKept(c, s, h, m);
      case Lock(_, _) => LockKept(c, s, h, m);
      case Check(_, _) => CheckKept(c, s, h, m);
      case Undo(_, _) => UndoKept(c, s, h, m);
      case New(_) => NewKept(c, s, h, m);
      case LinkPrev(_, _) => LinkPrevKept(c, s, h, m);
      case LinkNext(_, _) => LinkNextKept(c, s, h, m);
      case Kill(_) => KillKept(c, s, h, m);
      case UnPrev(_) => UnPrevKept(c, s, h, m);
      case UnNext(_) => UnNextKept(c, s, h, m);
      case Release(_, _, _) => ReleaseKept(c, s, h, m);
    }
  }

  lemma InitRing(c: Config)
    requires ValidConfig(c)
    ensures RingInv(c, Build(c), History(c, []).ring)
    ensures forall x: int :: x in History(c, []).ring <==> -1 <= x < c.n
  {
    var s, ring := Build(c), History(c, []).ring;
    assert |ring| == c.n + 1 && forall i :: 0 <= i <= c.n ==> ring[i] == i - 1;
    forall i: int | 0 <= i < |ring| ensures Follows(s.heap, ring, i) && BackInv(c, s, ring, i) {
      assert NextIn(ring, i) == Succ(c.n, i - 1);
    }
    forall x: int | -1 <= x < c.n ensures x in ring { assert ring[x + 1] == x; }
  }

  lemma InitInv(c: Config)
    requires ValidConfig(c)
    ensures Inv(c, Build(c), History(c, []))
  {
    var s, h := Build(c), History(c, []);
    InitRing(c);
    assert NodesInv(c, s, h) by {
      forall x: int | x in h.linked ensures NodeInv(c, s, h, x) { }
    }
    assert SetsInv(s, h) && LockInv(c, s);
  }

  /** The invariant holds after every schedule. */
  lemma {:induction false} Invariant(c: Config, sched: seq<Move>)
    requires ValidConfig(c)
    ensures Inv(c, Exec(c, sched), History(c, sched))
  {
    if sched == [] {
      InitInv(c);
    } else {
      var before, m := sched[..|sched| - 1], sched[|sched| - 1];
      Invariant(c, before);
      if Enabled(c, Exec(c, before), m) {
        StepKept(c, Exec(c, before), History(c, before), m);
      }
    }
  }
}
