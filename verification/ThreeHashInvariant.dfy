/** The inductive invariant of the three-hash rotation and its preservation. */
module ThreeHashInvariant {
  import opened ThreeHash

  // ---- chains in the order of their nodes' ages ---------------------------

  /** Newest first. */
  predicate Sorted(stamp: map<int, int>, chain: seq<int>) {
    && (forall i :: 0 <= i < |chain| ==> chain[i] in stamp)
    && (forall i, j :: 0 <= i < j < |chain| ==> stamp[chain[i]] > stamp[chain[j]])
  }

  lemma {:induction false} RemoveKeeps(stamp: map<int, int>, chain: seq<int>, x: int)
    requires Sorted(stamp, chain)
    ensures Sorted(stamp, Remove(chain, x)) && forall y: int :: y in Remove(chain, x) <==> y in chain && y != x
  {
    if chain != [] {
      var rest := chain[1..];
      assert forall y: int :: y in chain <==> y == chain[0] || y in rest;
      if chain[0] == x {
        assert forall y: int :: y in rest ==> y != x;
      } else {
        RemoveKeeps(stamp, rest, x);
        var r := Remove(rest, x);
        forall i | 0 <= i < |r| ensures stamp[chain[0]] > stamp[r[i]] {
          assert r[i] in r && r[i] in rest;
        }
      }
    }
  }

  /** The next node is older, but not older than any node further down. */
  lemma {:induction false} AfterIs(stamp: map<int, int>, chain: seq<int>, x: int, n: int)
    requires Sorted(stamp, chain) && x in chain && n in chain && stamp[x] > stamp[n]
    ensures var y := After(chain, x); y in chain && stamp[n] <= stamp[y] < stamp[x]
  {
    var i :| 0 <= i < |chain| && chain[i] == n;
    if chain[0] == x {
      assert i > 0 && chain[1] in chain;
    } else {
      assert x in chain[1..] && n in chain[1..] by {
        var k :| 0 <= k < |chain| && chain[k] == x;
        assert chain[k] == chain[1..][k - 1] && stamp[chain[0]] > stamp[x] && chain[i] == chain[1..][i - 1];
      }
      AfterIs(stamp, chain[1..], x, n);
    }
  }

  // ---- structure ----------------------------------------------------------

  /** A deleted node still leads on to whatever older node of its bucket is linked. */
  ghost predicate LeadsOn(s: State, h: Past, x: int)
    requires x in s.place
  {
    && x in s.frozen && x in h.stamp
    && forall n: int {:trigger Linked(s, n)} :: Linked(s, n) && s.place[n] == s.place[x] && n in h.stamp && h.stamp[n] < h.stamp[x] ==>
         Between(s, h, n, s.frozen[x], x)
  }

  predicate Between(s: State, h: Past, n: int, y: int, x: int) {
    && x in s.place && y in s.place && s.place[y] == s.place[x]
    && n in h.stamp && y in h.stamp && x in h.stamp && h.stamp[n] <= h.stamp[y] < h.stamp[x]
  }

  ghost predicate Aged(s: State, h: Past) {
    && (forall x: int :: x in s.place ==> x > 0 && x in h.stamp && h.stamp[x] < h.clock)
    && (forall x: int, y: int :: x in s.place && y in s.place && x in h.stamp && y in h.stamp && h.stamp[x] == h.stamp[y] ==> x == y)
  }

  ghost predicate ChainInv(s: State, h: Past, b: Bucket) {
    Sorted(h.stamp, ChainAt(s, b)) && forall x: int :: x in ChainAt(s, b) ==> x in s.place && s.place[x] == b
  }

  ghost predicate Structure(s: State, h: Past) {
    && Aged(s, h)
    && (forall b: Bucket {:trigger ChainInv(s, h, b)} :: ChainInv(s, h, b))
    && (forall x: int {:trigger LeadsOn(s, h, x)} :: x in s.place && !Linked(s, x) ==> LeadsOn(s, h, x))
  }

  lemma DeleteLinks(s: State, h: Past, x: int)
    requires Structure(s, h) && Linked(s, x)
    ensures var r := Delete(s, x);
            && r.place == s.place && r.fault == s.fault && (forall b: Bucket :: ChainInv(r, h, b))
            && (forall y: int :: Linked(r, y) <==> Linked(s, y) && y != x)
  {
    var r, bx := Delete(s, x), s.place[x];
    assert ChainInv(s, h, bx);
    RemoveKeeps(h.stamp, s.chains[bx], x);
    forall b: Bucket ensures ChainInv(r, h, b) {
      assert ChainInv(s, h, b);
    }
  }

  lemma DeleteOk(s: State, h: Past, x: int)
    requires Structure(s, h) && Linked(s, x)
    ensures var r := Delete(s, x);
            Structure(r, h) && r.place == s.place && r.fault == s.fault && forall y: int :: Linked(r, y) <==> Linked(s, y) && y != x
  {
    var r := Delete(s, x);
    DeleteLinks(s, h, x);
    forall y: int | y in r.place && !Linked(r, y) ensures LeadsOn(r, h, y) {
      forall n: int | Linked(r, n) && r.place[n] == r.place[y] && n in h.stamp && y in h.stamp && h.stamp[n] < h.stamp[y]
        ensures y in r.frozen && Between(r, h, n, r.frozen[y], y)
      {
        assert Linked(s, n) && ChainInv(s, h, s.place[n]);
        if y == x {
          AfterIs(h.stamp, s.chains[s.place[x]], x, n);
          assert After(s.chains[s.place[x]], x) in s.chains[s.place[x]];
        } else {
          assert LeadsOn(s, h, y);
        }
      }
      if y != x { assert LeadsOn(s, h, y); }
    }
  }

  lemma SortedPush(stamp: map<int, int>, chain: seq<int>, x: int, t: int)
    requires Sorted(stamp, chain) && x !in chain && forall y: int :: y in chain ==> stamp[y] < t
    ensures Sorted(stamp[x := t], chain) && Sorted(stamp[x := t], [x] + chain)
  {
    forall i | 0 <= i < |chain| ensures chain[i] != x && stamp[chain[i]] < t {
      assert chain[i] in chain;
    }
  }

  lemma InsertChain(s: State, h: Past, b: Bucket, x: int, u: int, j: int, d: Bucket)
    requires Structure(s, h) && x > 0 && x !in s.place
    ensures ChainInv(Insert(s, b, x), Record(h, u, j, x), d)
  {
    assert ChainInv(s, h, d);
    SortedPush(h.stamp, ChainAt(s, d), x, h.clock);
  }

  lemma InsertOk(s: State, h: Past, b: Bucket, x: int, u: int, j: int)
    requires Structure(s, h) && x > 0 && x !in s.place
    ensures var r := Insert(s, b, x);
            Structure(r, Record(h, u, j, x)) && r.fault == s.fault && forall y: int :: Linked(r, y) <==> Linked(s, y) || y == x
  {
    var r, h' := Insert(s, b, x), Record(h, u, j, x);
    forall d: Bucket ensures ChainInv(r, h', d) {
      InsertChain(s, h, b, x, u, j, d);
    }
    forall y: int ensures Linked(r, y) <==> Linked(s, y) || y == x {
      assert y in s.place ==> ChainInv(s, h, s.place[y]);
    }
    forall y: int | y in r.place && !Linked(r, y) ensures LeadsOn(r, h', y) {
      assert LeadsOn(s, h, y);
      forall n: int | Linked(r, n) && r.place[n] == r.place[y] && n in h'.stamp && h'.stamp[n] < h'.stamp[y]
        ensures Between(r, h', n, r.frozen[y], y)
      {
        assert n != x && Linked(s, n) && Between(s, h, n, s.frozen[y], y);
      }
    }
  }

  // ---- whose node is where ------------------------------------------------

  /** The first key that updater u has not drained. */
  function FirstLeft(up: Updater): int {
    match up.phase
    case Walk(j, _) => j
    case Drop(j) => j
    case Done => |up.cur|
    case _ => 0
  }

  /** Key j of updater u is in the tables. */
  predicate Live(s: State, u: int, j: int) {
    0 <= u < |s.up| && FirstLeft(s.up[u]) <= j < |s.up[u].cur| && 0 <= j
  }

  /** It is linked once, as the node and in the bucket that its updater believes. */
  ghost predicate Here(c: Config, s: State, h: Past, u: int, j: int)
    requires ValidConfig(c) && 0 <= u < |s.up| && 0 <= j < |s.up[u].cur|
  {
    var x := s.up[u].cur[j];
    && Linked(s, x) && x in h.who && h.who[x] == (u, j)
    && j < |s.up[u].tab| && s.place[x] == BucketOf(c, s.up[u].tab[j], KeyOf(c, u, j))
  }

  /** Nothing else is linked. */
  ghost predicate Owned(s: State, h: Past, x: int) {
    x in h.who && var (u, j) := h.who[x]; Live(s, u, j) && s.up[u].cur[j] == x
  }

  ghost predicate UpInv(c: Config, s: State, h: Past, u: int)
    requires ValidConfig(c) && 0 <= u < |s.up|
  {
    var up := s.up[u];
    && |up.cur| == |up.tab| <= KeyCount(c)
    && (forall j :: 0 <= j < |up.tab| ==> 0 <= up.tab[j] < 3)
    && (match up.phase
        case Fill => |up.cur| < KeyCount(c)
        case Rotate(j) => 0 <= j < KeyCount(c) == |up.cur|
        case Walk(j, at) => 0 <= j <= |up.cur| && (at != 0 && j < |up.cur| ==> Behind(c, s, h, u, j, at))
        case Drop(j) => 0 <= j < |up.cur|
        case Done => true)
  }

  /** The walk stands on a node of the right bucket that is newer than the one it looks for. */
  predicate Behind(c: Config, s: State, h: Past, u: int, j: int, at: int)
    requires ValidConfig(c) && 0 <= u < |s.up| && 0 <= j < |s.up[u].cur|
  {
    && j < |s.up[u].tab| && at in s.place && s.place[at] == BucketOf(c, s.up[u].tab[j], KeyOf(c, u, j))
    && at in h.stamp && s.up[u].cur[j] in h.stamp && h.stamp[at] > h.stamp[s.up[u].cur[j]]
  }

  ghost predicate Inv(c: Config, s: State, h: Past)
    requires ValidConfig(c)
  {
    && !s.fault && s.lost == 0 && Structure(s, h)
    && (forall u: int, j: int {:trigger Live(s, u, j)} :: Live(s, u, j) ==> Here(c, s, h, u, j))
    && (forall x: int {:trigger Linked(s, x)} :: Linked(s, x) ==> Owned(s, h, x))
    && (forall u: int :: 0 <= u < |s.up| ==> UpInv(c, s, h, u))
  }

  // ---- steps --------------------------------------------------------------

  ghost predicate OnlyUp(s: State, s': State, u: int) {
    |s'.up| == |s.up| && 0 <= u < |s.up| && forall v :: 0 <= v < |s.up| && v != u ==> s'.up[v] == s.up[v]
  }

  /** Nodes x come and go; all others keep their place, their age and their owner. */
  ghost predicate Extends(s: State, h: Past, s': State, h': Past) {
    && (forall y: int :: y in s.place ==> y in s'.place && s'.place[y] == s.place[y])
    && (forall y: int :: y in s.place && y in h.stamp ==> y in h'.stamp && h'.stamp[y] == h.stamp[y])
    && (forall y: int :: y in s.place && y in h.who ==> y in h'.who && h'.who[y] == h.who[y])
  }

  /** The other updaters keep their part. */
  lemma OthersKept(c: Config, s: State, h: Past, s': State, h': Past, u: int, v: int)
    requires ValidConfig(c) && Inv(c, s, h) && OnlyUp(s, s', u) && Extends(s, h, s', h') && 0 <= v < |s.up| && v != u
    requires forall y: int :: Linked(s, y) && y in h.who && h.who[y].0 != u ==> Linked(s', y)
    ensures UpInv(c, s', h', v)
    ensures forall j: int :: Live(s', v, j) ==> Here(c, s', h', v, j)
  {
    assert UpInv(c, s, h, v);
    forall j: int | Live(s', v, j) ensures Here(c, s', h', v, j) {
      assert Live(s, v, j) && Here(c, s, h, v, j);
    }
    var up := s.up[v];
    if up.phase.Walk? && up.phase.at != 0 && up.phase.j < |up.cur| {
      assert Live(s, v, up.phase.j) && Here(c, s, h, v, up.phase.j);
      assert Behind(c, s, h, v, up.phase.j, up.phase.at);
    }
  }

  /** What is linked after the move is owned, and only the moved key's node has changed. */
  lemma MovedOwned(s: State, h: Past, s': State, h': Past, u: int, j: int, x: int, was: int)
    requires OnlyUp(s, s', u) && Extends(s, h, s', h') && Live(s, u, j) && FirstLeft(s'.up[u]) == FirstLeft(s.up[u])
    requires s'.up[u].cur == s.up[u].cur[j := x] && was == s.up[u].cur[j] && x in h'.who && h'.who[x] == (u, j)
    requires forall y: int :: Linked(s, y) ==> y in s.place && Owned(s, h, y)
    requires forall y: int :: Linked(s', y) <==> (Linked(s, y) && y != was) || y == x
    ensures forall y: int {:trigger Linked(s', y)} :: Linked(s', y) ==> Owned(s', h', y)
  {
    forall y: int | Linked(s', y) ensures Owned(s', h', y) {
      if y != x { assert Linked(s, y) && Owned(s, h, y); }
    }
  }

  lemma MoveOneKept(c: Config, s: State, h: Past, u: int, j: int, x: int)
    requires ValidConfig(c) && Inv(c, s, h) && 0 <= u < |s.up| && s.up[u].phase.Rotate? && 0 <= j < KeyCount(c) && x > 0 && x !in s.place
    ensures var s' := MoveOne(c, s, u, j, x);
            Inv(c, s', Record(h, u, j, x)) && s'.up[u].phase == s.up[u].phase && s'.place.Keys == s.place.Keys + {x}
  {
    var s', h' := MoveOne(c, s, u, j, x), Record(h, u, j, x);
    assert UpInv(c, s, h, u) && Live(s, u, j) && Here(c, s, h, u, j);
    var was, t := s.up[u].cur[j], NextTable(s.up[u].tab[j]);
    DeleteOk(s, h, was);
    InsertOk(Delete(s, was), h, BucketOf(c, t, KeyOf(c, u, j)), x, u, j);
    var s2 := Insert(Delete(s, was), BucketOf(c, t, KeyOf(c, u, j)), x);
    SameStructure(s2, h', s');
    assert forall y: int :: Linked(s', y) <==> (Linked(s, y) && y != was) || y == x;
    assert Extends(s, h, s', h');
    MovedHere(c, s, h, s', h', u, j, x, was);
    MovedOwned(s, h, s', h', u, j, x, was);
    Finish(c, s, h, s', h', u);
  }

  lemma Finish(c: Config, s: State, h: Past, s': State, h': Past, u: int)
    requires ValidConfig(c) && Inv(c, s, h) && OnlyUp(s, s', u) && Extends(s, h, s', h') && Structure(s', h') && !s'.fault && s'.lost == 0
    requires forall y: int :: Linked(s, y) && y in h.who && h.who[y].0 != u ==> Linked(s', y)
    requires UpInv(c, s', h', u) && forall k: int :: Live(s', u, k) ==> Here(c, s', h', u, k)
    requires forall y: int :: Linked(s', y) ==> Owned(s', h', y)
    ensures Inv(c, s', h')
  {
    forall v: int, k: int | Live(s', v, k) ensures Here(c, s', h', v, k) {
      if v != u { OthersKept(c, s, h, s', h', u, v); }
    }
    forall v: int | 0 <= v < |s'.up| ensures UpInv(c, s', h', v) {
      if v != u { OthersKept(c, s, h, s', h', u, v); }
    }
  }

  /** Where updaters stand does not matter to the chains. */
  lemma SameStructure(s: State, h: Past, s': State)
    requires Structure(s, h) && s'.chains == s.chains && s'.place == s.place && s'.frozen == s.frozen
    ensures Structure(s', h) && forall y: int :: Linked(s', y) <==> Linked(s, y)
  {
    forall b: Bucket ensures ChainInv(s', h, b) { assert ChainInv(s, h, b); }
    forall x: int | x in s'.place && !Linked(s', x) ensures LeadsOn(s', h, x) {
      assert LeadsOn(s, h, x);
      forall n: int | Linked(s', n) && s'.place[n] == s'.place[x] && n in h.stamp && h.stamp[n] < h.stamp[x]
        ensures Between(s', h, n, s'.frozen[x], x)
      {
        assert Linked(s, n) && Between(s, h, n, s.frozen[x], x);
      }
    }
  }

  lemma MovedHere(c: Config, s: State, h: Past, s': State, h': Past, u: int, j: int, x: int, was: int)
    requires ValidConfig(c) && Inv(c, s, h) && OnlyUp(s, s', u) && Extends(s, h, s', h') && 0 <= j < |s.up[u].cur| && j < |s.up[u].tab| && s.up[u].phase.Rotate?
    requires var t := NextTable(s.up[u].tab[j]); s'.up[u] == s.up[u].(cur := s.up[u].cur[j := x], tab := s.up[u].tab[j := t])
    requires was == s.up[u].cur[j] && x !in s.place && x in s'.place && x in h'.who && h'.who[x] == (u, j)
    requires s'.place[x] == BucketOf(c, NextTable(s.up[u].tab[j]), KeyOf(c, u, j))
    requires forall y: int :: Linked(s', y) <==> (Linked(s, y) && y != was) || y == x
    ensures UpInv(c, s', h', u) && forall k: int :: Live(s', u, k) ==> Here(c, s', h', u, k)
  {
    assert UpInv(c, s, h, u) && Live(s, u, j) && Here(c, s, h, u, j);
    forall k: int | Live(s', u, k) ensures Here(c, s', h', u, k) {
      if k != j {
        assert Live(s, u, k) && Here(c, s, h, u, k);
      }
    }
  }

  lemma FillKept(c: Config, s: State, h: Past, m: Move)
    requires ValidConfig(c) && Inv(c, s, h) && Enabled(c, s, m) && s.up[m.u].phase.Fill?
    ensures Inv(c, Step(c, s, m), StepPast(c, s, h, m))
  {
    var u, x, j := m.u, m.ids[0], |s.up[m.u].cur|;
    var s', h' := Step(c, s, m), StepPast(c, s, h, m);
    assert UpInv(c, s, h, u);
    InsertOk(s, h, BucketOf(c, j % 3, KeyOf(c, u, j)), x, u, j);
    SameStructure(Insert(s, BucketOf(c, j % 3, KeyOf(c, u, j)), x), h', s');
    forall k: int | Live(s', u, k) ensures Here(c, s', h', u, k) {
      if k < j { assert Live(s, u, k) && Here(c, s, h, u, k); }
    }
    forall y: int | Linked(s', y) ensures Owned(s', h', y) {
      if y != x { assert Linked(s, y) && Owned(s, h, y); }
    }
    Finish(c, s, h, s', h', u);
  }

  /** A batch is its moves, one after another. */
  lemma {:induction false} MoveAllKept(c: Config, s: State, h: Past, u: int, j: int, ids: seq<int>)
    requires ValidConfig(c) && Inv(c, s, h) && 0 <= u < |s.up| && s.up[u].phase.Rotate? && 0 <= j && j + |ids| <= KeyCount(c) && Fresh(s, ids)
    ensures var s' := MoveAll(c, s, u, j, ids); Inv(c, s', RecordAll(h, u, j, ids)) && s'.up[u].phase == s.up[u].phase
    decreases |ids|
  {
    if ids != [] {
      MoveOneKept(c, s, h, u, j, ids[0]);
      var s1 := MoveOne(c, s, u, j, ids[0]);
      assert forall i :: 0 <= i < |ids[1..]| ==> ids[1..][i] == ids[i + 1];
      MoveAllKept(c, s1, Record(h, u, j, ids[0]), u, j + 1, ids[1..]);
    }
  }

  /** A change of phase that drains nothing. */
  lemma PhaseKept(c: Config, s: State, h: Past, u: int, p: Phase)
    requires ValidConfig(c) && Inv(c, s, h) && 0 <= u < |s.up|
    requires var up := s.up[u].(phase := p); FirstLeft(up) == FirstLeft(s.up[u]) && UpInv(c, Put(s, u, up), h, u)
    ensures Inv(c, Put(s, u, s.up[u].(phase := p)), h)
  {
    var s' := Put(s, u, s.up[u].(phase := p));
    SameStructure(s, h, s');
    forall k: int | Live(s', u, k) ensures Here(c, s', h, u, k) { assert Live(s, u, k) && Here(c, s, h, u, k); }
    forall y: int | Linked(s', y) ensures Owned(s', h, y) { assert Linked(s, y) && Owned(s, h, y); }
    Finish(c, s, h, s', h, u);
  }

  lemma CommitKept(c: Config, s: State, h: Past, u: int, j: int, ids: seq<int>, next: int, s': State, h': Past)
    requires ValidConfig(c) && Inv(c, s, h) && 0 <= u < |s.up| && s.up[u].phase == Rotate(j) && |ids| == Batch(c, j) && Fresh(s, ids)
    requires 0 <= next < KeyCount(c) && h' == RecordAll(h, u, j, ids)
    requires var r := MoveAll(c, s, u, j, ids); s' == Put(r, u, r.up[u].(phase := Rotate(next)))
    ensures Inv(c, s', h')
  {
    assert UpInv(c, s, h, u);
    MoveAllKept(c, s, h, u, j, ids);
    var r := MoveAll(c, s, u, j, ids);
    assert UpInv(c, r, h', u);
    PhaseKept(c, r, h', u, Rotate(next));
  }

  lemma RotateKept(c: Config, s: State, h: Past, m: Move, s': State, h': Past)
    requires ValidConfig(c) && Inv(c, s, h) && Enabled(c, s, m) && s.up[m.u].phase.Rotate? && RotatesTo(c, s, h, m, s', h')
    ensures Inv(c, s', h')
  {
    var j := s.up[m.u].phase.j;
    assert UpInv(c, s, h, m.u);
    if j == 0 && m.stop {
      PhaseKept(c, s, h, m.u, Walk(0, 0));
    } else {
      CommitKept(c, s, h, m.u, j, m.ids, if j + |m.ids| < KeyCount(c) then j + |m.ids| else 0, s', h');
    }
  }

  /** A rotating updater stops or commits its next batch. */
  ghost predicate RotatesTo(c: Config, s: State, h: Past, m: Move, s': State, h': Past)
    requires ValidConfig(c) && Enabled(c, s, m) && s.up[m.u].phase.Rotate?
  {
    var u, up, j := m.u, s.up[m.u], s.up[m.u].phase.j;
    if j == 0 && m.stop then s' == Put(s, u, up.(phase := Walk(0, 0))) && h' == h
    else
      var r := MoveAll(c, s, u, j, m.ids);
      && s' == Put(r, u, r.up[u].(phase := Rotate(if j + |m.ids| < KeyCount(c) then j + |m.ids| else 0)))
      && h' == RecordAll(h, u, j, m.ids)
  }

  lemma RotateIs(c: Config, s: State, h: Past, m: Move)
    requires ValidConfig(c) && Enabled(c, s, m) && s.up[m.u].phase.Rotate?
    ensures RotatesTo(c, s, h, m, Step(c, s, m), StepPast(c, s, h, m))
  {
  }

  /** The walk never runs past the node it looks for. */
  lemma WalkFinds(c: Config, s: State, h: Past, u: int)
    requires ValidConfig(c) && Inv(c, s, h) && 0 <= u < |s.up| && s.up[u].phase.Walk? && 0 <= s.up[u].phase.j < |s.up[u].cur|
    ensures var up := s.up[u];
            && up.phase.j < |up.tab|
            && var q := NextOf(s, BucketOf(c, up.tab[up.phase.j], KeyOf(c, u, up.phase.j)), up.phase.at);
               && q != 0 && (q == up.cur[up.phase.j] || Behind(c, s, h, u, up.phase.j, q))
               && (up.phase.at != 0 ==> q in h.stamp && up.phase.at in h.stamp && h.stamp[q] < h.stamp[up.phase.at])
  {
    var up := s.up[u];
    var j, at, n := up.phase.j, up.phase.at, up.cur[up.phase.j];
    assert UpInv(c, s, h, u) && Live(s, u, j) && Here(c, s, h, u, j);
    var b := s.place[n];
    assert ChainInv(s, h, b);
    if at == 0 {
      var ch := s.chains[b];
      var i :| 0 <= i < |ch| && ch[i] == n;
      assert ch[0] in ch;
    } else if Linked(s, at) {
      AfterIs(h.stamp, s.chains[b], at, n);
    } else {
      assert LeadsOn(s, h, at) && Linked(s, n);
      assert Between(s, h, n, s.frozen[at], at);
    }
  }

  lemma WalkKept(c: Config, s: State, h: Past, m: Move)
    requires ValidConfig(c) && Inv(c, s, h) && Enabled(c, s, m) && s.up[m.u].phase.Walk?
    ensures Inv(c, Step(c, s, m), StepPast(c, s, h, m))
  {
    var u, up := m.u, s.up[m.u];
    assert UpInv(c, s, h, u);
    if up.phase.j >= |up.cur| {
      PhaseKept(c, s, h, u, Done);
    } else {
      WalkFinds(c, s, h, u);
      var q := NextOf(s, BucketOf(c, up.tab[up.phase.j], KeyOf(c, u, up.phase.j)), up.phase.at);
      PhaseKept(c, s, h, u, if q == up.cur[up.phase.j] then Drop(up.phase.j) else Walk(up.phase.j, q));
    }
  }

  lemma DropKept(c: Config, s: State, h: Past, m: Move)
    requires ValidConfig(c) && Inv(c, s, h) && Enabled(c, s, m) && s.up[m.u].phase.Drop?
    ensures Inv(c, Step(c, s, m), StepPast(c, s, h, m))
  {
    var u, j := m.u, s.up[m.u].phase.j;
    assert UpInv(c, s, h, u) && Live(s, u, j) && Here(c, s, h, u, j);
    var x, s' := s.up[u].cur[j], Step(c, s, m);
    DeleteOk(s, h, x);
    SameStructure(Delete(s, x), h, s');
    forall k: int | Live(s', u, k) ensures Here(c, s', h, u, k) { assert Live(s, u, k) && Here(c, s, h, u, k); }
    forall y: int | Linked(s', y) ensures Owned(s', h, y) { assert Linked(s, y) && Owned(s, h, y); }
    Finish(c, s, h, s', h, u);
  }

  /** The invariant holds after every schedule. */
  lemma {:induction false} Invariant(c: Config, sched: seq<Move>)
    requires ValidConfig(c)
    ensures Inv(c, Exec(c, sched), History(c, sched))
  {
    if sched != [] {
      var before, m := sched[..|sched| - 1], sched[|sched| - 1];
      Invariant(c, before);
      var s, h := Exec(c, before), History(c, before);
      if Enabled(c, s, m) {
        match s.up[m.u].phase
        case Fill => FillKept(c, s, h, m);
        case Rotate(_) =>
          RotateIs(c, s, h, m);
          RotateKept(c, s, h, m, Step(c, s, m), StepPast(c, s, h, m));
        case Walk(_, _) => WalkKept(c, s, h, m);
        case Drop(_) => DropKept(c, s, h, m);
        case Done =>
      }
    }
  }
}
