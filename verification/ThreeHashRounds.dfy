/** Where the three-hash rotation takes every key, and that the drain comes to an end. */
module ThreeHashRounds {
  import opened ThreeHash
  import opened ThreeHashInvariant
  import opened ThreeHashTheorems
  import Slots

  lemma Then(c: Config, sched: seq<Move>, m: Move)
    requires ValidConfig(c)
    ensures Exec(c, sched + [m]) == Step(c, Exec(c, sched), m)
    ensures !Exec(c, sched).fault && !Exec(c, sched + [m]).fault
  {
    assert (sched + [m])[..|sched|] == sched;
    NoKeyLost(c, sched);
    NoKeyLost(c, sched + [m]);
  }

  // ---- the rotation -------------------------------------------------------

  /** Updater u commits the next moves of a rotation. */
  predicate Commits(c: Config, s: State, m: Move, u: int) {
    Enabled(c, s, m) && m.u == u && s.up[u].phase.Rotate? && !(s.up[u].phase.j == 0 && m.stop)
  }

  /** How many moves updater u has committed. */
  ghost function Moved(c: Config, sched: seq<Move>, u: int): nat
    requires ValidConfig(c)
  {
    if sched == [] then 0
    else
      var before, m := sched[..|sched| - 1], sched[|sched| - 1];
      Moved(c, before, u) + if Commits(c, Exec(c, before), m, u) then |m.ids| else 0
  }

  /** How many of m moves in turn are moves of key j, out of n keys. */
  function Rounds(n: int, m: int, j: int): int
    requires n >= 1
  {
    m / n + if j < m % n then 1 else 0
  }

  lemma RoundsStep(n: int, m: int, k: int, j: int)
    requires n >= 1 && m >= 0 && 0 <= k && m % n + k <= n && 0 <= j < n
    ensures Rounds(n, m + k, j) == Rounds(n, m, j) + if m % n <= j < m % n + k then 1 else 0
    ensures (m + k) % n == if m % n + k < n then m % n + k else 0
  {
    var q, r := m / n, m % n;
    Slots.SlotsPartition(n, m);
    Slots.SlotsPartition(n, m + k);
    if r + k < n {
      Slots.OneQuotient(n, r + k, q, (m + k) % n, (m + k) / n);
    } else {
      Slots.SlotStep(0, n, q);
      Slots.OneQuotient(n, 0, q + 1, (m + k) % n, (m + k) / n);
    }
  }

  lemma NextIs(x: int)
    requires x >= 0
    ensures NextTable(x % 3) == (x + 1) % 3
  {
  }

  lemma MoveOneTab(c: Config, s: State, u: int, j: int, x: int)
    requires ValidConfig(c) && 0 <= u < |s.up| && 0 <= j < |s.up[u].cur| && j < |s.up[u].tab|
    ensures var s', up := MoveOne(c, s, u, j, x), s.up[u];
            s'.up == s.up[u := up.(cur := up.cur[j := x], tab := up.tab[j := NextTable(up.tab[j])])]
  {
  }

  /** Only the keys of the commit change tables, each to the next one. */
  lemma {:induction false} MoveAllTab(c: Config, s: State, u: int, j: int, ids: seq<int>)
    requires ValidConfig(c) && 0 <= u < |s.up| && 0 <= j && j + |ids| <= |s.up[u].cur| && |s.up[u].cur| == |s.up[u].tab|
    ensures var s' := MoveAll(c, s, u, j, ids);
            && (forall v :: 0 <= v < |s.up| && v != u ==> s'.up[v] == s.up[v])
            && |s'.up[u].tab| == |s.up[u].tab| && |s'.up[u].cur| == |s.up[u].cur|
            && (forall i :: 0 <= i < |s.up[u].tab| ==> s'.up[u].tab[i] == if j <= i < j + |ids| then NextTable(s.up[u].tab[i]) else s.up[u].tab[i])
    decreases |ids|
  {
    if ids != [] {
      MoveOneTab(c, s, u, j, ids[0]);
      MoveAllTab(c, MoveOne(c, s, u, j, ids[0]), u, j + 1, ids[1..]);
    }
  }

  /** What the phase of an updater says about the moves it has committed. */
  predicate PhaseOk(c: Config, up: Updater, moved: int)
    requires ValidConfig(c)
  {
    match up.phase
    case Fill => moved == 0
    case Rotate(j) => moved % KeyCount(c) == j
    case _ => moved % KeyCount(c) == 0
  }

  predicate TabOk(c: Config, up: Updater, moved: int)
    requires ValidConfig(c)
  {
    forall j {:trigger up.tab[j]} :: 0 <= j < |up.tab| ==> up.tab[j] == (j + Rounds(KeyCount(c), moved, j)) % 3
  }

  lemma KeyCountPos(c: Config)
    requires ValidConfig(c)
    ensures KeyCount(c) >= 3
  {
  }

  lemma FillRound(c: Config, s: State, h: Past, m: Move, u: int)
    requires ValidConfig(c) && Inv(c, s, h) && Enabled(c, s, m) && m.u == u && s.up[u].phase.Fill? && PhaseOk(c, s.up[u], 0) && TabOk(c, s.up[u], 0)
    ensures PhaseOk(c, Step(c, s, m).up[u], 0) && TabOk(c, Step(c, s, m).up[u], 0)
  {
    Zero(KeyCount(c));
    assert UpInv(c, s, h, u);
  }

  lemma Zero(n: int)
    requires n >= 1
    ensures 0 / n == 0 && 0 % n == 0
  {
  }

  lemma CommitShape(c: Config, s: State, m: Move, u: int)
    requires ValidConfig(c) && Commits(c, s, m, u) && 0 <= s.up[u].phase.j && s.up[u].phase.j + |m.ids| <= KeyCount(c) == |s.up[u].cur| == |s.up[u].tab|
    ensures var j, up, up' := s.up[u].phase.j, s.up[u], Step(c, s, m).up[u];
            && |up'.tab| == |up.tab| && up'.phase == Rotate(if j + |m.ids| < KeyCount(c) then j + |m.ids| else 0)
            && forall i :: 0 <= i < |up.tab| ==> up'.tab[i] == if j <= i < j + |m.ids| then NextTable(up.tab[i]) else up.tab[i]
  {
    MoveAllTab(c, s, u, s.up[u].phase.j, m.ids);
  }

  lemma CommitRound(c: Config, s: State, m: Move, u: int, moved: nat)
    requires ValidConfig(c) && Commits(c, s, m, u) && PhaseOk(c, s.up[u], moved) && TabOk(c, s.up[u], moved)
    requires 0 <= s.up[u].phase.j && s.up[u].phase.j + |m.ids| <= KeyCount(c) == |s.up[u].cur| == |s.up[u].tab|
    ensures PhaseOk(c, Step(c, s, m).up[u], moved + |m.ids|) && TabOk(c, Step(c, s, m).up[u], moved + |m.ids|)
  {
    CommitShape(c, s, m, u);
    NewPhase(c, s.up[u], Step(c, s, m).up[u], moved, |m.ids|);
    NewTabs(c, s.up[u], Step(c, s, m).up[u], moved, |m.ids|);
  }

  lemma NewPhase(c: Config, up: Updater, up': Updater, moved: nat, k: nat)
    requires ValidConfig(c) && up.phase.Rotate? && PhaseOk(c, up, moved) && 0 <= up.phase.j && up.phase.j + k <= KeyCount(c)
    requires up'.phase == Rotate(if up.phase.j + k < KeyCount(c) then up.phase.j + k else 0)
    ensures PhaseOk(c, up', moved + k)
  {
    KeyCountPos(c);
    RoundsStep(KeyCount(c), moved, k, 0);
  }

  lemma NewTabs(c: Config, up: Updater, up': Updater, moved: nat, k: nat)
    requires ValidConfig(c) && up.phase.Rotate? && PhaseOk(c, up, moved) && TabOk(c, up, moved) && |up'.tab| == |up.tab| == KeyCount(c)
    requires 0 <= up.phase.j && up.phase.j + k <= KeyCount(c)
    requires forall i :: 0 <= i < |up.tab| ==> up'.tab[i] == if up.phase.j <= i < up.phase.j + k then NextTable(up.tab[i]) else up.tab[i]
    ensures TabOk(c, up', moved + k)
  {
    TabsStep(KeyCount(c), moved, k, up.tab, up'.tab);
  }

  lemma TabsStep(n: int, m: nat, k: int, tab: seq<int>, tab': seq<int>)
    requires n >= 1 && 0 <= k && m % n + k <= n && |tab| == |tab'| <= n
    requires forall i :: 0 <= i < |tab| ==> tab[i] == (i + Rounds(n, m, i)) % 3
    requires forall i :: 0 <= i < |tab| ==> tab'[i] == if m % n <= i < m % n + k then NextTable(tab[i]) else tab[i]
    ensures forall i :: 0 <= i < |tab'| ==> tab'[i] == (i + Rounds(n, m + k, i)) % 3
  {
    forall i | 0 <= i < |tab'| ensures tab'[i] == (i + Rounds(n, m + k, i)) % 3 {
      TableStep(n, m, k, i, tab[i], tab'[i]);
    }
  }

  lemma TableStep(n: int, m: nat, k: int, i: int, t: int, t': int)
    requires n >= 1 && 0 <= k && m % n + k <= n && 0 <= i < n && t == (i + Rounds(n, m, i)) % 3
    requires t' == if m % n <= i < m % n + k then NextTable(t) else t
    ensures t' == (i + Rounds(n, m + k, i)) % 3
  {
    RoundsStep(n, m, k, i);
    RoundsPos(n, m, i);
    NextIs(i + Rounds(n, m, i));
  }

  lemma RoundsPos(n: int, m: nat, j: int)
    requires n >= 1
    ensures Rounds(n, m, j) >= 0
  {
    Slots.SlotsPartition(n, m);
  }

  lemma OtherRound(c: Config, s: State, h: Past, m: Move, u: int, moved: nat)
    requires ValidConfig(c) && Inv(c, s, h) && Enabled(c, s, m) && 0 <= u < |s.up| && !Commits(c, s, m, u) && !(m.u == u && s.up[u].phase.Fill?)
    requires PhaseOk(c, s.up[u], moved) && TabOk(c, s.up[u], moved)
    ensures PhaseOk(c, Step(c, s, m).up[u], moved) && TabOk(c, Step(c, s, m).up[u], moved)
  {
    assert UpInv(c, s, h, m.u);
    if m.u != u && s.up[m.u].phase.Rotate? { MoveAllTab(c, s, m.u, s.up[m.u].phase.j, m.ids); }
  }

  lemma {:induction false} RoundsKept(c: Config, sched: seq<Move>, u: int)
    requires ValidConfig(c) && 0 <= u < c.updaters
    ensures PhaseOk(c, Exec(c, sched).up[u], Moved(c, sched, u)) && TabOk(c, Exec(c, sched).up[u], Moved(c, sched, u))
  {
    KeyCountPos(c);
    if sched != [] {
      var before, m := sched[..|sched| - 1], sched[|sched| - 1];
      assert before + [m] == sched;
      RoundsKept(c, before, u);
      Invariant(c, before);
      Then(c, before, m);
      var s, h := Exec(c, before), History(c, before);
      if Enabled(c, s, m) {
        assert UpInv(c, s, h, u);
        if Commits(c, s, m, u) { CommitRound(c, s, m, u, Moved(c, before, u)); }
        else if m.u == u && s.up[u].phase.Fill? { FillRound(c, s, h, m, u); }
        else { OtherRound(c, s, h, m, u, Moved(c, before, u)); }
      }
    }
  }

  /**
   Where every key is: key j starts in table j mod 3, keys move in turn, and each of its
   moves takes it one table further; so while updater u owns it, it is linked in the table
   that the number of moves u has committed says.  A run stops only after whole rotations.
   */
  lemma RotationIs(c: Config, sched: seq<Move>, u: int, j: int)
    requires ValidConfig(c) && Live(Exec(c, sched), u, j)
    ensures KeyCount(c) >= 3
    ensures var s, table := Exec(c, sched), (j + Rounds(KeyCount(c), Moved(c, sched, u), j)) % 3;
            && s.up[u].cur[j] in ChainAt(s, BucketOf(c, table, KeyOf(c, u, j)))
            && (!s.up[u].phase.Fill? && !s.up[u].phase.Rotate? ==> Moved(c, sched, u) % KeyCount(c) == 0)
  {
    KeyCountPos(c);
    KeyIsLinked(c, sched, u, j);
    RoundsKept(c, sched, u);
    assert Exec(c, sched).up[u].tab[j] == (j + Rounds(KeyCount(c), Moved(c, sched, u), j)) % 3;
  }

  /** Populating links every key of the updater before the first rotation. */
  lemma Populated(c: Config, sched: seq<Move>, u: int)
    requires ValidConfig(c) && 0 <= u < c.updaters && Exec(c, sched).up[u].phase.Rotate?
    ensures forall j: int :: 0 <= j < KeyCount(c) ==> Live(Exec(c, sched), u, j)
  {
    Invariant(c, sched);
    assert UpInv(c, Exec(c, sched), History(c, sched), u);
  }

  // ---- the drain ----------------------------------------------------------

  /** After its drain, whatever a chain holds is a node of another updater. */
  lemma DrainEmpties(c: Config, sched: seq<Move>, u: int, b: Bucket, i: int) returns (v: int, j: int)
    requires ValidConfig(c) && 0 <= u < c.updaters && Exec(c, sched).up[u].phase.Done? && 0 <= i < |ChainAt(Exec(c, sched), b)|
    ensures var s := Exec(c, sched); v != u && Live(s, v, j) && s.up[v].cur[j] == ChainAt(s, b)[i]
  {
    v, j := NothingElseLinked(c, sched, b, i);
  }

  /** One step of a drain: to an older node of the chain, to the node looked for, to the next key, or to the end. */
  predicate Drains(stamp: map<int, int>, p: Phase, p': Phase, keys: int) {
    match p
    case Walk(j, at) =>
      if j >= keys then p'.Done?
      else p' == Drop(j) || (p'.Walk? && p'.j == j && p'.at in stamp && (at == 0 || (at in stamp && stamp[p'.at] < stamp[at])))
    case Drop(j) => p' == Walk(j + 1, 0)
    case _ => false
  }

  /**
   The drain comes to an end: every step of its own brings it on, since ages of nodes never
   change and are never negative, and no step of others moves it.
   */
  lemma DrainNearer(c: Config, sched: seq<Move>, m: Move, u: int)
    requires ValidConfig(c) && 0 <= u < c.updaters
    requires Exec(c, sched).up[u].phase.Walk? || Exec(c, sched).up[u].phase.Drop?
    ensures var s, s', h := Exec(c, sched), Exec(c, sched + [m]), History(c, sched);
            && (forall x: int :: x in h.stamp ==> h.stamp[x] >= 0)
            && (if Enabled(c, s, m) && m.u == u then Drains(h.stamp, s.up[u].phase, s'.up[u].phase, |s.up[u].cur|) else s'.up[u] == s.up[u])
  {
    Then(c, sched, m);
    Invariant(c, sched);
    StampsPos(c, sched);
    var s, h := Exec(c, sched), History(c, sched);
    assert UpInv(c, s, h, u);
    if Enabled(c, s, m) {
      if m.u == u {
        if s.up[u].phase.Drop? { DropDrains(c, s, h, m); } else { WalkDrains(c, s, h, m); }
      } else if s.up[m.u].phase.Rotate? {
        assert UpInv(c, s, h, m.u);
        MoveAllTab(c, s, m.u, s.up[m.u].phase.j, m.ids);
      }
    }
  }

  lemma WalkDrains(c: Config, s: State, h: Past, m: Move)
    requires ValidConfig(c) && Inv(c, s, h) && Enabled(c, s, m) && s.up[m.u].phase.Walk? && UpInv(c, s, h, m.u)
    ensures Drains(h.stamp, s.up[m.u].phase, Step(c, s, m).up[m.u].phase, |s.up[m.u].cur|)
  {
    if s.up[m.u].phase.j < |s.up[m.u].cur| { WalkFinds(c, s, h, m.u); }
  }

  lemma DropDrains(c: Config, s: State, h: Past, m: Move)
    requires ValidConfig(c) && Inv(c, s, h) && Enabled(c, s, m) && s.up[m.u].phase.Drop? && UpInv(c, s, h, m.u)
    ensures Drains(h.stamp, s.up[m.u].phase, Step(c, s, m).up[m.u].phase, |s.up[m.u].cur|)
  {
  }

  lemma {:induction false} RecordPos(h: Past, u: int, j: int, ids: seq<int>)
    requires h.clock >= 0 && forall x: int :: x in h.stamp ==> h.stamp[x] >= 0
    ensures var h' := RecordAll(h, u, j, ids); h'.clock >= 0 && forall x: int :: x in h'.stamp ==> h'.stamp[x] >= 0
    decreases |ids|
  {
    if ids != [] { RecordPos(Record(h, u, j, ids[0]), u, j + 1, ids[1..]); }
  }

  lemma {:induction false} StampsPos(c: Config, sched: seq<Move>)
    requires ValidConfig(c)
    ensures var h := History(c, sched); h.clock >= 0 && forall x: int :: x in h.stamp ==> h.stamp[x] >= 0
  {
    if sched != [] {
      var before, m := sched[..|sched| - 1], sched[|sched| - 1];
      StampsPos(c, before);
      var s := Exec(c, before);
      if Enabled(c, s, m) && s.up[m.u].phase.Rotate? { RecordPos(History(c, before), m.u, s.up[m.u].phase.j, m.ids); }
    }
  }
}
