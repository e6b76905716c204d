/** What every run of the namespace benchmark keeps, and what its census proves. */
module NamespaceTheorems {
  import Slots
  import opened Namespace

  // ---- the invariant ------------------------------------------------------

  /** Leaf g is where its owner recorded it, and carries the recorded object of the same owner. */
  ghost predicate LeafInv(c: Config, s: State, g: Leaf) {
    && Known(s, g) && 0 <= s.dir[g] < c.ndirs
    && IsLeaf(c, s.who[g]) && s.who[g].w == g.w
    && Path(s, g) in s.ns && s.ns[Path(s, g)] == Positive(s.who[g])
  }

  /** Which leaf carries an object: follows the exchanges. */
  ghost function Carriers(c: Config, sched: seq<Move>): map<Leaf, Leaf>
    requires Accepted(c)
  {
    if sched == [] then map g: Leaf | g in Leaves(c) :: g
    else
      var before, m := sched[..|sched| - 1], sched[|sched| - 1];
      var s, at := Exec(c, before), Carriers(c, before);
      if m.Swap? && Enabled(c, s, m) then
        var o := Partner(c, m.g, m.draw);
        at[s.who[m.g] := o][s.who[o] := m.g]
      else at
  }

  /** Following `to` and then `back` from x leads to x. */
  predicate Returns(c: Config, to: map<Leaf, Leaf>, back: map<Leaf, Leaf>, x: Leaf) {
    x in to && IsLeaf(c, to[x]) && to[x] in back && back[to[x]] == x
  }

  /** Objects are a permutation of the leaves. */
  ghost predicate Permuted(c: Config, who: map<Leaf, Leaf>, at: map<Leaf, Leaf>) {
    && (forall g: Leaf {:trigger Returns(c, who, at, g)} :: IsLeaf(c, g) ==> Returns(c, who, at, g))
    && (forall o: Leaf {:trigger Returns(c, at, who, o)} :: IsLeaf(c, o) ==> Returns(c, at, who, o))
  }

  ghost predicate Inv(c: Config, s: State, at: map<Leaf, Leaf>) {
    && s.errs == 0 && Permuted(c, s.who, at)
    && (forall g: Leaf {:trigger LeafInv(c, s, g)} :: IsLeaf(c, g) ==> LeafInv(c, s, g))
    && (forall p: Name :: IsPositive(s.ns, p) ==> NoOther(c, s, p))
  }

  /** Name p is what its leaf's owner recorded. */
  predicate NoOther(c: Config, s: State, p: Name) {
    IsLeaf(c, p.leaf) && Known(s, p.leaf) && p == Path(s, p.leaf)
  }

  /** Leaf g takes another of its names. */
  ghost predicate Renames(c: Config, s: State, s': State, g: Leaf, to: Name) {
    && IsLeaf(c, g) && Known(s, g) && Known(s', g) && to.leaf == g && to != Path(s, g) && Path(s', g) == to && 0 <= to.dir < c.ndirs
    && Path(s, g) in s.ns && s'.ns == (s.ns - {Path(s, g)})[to := s.ns[Path(s, g)]]
    && s'.who == s.who && s'.errs == s.errs
    && (forall o: Leaf :: o != g && Known(s, o) ==> Known(s', o) && Path(s', o) == Path(s, o))
  }

  lemma RenamesKept(c: Config, s: State, at: map<Leaf, Leaf>, s': State, g: Leaf, to: Name)
    requires Inv(c, s, at) && Renames(c, s, s', g, to)
    ensures Inv(c, s', at)
  {
    assert LeafInv(c, s, g);
    forall o: Leaf | IsLeaf(c, o) ensures LeafInv(c, s', o) {
      assert LeafInv(c, s, o);
    }
    forall p: Name | IsPositive(s'.ns, p) ensures NoOther(c, s', p) {
      if p != to { assert IsPositive(s.ns, p) && NoOther(c, s, p); }
    }
  }

  lemma FileMoveKept(c: Config, s: State, at: map<Leaf, Leaf>, m: Move)
    requires Accepted(c) && Inv(c, s, at) && Enabled(c, s, m) && m.FileMove?
    ensures Inv(c, Step(c, s, m), at)
  {
    assert LeafInv(c, s, m.g);
    TargetDiffers(c.ndirs, s.dir[m.g]);
    var to := Name(Target(c.ndirs, s.dir[m.g], m.draw), m.g, s.alt[m.g]);
    assert IsPositive(s.ns, to) ==> NoOther(c, s, to);
    RenamesKept(c, s, at, Step(c, s, m), m.g, to);
  }

  lemma FlipKept(c: Config, s: State, at: map<Leaf, Leaf>, m: Move)
    requires Accepted(c) && Inv(c, s, at) && Enabled(c, s, m) && m.Flip?
    ensures Inv(c, Step(c, s, m), at)
  {
    assert LeafInv(c, s, m.g);
    var to := Name(s.dir[m.g], m.g, !s.alt[m.g]);
    assert IsPositive(s.ns, to) ==> NoOther(c, s, to);
    RenamesKept(c, s, at, Step(c, s, m), m.g, to);
  }

  lemma SwapPermutes(c: Config, who: map<Leaf, Leaf>, at: map<Leaf, Leaf>, g: Leaf, o: Leaf)
    requires Permuted(c, who, at) && IsLeaf(c, g) && IsLeaf(c, o) && g in who && o in who && g != o
    ensures Permuted(c, who[g := who[o]][o := who[g]], at[who[g] := o][who[o] := g])
  {
    var who', at' := who[g := who[o]][o := who[g]], at[who[g] := o][who[o] := g];
    assert Returns(c, who, at, g) && Returns(c, who, at, o);
    forall k: Leaf | IsLeaf(c, k) ensures Returns(c, who', at', k) { assert Returns(c, who, at, k); }
    forall k: Leaf | IsLeaf(c, k) ensures Returns(c, at', who', k) { assert Returns(c, at, who, k); }
  }

  lemma SwapKept(c: Config, s: State, at: map<Leaf, Leaf>, m: Move)
    requires Accepted(c) && Inv(c, s, at) && Enabled(c, s, m) && m.Swap?
    ensures var o := Partner(c, m.g, m.draw); Inv(c, Step(c, s, m), at[s.who[m.g] := o][s.who[o] := m.g])
  {
    var g, o := m.g, Partner(c, m.g, m.draw);
    TargetDiffers(c.leaves, g.j);
    assert IsLeaf(c, o) && o != g && LeafInv(c, s, g) && LeafInv(c, s, o);
    SwapPermutes(c, s.who, at, g, o);
    SwapLeaves(c, s, at, Step(c, s, m), g, o);
  }

  ghost predicate Swaps(s: State, s': State, g: Leaf, o: Leaf) {
    && g != o && g.w == o.w && Known(s, g) && Known(s, o) && Path(s, g) in s.ns && Path(s, o) in s.ns
    && s'.ns == s.ns[Path(s, g) := s.ns[Path(s, o)]][Path(s, o) := s.ns[Path(s, g)]]
    && s'.who == s.who[g := s.who[o]][o := s.who[g]] && s'.dir == s.dir && s'.alt == s.alt && s'.errs == s.errs
  }

  lemma SwapLeaf(c: Config, s: State, s': State, g: Leaf, o: Leaf, k: Leaf)
    requires Swaps(s, s', g, o) && LeafInv(c, s, g) && LeafInv(c, s, o) && LeafInv(c, s, k)
    ensures LeafInv(c, s', k)
  {
    assert Path(s', k) == Path(s, k) && Path(s, k).leaf == k;
  }

  lemma SwapLeaves(c: Config, s: State, at: map<Leaf, Leaf>, s': State, g: Leaf, o: Leaf)
    requires Inv(c, s, at) && IsLeaf(c, g) && IsLeaf(c, o) && Swaps(s, s', g, o)
    requires Permuted(c, s'.who, at[s.who[g] := o][s.who[o] := g])
    ensures Inv(c, s', at[s.who[g] := o][s.who[o] := g])
  {
    assert LeafInv(c, s, g) && LeafInv(c, s, o);
    forall k: Leaf | IsLeaf(c, k) ensures LeafInv(c, s', k) {
      assert LeafInv(c, s, k);
      SwapLeaf(c, s, s', g, o, k);
    }
    forall p: Name | IsPositive(s'.ns, p) ensures NoOther(c, s', p) {
      assert IsPositive(s.ns, p) && NoOther(c, s, p);
    }
  }

  lemma CacheKept(c: Config, s: State, at: map<Leaf, Leaf>, m: Move)
    requires Accepted(c) && Inv(c, s, at) && m.Cache?
    ensures Inv(c, Step(c, s, m), at)
  {
    var s' := Step(c, s, m);
    forall g: Leaf | IsLeaf(c, g) ensures LeafInv(c, s', g) { assert LeafInv(c, s, g); }
    forall p: Name | IsPositive(s'.ns, p) ensures NoOther(c, s', p) { assert IsPositive(s.ns, p) && NoOther(c, s, p); }
  }

  lemma InLeaves(c: Config, g: Leaf)
    ensures g in Leaves(c) <==> IsLeaf(c, g)
  {
  }

  lemma SeedInv(c: Config)
    requires Accepted(c)
    ensures Inv(c, Seed(c), Carriers(c, []))
  {
    var s := Seed(c);
    forall g: Leaf ensures g in Leaves(c) <==> IsLeaf(c, g) { InLeaves(c, g); }
    var at := Carriers(c, []);
    forall g: Leaf | IsLeaf(c, g) ensures LeafInv(c, s, g) && Returns(c, s.who, at, g) && Returns(c, at, s.who, g) { }
    forall p: Name | IsPositive(s.ns, p) ensures NoOther(c, s, p) { }
  }

  lemma {:induction false} Invariant(c: Config, sched: seq<Move>)
    requires Accepted(c)
    ensures Inv(c, Exec(c, sched), Carriers(c, sched))
  {
    if sched == [] {
      SeedInv(c);
    } else {
      var before, m := sched[..|sched| - 1], sched[|sched| - 1];
      Invariant(c, before);
      var s, at := Exec(c, before), Carriers(c, before);
      if Enabled(c, s, m) {
        match m
        case FileMove(_, _) => FileMoveKept(c, s, at, m);
        case Flip(_) => FlipKept(c, s, at, m);
        case Swap(_, _) => SwapKept(c, s, at, m);
        case Cache(_) => CacheKept(c, s, at, m);
      }
    }
  }

  // ---- what that means ----------------------------------------------------

  /** No owner's rename, flip or exchange ever fails. */
  lemma NoMutationFails(c: Config, sched: seq<Move>)
    requires Accepted(c)
    ensures Exec(c, sched).errs == 0
  {
    Invariant(c, sched);
  }

  /** The first file move of an owner with a single directory. */
  lemma OneDirectoryFails(c: Config)
    requires ValidConfig(c) && c.ndirs == 1 && c.owners >= 1
    ensures Exec(c, [FileMove(Leaf(0, 0), 0)]).errs == 1
  {
    var g, s := Leaf(0, 0), Seed(c);
    InLeaves(c, g);
    Slots.SmallRest(0, 1);
    assert IdOf(c, g) == 0 && Path(s, g) == Name(0, g, false) && IsPositive(s.ns, Name(0, g, false));
    assert [FileMove(g, 0)][..0] == [];
    assert Exec(c, [FileMove(g, 0)]) == Step(c, s, FileMove(g, 0));
  }

  lemma {:induction false} NoOwners(c: Config, sched: seq<Move>)
    requires ValidConfig(c) && c.owners == 0
    ensures Exec(c, sched).errs == 0
  {
    if sched != [] { NoOwners(c, sched[..|sched| - 1]); }
  }

  /** A mutation can fail if and only if there is an owner and only one directory. */
  lemma FailsIff(c: Config)
    requires ValidConfig(c)
    ensures (exists sched :: Exec(c, sched).errs != 0) <==> c.ndirs == 1 && c.owners >= 1
  {
    if c.ndirs == 1 && c.owners >= 1 {
      OneDirectoryFails(c);
    } else {
      forall sched ensures Exec(c, sched).errs == 0 {
        if c.ndirs >= 2 { NoMutationFails(c, sched); } else { NoOwners(c, sched); }
      }
    }
  }

  /** A positive lookup of any name of leaf g, at any instant, yields an id in g's owner's range. */
  lemma LookupInRange(c: Config, sched: seq<Move>, p: Name)
    requires Accepted(c) && IsPositive(Exec(c, sched).ns, p)
    ensures IsLeaf(c, p.leaf)
    ensures var id, ownerBase := IdOf(c, Exec(c, sched).ns[p].obj), IdOf(c, p.leaf) / c.leaves * c.leaves;
            ownerBase <= id < ownerBase + c.leaves
  {
    Invariant(c, sched);
    assert NoOther(c, Exec(c, sched), p) && LeafInv(c, Exec(c, sched), p.leaf);
    OwnerBase(c, p.leaf);
  }

  lemma OwnerBase(c: Config, g: Leaf)
    requires c.leaves >= 1 && IsLeaf(c, g)
    ensures IdOf(c, g) / c.leaves == g.w
  {
    var id := IdOf(c, g);
    Slots.OneQuotient(c.leaves, g.j, g.w, id % c.leaves, id / c.leaves);
  }

  /** Different leaves have different numbers, from 0 to their count less one. */
  lemma IdsDistinct(c: Config, g: Leaf, o: Leaf)
    requires c.leaves >= 1 && IsLeaf(c, g) && IsLeaf(c, o) && IdOf(c, g) == IdOf(c, o)
    ensures g == o
  {
    Slots.OneQuotient(c.leaves, g.j, g.w, o.j, o.w);
  }

  /** Every object is in the namespace under exactly one name, the one its carrier's owner recorded. */
  lemma EachObjectOnce(c: Config, sched: seq<Move>, o: Leaf) returns (g: Leaf)
    requires Accepted(c) && IsLeaf(c, o)
    ensures var s := Exec(c, sched);
            && IsLeaf(c, g) && Known(s, g) && s.who[g] == o && Path(s, g) in s.ns && s.ns[Path(s, g)] == Positive(o)
            && forall p: Name :: IsPositive(s.ns, p) && s.ns[p].obj == o ==> p == Path(s, g)
  {
    Invariant(c, sched);
    var s := Exec(c, sched);
    var at := Carriers(c, sched);
    assert Returns(c, at, s.who, o);
    g := at[o];
    assert LeafInv(c, s, g);
    forall p: Name | IsPositive(s.ns, p) && s.ns[p].obj == o ensures p == Path(s, g) {
      assert NoOther(c, s, p) && LeafInv(c, s, p.leaf) && Returns(c, s.who, at, p.leaf);
    }
  }

  // ---- the census ---------------------------------------------------------

  const DIR_ID_BASE: int := 1000000

  function Count(ids: seq<int>, x: int): int { multiset(ids)[x] }

  /** What the census has in its byte for number x: directories are not counted, and bytes wrap. */
  function SeenByte(ids: seq<int>, x: int): int { if x < DIR_ID_BASE then Count(ids, x) % 256 else 0 }

  /** What census_cb adds up over a walk. */
  method Census(ids: seq<int>, total: int) returns (seen: seq<int>, stray: int)
    requires total >= 0 && forall i :: 0 <= i < |ids| ==> ids[i] >= 0
    ensures |seen| == total
    ensures forall x :: 0 <= x < total ==> seen[x] == SeenByte(ids, x)
    ensures stray >= 0 && (stray == 0 <==> NoStray(ids, total))
  {
    var table := new int[total](_ => 0);
    stray := 0;
    var i := 0;
    assert ids[..0] == [];
    while i < |ids|
      invariant 0 <= i <= |ids| && Tally(ids[..i], table[..], stray)
    {
      var id := ids[i];
      TallyStep(ids, i, table[..], stray);
      if id >= DIR_ID_BASE {
      } else if id >= total {
        stray := stray + 1;
      } else {
        ghost var was := table[..];
        if table[id] != 0 { stray := stray + 1; }
        table[id] := (table[id] + 1) % 256;
        assert table[..] == was[id := (was[id] + 1) % 256];
      }
      i := i + 1;
    }
    assert ids[..i] == ids;
    seen := table[..];
  }

  /** The counters are right for what has been met. */
  ghost predicate Tally(met: seq<int>, seen: seq<int>, stray: int) {
    && (forall x :: 0 <= x < |seen| ==> seen[x] == SeenByte(met, x))
    && stray >= 0 && (stray == 0 <==> NoStray(met, |seen|))
  }

  lemma TallyStep(ids: seq<int>, i: int, seen: seq<int>, stray: int)
    requires 0 <= i < |ids| && ids[i] >= 0 && Tally(ids[..i], seen, stray)
    ensures var id := ids[i];
            if id >= DIR_ID_BASE then Tally(ids[..i + 1], seen, stray)
            else if id >= |seen| then Tally(ids[..i + 1], seen, stray + 1)
            else Tally(ids[..i + 1], seen[id := (seen[id] + 1) % 256], if seen[id] != 0 then stray + 1 else stray)
  {
    StrayStep(ids, i, |seen|);
    forall x: int { CountStep(ids, i, x); }
    assert ids[i] < DIR_ID_BASE && ids[i] < |seen| && stray == 0 ==> Count(ids[..i], ids[i]) <= 1;
  }

  /** Every leaf number below the directories' is in range and occurs at most once. */
  ghost predicate NoStray(ids: seq<int>, total: int) {
    forall x: int {:trigger Count(ids, x)} :: 0 <= x < DIR_ID_BASE ==> Count(ids, x) <= if x < total then 1 else 0
  }

  lemma CountStep(ids: seq<int>, i: int, x: int)
    requires 0 <= i < |ids|
    ensures Count(ids[..i + 1], x) == Count(ids[..i], x) + (if ids[i] == x then 1 else 0) && Count(ids[..i], x) >= 0
  {
    assert ids[..i + 1] == ids[..i] + [ids[i]];
  }

  lemma StrayStep(ids: seq<int>, i: int, total: int)
    requires 0 <= i < |ids| && ids[i] >= 0
    ensures NoStray(ids[..i + 1], total) <==>
              NoStray(ids[..i], total) && (ids[i] >= DIR_ID_BASE || (ids[i] < total && Count(ids[..i], ids[i]) == 0))
  {
    var was, now, y := ids[..i], ids[..i + 1], ids[i];
    forall x: int ensures Count(now, x) == Count(was, x) + (if y == x then 1 else 0) && Count(was, x) >= 0 {
      CountStep(ids, i, x);
    }
    if NoStray(now, total) {
      forall x: int | 0 <= x < DIR_ID_BASE ensures Count(was, x) <= if x < total then 1 else 0 {
        assert Count(now, x) <= if x < total then 1 else 0;
      }
      assert y < DIR_ID_BASE ==> Count(now, y) <= if y < total then 1 else 0;
    }
  }

  /** The objects' numbers in the order in which a walk of the tree meets their names. */
  function Ids(c: Config, ns: map<Name, Entry>, walk: seq<Name>): seq<int> {
    if walk == [] then [] else Ids(c, ns, walk[..|walk| - 1]) + [Number(c, ns, walk[|walk| - 1])]
  }

  function Number(c: Config, ns: map<Name, Entry>, p: Name): int {
    if IsPositive(ns, p) then IdOf(c, ns[p].obj) else DIR_ID_BASE
  }

  /** If only the name p0 can have number x, the walk meets x as often as p0. */
  lemma {:induction false} MeetsOnce(c: Config, ns: map<Name, Entry>, walk: seq<Name>, x: int, p0: Name)
    requires forall i, j :: 0 <= i < j < |walk| ==> walk[i] != walk[j]
    requires forall i :: 0 <= i < |walk| ==> (Number(c, ns, walk[i]) == x <==> walk[i] == p0)
    ensures Count(Ids(c, ns, walk), x) == if p0 in walk then 1 else 0
  {
    if walk != [] {
      var most, last := walk[..|walk| - 1], walk[|walk| - 1];
      MeetsOnce(c, ns, most, x, p0);
      assert walk == most + [last];
    }
  }

  /** The walk meets every number from 0 to the count of leaves less one exactly once, and no other. */
  lemma WalkMeets(c: Config, sched: seq<Move>, walk: seq<Name>, x: int)
    requires Accepted(c)
    requires forall p: Name :: p in walk <==> IsPositive(Exec(c, sched).ns, p)
    requires forall i, j :: 0 <= i < j < |walk| ==> walk[i] != walk[j]
    ensures Count(Ids(c, Exec(c, sched).ns, walk), x) == if 0 <= x < c.owners * c.leaves then 1 else 0
  {
    Invariant(c, sched);
    var s := Exec(c, sched);
    assert forall i :: 0 <= i < |walk| ==> walk[i] in walk;
    if 0 <= x < c.owners * c.leaves {
      var o := Leaf(x / c.leaves, x % c.leaves);
      LeafOf(c, x);
      var g := EachObjectOnce(c, sched, o);
      forall i | 0 <= i < |walk| ensures Number(c, s.ns, walk[i]) == x <==> walk[i] == Path(s, g) {
        assert NoOther(c, s, walk[i]) && LeafInv(c, s, walk[i].leaf);
        if Number(c, s.ns, walk[i]) == x { IdsDistinct(c, s.ns[walk[i]].obj, o); }
      }
      MeetsOnce(c, s.ns, walk, x, Path(s, g));
    } else {
      var nowhere := Name(-1, Leaf(-1, -1), false);
      forall i | 0 <= i < |walk| ensures Number(c, s.ns, walk[i]) != x && walk[i] != nowhere {
        assert NoOther(c, s, walk[i]) && LeafInv(c, s, walk[i].leaf);
        IdInRange(c, s.ns[walk[i]].obj);
      }
      MeetsOnce(c, s.ns, walk, x, nowhere);
    }
  }

  lemma LeafOf(c: Config, x: int)
    requires c.leaves >= 1 && 0 <= x < c.owners * c.leaves
    ensures IsLeaf(c, Leaf(x / c.leaves, x % c.leaves)) && IdOf(c, Leaf(x / c.leaves, x % c.leaves)) == x
  {
    var w := x / c.leaves;
    assert x == w * c.leaves + x % c.leaves;
    if w >= c.owners && w > c.owners { Slots.SlotGrows(0, c.leaves, c.owners, w); }
  }

  lemma IdInRange(c: Config, g: Leaf)
    requires c.leaves >= 1 && IsLeaf(c, g)
    ensures 0 <= IdOf(c, g) < c.owners * c.leaves
  {
    Slots.SlotBelow(c.leaves, g.j, g.w, c.owners);
    if g.w > 0 { Slots.SlotGrows(0, c.leaves, 0, g.w); }
    Slots.SlotStep(0, c.leaves, 0);
  }

  /**
   The census: a walk of the tree that meets every positive name once, and directories
   among them in any order, leaves no stray and exactly one sighting of every number, if
   and only if there are no more leaves than numbers below the directories'.
   */
  lemma CensusPassesIff(c: Config, sched: seq<Move>, walk: seq<Name>, dirs: seq<int>, ids: seq<int>)
    requires Accepted(c)
    requires forall p: Name :: p in walk <==> IsPositive(Exec(c, sched).ns, p)
    requires forall i, j :: 0 <= i < j < |walk| ==> walk[i] != walk[j]
    requires forall d: int :: d in dirs ==> d >= DIR_ID_BASE
    requires multiset(ids) == multiset(Ids(c, Exec(c, sched).ns, walk)) + multiset(dirs)
    ensures var total := c.owners * c.leaves;
            (NoStray(ids, total) && forall x :: 0 <= x < total ==> SeenByte(ids, x) == 1) <==> total <= DIR_ID_BASE
  {
    var total := c.owners * c.leaves;
    forall x: int | x < DIR_ID_BASE ensures Count(ids, x) == if 0 <= x < total then 1 else 0 {
      CensusCount(c, sched, walk, dirs, ids, x);
    }
    PassesIff(ids, total);
  }

  lemma PassesIff(ids: seq<int>, total: int)
    requires forall x: int {:trigger Count(ids, x)} :: x < DIR_ID_BASE ==> Count(ids, x) == if 0 <= x < total then 1 else 0
    ensures (NoStray(ids, total) && forall x :: 0 <= x < total ==> SeenByte(ids, x) == 1) <==> total <= DIR_ID_BASE
  {
    assert SeenByte(ids, DIR_ID_BASE) == 0;
    forall x | 0 <= x < total && x < DIR_ID_BASE ensures SeenByte(ids, x) == 1 {
      assert Count(ids, x) == 1;
    }
  }

  lemma CensusCount(c: Config, sched: seq<Move>, walk: seq<Name>, dirs: seq<int>, ids: seq<int>, x: int)
    requires Accepted(c)
    requires forall p: Name :: p in walk <==> IsPositive(Exec(c, sched).ns, p)
    requires forall i, j :: 0 <= i < j < |walk| ==> walk[i] != walk[j]
    requires forall d: int :: d in dirs ==> d >= DIR_ID_BASE
    requires multiset(ids) == multiset(Ids(c, Exec(c, sched).ns, walk)) + multiset(dirs) && x < DIR_ID_BASE
    ensures Count(ids, x) == if 0 <= x < c.owners * c.leaves then 1 else 0
  {
    WalkMeets(c, sched, walk, x);
    assert x !in dirs && multiset(dirs)[x] == 0;
  }
}
