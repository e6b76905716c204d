/**
 The namespace bookkeeping of experiments/dcache/bench_dcache.c: owners rename, flip and
 exchange their own names in one shared directory cache while readers cache absences, and
 a census at the end must find every object exactly once, where its owner recorded it.

 Every dc_* call is one atomic operation on a map from names to entries, with the errors
 its header promises.
 */
module Namespace {
  import Slots

  datatype Config = Config(owners: int, leaves: int, ndirs: int)

  predicate ValidConfig(c: Config) { c.owners >= 0 && c.leaves >= 1 && c.ndirs >= 1 }

  /** What main accepts: at least two directories. */
  predicate Accepted(c: Config) { ValidConfig(c) && c.ndirs >= 2 }

  /** Leaf j of owner w; also the object seeded under that leaf's name. */
  datatype Leaf = Leaf(w: int, j: int)

  predicate IsLeaf(c: Config, g: Leaf) { 0 <= g.w < c.owners && 0 <= g.j < c.leaves }

  /** The number that stands for a leaf or an object in the program. */
  function IdOf(c: Config, g: Leaf): int { g.w * c.leaves + g.j }

  /** One of the two names reserved for a leaf, in some directory. */
  datatype Name = Name(dir: int, leaf: Leaf, alt: bool)

  datatype Entry = Positive(obj: Leaf) | Negative

  // ---- the cache, by its contract -----------------------------------------

  datatype Code = Ok | NoEnt | Exists

  predicate IsPositive(ns: map<Name, Entry>, p: Name) { p in ns && ns[p].Positive? }

  /** dc_rename: a negative target is replaced, and the source name is then absent. */
  function RenameCode(ns: map<Name, Entry>, from: Name, to: Name): Code {
    if !IsPositive(ns, from) then NoEnt else if IsPositive(ns, to) then Exists else Ok
  }

  function Rename(ns: map<Name, Entry>, from: Name, to: Name): map<Name, Entry> {
    if RenameCode(ns, from, to).Ok? then (ns - {from})[to := ns[from]] else ns
  }

  /** dc_rename_exchange: both names must exist. */
  function ExchangeCode(ns: map<Name, Entry>, a: Name, b: Name): Code {
    if IsPositive(ns, a) && IsPositive(ns, b) then Ok else NoEnt
  }

  function Exchange(ns: map<Name, Entry>, a: Name, b: Name): map<Name, Entry> {
    if ExchangeCode(ns, a, b).Ok? then ns[a := ns[b]][b := ns[a]] else ns
  }

  function AddNegative(ns: map<Name, Entry>, p: Name): map<Name, Entry> {
    if p in ns then ns else ns[p := Negative]
  }

  // ---- owners -------------------------------------------------------------

  /** The cache, and every owner's record of its leaves: directory, name worn, object carried. */
  datatype State = State(ns: map<Name, Entry>, dir: map<Leaf, int>, alt: map<Leaf, bool>, who: map<Leaf, Leaf>, errs: int)

  datatype Move =
    | FileMove(g: Leaf, draw: int)        // to the drawn directory, or to the one after it
    | Flip(g: Leaf)                       // between the leaf's two names
    | Swap(g: Leaf, draw: int)            // with the drawn leaf of the same owner, or the one after it
    | Cache(p: Name)                      // a reader caches an absence

  /** The directory a file move goes to. */
  function Target(ndirs: int, dir: int, draw: int): int
    requires ndirs >= 1
  {
    if draw == dir then (draw + 1) % ndirs else draw
  }

  /** A move changes the directory, whatever it draws, exactly if there are two directories or more. */
  lemma TargetDiffers(ndirs: int, dir: int)
    requires ndirs >= 1 && 0 <= dir < ndirs
    ensures (forall draw :: 0 <= draw < ndirs ==> 0 <= Target(ndirs, dir, draw) < ndirs && Target(ndirs, dir, draw) != dir) <==> ndirs >= 2
  {
    if ndirs == 1 {
      assert Target(ndirs, dir, 0) == 0;
    } else {
      forall draw | 0 <= draw < ndirs ensures 0 <= Target(ndirs, dir, draw) < ndirs && Target(ndirs, dir, draw) != dir {
        if draw == dir {
          Slots.SmallRest(if draw + 1 < ndirs then draw + 1 else 0, ndirs);
        }
      }
    }
  }

  function Partner(c: Config, g: Leaf, draw: int): Leaf
    requires c.leaves >= 1
  {
    Leaf(g.w, Target(c.leaves, g.j, draw))
  }

  predicate Known(s: State, g: Leaf) { g in s.dir && g in s.alt && g in s.who }

  predicate Enabled(c: Config, s: State, m: Move) {
    match m
    case FileMove(g, draw) => IsLeaf(c, g) && Known(s, g) && 0 <= draw < c.ndirs
    case Flip(g) => IsLeaf(c, g) && Known(s, g)
    case Swap(g, draw) => IsLeaf(c, g) && Known(s, g) && c.leaves >= 2 && 0 <= draw < c.leaves && Known(s, Partner(c, g, draw))
    case Cache(_) => true
  }

  /** Where a leaf is, by its owner's record. */
  function Path(s: State, g: Leaf): Name
    requires Known(s, g)
  {
    Name(s.dir[g], g, s.alt[g])
  }

  function Step(c: Config, s: State, m: Move): State
    requires ValidConfig(c)
  {
    if !Enabled(c, s, m) then s
    else
      match m
      case FileMove(g, draw) =>
        var nd := Target(c.ndirs, s.dir[g], draw);
        var from, to := Path(s, g), Name(nd, g, s.alt[g]);
        if RenameCode(s.ns, from, to).Ok? then s.(ns := Rename(s.ns, from, to), dir := s.dir[g := nd]) else s.(errs := s.errs + 1)
      case Flip(g) =>
        var from, to := Path(s, g), Name(s.dir[g], g, !s.alt[g]);
        if RenameCode(s.ns, from, to).Ok? then s.(ns := Rename(s.ns, from, to), alt := s.alt[g := !s.alt[g]]) else s.(errs := s.errs + 1)
      case Swap(g, draw) =>
        var o := Partner(c, g, draw);
        var a, b := Path(s, g), Path(s, o);
        if ExchangeCode(s.ns, a, b).Ok? then s.(ns := Exchange(s.ns, a, b), who := s.who[g := s.who[o]][o := s.who[g]])
        else s.(errs := s.errs + 1)
      case Cache(p) => s.(ns := AddNegative(s.ns, p))
  }

  /** The seed: leaf i in directory i mod ndirs, under its first name, carrying object i. */
  ghost function Seed(c: Config): State
    requires ValidConfig(c)
  {
    var all := Leaves(c);
    State(map p: Name | p in set g: Leaf | g in all :: Name(IdOf(c, g) % c.ndirs, g, false) :: Positive(p.leaf),
          map g: Leaf | g in all :: IdOf(c, g) % c.ndirs, map g: Leaf | g in all :: false, map g: Leaf | g in all :: g, 0)
  }

  ghost function Leaves(c: Config): set<Leaf> {
    set w: int, j: int | 0 <= w < c.owners && 0 <= j < c.leaves :: Leaf(w, j)
  }

  ghost function Exec(c: Config, sched: seq<Move>): State
    requires ValidConfig(c)
  {
    if sched == [] then Seed(c) else Step(c, Exec(c, sched[..|sched| - 1]), sched[|sched| - 1])
  }
}
