/** What every mutation of the namespace benchmark does to the shared names and to its owner's record. */
module NamespaceEffects {
  import Slots
  import opened Namespace
  import opened NamespaceTheorems

  lemma Then(c: Config, sched: seq<Move>, m: Move)
    requires Accepted(c)
    ensures Exec(c, sched + [m]) == Step(c, Exec(c, sched), m) && Exec(c, sched).errs == 0 && Exec(c, sched + [m]).errs == 0
  {
    assert (sched + [m])[..|sched|] == sched;
    NoMutationFails(c, sched);
    NoMutationFails(c, sched + [m]);
  }

  lemma AllKnown(c: Config, sched: seq<Move>, g: Leaf)
    requires Accepted(c) && IsLeaf(c, g)
    ensures var s := Exec(c, sched); Known(s, g) && 0 <= s.dir[g] < c.ndirs && IsPositive(s.ns, Path(s, g))
  {
    Invariant(c, sched);
    assert LeafInv(c, Exec(c, sched), g);
  }

  /** The entry at `from` is now at `to` and nowhere else, and no other name has changed. */
  ghost predicate Moved(ns: map<Name, Entry>, ns': map<Name, Entry>, from: Name, to: Name) {
    && from != to && from in ns && to in ns' && ns'[to] == ns[from] && from !in ns'
    && forall p: Name :: p != from && p != to ==> (p in ns' <==> p in ns) && (p in ns ==> ns'[p] == ns[p])
  }

  /** The names a and b have traded their entries, and no other name has changed. */
  ghost predicate Traded(ns: map<Name, Entry>, ns': map<Name, Entry>, a: Name, b: Name) {
    && a != b && a in ns && b in ns && a in ns' && b in ns' && ns'[a] == ns[b] && ns'[b] == ns[a]
    && forall p: Name :: p != a && p != b ==> (p in ns' <==> p in ns) && (p in ns ==> ns'[p] == ns[p])
  }

  /** A flip moves the object from the name the leaf wears to the leaf's other name in the same directory. */
  lemma FlipMoves(c: Config, sched: seq<Move>, g: Leaf)
    requires Accepted(c) && IsLeaf(c, g)
    ensures var s, s' := Exec(c, sched), Exec(c, sched + [Flip(g)]);
            && Known(s, g) && s'.dir == s.dir && s'.who == s.who && s'.alt == s.alt[g := !s.alt[g]]
            && Moved(s.ns, s'.ns, Name(s.dir[g], g, s.alt[g]), Name(s.dir[g], g, !s.alt[g]))
  {
    AllKnown(c, sched, g);
    Then(c, sched, Flip(g));
  }

  /** A file move moves the object, under the name the leaf wears, to the drawn directory, or to the one after it if it is there already. */
  lemma FileMoveMoves(c: Config, sched: seq<Move>, g: Leaf, draw: int)
    requires Accepted(c) && IsLeaf(c, g) && 0 <= draw < c.ndirs
    ensures var s, s' := Exec(c, sched), Exec(c, sched + [FileMove(g, draw)]);
            && Known(s, g) && s'.alt == s.alt && s'.who == s.who
            && var to := if draw != s.dir[g] then draw else if draw + 1 < c.ndirs then draw + 1 else 0;
               s'.dir == s.dir[g := to] && Moved(s.ns, s'.ns, Name(s.dir[g], g, s.alt[g]), Name(to, g, s.alt[g]))
  {
    AllKnown(c, sched, g);
    Then(c, sched, FileMove(g, draw));
    Around(c.ndirs, draw);
  }

  lemma Around(n: int, x: int)
    requires 0 <= x < n
    ensures (x + 1) % n == if x + 1 < n then x + 1 else 0
  {
    if x + 1 < n { Slots.SmallRest(x + 1, n); } else { assert x + 1 == n; }
  }

  /** An exchange trades the objects of two leaves of one owner: the drawn one, or the one after it if it drew itself. */
  lemma SwapTrades(c: Config, sched: seq<Move>, g: Leaf, draw: int)
    requires Accepted(c) && IsLeaf(c, g) && c.leaves >= 2 && 0 <= draw < c.leaves
    ensures var s, s' := Exec(c, sched), Exec(c, sched + [Swap(g, draw)]);
            var o := Leaf(g.w, if draw != g.j then draw else if draw + 1 < c.leaves then draw + 1 else 0);
            && Known(s, g) && Known(s, o) && s'.dir == s.dir && s'.alt == s.alt && s'.who == s.who[g := s.who[o]][o := s.who[g]]
            && Traded(s.ns, s'.ns, Name(s.dir[g], g, s.alt[g]), Name(s.dir[o], o, s.alt[o]))
  {
    Around(c.leaves, draw);
    var o := Partner(c, g, draw);
    AllKnown(c, sched, g);
    AllKnown(c, sched, o);
    Then(c, sched, Swap(g, draw));
  }

  /** A reader that caches an absence adds it, and changes no name that is there. */
  lemma CacheAdds(c: Config, sched: seq<Move>, p: Name)
    requires Accepted(c)
    ensures var s, s' := Exec(c, sched), Exec(c, sched + [Cache(p)]);
            && s'.dir == s.dir && s'.alt == s.alt && s'.who == s.who && p in s'.ns
            && (forall q: Name :: q in s.ns ==> q in s'.ns && s'.ns[q] == s.ns[q])
            && (forall q: Name :: q in s'.ns && q !in s.ns ==> q == p && s'.ns[q] == Negative)
  {
    Then(c, sched, Cache(p));
  }

  /** How often leaf g has been flipped. */
  function Flips(sched: seq<Move>, g: Leaf): nat {
    if sched == [] then 0 else Flips(sched[..|sched| - 1], g) + if sched[|sched| - 1] == Flip(g) then 1 else 0
  }

  /** A leaf wears its second name exactly after an odd number of flips. */
  lemma {:induction false} AltIsParity(c: Config, sched: seq<Move>, g: Leaf)
    requires Accepted(c) && IsLeaf(c, g)
    ensures g in Exec(c, sched).alt && (Exec(c, sched).alt[g] <==> Flips(sched, g) % 2 == 1)
  {
    if sched == [] {
      InLeaves(c, g);
    } else {
      var before, m := sched[..|sched| - 1], sched[|sched| - 1];
      assert before + [m] == sched;
      AltIsParity(c, before, g);
      AllKnown(c, before, g);
      Then(c, before, m);
    }
  }
}
