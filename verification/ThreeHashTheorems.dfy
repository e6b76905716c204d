/** What the invariant of the three-hash rotation means, and when a commit's moves are disjoint. */
module ThreeHashTheorems {
  import opened Basics
  import opened ThreeHash
  import opened ThreeHashInvariant
  import Slots

  // ---- conservation -------------------------------------------------------

  /** Every key an updater owns is linked, as its current node and in the bucket of its current table. */
  lemma KeyIsLinked(c: Config, sched: seq<Move>, u: int, j: int)
    requires ValidConfig(c) && Live(Exec(c, sched), u, j)
    ensures var s := Exec(c, sched);
            j < |s.up[u].tab| && s.up[u].cur[j] in ChainAt(s, BucketOf(c, s.up[u].tab[j], KeyOf(c, u, j)))
  {
    Invariant(c, sched);
    assert Here(c, Exec(c, sched), History(c, sched), u, j);
  }

  /** And it is linked only there: whatever a chain holds, at whatever position, is one updater's current node of one key. */
  lemma NothingElseLinked(c: Config, sched: seq<Move>, b: Bucket, i: int) returns (u: int, j: int)
    requires ValidConfig(c) && 0 <= i < |ChainAt(Exec(c, sched), b)|
    ensures var s := Exec(c, sched);
            var x := ChainAt(s, b)[i];
            && Live(s, u, j) && s.up[u].cur[j] == x && j < |s.up[u].tab| && b == BucketOf(c, s.up[u].tab[j], KeyOf(c, u, j))
            && (forall v: int, k: int :: Live(s, v, k) && s.up[v].cur[k] == x ==> v == u && k == j)
            && (forall d: Bucket, l: int :: 0 <= l < |ChainAt(s, d)| && ChainAt(s, d)[l] == x ==> d == b && l == i)
  {
    Invariant(c, sched);
    var s, h := Exec(c, sched), History(c, sched);
    var x := ChainAt(s, b)[i];
    assert ChainInv(s, h, b) && x in ChainAt(s, b) && Linked(s, x) && Owned(s, h, x);
    u, j := h.who[x].0, h.who[x].1;
    assert Here(c, s, h, u, j);
    forall v: int, k: int | Live(s, v, k) && s.up[v].cur[k] == x ensures v == u && k == j {
      assert Here(c, s, h, v, k);
    }
    forall d: Bucket, l: int | 0 <= l < |ChainAt(s, d)| && ChainAt(s, d)[l] == x ensures d == b && l == i {
      assert ChainInv(s, h, d) && x in ChainAt(s, d);
    }
  }

  /** No commit ever finds a key missing, and the drain counts no lost key. */
  lemma NoKeyLost(c: Config, sched: seq<Move>)
    requires ValidConfig(c)
    ensures Exec(c, sched).lost == 0 && !Exec(c, sched).fault
  {
    Invariant(c, sched);
  }

  // ---- keys ---------------------------------------------------------------

  /** Updaters' key ranges do not overlap. */
  lemma KeysDistinct(c: Config, u: int, j: int, v: int, k: int)
    requires ValidConfig(c) && 0 <= j < KeyCount(c) && 0 <= k < KeyCount(c) && KeyOf(c, u, j) == KeyOf(c, v, k)
    ensures u == v && j == k
  {
    Slots.OneQuotient(c.spacing, j, u, k, v);
  }

  // ---- disjointness -------------------------------------------------------

  /** The two chains that a move of `key` out of table t touches. */
  function Touched(c: Config, t: int, key: int): set<Bucket>
    requires c.buckets >= 1
  {
    {BucketOf(c, t, key), BucketOf(c, NextTable(t), key)}
  }

  /** Two moves touch a common chain exactly if their keys are congruent, whatever tables they are in. */
  lemma ShareIff(c: Config, t: int, key: int, t': int, key': int)
    requires c.buckets >= 1 && 0 <= t < 3 && 0 <= t' < 3
    ensures Touched(c, t, key) * Touched(c, t', key') != {} <==> key % c.buckets == key' % c.buckets
  {
    if key % c.buckets == key' % c.buckets {
      var shared := if t == t' || NextTable(t') == t then t else NextTable(t);
      assert BucketOf(c, shared, key) in Touched(c, t, key) * Touched(c, t', key');
    } else {
      assert forall b: Bucket :: b in Touched(c, t, key) ==> b.index == key % c.buckets;
      assert forall b: Bucket :: b in Touched(c, t', key') ==> b.index == key' % c.buckets;
      assert Touched(c, t, key) * Touched(c, t', key') == {};
    }
  }

  /** The most keys that one commit spans. */
  function Span(c: Config): int { if Chunk(c) < KeyCount(c) then Chunk(c) else KeyCount(c) }

  /** Two different moves of the commit that starts at key `base` share a bucket. */
  predicate Clash(c: Config, u: int, base: int, i: int, k: int)
    requires ValidConfig(c)
  {
    0 <= base < KeyCount(c) && 0 <= i < k < Batch(c, base) && KeyOf(c, u, base + i) % c.buckets == KeyOf(c, u, base + k) % c.buckets
  }

  ghost predicate CanAlias(c: Config, u: int)
    requires ValidConfig(c)
  {
    exists base: int, i: int, k: int :: Clash(c, u, base, i, k)
  }

  /** Some commit has moves that share a bucket exactly if the span exceeds the number of buckets. */
  lemma AliasIff(c: Config, u: int)
    requires ValidConfig(c)
    ensures CanAlias(c, u) <==> Span(c) > c.buckets
  {
    if Span(c) > c.buckets {
      ShiftRest(KeyOf(c, u, 0), c.buckets);
      assert Clash(c, u, 0, 0, c.buckets);
    } else {
      forall base: int, i: int, k: int | 0 <= base < KeyCount(c) && 0 <= i < k < Batch(c, base) ensures !Clash(c, u, base, i, k) {
        CloseRests(KeyOf(c, u, base + i), k - i, c.buckets);
      }
    }
  }

  lemma ShiftRest(x: int, n: int)
    requires n >= 1
    ensures (x + n) % n == x % n
  {
    assert x + n == (x / n + 1) * n + x % n;
    RestIs(x + n, x / n + 1, x % n, n);
  }

  lemma RestIs(x: int, q: int, r: int, n: int)
    requires n >= 1 && 0 <= r < n && x == q * n + r
    ensures x % n == r
  {
    Slots.OneQuotient(n, r, q, x % n, x / n);
  }

  lemma CloseRests(x: int, d: int, n: int)
    requires 0 < d < n
    ensures x % n != (x + d) % n
  {
    var r := x % n + d;
    if r < n {
      assert x + d == x / n * n + r;
      RestIs(x + d, x / n, r, n);
    } else {
      assert x + d == (x / n + 1) * n + (r - n);
      RestIs(x + d, x / n + 1, r - n, n);
    }
  }

  /** main's choice of --disjoint; None is the configuration it refuses. */
  function Decide(c: Config, disjoint: int): Option<bool> {
    var canAlias := Span(c) > c.buckets;
    if disjoint < 0 then Some(!canAlias)
    else if disjoint != 0 && canAlias then None
    else Some(disjoint != 0)
  }

  /**
   A run declares its write sets disjoint only if they are; left to itself it does so
   whenever they are; and main refuses exactly the request to declare aliasing ones disjoint.
   */
  lemma DisjointIsSound(c: Config, disjoint: int, u: int)
    requires ValidConfig(c)
    ensures Decide(c, disjoint) == Some(true) ==> !CanAlias(c, u)
    ensures disjoint < 0 ==> (Decide(c, disjoint) == Some(true) <==> !CanAlias(c, u))
    ensures Decide(c, disjoint).None? <==> disjoint > 0 && CanAlias(c, u)
  {
    AliasIff(c, u);
  }
}
