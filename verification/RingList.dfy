/**
 The keys that a ring of n stable nodes shows when the gaps in `filled` hold a churn
 node: stable node i has key 2i, the node in its gap has key 2i + 1.
 */
module RingList {
  const HEAD: int := -1
  const INT_MIN: int := -0x8000_0000
  const INT_MAX: int := 0x7fff_ffff

  /** The gap whose key is INT_MAX, the value that a backward walk starts from. */
  const TOP: int := 0x3fff_ffff

  /** The stable node or list head that follows gap i. */
  function Succ(n: int, i: int): int { if i + 1 == n then HEAD else i + 1 }

  /** The order check of a walk: may key b follow key a? */
  predicate Before(fwd: bool, a: int, b: int) { if fwd then a < b else a > b }

  /** The keys of stable node i and its gap. */
  function Pair(filled: set<int>, i: int): seq<int> {
    [2 * i] + if i in filled then [2 * i + 1] else []
  }

  /** The keys from stable node i on. */
  function From(n: int, filled: set<int>, i: int): seq<int>
    decreases n - i
  {
    if i >= n then [] else Pair(filled, i) + From(n, filled, i + 1)
  }

  /** The keys before stable node i. */
  function UpTo(filled: set<int>, i: int): seq<int>
    decreases i
  {
    if i <= 0 then [] else UpTo(filled, i - 1) + Pair(filled, i - 1)
  }

  function Reverse(a: seq<int>): seq<int> {
    if a == [] then [] else Reverse(a[1..]) + [a[0]]
  }

  lemma Associates(a: seq<int>, b: seq<int>, d: seq<int>)
    ensures (a + b) + d == a + (b + d)
  {
  }

  lemma {:induction false} Split(n: int, filled: set<int>, i: int)
    requires 0 <= i <= n
    ensures UpTo(filled, i) + From(n, filled, i) == From(n, filled, 0)
  {
    if i > 0 {
      Split(n, filled, i - 1);
      Associates(UpTo(filled, i - 1), Pair(filled, i - 1), From(n, filled, i));
    }
  }

  lemma Whole(n: int, filled: set<int>)
    requires 0 <= n
    ensures UpTo(filled, n) == From(n, filled, 0)
  {
    Split(n, filled, n);
    assert UpTo(filled, n) + From(n, filled, n) == UpTo(filled, n);
  }

  lemma {:induction false} ReverseConcat(a: seq<int>, b: seq<int>)
    ensures Reverse(a + b) == Reverse(b) + Reverse(a)
  {
    if a == [] {
      assert a + b == b;
    } else {
      assert (a + b)[1..] == a[1..] + b;
      ReverseConcat(a[1..], b);
    }
  }

  lemma ReverseOne(k: int)
    ensures Reverse([k]) == [k]
  {
  }

  lemma ReversePair(filled: set<int>, i: int)
    requires i > 0
    ensures Reverse(UpTo(filled, i))
         == (if i - 1 in filled then [2 * i - 1] else []) + [2 * i - 2] + Reverse(UpTo(filled, i - 1))
  {
    var pair := Pair(filled, i - 1);
    ReverseConcat(UpTo(filled, i - 1), pair);
    if i - 1 in filled {
      ReverseConcat([2 * i - 2], [2 * i - 1]);
      ReverseOne(2 * i - 1);
    } else {
      assert pair == [2 * i - 2];
    }
    ReverseOne(2 * i - 2);
  }

  /** Membership: every stable key, and the key of exactly the filled gaps. */
  lemma {:induction false} InFrom(n: int, filled: set<int>, i: int, k: int)
    requires 0 <= i
    ensures k in From(n, filled, i) <==> 2 * i <= k < 2 * n && (k % 2 == 0 || k / 2 in filled)
    decreases n - i
  {
    if i < n {
      InFrom(n, filled, i + 1, k);
    }
  }

  lemma {:induction false} FromLength(n: int, filled: set<int>, i: int)
    requires 0 <= i <= n
    ensures |From(n, filled, i)| == n - i + |set j: int | j in filled && i <= j < n|
    decreases n - i
  {
    var rest := set j: int | j in filled && i <= j < n;
    if i < n {
      FromLength(n, filled, i + 1);
      var rest' := set j: int | j in filled && i + 1 <= j < n;
      assert rest == rest' + (if i in filled then {i} else {});
    } else {
      assert rest == {};
    }
  }

  /** No more keys than stable nodes and filled gaps. */
  lemma ListLength(n: int, filled: set<int>)
    requires 0 <= n
    ensures |From(n, filled, 0)| <= n + |filled|
  {
    FromLength(n, filled, 0);
    var rest := set j: int | j in filled && 0 <= j < n;
    assert filled == rest + (filled - rest);
  }
}
