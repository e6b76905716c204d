/** How the audit and the descent of src/skiplist_detect.c are related. */
module SkiplistTheorems {
  import opened Skiplist

  /** The towers of exactly this height among the first p that no taller one among them follows. */
  ghost function Trailing(t: seq<Tower>, p: int, level: int): set<int>
    requires 0 <= p <= |t|
  {
    set i | 0 <= i < p && t[i].top == level && !Followed(t, p, level, i)
  }

  predicate Followed(t: seq<Tower>, p: int, level: int, i: int)
    requires 0 <= i < p <= |t|
  {
    exists j :: i < j < p && t[j].top > level
  }

  lemma TrailingStep(t: seq<Tower>, p: int, level: int)
    requires 0 < p <= |t|
    ensures Trailing(t, p, level)
         == if t[p - 1].top > level then {} else Trailing(t, p - 1, level) + (if t[p - 1].top == level then {p - 1} else {})
  {
    forall i | 0 <= i < p - 1 ensures Followed(t, p, level, i) <==> Followed(t, p - 1, level, i) || t[p - 1].top > level {
    }
  }

  /** What a descent steps over at a level below the top: exactly those towers. */
  lemma {:induction false} OpenIsTrailing(t: seq<Tower>, p: int, level: int)
    requires 0 <= p <= |t|
    ensures Open(t[..p], level) == |Trailing(t, p, level)|
  {
    if p == 0 {
      assert Trailing(t, p, level) == {};
    } else {
      OpenIsTrailing(t, p - 1, level);
      assert t[..p][..p - 1] == t[..p - 1];
      TrailingStep(t, p, level);
    }
  }

  /** A prefix of the list has a prefix of its runs, and its open run is part of the run it belongs to. */
  lemma {:induction false} PrefixRuns(t: seq<Tower>, p: int, level: int)
    requires 0 <= p <= |t|
    ensures var r, all := Runs(t[..p], level), Runs(t, level);
            && |r| <= |all| && r[|r| - 1] <= all[|r| - 1]
            && forall q :: 0 <= q < |r| - 1 ==> r[q] == all[q]
    decreases |t|
  {
    if p == |t| {
      assert t[..p] == t;
    } else {
      var u := t[..|t| - 1];
      PrefixRuns(u, p, level);
      assert u[..p] == t[..p];
    }
  }

  /** No lookup ever counts more hops at a level than the audit's longest gap there. */
  lemma HopsBounded(t: seq<Tower>, key: int, level: int)
    ensures 0 <= Open(t[..Rank(t, key)], level) <= Max(Runs(t, level))
  {
    PrefixRuns(t, Rank(t, key), level);
    MaxIs(Runs(t, level));
  }

  /** A run that a taller tower closes is fully stepped over on the way to that tower. */
  lemma {:induction false} CloserSees(t: seq<Tower>, level: int, q: int) returns (p: int)
    requires 0 <= q < |Runs(t, level)| - 1
    ensures 0 <= p < |t| && Open(t[..p], level) == Runs(t, level)[q]
  {
    var u, x := t[..|t| - 1], t[|t| - 1];
    var r := Runs(u, level);
    if x.top > level && q == |r| - 1 {
      p := |t| - 1;
    } else {
      p := CloserSees(u, level, q);
      assert u[..p] == t[..p];
    }
  }

  /**
   The longest gap of the level is the last one, and it is the only one so long, and it
   ends in a tower that holds the largest possible key.
   */
  predicate HiddenTail(t: seq<Tower>, level: int) {
    && t != [] && t[|t| - 1].key == ULONG_MAX && t[|t| - 1].top == level
    && var r := Runs(t, level); forall q :: 0 <= q < |r| - 1 ==> r[q] < r[|r| - 1]
  }

  lemma RankOf(t: seq<Tower>, top: int, key: int, p: int)
    requires ValidList(t, top) && 0 <= p <= |t| && (p > 0 ==> t[p - 1].key < key) && (p < |t| ==> key <= t[p].key)
    ensures Rank(t, key) == p
  {
  }

  lemma SomeLookupSees(t: seq<Tower>, top: int, level: int) returns (key: int)
    requires ValidList(t, top) && !HiddenTail(t, level)
    ensures 0 <= key <= ULONG_MAX && Open(t[..Rank(t, key)], level) == Max(Runs(t, level))
  {
    var all, n := Runs(t, level), |t|;
    var m := Max(all);
    MaxIs(all);
    var p;
    if m == 0 {
      p, key := 0, 0;
      RankOf(t, top, 0, 0);
    } else if q :| 0 <= q < |all| - 1 && all[q] == m {
      p := CloserSees(t, level, q);
      key := t[p].key;
      RankOf(t, top, key, p);
    } else {
      assert all[|all| - 1] == m;
      key := TailSeen(t, top, level);
    }
  }

  /** A tail that is not hidden is seen by a lookup past its end, or of a lower tower behind it. */
  lemma TailSeen(t: seq<Tower>, top: int, level: int) returns (key: int)
    requires ValidList(t, top) && Open(t, level) > 0 && !(t != [] && t[|t| - 1].key == ULONG_MAX && t[|t| - 1].top == level)
    ensures 0 <= key <= ULONG_MAX && Open(t[..Rank(t, key)], level) == Open(t, level)
  {
    var n := |t|;
    if t[n - 1].key < ULONG_MAX {
      key := t[n - 1].key + 1;
      RankOf(t, top, key, n);
      assert t[..n] == t;
    } else {
      key := t[n - 1].key;
      RankOf(t, top, key, n - 1);
    }
  }

  lemma NoLookupSees(t: seq<Tower>, top: int, level: int, key: int)
    requires ValidList(t, top) && HiddenTail(t, level) && 0 <= key <= ULONG_MAX
    ensures Open(t[..Rank(t, key)], level) < Max(Runs(t, level))
  {
    var u, p := t[..|t| - 1], Rank(t, key);
    assert p < |t|;
    PrefixRuns(u, p, level);
    assert u[..p] == t[..p];
    var all := Runs(t, level);
    MaxIs(all);
    assert all[|all| - 1] <= Max(all);
  }

  /**
   The audit is exactly the worst observation: some lookup of an unsigned long counts as
   many hops at the level as the audit's longest gap, if and only if that gap is not a
   hidden tail.
   */
  lemma AuditIsWorstCase(t: seq<Tower>, top: int, level: int)
    requires ValidList(t, top)
    ensures (exists key :: 0 <= key <= ULONG_MAX && Open(t[..Rank(t, key)], level) == Max(Runs(t, level))) <==> !HiddenTail(t, level)
  {
    if HiddenTail(t, level) {
      forall key | 0 <= key <= ULONG_MAX ensures Open(t[..Rank(t, key)], level) != Max(Runs(t, level)) {
        NoLookupSees(t, top, level, key);
      }
    } else {
      var key := SomeLookupSees(t, top, level);
    }
  }

  /** A tail that no lookup sees in full: the only tower holds the largest key. */
  lemma HiddenTailExample()
    ensures var t := [Tower(ULONG_MAX, 0)];
            ValidList(t, 1) && HiddenTail(t, 0) && Max(Runs(t, 0)) == 1 && forall key :: 0 <= key <= ULONG_MAX ==> Open(t[..Rank(t, key)], 0) == 0
  {
    var t := [Tower(ULONG_MAX, 0)];
    assert t[..0] == [];
    assert Runs([], 0) == [0] && Runs(t, 0) == [1] && [1][..0] == [];
    forall key | 0 <= key <= ULONG_MAX ensures Open(t[..Rank(t, key)], 0) == 0 {
      RankOf(t, 1, key, 0);
    }
  }
}
