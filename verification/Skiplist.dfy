/**
 The two balance instruments of src/skiplist_detect.c over a quiescent skiplist: an audit
 that measures the gaps of every level, and a descent that counts what one lookup sees.

 A skiplist is the sequence of its towers in key order; the pointer next[L] of a tower
 leads to the next tower that is at least L high.  Position -1 is the head, |t| is null.
 */
module Skiplist {
  const ULONG_MAX: int := 0xffff_ffff_ffff_ffff
  const GAP_MAX: int := 3

  datatype Tower = Tower(key: int, top: int)

  /** Keys are unsigned longs and strictly sorted; no tower is higher than the head. */
  predicate ValidList(t: seq<Tower>, top: int) {
    && top >= 0
    && (forall i :: 0 <= i < |t| ==> 0 <= t[i].key <= ULONG_MAX && 0 <= t[i].top <= top)
    && (forall i, j :: 0 <= i < j < |t| ==> t[i].key < t[j].key)
  }

  /** The pointer next[level] of the tower at position i. */
  function Next(t: seq<Tower>, i: int, level: int): (j: int)
    requires -1 <= i < |t|
    ensures i < j <= |t| && (j < |t| ==> t[j].top >= level) && forall k :: i < k < j ==> t[k].top < level
    decreases |t| - i
  {
    if i + 1 == |t| || t[i + 1].top >= level then i + 1 else Next(t, i + 1, level)
  }

  // ---- the segments of a level --------------------------------------------

  /** The runs of towers exactly `level` high between taller towers; the last run is still open. */
  function Runs(t: seq<Tower>, level: int): (r: seq<int>)
    ensures r != [] && forall q :: 0 <= q < |r| ==> r[q] >= 0
  {
    if t == [] then [0]
    else
      var r, x := Runs(t[..|t| - 1], level), t[|t| - 1];
      if x.top > level then r + [0]
      else if x.top == level then r[|r| - 1 := r[|r| - 1] + 1]
      else r
  }

  function Open(t: seq<Tower>, level: int): int { var r := Runs(t, level); r[|r| - 1] }

  function Closed(t: seq<Tower>, level: int): seq<int> { var r := Runs(t, level); r[..|r| - 1] }

  function Max(r: seq<int>): int {
    if r == [] then 0 else if r[|r| - 1] > Max(r[..|r| - 1]) then r[|r| - 1] else Max(r[..|r| - 1])
  }

  lemma {:induction false} MaxIs(r: seq<int>)
    ensures Max(r) >= 0 && (forall q :: 0 <= q < |r| ==> r[q] <= Max(r)) && (Max(r) == 0 || Max(r) in r)
  {
    if r != [] {
      var u := r[..|r| - 1];
      MaxIs(u);
      assert r == u + [r[|r| - 1]];
    }
  }

  function Sum(r: seq<int>): int { if r == [] then 0 else Sum(r[..|r| - 1]) + r[|r| - 1] }

  /** How many runs are longer than the 1-2-3 band allows. */
  function Over(r: seq<int>): int { if r == [] then 0 else Over(r[..|r| - 1]) + if r[|r| - 1] > GAP_MAX then 1 else 0 }

  lemma Append(r: seq<int>, x: int)
    ensures Sum(r + [x]) == Sum(r) + x && Over(r + [x]) == Over(r) + (if x > GAP_MAX then 1 else 0)
    ensures Max(r + [x]) == if x > Max(r) then x else Max(r)
  {
    assert (r + [x])[..|r|] == r;
  }

  function Count(t: seq<Tower>, level: int): int {
    if t == [] then 0 else Count(t[..|t| - 1], level) + if t[|t| - 1].top == level then 1 else 0
  }

  function Taller(t: seq<Tower>, level: int): int {
    if t == [] then 0 else Taller(t[..|t| - 1], level) + if t[|t| - 1].top > level then 1 else 0
  }

  /** There is one gap more than towers above the level, and the runs share out the towers of that height. */
  lemma {:induction false} RunsAccount(t: seq<Tower>, level: int)
    ensures |Runs(t, level)| == 1 + Taller(t, level) && Sum(Runs(t, level)) == Count(t, level)
  {
    if t != [] {
      var u := t[..|t| - 1];
      RunsAccount(u, level);
      var r, r' := Runs(u, level), Runs(t, level);
      if t[|t| - 1].top > level {
        assert r'[..|r'| - 1] == r;
      } else {
        assert r'[..|r'| - 1] == r[..|r| - 1];
      }
    }
  }

  /** Towers below the level do not matter. */
  lemma {:induction false} RunsSkip(t: seq<Tower>, i: int, j: int, level: int)
    requires 0 <= i <= j <= |t| && forall k :: i <= k < j ==> t[k].top < level
    ensures Runs(t[..j], level) == Runs(t[..i], level)
    decreases j - i
  {
    if i < j {
      RunsSkip(t, i, j - 1, level);
      assert t[..j][..j - 1] == t[..j - 1];
    }
  }

  /** One more tower of the level's list. */
  lemma RunsStep(t: seq<Tower>, i: int, level: int)
    requires 0 <= i < |t| && t[i].top >= level
    ensures if t[i].top > level then Closed(t[..i + 1], level) == Runs(t[..i], level) && Open(t[..i + 1], level) == 0
            else Closed(t[..i + 1], level) == Closed(t[..i], level) && Open(t[..i + 1], level) == Open(t[..i], level) + 1
    ensures Runs(t[..i], level) == Closed(t[..i], level) + [Open(t[..i], level)]
  {
    assert t[..i + 1][..i] == t[..i];
  }

  // ---- sl_audit -----------------------------------------------------------

  datatype Audit = Audit(top: int, nodes: int, gaps: seq<int>, maxGap: seq<int>, violations: seq<int>, total: int, worst: int)

  /** What the walk along one level has counted before position cur. */
  ghost predicate Counted(t: seq<Tower>, level: int, cur: int, run: int, gaps: int, maxGap: int, violations: int) {
    && 0 <= cur <= |t| && run == Open(t[..cur], level)
    && var r := Closed(t[..cur], level); gaps == |r| && maxGap == Max(r) && violations == Over(r)
  }

  /** It counts the tower at cur, and towers below the level change nothing. */
  lemma CountedStep(t: seq<Tower>, level: int, cur: int, next: int, run: int, gaps: int, maxGap: int, violations: int)
    requires Counted(t, level, cur, run, gaps, maxGap, violations) && cur < |t| && t[cur].top >= level
    requires cur < next <= |t| && forall k :: cur < k < next ==> t[k].top < level
    ensures if t[cur].top > level then
              Counted(t, level, next, 0, gaps + 1, if run > maxGap then run else maxGap, violations + if run > GAP_MAX then 1 else 0)
            else Counted(t, level, next, run + 1, gaps, maxGap, violations)
  {
    RunsStep(t, cur, level);
    RunsSkip(t, cur + 1, next, level);
    Append(Closed(t[..cur], level), run);
  }

  /** The walk along one level. */
  method AuditLevel(t: seq<Tower>, level: int) returns (gaps: int, maxGap: int, violations: int)
    requires level >= 0
    ensures gaps == |Runs(t, level)| && maxGap == Max(Runs(t, level)) && violations == Over(Runs(t, level))
  {
    var run := 0;
    gaps, maxGap, violations := 0, 0, 0;
    var cur := Next(t, -1, level);
    RunsSkip(t, 0, cur, level);
    while cur < |t|
      invariant Counted(t, level, cur, run, gaps, maxGap, violations) && (cur < |t| ==> t[cur].top >= level)
      decreases |t| - cur
    {
      var next := Next(t, cur, level);
      CountedStep(t, level, cur, next, run, gaps, maxGap, violations);
      if t[cur].top >= level + 1 {
        gaps := gaps + 1;
        if run > maxGap { maxGap := run; }
        if run > GAP_MAX { violations := violations + 1; }
        run := 0;
      } else {
        run := run + 1;
      }
      cur := next;
    }
    assert t[..cur] == t;
    Append(Closed(t, level), run);
    assert Closed(t, level) + [run] == Runs(t, level);
    gaps := gaps + 1;
    if run > maxGap { maxGap := run; }
    if run > GAP_MAX { violations := violations + 1; }
  }

  /** Level l of the report is right. */
  ghost predicate Audited(t: seq<Tower>, out: Audit, l: int)
    requires 0 <= l < |out.gaps| == |out.maxGap| == |out.violations|
  {
    var r := Runs(t, l);
    out.gaps[l] == |r| && out.maxGap[l] == Max(r) && out.violations[l] == Over(r)
  }

  /** The whole audit: every level below the head's top. */
  method AuditList(t: seq<Tower>, top: int) returns (out: Audit)
    requires ValidList(t, top)
    ensures out.top == top && out.nodes == |t| && |out.gaps| == top && |out.maxGap| == top && |out.violations| == top
    ensures forall l :: 0 <= l < top ==> Audited(t, out, l)
    ensures out.total == Sum(out.violations) && out.worst == Max(out.maxGap)
  {
    var nodes := CountNodes(t, top);
    out := Audit(top, nodes, [], [], [], 0, 0);
    var l := 0;
    while l < top
      invariant 0 <= l <= top && out.top == top && out.nodes == |t|
      invariant |out.gaps| == l && |out.maxGap| == l && |out.violations| == l
      invariant forall k :: 0 <= k < l ==> Audited(t, out, k)
      invariant out.total == Sum(out.violations) && out.worst == Max(out.maxGap)
    {
      var gaps, maxGap, violations := AuditLevel(t, l);
      Append(out.violations, violations);
      Append(out.maxGap, maxGap);
      ghost var was := out;
      out := Audit(top, nodes, out.gaps + [gaps], out.maxGap + [maxGap], out.violations + [violations],
                   out.total + violations, if maxGap > out.worst then maxGap else out.worst);
      forall k | 0 <= k <= l ensures Audited(t, out, k) {
        if k < l { assert Audited(t, was, k); }
      }
      l := l + 1;
    }
  }

  method CountNodes(t: seq<Tower>, top: int) returns (nodes: int)
    requires ValidList(t, top)
    ensures nodes == |t|
  {
    nodes := 0;
    var n := Next(t, -1, 0);
    while n < |t|
      invariant n == nodes && 0 <= n <= |t|
      decreases |t| - n
    {
      nodes := nodes + 1;
      n := Next(t, n, 0);
    }
  }

  // ---- sl_lookup_detect ---------------------------------------------------

  datatype Descent = Descent(hops: seq<int>, maxHops: int, worst: int, total: int, tripped: bool, found: bool)

  /** How many towers have smaller keys. */
  function Rank(t: seq<Tower>, key: int): (p: int)
    ensures 0 <= p <= |t| && (forall i :: 0 <= i < p ==> t[i].key < key) && (p < |t| ==> t[p].key >= key)
    decreases |t|
  {
    if t == [] || t[0].key >= key then 0 else 1 + Rank(t[1..], key)
  }

  /** Position pred is the last tower above the level among the first p, where a descent enters the level. */
  ghost predicate EntersAt(t: seq<Tower>, level: int, p: int, pred: int) {
    -1 <= pred < p <= |t| && (pred >= 0 ==> t[pred].top > level) && forall j :: pred < j < p ==> t[j].top <= level
  }

  /** The first p towers, and no others, have keys below `key`. */
  predicate Splits(t: seq<Tower>, key: int, p: int) {
    && 0 <= p <= |t| && (forall i :: 0 <= i < p ==> t[i].key < key)
    && (forall i :: p <= i < |t| ==> t[i].key >= key)
  }

  lemma RankSplits(t: seq<Tower>, top: int, key: int)
    requires ValidList(t, top)
    ensures Splits(t, key, Rank(t, key))
  {
  }

  /** Stepping from one tower of the level to the next lengthens the open run by one. */
  lemma OpenStep(t: seq<Tower>, level: int, pred: int, cur: int)
    requires -1 <= pred < cur < |t| && t[cur].top == level && forall k :: pred < k < cur ==> t[k].top < level
    ensures Open(t[..cur + 1], level) == Open(t[..pred + 1], level) + 1
  {
    RunsSkip(t, pred + 1, cur, level);
    RunsStep(t, cur, level);
  }

  lemma OpenStart(t: seq<Tower>, level: int, enter: int)
    requires -1 <= enter < |t| && (enter >= 0 ==> t[enter].top > level)
    ensures Open(t[..enter + 1], level) == 0
  {
    if enter >= 0 { RunsStep(t, enter, level); }
  }

  /** The inner loop of the descent: it steps over the open run of the towers below the key. */
  method DescendLevel(t: seq<Tower>, ghost top: int, level: int, key: int, ghost p: int, enter: int) returns (hops: int, pred: int)
    requires Splits(t, key, p) && 0 <= level && EntersAt(t, level, p, enter) && Heights(t, top)
    ensures hops == Open(t[..p], level)
    ensures EntersAt(t, level - 1, p, pred) && (level == 0 ==> pred + 1 == p)
  {
    hops, pred := 0, enter;
    OpenStart(t, level, enter);
    var cur := Next(t, pred, level);
    while cur < |t| && t[cur].key < key
      invariant enter <= pred < cur <= |t| && pred < p && (cur < |t| ==> t[cur].top >= level) && (pred >= 0 ==> t[pred].top >= level)
      invariant forall k :: pred < k < cur ==> t[k].top < level
      invariant hops == Open(t[..pred + 1], level)
      decreases |t| - cur
    {
      OpenStep(t, level, pred, cur);
      pred := cur;
      cur := Next(t, pred, level);
      hops := hops + 1;
    }
    RunsSkip(t, pred + 1, p, level);
  }

  /** The open runs of the first p towers at the levels from `level` to `top`. */
  function OpenRuns(t: seq<Tower>, p: int, level: int, top: int): seq<int>
    requires 0 <= p <= |t|
    decreases top + 1 - level
  {
    if level > top then [] else [Open(t[..p], level)] + OpenRuns(t, p, level + 1, top)
  }

  lemma {:induction false} OpenRunsAt(t: seq<Tower>, p: int, level: int, top: int)
    requires 0 <= p <= |t| && level <= top + 1
    ensures var h := OpenRuns(t, p, level, top);
            |h| == top + 1 - level && forall i :: 0 <= i < |h| ==> h[i] == Open(t[..p], level + i)
    decreases top + 1 - level
  {
    if level <= top {
      OpenRunsAt(t, p, level + 1, top);
    }
  }

  /** The highest level with the most hops, or -1 if there are none; h[0] is level `base`. */
  function Worst(h: seq<int>, base: int): int {
    if h == [] then -1 else if h[0] > Max(h[1..]) then base else Worst(h[1..], base + 1)
  }

  lemma {:induction false} WorstIs(h: seq<int>, base: int)
    requires base >= 0 && forall i :: 0 <= i < |h| ==> h[i] >= 0
    ensures var w := Worst(h, base);
            if Max(h) == 0 then w == -1
            else base <= w < base + |h| && h[w - base] == Max(h) && forall i :: w - base < i < |h| ==> h[i] < Max(h)
  {
    if h != [] {
      WorstIs(h[1..], base + 1);
      MaxIs(h[1..]);
      Prepend(h[0], h[1..]);
      assert h == [h[0]] + h[1..];
    }
  }

  /** What the descent has reported for the levels from `level` up. */
  ghost predicate Reported(h: seq<int>, level: int, d: Descent) {
    && d.hops == h && d.total == Sum(h) && d.maxHops == Max(h) && d.worst == Worst(h, level)
    && (d.tripped <==> Max(h) > GAP_MAX)
  }

  /** The report after one more level. */
  function Report(d: Descent, hops: int, level: int): Descent {
    Descent([hops] + d.hops, if hops > d.maxHops then hops else d.maxHops, if hops > d.maxHops then level else d.worst,
            d.total + hops, d.tripped || hops > GAP_MAX, false)
  }

  lemma ReportedStep(h: seq<int>, level: int, d: Descent, hops: int)
    requires Reported(h, level + 1, d) && hops >= 0
    ensures Reported([hops] + h, level, Report(d, hops, level))
  {
    Prepend(hops, h);
    assert ([hops] + h)[1..] == h;
  }

  lemma ReportedLevel(t: seq<Tower>, p: int, level: int, top: int, d: Descent, hops: int)
    requires 0 <= p <= |t| && level <= top && Reported(OpenRuns(t, p, level + 1, top), level + 1, d) && hops == Open(t[..p], level)
    ensures Reported(OpenRuns(t, p, level, top), level, Report(d, hops, level))
  {
    ReportedStep(OpenRuns(t, p, level + 1, top), level, d, hops);
  }

  /** No tower is higher than the head, nor below the bottom. */
  predicate Heights(t: seq<Tower>, top: int) {
    forall i :: 0 <= i < |t| ==> 0 <= t[i].top <= top
  }

  lemma EntersAtTop(t: seq<Tower>, top: int, p: int)
    requires Heights(t, top) && 0 <= p <= |t|
    ensures EntersAt(t, top, p, -1)
  {
  }

  /** The descent through all levels; it ends right before the first tower whose key is not smaller. */
  method Descend(t: seq<Tower>, top: int, key: int, ghost p: int) returns (d: Descent, pred: int)
    requires Splits(t, key, p) && top >= 0 && Heights(t, top)
    ensures Reported(OpenRuns(t, p, 0, top), 0, d) && pred + 1 == p
  {
    pred := -1;
    d := Descent([], 0, -1, 0, false, false);
    var level := top;
    EntersAtTop(t, top, p);
    while level >= 0
      invariant -1 <= level <= top && EntersAt(t, level, p, pred) && (level == -1 ==> pred + 1 == p)
      invariant Reported(OpenRuns(t, p, level + 1, top), level + 1, d)
      decreases level
    {
      var hops;
      hops, pred := DescendLevel(t, top, level, key, p, pred);
      ReportedLevel(t, p, level, top, d, hops);
      d := Report(d, hops, level);
      level := level - 1;
    }
  }

  /** sl_lookup_detect. */
  method LookupDetect(t: seq<Tower>, top: int, key: int) returns (d: Descent)
    requires ValidList(t, top)
    ensures Reported(OpenRuns(t, Rank(t, key), 0, top), 0, d)
    ensures d.found <==> exists i :: 0 <= i < |t| && t[i].key == key
  {
    RankSplits(t, top, key);
    var pred;
    d, pred := Descend(t, top, key, Rank(t, key));
    var cur := Next(t, pred, 0);
    d := d.(found := cur < |t| && t[cur].key == key);
  }

  lemma {:induction false} Prepend(x: int, r: seq<int>)
    requires x >= 0
    ensures Sum([x] + r) == x + Sum(r) && Max([x] + r) == if x > Max(r) then x else Max(r)
  {
    if r != [] {
      var u := r[..|r| - 1];
      Prepend(x, u);
      assert ([x] + r)[..|r|] == [x] + u;
    } else {
      assert ([x] + r)[..0] == [];
    }
  }
}
