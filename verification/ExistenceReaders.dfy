/** The readers' part of the invariant, and the invariant over every schedule. */
module ExistenceReaders {
  import opened RingList
  import opened Existence
  import opened ExistenceInvariant

  // ---- where a reader may stand -------------------------------------------

  /** Reader t may load from p: a node of the ring, or a churn node not freed before t leaves. */
  ghost predicate Stands(c: Config, s: State, home: map<int, int>, t: int, p: int) {
    p == HEAD || 0 <= p < c.n || (p in home && c.n <= p && (p in s.limbo ==> t in s.limbo[p]))
  }

  /** Reader t may load the state of group g, whose address it found at q. */
  ghost predicate Holds(s: State, t: int, q: int, g: int, tag: int) {
    && g in s.groups
    && (if g in s.glimbo then t in s.glimbo[g]
        else !s.w.WIdle? && s.w.g == g && (s.w.Put? || (Toggling(s.w, q, g) && Has(s, q, g, tag))))
  }

  /** What the rest of the system may do while reader t does not move. */
  ghost predicate Quiet(c: Config, s: State, home: map<int, int>, s': State, home': map<int, int>, t: int) {
    && (t in s.sections ==> t in s'.sections)
    && (forall p: int {:trigger Stands(c, s', home', t, p)} :: Stands(c, s, home, t, p) ==>
          Stands(c, s', home', t, p) && (p in home ==> p in home' && home'[p] == home[p]))
    && (forall q: int {:trigger Exists(s'.heap, s'.groups, q)} :: q in home && Stands(c, s, home, t, q) ==>
          (Exists(s'.heap, s'.groups, q) <==> Exists(s.heap, s.groups, q)) || (Exists(s'.heap, s'.groups, q) <==> Shown(c, s', home[q])))
    && (forall q: int, g: int, tag: int {:trigger Holds(s', t, q, g, tag)} :: Holds(s, t, q, g, tag) && q in home ==>
          && Holds(s', t, q, g, tag)
          && (s'.groups[g] == s.groups[g] || (s'.groups[g] == tag <==> Shown(c, s', home[q]))))
  }

  // ---- what a walk has established ----------------------------------------

  function KeyOf(c: Config, home: map<int, int>, fwd: bool, p: int): int {
    if p == HEAD then (if fwd then -1 else 2 * c.n)
    else if p in home && c.n <= p then 2 * home[p] + 1
    else 2 * p
  }

  function Next(fwd: bool, k: int): int { if fwd then k + 1 else k - 1 }

  /** The walk's verdict on gap i is right for some instant of the walk. */
  predicate Settled(w: Walk, o: Seen, i: int) {
    if 2 * i + 1 in w.trail then i in o.filled else i in o.empty
  }

  predicate Monotone(fwd: bool, trail: seq<int>) {
    forall i, j :: 0 <= i < j < |trail| ==> Before(fwd, trail[i], trail[j])
  }

  /** Everything before key k has been walked over, and nothing else. */
  ghost predicate Covered(c: Config, w: Walk, o: Seen, k: int) {
    && Monotone(w.fwd, w.trail)
    && w.prev == (if w.trail != [] then w.trail[|w.trail| - 1] else if w.fwd then INT_MIN else INT_MAX)
    && (forall v: int :: v in w.trail ==> 0 <= v < 2 * c.n && Before(w.fwd, v, k))
    && (forall v: int :: 0 <= v < 2 * c.n && v % 2 == 0 && Before(w.fwd, v, k) ==> v in w.trail)
    && (forall i: int {:trigger Settled(w, o, i)} :: 0 <= i < c.n && Before(w.fwd, 2 * i + 1, k) ==> Settled(w, o, i))
    && 0 <= w.steps <= (if w.fwd then k else 2 * c.n - k) / 2
    && |w.trail| + w.steps <= (if w.fwd then k else 2 * c.n - 1 - k)
  }

  ghost predicate Snapshot(c: Config, s: State, o: Seen) {
    forall i: int {:trigger Shown(c, s, i)} :: 0 <= i < c.n ==> if Shown(c, s, i) then i in o.filled else i in o.empty
  }

  ghost predicate Verdict(home: map<int, int>, o: Seen, q: int, yes: bool) {
    q in home ==> if yes then home[q] in o.filled else home[q] in o.empty
  }

  ghost predicate PcInv(c: Config, s: State, home: map<int, int>, o: Seen, t: int, pc: RPc) {
    match pc
    case RIdle => true
    case RLoad(w, p) => Stands(c, s, home, t, p) && Covered(c, w, o, Next(w.fwd, KeyOf(c, home, w.fwd, p)))
    case RTest(w, q) =>
      && q != HEAD && Stands(c, s, home, t, q) && Covered(c, w, o, KeyOf(c, home, w.fwd, q))
      && Verdict(home, o, q, Exists(s.heap, s.groups, q))
    case RState(w, q, g, tag) =>
      && q in home && Stands(c, s, home, t, q) && Covered(c, w, o, KeyOf(c, home, w.fwd, q))
      && Holds(s, t, q, g, tag) && Verdict(home, o, q, s.groups[g] == tag)
    case RKey(w, q) =>
      && q != HEAD && Stands(c, s, home, t, q) && Covered(c, w, o, KeyOf(c, home, w.fwd, q))
      && Verdict(home, o, q, true)
    case REnd(w, viol) =>
      if viol then !w.fwd && w.trail == [] && TOP < c.n && TOP in o.filled
      else Covered(c, w, o, if w.fwd then 2 * c.n else -1)
  }

  ghost predicate ReaderInv(c: Config, s: State, h: Past, t: int)
    requires 0 <= t < |s.rd|
  {
    !s.rd[t].RIdle? ==> t in s.sections && t in h.seen && Snapshot(c, s, h.seen[t]) && PcInv(c, s, h.home, h.seen[t], t, s.rd[t])
  }

  // ---- a reader that does not move ----------------------------------------

  ghost predicate Grows(o: Seen, o': Seen) { o.filled <= o'.filled && o.empty <= o'.empty }

  lemma CoveredGrows(c: Config, w: Walk, o: Seen, o': Seen, k: int)
    requires Covered(c, w, o, k) && Grows(o, o')
    ensures Covered(c, w, o', k)
  {
    forall i: int | 0 <= i < c.n && Before(w.fwd, 2 * i + 1, k) ensures Settled(w, o', i) {
      assert Settled(w, o, i);
    }
  }

  lemma PcFrame(c: Config, s: State, home: map<int, int>, o: Seen, s': State, home': map<int, int>, o': Seen, t: int, pc: RPc)
    requires PcInv(c, s, home, o, t, pc) && Quiet(c, s, home, s', home', t) && Grows(o, o') && Snapshot(c, s', o')
    requires forall q: int :: q in home ==> 0 <= home[q] < c.n
    requires forall q: int :: q in home' ==> c.n <= q
    ensures PcInv(c, s', home', o', t, pc)
  {
    match pc
    case RIdle =>
    case RLoad(w, p) =>
      assert Stands(c, s', home', t, p);
      CoveredGrows(c, w, o, o', Next(w.fwd, KeyOf(c, home, w.fwd, p)));
    case RTest(w, q) =>
      assert Stands(c, s', home', t, q);
      CoveredGrows(c, w, o, o', KeyOf(c, home, w.fwd, q));
    case RState(w, q, g, tag) =>
      assert Stands(c, s', home', t, q) && Holds(s', t, q, g, tag);
      CoveredGrows(c, w, o, o', KeyOf(c, home, w.fwd, q));
    case RKey(w, q) =>
      assert Stands(c, s', home', t, q);
      CoveredGrows(c, w, o, o', KeyOf(c, home, w.fwd, q));
    case REnd(w, viol) => if !viol { CoveredGrows(c, w, o, o', if w.fwd then 2 * c.n else -1); }
  }

  // ---- a reader's own step ------------------------------------------------

  /** The key position of the node a link leads to; the head ends the walk. */
  function Ahead(c: Config, home: map<int, int>, fwd: bool, q: int): int {
    if q == HEAD then (if fwd then 2 * c.n else -1) else KeyOf(c, home, fwd, q)
  }

  /** A link leads to the next key position, or skips one gap that shows nothing. */
  lemma Hop(c: Config, s: State, home: map<int, int>, t: int, fwd: bool, p: int)
    requires ValidConfig(c) && MemInv(c, s, home) && Stands(c, s, home, t, p)
    ensures p in s.heap && Stands(c, s, home, t, Link(s.heap[p], fwd))
    ensures var q, k := Link(s.heap[p], fwd), Next(fwd, KeyOf(c, home, fwd, p));
            && (q in home && c.n <= q ==> (Exists(s.heap, s.groups, q) <==> Shown(c, s, home[q])))
            && (Ahead(c, home, fwd, q) == k
                || (Ahead(c, home, fwd, q) == Next(fwd, k) && exists i: int :: 0 <= i < c.n && k == 2 * i + 1 && !Shown(c, s, i)))
  {
    if p in home && c.n <= p {
      assert NodeInv(c, s, home, p);
    } else {
      if p != HEAD { assert Stable(c, s, p); }
      var i := if fwd then p else if p == HEAD then c.n - 1 else p - 1;
      if 0 <= i < c.n {
        GapShows(c, s, home, i);
        assert LinkInv(c, s, i);
        assert Next(fwd, KeyOf(c, home, fwd, p)) == 2 * i + 1;
        assert !(exists j: int :: 0 <= j < c.n && 2 * i + 1 == 2 * j + 1 && !Shown(c, s, j)) ==> Shown(c, s, i);
      }
      var q := Link(s.heap[p], fwd);
      if q in home { assert NodeInv(c, s, home, q); }
    }
  }

  lemma Skip(c: Config, s: State, w: Walk, o: Seen, i: int)
    requires 0 <= i < c.n && Covered(c, w, o, 2 * i + 1) && Snapshot(c, s, o) && !Shown(c, s, i)
    ensures Covered(c, w, o, Next(w.fwd, 2 * i + 1))
  {
    forall j: int | 0 <= j < c.n && Before(w.fwd, 2 * j + 1, Next(w.fwd, 2 * i + 1)) ensures Settled(w, o, j) {
      if j != i {
        assert Settled(w, o, j);
      }
    }
  }

  lemma Visit(c: Config, w: Walk, o: Seen, k: int)
    requires Covered(c, w, o, k) && 0 <= k < 2 * c.n && Before(w.fwd, w.prev, k) && (k % 2 == 1 ==> k / 2 in o.filled)
    ensures Covered(c, w.(prev := k, trail := w.trail + [k]), o, Next(w.fwd, k))
  {
    var w' := w.(prev := k, trail := w.trail + [k]);
    forall i: int | 0 <= i < c.n && Before(w.fwd, 2 * i + 1, Next(w.fwd, k)) ensures Settled(w', o, i) {
      if 2 * i + 1 != k {
        assert Settled(w, o, i);
      }
    }
    forall v: int | v in w'.trail ensures 0 <= v < 2 * c.n && Before(w.fwd, v, Next(w.fwd, k)) {
      assert v == k || v in w.trail;
    }
    forall v: int | 0 <= v < 2 * c.n && v % 2 == 0 && Before(w.fwd, v, Next(w.fwd, k)) ensures v in w'.trail {
      assert v == k || v in w.trail;
    }
  }

  /** Out of order can only be the key that a backward walk starts from. */
  lemma OnlyTop(c: Config, w: Walk, o: Seen, k: int)
    requires ValidConfig(c) && Covered(c, w, o, k) && 0 <= k < 2 * c.n && !Before(w.fwd, w.prev, k)
    ensures !w.fwd && w.trail == [] && k == 2 * TOP + 1
  {
    assert w.trail != [] ==> w.prev in w.trail;
  }

  lemma Absent(c: Config, w: Walk, o: Seen, i: int)
    requires 0 <= i < c.n && Covered(c, w, o, 2 * i + 1) && i in o.empty
    ensures w.steps + 1 <= Limit(c) && Covered(c, w.(steps := w.steps + 1), o, Next(w.fwd, 2 * i + 1))
  {
    var w' := w.(steps := w.steps + 1);
    forall j: int | 0 <= j < c.n && Before(w.fwd, 2 * j + 1, Next(w.fwd, 2 * i + 1)) ensures Settled(w', o, j) {
      if j != i {
        assert Settled(w, o, j);
      }
    }
  }

  lemma LoadLink(c: Config, s: State, home: map<int, int>, o: Seen, t: int, w: Walk, p: int)
    requires ValidConfig(c) && MemInv(c, s, home) && Snapshot(c, s, o) && PcInv(c, s, home, o, t, RLoad(w, p))
    ensures p in s.heap
    ensures var q := Link(s.heap[p], w.fwd); PcInv(c, s, home, o, t, if q == HEAD then REnd(w, false) else RTest(w, q))
  {
    Hop(c, s, home, t, w.fwd, p);
    var q, k := Link(s.heap[p], w.fwd), Next(w.fwd, KeyOf(c, home, w.fwd, p));
    Lands(c, s, w, o, k, Ahead(c, home, w.fwd, q));
    if q in home { assert NodeInv(c, s, home, q); }
  }

  /** A hop lands on the next position, or skips an empty gap. */
  lemma Lands(c: Config, s: State, w: Walk, o: Seen, k: int, k': int)
    requires Covered(c, w, o, k) && Snapshot(c, s, o)
    requires k' == k || (k' == Next(w.fwd, k) && exists i: int :: 0 <= i < c.n && k == 2 * i + 1 && !Shown(c, s, i))
    ensures Covered(c, w, o, k')
  {
    if k' != k {
      var i: int :| 0 <= i < c.n && k == 2 * i + 1 && !Shown(c, s, i);
      Skip(c, s, w, o, i);
    }
  }

  lemma LoadTag(c: Config, s: State, home: map<int, int>, o: Seen, t: int, w: Walk, q: int)
    requires ValidConfig(c) && MemInv(c, s, home) && PcInv(c, s, home, o, t, RTest(w, q))
    ensures q in s.heap && PcInv(c, s, home, o, t, Load(c, s.heap, s.groups, RTest(w, q)))
  {
    if q in home { assert NodeInv(c, s, home, q); } else { assert Stable(c, s, q); }
  }

  lemma LoadState(c: Config, s: State, home: map<int, int>, o: Seen, t: int, w: Walk, q: int, g: int, tag: int)
    requires ValidConfig(c) && MemInv(c, s, home) && PcInv(c, s, home, o, t, RState(w, q, g, tag))
    ensures PcInv(c, s, home, o, t, Load(c, s.heap, s.groups, RState(w, q, g, tag)))
  {
    assert NodeInv(c, s, home, q);
    if s.groups[g] != tag {
      Absent(c, w, o, home[q]);
    }
  }

  lemma LoadKey(c: Config, s: State, home: map<int, int>, o: Seen, t: int, w: Walk, q: int)
    requires ValidConfig(c) && MemInv(c, s, home) && PcInv(c, s, home, o, t, RKey(w, q))
    ensures q in s.heap && PcInv(c, s, home, o, t, Load(c, s.heap, s.groups, RKey(w, q)))
  {
    if q in home { assert NodeInv(c, s, home, q); } else { assert Stable(c, s, q); }
    var k := KeyOf(c, home, w.fwd, q);
    if Before(w.fwd, w.prev, k) {
      Visit(c, w, o, k);
    } else {
      OnlyTop(c, w, o, k);
    }
  }

  lemma LoadKept(c: Config, s: State, home: map<int, int>, o: Seen, t: int, pc: RPc)
    requires ValidConfig(c) && MemInv(c, s, home) && Snapshot(c, s, o) && PcInv(c, s, home, o, t, pc) && !pc.RIdle? && !pc.REnd?
    ensures Loadable(s.heap, s.groups, pc) && PcInv(c, s, home, o, t, Load(c, s.heap, s.groups, pc))
  {
    match pc
    case RLoad(w, p) => LoadLink(c, s, home, o, t, w, p);
    case RTest(w, q) => LoadTag(c, s, home, o, t, w, q);
    case RState(w, q, g, tag) => LoadState(c, s, home, o, t, w, q, g, tag);
    case RKey(w, q) => LoadKey(c, s, home, o, t, w, q);
  }

  /** The first position of a walk. */
  lemma StartKept(c: Config, s: State, home: map<int, int>, o: Seen, t: int, fwd: bool, second: bool)
    requires ValidConfig(c)
    ensures PcInv(c, s, home, o, t, RLoad(Start(fwd, second), HEAD))
  {
  }

  // ---- what the other steps do to a reader --------------------------------

  /** Another reader's step leaves the memory alone and takes at most its own name off the lists. */
  lemma QuietMove(c: Config, s: State, home: map<int, int>, rd: seq<RPc>, sections: set<int>, t: int)
    requires s.sections <= sections
    ensures Quiet(c, s, home, s.(rd := rd, sections := sections), home, t)
  {
  }

  lemma QuietLeave(c: Config, s: State, home: map<int, int>, rd: seq<RPc>, u: int, t: int)
    requires u != t
    ensures Quiet(c, s, home, Leave(s.(rd := rd), u), home, t)
  {
  }

  lemma QuietRead(c: Config, s: State, home: map<int, int>, u: int, t: int)
    requires 0 <= u < |s.rd| && u != t && !ReaderStep(c, s, u).fault
    ensures Quiet(c, s, home, ReaderStep(c, s, u), home, t)
  {
    var rd := s.rd[u := Load(c, s.heap, s.groups, s.rd[u])];
    if s.rd[u].RIdle? {
      QuietMove(c, s, home, rd, s.sections + {u}, t);
    } else if s.rd[u].REnd? && s.rd[u].w.second {
      QuietLeave(c, s, home, rd, u, t);
    } else {
      QuietMove(c, s, home, rd, s.sections, t);
    }
  }

  lemma QuietToggle(c: Config, s: State, home: map<int, int>, m: Move, t: int)
    requires ValidConfig(c) && MemInv(c, s, home) && Enabled(c, s, m) && m.Toggle?
    ensures Quiet(c, s, home, Step(c, s, m), home, t)
  {
    var s' := Step(c, s, m);
    forall p: int | Stands(c, s, home, t, p) ensures Stands(c, s', home, t, p) { }
    forall q: int | q in home && Stands(c, s, home, t, q) ensures Exists(s'.heap, s'.groups, q) <==> Exists(s.heap, s.groups, q) {
      assert NodeInv(c, s, home, q);
    }
    forall q: int, g: int, tag: int | Holds(s, t, q, g, tag) && q in home ensures Holds(s', t, q, g, tag) && s'.groups[g] == s.groups[g] { }
  }

  lemma QuietFreeNode(c: Config, s: State, home: map<int, int>, m: Move, t: int)
    requires ValidConfig(c) && MemInv(c, s, home) && Enabled(c, s, m) && m.FreeNode?
    ensures Quiet(c, s, home, Step(c, s, m), Homes(c, s, home, m), t)
  {
    var s', home' := Step(c, s, m), Homes(c, s, home, m);
    forall p: int | Stands(c, s, home, t, p) ensures Stands(c, s', home', t, p) && (p in home ==> p in home' && home'[p] == home[p]) {
      if p in home { assert NodeInv(c, s, home, p); }
      assert NodeInv(c, s, home, m.x);
    }
    forall q: int | q in home && Stands(c, s, home, t, q) ensures Exists(s'.heap, s'.groups, q) <==> Exists(s.heap, s.groups, q) {
      assert NodeInv(c, s, home, q) && q != m.x;
    }
    forall q: int, g: int, tag: int | Holds(s, t, q, g, tag) && q in home ensures Holds(s', t, q, g, tag) && s'.groups[g] == s.groups[g] {
      if g !in s.glimbo && !s.w.Put? { NotRetired(c, s, home, q, g); }
    }
  }

  /** The node in the writer's hands has not been handed to call_rcu. */
  lemma NotRetired(c: Config, s: State, home: map<int, int>, q: int, g: int)
    requires ValidConfig(c) && MemInv(c, s, home) && Toggling(s.w, q, g)
    ensures q !in s.limbo
  {
  }

  lemma QuietFreeGroup(c: Config, s: State, home: map<int, int>, m: Move, t: int)
    requires ValidConfig(c) && MemInv(c, s, home) && Enabled(c, s, m) && m.FreeGroup?
    ensures Quiet(c, s, home, Step(c, s, m), home, t)
  {
    var s' := Step(c, s, m);
    forall p: int | Stands(c, s, home, t, p) ensures Stands(c, s', home, t, p) { }
    forall q: int | q in home && Stands(c, s, home, t, q) ensures Exists(s'.heap, s'.groups, q) <==> Exists(s.heap, s.groups, q) {
      assert NodeInv(c, s, home, q);
    }
    forall q: int, g: int, tag: int | Holds(s, t, q, g, tag) && q in home ensures Holds(s', t, q, g, tag) && s'.groups[g] == s.groups[g] {
      assert g != m.g;
    }
  }

  /** The writer's steps other than a flip change what no churn node looks like. */
  lemma QuietStore(c: Config, s: State, home: map<int, int>, m: Move, t: int)
    requires ValidConfig(c) && Writes(c, s, home, m) && !s.w.DFlip? && !s.w.IFlip? && t in s.sections
    ensures Quiet(c, s, home, Step(c, s, m), Homes(c, s, home, m), t)
  {
    var s', home' := Step(c, s, m), Homes(c, s, home, m);
    assert s'.sections == s.sections;
    forall p: int | Stands(c, s, home, t, p) ensures Stands(c, s', home', t, p) && (p in home ==> p in home' && home'[p] == home[p]) {
      StillStands(c, s, home, m, t, p);
    }
    forall q: int | q in home && Stands(c, s, home, t, q)
      ensures Exists(s'.heap, s'.groups, q) <==> Exists(s.heap, s.groups, q)
    {
      SameLook(c, s, home, m, q);
    }
    forall q: int, g: int, tag: int | Holds(s, t, q, g, tag) && q in home ensures Holds(s', t, q, g, tag) && s'.groups[g] == s.groups[g] {
      StillHolds(c, s, home, m, t, q, g, tag);
    }
  }

  lemma StillStands(c: Config, s: State, home: map<int, int>, m: Move, t: int, p: int)
    requires ValidConfig(c) && Writes(c, s, home, m) && t in s.sections && Stands(c, s, home, t, p)
    ensures Stands(c, Step(c, s, m), Homes(c, s, home, m), t, p)
    ensures p in home ==> p in Homes(c, s, home, m) && Homes(c, s, home, m)[p] == home[p]
  {
    if p in home { assert NodeInv(c, s, home, p); }
  }

  lemma SameLook(c: Config, s: State, home: map<int, int>, m: Move, q: int)
    requires ValidConfig(c) && Writes(c, s, home, m) && !s.w.DFlip? && !s.w.IFlip? && q in home
    ensures Exists(Step(c, s, m).heap, Step(c, s, m).groups, q) <==> Exists(s.heap, s.groups, q)
  {
    assert NodeInv(c, s, home, q);
    assert LinkInv(c, s, s.w.a);
    if s.w.DTag? || s.w.IPerm? { assert NodeInv(c, s, home, s.w.x); }
  }

  lemma StillHolds(c: Config, s: State, home: map<int, int>, m: Move, t: int, q: int, g: int, tag: int)
    requires ValidConfig(c) && Writes(c, s, home, m) && !s.w.DFlip? && !s.w.IFlip? && t in s.sections && Holds(s, t, q, g, tag) && q in home
    ensures Holds(Step(c, s, m), t, q, g, tag) && Step(c, s, m).groups[g] == s.groups[g]
  {
    assert NodeInv(c, s, home, q);
    assert LinkInv(c, s, s.w.a);
  }

  /** A flip changes the look of the node being toggled, together with its gap. */
  lemma QuietFlip(c: Config, s: State, home: map<int, int>, m: Move, t: int)
    requires ValidConfig(c) && Writes(c, s, home, m) && (s.w.DFlip? || s.w.IFlip?)
    ensures Quiet(c, s, home, Step(c, s, m), Homes(c, s, home, m), t)
  {
    var s', x := Step(c, s, m), s.w.x;
    WriterKept(c, s, home, m);
    GapShows(c, s', home, s.w.a);
    assert LinkInv(c, s', s.w.a);
    assert NodeInv(c, s, home, x) && home[x] == s.w.a;
    assert Shown(c, s', s.w.a) <==> Exists(s'.heap, s'.groups, x);
    forall q: int | q in home && Stands(c, s, home, t, q)
      ensures (Exists(s'.heap, s'.groups, q) <==> Exists(s.heap, s.groups, q)) || (Exists(s'.heap, s'.groups, q) <==> Shown(c, s', home[q]))
    {
      assert NodeInv(c, s, home, q);
    }
    forall q: int, g: int, tag: int | Holds(s, t, q, g, tag) && q in home
      ensures Holds(s', t, q, g, tag) && (s'.groups[g] == s.groups[g] || (s'.groups[g] == tag <==> Shown(c, s', home[q])))
    {
      if g !in s.glimbo {
        assert q == x && Has(s', x, g, tag);
      }
    }
  }

  // ---- every step, every schedule -----------------------------------------

  ghost predicate Inv(c: Config, s: State, h: Past)
    requires ValidConfig(c)
  {
    MemInv(c, s, h.home) && forall t :: 0 <= t < |s.rd| ==> ReaderInv(c, s, h, t)
  }

  lemma Looked(c: Config, s: State, o: Seen)
    ensures Grows(o, Look(c, s, o)) && Snapshot(c, s, Look(c, s, o))
  {
  }

  /** A reader that does not move keeps its part. */
  lemma ReaderFrame(c: Config, s: State, h: Past, m: Move, now: nat, t: int)
    requires ValidConfig(c) && Inv(c, s, h) && 0 <= t < |s.rd| && m != Read(t)
    requires var s' := Step(c, s, m); MemInv(c, s', StepPast(c, s, h, m, now).home) && s'.rd[t] == s.rd[t]
    requires t in s.sections ==> Quiet(c, s, h.home, Step(c, s, m), StepPast(c, s, h, m, now).home, t)
    ensures ReaderInv(c, Step(c, s, m), StepPast(c, s, h, m, now), t)
  {
    var s', h' := Step(c, s, m), StepPast(c, s, h, m, now);
    assert ReaderInv(c, s, h, t);
    if !s.rd[t].RIdle? {
      Looked(c, s', h.seen[t]);
      forall q: int | q in h.home ensures 0 <= h.home[q] < c.n { assert NodeInv(c, s, h.home, q); }
      forall q: int | q in h'.home ensures c.n <= q { assert NodeInv(c, s', h'.home, q); }
      PcFrame(c, s, h.home, h.seen[t], s', h'.home, h'.seen[t], t, s.rd[t]);
    }
  }

  lemma ReadStepKept(c: Config, s: State, h: Past, m: Move, now: nat)
    requires ValidConfig(c) && Inv(c, s, h) && Enabled(c, s, m) && m.Read?
    ensures Inv(c, Step(c, s, m), StepPast(c, s, h, m, now))
  {
    var t, s', h' := m.t, Step(c, s, m), StepPast(c, s, h, m, now);
    CanLoad(c, s, h, t);
    ReadKept(c, s, h.home, t);
    forall u | 0 <= u < |s.rd| ensures ReaderInv(c, s', h', u) {
      if u == t {
        if Begins(c, s, m, t) { BeginsKept(c, s, h, t, now); } else { LoadsKept(c, s, h, t, now); }
      } else {
        QuietRead(c, s, h.home, t, u);
        ReaderFrame(c, s, h, m, now, u);
      }
    }
  }

  lemma CanLoad(c: Config, s: State, h: Past, t: int)
    requires ValidConfig(c) && Inv(c, s, h) && 0 <= t < |s.rd|
    ensures Loadable(s.heap, s.groups, s.rd[t])
  {
    assert ReaderInv(c, s, h, t);
    if !s.rd[t].RIdle? && !s.rd[t].REnd? {
      LoadKept(c, s, h.home, h.seen[t], t, s.rd[t]);
    }
  }

  /** Where a reader stands does not depend on where the readers stand. */
  lemma PcSame(c: Config, s: State, home: map<int, int>, o: Seen, o': Seen, t: int, pc: RPc, rd: seq<RPc>)
    requires ValidConfig(c) && MemInv(c, s, home) && PcInv(c, s, home, o, t, pc) && Grows(o, o') && Snapshot(c, s, o')
    ensures PcInv(c, s.(rd := rd), home, o', t, pc)
  {
    forall q: int | q in home ensures 0 <= home[q] < c.n <= q { assert NodeInv(c, s, home, q); }
    PcFrame(c, s, home, o, s, home, o', t, pc);
  }

  lemma BeginsKept(c: Config, s: State, h: Past, t: int, now: nat)
    requires ValidConfig(c) && Inv(c, s, h) && Begins(c, s, Read(t), t)
    ensures ReaderInv(c, ReaderStep(c, s, t), StepPast(c, s, h, Read(t), now), t)
  {
    var s', h' := ReaderStep(c, s, t), StepPast(c, s, h, Read(t), now);
    assert ReaderInv(c, s, h, t);
    if !s'.rd[t].RIdle? {
      Looked(c, s', Seen(now, {}, {}));
      StartKept(c, s', h.home, h'.seen[t], t, s'.rd[t].w.fwd, s'.rd[t].w.second);
    }
  }

  lemma LoadsKept(c: Config, s: State, h: Past, t: int, now: nat)
    requires ValidConfig(c) && Inv(c, s, h) && Enabled(c, s, Read(t)) && !Begins(c, s, Read(t), t)
    ensures ReaderInv(c, ReaderStep(c, s, t), StepPast(c, s, h, Read(t), now), t)
  {
    var s', h' := ReaderStep(c, s, t), StepPast(c, s, h, Read(t), now);
    assert ReaderInv(c, s, h, t);
    LoadKept(c, s, h.home, h.seen[t], t, s.rd[t]);
    Looked(c, s', h.seen[t]);
    PcSame(c, s, h.home, h.seen[t], h'.seen[t], t, s'.rd[t], s'.rd);
  }

  lemma OtherMemKept(c: Config, s: State, home: map<int, int>, m: Move)
    requires ValidConfig(c) && MemInv(c, s, home) && Enabled(c, s, m) && !m.Read?
    ensures Kept(c, s, home, m)
  {
    if m.Toggle? { ToggleKept(c, s, home, m); } else if m.Write? { WriterKept(c, s, home, m); } else { FreeKept(c, s, home, m); }
  }

  lemma QuietOther(c: Config, s: State, home: map<int, int>, m: Move, u: int)
    requires ValidConfig(c) && MemInv(c, s, home) && Enabled(c, s, m) && !m.Read? && u in s.sections
    ensures Quiet(c, s, home, Step(c, s, m), Homes(c, s, home, m), u)
  {
    if m.Toggle? { QuietToggle(c, s, home, m, u); }
    else if m.FreeNode? { QuietFreeNode(c, s, home, m, u); }
    else if m.FreeGroup? { QuietFreeGroup(c, s, home, m, u); }
    else if s.w.DFlip? || s.w.IFlip? { QuietFlip(c, s, home, m, u); }
    else { QuietStore(c, s, home, m, u); }
  }

  lemma OthersStay(c: Config, s: State, m: Move)
    requires ValidConfig(c) && !m.Read?
    ensures Step(c, s, m).rd == s.rd
  {
  }

  lemma OtherStepKept(c: Config, s: State, h: Past, m: Move, now: nat)
    requires ValidConfig(c) && Inv(c, s, h) && Enabled(c, s, m) && !m.Read?
    ensures Inv(c, Step(c, s, m), StepPast(c, s, h, m, now))
  {
    OtherMemKept(c, s, h.home, m);
    OthersStay(c, s, m);
    forall u | 0 <= u < |s.rd| ensures ReaderInv(c, Step(c, s, m), StepPast(c, s, h, m, now), u) {
      if u in s.sections { QuietOther(c, s, h.home, m, u); }
      ReaderFrame(c, s, h, m, now, u);
    }
  }

  lemma InitKept(c: Config)
    requires ValidConfig(c)
    ensures MemInv(c, Build(c), map[])
  {
    var s := Build(c);
    forall i: int | 0 <= i < c.n ensures Stable(c, s, i) && LinkInv(c, s, i) {
    }
  }

  /** The invariant holds after every schedule. */
  lemma {:induction false} Invariant(c: Config, sched: seq<Move>)
    requires ValidConfig(c)
    ensures Inv(c, Exec(c, sched), History(c, sched))
  {
    if sched == [] {
      InitKept(c);
    } else {
      var before, m := sched[..|sched| - 1], sched[|sched| - 1];
      Invariant(c, before);
      var s, h := Exec(c, before), History(c, before);
      if !Enabled(c, s, m) {
        IdleKept(c, s, h, m, |sched|);
      } else if m.Read? {
        ReadStepKept(c, s, h, m, |sched|);
      } else {
        OtherStepKept(c, s, h, m, |sched|);
      }
    }
  }

  lemma IdleKept(c: Config, s: State, h: Past, m: Move, now: nat)
    requires ValidConfig(c) && Inv(c, s, h) && !Enabled(c, s, m)
    ensures Inv(c, s, StepPast(c, s, h, m, now))
  {
    var h' := StepPast(c, s, h, m, now);
    forall u | 0 <= u < |s.rd| ensures ReaderInv(c, s, h', u) {
      assert ReaderInv(c, s, h, u);
      if !s.rd[u].RIdle? {
        Looked(c, s, h.seen[u]);
        PcSame(c, s, h.home, h.seen[u], h'.seen[u], u, s.rd[u], s.rd);
      }
    }
  }
}
