/** The inductive invariant of the existence list's memory, and its preservation by every step. */
module ExistenceInvariant {
  import opened RingList
  import opened Existence

  /** The writer is in the middle of toggling gap i. */
  predicate Working(s: State, i: int) { !s.w.WIdle? && s.w.a == i }

  predicate In(home: map<int, int>, i: int, x: int) { x in home && home[x] == i }

  // ---- the links of a gap, by what the writer has done so far -------------

  ghost function Fwd(c: Config, s: State, i: int): int
  {
    if Working(s, i) && (s.w.DPrev? || s.w.DFree?) then Succ(c.n, i)
    else if Working(s, i) && (s.w.IFlip? || s.w.IPerm?) then s.w.x
    else if i in s.churn then s.churn[i] else Succ(c.n, i)
  }

  ghost function Bwd(c: Config, s: State, i: int): int
  {
    if Working(s, i) && s.w.DFree? then i
    else if Working(s, i) && (s.w.INext? || s.w.IFlip? || s.w.IPerm?) then s.w.x
    else if i in s.churn then s.churn[i] else i
  }

  ghost predicate LinkInv(c: Config, s: State, i: int)
  {
    && i in s.heap && s.heap[i].next == Fwd(c, s, i)
    && Succ(c.n, i) in s.heap && s.heap[Succ(c.n, i)].prev == Bwd(c, s, i)
  }

  predicate Stable(c: Config, s: State, i: int) {
    i in s.heap && s.heap[i].key == 2 * i && s.heap[i].egi.Permanent?
  }

  ghost predicate RingInv(c: Config, s: State)
    requires ValidConfig(c)
  {
    && HEAD in s.heap
    && (c.n == 0 ==> s.heap[HEAD].next == HEAD && s.heap[HEAD].prev == HEAD)
    && (c.n > 0 ==> s.heap[HEAD].next == 0 && 0 in s.heap && s.heap[0].prev == HEAD)
    && (forall i: int {:trigger Stable(c, s, i)} :: 0 <= i < c.n ==> Stable(c, s, i))
    && (forall i: int {:trigger LinkInv(c, s, i)} :: 0 <= i < c.n ==> LinkInv(c, s, i))
  }

  // ---- churn nodes and groups ---------------------------------------------

  /** A churn node's links never change; once it waits to be freed, its group outlives its last reader. */
  ghost predicate NodeInv(c: Config, s: State, home: map<int, int>, x: int)
    requires x in home
  {
    var a := home[x];
    && 0 <= a < c.n <= x && x in s.heap && s.heap[x].key == 2 * a + 1 && s.heap[x].prev == a && s.heap[x].next == Succ(c.n, a)
    && (match s.heap[x].egi
        case Permanent => x !in s.limbo
        case Tagged(g, tag) =>
          if x in s.limbo then tag == 0 && (s.limbo[x] == {} || Guarded(s, g, s.limbo[x]))
          else Toggling(s.w, x, g))
  }

  /** x is the node in the writer's hands, tagged with group g. */
  predicate Toggling(w: WPc, x: int, g: int) {
    && (w.DFlip? || w.DNext? || w.DPrev? || w.DFree? || w.IPrev? || w.INext? || w.IFlip? || w.IPerm?)
    && w.x == x && w.g == g
  }

  /** Group g has flipped and stays at least as long as these readers. */
  predicate Guarded(s: State, g: int, readers: set<int>) {
    && g in s.groups && s.groups[g] == 1
    && (if g in s.glimbo then readers <= s.glimbo[g] else s.w.Put? && s.w.g == g && readers <= s.sections)
  }

  ghost predicate NodesInv(c: Config, s: State, home: map<int, int>) {
    && (forall x: int {:trigger NodeInv(c, s, home, x)} :: x in home ==> NodeInv(c, s, home, x))
    && (forall x: int :: x in s.limbo ==> x in home && s.limbo[x] <= s.sections)
    && (forall g: int :: g in s.glimbo ==> g in s.groups)
    && (forall x: int :: x in s.heap ==> x == HEAD || 0 <= x < c.n || x in home)
  }

  ghost predicate ChurnInv(c: Config, s: State, home: map<int, int>) {
    forall i: int :: i in s.churn ==> i in c.anchors && In(home, i, s.churn[i]) && s.churn[i] !in s.limbo
  }

  /** What the writer knows in the middle of a toggle. */
  ghost predicate WorkInv(c: Config, s: State, home: map<int, int>)
    requires ValidConfig(c)
  {
    !s.w.WIdle? ==>
      && s.w.a in c.anchors && s.w.g in s.groups && s.w.g !in s.glimbo
      && var a, g := s.w.a, s.w.g;
         match s.w
         case DLoad(_, _) => a in s.churn && s.groups[g] == 0
         case DTag(_, _, x, pv, nx) => a in s.churn && x == s.churn[a] && pv == a && nx == Succ(c.n, a) && s.groups[g] == 0
         case DFlip(_, _, x, pv, nx) => a in s.churn && x == s.churn[a] && pv == a && nx == Succ(c.n, a) && s.groups[g] == 0 && Has(s, x, g, 0)
         case DNext(_, _, x, pv, nx) => a in s.churn && x == s.churn[a] && pv == a && nx == Succ(c.n, a) && s.groups[g] == 1 && Has(s, x, g, 0)
         case DPrev(_, _, x, pv, nx) => a in s.churn && x == s.churn[a] && pv == a && nx == Succ(c.n, a) && s.groups[g] == 1 && Has(s, x, g, 0)
         case DFree(_, _, x) => a in s.churn && x == s.churn[a] && s.groups[g] == 1 && Has(s, x, g, 0)
         case ILoad(_, _) => a !in s.churn && s.groups[g] == 0
         case IPrev(_, _, x, pos, succ) => a !in s.churn && pos == a && succ == Succ(c.n, a) && Incoming(s, home, a, x, g, 0)
         case INext(_, _, x, pos, succ) => a !in s.churn && pos == a && succ == Succ(c.n, a) && Incoming(s, home, a, x, g, 0)
         case IFlip(_, _, x) => a !in s.churn && Incoming(s, home, a, x, g, 0)
         case IPerm(_, _, x) => a !in s.churn && Incoming(s, home, a, x, g, 1)
         case Put(_, _) => true
  }

  predicate Has(s: State, x: int, g: int, tag: int) {
    x in s.heap && s.heap[x].egi == Tagged(g, tag)
  }

  predicate Incoming(s: State, home: map<int, int>, a: int, x: int, g: int, v: int) {
    In(home, a, x) && x !in s.limbo && Has(s, x, g, 1) && g in s.groups && s.groups[g] == v
  }

  ghost predicate MemInv(c: Config, s: State, home: map<int, int>)
    requires ValidConfig(c)
  {
    !s.fault && RingInv(c, s) && NodesInv(c, s, home) && ChurnInv(c, s, home) && WorkInv(c, s, home)
  }

  // ---- every step keeps it ------------------------------------------------

  ghost predicate Kept(c: Config, s: State, home: map<int, int>, m: Move)
    requires ValidConfig(c)
  {
    MemInv(c, Step(c, s, m), Homes(c, s, home, m))
  }

  lemma ToggleKept(c: Config, s: State, home: map<int, int>, m: Move)
    requires ValidConfig(c) && MemInv(c, s, home) && Enabled(c, s, m) && m.Toggle?
    ensures Kept(c, s, home, m)
  {
    var s', home' := Step(c, s, m), Homes(c, s, home, m);
    RingFrame(c, s, s');
    forall x: int | x in home' ensures NodeInv(c, s', home', x) {
      assert NodeInv(c, s, home, x);
    }
  }

  /** Gaps keep their links when neither the memory nor the writer's position relative to them changes. */
  lemma RingFrame(c: Config, s: State, s': State)
    requires ValidConfig(c) && RingInv(c, s)
    requires forall i: int :: (i == HEAD || 0 <= i < c.n) && i in s.heap ==> i in s'.heap && s'.heap[i] == s.heap[i]
    requires forall i: int :: 0 <= i < c.n ==> Fwd(c, s', i) == Fwd(c, s, i) && Bwd(c, s', i) == Bwd(c, s, i)
    ensures RingInv(c, s')
  {
    forall i: int | 0 <= i < c.n ensures Stable(c, s', i) && LinkInv(c, s', i) {
      assert Stable(c, s, i) && LinkInv(c, s, i);
    }
  }

  lemma FreeKept(c: Config, s: State, home: map<int, int>, m: Move)
    requires ValidConfig(c) && MemInv(c, s, home) && Enabled(c, s, m) && (m.FreeNode? || m.FreeGroup?)
    ensures Kept(c, s, home, m)
  {
    var s', home' := Step(c, s, m), Homes(c, s, home, m);
    assert m.FreeNode? ==> NodeInv(c, s, home, m.x);
    RingFrame(c, s, s');
    forall x: int | x in home' ensures NodeInv(c, s', home', x) {
      assert NodeInv(c, s, home, x);
    }
  }

  /** Readers come, go and move. */
  lemma MoveKept(c: Config, s: State, home: map<int, int>, rd: seq<RPc>)
    requires ValidConfig(c) && MemInv(c, s, home)
    ensures MemInv(c, s.(rd := rd), home)
  {
    var s' := s.(rd := rd);
    RingFrame(c, s, s');
    forall x: int | x in home ensures NodeInv(c, s', home, x) {
      assert NodeInv(c, s, home, x);
    }
  }

  lemma EnterKept(c: Config, s: State, home: map<int, int>, t: int)
    requires ValidConfig(c) && MemInv(c, s, home)
    ensures MemInv(c, s.(sections := s.sections + {t}), home)
  {
    var s' := s.(sections := s.sections + {t});
    RingFrame(c, s, s');
    forall x: int | x in home ensures NodeInv(c, s', home, x) {
      assert NodeInv(c, s, home, x);
    }
  }

  lemma LeaveKept(c: Config, s: State, home: map<int, int>, t: int)
    requires ValidConfig(c) && MemInv(c, s, home)
    ensures MemInv(c, Leave(s, t), home)
  {
    var s' := Leave(s, t);
    RingFrame(c, s, s');
    forall x: int | x in home ensures NodeInv(c, s', home, x) {
      assert NodeInv(c, s, home, x);
    }
  }

  lemma ReadKept(c: Config, s: State, home: map<int, int>, t: int)
    requires ValidConfig(c) && MemInv(c, s, home) && 0 <= t < |s.rd| && !ReaderStep(c, s, t).fault
    ensures MemInv(c, ReaderStep(c, s, t), home)
  {
    var rd := ReaderStep(c, s, t).rd;
    MoveKept(c, s, home, rd);
    EnterKept(c, s.(rd := rd), home, t);
    LeaveKept(c, s.(rd := rd), home, t);
  }

  // ---- the writer's steps -------------------------------------------------

  ghost predicate Writes(c: Config, s: State, home: map<int, int>, m: Move)
    requires ValidConfig(c)
  {
    MemInv(c, s, home) && Enabled(c, s, m) && m.Write?
  }

  /** The steps that leave every node alone. */
  lemma LocalKept(c: Config, s: State, home: map<int, int>, m: Move)
    requires ValidConfig(c) && Writes(c, s, home, m) && (s.w.DLoad? || s.w.DFlip? || s.w.IFlip? || s.w.Put?)
    ensures Kept(c, s, home, m)
  {
    var s', home' := Step(c, s, m), Homes(c, s, home, m);
    var a := s.w.a;
    assert s.w.DLoad? ==> NodeInv(c, s, home, s.churn[s.w.a]);
    RingFrame(c, s, s');
    forall x: int | x in home' ensures NodeInv(c, s', home', x) {
      assert NodeInv(c, s, home, x);
    }
  }

  lemma RetireKept(c: Config, s: State, home: map<int, int>, m: Move)
    requires ValidConfig(c) && Writes(c, s, home, m) && s.w.DFree?
    ensures Kept(c, s, home, m)
  {
    var s', home' := Step(c, s, m), Homes(c, s, home, m);
    RingFrame(c, s, s');
    forall x: int | x in home' ensures NodeInv(c, s', home', x) {
      assert NodeInv(c, s, home, x);
    }
  }

  /** The stores to a churn node's tag. */
  lemma TagKept(c: Config, s: State, home: map<int, int>, m: Move)
    requires ValidConfig(c) && Writes(c, s, home, m) && (s.w.DTag? || s.w.IPerm?)
    ensures Kept(c, s, home, m)
  {
    var s', home' := Step(c, s, m), Homes(c, s, home, m);
    assert NodeInv(c, s, home, s.w.x);
    RingFrame(c, s, s');
    forall x: int | x in home' ensures NodeInv(c, s', home', x) {
      assert NodeInv(c, s, home, x);
    }
  }

  lemma Unused(c: Config, s: State, home: map<int, int>, addr: int)
    requires ValidConfig(c) && MemInv(c, s, home) && addr !in s.heap
    ensures addr !in home && addr !in s.limbo && forall i: int :: i in s.churn ==> s.churn[i] != addr
  {
    assert addr in home ==> NodeInv(c, s, home, addr);
  }

  lemma AllocKept(c: Config, s: State, home: map<int, int>, m: Move)
    requires ValidConfig(c) && Writes(c, s, home, m) && s.w.ILoad?
    ensures Kept(c, s, home, m)
  {
    var s', home' := Step(c, s, m), Homes(c, s, home, m);
    Unused(c, s, home, m.addr);
    assert LinkInv(c, s, s.w.a);
    RingFrame(c, s, s');
    forall x: int | x in home' ensures NodeInv(c, s', home', x) {
      if x in home {
        assert NodeInv(c, s, home, x);
      }
    }
  }

  /** The stores to a stable neighbour's links change the writer's gap and no other. */
  lemma UnNextKept(c: Config, s: State, home: map<int, int>, m: Move)
    requires ValidConfig(c) && Writes(c, s, home, m) && s.w.DNext?
    ensures Kept(c, s, home, m)
  {
    var s', home' := Step(c, s, m), Homes(c, s, home, m);
    var a := s.w.a;
    assert LinkInv(c, s, a) && Stable(c, s, a);
    assert Succ(c.n, a) != HEAD ==> Stable(c, s, Succ(c.n, a));
    assert NodeInv(c, s, home, s.w.x);
    forall i: int | 0 <= i < c.n ensures Stable(c, s', i) && LinkInv(c, s', i) {
      assert Stable(c, s, i) && LinkInv(c, s, i);
    }
    forall x: int | x in home' ensures NodeInv(c, s', home', x) {
      assert NodeInv(c, s, home, x);
    }
  }

  lemma UnPrevKept(c: Config, s: State, home: map<int, int>, m: Move)
    requires ValidConfig(c) && Writes(c, s, home, m) && s.w.DPrev?
    ensures Kept(c, s, home, m)
  {
    var s', home' := Step(c, s, m), Homes(c, s, home, m);
    var a := s.w.a;
    assert LinkInv(c, s, a) && Stable(c, s, a);
    assert Succ(c.n, a) != HEAD ==> Stable(c, s, Succ(c.n, a));
    assert NodeInv(c, s, home, s.w.x);
    forall i: int | 0 <= i < c.n ensures Stable(c, s', i) && LinkInv(c, s', i) {
      assert Stable(c, s, i) && LinkInv(c, s, i);
    }
    forall x: int | x in home' ensures NodeInv(c, s', home', x) {
      assert NodeInv(c, s, home, x);
    }
  }

  lemma LinkPrevKept(c: Config, s: State, home: map<int, int>, m: Move)
    requires ValidConfig(c) && Writes(c, s, home, m) && s.w.IPrev?
    ensures Kept(c, s, home, m)
  {
    var s', home' := Step(c, s, m), Homes(c, s, home, m);
    var a := s.w.a;
    assert LinkInv(c, s, a) && Stable(c, s, a);
    assert Succ(c.n, a) != HEAD ==> Stable(c, s, Succ(c.n, a));
    assert NodeInv(c, s, home, s.w.x);
    forall i: int | 0 <= i < c.n ensures Stable(c, s', i) && LinkInv(c, s', i) {
      assert Stable(c, s, i) && LinkInv(c, s, i);
    }
    forall x: int | x in home' ensures NodeInv(c, s', home', x) {
      assert NodeInv(c, s, home, x);
    }
  }

  lemma LinkNextKept(c: Config, s: State, home: map<int, int>, m: Move)
    requires ValidConfig(c) && Writes(c, s, home, m) && s.w.INext?
    ensures Kept(c, s, home, m)
  {
    var s', home' := Step(c, s, m), Homes(c, s, home, m);
    var a := s.w.a;
    assert LinkInv(c, s, a) && Stable(c, s, a);
    assert Succ(c.n, a) != HEAD ==> Stable(c, s, Succ(c.n, a));
    assert NodeInv(c, s, home, s.w.x);
    forall i: int | 0 <= i < c.n ensures Stable(c, s', i) && LinkInv(c, s', i) {
      assert Stable(c, s, i) && LinkInv(c, s, i);
    }
    forall x: int | x in home' ensures NodeInv(c, s', home', x) {
      assert NodeInv(c, s, home, x);
    }
  }

  lemma WriterKept(c: Config, s: State, home: map<int, int>, m: Move)
    requires ValidConfig(c) && Writes(c, s, home, m)
    ensures Kept(c, s, home, m)
  {
    if s.w.DFree? { RetireKept(c, s, home, m); }
    else if s.w.DTag? || s.w.IPerm? { TagKept(c, s, home, m); }
    else if s.w.ILoad? { AllocKept(c, s, home, m); }
    else if s.w.DNext? { UnNextKept(c, s, home, m); }
    else if s.w.DPrev? { UnPrevKept(c, s, home, m); }
    else if s.w.IPrev? { LinkPrevKept(c, s, home, m); }
    else if s.w.INext? { LinkNextKept(c, s, home, m); }
    else { LocalKept(c, s, home, m); }
  }

  // ---- what a gap shows ---------------------------------------------------

  /** Gap i holds a node that counts as present: the last flip of the gap showed it. */
  ghost predicate Filled(c: Config, s: State, i: int) {
    if Working(s, i) then s.w.DLoad? || s.w.DTag? || s.w.DFlip? || s.w.IPerm? || (s.w.Put? && i in s.churn)
    else i in s.churn
  }

  /** Both links of a gap agree, after every single store, on whether it shows a node and which. */
  lemma GapShows(c: Config, s: State, home: map<int, int>, i: int)
    requires ValidConfig(c) && MemInv(c, s, home) && 0 <= i < c.n
    ensures i in s.heap && Succ(c.n, i) in s.heap
    ensures var f, b := s.heap[i].next, s.heap[Succ(c.n, i)].prev;
            && (Filled(c, s, i) ==> f == b && f != Succ(c.n, i) && b != i)
            && (f != Succ(c.n, i) ==> In(home, i, f) && f !in s.limbo && (Exists(s.heap, s.groups, f) <==> Filled(c, s, i)))
            && (b != i ==> In(home, i, b) && b !in s.limbo && (Exists(s.heap, s.groups, b) <==> Filled(c, s, i)))
            && (Shown(c, s, i) <==> Filled(c, s, i))
  {
    assert LinkInv(c, s, i) && Stable(c, s, i);
    if i in s.churn {
      assert NodeInv(c, s, home, s.churn[i]);
    }
    if Working(s, i) && (s.w.IPrev? || s.w.INext? || s.w.IFlip? || s.w.IPerm?) {
      assert NodeInv(c, s, home, s.w.x);
    }
  }
}
