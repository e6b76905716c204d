/** What the invariant means for every schedule of the rcu_hlist engine. */
module RcuHashTheorems {
  import opened SortedChain
  import opened RcuArena
  import opened RcuHash
  import opened RcuHashInvariant

  /** What a lookup of k that ran without interruption after this schedule would answer. */
  ghost predicate Answer(c: Config, sched: seq<Move>, k: int)
    requires ValidConfig(c)
  {
    LookupFrom(Exec(c, sched).mem.heap, Head(Bucket(c.space, k)), k)
  }

  lemma AnswerIsMember(c: Config, sched: seq<Move>, k: int)
    requires ValidConfig(c) && 0 <= k < c.space.range
    ensures Answer(c, sched, k) <==> Member(Exec(c, sched).mem.heap, History(c, sched).g.home, Bucket(c.space, k), k)
  {
    Invariant(c, sched);
    var b := Bucket(c.space, k);
    assert Chain(Exec(c, sched).mem.heap, History(c, sched).g.home, b);
    LookupIsMember(Exec(c, sched).mem.heap, History(c, sched).g.home, b, Head(b), k);
  }

  /** After every step of every schedule, each bucket leads from head to tail through growing keys. */
  lemma AlwaysSorted(c: Config, sched: seq<Move>, b: int)
    requires ValidConfig(c) && 0 <= b < c.space.buckets
    ensures var r := Spine(Exec(c, sched).mem.heap, Head(b)); r[|r| - 1] == Tail(b)
  {
    Invariant(c, sched);
    assert Chain(Exec(c, sched).mem.heap, History(c, sched).g.home, b);
    SpineReachesTail(Exec(c, sched).mem.heap, History(c, sched).g.home, b, Head(b));
  }

  /** A step adds to what a running lookup has seen at most the answer right after the step. */
  lemma SeenGrows(c: Config, s: State, h: Past, m: Move, now: nat, t: int)
    requires ValidConfig(c) && t in StepPast(c, s, h, m, now).g.walks && !(m.Find? && m.t == t && Enabled(c, s, m))
    ensures var h' := StepPast(c, s, h, m, now);
            && t in h.g.walks && h'.g.walks[t].k == h.g.walks[t].k
            && (t in h.since ==> t in h'.since && h'.since[t] == h.since[t])
            && h'.g.walks[t].o.seen <= h.g.walks[t].o.seen
                 + {Member(Step(c, s, m).mem.heap, h'.g.home, Bucket(c.space, h.g.walks[t].k), h.g.walks[t].k)}
  {
    if Enabled(c, s, m) && m.Run? && (s.pc[m.t].WPublish? || s.pc[m.t].WUnlink?) {
    } else {
      assert t != (if m.Find? then m.t else -1) ==> t in h.g.walks;
    }
  }

  /** Every answer recorded as seen was right at an instant since the lookup began. */
  lemma {:induction false} SeenMeans(c: Config, sched: seq<Move>, t: int, v: bool) returns (j: nat)
    requires ValidConfig(c) && t in History(c, sched).g.walks && v in History(c, sched).g.walks[t].o.seen
    ensures t in History(c, sched).since && History(c, sched).since[t] <= j <= |sched|
    ensures Answer(c, sched[..j], History(c, sched).g.walks[t].k) == v
  {
    Invariant(c, sched);
    var before, m := sched[..|sched| - 1], sched[|sched| - 1];
    Invariant(c, before);
    var s, h, h' := Exec(c, before), History(c, before), History(c, sched);
    var k := h'.g.walks[t].k;
    assert WalkInv(c.space, Exec(c, sched).mem, h'.g, t);
    AnswerIsMember(c, sched, k);
    assert sched[..|sched|] == sched;
    if m.Find? && m.t == t && Enabled(c, s, m) {
      j := |sched|;
    } else {
      SeenGrows(c, s, h, m, |sched|, t);
      if v in h.g.walks[t].o.seen {
        j := SeenMeans(c, before, t, v);
        assert sched[..j] == before[..j];
      } else {
        SinceBounded(c, before, t);
        j := |sched|;
      }
    }
  }

  lemma {:induction false} SinceBounded(c: Config, sched: seq<Move>, t: int)
    requires ValidConfig(c) && t in History(c, sched).g.walks
    ensures t in History(c, sched).since && History(c, sched).since[t] <= |sched|
  {
    if sched != [] {
      var before, m := sched[..|sched| - 1], sched[|sched| - 1];
      Invariant(c, before);
      if !(m.Find? && m.t == t && Enabled(c, Exec(c, before), m)) {
        SeenGrows(c, Exec(c, before), History(c, before), m, |sched|, t);
        SinceBounded(c, before, t);
      }
    }
  }

  /**
   Lookups are linearizable: a finished lookup that did not trip the step guard
   returned what an uninterrupted lookup would have returned at some instant between
   its start and its end.  It can trip the guard only on a key that has more than the
   limit of smaller keys in its bucket.
   */
  lemma LookupLinearizable(c: Config, sched: seq<Move>, t: int) returns (j: nat)
    requires ValidConfig(c) && 0 <= t < c.threads && Exec(c, sched).pc[t].RDone?
    ensures var pc, since := Exec(c, sched).pc[t], History(c, sched).since;
            if pc.viol then c.limit < Smaller(c, pc.k) && pc.k < c.space.range
            else t in since && since[t] <= j <= |sched| && Answer(c, sched[..j], pc.k) == pc.ans
  {
    Invariant(c, sched);
    var s, h := Exec(c, sched), History(c, sched);
    assert PcInv(c, s.mem, h.g, t, s.pc[t]) && WalkInv(c.space, s.mem, h.g, t);
    j := 0;
    if !s.pc[t].viol {
      j := SeenMeans(c, sched, t, s.pc[t].ans);
    }
  }

  /** No thread ever follows a pointer to memory that has been freed. */
  lemma NoUseAfterFree(c: Config, sched: seq<Move>)
    requires ValidConfig(c)
    ensures !Exec(c, sched).fault
  {
    Invariant(c, sched);
  }

  /** The store that makes key k appear or vanish. */
  predicate TogglesKey(c: Config, s: State, m: Move, k: int) {
    Enabled(c, s, m) && m.Run? && (s.pc[m.t].WPublish? || s.pc[m.t].WUnlink?) && s.pc[m.t].k == k
  }

  /** Updates are atomic: the answer for k flips at exactly the publishing stores for k. */
  lemma UpdatesAtomic(c: Config, sched: seq<Move>, m: Move, k: int)
    requires ValidConfig(c) && 0 <= k < c.space.range
    ensures Answer(c, sched + [m], k) != Answer(c, sched, k) <==> TogglesKey(c, Exec(c, sched), m, k)
    ensures TogglesKey(c, Exec(c, sched), m, k) ==> (Answer(c, sched, k) <==> Exec(c, sched).pc[m.t].WUnlink?)
  {
    assert (sched + [m])[..|sched|] == sched;
    AnswerIsMember(c, sched, k);
    AnswerIsMember(c, sched + [m], k);
    Invariant(c, sched);
    if Enabled(c, Exec(c, sched), m) {
      MemberStep(c, Exec(c, sched), History(c, sched), m, |sched| + 1, k);
    }
  }

  lemma MemberStep(c: Config, s: State, h: Past, m: Move, now: nat, k: int)
    requires ValidConfig(c) && Inv(c, s, h) && Enabled(c, s, m) && 0 <= k < c.space.range
    ensures var b, s', h' := Bucket(c.space, k), Step(c, s, m), StepPast(c, s, h, m, now);
            && (Member(s'.mem.heap, h'.g.home, b, k) != Member(s.mem.heap, h.g.home, b, k) <==> TogglesKey(c, s, m, k))
            && (TogglesKey(c, s, m, k) ==> (Member(s.mem.heap, h.g.home, b, k) <==> s.pc[m.t].WUnlink?))
  {
    if m.Run? && s.pc[m.t].WPublish? {
      var pc := s.pc[m.t];
      PublishKept(c, s, h, m, now);
      assert PcInv(c, s.mem, h.g, m.t, pc);
      LinkKeys(c.space, s.mem, h.g, pc.pred, pc.n, Bucket(c.space, pc.k), m.t, k);
    } else if m.Run? && s.pc[m.t].WUnlink? {
      var pc := s.pc[m.t];
      UnlinkKept(c, s, h, m, now);
      assert PcInv(c, s.mem, h.g, m.t, pc);
      UnlinkKeys(c.space, s.mem, h.g, pc.pred, pc.cur, Bucket(c.space, pc.k), k);
    } else {
      QuietMember(c, s, h, m, k);
    }
  }

  lemma QuietMember(c: Config, s: State, h: Past, m: Move, k: int)
    requires ValidConfig(c) && Inv(c, s, h) && Enabled(c, s, m) && 0 <= k < c.space.range
    requires !(m.Run? && (s.pc[m.t].WPublish? || s.pc[m.t].WUnlink?))
    ensures Member(Step(c, s, m).mem.heap, h.g.home, Bucket(c.space, k), k) <==> Member(s.mem.heap, h.g.home, Bucket(c.space, k), k)
  {
    assert Chain(s.mem.heap, h.g.home, Bucket(c.space, k));
    assert m.Run? ==> PcInv(c, s.mem, h.g, m.t, s.pc[m.t]);
    MemberFrame(s.mem.heap, h.g.home, Step(c, s, m).mem.heap, h.g.home, Bucket(c.space, k), k);
  }

  // ---- the step guard -----------------------------------------------------

  /** The linked nodes a lookup of k has to step over. */
  ghost function Below(heap: map<int, Cell>, home: map<int, int>, b: int, k: int): set<int> {
    set x | x in home && In(home, b, x) && x in heap && MIN < heap[x].key < k
  }

  /**
   chl_contains on a chain that stands still.  The guard trips if and only if more
   than `limit` keys of the bucket are below k; otherwise the answer is membership.
   */
  method Contains(heap: map<int, Cell>, ghost home: map<int, int>, b: int, k: int, limit: int) returns (r: bool, viol: bool)
    requires Chain(heap, home, b) && MIN < k < MAX && limit >= 0
    ensures viol <==> |Below(heap, home, b, k)| > limit
    ensures r <==> !viol && Member(heap, home, b, k)
  {
    assert Ordered(heap, home, b, Head(b));
    var cur, pk, steps := heap[Head(b)].next, MIN, 0;
    ghost var pred := Head(b);
    while heap[cur].key < k
      invariant In(home, b, pred) && pred != Tail(b) && Ordered(heap, home, b, pred) && heap[pred].next == cur
      invariant heap[pred].key == pk < k && In(home, b, cur)
      invariant Below(heap, home, b, heap[cur].key) <= Below(heap, home, b, k) || heap[cur].key >= k
      invariant steps == |Below(heap, home, b, heap[cur].key)| <= limit
      decreases MAX - heap[cur].key
    {
      assert Ordered(heap, home, b, cur);
      var next := heap[cur].next;
      assert Below(heap, home, b, heap[next].key) == Below(heap, home, b, heap[cur].key) + {cur};
      steps := steps + 1;
      if heap[cur].key < pk || steps > limit {
        Subset(Below(heap, home, b, heap[cur].key) + {cur}, Below(heap, home, b, k));
        return false, true;
      }
      pk := heap[cur].key;
      pred, cur := cur, next;
    }
    Window(heap, home, b, pred, k);
    assert Below(heap, home, b, k) == Below(heap, home, b, heap[cur].key);
    r, viol := heap[cur].key == k, false;
  }

  lemma Subset(a: set<int>, b: set<int>)
    requires a <= b
    ensures |a| <= |b|
  {
    assert b == a + (b - a);
  }
}
