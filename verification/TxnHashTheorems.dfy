/** What the invariant means for every schedule of the txn_hlist engine. */
module TxnHashTheorems {
  import opened SortedChain
  import opened RcuArena
  import opened TxnHash
  import opened TxnHashInvariant

  /** What a lookup of k that ran without interruption after this schedule would answer. */
  ghost predicate Answer(c: Config, sched: seq<Move>, k: int)
    requires ValidConfig(c)
  {
    LookupFrom(Exec(c, sched).mem.heap, Head(Bucket(c.space, k)), k)
  }

  lemma AnswerIsMember(c: Config, sched: seq<Move>, k: int)
    requires ValidConfig(c) && 0 <= k < c.space.range
    ensures Answer(c, sched, k) <==> Member(Exec(c, sched).mem.heap, History(c, sched).g.home, Bucket(c.space, k), k)
  {
    Invariant(c, sched);
    var b := Bucket(c.space, k);
    assert Chain(Exec(c, sched).mem.heap, History(c, sched).g.home, b);
    LookupIsMember(Exec(c, sched).mem.heap, History(c, sched).g.home, b, Head(b), k);
  }

  /** After every step of every schedule, each bucket leads from head to tail through growing keys. */
  lemma AlwaysSorted(c: Config, sched: seq<Move>, b: int)
    requires ValidConfig(c) && 0 <= b < c.space.buckets
    ensures var r := Spine(Exec(c, sched).mem.heap, Head(b)); r[|r| - 1] == Tail(b)
  {
    Invariant(c, sched);
    assert Chain(Exec(c, sched).mem.heap, History(c, sched).g.home, b);
    SpineReachesTail(Exec(c, sched).mem.heap, History(c, sched).g.home, b, Head(b));
  }

  /** No thread ever follows a pointer to memory that has been freed. */
  lemma NoUseAfterFree(c: Config, sched: seq<Move>)
    requires ValidConfig(c)
    ensures !Exec(c, sched).fault
  {
    Invariant(c, sched);
  }

  // ---- updates ------------------------------------------------------------

  /** A commit of key k succeeds. */
  predicate CommitsKey(c: Config, s: State, m: Move, k: int) {
    Enabled(c, s, m) && Commits(s, m) && s.pc[m.t].k == k
  }

  /**
   The answer for k flips at exactly the successful commits for k.  So a delete that
   succeeds removes a key that was there, and two inserts of one key never both succeed
   without a delete between them.
   */
  lemma UpdatesAtomic(c: Config, sched: seq<Move>, m: Move, k: int)
    requires ValidConfig(c) && 0 <= k < c.space.range
    ensures Answer(c, sched + [m], k) != Answer(c, sched, k) <==> CommitsKey(c, Exec(c, sched), m, k)
    ensures CommitsKey(c, Exec(c, sched), m, k) ==> (Answer(c, sched, k) <==> Exec(c, sched).pc[m.t].Del?)
  {
    assert (sched + [m])[..|sched|] == sched;
    AnswerIsMember(c, sched, k);
    AnswerIsMember(c, sched + [m], k);
    Invariant(c, sched);
    if Enabled(c, Exec(c, sched), m) {
      MemberStep(c, Exec(c, sched), History(c, sched), m, |sched| + 1, k);
    }
  }

  lemma MemberStep(c: Config, s: State, h: Past, m: Move, now: nat, k: int)
    requires ValidConfig(c) && Inv(c, s, h) && Enabled(c, s, m) && 0 <= k < c.space.range
    ensures var b, s', h' := Bucket(c.space, k), Step(c, s, m), StepPast(c, s, h, m, now);
            && (Member(s'.mem.heap, h'.g.home, b, k) != Member(s.mem.heap, h.g.home, b, k) <==> CommitsKey(c, s, m, k))
            && (CommitsKey(c, s, m, k) ==> (Member(s.mem.heap, h.g.home, b, k) <==> s.pc[m.t].Del?))
  {
    if Commits(s, m) && s.pc[m.t].Commit? {
      var pc := s.pc[m.t];
      CommitLinks(c, s, h, m);
      LinkKeys(c.space, s.mem, h.g, pc.pred, pc.n, Bucket(c.space, pc.k), m.t, k);
    } else if Commits(s, m) {
      var pc := s.pc[m.t];
      DelUnlinks(c, s, h, m);
      UnlinkKeys(c.space, s.mem, h.g, s.pprev[pc.x], pc.x, Bucket(c.space, pc.k), k);
    } else {
      QuietMember(c, s, h, m, k);
    }
  }

  lemma QuietMember(c: Config, s: State, h: Past, m: Move, k: int)
    requires ValidConfig(c) && Inv(c, s, h) && Enabled(c, s, m) && 0 <= k < c.space.range && !Commits(s, m)
    ensures Member(Step(c, s, m).mem.heap, h.g.home, Bucket(c.space, k), k) <==> Member(s.mem.heap, h.g.home, Bucket(c.space, k), k)
  {
    assert Chain(s.mem.heap, h.g.home, Bucket(c.space, k));
    assert m.Run? ==> PcInv(c, s.mem, h.g, m.t, s.pc[m.t]);
    MemberFrame(s.mem.heap, h.g.home, Step(c, s, m).mem.heap, h.g.home, Bucket(c.space, k), k);
  }

  // ---- toggles that change nothing ----------------------------------------

  /** The step that starts thread t's walk. */
  predicate Begins(c: Config, s: State, m: Move, t: int) {
    Enabled(c, s, m) && m.Run? && m.t == t && Starts(s.pc[t])
  }

  /** Apart from commits, a step adds at most its own thread's walk. */
  lemma WalksStay(c: Config, s: State, h: Past, m: Move, now: nat, t: int)
    requires ValidConfig(c) && t in StepPast(c, s, h, m, now).g.walks && !Begins(c, s, m, t) && !(Enabled(c, s, m) && Commits(s, m))
    ensures var h' := StepPast(c, s, h, m, now);
            && t in h.g.walks && h'.g.walks[t] == h.g.walks[t]
            && (t in h.since ==> t in h'.since && h'.since[t] == h.since[t])
  {
  }

  lemma SeenGrows(c: Config, s: State, h: Past, m: Move, now: nat, t: int)
    requires ValidConfig(c) && t in StepPast(c, s, h, m, now).g.walks && !Begins(c, s, m, t)
    ensures var h' := StepPast(c, s, h, m, now);
            && t in h.g.walks && h'.g.walks[t].k == h.g.walks[t].k
            && (t in h.since ==> t in h'.since && h'.since[t] == h.since[t])
            && h'.g.walks[t].o.seen <= h.g.walks[t].o.seen
                 + {Member(Step(c, s, m).mem.heap, h'.g.home, Bucket(c.space, h.g.walks[t].k), h.g.walks[t].k)}
  {
    if !(Enabled(c, s, m) && Commits(s, m)) { WalksStay(c, s, h, m, now, t); }
  }

  lemma WalkKey(c: Config, sched: seq<Move>, t: int)
    requires ValidConfig(c) && t in History(c, sched).g.walks
    ensures 0 <= History(c, sched).g.walks[t].k < c.space.range
  {
    Invariant(c, sched);
    assert WalkInv(c.space, Exec(c, sched).mem, History(c, sched).g, t);
  }

  /** Every answer recorded as seen was right at an instant since the walk began. */
  lemma {:induction false} SeenMeans(c: Config, sched: seq<Move>, t: int, v: bool) returns (j: nat)
    requires ValidConfig(c) && t in History(c, sched).g.walks && v in History(c, sched).g.walks[t].o.seen
    ensures t in History(c, sched).since && History(c, sched).since[t] <= j <= |sched|
    ensures Answer(c, sched[..j], History(c, sched).g.walks[t].k) == v
  {
    var before, m := sched[..|sched| - 1], sched[|sched| - 1];
    var s, h, h' := Exec(c, before), History(c, before), History(c, sched);
    var k := h'.g.walks[t].k;
    WalkKey(c, sched, t);
    AnswerIsMember(c, sched, k);
    assert sched[..|sched|] == sched;
    if Begins(c, s, m, t) {
      j := |sched|;
    } else {
      SeenGrows(c, s, h, m, |sched|, t);
      if v in h.g.walks[t].o.seen {
        j := SeenMeans(c, before, t, v);
        assert sched[..j] == before[..j];
      } else {
        SinceBounded(c, before, t);
        j := |sched|;
      }
    }
  }

  lemma {:induction false} SinceBounded(c: Config, sched: seq<Move>, t: int)
    requires ValidConfig(c) && t in History(c, sched).g.walks
    ensures t in History(c, sched).since && History(c, sched).since[t] <= |sched|
  {
    if sched != [] {
      var before, m := sched[..|sched| - 1], sched[|sched| - 1];
      Invariant(c, before);
      if !Begins(c, Exec(c, before), m, t) {
        SeenGrows(c, Exec(c, before), History(c, before), m, |sched|, t);
        SinceBounded(c, before, t);
      }
    }
  }

  /**
   Lookups are linearizable, also through marked nodes: a finished lookup that did not
   trip the step guard returned what an uninterrupted lookup would have returned at some
   instant between its start and its end.  It can trip the guard only on a key that has at
   least the limit of smaller keys in its bucket.
   */
  lemma LookupLinearizable(c: Config, sched: seq<Move>, t: int) returns (j: nat)
    requires ValidConfig(c) && 0 <= t < c.threads && Exec(c, sched).pc[t].FDone?
    ensures var pc, since := Exec(c, sched).pc[t], History(c, sched).since;
            if pc.viol then c.limit <= Smaller(c, pc.k) && pc.k < c.space.range
            else t in since && since[t] <= j <= |sched| && Answer(c, sched[..j], pc.k) == pc.ans
  {
    Invariant(c, sched);
    var s, h := Exec(c, sched), History(c, sched);
    assert PcInv(c, s.mem, h.g, t, s.pc[t]) && WalkInv(c.space, s.mem, h.g, t);
    j := 0;
    if !s.pc[t].viol {
      j := SeenMeans(c, sched, t, s.pc[t].ans);
    }
  }

  /**
   A toggle that leaves the table alone is justified: an insert drops its node only if
   its key was present at some instant since the toggle began, and a delete finds its
   victim already marked only if the key was absent at some instant since then.
   */
  lemma LoserJustified(c: Config, sched: seq<Move>, t: int) returns (j: nat)
    requires ValidConfig(c) && 0 <= t < c.threads
    requires var s := Exec(c, sched); s.pc[t].Drop? || (s.pc[t].Del? && s.pc[t].x in s.marked)
    ensures t in History(c, sched).since && History(c, sched).since[t] <= j <= |sched|
    ensures Answer(c, sched[..j], Exec(c, sched).pc[t].k) <==> Exec(c, sched).pc[t].Drop?
  {
    Invariant(c, sched);
    var s, h := Exec(c, sched), History(c, sched);
    var pc := s.pc[t];
    assert PcInv(c, s.mem, h.g, t, pc) && WalkInv(c.space, s.mem, h.g, t);
    if pc.Del? {
      assert pc.x in h.g.walks[t].o.gone;
      assert Departed(s.mem.heap, h.g.home, Bucket(c.space, pc.k), pc.k, h.g.walks[t].o, pc.x);
    }
    j := SeenMeans(c, sched, t, pc.Drop?);
  }
}
