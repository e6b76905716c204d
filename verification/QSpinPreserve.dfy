/** Every step of every thread preserves the invariant, one lemma per kind of access. */
module QSpinPreserve {
  import opened Basics
  import opened QSpinLock
  import opened QSpinHistory
  import opened QSpinInvariant

  predicate Roleless(pc: Pc, l: nat) {
    !Pends(pc, l) && !Queues(pc, l)
  }

  /** A change of a thread that lock l's invariant cannot see. */
  predicate Unseen(a: Thread, b: Thread, l: nat) {
    a == b || (Roleless(a.pc, l) && Roleless(b.pc, l) && (l in a.held <==> l in b.held)
               && (Committed(a.pc, l) ==> Committed(b.pc, l)))
  }

  lemma FrameLock(s: State, s': State, g: Past, l: nat)
    requires l < |s.words| && l < |s'.words| && LockInv(s, g, l)
    requires |s'.th| == |s.th| && s'.words[l] == s.words[l]
    requires forall x :: 0 <= x < |s.th| ==> Unseen(s.th[x], s'.th[x], l)
    ensures LockInv(s', g, l)
  {
    forall i | 0 <= i < |g.q| ensures s'.th[g.q[i]] == s.th[g.q[i]] {
      assert Unseen(s.th[g.q[i]], s'.th[g.q[i]], l);
    }
    assert Members(s', g.q, l);
    if |g.q| < 2 && Rescued(s, g.q, l) {
      var t :| 0 <= t < |s.th| && Committed(s.th[t].pc, l);
      assert Unseen(s.th[t], s'.th[t], l) && Committed(s'.th[t].pc, l);
    }
  }

  /** The frame for every lock other than the one a step is about. */
  lemma FrameOthers(s: State, s': State, h: seq<Past>, h': seq<Past>, l: nat)
    requires |h| == |s.words| == |s'.words| == |h'| && Locks(s, h)
    requires |s'.th| == |s.th| && l < |h|
    requires forall k :: 0 <= k < |h| && k != l ==> s'.words[k] == s.words[k] && h'[k] == h[k]
    requires forall k, x :: k != l && 0 <= x < |s.th| ==> Unseen(s.th[x], s'.th[x], k)
    requires LockInv(s', h'[l], l)
    ensures Locks(s', h')
  {
    forall k | 0 <= k < |h| && k != l ensures LockInv(s', h'[k], k) {
      FrameLock(s, s', h[k], k);
    }
  }

  /** A thread that has no role on any lock before or after; words and history stand still. */
  lemma Outsider(s: State, s': State, h: seq<Past>, t: nat)
    requires Inv(s, h) && t < |s.th|
    requires s'.words == s.words && !s'.fault && |s'.th| == |s.th|
    requires forall x :: 0 <= x < |s.th| && x != t ==> s'.th[x] == s.th[x]
    requires forall l :: 0 <= l < |h| ==> Unseen(s.th[t], s'.th[t], l)
    requires Registry(s') && RoleInv(s', h, t) && NodeInv(s'.th[t])
    ensures Inv(s', h)
  {
    forall l | 0 <= l < |h| ensures LockInv(s', h[l], l) {
      FrameLock(s, s', h[l], l);
    }
    forall x | 0 <= x < |s.th| ensures RoleInv(s', h, x) {
      assert RoleInv(s, h, x);
    }
  }

  /** A step of a thread outside the queue leaves the queue's shape alone. */
  lemma QueueSame(s: State, s': State, q: seq<nat>, t: nat, l: nat)
    requires l < |s.words| && l < |s'.words| && t < |s.th| && |s'.th| == |s.th| && s'.words[l].tail == s.words[l].tail
    requires Members(s, q, l) && TailInv(s, q, l) && LinkInv(s, q, l)
    requires !Queues(s.th[t].pc, l) && forall x :: 0 <= x < |s.th| && x != t ==> s'.th[x] == s.th[x]
    ensures t !in q && (forall i :: 0 <= i < |q| ==> s'.th[q[i]] == s.th[q[i]])
    ensures Members(s', q, l) && TailInv(s', q, l) && LinkInv(s', q, l)
  {
  }

  /** The roles of the other threads survive if the history keeps what it says of them. */
  lemma RolesKept(s: State, s': State, h: seq<Past>, h': seq<Past>, l: nat, t: nat)
    requires |h| == |s.words| == |s'.words| == |h'| && |s'.th| == |s.th| && t < |s.th| && l < |h|
    requires Roles(s, h)
    requires forall x :: 0 <= x < |s.th| && x != t ==> s'.th[x].pc == s.th[x].pc && s'.th[x].held == s.th[x].held
    requires forall k :: 0 <= k < |h| && k != l ==> h'[k] == h[k]
    requires forall x :: x != t && h[l].own == Some(x) ==> h'[l].own == Some(x)
    requires forall x :: x != t && h[l].pend == Some(x) ==> h'[l].pend == Some(x)
    requires forall x :: x != t && x in h[l].q ==> x in h'[l].q
    requires h[l].q != [] && h[l].q[0] != t ==> h'[l].q != [] && h'[l].q[0] == h[l].q[0]
    requires RoleInv(s', h', t)
    ensures Roles(s', h')
  {
    forall x | 0 <= x < |s.th| ensures RoleInv(s', h', x) {
      assert RoleInv(s, h, x);
    }
  }

  /** Registration is untouched by accesses other than dc_qnode_register's. */
  lemma RegKept(s: State, s': State, t: nat)
    requires Registry(s)
    requires |s'.th| == |s.th| && t < |s.th| && s'.tab == s.tab && s'.count == s.count
    requires forall x :: 0 <= x < |s.th| ==> s'.th[x].tail == s.th[x].tail && (x != t ==> s'.th[x].pc == s.th[x].pc)
    requires !s'.th[t].pc.RegStore? && (s'.th[t].pc.RegCount? ==> s.th[t].tail == 0)
    requires Registered(s'.th[t].pc) ==> s.th[t].tail != 0
    ensures Registry(s')
  {
    forall x | 0 <= x < |s.th| ensures RegInv(s', x) {
      assert RegInv(s, x);
    }
  }

  /** What thread t did on lock l is invisible from every other lock. */
  lemma UnseenElsewhere(s: State, s': State, l: nat, t: nat)
    requires |s'.th| == |s.th| && t < |s.th|
    requires forall x :: 0 <= x < |s.th| && x != t && s'.th[x] != s.th[x] ==>
               Queues(s.th[x].pc, l) && s'.th[x] == s.th[x].(node := s'.th[x].node)
    requires !s.th[t].pc.Idle? ==> s.th[t].pc.l == l
    requires !s'.th[t].pc.Idle? ==> s'.th[t].pc.l == l
    requires s'.th[t].held - {l} == s.th[t].held - {l}
    ensures forall k, x :: k != l && 0 <= x < |s.th| ==> Unseen(s.th[x], s'.th[x], k)
  {
    forall k, x | k != l && 0 <= x < |s.th| ensures Unseen(s.th[x], s'.th[x], k) {
      if x == t {
        assert k in s'.th[t].held <==> k in s'.th[t].held - {l};
        assert k in s.th[t].held <==> k in s.th[t].held - {l};
      }
    }
  }

  /** Thread t changed the word and the history of lock l; nobody else changed place. */
  lemma Assemble(s: State, s': State, h: seq<Past>, g': Past, l: nat, t: nat)
    requires Inv(s, h) && l < |h| && t < |s.th|
    requires !s'.fault && |s'.th| == |s.th| && s'.tab == s.tab && s'.count == s.count
    requires |s'.words| == |s.words| && forall k :: 0 <= k < |h| && k != l ==> s'.words[k] == s.words[k]
    requires forall x :: 0 <= x < |s.th| && x != t && s'.th[x] != s.th[x] ==>
               Queues(s.th[x].pc, l) && s'.th[x] == s.th[x].(node := s'.th[x].node)
    requires s'.th[t].tail == s.th[t].tail
    requires !s.th[t].pc.Idle? ==> s.th[t].pc.l == l
    requires !s'.th[t].pc.Idle? ==> s'.th[t].pc.l == l
    requires s'.th[t].held - {l} == s.th[t].held - {l}
    requires !s'.th[t].pc.RegStore? && (s'.th[t].pc.RegCount? ==> s.th[t].tail == 0)
    requires Registered(s'.th[t].pc) ==> s.th[t].tail != 0
    requires forall x :: x != t && h[l].own == Some(x) ==> g'.own == Some(x)
    requires forall x :: x != t && h[l].pend == Some(x) ==> g'.pend == Some(x)
    requires forall x :: x != t && x in h[l].q ==> x in g'.q
    requires h[l].q != [] && h[l].q[0] != t ==> g'.q != [] && g'.q[0] == h[l].q[0]
    requires RoleInv(s', h[l := g'], t) && NodeInv(s'.th[t])
    requires LockInv(s', g', l)
    ensures Inv(s', h[l := g'])
  {
    var h' := h[l := g'];
    RolesKept(s, s', h, h', l, t);
    RegKept(s, s', t);
    UnseenElsewhere(s, s', l, t);
    FrameOthers(s, s', h, h', l);
    NodesKept(s, s', l, t);
  }

  lemma NodesKept(s: State, s': State, l: nat, t: nat)
    requires Nodes(s) && |s'.th| == |s.th| && t < |s.th| && NodeInv(s'.th[t])
    requires forall x :: 0 <= x < |s.th| && x != t && s'.th[x] != s.th[x] ==>
               Queues(s.th[x].pc, l) && s'.th[x] == s.th[x].(node := s'.th[x].node)
    ensures Nodes(s')
  {
    forall x | 0 <= x < |s.th| ensures NodeInv(s'.th[x]) {
      assert NodeInv(s.th[x]);
    }
  }

  ghost predicate Ready(s: State, h: seq<Past>, t: nat) {
    Inv(s, h) && Enabled(s, Move(t, Run))
  }

  ghost predicate Kept(s: State, h: seq<Past>, m: Move)
    requires |h| == |s.words|
  {
    Inv(Step(s, m), StepPast(s, h, m))
  }

  lemma StartKept(s: State, h: seq<Past>, m: Move)
    requires Inv(s, h) && Enabled(s, m) && (m.act.Lock? || m.act.Trylock?)
    ensures Kept(s, h, m)
  {
    assert Step(s, m) == Goto(s, m.t, if m.act.Lock? then LockCas(m.act.l) else TryLoad(m.act.l));
    assert StepPast(s, h, m) == h;
    StartTo(s, h, m.t, m.act.l, m.act.Lock?);
  }

  lemma StartTo(s: State, h: seq<Past>, t: nat, l: nat, lock: bool)
    requires Inv(s, h) && t < |s.th| && s.th[t].pc.Idle? && l < |s.words|
    ensures Inv(Goto(s, t, if lock then LockCas(l) else TryLoad(l)), h)
  {
    var s' := Goto(s, t, if lock then LockCas(l) else TryLoad(l));
    assert RoleInv(s, h, t) && RegInv(s, t);
    RegKept(s, s', t);
    Outsider(s, s', h, t);
  }

  predicate Cas(pc: Pc) {
    pc.LockCas? || pc.TryCas? || pc.QTryCas?
  }

  /** Accesses that leave the word alone and change no role. */
  predicate Local(pc: Pc, w: Word) {
    || pc.TryLoad? || pc.PendSpin? || pc.RegCount? || pc.RegStore? || pc.Aborting?
    || pc.InitLocked? || pc.InitNext? || pc.QTryLoad?
    || (Cas(pc) && w != FREE)
    || (pc.PendOr? && w.pending)
  }

  lemma LocalKept(s: State, h: seq<Past>, t: nat)
    requires Ready(s, h, t) && Local(s.th[t].pc, s.words[s.th[t].pc.l])
    ensures Kept(s, h, Move(t, Run))
  {
    var s' := Access(s, t);
    assert StepPast(s, h, Move(t, Run)) == h;
    assert RoleInv(s, h, t);
    LocalRole(s, h, t);
    LocalTable(s, t);
    LocalShape(s, t);
    Outsider(s, s', h, t);
  }

  lemma LocalShape(s: State, t: nat)
    requires Enabled(s, Move(t, Run)) && Local(s.th[t].pc, s.words[s.th[t].pc.l])
    ensures Access(s, t).words == s.words && !Access(s, t).fault
    ensures forall x :: 0 <= x < |s.th| && x != t ==> Access(s, t).th[x] == s.th[x]
    ensures forall l :: Unseen(s.th[t], Access(s, t).th[t], l)
    ensures NodeInv(s.th[t]) ==> NodeInv(Access(s, t).th[t])
  {
    if SettingUp(s.th[t].pc) { SetupShape(s, t); } else { ProbeShape(s, t); }
  }

  /** Registration and initialisation of the queue node. */
  predicate SettingUp(pc: Pc) { pc.RegCount? || pc.RegStore? || pc.Aborting? || pc.InitLocked? || pc.InitNext? }

  lemma SetupShape(s: State, t: nat)
    requires Enabled(s, Move(t, Run)) && SettingUp(s.th[t].pc)
    ensures Access(s, t).words == s.words && !Access(s, t).fault
    ensures forall x :: 0 <= x < |s.th| && x != t ==> Access(s, t).th[x] == s.th[x]
    ensures forall l :: Unseen(s.th[t], Access(s, t).th[t], l)
    ensures NodeInv(s.th[t]) ==> NodeInv(Access(s, t).th[t])
  {
  }

  lemma ProbeShape(s: State, t: nat)
    requires Enabled(s, Move(t, Run)) && Local(s.th[t].pc, s.words[s.th[t].pc.l]) && !SettingUp(s.th[t].pc)
    ensures Access(s, t).words == s.words && !Access(s, t).fault
    ensures forall x :: 0 <= x < |s.th| && x != t ==> Access(s, t).th[x] == s.th[x]
    ensures forall l :: Unseen(s.th[t], Access(s, t).th[t], l)
    ensures NodeInv(s.th[t]) ==> NodeInv(Access(s, t).th[t])
  {
  }

  lemma LocalRole(s: State, h: seq<Past>, t: nat)
    requires Enabled(s, Move(t, Run)) && Local(s.th[t].pc, s.words[s.th[t].pc.l])
    requires |h| == |s.words| && RoleInv(s, h, t)
    ensures RoleInv(Access(s, t), h, t)
  {
  }

  lemma LocalTable(s: State, t: nat)
    requires Enabled(s, Move(t, Run)) && Local(s.th[t].pc, s.words[s.th[t].pc.l])
    requires Registry(s)
    ensures Registry(Access(s, t))
  {
    if s.th[t].pc.RegCount? {
      CountTable(s, t);
    } else if s.th[t].pc.RegStore? {
      StoreTable(s, t);
    } else {
      assert RegInv(s, t);
      LocalShape(s, t);
      RegKept(s, Access(s, t), t);
    }
  }

  lemma CountTable(s: State, t: nat)
    requires Enabled(s, Move(t, Run)) && s.th[t].pc.RegCount?
    requires Registry(s)
    ensures Registry(Access(s, t))
  {
    var s' := Access(s, t);
    forall x | 0 <= x < |s.th| ensures RegInv(s', x) && (x != t && s'.th[x].pc.RegStore? ==> s'.th[x].pc.idx < s.count) {
      assert RegInv(s, x);
    }
  }

  lemma StoreTable(s: State, t: nat)
    requires Enabled(s, Move(t, Run)) && s.th[t].pc.RegStore?
    requires Registry(s)
    ensures Registry(Access(s, t))
  {
    var s' := Access(s, t);
    assert RegInv(s, t);
    forall x | 0 <= x < |s.th| ensures RegInv(s', x) {
      assert RegInv(s, x);
    }
  }

  lemma UnlockLock(s: State, s': State, g: Past, t: nat, l: nat)
    requires l < |s.words| && t < |s.th| && LockInv(s, g, l) && s.th[t].pc.Idle? && g.own == Some(t)
    requires s'.words == s.words[l := s.words[l].(locked := false)]
    requires s'.th == s.th[t := s.th[t].(held := s.th[t].held - {l})]
    ensures LockInv(s', g.(own := None), l)
  {
    QueueSame(s, s', g.q, t, l);
    RescuedKept(s, s', g.q, l);
  }

  lemma RescuedKept(s: State, s': State, q: seq<nat>, l: nat)
    requires |s'.th| == |s.th| && forall x :: 0 <= x < |s.th| ==> (Committed(s.th[x].pc, l) ==> Committed(s'.th[x].pc, l))
    ensures Rescued(s, q, l) ==> Rescued(s', q, l)
  {
    if |q| < 2 && Rescued(s, q, l) {
      var c :| 0 <= c < |s.th| && Committed(s.th[c].pc, l);
      assert Committed(s'.th[c].pc, l);
    }
  }

  lemma UnlockKept(s: State, h: seq<Past>, m: Move)
    requires Inv(s, h) && Enabled(s, m) && m.act.Unlock?
    ensures Kept(s, h, m)
  {
    var s', l, t := Step(s, m), m.act.l, m.t;
    assert RoleInv(s, h, t) && LockInv(s, h[l], l);
    UnlockLock(s, s', h[l], t, l);
    Assemble(s, s', h, h[l].(own := None), l, t);
  }

  lemma FastLock(s: State, s': State, g: Past, t: nat, l: nat)
    requires l < |s.words| && t < |s.th| && LockInv(s, g, l) && Roleless(s.th[t].pc, l)
    requires s.words[l] == FREE && g.q == []
    requires s'.words == s.words[l := FREE.(locked := true)]
    requires s'.th == s.th[t := s.th[t].(pc := Idle, held := s.th[t].held + {l})]
    ensures LockInv(s', Took(g, t, Fast), l)
  {
  }

  /** A nonempty queue keeps the tail nonzero: every queued thread has registered its node. */
  lemma BusyTail(s: State, h: seq<Past>, l: nat)
    requires Inv(s, h) && l < |h| && h[l].q != []
    ensures s.words[l].tail != 0
  {
    assert LockInv(s, h[l], l);
    var x := h[l].q[|h[l].q| - 1];
    assert RegInv(s, x) && Registered(s.th[x].pc);
  }

  /** The word was 0: cmpxchg 0 -> locked. */
  lemma FastKept(s: State, h: seq<Past>, t: nat)
    requires Ready(s, h, t) && Cas(s.th[t].pc) && s.words[s.th[t].pc.l] == FREE
    ensures Kept(s, h, Move(t, Run))
  {
    var s', l := Access(s, t), s.th[t].pc.l;
    assert RoleInv(s, h, t) && LockInv(s, h[l], l);
    if h[l].q != [] { BusyTail(s, h, l); }
    FastLock(s, s', h[l], t, l);
    Assemble(s, s', h, Took(h[l], t, Fast), l, t);
  }

  // ---- the pending byte ---------------------------------------------------

  /** A fetch_or that really set the bit makes t the pending byte's only owner. */
  lemma PendOrLock(s: State, s': State, g: Past, t: nat, l: nat)
    requires l < |s.words| && t < |s.th| && LockInv(s, g, l) && s.th[t].pc == PendOr(l)
    requires !s.words[l].pending && (s.words[l].tail == 0 ==> g.q == [])
    requires s'.words == s.words[l := s.words[l].(pending := true)]
    requires s'.th == s.th[t := s.th[t].(pc := if s.words[l].tail != 0 then PendUndo(l)
                                               else if s.words[l].locked then PendWait(l) else PendTake(l))]
    ensures LockInv(s', g.(pend := Some(t)), l)
  {
    QueueSame(s, s', g.q, t, l);
    RescuedKept(s, s', g.q, l);
  }

  lemma PendOrShape(s: State, h: seq<Past>, t: nat)
    requires Enabled(s, Move(t, Run)) && |h| == |s.words| && s.th[t].pc.PendOr? && !s.words[s.th[t].pc.l].pending
    ensures var l, w := s.th[t].pc.l, s.words[s.th[t].pc.l];
            && StepPast(s, h, Move(t, Run)) == h[l := h[l].(pend := Some(t))]
            && Access(s, t) == s.(words := s.words[l := w.(pending := true)],
                                  th := s.th[t := s.th[t].(pc := if w.tail != 0 then PendUndo(l) else if w.locked then PendWait(l) else PendTake(l))])
  {
  }

  lemma PendOrKept(s: State, h: seq<Past>, t: nat)
    requires Ready(s, h, t) && s.th[t].pc.PendOr? && !s.words[s.th[t].pc.l].pending
    ensures Kept(s, h, Move(t, Run))
  {
    var s', l := Access(s, t), s.th[t].pc.l;
    PendOrShape(s, h, t);
    assert RoleInv(s, h, t) && LockInv(s, h[l], l);
    if h[l].q != [] { BusyTail(s, h, l); }
    PendOrLock(s, s', h[l], t, l);
    Assemble(s, s', h, h[l].(pend := Some(t)), l, t);
  }

  lemma PendUndoLock(s: State, s': State, g: Past, t: nat, l: nat)
    requires l < |s.words| && t < |s.th| && LockInv(s, g, l) && s.th[t].pc == PendUndo(l) && g.pend == Some(t)
    requires s'.words == s.words[l := s.words[l].(pending := false)]
    requires s'.th == s.th[t := s.th[t].(pc := if s.th[t].tail != 0 then InitLocked(l) else RegCount(l))]
    ensures LockInv(s', g.(pend := None), l)
  {
    QueueSame(s, s', g.q, t, l);
    RescuedKept(s, s', g.q, l);
  }

  lemma PendUndoKept(s: State, h: seq<Past>, t: nat)
    requires Ready(s, h, t) && s.th[t].pc.PendUndo?
    ensures Kept(s, h, Move(t, Run))
  {
    var s', l := Access(s, t), s.th[t].pc.l;
    assert RoleInv(s, h, t) && LockInv(s, h[l], l);
    PendUndoLock(s, s', h[l], t, l);
    Assemble(s, s', h, h[l].(pend := None), l, t);
  }

  lemma PendWaitLock(s: State, s': State, g: Past, t: nat, l: nat)
    requires l < |s.words| && t < |s.th| && LockInv(s, g, l) && s.th[t].pc == PendWait(l) && g.pend == Some(t)
    requires !s.words[l].locked && s'.words == s.words
    requires s'.th == s.th[t := s.th[t].(pc := PendTake(l))]
    ensures LockInv(s', g, l)
  {
    QueueSame(s, s', g.q, t, l);
    RescuedKept(s, s', g.q, l);
  }

  lemma PendWaitKept(s: State, h: seq<Past>, t: nat)
    requires Ready(s, h, t) && s.th[t].pc.PendWait?
    ensures Kept(s, h, Move(t, Run))
  {
    var s', l := Access(s, t), s.th[t].pc.l;
    assert RoleInv(s, h, t) && LockInv(s, h[l], l);
    assert StepPast(s, h, Move(t, Run)) == h == h[l := h[l]];
    if !s.words[l].locked {
      PendWaitLock(s, s', h[l], t, l);
      Assemble(s, s', h, h[l], l, t);
    }
  }

  /** The legitimate pending waiter excludes every claiming queue head. */
  lemma PendTakeLock(s: State, s': State, g: Past, t: nat, l: nat)
    requires l < |s.words| && t < |s.th| && LockInv(s, g, l) && s.th[t].pc == PendTake(l) && g.pend == Some(t)
    requires s'.words == s.words[l := s.words[l].(locked := true, pending := false)]
    requires s'.th == s.th[t := s.th[t].(pc := Idle, held := s.th[t].held + {l})]
    ensures LockInv(s', Took(g, t, Waited).(pend := None), l)
  {
    QueueSame(s, s', g.q, t, l);
    RescuedKept(s, s', g.q, l);
  }

  lemma PendTakeKept(s: State, h: seq<Past>, t: nat)
    requires Ready(s, h, t) && s.th[t].pc.PendTake?
    ensures Kept(s, h, Move(t, Run))
  {
    var s', l := Access(s, t), s.th[t].pc.l;
    assert RoleInv(s, h, t) && LockInv(s, h[l], l);
    PendTakeLock(s, s', h[l], t, l);
    Assemble(s, s', h, Took(h[l], t, Waited).(pend := None), l, t);
  }

  // ---- joining the queue --------------------------------------------------

  lemma Join(s: State, s': State, q: seq<nat>, t: nat, l: nat)
    requires l < |s.words| && l < |s'.words| && t < |s.th| && s.th[t].node == Node(None, false) && !Queues(s.th[t].pc, l)
    requires Members(s, q, l) && LinkInv(s, q, l) && TailInv(s, q, l) && (q == [] <==> s.words[l].tail == 0)
    requires s'.th == s.th[t := s.th[t].(pc := if s.words[l].tail != 0 then LoadPrev(l, s.words[l].tail)
                                               else HeadWait(l, None))]
    requires s'.words[l].tail == s.th[t].tail
    ensures Members(s', q + [t], l) && LinkInv(s', q + [t], l) && TailInv(s', q + [t], l)
    ensures forall i :: 0 <= i < |q| ==> s'.th[q[i]] == s.th[q[i]]
  {
    var q' := q + [t];
    assert forall i :: 0 <= i < |q| ==> q'[i] == q[i] && s'.th[q[i]] == s.th[q[i]];
    assert Members(s', q', l);
    if q != [] {
      assert Follower(s', t, q[|q| - 1], l);
    }
  }

  lemma TailXchgLock(s: State, s': State, g: Past, t: nat, l: nat)
    requires l < |s.words| && t < |s.th| && LockInv(s, g, l) && s.th[t].pc == TailXchg(l)
    requires s.th[t].node == Node(None, false) && (g.q == [] <==> s.words[l].tail == 0)
    requires s'.words == s.words[l := s.words[l].(tail := s.th[t].tail)]
    requires s'.th == s.th[t := s.th[t].(pc := if s.words[l].tail != 0 then LoadPrev(l, s.words[l].tail)
                                               else HeadWait(l, None))]
    ensures LockInv(s', g.(q := g.q + [t], log := g.log + [Exchanged(t)]), l)
  {
    Join(s, s', g.q, t, l);
  }

  lemma TailXchgShape(s: State, h: seq<Past>, t: nat)
    requires Enabled(s, Move(t, Run)) && |h| == |s.words| && s.th[t].pc.TailXchg?
    ensures var l, w := s.th[t].pc.l, s.words[s.th[t].pc.l];
            && StepPast(s, h, Move(t, Run)) == h[l := h[l].(q := h[l].q + [t], log := h[l].log + [Exchanged(t)])]
            && Access(s, t) == s.(words := s.words[l := w.(tail := s.th[t].tail)],
                                  th := s.th[t := s.th[t].(pc := if w.tail != 0 then LoadPrev(l, w.tail) else HeadWait(l, None))])
  {
  }

  lemma TailXchgTo(s: State, h: seq<Past>, t: nat, s': State)
    requires Ready(s, h, t) && s.th[t].pc.TailXchg?
    requires var l, w := s.th[t].pc.l, s.words[s.th[t].pc.l];
             s' == s.(words := s.words[l := w.(tail := s.th[t].tail)],
                      th := s.th[t := s.th[t].(pc := if w.tail != 0 then LoadPrev(l, w.tail) else HeadWait(l, None))])
    ensures var l := s.th[t].pc.l; l < |h| && Inv(s', h[l := h[l].(q := h[l].q + [t], log := h[l].log + [Exchanged(t)])])
  {
    var l := s.th[t].pc.l;
    assert RoleInv(s, h, t) && RegInv(s, t) && NodeInv(s.th[t]) && LockInv(s, h[l], l);
    if h[l].q != [] { BusyTail(s, h, l); }
    TailXchgLock(s, s', h[l], t, l);
    var g' := h[l].(q := h[l].q + [t], log := h[l].log + [Exchanged(t)]);
    assert t == g'.q[|h[l].q|];
    Assemble(s, s', h, g', l, t);
  }

  lemma TailXchgKept(s: State, h: seq<Past>, t: nat)
    requires Ready(s, h, t) && s.th[t].pc.TailXchg?
    ensures Kept(s, h, Move(t, Run))
  {
    TailXchgShape(s, h, t);
    TailXchgTo(s, h, t, Access(s, t));
  }

  /** Position of a queued thread behind the head, and the predecessor it names. */
  lemma Place(s: State, h: seq<Past>, t: nat, l: nat) returns (i: nat)
    requires Inv(s, h) && l < |h| && t < |s.th| && Queues(s.th[t].pc, l)
    requires s.th[t].pc.LoadPrev? || s.th[t].pc.LinkPrev?
    ensures 0 < i < |h[l].q| && h[l].q[i] == t && LockInv(s, h[l], l)
    ensures h[l].q[i - 1] < |s.th| && Follower(s, t, h[l].q[i - 1], l)
    ensures s.th[t].pc.LoadPrev? ==> s.th[t].pc.pred != 0 && s.th[t].pc.pred - 1 in s.tab && s.tab[s.th[t].pc.pred - 1] == h[l].q[i - 1]
  {
    assert RoleInv(s, h, t) && LockInv(s, h[l], l);
    var q := h[l].q;
    i :| 0 <= i < |q| && q[i] == t;
    assert i != 0;
    assert Follower(s, q[i], q[i - 1], l);
    assert RegInv(s, q[i - 1]) && Registered(s.th[q[i - 1]].pc);
  }

  lemma LoadPrevLinks(s: State, s': State, q: seq<nat>, t: nat, l: nat, i: nat)
    requires Members(s, q, l) && LinkInv(s, q, l) && 0 < i < |q| && q[i] == t && s.th[t].pc.LoadPrev?
    requires s'.th == s.th[t := s.th[t].(pc := LinkPrev(l, q[i - 1]))]
    ensures Members(s', q, l) && LinkInv(s', q, l)
  {
    assert forall j :: 0 <= j < |q| && j != i ==> s'.th[q[j]] == s.th[q[j]];
    assert Members(s', q, l);
    forall j, k | 0 <= j < |q| && k == j + 1 < |q|
      ensures Follower(s', q[k], q[j], l) && s'.th[q[j]].node.next == NextOf(s', q[k], l)
    {
      assert Follower(s, q[k], q[j], l);
    }
  }

  lemma LoadPrevLock(s: State, s': State, g: Past, t: nat, l: nat, i: nat)
    requires l < |s.words| && LockInv(s, g, l) && 0 < i < |g.q| && g.q[i] == t && s.th[t].pc.LoadPrev?
    requires s'.words == s.words && s'.th == s.th[t := s.th[t].(pc := LinkPrev(l, g.q[i - 1]))]
    ensures LockInv(s', g, l)
  {
    LoadPrevLinks(s, s', g.q, t, l, i);
    RescuedKept(s, s', g.q, l);
    HeadFrame(s, s', g, l);
  }

  lemma LoadPrevKept(s: State, h: seq<Past>, t: nat)
    requires Ready(s, h, t) && s.th[t].pc.LoadPrev?
    ensures Kept(s, h, Move(t, Run))
  {
    var s', l := Access(s, t), s.th[t].pc.l;
    var i := Place(s, h, t, l);
    LoadPrevLock(s, s', h[l], t, l, i);
    assert RoleInv(s, h, t) && RegInv(s, t);
    assert StepPast(s, h, Move(t, Run)) == h == h[l := h[l]];
    Assemble(s, s', h, h[l], l, t);
  }

  lemma LinkPrevLock(s: State, s': State, g: Past, t: nat, l: nat, i: nat)
    requires l < |s.words| && LockInv(s, g, l) && 0 < i < |g.q| && g.q[i] == t && s.th[t].pc == LinkPrev(l, g.q[i - 1])
    requires s'.words == s.words && |s'.th| == |s.th|
    requires s'.th[t] == s.th[t].(pc := WaitNode(l))
    requires s'.th[g.q[i - 1]] == s.th[g.q[i - 1]].(node := s.th[g.q[i - 1]].node.(next := Some(t)))
    requires forall x :: 0 <= x < |s.th| && x != t && x != g.q[i - 1] ==> s'.th[x] == s.th[x]
    ensures LockInv(s', g, l)
  {
    var q := g.q;
    assert forall j :: 0 <= j < |q| && j != i && j != i - 1 ==> s'.th[q[j]] == s.th[q[j]];
    assert Members(s', q, l);
    LinkPrevLinks(s, s', q, t, l, i);
    RescuedKept(s, s', q, l);
    HeadFrame(s, s', g, l);
  }

  lemma LinkPrevLinks(s: State, s': State, q: seq<nat>, t: nat, l: nat, i: nat)
    requires Members(s, q, l) && LinkInv(s, q, l) && 0 < i < |q| && q[i] == t && |s'.th| == |s.th| && Members(s', q, l)
    requires s.th[t].pc == LinkPrev(l, q[i - 1])
    requires s'.th[t] == s.th[t].(pc := WaitNode(l))
    requires s'.th[q[i - 1]] == s.th[q[i - 1]].(node := s.th[q[i - 1]].node.(next := Some(t)))
    requires forall j :: 0 <= j < |q| && j != i && j != i - 1 ==> s'.th[q[j]] == s.th[q[j]]
    ensures LinkInv(s', q, l)
  {
    forall j, k | 0 <= j < |q| && k == j + 1 < |q|
      ensures Follower(s', q[k], q[j], l) && s'.th[q[j]].node.next == NextOf(s', q[k], l)
    {
      assert Follower(s, q[k], q[j], l);
    }
  }

  /** The head's own knowledge, when a queued thread other than the head moves. */
  lemma HeadFrame(s: State, s': State, g: Past, l: nat)
    requires l < |s.words| && l < |s'.words| && Members(s, g.q, l) && Members(s', g.q, l) && HeadInv(s, g, l)
    requires |s'.th| == |s.th| && s'.words[l].locked == s.words[l].locked
    requires g.q != [] ==> s'.th[g.q[0]].pc == s.th[g.q[0]].pc && (s.th[g.q[0]].node.locked ==> s'.th[g.q[0]].node.locked)
    requires |g.q| >= 2 && s.th[g.q[1]].pc == WaitNode(l) ==> s'.th[g.q[1]].pc == WaitNode(l)
    requires g.pend.Some? && g.pend.value < |s.th| ==> s'.th[g.pend.value].pc == s.th[g.pend.value].pc
    requires Rescued(s, g.q, l) ==> Rescued(s', g.q, l)
    ensures HeadInv(s', g, l)
  {
  }

  lemma LinkPrevKept(s: State, h: seq<Past>, t: nat)
    requires Ready(s, h, t) && s.th[t].pc.LinkPrev?
    ensures Kept(s, h, Move(t, Run))
  {
    var s', l := Access(s, t), s.th[t].pc.l;
    var i := Place(s, h, t, l);
    LinkPrevLock(s, s', h[l], t, l, i);
    assert RoleInv(s, h, t) && RegInv(s, t);
    assert StepPast(s, h, Move(t, Run)) == h == h[l := h[l]];
    Assemble(s, s', h, h[l], l, t);
  }

  // ---- the queue head -----------------------------------------------------

  /** The head moves on; nobody else's place in the queue changes. */
  lemma HeadLinks(s: State, s': State, q: seq<nat>, t: nat, l: nat, pc: Pc)
    requires l < |s.words| && l < |s'.words| && Members(s, q, l) && LinkInv(s, q, l) && TailInv(s, q, l)
    requires q != [] && q[0] == t && Queues(pc, l) && s'.words[l].tail == s.words[l].tail
    requires s'.th == s.th[t := s.th[t].(pc := pc)]
    ensures Members(s', q, l) && LinkInv(s', q, l) && TailInv(s', q, l)
  {
    assert forall j :: 0 < j < |q| ==> s'.th[q[j]] == s.th[q[j]];
    assert Members(s', q, l);
    forall j, k | 0 <= j < |q| && k == j + 1 < |q|
      ensures Follower(s', q[k], q[j], l) && s'.th[q[j]].node.next == NextOf(s', q[k], l)
    {
      assert Follower(s, q[k], q[j], l);
    }
  }

  /** What node->next tells the head. */
  lemma HeadNext(s: State, q: seq<nat>, l: nat)
    requires Members(s, q, l) && LinkInv(s, q, l) && q != []
    ensures s.th[q[0]].node.next.Some? ==> |q| >= 2 && s.th[q[0]].node.next == NextOf(s, q[1], l)
  {
    if |q| >= 2 {
      assert s.th[q[0]].node.next == NextOf(s, q[1], l);
    }
  }

  /** The head passes from WaitNode to LoadNext to HeadWait, and from WaitNext to Handoff. */
  lemma HeadStepLock(s: State, s': State, g: Past, t: nat, l: nat, pc: Pc)
    requires l < |s.words| && LockInv(s, g, l) && g.q != [] && g.q[0] == t
    requires || (s.th[t].pc.WaitNode? && s.th[t].node.locked && pc == LoadNext(l))
             || (s.th[t].pc.LoadNext? && pc == HeadWait(l, s.th[t].node.next))
             || (s.th[t].pc.WaitNext? && s.th[t].node.next.Some? && pc == Handoff(l, s.th[t].node.next.value))
    requires s'.words == s.words && s'.th == s.th[t := s.th[t].(pc := pc)]
    ensures LockInv(s', g, l)
  {
    HeadLinks(s, s', g.q, t, l, pc);
    HeadNext(s, g.q, l);
  }

  /** What the three loads of a queued thread do: nothing, or a step to the next program point. */
  lemma HeadStepShape(s: State, h: seq<Past>, t: nat)
    requires Enabled(s, Move(t, Run)) && |h| == |s.words| && (s.th[t].pc.WaitNode? || s.th[t].pc.LoadNext? || s.th[t].pc.WaitNext?)
    ensures var s', l := Access(s, t), s.th[t].pc.l;
            && StepPast(s, h, Move(t, Run)) == h == h[l := h[l]]
            && (s' == s || (&& s' == s.(th := s.th[t := s.th[t].(pc := s'.th[t].pc)])
                            && (|| (s.th[t].pc.WaitNode? && s.th[t].node.locked && s'.th[t].pc == LoadNext(l))
                                || (s.th[t].pc.LoadNext? && s'.th[t].pc == HeadWait(l, s.th[t].node.next))
                                || (s.th[t].pc.WaitNext? && s.th[t].node.next.Some? && s'.th[t].pc == Handoff(l, s.th[t].node.next.value)))))
  {
  }

  lemma HeadStepKept(s: State, h: seq<Past>, t: nat)
    requires Ready(s, h, t) && (s.th[t].pc.WaitNode? || s.th[t].pc.LoadNext? || s.th[t].pc.WaitNext?)
    ensures Kept(s, h, Move(t, Run))
  {
    HeadStepShape(s, h, t);
    if Access(s, t) != s {
      HeadStepTo(s, h, t, Access(s, t).th[t].pc);
    }
  }

  lemma HeadStepTo(s: State, h: seq<Past>, t: nat, pc: Pc)
    requires Ready(s, h, t)
    requires var l := s.th[t].pc.l;
             || (s.th[t].pc.WaitNode? && s.th[t].node.locked && pc == LoadNext(l))
             || (s.th[t].pc.LoadNext? && pc == HeadWait(l, s.th[t].node.next))
             || (s.th[t].pc.WaitNext? && s.th[t].node.next.Some? && pc == Handoff(l, s.th[t].node.next.value))
    ensures Inv(s.(th := s.th[t := s.th[t].(pc := pc)]), h)
  {
    var s', l := s.(th := s.th[t := s.th[t].(pc := pc)]), s.th[t].pc.l;
    assert RoleInv(s, h, t) && RegInv(s, t) && LockInv(s, h[l], l);
    HandedIsHead(s, h[l], t, l);
    HeadStepLock(s, s', h[l], t, l, pc);
    assert h == h[l := h[l]];
    Assemble(s, s', h, h[l], l, t);
  }

  /** Only the thread at the front of the queue has been handed headship. */
  lemma HandedIsHead(s: State, g: Past, t: nat, l: nat)
    requires l < |s.words| && LockInv(s, g, l) && t in g.q
    requires s.th[t].node.locked || Heads(s.th[t].pc, l)
    ensures g.q != [] && g.q[0] == t
  {
    forall j | 0 < j < |g.q| ensures !s.th[g.q[j]].node.locked && !Heads(s.th[g.q[j]].pc, l) {
      assert Follower(s, g.q[j], g.q[j - 1], l);
    }
  }

  /** Two queued threads have the same tail only if they are the same. */
  lemma TailNames(s: State, t: nat, u: nat)
    requires Registry(s) && t < |s.th| && u < |s.th| && s.th[t].tail == s.th[u].tail != 0
    ensures t == u
  {
    assert RegInv(s, t) && RegInv(s, u);
  }

  /** If the tail names the head, the head is alone in the queue. */
  lemma LoneHead(s: State, h: seq<Past>, t: nat, l: nat)
    requires Inv(s, h) && l < |h| && h[l].q != [] && h[l].q[0] == t
    ensures t < |s.th| && (s.words[l].tail == s.th[t].tail <==> |h[l].q| == 1)
  {
    assert LockInv(s, h[l], l);
    var u := h[l].q[|h[l].q| - 1];
    assert RegInv(s, u) && Registered(s.th[u].pc);
    if s.words[l].tail == s.th[t].tail {
      TailNames(s, t, u);
    }
  }

  lemma HeadWaitLock(s: State, s': State, g: Past, t: nat, l: nat, pc: Pc)
    requires l < |s.words| && LockInv(s, g, l) && g.q != [] && g.q[0] == t && s.th[t].pc.HeadWait?
    requires !s.words[l].locked && !s.words[l].pending
    requires pc == HeadCas(l, s.th[t].pc.next) || (pc == HeadByte(l, s.th[t].pc.next) && |g.q| >= 2)
    requires s'.words == s.words && s'.th == s.th[t := s.th[t].(pc := pc)]
    ensures LockInv(s', g, l)
  {
    HeadLinks(s, s', g.q, t, l, pc);
  }

  lemma HeadWaitKept(s: State, h: seq<Past>, t: nat)
    requires Ready(s, h, t) && s.th[t].pc.HeadWait?
    ensures Kept(s, h, Move(t, Run))
  {
    var s', l := Access(s, t), s.th[t].pc.l;
    assert RoleInv(s, h, t) && RegInv(s, t) && LockInv(s, h[l], l);
    assert StepPast(s, h, Move(t, Run)) == h == h[l := h[l]];
    if s' != s {
      LoneHead(s, h, t, l);
      HeadWaitLock(s, s', h[l], t, l, s'.th[t].pc);
      Assemble(s, s', h, h[l], l, t);
    }
  }

  /** n,0,0 -> 0,0,1: the queue empties. */
  lemma HeadTakeLock(s: State, s': State, g: Past, t: nat, l: nat)
    requires l < |s.words| && LockInv(s, g, l) && g.q == [t] && s.th[t].pc.HeadCas? && !s.words[l].pending
    requires s'.words == s.words[l := Word(true, false, 0)]
    requires s'.th == s.th[t := s.th[t].(pc := Idle, held := s.th[t].held + {l})]
    ensures LockInv(s', Took(g, t, Queued).(q := []), l)
  {
  }

  /** The cmpxchg failed: a follower has come, or a racer's pending bit is in flight. */
  lemma HeadMissLock(s: State, s': State, g: Past, t: nat, l: nat)
    requires l < |s.words| && LockInv(s, g, l) && g.q != [] && g.q[0] == t && s.th[t].pc.HeadCas?
    requires s.words[l].pending || |g.q| >= 2
    requires s'.words == s.words && s'.th == s.th[t := s.th[t].(pc := HeadByte(l, s.th[t].pc.next))]
    ensures LockInv(s', g, l)
  {
    HeadLinks(s, s', g.q, t, l, s'.th[t].pc);
    if |g.q| < 2 {
      assert Committed(s'.th[g.pend.value].pc, l);
    }
    assert Rescued(s', g.q, l);
  }

  lemma HeadCasKept(s: State, h: seq<Past>, t: nat)
    requires Ready(s, h, t) && s.th[t].pc.HeadCas?
    ensures Kept(s, h, Move(t, Run))
  {
    var s', l := Access(s, t), s.th[t].pc.l;
    assert RoleInv(s, h, t) && RegInv(s, t) && LockInv(s, h[l], l);
    LoneHead(s, h, t, l);
    if s.words[l] == Word(false, false, s.th[t].tail) {
      HeadTakeLock(s, s', h[l], t, l);
      Assemble(s, s', h, Took(h[l], t, Queued).(q := []), l, t);
    } else {
      assert StepPast(s, h, Move(t, Run)) == h == h[l := h[l]];
      HeadMissLock(s, s', h[l], t, l);
      Assemble(s, s', h, h[l], l, t);
    }
  }

  /** The head takes the locked byte alone; a transient pending bit may be set. */
  lemma HeadByteLock(s: State, s': State, g: Past, t: nat, l: nat, pc: Pc)
    requires l < |s.words| && LockInv(s, g, l) && g.q != [] && g.q[0] == t && s.th[t].pc.HeadByte?
    requires pc == if s.th[t].pc.next.None? then WaitNext(l) else Handoff(l, s.th[t].pc.next.value)
    requires s'.words == s.words[l := s.words[l].(locked := true)] && s'.th == s.th[t := s.th[t].(pc := pc)]
    ensures LockInv(s', Took(g, t, Queued), l)
  {
    HeadLinks(s, s', g.q, t, l, pc);
    RescuedKept(s, s', g.q, l);
  }

  lemma HeadByteShape(s: State, h: seq<Past>, t: nat)
    requires Enabled(s, Move(t, Run)) && |h| == |s.words| && s.th[t].pc.HeadByte?
    ensures var l, next := s.th[t].pc.l, s.th[t].pc.next;
            && StepPast(s, h, Move(t, Run)) == h[l := Took(h[l], t, Queued)]
            && Access(s, t) == s.(words := s.words[l := s.words[l].(locked := true)],
                                  th := s.th[t := s.th[t].(pc := if next.None? then WaitNext(l) else Handoff(l, next.value))])
  {
  }

  lemma HeadByteTo(s: State, h: seq<Past>, t: nat, s': State)
    requires Ready(s, h, t) && s.th[t].pc.HeadByte?
    requires var l, next := s.th[t].pc.l, s.th[t].pc.next;
             s' == s.(words := s.words[l := s.words[l].(locked := true)],
                      th := s.th[t := s.th[t].(pc := if next.None? then WaitNext(l) else Handoff(l, next.value))])
    ensures var l := s.th[t].pc.l; l < |h| && Inv(s', h[l := Took(h[l], t, Queued)])
  {
    var l := s.th[t].pc.l;
    assert RoleInv(s, h, t) && RegInv(s, t) && LockInv(s, h[l], l);
    HeadByteLock(s, s', h[l], t, l, s'.th[t].pc);
    HeadByteRole(s, h, t, s');
    assert s'.th[t].held == s.th[t].held && s'.th[t].node == s.th[t].node;
    Assemble(s, s', h, Took(h[l], t, Queued), l, t);
  }

  lemma HeadByteRole(s: State, h: seq<Past>, t: nat, s': State)
    requires t < |s.th| && |h| == |s.words| && RoleInv(s, h, t) && s.th[t].pc.HeadByte? && s.th[t].pc.l < |h|
    requires var l, next := s.th[t].pc.l, s.th[t].pc.next;
             s' == s.(words := s.words[l := s.words[l].(locked := true)],
                      th := s.th[t := s.th[t].(pc := if next.None? then WaitNext(l) else Handoff(l, next.value))])
    ensures var l := s.th[t].pc.l; RoleInv(s', h[l := Took(h[l], t, Queued)], t) && NodeInv(s'.th[t])
  {
  }

  lemma HeadByteKept(s: State, h: seq<Past>, t: nat)
    requires Ready(s, h, t) && s.th[t].pc.HeadByte?
    ensures Kept(s, h, Move(t, Run))
  {
    HeadByteShape(s, h, t);
    HeadByteTo(s, h, t, Access(s, t));
  }

  /** The second in the queue becomes its head. */
  lemma HandoffLinks(s: State, s': State, q: seq<nat>, t: nat, l: nat)
    requires l < |s.words| && l < |s'.words| && Members(s, q, l) && LinkInv(s, q, l) && TailInv(s, q, l)
    requires |q| >= 2 && q[0] == t && s'.words == s.words && |s'.th| == |s.th|
    requires s'.th[q[1]] == s.th[q[1]].(node := s.th[q[1]].node.(locked := true))
    requires forall x :: 0 <= x < |s.th| && x != t && x != q[1] ==> s'.th[x] == s.th[x]
    ensures Members(s', q[1..], l) && LinkInv(s', q[1..], l) && TailInv(s', q[1..], l)
  {
    var q' := q[1..];
    assert forall j :: 0 <= j < |q'| ==> q'[j] == q[j + 1];
    assert forall j :: 1 < j < |q| ==> s'.th[q[j]] == s.th[q[j]];
    assert Members(s', q', l);
    forall j, k | 0 <= j < |q'| && k == j + 1 < |q'|
      ensures Follower(s', q'[k], q'[j], l) && s'.th[q'[j]].node.next == NextOf(s', q'[k], l)
    {
      assert Follower(s, q[k + 1], q[j + 1], l);
    }
    assert q'[|q'| - 1] == q[|q| - 1];
  }

  lemma HandoffLock(s: State, s': State, g: Past, t: nat, l: nat)
    requires l < |s.words| && LockInv(s, g, l) && |g.q| >= 2 && g.q[0] == t && s.th[t].pc == Handoff(l, g.q[1])
    requires s'.words == s.words && |s'.th| == |s.th| && g.own == Some(t) && s.th[g.q[1]].pc == WaitNode(l)
    requires s'.th[t] == s.th[t].(pc := Idle, held := s.th[t].held + {l})
    requires s'.th[g.q[1]] == s.th[g.q[1]].(node := s.th[g.q[1]].node.(locked := true))
    requires forall x :: 0 <= x < |s.th| && x != t && x != g.q[1] ==> s'.th[x] == s.th[x]
    ensures LockInv(s', g.(q := g.q[1..]), l)
  {
    HandoffLinks(s, s', g.q, t, l);
  }

  lemma HandoffShape(s: State, h: seq<Past>, t: nat)
    requires Enabled(s, Move(t, Run)) && |h| == |s.words| && s.th[t].pc.Handoff?
    requires var l, succ := s.th[t].pc.l, s.th[t].pc.succ;
             succ < |s.th| && succ != t && h[l].q != []
    ensures var l, succ := s.th[t].pc.l, s.th[t].pc.succ;
            && StepPast(s, h, Move(t, Run)) == h[l := h[l].(q := h[l].q[1..])]
            && var s' := Access(s, t);
               && s' == s.(th := s'.th) && |s'.th| == |s.th|
               && s'.th[t] == s.th[t].(pc := Idle, held := s.th[t].held + {l})
               && s'.th[succ] == s.th[succ].(node := s.th[succ].node.(locked := true))
               && forall x :: 0 <= x < |s.th| && x != t && x != succ ==> s'.th[x] == s.th[x]
  {
  }

  lemma HandoffRest(q: seq<nat>, t: nat)
    requires q != [] && q[0] == t
    ensures forall x :: x != t && x in q ==> x in q[1..]
  {
    forall x | x != t && x in q ensures x in q[1..] {
      var i :| 0 <= i < |q| && q[i] == x;
      assert q[1..][i - 1] == x;
    }
  }

  lemma HandoffTo(s: State, h: seq<Past>, t: nat, s': State)
    requires Ready(s, h, t) && s.th[t].pc.Handoff?
    requires var l := s.th[t].pc.l;
             && |h[l].q| >= 2 && h[l].q[0] == t && s.th[t].pc == Handoff(l, h[l].q[1]) && h[l].own == Some(t)
             && h[l].q[1] < |s.th| && s.th[h[l].q[1]].pc == WaitNode(l)
             && s' == s.(th := s'.th) && |s'.th| == |s.th|
             && s'.th[t] == s.th[t].(pc := Idle, held := s.th[t].held + {l})
             && s'.th[h[l].q[1]] == s.th[h[l].q[1]].(node := s.th[h[l].q[1]].node.(locked := true))
             && forall x :: 0 <= x < |s.th| && x != t && x != h[l].q[1] ==> s'.th[x] == s.th[x]
    ensures var l := s.th[t].pc.l; Inv(s', h[l := h[l].(q := h[l].q[1..])])
  {
    var l := s.th[t].pc.l;
    HandoffLock(s, s', h[l], t, l);
    HandoffRest(h[l].q, t);
    assert RoleInv(s, h, t);
    Assemble(s, s', h, h[l].(q := h[l].q[1..]), l, t);
  }

  lemma HandoffKept(s: State, h: seq<Past>, t: nat)
    requires Ready(s, h, t) && s.th[t].pc.Handoff?
    ensures Kept(s, h, Move(t, Run))
  {
    var l := s.th[t].pc.l;
    assert RoleInv(s, h, t) && LockInv(s, h[l], l);
    assert s.th[t].pc == Handoff(l, h[l].q[1]) && s.th[h[l].q[1]].pc == WaitNode(l);
    HandoffShape(s, h, t);
    HandoffTo(s, h, t, Access(s, t));
  }

  // ---- every step, every schedule -----------------------------------------

  lemma AccessKept(s: State, h: seq<Past>, t: nat)
    requires Ready(s, h, t)
    ensures Kept(s, h, Move(t, Run))
  {
    var pc, w := s.th[t].pc, s.words[s.th[t].pc.l];
    if Local(pc, w) { LocalKept(s, h, t); }
    else {
      match pc
      case LockCas(_) => FastKept(s, h, t);
      case TryCas(_) => FastKept(s, h, t);
      case QTryCas(_) => FastKept(s, h, t);
      case PendOr(_) => PendOrKept(s, h, t);
      case PendUndo(_) => PendUndoKept(s, h, t);
      case PendWait(_) => PendWaitKept(s, h, t);
      case PendTake(_) => PendTakeKept(s, h, t);
      case TailXchg(_) => TailXchgKept(s, h, t);
      case LoadPrev(_, _) => LoadPrevKept(s, h, t);
      case LinkPrev(_, _) => LinkPrevKept(s, h, t);
      case WaitNode(_) => HeadStepKept(s, h, t);
      case LoadNext(_) => HeadStepKept(s, h, t);
      case WaitNext(_) => HeadStepKept(s, h, t);
      case HeadWait(_, _) => HeadWaitKept(s, h, t);
      case HeadCas(_, _) => HeadCasKept(s, h, t);
      case HeadByte(_, _) => HeadByteKept(s, h, t);
      case Handoff(_, _) => HandoffKept(s, h, t);
    }
  }

  /** The invariant holds after every schedule. */
  lemma {:induction false} Invariant(threads: nat, locks: nat, sched: seq<Move>)
    ensures Inv(Exec(threads, locks, sched), History(threads, locks, sched))
  {
    if sched == [] {
      InitInv(threads, locks);
    } else {
      var before, m := sched[..|sched| - 1], sched[|sched| - 1];
      Invariant(threads, locks, before);
      var s, h := Exec(threads, locks, before), History(threads, locks, before);
      if Enabled(s, m) {
        if m.act.Run? { AccessKept(s, h, m.t); }
        else if m.act.Unlock? { UnlockKept(s, h, m); }
        else { StartKept(s, h, m); }
      }
    }
  }
}
