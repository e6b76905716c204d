/** The inductive invariant of the queued spinlock, and its preservation by every step. */
module QSpinInvariant {
  import opened Basics
  import opened QSpinLock
  import opened QSpinHistory

  // ---- roles of a program point on lock l --------------------------------

  /** Has set the pending byte and not cleared it yet. */
  predicate Pends(pc: Pc, l: nat) {
    (pc.PendUndo? || pc.PendWait? || pc.PendTake?) && pc.l == l
  }

  /** Has exchanged the tail and not left the queue yet. */
  predicate Queues(pc: Pc, l: nat) {
    (pc.LoadPrev? || pc.LinkPrev? || pc.WaitNode? || Heads(pc, l)) && pc.l == l
  }

  /** Knows that it is the queue head. */
  predicate Heads(pc: Pc, l: nat) {
    (pc.LoadNext? || pc.HeadWait? || pc.HeadCas? || pc.HeadByte? || pc.WaitNext? || pc.Handoff?) && pc.l == l
  }

  /** Has seen locked == pending == 0 as queue head and is about to claim. */
  predicate Claims(pc: Pc, l: nat) {
    (pc.HeadCas? || pc.HeadByte?) && pc.l == l
  }

  /** Is on the straight path to the tail exchange. */
  predicate Committed(pc: Pc, l: nat) {
    (pc.PendUndo? || pc.RegCount? || pc.RegStore? || pc.Aborting? || pc.InitLocked? || pc.InitNext?
     || pc.QTryLoad? || pc.QTryCas? || pc.TailXchg?) && pc.l == l
  }

  /** Must already have a registered node. */
  predicate Registered(pc: Pc) {
    !pc.Idle? && (pc.InitLocked? || pc.InitNext? || pc.QTryLoad? || pc.QTryCas? || pc.TailXchg? || Queues(pc, pc.l))
  }

  /** The successor a head already knows, if any. */
  function KnownNext(pc: Pc): Option<nat> {
    match pc
    case HeadWait(_, next) => next
    case HeadCas(_, next) => next
    case HeadByte(_, next) => next
    case Handoff(_, succ) => Some(succ)
    case _ => None
  }

  // ---- the invariant ------------------------------------------------------

  ghost predicate OwnerInv(s: State, g: Past, l: nat)
    requires l < |s.words|
  {
    && (s.words[l].locked <==> g.own.Some?)
    && (g.own.Some? ==> g.own.value < |s.th| && Owns(s.th[g.own.value], l))
  }

  ghost predicate PendInv(s: State, g: Past, l: nat)
    requires l < |s.words|
  {
    && (s.words[l].pending <==> g.pend.Some?)
    && (g.pend.Some? ==> g.pend.value < |s.th| && Pends(s.th[g.pend.value].pc, l))
    && (g.pend.Some? && s.th[g.pend.value].pc.PendTake? ==> !s.words[l].locked)
  }

  ghost predicate Members(s: State, q: seq<nat>, l: nat) {
    && (forall i :: 0 <= i < |q| ==> q[i] < |s.th| && Queues(s.th[q[i]].pc, l))
    && (forall i, j :: 0 <= i < j < |q| ==> q[i] != q[j])
  }

  /** Whoever is behind the head has not been handed headship and names its predecessor. */
  predicate Follower(s: State, t: nat, pred: nat, l: nat)
    requires t < |s.th| && pred < |s.th|
  {
    && !s.th[t].node.locked
    && (s.th[t].pc == LoadPrev(l, s.th[pred].tail) || s.th[t].pc == LinkPrev(l, pred) || s.th[t].pc == WaitNode(l))
  }

  /** What `next` of a queued node must be: its follower, once that one has linked itself. */
  function NextOf(s: State, follower: nat, l: nat): Option<nat>
    requires follower < |s.th|
  {
    if s.th[follower].pc == WaitNode(l) then Some(follower) else None
  }

  ghost predicate LinkInv(s: State, q: seq<nat>, l: nat)
    requires Members(s, q, l)
  {
    && (forall i, j :: 0 <= i < |q| && j == i + 1 < |q| ==> Follower(s, q[j], q[i], l))
    && (forall i, j :: 0 <= i < |q| && j == i + 1 < |q| ==> s.th[q[i]].node.next == NextOf(s, q[j], l))
    && (q != [] ==> s.th[q[|q| - 1]].node.next == None)
  }

  ghost predicate HeadInv(s: State, g: Past, l: nat)
    requires l < |s.words| && Members(s, g.q, l)
  {
    |g.q| > 0 ==>
      var pc := s.th[g.q[0]].pc;
      && (Heads(pc, l) || (pc == WaitNode(l) && s.th[g.q[0]].node.locked))
      && (KnownNext(pc).Some? ==> |g.q| >= 2 && KnownNext(pc) == NextOf(s, g.q[1], l))
      && (Claims(pc, l) ==> !s.words[l].locked)
      && (Claims(pc, l) && g.pend.Some? && g.pend.value < |s.th| ==> s.th[g.pend.value].pc.PendUndo?)
      && (pc.HeadByte? || pc.WaitNext? ==> Rescued(s, g.q, l))
  }

  /** Someone is behind the head already, or is bound to exchange the tail. */
  ghost predicate Rescued(s: State, q: seq<nat>, l: nat) {
    |q| >= 2 || exists t :: 0 <= t < |s.th| && Committed(s.th[t].pc, l)
  }

  ghost predicate TailInv(s: State, q: seq<nat>, l: nat)
    requires l < |s.words| && Members(s, q, l)
  {
    s.words[l].tail == if q == [] then 0 else s.th[q[|q| - 1]].tail
  }

  ghost predicate LockInv(s: State, g: Past, l: nat)
    requires l < |s.words|
  {
    && OwnerInv(s, g, l)
    && PendInv(s, g, l)
    && Members(s, g.q, l)
    && TailInv(s, g.q, l)
    && LinkInv(s, g.q, l)
    && HeadInv(s, g, l)
  }

  /** A thread's roles are the ones the history says it has. */
  ghost predicate RoleInv(s: State, h: seq<Past>, t: nat)
    requires t < |s.th| && |h| == |s.words|
  {
    var me := s.th[t];
    && (forall l :: l in me.held ==> l < |h| && h[l].own == Some(t))
    && (!me.pc.Idle? ==>
          var l := me.pc.l;
          && l < |h|
          && (Pends(me.pc, l) ==> h[l].pend == Some(t))
          && (Queues(me.pc, l) ==> t in h[l].q)
          && (Heads(me.pc, l) ==> h[l].q != [] && h[l].q[0] == t)
          && (Owns(me, l) ==> h[l].own == Some(t)))
  }

  /** Node registration: the tail names exactly this thread's node. */
  ghost predicate RegInv(s: State, t: nat)
    requires t < |s.th|
  {
    var me := s.th[t];
    && (me.tail != 0 ==> me.tail <= MAX_NODES && me.tail - 1 in s.tab && s.tab[me.tail - 1] == t)
    && (Registered(me.pc) ==> me.tail != 0)
    && (me.pc.RegCount? || me.pc.RegStore? ==> me.tail == 0)
    && (me.pc.RegStore? ==> me.pc.idx < s.count && me.pc.idx < MAX_NODES && me.pc.idx !in s.tab)
  }

  /** A node is back in its initial state before its thread publishes it again. */
  predicate NodeInv(me: Thread) {
    && (me.pc.InitNext? ==> !me.node.locked)
    && (me.pc.QTryLoad? || me.pc.QTryCas? || me.pc.TailXchg? ==> me.node == Node(None, false))
  }

  ghost predicate TabInv(s: State) {
    && (forall k :: k in s.tab ==> k < s.count && s.tab[k] < |s.th|)
    && (forall t, u :: 0 <= t < u < |s.th| && s.th[t].pc.RegStore? && s.th[u].pc.RegStore? ==> s.th[t].pc.idx != s.th[u].pc.idx)
  }

  ghost predicate Roles(s: State, h: seq<Past>)
    requires |h| == |s.words|
  {
    forall t :: 0 <= t < |s.th| ==> RoleInv(s, h, t)
  }

  ghost predicate Registry(s: State) {
    TabInv(s) && forall t :: 0 <= t < |s.th| ==> RegInv(s, t)
  }

  ghost predicate Nodes(s: State) {
    forall t :: 0 <= t < |s.th| ==> NodeInv(s.th[t])
  }

  ghost predicate Locks(s: State, h: seq<Past>)
    requires |h| == |s.words|
  {
    forall l :: 0 <= l < |h| ==> LockInv(s, h[l], l)
  }

  ghost predicate Inv(s: State, h: seq<Past>) {
    |h| == |s.words| && !s.fault && Roles(s, h) && Registry(s) && Nodes(s) && Locks(s, h)
  }

  lemma InitInv(threads: nat, locks: nat)
    ensures Inv(Init(threads, locks), Past0(locks))
  {
  }
}
