/** The inductive invariant of the plan / lock / validate protocol. */
module PlanInvariant {
  import opened RingList
  import opened Lockset
  import opened PlanLock
  import opened PlanRing

  // ---- locks --------------------------------------------------------------

  /** The locks a writer holds: the first Count of its plan's keys. */
  function Held(pc: Pc): seq<int> {
    match pc
    case Lock(pl, i) => Prefix(pl.keys, i)
    case Undo(pl, i) => Prefix(pl.keys, i)
    case Release(pl, _, i) => Prefix(pl.keys, i)
    case Idle => []
    case Load1(_) => []
    case Load2(_, _) => []
    case _ => pc.pl.keys
  }

  function Prefix(keys: seq<int>, i: int): seq<int> { if 0 <= i <= |keys| then keys[..i] else [] }

  predicate HoldsKey(pc: Pc, k: int) { k in Held(pc) }

  /** A lock's owner is the writer that holds it. */
  ghost predicate OwnInv(owner: map<int, int>, pc: seq<Pc>) {
    && (forall k: int :: k in owner ==> 0 <= owner[k] < |pc| && HoldsKey(pc[owner[k]], k))
    && (forall t: int, k: int {:trigger HoldsKey(pc[t], k)} :: 0 <= t < |pc| && HoldsKey(pc[t], k) ==> k in owner && owner[k] == t)
  }

  ghost predicate LockInv(c: Config, s: State) {
    OwnInv(s.owner, s.pc) && forall t: int :: 0 <= t < |s.pc| ==> CountInv(c, s.pc[t])
  }

  predicate CountInv(c: Config, pc: Pc) {
    && (HasPlan(pc) ==> KeysOk(c, pc.pl))
    && (pc.Lock? ==> 0 <= pc.i < |pc.pl.keys|)
    && (pc.Undo? || pc.Release? ==> 0 < pc.i <= |pc.pl.keys|)
    && (pc.Check? ==> 0 <= pc.k < Conditions(pc.pl))
  }

  predicate HasPlan(pc: Pc) { !pc.Idle? && !pc.Load1? && !pc.Load2? }

  /** The keys are in ascending order, and the lock of every planned node is among them. */
  predicate KeysOk(c: Config, pl: Plan) {
    && Ascending(pl.keys) && pl.keys != []
    && LockOf(c, pl.pred) in pl.keys && LockOf(c, pl.succ) in pl.keys && (pl.op.Del? ==> LockOf(c, pl.op.at) in pl.keys)
  }

  lemma MakesKeys(c: Config, op: Op, pred: int, succ: int)
    ensures KeysOk(c, MakePlan(c, op, pred, succ))
  {
    var locks := if op.Ins? then [LockOf(c, pred), LockOf(c, succ)] else [LockOf(c, pred), LockOf(c, op.at), LockOf(c, succ)];
    KeysSorted(locks);
    assert LockOf(c, pred) in locks && LockOf(c, succ) in locks && (op.Del? ==> LockOf(c, op.at) in locks);
  }

  ghost predicate Holds(c: Config, s: State, t: int, x: int) {
    LockOf(c, x) in s.owner && s.owner[LockOf(c, x)] == t
  }

  // ---- memory -------------------------------------------------------------

  /** Where the writer that holds this lock stands. */
  function Holder(s: State, key: int): Pc {
    if key in s.owner && 0 <= s.owner[key] < |s.pc| then s.pc[s.owner[key]] else Idle
  }

  /** y's prev is in the middle of a commit by the writer that holds its lock. */
  predicate Splicing(pc: Pc, y: int) {
    (pc.LinkNext? || pc.UnNext?) && pc.pl.succ == y
  }

  predicate Killing(pc: Pc, x: int) {
    (pc.UnPrev? || pc.UnNext?) && pc.pl.op.at == x
  }

  /** prev undoes next, except where a commit is between its two stores. */
  ghost predicate BackInv(c: Config, s: State, ring: seq<int>, i: int)
    requires 0 <= i < |ring|
  {
    var y := NextIn(ring, i);
    && y in s.heap
    && (s.heap[y].prev == ring[i] || Splicing(Holder(s, LockOf(c, y)), y))
  }

  /** A node that was ever linked and is not on the ring any more is dead; a dead node on the ring is being unlinked. */
  ghost predicate DeadInv(c: Config, s: State, h: Past, x: int)
    requires x in s.heap
  {
    if x in h.ring then s.heap[x].dead ==> Killing(Holder(s, LockOf(c, x)), x) else s.heap[x].dead
  }

  ghost predicate NodeInv(c: Config, s: State, h: Past, x: int) {
    && x in s.heap && s.heap[x].next in h.linked && s.heap[x].prev in s.heap
    && DeadInv(c, s, h, x)
  }

  ghost predicate RingInv(c: Config, s: State, ring: seq<int>) {
    Cycle(s.heap, ring) && forall i: int {:trigger BackInv(c, s, ring, i)} :: 0 <= i < |ring| ==> BackInv(c, s, ring, i)
  }

  ghost predicate NodesInv(c: Config, s: State, h: Past) {
    forall x: int {:trigger NodeInv(c, s, h, x)} :: x in h.linked ==> NodeInv(c, s, h, x)
  }

  ghost predicate SetsInv(s: State, h: Past) {
    && (forall x: int :: x in h.ring ==> x in h.linked)
    && (forall x: int :: x in s.known ==> x in h.linked)
    && (forall x: int :: x in s.heap ==> x in h.linked || x in h.mine)
    && (forall x: int :: x in h.mine ==> x in s.heap && x !in h.linked && Making(s, h, x))
  }

  ghost predicate MemInv(c: Config, s: State, h: Past) {
    RingInv(c, s, h.ring) && NodesInv(c, s, h) && SetsInv(s, h)
  }

  /** A node that is not linked yet belongs to a running insert. */
  predicate Making(s: State, h: Past, x: int)
    requires x in h.mine
  {
    0 <= h.mine[x] < |s.pc| && (s.pc[h.mine[x]].LinkPrev? || s.pc[h.mine[x]].LinkNext?) && s.pc[h.mine[x]].e == x
  }

  // ---- writers ------------------------------------------------------------

  predicate Planned(s: State, h: Past, pl: Plan) {
    && pl.op.at in h.linked && pl.succ in h.linked && pl.pred in s.heap
    && (pl.op.Ins? ==> pl.pred == pl.op.at)
    && (pl.op.Del? ==> pl.op.at != HEAD)
  }

  ghost predicate Valid(s: State, pl: Plan, k: int) {
    forall j: int :: 0 <= j < k ==> Cond(s.heap, pl, j)
  }

  predicate Fresh(s: State, h: Past, t: int, pl: Plan, e: int) {
    e in h.mine && h.mine[e] == t && e in s.heap && s.heap[e] == Node(pl.succ, pl.pred, false)
  }

  predicate Bridges(s: State, pl: Plan) {
    pl.op.at in s.heap && s.heap[pl.op.at].next == pl.succ && s.heap[pl.op.at].prev == pl.pred
  }

  ghost predicate PcInv(c: Config, s: State, h: Past, t: int, pc: Pc) {
    match pc
    case Idle => true
    case Load1(op) => op.at in h.linked && (op.Del? ==> op.at != HEAD)
    case Load2(op, pred) => op.at in h.linked && op.Del? && op.at != HEAD && pred in s.heap
    case Lock(pl, _) => Planned(s, h, pl)
    case Check(pl, k) => Planned(s, h, pl) && Valid(s, pl, k)
    case Undo(pl, _) => Planned(s, h, pl)
    case New(pl) => pl.op.Ins? && Planned(s, h, pl) && Valid(s, pl, 3)
    case LinkPrev(pl, e) => pl.op.Ins? && Planned(s, h, pl) && Valid(s, pl, 3) && Fresh(s, h, t, pl, e)
    case LinkNext(pl, e) =>
      pl.op.Ins? && Planned(s, h, pl) && Valid(s, pl, 3) && Fresh(s, h, t, pl, e) && pl.succ in s.heap && s.heap[pl.succ].prev == e
    case Kill(pl) => pl.op.Del? && Planned(s, h, pl) && Valid(s, pl, 5)
    case UnPrev(pl) =>
      && pl.op.Del? && Planned(s, h, pl) && Cond(s.heap, pl, 1) && Cond(s.heap, pl, 3) && Cond(s.heap, pl, 4)
      && Bridges(s, pl) && s.heap[pl.op.at].dead && pl.op.at in h.ring && pl.pred in h.ring
    case UnNext(pl) =>
      && pl.op.Del? && Planned(s, h, pl) && Cond(s.heap, pl, 1) && Cond(s.heap, pl, 3)
      && Bridges(s, pl) && s.heap[pl.op.at].dead && pl.op.at in h.ring && pl.pred in h.ring && pl.succ in s.heap && s.heap[pl.succ].prev == pl.pred
    case Release(pl, e, _) => e in h.linked
  }

  ghost predicate Inv(c: Config, s: State, h: Past) {
    !s.fault && LockInv(c, s) && MemInv(c, s, h) && forall t :: 0 <= t < |s.pc| ==> PcInv(c, s, h, t, s.pc[t])
  }
}
