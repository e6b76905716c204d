/**
 The three-hash rotation of src/bench_txn_3hash.c: updaters that own disjoint key ranges
 move every key from table t to table t + 1 mod 3, several moves per transaction, and at
 the end take their keys out and count those that are not where they left them.

 A transaction's commit is modelled by its contract, one atomic step.  A bucket chain is
 the sequence of its linked nodes; a deleted node keeps the link it had, for whoever
 still stands on it.  The drain's walk along a chain is one load per step.
 */
module ThreeHash {
  datatype Config = Config(buckets: int, updaters: int, spacing: int, movesPer: int)

  /** What main accepts. */
  predicate ValidConfig(c: Config) {
    c.buckets >= 1 && c.updaters >= 1 && c.spacing >= 20 && c.movesPer >= 0
  }

  /** Keys per updater. */
  function KeyCount(c: Config): int { 3 * ((c.spacing - 16) / 3) }

  /** Moves per transaction. */
  function Chunk(c: Config): int { if c.movesPer > 0 then c.movesPer else KeyCount(c) }

  function KeyOf(c: Config, u: int, j: int): int { u * c.spacing + j }

  datatype Bucket = Bucket(table: int, index: int)

  function BucketOf(c: Config, table: int, key: int): Bucket
    requires c.buckets >= 1
  {
    Bucket(table, key % c.buckets)
  }

  datatype Phase =
    | Fill                                // populate
    | Rotate(j: int)
    | Walk(j: int, at: int)               // node_linked: at is the node it stands on, 0 at the bucket head
    | Drop(j: int)                        // urcu_txn_hlist_del_rcu
    | Done

  /** One updater: its current node and table per key. */
  datatype Updater = Updater(phase: Phase, cur: seq<int>, tab: seq<int>)

  datatype State = State(
    chains: map<Bucket, seq<int>>, place: map<int, Bucket>, frozen: map<int, int>,
    up: seq<Updater>, lost: int, fault: bool)

  // ---- chains -------------------------------------------------------------

  /** The node after x, or 0. */
  function After(chain: seq<int>, x: int): int {
    if |chain| < 2 then 0 else if chain[0] == x then chain[1] else After(chain[1..], x)
  }

  function Remove(chain: seq<int>, x: int): seq<int> {
    if chain == [] then [] else if chain[0] == x then chain[1..] else [chain[0]] + Remove(chain[1..], x)
  }

  function ChainAt(s: State, b: Bucket): seq<int> { if b in s.chains then s.chains[b] else [] }

  predicate Linked(s: State, x: int) { x in s.place && x in ChainAt(s, s.place[x]) }

  /** del_prepare; a node that is not linked is an error the program aborts on. */
  function Delete(s: State, x: int): (r: State)
    ensures r.up == s.up && r.lost == s.lost
  {
    if !Linked(s, x) then s.(fault := true)
    else
      var b := s.place[x];
      s.(chains := s.chains[b := Remove(s.chains[b], x)], frozen := s.frozen[x := After(s.chains[b], x)])
  }

  /** insert_head_prepare of a new node. */
  function Insert(s: State, b: Bucket, x: int): (r: State)
    ensures r.up == s.up && r.lost == s.lost
  {
    s.(chains := s.chains[b := [x] + ChainAt(s, b)], place := s.place[x := b])
  }

  // ---- steps --------------------------------------------------------------

  /** `ids` are the addresses of new nodes; `stop` is whether the run has ended. */
  datatype Move = Move(u: int, ids: seq<int>, stop: bool)

  /** Addresses that are not in use. */
  predicate Fresh(s: State, ids: seq<int>) {
    && (forall i :: 0 <= i < |ids| ==> ids[i] > 0 && ids[i] !in s.place)
    && (forall i, j :: 0 <= i < j < |ids| ==> ids[i] != ids[j])
  }

  predicate Enabled(c: Config, s: State, m: Move) {
    && !s.fault && 0 <= m.u < |s.up| && Fresh(s, m.ids)
    && var p := s.up[m.u].phase;
       match p
       case Fill => |m.ids| == 1
       case Rotate(j) => |m.ids| == Batch(c, j)
       case _ => true
  }

  /** How many moves the commit that starts at key j makes. */
  function Batch(c: Config, j: int): int {
    if KeyCount(c) - j < Chunk(c) then KeyCount(c) - j else Chunk(c)
  }

  function Put(s: State, u: int, up: Updater): (r: State)
    requires 0 <= u < |s.up|
    ensures |r.up| == |s.up|
  {
    s.(up := s.up[u := up])
  }

  function NextTable(t: int): int { if t == 2 then 0 else t + 1 }

  /** Key j of updater u moves to the next table as node x. */
  function MoveOne(c: Config, s: State, u: int, j: int, x: int): (r: State)
    requires ValidConfig(c) && 0 <= u < |s.up|
    ensures |r.up| == |s.up| && r.lost == s.lost
  {
    var up := s.up[u];
    if !(0 <= j < |up.cur| && j < |up.tab|) then s.(fault := true)
    else
      var t := NextTable(up.tab[j]);
      Put(Insert(Delete(s, up.cur[j]), BucketOf(c, t, KeyOf(c, u, j)), x), u,
          up.(cur := up.cur[j := x], tab := up.tab[j := t]))
  }

  /** commit_moves: the keys from j on move, one after another, in one atomic step. */
  function MoveAll(c: Config, s: State, u: int, j: int, ids: seq<int>): (r: State)
    requires ValidConfig(c) && 0 <= u < |s.up|
    ensures |r.up| == |s.up| && r.lost == s.lost
    decreases |ids|
  {
    if ids == [] then s else MoveAll(c, MoveOne(c, s, u, j, ids[0]), u, j + 1, ids[1..])
  }

  function Apply(c: Config, s: State, m: Move): (r: State)
    requires ValidConfig(c) && Enabled(c, s, m)
    ensures |r.up| == |s.up|
  {
    var up, u := s.up[m.u], m.u;
    match up.phase
    case Fill =>
      var j := |up.cur|;
      var t := j % 3;
      var s' := Insert(s, BucketOf(c, t, KeyOf(c, u, j)), m.ids[0]);
      Put(s', u, Updater(if j + 1 < KeyCount(c) then Fill else Rotate(0), up.cur + [m.ids[0]], up.tab + [t]))
    case Rotate(j) =>
      if j == 0 && m.stop then Put(s, u, up.(phase := Walk(0, 0)))
      else
        var s' := MoveAll(c, s, u, j, m.ids);
        Put(s', u, s'.up[u].(phase := Rotate(if j + |m.ids| < KeyCount(c) then j + |m.ids| else 0)))
    case Walk(j, at) =>
      if j < 0 || j >= |up.cur| || j >= |up.tab| then Put(s, u, up.(phase := Done))
      else
        var q := NextOf(s, BucketOf(c, up.tab[j], KeyOf(c, u, j)), at);
        if q == 0 then Put(s.(lost := s.lost + 1), u, up.(phase := Walk(j + 1, 0)))
        else Put(s, u, up.(phase := if q == up.cur[j] then Drop(j) else Walk(j, q)))
    case Drop(j) =>
      if j < 0 || j >= |up.cur| then s.(fault := true)
      else if Linked(s, up.cur[j]) then Put(Delete(s, up.cur[j]), u, up.(phase := Walk(j + 1, 0)))
      else Put(s.(lost := s.lost + 1), u, up.(phase := Walk(j + 1, 0)))
    case Done => s
  }

  /** What the link of a node, or of the bucket head, leads to. */
  function NextOf(s: State, b: Bucket, at: int): int {
    if at == 0 then (var ch := ChainAt(s, b); if ch == [] then 0 else ch[0])
    else if Linked(s, at) then After(s.chains[s.place[at]], at)
    else if at in s.frozen then s.frozen[at] else 0
  }

  function Step(c: Config, s: State, m: Move): (r: State)
    requires ValidConfig(c)
    ensures |r.up| == |s.up|
  {
    if Enabled(c, s, m) then Apply(c, s, m) else s
  }

  /** The state after a whole schedule, from empty tables. */
  function Exec(c: Config, sched: seq<Move>): (s: State)
    requires ValidConfig(c)
    ensures |s.up| == c.updaters
  {
    if sched == [] then State(map[], map[], map[], seq(c.updaters, i => Updater(Fill, [], [])), 0, false)
    else Step(c, Exec(c, sched[..|sched| - 1]), sched[|sched| - 1])
  }

  // ---- history ------------------------------------------------------------

  /** When every node was linked, in order, and whose key it carries. */
  datatype Past = Past(clock: int, stamp: map<int, int>, who: map<int, (int, int)>)

  ghost function Record(h: Past, u: int, j: int, x: int): Past {
    Past(h.clock + 1, h.stamp[x := h.clock], h.who[x := (u, j)])
  }

  ghost function RecordAll(h: Past, u: int, j: int, ids: seq<int>): Past
    decreases |ids|
  {
    if ids == [] then h else RecordAll(Record(h, u, j, ids[0]), u, j + 1, ids[1..])
  }

  ghost function StepPast(c: Config, s: State, h: Past, m: Move): Past
    requires ValidConfig(c)
  {
    if !Enabled(c, s, m) then h
    else
      match s.up[m.u].phase
      case Fill => Record(h, m.u, |s.up[m.u].cur|, m.ids[0])
      case Rotate(j) => if j == 0 && m.stop then h else RecordAll(h, m.u, j, m.ids)
      case _ => h
  }

  ghost function History(c: Config, sched: seq<Move>): Past
    requires ValidConfig(c)
  {
    if sched == [] then Past(0, map[], map[])
    else
      var before := sched[..|sched| - 1];
      StepPast(c, Exec(c, before), History(c, before), sched[|sched| - 1])
  }
}
