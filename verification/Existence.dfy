/**
 The split-layout existence list of src/bench_existence_list.c: a circular doubly
 linked list of permanent stable nodes, into whose gaps one writer inserts and deletes
 churn nodes.  Whether a node counts as present is not decided by its links but by a
 tagged word that points to a group's state, so one store to that state shows or hides
 the node in both directions at once.  Readers walk the list with plain loads.

 The list head is node -1, stable node i is node i, and a churn slot is named by its
 anchor, the stable node it inserts after; slots have distinct anchors.  A churn node or a group may take any
 address that is not in use.  Stores to a node nobody else can reach yet are part of the
 step that allocates it, and the writer's loads of links only it writes are part of the
 step that uses them.  call_rcu frees a block only after every read section that was open
 at the call has ended.
 */
module Existence {
  import opened RingList

  datatype Config = Config(n: int, anchors: set<int>, forwardOnly: bool, threads: int)

  /** Every key fits an int, and anchors are stable nodes. */
  predicate ValidConfig(c: Config) {
    0 <= c.n <= TOP + 1 && c.threads >= 0 && forall a: int :: a in c.anchors ==> 0 <= a < c.n
  }

  /** The step guard. */
  function Limit(c: Config): int { c.n + |c.anchors| + 64 }

  datatype Egi = Permanent | Tagged(g: int, tag: int)
  datatype Node = Node(key: int, next: int, prev: int, egi: Egi)

  datatype WPc =
    | WIdle
    | DLoad(a: int, g: int)                                        // pv = c->prev, nx = c->next
    | DTag(a: int, g: int, x: int, pv: int, nx: int)               // c->egi = &g->state
    | DFlip(a: int, g: int, x: int, pv: int, nx: int)              // g->state = 1
    | DNext(a: int, g: int, x: int, pv: int, nx: int)              // pv->next = nx
    | DPrev(a: int, g: int, x: int, pv: int, nx: int)              // nx->prev = pv
    | DFree(a: int, g: int, x: int)                                // call_rcu of the node
    | ILoad(a: int, g: int)                                        // succ = pos->next; new node
    | IPrev(a: int, g: int, x: int, pos: int, succ: int)           // succ->prev = n
    | INext(a: int, g: int, x: int, pos: int, succ: int)           // pos->next = n
    | IFlip(a: int, g: int, x: int)                                // g->state = 1
    | IPerm(a: int, g: int, x: int)                                // n->egi = 0
    | Put(a: int, g: int)                                          // call_rcu of the group

  /** One walk: its direction, whether it is the second of exl_walk, and what it visited. */
  datatype Walk = Walk(fwd: bool, second: bool, prev: int, steps: int, trail: seq<int>)

  datatype RPc =
    | RIdle
    | RLoad(w: Walk, p: int)                          // load p->next or p->prev
    | RTest(w: Walk, q: int)                          // load q->egi
    | RState(w: Walk, q: int, g: int, tag: int)       // load the group's state
    | RKey(w: Walk, q: int)                           // load q->key
    | REnd(w: Walk, viol: bool)

  datatype State = State(
    heap: map<int, Node>, groups: map<int, int>, churn: map<int, int>,
    limbo: map<int, set<int>>, glimbo: map<int, set<int>>, sections: set<int>,
    w: WPc, rd: seq<RPc>, fault: bool)

  datatype Move = Toggle(a: int, addr: int) | Write(addr: int) | Read(t: int) | FreeNode(x: int) | FreeGroup(g: int)

  predicate Enabled(c: Config, s: State, m: Move) {
    && !s.fault
    && match m
       case Toggle(a, addr) => s.w.WIdle? && a in c.anchors && addr !in s.groups
       case Write(addr) => !s.w.WIdle? && addr !in s.heap && addr >= c.n
       case Read(t) => 0 <= t < |s.rd|
       case FreeNode(x) => x in s.limbo && s.limbo[x] == {}
       case FreeGroup(g) => g in s.glimbo && s.glimbo[g] == {}
  }

  /** exs_exists, as a single look at the memory. */
  predicate Exists(heap: map<int, Node>, groups: map<int, int>, x: int) {
    x in heap && match heap[x].egi
                 case Permanent => true
                 case Tagged(g, tag) => g in groups && groups[g] == tag
  }

  // ---- the writer ---------------------------------------------------------

  /** A store to an existing node. */
  function Set(s: State, x: int, node: Node, w: WPc): State {
    s.(heap := s.heap[x := node], w := w)
  }

  /** One step of exl_write; node addresses it needs must be allocated. */
  function WriterStep(c: Config, s: State, addr: int): (r: State)
    requires ValidConfig(c) && Enabled(c, s, Write(addr))
    ensures r.rd == s.rd && r.sections == s.sections
  {
    var bad := s.(fault := true);
    match s.w
    case DLoad(a, g) =>
      if a in s.churn && s.churn[a] in s.heap then
        var x := s.churn[a];
        s.(w := DTag(a, g, x, s.heap[x].prev, s.heap[x].next))
      else bad
    case DTag(a, g, x, pv, nx) => if x in s.heap then Set(s, x, s.heap[x].(egi := Tagged(g, 0)), DFlip(a, g, x, pv, nx)) else bad
    case DFlip(a, g, x, pv, nx) => s.(groups := s.groups[g := 1], w := DNext(a, g, x, pv, nx))
    case DNext(a, g, x, pv, nx) => if pv in s.heap then Set(s, pv, s.heap[pv].(next := nx), DPrev(a, g, x, pv, nx)) else bad
    case DPrev(a, g, x, pv, nx) => if nx in s.heap then Set(s, nx, s.heap[nx].(prev := pv), DFree(a, g, x)) else bad
    case DFree(a, g, x) => s.(limbo := s.limbo[x := s.sections], churn := s.churn - {a}, w := Put(a, g))
    case ILoad(a, g) =>
      if a in s.heap then
        Set(s, addr, Node(2 * a + 1, s.heap[a].next, a, Tagged(g, 1)), IPrev(a, g, addr, a, s.heap[a].next))
      else bad
    case IPrev(a, g, x, pos, succ) => if succ in s.heap then Set(s, succ, s.heap[succ].(prev := x), INext(a, g, x, pos, succ)) else bad
    case INext(a, g, x, pos, succ) => if pos in s.heap then Set(s, pos, s.heap[pos].(next := x), IFlip(a, g, x)) else bad
    case IFlip(a, g, x) => s.(groups := s.groups[g := 1], w := IPerm(a, g, x))
    case IPerm(a, g, x) => if x in s.heap then Set(s, x, s.heap[x].(egi := Permanent), Put(a, g)).(churn := s.churn[a := x]) else bad
    case Put(_, g) => s.(glimbo := s.glimbo[g := s.sections], w := WIdle)
  }

  // ---- the readers --------------------------------------------------------

  function Start(fwd: bool, second: bool): Walk {
    Walk(fwd, second, if fwd then INT_MIN else INT_MAX, 0, [])
  }

  function Link(node: Node, fwd: bool): int { if fwd then node.next else node.prev }

  function Leave(s: State, t: int): State {
    s.(sections := s.sections - {t},
       limbo := map x | x in s.limbo :: s.limbo[x] - {t},
       glimbo := map g | g in s.glimbo :: s.glimbo[g] - {t})
  }

  /** The block that a reader's next load is from: a node, or for RState a group. */
  predicate Loadable(heap: map<int, Node>, groups: map<int, int>, pc: RPc) {
    match pc
    case RLoad(_, p) => p in heap
    case RTest(_, q) => q in heap
    case RState(_, _, g, _) => g in groups
    case RKey(_, q) => q in heap
    case _ => true
  }

  /** One load of exl_walk with the test that follows it. */
  function Load(c: Config, heap: map<int, Node>, groups: map<int, int>, pc: RPc): RPc
    requires Loadable(heap, groups, pc)
  {
    match pc
    case RIdle => RLoad(Start(true, false), HEAD)
    case RLoad(w, p) =>
      var q := Link(heap[p], w.fwd);
      if q == HEAD then REnd(w, false) else RTest(w, q)
    case RTest(w, q) =>
      if heap[q].egi.Permanent? then RKey(w, q) else RState(w, q, heap[q].egi.g, heap[q].egi.tag)
    case RState(w, q, g, tag) =>
      if groups[g] == tag then RKey(w, q)
      else if w.steps + 1 > Limit(c) then REnd(w, true)
      else RLoad(w.(steps := w.steps + 1), q)
    case RKey(w, q) =>
      var k := heap[q].key;
      if !Before(w.fwd, w.prev, k) then REnd(w, true)
      else RLoad(w.(prev := k, trail := w.trail + [k]), q)
    case REnd(w, _) => if w.second then RIdle else RLoad(Start(c.forwardOnly, true), HEAD)
  }

  /** rcu_read_lock before the first walk, rcu_read_unlock after the second. */
  function ReaderStep(c: Config, s: State, t: int): (r: State)
    requires 0 <= t < |s.rd|
    ensures |r.rd| == |s.rd|
  {
    if !Loadable(s.heap, s.groups, s.rd[t]) then s.(fault := true)
    else
      var r := s.(rd := s.rd[t := Load(c, s.heap, s.groups, s.rd[t])]);
      if s.rd[t].RIdle? then r.(sections := s.sections + {t})
      else if s.rd[t].REnd? && s.rd[t].w.second then Leave(r, t)
      else r
  }

  // ---- runs ---------------------------------------------------------------

  function Step(c: Config, s: State, m: Move): (r: State)
    requires ValidConfig(c)
    ensures |r.rd| == |s.rd|
  {
    if !Enabled(c, s, m) then s
    else
      match m
      case Toggle(a, addr) =>
        s.(groups := s.groups[addr := 0], w := if a in s.churn then DLoad(a, addr) else ILoad(a, addr))
      case Write(addr) => WriterStep(c, s, addr)
      case Read(t) => ReaderStep(c, s, t)
      case FreeNode(x) => s.(heap := s.heap - {x}, limbo := s.limbo - {x})
      case FreeGroup(g) => s.(groups := s.groups - {g}, glimbo := s.glimbo - {g})
  }

  /** exl_build: the head and the stable nodes, linked in a ring. */
  function Build(c: Config): State
    requires ValidConfig(c)
  {
    State(map i: int | -1 <= i < c.n :: Node(2 * i, Succ(c.n, i), if i == -1 then c.n - 1 else i - 1, Permanent),
          map[], map[], map[], map[], {}, WIdle, seq(c.threads, i => RIdle), false)
  }

  /** The state after a whole schedule. */
  function Exec(c: Config, sched: seq<Move>): (s: State)
    requires ValidConfig(c)
    ensures |s.rd| == c.threads
  {
    if sched == [] then Build(c) else Step(c, Exec(c, sched[..|sched| - 1]), sched[|sched| - 1])
  }

  // ---- history ------------------------------------------------------------

  /** A churn node is present in gap i. */
  predicate Shown(c: Config, s: State, i: int) {
    i in s.heap && s.heap[i].next != Succ(c.n, i) && Exists(s.heap, s.groups, s.heap[i].next)
  }

  /** The gaps that were filled, and those that were empty, at some instant of a walk that began at step `from`. */
  datatype Seen = Seen(from: nat, filled: set<int>, empty: set<int>)

  /** `home` maps every churn node to its gap. */
  datatype Past = Past(home: map<int, int>, seen: map<int, Seen>)

  ghost function Look(c: Config, s: State, o: Seen): Seen {
    Seen(o.from,
         o.filled + (set i: int | 0 <= i < c.n && Shown(c, s, i)),
         o.empty + (set i: int | 0 <= i < c.n && !Shown(c, s, i)))
  }

  /** The step that starts a walk of reader t. */
  predicate Begins(c: Config, s: State, m: Move, t: int) {
    Enabled(c, s, m) && m == Read(t) && (s.rd[t].RIdle? || s.rd[t].REnd?)
  }

  ghost function Homes(c: Config, s: State, home: map<int, int>, m: Move): map<int, int> {
    if Enabled(c, s, m) && m.Write? && s.w.ILoad? then home[m.addr := s.w.a]
    else if Enabled(c, s, m) && m.FreeNode? then home - {m.x}
    else home
  }

  ghost function StepPast(c: Config, s: State, h: Past, m: Move, now: nat): Past
    requires ValidConfig(c)
  {
    var from := if m.Read? && Begins(c, s, m, m.t) then h.seen[m.t := Seen(now, {}, {})] else h.seen;
    Past(Homes(c, s, h.home, m), map t | t in from :: Look(c, Step(c, s, m), from[t]))
  }

  ghost function History(c: Config, sched: seq<Move>): Past
    requires ValidConfig(c)
  {
    if sched == [] then Past(map[], map[])
    else
      var before := sched[..|sched| - 1];
      StepPast(c, Exec(c, before), History(c, before), sched[|sched| - 1], |sched|)
  }
}
