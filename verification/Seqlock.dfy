/**
 The seqlock engine of src/bench_list_scale.c.  Writers, one at a time under a mutex,
 make the sequence number odd, toggle a churn node in a circular doubly linked list by
 plain stores, and make the number even again.  Readers walk the list forward and then
 backward without any lock, and accept the walk only if the number is still what it was
 before.  Nodes are never freed, so a reader may follow half-updated links.

 The list head is node -1, stable node i is node i, and the churn node of the slot with
 anchor a is node n + a; slots have distinct anchors.  The writer that holds the mutex is
 the only one modelled: the others wait.
 */
module Seqlock {
  import opened RingList

  /** The sequence number is an unsigned long. */
  const WRAP: int := 0x1_0000_0000_0000_0000

  function Ulong(x: int): int { x % 0x1_0000_0000_0000_0000 }

  datatype Config = Config(n: int, anchors: set<int>, threads: int)

  /** Every key fits an int, and anchors are stable nodes. */
  predicate ValidConfig(c: Config) {
    0 <= c.n <= TOP + 1 && c.threads >= 0 && forall a: int :: a in c.anchors ==> 0 <= a < c.n
  }

  function Limit(c: Config): int { c.n + |c.anchors| + 64 }

  datatype Node = Node(key: int, next: int, prev: int)

  datatype WPc =
    | WIdle
    | WOdd(a: int)                      // g_seq = s + 1
    | L1(a: int, s: int)                // n->prev = a
    | L2(a: int, s: int)                // n->next = a->next
    | L3(a: int, s: int)                // a->next->prev = n
    | L4(a: int, s: int)                // a->next = n
    | U1(a: int, s: int)                // n->prev->next = n->next
    | U2(a: int, s: int)                // n->next->prev = n->prev
    | WEven(a: int, s: int)             // g_seq = s + 2

  /** One attempt of seq_read: the number it started from and what plain_traverse has found. */
  datatype Attempt = Attempt(sq: int, fwd: bool, prev: int, steps: int, viol: int, there: seq<int>, back: seq<int>)

  datatype RPc =
    | SIdle
    | SSeq                              // load g_seq
    | SLoad(w: Attempt, p: int)         // load p->next or p->prev
    | SKey(w: Attempt, q: int)          // load q->key
    | SCheck(w: Attempt)                // load g_seq again
    | SDone(w: Attempt)                 // accepted

  datatype State = State(heap: map<int, Node>, present: set<int>, sq: int, w: WPc, rd: seq<RPc>, fault: bool)

  datatype Move = Toggle(a: int) | Write | Read(t: int)

  predicate Enabled(c: Config, s: State, m: Move) {
    && !s.fault
    && match m
       case Toggle(a) => s.w.WIdle? && a in c.anchors
       case Write => !s.w.WIdle?
       case Read(t) => 0 <= t < |s.rd|
  }

  // ---- the writer ---------------------------------------------------------

  /** A store to an existing node, or a fault. */
  function Put(s: State, x: int, next: int, prev: int, w: WPc): State {
    if x in s.heap then s.(heap := s.heap[x := s.heap[x].(next := next, prev := prev)], w := w) else s.(fault := true)
  }

  function Next(s: State, x: int): int { if x in s.heap then s.heap[x].next else x }
  function Prev(s: State, x: int): int { if x in s.heap then s.heap[x].prev else x }

  function WriterStep(c: Config, s: State): (r: State)
    ensures |r.rd| == |s.rd|
  {
    match s.w
    case WIdle => s
    case WOdd(a) => s.(sq := Ulong(s.sq + 1), w := if a in s.present then U1(a, s.sq) else L1(a, s.sq))
    case L1(a, q) => Put(s, c.n + a, Next(s, c.n + a), a, L2(a, q))
    case L2(a, q) => Put(s, c.n + a, Next(s, a), Prev(s, c.n + a), L3(a, q))
    case L3(a, q) => Put(s, Next(s, a), Next(s, Next(s, a)), c.n + a, L4(a, q))
    case L4(a, q) => Put(s, a, c.n + a, Prev(s, a), WEven(a, q)).(present := s.present + {a})
    case U1(a, q) => Put(s, Prev(s, c.n + a), Next(s, c.n + a), Prev(s, Prev(s, c.n + a)), U2(a, q))
    case U2(a, q) =>
      Put(s, Next(s, c.n + a), Next(s, Next(s, c.n + a)), Prev(s, c.n + a), WEven(a, q)).(present := s.present - {a})
    case WEven(_, q) => s.(sq := Ulong(q + 2), w := WIdle)
  }

  // ---- the readers --------------------------------------------------------

  function Link(node: Node, fwd: bool): int { if fwd then node.next else node.prev }

  function Begin(sq: int): Attempt { Attempt(sq, true, INT_MIN, 0, 0, [], []) }

  /** The second half of plain_traverse. */
  function Turn(w: Attempt): Attempt { w.(fwd := false, prev := INT_MAX, steps := 0) }

  /** The walk in one direction is over. */
  function EndOf(w: Attempt): RPc { if w.fwd then SLoad(Turn(w), HEAD) else SCheck(w) }

  /** A node with key k counts as a violation. */
  predicate Bad(c: Config, w: Attempt, k: int) { !Before(w.fwd, w.prev, k) || w.steps + 1 > Limit(c) }

  function Visit(w: Attempt, k: int): Attempt {
    var w' := w.(prev := k, steps := w.steps + 1);
    if w.fwd then w'.(there := w.there + [k]) else w'.(back := w.back + [k])
  }

  predicate Loadable(heap: map<int, Node>, pc: RPc) {
    match pc
    case SLoad(_, p) => p in heap
    case SKey(_, q) => q in heap
    case _ => true
  }

  function Load(c: Config, heap: map<int, Node>, sq: int, pc: RPc): RPc
    requires Loadable(heap, pc)
  {
    match pc
    case SIdle => SSeq
    case SSeq => if sq % 2 == 1 then SSeq else SLoad(Begin(sq), HEAD)
    case SLoad(w, p) =>
      var q := Link(heap[p], w.fwd);
      if q == HEAD then EndOf(w) else SKey(w, q)
    case SKey(w, q) =>
      var k := heap[q].key;
      if Bad(c, w, k) then EndOf(w.(viol := w.viol + 1)) else SLoad(Visit(w, k), q)
    case SCheck(w) => if sq == w.sq then SDone(w) else SSeq
    case SDone(_) => SIdle
  }

  function ReaderStep(c: Config, s: State, t: int): (r: State)
    requires 0 <= t < |s.rd|
    ensures |r.rd| == |s.rd|
  {
    if Loadable(s.heap, s.rd[t]) then s.(rd := s.rd[t := Load(c, s.heap, s.sq, s.rd[t])]) else s.(fault := true)
  }

  // ---- runs ---------------------------------------------------------------

  function Step(c: Config, s: State, m: Move): (r: State)
    ensures |r.rd| == |s.rd|
  {
    if !Enabled(c, s, m) then s
    else
      match m
      case Toggle(a) => s.(w := WOdd(a))
      case Write => WriterStep(c, s)
      case Read(t) => ReaderStep(c, s, t)
  }

  /** plain_build: the stable ring; churn nodes are allocated with links that mean nothing yet. */
  function Build(c: Config): State
    requires ValidConfig(c)
  {
    State(map i: int | -1 <= i < 2 * c.n ::
            if i < c.n then Node(2 * i, Succ(c.n, i), if i == -1 then c.n - 1 else i - 1)
            else Node(2 * (i - c.n) + 1, -2, -2),
          {}, 0, WIdle, seq(c.threads, i => SIdle), false)
  }

  /** The state after a whole schedule. */
  function Exec(c: Config, sched: seq<Move>): (s: State)
    requires ValidConfig(c)
    ensures |s.rd| == c.threads
  {
    if sched == [] then Build(c) else Step(c, Exec(c, sched[..|sched| - 1]), sched[|sched| - 1])
  }

  // ---- what a walk alone would find ---------------------------------------

  /** The rest of a one-way walk that stands at p, if the memory stands still. */
  function Go(c: Config, heap: map<int, Node>, w: Attempt, p: int): Attempt
    decreases Limit(c) - w.steps
  {
    if p !in heap then w
    else
      var q := Link(heap[p], w.fwd);
      if q == HEAD || q !in heap then w
      else if Bad(c, w, heap[q].key) then w.(viol := w.viol + 1)
      else Go(c, heap, Visit(w, heap[q].key), q)
  }

  /** plain_traverse at a single instant. */
  function Traverse(c: Config, heap: map<int, Node>, sq: int): Attempt {
    Go(c, heap, Turn(Go(c, heap, Begin(sq), HEAD)), HEAD)
  }

  // ---- history ------------------------------------------------------------

  /** Since a reader last loaded an even number: when, how many stores to g_seq there had been, and the memory. */
  datatype Window = Window(from: nat, bumps: int, heap: map<int, Node>)

  /** `bumps` counts the stores to g_seq; `end` is their number when a reader's last check succeeded. */
  datatype Past = Past(bumps: int, win: map<int, Window>, end: map<int, int>)

  ghost function StepPast(c: Config, s: State, h: Past, m: Move, now: nat): Past {
    if !Enabled(c, s, m) then h
    else
      match m
      case Toggle(_) => h
      case Write => if s.w.WOdd? || s.w.WEven? then h.(bumps := h.bumps + 1) else h
      case Read(t) =>
        if s.rd[t].SSeq? then h.(win := h.win[t := Window(now, h.bumps, s.heap)])
        else if s.rd[t].SCheck? then h.(end := h.end[t := h.bumps])
        else h
  }

  ghost function History(c: Config, sched: seq<Move>): Past
    requires ValidConfig(c)
  {
    if sched == [] then Past(0, map[], map[])
    else
      var before := sched[..|sched| - 1];
      StepPast(c, Exec(c, before), History(c, before), sched[|sched| - 1], |sched|)
  }
}
