/** The multi-producer multi-consumer queue as a step system.

    One step is one shared read, write or compare-and-swap of one thread; any number of threads
    interleave freely under sequential consistency. Node memory is never returned to the allocator
    while the queue lives, so a stale thread may read or write a recycled node: the steps allow that.

    Tags are counted without bound, but every comparison looks only at the 16-bit image. */
module LockFreeQueue {
  import opened TaggedPointers

  /** The payload; it is copied and never inspected. */
  type Value = int

  const DEFAULT: Value := 0

  /** A node address; NULL is the null pointer. */
  type Ref = int

  const NULL: Ref := -1

  /** Stands for the tag 0xdead. */
  const NO_TAG: int := -1

  datatype Ptr = Ptr(node: Ref, tag: int)

  datatype Node = Node(prev: Ptr, next: Ptr, nextFree: Ref, value: Value)

  /** The 16-bit tag stored in memory. */
  function Wire(tag: int): (w: nat) {
    if tag < 0 then INVALID_TAG else TagOf(tag)
  }

  /** Comparison of two packed words. */
  predicate Same(a: Ptr, b: Ptr) {
    a.node == b.node && Wire(a.tag) == Wire(b.tag)
  }

  /** The two counts are less than one tag cycle apart. */
  predicate InWindow(a: int, b: int) {
    a < 0 || b < 0 || (a - b < TAG_CYCLE && b - a < TAG_CYCLE)
  }

  /** Where a thread is and what its local variables hold. */
  datatype Local =
    | Idle
      // AcquireNode, called by Push
    | AcqRead(v: Value)
    | AcqLink(v: Value, seen: Ptr)
    | AcqCas(v: Value, seen: Ptr, below: Ref)
      // Push
    | PushValue(v: Value, node: Ref)
    | PushCount(v: Value, node: Ref)
    | PushReset(v: Value, node: Ref)
    | PushTail(v: Value, node: Ref)
    | PushNext(v: Value, node: Ref, tail: Ptr)
    | PushCas(v: Value, node: Ref, tail: Ptr)
    | PushBack(v: Value, node: Ref, tail: Ptr)
      // Pop
    | PopHead
    | PopTail(head: Ptr)
    | PopPrev(head: Ptr, tail: Ptr)
    | PopCheck(head: Ptr, tail: Ptr, prev: Ptr)
    | PopValue(head: Ptr, prev: Ptr)
    | PopCas(head: Ptr, prev: Ptr, v: Value)
      // FixList, called by Pop
    | FixCheck(head: Ptr, current: Ptr)
    | FixNext(head: Ptr, current: Ptr)
    | FixPrev(head: Ptr, current: Ptr, next: Ptr)
      // ReleaseNode, called by Pop, and the final decrement
    | RelValue(node: Ref, v: Value)
    | RelRead(node: Ref, v: Value)
    | RelReset(node: Ref, v: Value, seen: Ptr)
    | RelLink(node: Ref, v: Value, seen: Ptr)
    | RelCas(node: Ref, v: Value, seen: Ptr)
    | PopCount(v: Value)

  /** What a step leaves open: the operation an idle thread starts, the garbage in fresh memory. */
  datatype Choice = CallPush(v: Value) | CallPop | Garbage(node: Node) | Continue

  /** The one place a node is in. */
  datatype Place = Queued(position: nat) | Free(index: nat) | Private(thread: nat)

  /** Shared memory, thread-local variables and, last, history variables that no step reads:
      the node and the value at every queue position ever occupied, the free list from the bottom
      up, and the place of every node. */
  datatype State = State(
    size: int, head: Ptr, tail: Ptr, freeHead: Ptr, nodes: seq<Node>, threads: seq<Local>,
    order: seq<Ref>, vals: seq<Value>, free: seq<Ref>, place: seq<Place>)

  /** The queue after its constructor has run, with the given number of idle threads. */
  predicate Init(s: State) {
    && |s.nodes| == 1
    && s.nodes[0].prev.tag == NO_TAG
    && s.size == 0
    && s.head == s.tail == Ptr(0, 0)
    && s.freeHead == Ptr(NULL, 65534)
    && (forall p :: 0 <= p < |s.threads| ==> s.threads[p] == Idle)
    && s.order == [0] && s.vals == [s.nodes[0].value] && s.free == [] && s.place == [Queued(0)]
  }

  // ----- Steps ---------------------------------------------------------------------------------

  predicate IsNode(s: State, n: Ref) {
    0 <= n < |s.nodes|
  }

  /** The address the next step of thread p dereferences is a node. */
  predicate Safe(s: State, p: nat)
    requires p < |s.threads|
  {
    match s.threads[p]
    case AcqLink(_, seen) => seen.node == NULL || IsNode(s, seen.node)
    case PushValue(_, node) => IsNode(s, node)
    case PushReset(_, node) => IsNode(s, node)
    case PushNext(_, node, _) => IsNode(s, node)
    case PushBack(_, _, tail) => IsNode(s, tail.node)
    case PopPrev(head, _) => IsNode(s, head.node)
    case PopValue(_, prev) => IsNode(s, prev.node)
    case FixNext(_, current) => IsNode(s, current.node)
    case FixPrev(_, _, next) => IsNode(s, next.node)
    case RelValue(node, _) => IsNode(s, node)
    case RelReset(node, _, _) => IsNode(s, node)
    case RelLink(node, _, _) => IsNode(s, node)
    case _ => true
  }

  /** The 16-bit tags do not take two different pointers for the same one. They cannot when the counts
      are less than a cycle apart. */
  predicate NotFooled(a: Ptr, b: Ptr) {
    Same(a, b) ==> a == b
  }

  predicate TagNotFooled(a: int, b: int) {
    Wire(a) == Wire(b) ==> a == b
  }

  /** The choice fits the step, and no tag it compares has come round to that of another pointer. The
      comparison of a tail, or of a pointer in FixList, with the head needs no such assumption. */
  predicate Enabled(s: State, p: nat, c: Choice)
    requires p < |s.threads|
  {
    match s.threads[p]
    case Idle => c.CallPush? || c.CallPop?
    case AcqLink(_, seen) => if seen.node == NULL then c.Garbage? else c.Continue?
    case AcqCas(_, seen, _) => c.Continue? && NotFooled(seen, s.freeHead)
    case PushCas(_, _, tail) => c.Continue? && NotFooled(tail, s.tail)
    case PopCheck(head, _, prev) => c.Continue? && NotFooled(head, s.head) && TagNotFooled(prev.tag, head.tag)
    case PopCas(head, _, _) => c.Continue? && NotFooled(head, s.head)
    case FixCheck(head, _) => c.Continue? && NotFooled(head, s.head)
    case RelCas(_, _, seen) => c.Continue? && NotFooled(seen, s.freeHead)
    case _ => c.Continue?
  }

  function Goto(s: State, p: nat, l: Local): State
    requires p < |s.threads|
  {
    s.(threads := s.threads[p := l])
  }

  function Write(s: State, n: Ref, node: Node): State
    requires IsNode(s, n)
  {
    s.(nodes := s.nodes[n := node])
  }

  /** AcquireNode: pop the free list, or allocate when it is empty. */
  function AcquireStep(s: State, p: nat, c: Choice): State
    requires p < |s.threads| && Safe(s, p) && Enabled(s, p, c)
    requires s.threads[p].AcqRead? || s.threads[p].AcqLink? || s.threads[p].AcqCas?
  {
    match s.threads[p]
    case AcqRead(v) => Goto(s, p, AcqLink(v, s.freeHead))
    case AcqLink(v, seen) =>
      if seen.node == NULL then
        Goto(s, p, PushValue(v, |s.nodes|)).(
          nodes := s.nodes + [c.node.(nextFree := NULL)],
          place := s.place + [Private(p)])
      else
        Goto(s, p, AcqCas(v, seen, s.nodes[seen.node].nextFree))
    case AcqCas(v, seen, below) =>
      if Same(seen, s.freeHead) then
        Goto(s, p, PushValue(v, seen.node)).(
          freeHead := Ptr(below, seen.tag + 1),
          free := if |s.free| == 0 then [] else s.free[..|s.free| - 1],
          place := if 0 <= seen.node < |s.place| then s.place[seen.node := Private(p)] else s.place)
      else
        Goto(s, p, AcqRead(v))
  }

  /** Push after its node has been acquired. */
  function PushStep(s: State, p: nat): State
    requires p < |s.threads| && Safe(s, p)
    requires
      var l := s.threads[p];
      l.PushValue? || l.PushCount? || l.PushReset? || l.PushTail? || l.PushNext? || l.PushCas? || l.PushBack?
  {
    match s.threads[p]
    case PushValue(v, node) =>
      Goto(Write(s, node, s.nodes[node].(value := v)), p, PushCount(v, node))
    case PushCount(v, node) =>
      Goto(s.(size := s.size + 1), p, PushReset(v, node))
    case PushReset(v, node) =>
      Goto(Write(s, node, s.nodes[node].(prev := Ptr(NULL, NO_TAG))), p, PushTail(v, node))
    case PushTail(v, node) =>
      Goto(s, p, PushNext(v, node, s.tail))
    case PushNext(v, node, tail) =>
      Goto(Write(s, node, s.nodes[node].(next := Ptr(tail.node, tail.tag + 1))), p, PushCas(v, node, tail))
    case PushCas(v, node, tail) =>
      if Same(tail, s.tail) then
        Goto(s, p, PushBack(v, node, tail)).(
          tail := Ptr(node, tail.tag + 1),
          order := s.order + [node],
          vals := s.vals + [v],
          place := if 0 <= node < |s.place| then s.place[node := Queued(|s.order|)] else s.place)
      else
        Goto(s, p, PushTail(v, node))
    case PushBack(v, node, tail) =>
      Goto(Write(s, tail.node, s.nodes[tail.node].(prev := Ptr(node, tail.tag))), p, Idle)
  }

  /** Pop up to and including the compare-and-swap of the head. */
  function PopStep(s: State, p: nat): State
    requires p < |s.threads| && Safe(s, p)
    requires
      var l := s.threads[p];
      l.PopHead? || l.PopTail? || l.PopPrev? || l.PopCheck? || l.PopValue? || l.PopCas?
  {
    match s.threads[p]
    case PopHead => Goto(s, p, PopTail(s.head))
    case PopTail(head) => Goto(s, p, PopPrev(head, s.tail))
    case PopPrev(head, tail) => Goto(s, p, PopCheck(head, tail, s.nodes[head.node].prev))
    case PopCheck(head, tail, prev) =>
      if !Same(head, s.head) then Goto(s, p, PopHead)
      else if Same(tail, head) then Goto(s, p, Idle)
      else if Wire(prev.tag) == INVALID_TAG then Goto(s, p, FixCheck(head, tail))
      else if Wire(prev.tag) != Wire(head.tag) then Goto(s, p, FixCheck(head, tail))
      else Goto(s, p, PopValue(head, prev))
    case PopValue(head, prev) =>
      Goto(s, p, PopCas(head, prev, s.nodes[prev.node].value))
    case PopCas(head, prev, v) =>
      if Same(head, s.head) then
        Goto(s, p, RelValue(head.node, v)).(
          head := Ptr(prev.node, head.tag + 1),
          place := if 0 <= head.node < |s.place| then s.place[head.node := Private(p)] else s.place)
      else
        Goto(s, p, PopHead)
  }

  /** FixList: walk the forward links from the tail and rewrite the back links. */
  function FixStep(s: State, p: nat): State
    requires p < |s.threads| && Safe(s, p)
    requires s.threads[p].FixCheck? || s.threads[p].FixNext? || s.threads[p].FixPrev?
  {
    match s.threads[p]
    case FixCheck(head, current) =>
      if Same(head, s.head) && !Same(current, head) then Goto(s, p, FixNext(head, current))
      else Goto(s, p, PopHead)
    case FixNext(head, current) =>
      Goto(s, p, FixPrev(head, current, s.nodes[current.node].next))
    case FixPrev(head, current, next) =>
      Goto(Write(s, next.node, s.nodes[next.node].(prev := Ptr(current.node, current.tag - 1))),
           p, FixCheck(head, Ptr(next.node, current.tag - 1)))
  }

  /** ReleaseNode: push the popped node on the free list; then the size decrement of Pop. */
  function ReleaseStep(s: State, p: nat): State
    requires p < |s.threads| && Safe(s, p)
    requires
      var l := s.threads[p];
      l.RelValue? || l.RelRead? || l.RelReset? || l.RelLink? || l.RelCas? || l.PopCount?
  {
    match s.threads[p]
    case RelValue(node, v) =>
      Goto(Write(s, node, s.nodes[node].(value := DEFAULT)), p, RelRead(node, v))
    case RelRead(node, v) =>
      Goto(s, p, RelReset(node, v, s.freeHead))
    case RelReset(node, v, seen) =>
      Goto(Write(s, node, s.nodes[node].(prev := Ptr(NULL, NO_TAG))), p, RelLink(node, v, seen))
    case RelLink(node, v, seen) =>
      Goto(Write(s, node, s.nodes[node].(nextFree := seen.node)), p, RelCas(node, v, seen))
    case RelCas(node, v, seen) =>
      if Same(seen, s.freeHead) then
        Goto(s, p, PopCount(v)).(
          freeHead := Ptr(node, seen.tag + 1),
          free := s.free + [node],
          place := if 0 <= node < |s.place| then s.place[node := Free(|s.free|)] else s.place)
      else
        Goto(s, p, RelRead(node, v))
    case PopCount(v) =>
      Goto(s.(size := s.size - 1), p, Idle)
  }

  /** One step of thread p. */
  function Exec(s: State, p: nat, c: Choice): State
    requires p < |s.threads| && Safe(s, p) && Enabled(s, p, c)
  {
    var l := s.threads[p];
    if l.Idle? then
      Goto(s, p, if c.CallPush? then AcqRead(c.v) else PopHead)
    else if l.AcqRead? || l.AcqLink? || l.AcqCas? then
      AcquireStep(s, p, c)
    else if l.PushValue? || l.PushCount? || l.PushReset? || l.PushTail? || l.PushNext? || l.PushCas? || l.PushBack? then
      PushStep(s, p)
    else if l.PopHead? || l.PopTail? || l.PopPrev? || l.PopCheck? || l.PopValue? || l.PopCas? then
      PopStep(s, p)
    else if l.FixCheck? || l.FixNext? || l.FixPrev? then
      FixStep(s, p)
    else
      ReleaseStep(s, p)
  }
}
