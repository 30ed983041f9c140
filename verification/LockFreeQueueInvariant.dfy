/** The invariant of the queue's step system, and the proof that every step keeps it. */
module LockFreeQueueInvariant {
  import opened TaggedPointers
  import opened LockFreeQueue

  /** Head and tail name positions of one growing history. */
  predicate Shape(s: State) {
    && |s.order| == |s.vals| == s.tail.tag + 1
    && 0 <= s.head.tag <= s.tail.tag
    && (forall k :: 0 <= k < |s.order| ==> IsNode(s, s.order[k]))
    && s.head.node == s.order[s.head.tag]
    && s.tail.node == s.order[s.tail.tag]
  }

  /** The node a thread holds privately, if any. */
  function Holds(l: Local): (n: Ref) {
    match l
    case PushValue(_, node) => node
    case PushCount(_, node) => node
    case PushReset(_, node) => node
    case PushTail(_, node) => node
    case PushNext(_, node, _) => node
    case PushCas(_, node, _) => node
    case RelValue(node, _) => node
    case RelRead(node, _) => node
    case RelReset(node, _, _) => node
    case RelLink(node, _, _) => node
    case RelCas(node, _, _) => node
    case _ => NULL
  }

  /** A thread between acquiring and publishing, or between unlinking and releasing, owns a node. */
  predicate MustHold(l: Local) {
    || l.PushValue? || l.PushCount? || l.PushReset? || l.PushTail? || l.PushNext? || l.PushCas?
    || l.RelValue? || l.RelRead? || l.RelReset? || l.RelLink? || l.RelCas?
  }

  /** Every node is in exactly one place: queue (dummy included), free list, or one thread. */
  predicate OnePlace(s: State) {
    && |s.place| == |s.nodes|
    && s.head.tag >= 0
    && (forall k {:trigger s.order[k]} :: s.head.tag <= k < |s.order| ==>
          IsNode(s, s.order[k]) && s.place[s.order[k]] == Queued(k))
    && (forall i {:trigger s.free[i]} :: 0 <= i < |s.free| ==>
          IsNode(s, s.free[i]) && s.place[s.free[i]] == Free(i))
    && (forall p {:trigger s.threads[p]} :: 0 <= p < |s.threads| && MustHold(s.threads[p]) ==>
          IsNode(s, Holds(s.threads[p])) && s.place[Holds(s.threads[p])] == Private(p))
    && (forall n :: 0 <= n < |s.place| ==>
          match s.place[n]
          case Queued(k) => s.head.tag <= k < |s.order| && s.order[k] == n
          case Free(i) => i < |s.free| && s.free[i] == n
          case Private(p) => p < |s.threads| && MustHold(s.threads[p]) && Holds(s.threads[p]) == n)
  }

  /** A back link with a valid tag j leads to the node at position j + 1, wherever it is stored. */
  predicate GoodPrev(s: State, prev: Ptr) {
    prev.tag == NO_TAG || (0 <= prev.tag < |s.order| - 1 && prev.node == s.order[prev.tag + 1])
  }

  /** Forward links and values of the live positions, back links of every node ever queued. */
  predicate Links(s: State)
    requires Shape(s)
  {
    && (forall k {:trigger s.nodes[s.order[k]]} :: s.head.tag < k < |s.order| ==>
          s.nodes[s.order[k]].next == Ptr(s.order[k - 1], k))
    && (forall k {:trigger s.nodes[s.order[k]]} :: s.head.tag < k < |s.order| ==>
          s.nodes[s.order[k]].value == s.vals[k])
    && (forall k {:trigger s.nodes[s.order[k]]} :: 0 < k < |s.order| ==>
          IsNode(s, s.nodes[s.order[k]].next.node))
    && (forall k {:trigger s.nodes[s.order[k]]} :: 0 <= k < |s.order| ==>
          GoodPrev(s, s.nodes[s.order[k]].prev))
  }

  predicate FreeList(s: State) {
    && s.freeHead.tag >= 0
    && s.freeHead.node == (if |s.free| == 0 then NULL else s.free[|s.free| - 1])
    && (forall i :: 0 <= i < |s.free| ==> IsNode(s, s.free[i]))
    && (forall i {:trigger s.nodes[s.free[i]]} :: 0 <= i < |s.free| ==>
          s.nodes[s.free[i]].nextFree == if i == 0 then NULL else s.free[i - 1])
  }

  /** How much a thread's operation in flight adds to mSize beyond the queue length. */
  function Weight(l: Local): (w: nat) {
    if l.PushReset? || l.PushTail? || l.PushNext? || l.PushCas?
      || l.RelValue? || l.RelRead? || l.RelReset? || l.RelLink? || l.RelCas? || l.PopCount? then 1 else 0
  }

  function InFlight(threads: seq<Local>): (n: nat) {
    if |threads| == 0 then 0 else InFlight(threads[..|threads| - 1]) + Weight(threads[|threads| - 1])
  }

  /** mSize is the queue length, plus pushes counted but not linked, plus pops unlinked but not uncounted. */
  predicate SizeCount(s: State) {
    s.size == s.tail.tag - s.head.tag + InFlight(s.threads)
  }

  /** A (node, tag) pair that was the head or tail at some time. */
  predicate WasAt(s: State, q: Ptr) {
    0 <= q.tag < |s.order| && q.node == s.order[q.tag]
  }

  predicate HeadSeen(s: State, head: Ptr) {
    WasAt(s, head) && head.tag <= s.head.tag
  }

  /** A remembered free-list head: older by tag, or still the head. */
  predicate FreeSeen(s: State, seen: Ptr) {
    && 0 <= seen.tag <= s.freeHead.tag
    && (seen.tag == s.freeHead.tag ==> seen == s.freeHead)
    && (seen.node == NULL || IsNode(s, seen.node))
  }

  /** What the local variables of a thread say about shared memory. */
  predicate LocalInv(s: State, l: Local)
    requires Shape(s)
  {
    match l
    case AcqLink(_, seen) => FreeSeen(s, seen)
    case AcqCas(_, seen, below) =>
      && FreeSeen(s, seen) && IsNode(s, seen.node)
      && (seen == s.freeHead ==> s.nodes[seen.node].nextFree == below)
    case PushCount(v, node) => IsNode(s, node) && s.nodes[node].value == v
    case PushReset(v, node) => IsNode(s, node) && s.nodes[node].value == v
    case PushTail(v, node) => IsNode(s, node) && s.nodes[node].value == v && GoodPrev(s, s.nodes[node].prev)
    case PushNext(v, node, tail) =>
      && IsNode(s, node) && s.nodes[node].value == v && GoodPrev(s, s.nodes[node].prev) && WasAt(s, tail)
    case PushCas(v, node, tail) =>
      && IsNode(s, node) && s.nodes[node].value == v && GoodPrev(s, s.nodes[node].prev) && WasAt(s, tail)
      && s.nodes[node].next == Ptr(tail.node, tail.tag + 1)
    case PushBack(_, node, tail) =>
      && WasAt(s, tail) && WasAt(s, Ptr(node, tail.tag + 1))
    case PopTail(head) => HeadSeen(s, head)
    case PopPrev(head, tail) => HeadSeen(s, head) && WasAt(s, tail) && head.tag <= tail.tag
    case PopCheck(head, tail, prev) =>
      && HeadSeen(s, head) && WasAt(s, tail) && head.tag <= tail.tag && GoodPrev(s, prev)
    case PopValue(head, prev) =>
      && HeadSeen(s, head) && GoodPrev(s, prev) && prev.tag == head.tag
    case PopCas(head, prev, v) =>
      && HeadSeen(s, head) && GoodPrev(s, prev) && prev.tag == head.tag
      && (head.tag == s.head.tag ==> v == s.vals[head.tag + 1])
    case FixCheck(head, current) =>
      && HeadSeen(s, head) && head.tag <= current.tag < |s.order|
      && (head.tag == s.head.tag ==> WasAt(s, current))
    case FixNext(head, current) =>
      && HeadSeen(s, head) && head.tag < current.tag && WasAt(s, current)
    case FixPrev(head, current, next) =>
      && HeadSeen(s, head) && head.tag < current.tag && WasAt(s, current) && IsNode(s, next.node)
      && (head.tag == s.head.tag ==> next == Ptr(s.order[current.tag - 1], current.tag))
    case RelReset(_, _, seen) => FreeSeen(s, seen)
    case RelLink(_, _, seen) => FreeSeen(s, seen)
    case RelCas(node, _, seen) => FreeSeen(s, seen) && IsNode(s, node) && s.nodes[node].nextFree == seen.node
    case _ => true
  }

  /** What holds of shared memory and node ownership. */
  predicate Core(s: State) {
    Shape(s) && OnePlace(s) && Links(s) && FreeList(s) && SizeCount(s)
  }

  predicate Inv(s: State) {
    Core(s) && (forall p :: 0 <= p < |s.threads| ==> LocalInv(s, s.threads[p]))
  }

  // ----- Every step keeps the invariant --------------------------------------------------------

  lemma InitHasInv(s: State)
    requires Init(s)
    ensures Inv(s)
  {
    IdleWeighsNothing(s.threads);
  }

  lemma IdleWeighsNothing(threads: seq<Local>)
    requires forall p :: 0 <= p < |threads| ==> threads[p] == Idle
    ensures InFlight(threads) == 0
  {
  }

  lemma InFlightUpdate(threads: seq<Local>, p: nat, l: Local)
    requires p < |threads|
    ensures InFlight(threads[p := l]) == InFlight(threads) - Weight(threads[p]) + Weight(l)
  {
    var n := |threads| - 1;
    if p == n {
      assert threads[p := l][..n] == threads[..n];
    } else {
      assert threads[p := l][..n] == threads[..n][p := l];
      InFlightUpdate(threads[..n], p, l);
    }
  }

  /** Counts less than a cycle apart are not confused. */
  lemma WindowIsNotFooled(a: Ptr, b: Ptr)
    requires a.tag >= 0 && b.tag >= 0 && InWindow(a.tag, b.tag)
    ensures NotFooled(a, b) && TagNotFooled(a.tag, b.tag)
  {
    WindowMakesTagsExact(a.tag, b.tag);
  }

  /** Two pointers into the live part of the queue are told apart by their nodes, however far apart
      they are: a node is at one position only. */
  lemma LiveSame(s: State, a: Ptr, b: Ptr)
    requires Inv(s) && WasAt(s, a) && WasAt(s, b) && s.head.tag <= a.tag && s.head.tag <= b.tag
    ensures Same(a, b) <==> a == b
  {
    assert OnePlace(s);
    assert s.place[s.order[a.tag]] == Queued(a.tag) && s.place[s.order[b.tag]] == Queued(b.tag);
  }

  /** No step dereferences a null or wild pointer. */
  lemma InvIsSafe(s: State, p: nat)
    requires Inv(s) && p < |s.threads|
    ensures Safe(s, p)
  {
    assert LocalInv(s, s.threads[p]);
  }

  /** What a step of thread p may change, as the other threads see it. */
  predicate Evolves(s: State, s': State, p: nat)
    requires Shape(s) && Shape(s') && |s.place| == |s.nodes|
  {
    && s.order <= s'.order && s.vals <= s'.vals
    && s.head.tag <= s'.head.tag
    && |s.nodes| <= |s'.nodes|
    && (s.freeHead == s'.freeHead || s.freeHead.tag < s'.freeHead.tag)
    && |s'.threads| == |s.threads|
    && (forall q :: 0 <= q < |s.threads| && q != p ==> s'.threads[q] == s.threads[q])
    && (forall n :: 0 <= n < |s.nodes| ==>
          && (GoodPrev(s, s.nodes[n].prev) ==> GoodPrev(s', s'.nodes[n].prev))
          && (s.place[n] != Private(p) ==>
                && s'.nodes[n].next == s.nodes[n].next
                && s'.nodes[n].nextFree == s.nodes[n].nextFree
                && s'.nodes[n].value == s.nodes[n].value))
  }

  /** The parts of LocalInv that only speak of the history. */
  lemma PoppersKeepLocalInv(s: State, s': State, p: nat, l: Local)
    requires Shape(s) && Shape(s') && |s.place| == |s.nodes| && Evolves(s, s', p)
    requires LocalInv(s, l)
    requires l.PushBack? || l.PopTail? || l.PopPrev? || l.PopCheck? || l.PopValue? || l.PopCas?
    ensures LocalInv(s', l)
  {
  }

  lemma FixersKeepLocalInv(s: State, s': State, p: nat, l: Local)
    requires Shape(s) && Shape(s') && |s.place| == |s.nodes| && Evolves(s, s', p)
    requires LocalInv(s, l)
    requires l.FixCheck? || l.FixNext? || l.FixPrev?
    ensures LocalInv(s', l)
  {
  }

  /** The part that speaks of the node a thread owns. */
  lemma OwnersKeepLocalInv(s: State, s': State, p: nat, q: nat)
    requires Shape(s) && Shape(s') && OnePlace(s) && Evolves(s, s', p)
    requires p < |s.threads| && q < |s.threads| && p != q
    requires LocalInv(s, s.threads[q])
    requires var l := s.threads[q];
             l.PushCount? || l.PushReset? || l.PushTail? || l.PushNext? || l.PushCas?
             || l.RelReset? || l.RelLink? || l.RelCas?
    ensures LocalInv(s', s.threads[q])
  {
    var n := Holds(s.threads[q]);
    assert IsNode(s, n) && s.place[n] == Private(q);
  }

  /** The part that speaks of the free list. */
  lemma AcquirersKeepLocalInv(s: State, s': State, p: nat, l: Local)
    requires Shape(s) && Shape(s') && OnePlace(s) && FreeList(s) && Evolves(s, s', p)
    requires LocalInv(s, l) && (l.AcqLink? || l.AcqCas?)
    ensures LocalInv(s', l)
  {
    if l.AcqCas? && l.seen == s'.freeHead {
      assert s.free[|s.free| - 1] == l.seen.node;
    }
  }

  lemma OthersKeepLocalInv(s: State, s': State, p: nat, q: nat)
    requires Inv(s) && Shape(s') && Evolves(s, s', p)
    requires p < |s.threads| && q < |s.threads| && p != q
    ensures LocalInv(s', s'.threads[q])
  {
    var l := s.threads[q];
    assert LocalInv(s, l);
    if l.AcqLink? || l.AcqCas? {
      AcquirersKeepLocalInv(s, s', p, l);
    } else if MustHold(l) && !l.PushValue? && !l.RelValue? && !l.RelRead? {
      OwnersKeepLocalInv(s, s', p, q);
    } else if l.FixCheck? || l.FixNext? || l.FixPrev? {
      FixersKeepLocalInv(s, s', p, l);
    } else if l.PushBack? || l.PopTail? || l.PopPrev? || l.PopCheck? || l.PopValue? || l.PopCas? {
      PoppersKeepLocalInv(s, s', p, l);
    }
  }

  /** Puts the pieces of the invariant together after a step of p. */
  lemma Reassemble(s: State, s': State, p: nat)
    requires Inv(s) && p < |s.threads|
    requires Core(s') && Evolves(s, s', p) && LocalInv(s', s'.threads[p])
    ensures Inv(s')
  {
    forall q | 0 <= q < |s'.threads| ensures LocalInv(s', s'.threads[q]) {
      if q != p { OthersKeepLocalInv(s, s', p, q); }
    }
  }

  /** The new program point owns what the old one did. */
  predicate SameHolding(l: Local, l': Local) {
    MustHold(l') == MustHold(l) && (MustHold(l) ==> Holds(l') == Holds(l))
  }

  lemma MoveKeepsPlaces(s: State, s': State, p: nat, l: Local)
    requires OnePlace(s) && p < |s.threads| && SameHolding(s.threads[p], l)
    requires s'.threads == s.threads[p := l] && |s'.nodes| == |s.nodes|
    requires s'.place == s.place && s'.order == s.order && s'.free == s.free && s'.head == s.head
    ensures OnePlace(s')
  {
  }

  // Steps that change only thread-local variables, and mSize.

  lemma MoveKeepsCore(s: State, p: nat, l: Local, d: int)
    requires Core(s) && p < |s.threads|
    requires d == Weight(l) - Weight(s.threads[p])
    requires SameHolding(s.threads[p], l)
    ensures Core(Goto(s.(size := s.size + d), p, l))
    ensures Evolves(s, Goto(s.(size := s.size + d), p, l), p)
  {
    hide Links, FreeList, OnePlace;
    var s' := Goto(s.(size := s.size + d), p, l);
    InFlightUpdate(s.threads, p, l);
    MoveKeepsPlaces(s, s', p, l);
    SameLinks(s, s');
    SameFreeList(s, s');
    PlacesCoverNodes(s);
    QuietEvolves(s, s', p);
  }

  lemma Move(s: State, p: nat, l: Local, d: int)
    requires Inv(s) && p < |s.threads|
    requires d == Weight(l) - Weight(s.threads[p])
    requires SameHolding(s.threads[p], l)
    requires LocalInv(Goto(s.(size := s.size + d), p, l), l)
    ensures Inv(Goto(s.(size := s.size + d), p, l))
  {
    MoveKeepsCore(s, p, l, d);
    Reassemble(s, Goto(s.(size := s.size + d), p, l), p);
  }

  // Writes to nodes.

  /** A node that is not the private node of p. */
  predicate Untouched(s: State, n: Ref, p: nat) {
    0 <= n < |s.place| && s.place[n] != Private(p)
  }

  /** Node n changes; unless it belongs to p, only its back link does. */
  predicate WriteAllowed(s: State, n: Ref, node: Node, p: nat)
    requires IsNode(s, n)
  {
    && (node.prev == s.nodes[n].prev || GoodPrev(s, node.prev))
    && (node.next == s.nodes[n].next || IsNode(s, node.next.node))
    && (Untouched(s, n, p) ==>
          node.next == s.nodes[n].next && node.nextFree == s.nodes[n].nextFree && node.value == s.nodes[n].value)
  }

  lemma WriteKeepsLinks(s: State, p: nat, n: Ref, node: Node, l: Local)
    requires Shape(s) && OnePlace(s) && Links(s) && p < |s.threads|
    requires IsNode(s, n) && WriteAllowed(s, n, node, p)
    ensures Shape(Goto(Write(s, n, node), p, l)) && Links(Goto(Write(s, n, node), p, l))
  {
    hide OnePlace;
    LiveIsUntouched(s, p);
  }

  lemma LiveIsUntouched(s: State, p: nat)
    requires Shape(s) && OnePlace(s)
    ensures forall k {:trigger s.order[k]} :: s.head.tag <= k < |s.order| ==> Untouched(s, s.order[k], p)
  {
    forall k | s.head.tag <= k < |s.order| ensures Untouched(s, s.order[k], p) {
      assert s.place[s.order[k]] == Queued(k);
    }
  }

  lemma WriteKeepsFreeList(s: State, p: nat, n: Ref, node: Node, l: Local)
    requires OnePlace(s) && FreeList(s) && p < |s.threads|
    requires IsNode(s, n) && WriteAllowed(s, n, node, p)
    ensures FreeList(Goto(Write(s, n, node), p, l))
  {
    forall i | 0 <= i < |s.free| ensures Untouched(s, s.free[i], p) {
      assert s.place[s.free[i]] == Free(i);
    }
  }

  lemma WriteEvolves(s: State, p: nat, n: Ref, node: Node, l: Local)
    requires Shape(s) && |s.place| == |s.nodes| && p < |s.threads|
    requires IsNode(s, n) && WriteAllowed(s, n, node, p)
    requires Shape(Goto(Write(s, n, node), p, l))
    ensures Evolves(s, Goto(Write(s, n, node), p, l), p)
  {
  }

  lemma WriteKeepsCore(s: State, p: nat, n: Ref, node: Node, l: Local)
    requires Core(s) && p < |s.threads|
    requires SameHolding(s.threads[p], l) && Weight(l) == Weight(s.threads[p])
    requires IsNode(s, n) && WriteAllowed(s, n, node, p)
    ensures Core(Goto(Write(s, n, node), p, l))
    ensures Evolves(s, Goto(Write(s, n, node), p, l), p)
  {
    InFlightUpdate(s.threads, p, l);
    MoveKeepsPlaces(s, Goto(Write(s, n, node), p, l), p, l);
    WriteKeepsLinks(s, p, n, node, l);
    WriteKeepsFreeList(s, p, n, node, l);
    WriteEvolves(s, p, n, node, l);
  }

  lemma WriteMove(s: State, p: nat, n: Ref, node: Node, l: Local)
    requires Inv(s) && p < |s.threads|
    requires SameHolding(s.threads[p], l) && Weight(l) == Weight(s.threads[p])
    requires IsNode(s, n) && WriteAllowed(s, n, node, p)
    requires Shape(Goto(Write(s, n, node), p, l)) ==> LocalInv(Goto(Write(s, n, node), p, l), l)
    ensures Inv(Goto(Write(s, n, node), p, l))
  {
    WriteKeepsCore(s, p, n, node, l);
    Reassemble(s, Goto(Write(s, n, node), p, l), p);
  }

  /** Steps that overwrite no node. */
  lemma QuietEvolves(s: State, s': State, p: nat)
    requires Shape(s) && Shape(s') && |s.place| == |s.nodes| && p < |s.threads|
    requires s.nodes <= s'.nodes && s.head.tag <= s'.head.tag
    requires s'.freeHead == s.freeHead || s.freeHead.tag < s'.freeHead.tag
    requires s.order <= s'.order && s.vals <= s'.vals
    requires |s'.threads| == |s.threads| && s'.threads == s.threads[p := s'.threads[p]]
    ensures Evolves(s, s', p)
  {
  }

  lemma PlacesCoverNodes(s: State)
    requires OnePlace(s)
    ensures |s.place| == |s.nodes|
  {
  }

  // Steps that move a node from one place to another.

  /** Allocation: a fresh node, with garbage in its fields, becomes private. */
  lemma AllocateKeepsCore(s: State, p: nat, node: Node, l: Local)
    requires Core(s) && p < |s.threads|
    requires !MustHold(s.threads[p]) && MustHold(l) && Holds(l) == |s.nodes|
    requires Weight(l) == Weight(s.threads[p])
    ensures var s' := Goto(s, p, l).(nodes := s.nodes + [node], place := s.place + [Private(p)]);
            Core(s') && Evolves(s, s', p)
  {
    var s' := Goto(s, p, l).(nodes := s.nodes + [node], place := s.place + [Private(p)]);
    hide Links, FreeList, OnePlace;
    InFlightUpdate(s.threads, p, l);
    AllocateKeepsPlaces(s, s', p, l);
    PlacesCoverNodes(s);
    SameLinks(s, s');
    SameFreeList(s, s');
    QuietEvolves(s, s', p);
  }

  lemma SameLinks(s: State, s': State)
    requires Shape(s) && Links(s)
    requires s.nodes <= s'.nodes && s'.order == s.order && s'.vals == s.vals && s'.head == s.head && s'.tail == s.tail
    ensures Shape(s') && Links(s')
  {
  }

  lemma SameFreeList(s: State, s': State)
    requires FreeList(s)
    requires s.nodes <= s'.nodes && s'.free == s.free && s'.freeHead == s.freeHead
    ensures FreeList(s')
  {
  }

  lemma AllocateKeepsPlaces(s: State, s': State, p: nat, l: Local)
    requires OnePlace(s) && p < |s.threads|
    requires !MustHold(s.threads[p]) && MustHold(l) && Holds(l) == |s.nodes|
    requires s'.threads == s.threads[p := l] && |s'.nodes| == |s.nodes| + 1
    requires s'.place == s.place + [Private(p)]
    requires s'.order == s.order && s'.free == s.free && s'.head == s.head
    ensures OnePlace(s')
  {
  }

  /** The free-list compare-and-swap of AcquireNode: the top node becomes private to p alone. */
  lemma TakeFreeKeepsPlaces(s: State, s': State, p: nat, l: Local)
    requires OnePlace(s) && p < |s.threads| && |s.free| > 0
    requires !MustHold(s.threads[p]) && MustHold(l) && Holds(l) == s.free[|s.free| - 1]
    requires s'.threads == s.threads[p := l] && |s'.nodes| == |s.nodes|
    requires s'.free == s.free[..|s.free| - 1] && s'.place == s.place[Holds(l) := Private(p)]
    requires s'.order == s.order && s'.head == s.head
    ensures OnePlace(s')
  {
    var n := Holds(l);
    assert s.place[n] == Free(|s.free| - 1);
    forall k | s.head.tag <= k < |s.order| ensures s.order[k] != n {}
    forall i | 0 <= i < |s.free| - 1 ensures s.free[i] != n {}
  }

  lemma TopOfFreeList(s: State, n: Ref)
    requires OnePlace(s) && FreeList(s) && s.freeHead.node == n && IsNode(s, n)
    ensures |s.free| > 0 && s.free[|s.free| - 1] == n && n < |s.place| == |s.nodes|
  {
  }

  lemma TakeFreeKeepsFreeList(s: State, s': State)
    requires FreeList(s) && |s.free| > 0
    requires s'.nodes == s.nodes && s'.free == s.free[..|s.free| - 1]
    requires s'.freeHead == Ptr(s.nodes[s.free[|s.free| - 1]].nextFree, s.freeHead.tag + 1)
    ensures FreeList(s')
  {
  }

  lemma TakeFreeKeepsCore(s: State, p: nat, n: Ref, below: Ref, l: Local)
    requires Core(s) && p < |s.threads|
    requires !MustHold(s.threads[p]) && MustHold(l) && Holds(l) == n
    requires Weight(l) == Weight(s.threads[p])
    requires s.freeHead.node == n && IsNode(s, n) && s.nodes[n].nextFree == below
    ensures |s.free| > 0 && n < |s.place|
    ensures var s' := Goto(s, p, l).(freeHead := Ptr(below, s.freeHead.tag + 1),
                                     free := s.free[..|s.free| - 1], place := s.place[n := Private(p)]);
            Core(s') && Evolves(s, s', p)
  {
    hide Links, FreeList, OnePlace;
    TopOfFreeList(s, n);
    var s' := Goto(s, p, l).(freeHead := Ptr(below, s.freeHead.tag + 1),
                             free := s.free[..|s.free| - 1], place := s.place[n := Private(p)]);
    InFlightUpdate(s.threads, p, l);
    TakeFreeKeepsPlaces(s, s', p, l);
    TakeFreeKeepsFreeList(s, s');
    SameLinks(s, s');
    QuietEvolves(s, s', p);
  }

  /** The free-list compare-and-swap of ReleaseNode. */
  lemma GiveFreeKeepsPlaces(s: State, s': State, p: nat, l: Local)
    requires OnePlace(s) && p < |s.threads|
    requires MustHold(s.threads[p]) && !MustHold(l)
    requires s'.threads == s.threads[p := l] && |s'.nodes| == |s.nodes|
    requires s'.free == s.free + [Holds(s.threads[p])]
    requires s'.place == s.place[Holds(s.threads[p]) := Free(|s.free|)]
    requires s'.order == s.order && s'.head == s.head
    ensures OnePlace(s')
  {
    var n := Holds(s.threads[p]);
    assert s.place[n] == Private(p);
    forall k | s.head.tag <= k < |s.order| ensures s.order[k] != n {}
    forall i | 0 <= i < |s.free| ensures s.free[i] != n {}
  }

  lemma GiveFreeKeepsFreeList(s: State, s': State, n: Ref)
    requires FreeList(s) && IsNode(s, n) && s.nodes[n].nextFree == s.freeHead.node
    requires s'.nodes == s.nodes && s'.free == s.free + [n] && s'.freeHead == Ptr(n, s.freeHead.tag + 1)
    ensures FreeList(s')
  {
  }

  lemma GiveFreeKeepsCore(s: State, p: nat, n: Ref, l: Local)
    requires Core(s) && p < |s.threads|
    requires MustHold(s.threads[p]) && !MustHold(l) && Holds(s.threads[p]) == n
    requires Weight(l) == Weight(s.threads[p])
    requires IsNode(s, n) && s.nodes[n].nextFree == s.freeHead.node
    ensures n < |s.place|
    ensures var s' := Goto(s, p, l).(freeHead := Ptr(n, s.freeHead.tag + 1),
                                     free := s.free + [n], place := s.place[n := Free(|s.free|)]);
            Core(s') && Evolves(s, s', p)
  {
    hide Links, FreeList, OnePlace;
    PlacesCoverNodes(s);
    var s' := Goto(s, p, l).(freeHead := Ptr(n, s.freeHead.tag + 1),
                             free := s.free + [n], place := s.place[n := Free(|s.free|)]);
    InFlightUpdate(s.threads, p, l);
    GiveFreeKeepsPlaces(s, s', p, l);
    GiveFreeKeepsFreeList(s, s', n);
    SameLinks(s, s');
    QuietEvolves(s, s', p);
  }

  /** The tail compare-and-swap of Push. */
  lemma PublishKeepsPlaces(s: State, s': State, p: nat, l: Local)
    requires OnePlace(s) && p < |s.threads|
    requires MustHold(s.threads[p]) && !MustHold(l) && s.head.tag < |s.order|
    requires s'.threads == s.threads[p := l] && |s'.nodes| == |s.nodes|
    requires s'.order == s.order + [Holds(s.threads[p])]
    requires s'.place == s.place[Holds(s.threads[p]) := Queued(|s.order|)]
    requires s'.free == s.free && s'.head == s.head
    ensures OnePlace(s')
  {
    var n := Holds(s.threads[p]);
    assert s.place[n] == Private(p);
    forall k | s.head.tag <= k < |s.order| ensures s.order[k] != n {}
    forall i | 0 <= i < |s.free| ensures s.free[i] != n {}
  }

  lemma PublishKeepsLinks(s: State, s': State, p: nat, n: Ref, v: Value)
    requires Shape(s) && Links(s) && p < |s.threads|
    requires IsNode(s, n) && s.nodes[n].next == Ptr(s.tail.node, s.tail.tag + 1) && s.nodes[n].value == v
    requires GoodPrev(s, s.nodes[n].prev)
    requires s'.nodes == s.nodes && s'.head == s.head && s'.tail == Ptr(n, s.tail.tag + 1)
    requires s'.order == s.order + [n] && s'.vals == s.vals + [v]
    ensures Shape(s') && Links(s')
  {
  }

  function Publish(s: State, p: nat, n: Ref, v: Value, l: Local): State
    requires p < |s.threads| && 0 <= n < |s.place|
  {
    Goto(s, p, l).(tail := Ptr(n, s.tail.tag + 1), order := s.order + [n],
                   vals := s.vals + [v], place := s.place[n := Queued(|s.order|)])
  }

  lemma PublishKeepsCore(s: State, p: nat, n: Ref, v: Value, l: Local)
    requires Core(s) && p < |s.threads|
    requires MustHold(s.threads[p]) && !MustHold(l) && Holds(s.threads[p]) == n
    requires Weight(l) == Weight(s.threads[p]) - 1
    requires IsNode(s, n) && s.nodes[n].next == Ptr(s.tail.node, s.tail.tag + 1) && s.nodes[n].value == v
    requires GoodPrev(s, s.nodes[n].prev)
    ensures n < |s.place| && Core(Publish(s, p, n, v, l))
  {
    var s' := Publish(s, p, n, v, l);
    InFlightUpdate(s.threads, p, l);
    PublishKeepsPlaces(s, s', p, l);
    PublishKeepsLinks(s, s', p, n, v);
  }

  /** The head compare-and-swap of Pop. */
  lemma UnlinkKeepsPlaces(s: State, s': State, p: nat, l: Local)
    requires OnePlace(s) && p < |s.threads| && s.head.tag + 1 < |s.order|
    requires !MustHold(s.threads[p]) && MustHold(l) && Holds(l) == s.order[s.head.tag]
    requires s'.threads == s.threads[p := l] && |s'.nodes| == |s.nodes|
    requires s'.head.tag == s.head.tag + 1 && s'.place == s.place[Holds(l) := Private(p)]
    requires s'.free == s.free && s'.order == s.order
    ensures OnePlace(s')
  {
    var n := Holds(l);
    assert s.place[n] == Queued(s.head.tag);
    forall k | s.head.tag < k < |s.order| ensures s.order[k] != n {}
    forall i | 0 <= i < |s.free| ensures s.free[i] != n {}
  }

  lemma UnlinkKeepsCore(s: State, p: nat, next: Ref, l: Local)
    requires Core(s) && p < |s.threads|
    requires !MustHold(s.threads[p]) && MustHold(l) && Holds(l) == s.head.node
    requires Weight(l) == Weight(s.threads[p]) + 1
    requires s.head.tag + 1 < |s.order| && next == s.order[s.head.tag + 1]
    ensures 0 <= s.head.node < |s.place|
    ensures var s' := Goto(s, p, l).(head := Ptr(next, s.head.tag + 1), place := s.place[s.head.node := Private(p)]);
            Core(s') && Evolves(s, s', p)
  {
    var s' := Goto(s, p, l).(head := Ptr(next, s.head.tag + 1), place := s.place[s.head.node := Private(p)]);
    InFlightUpdate(s.threads, p, l);
    UnlinkKeepsPlaces(s, s', p, l);
    assert Shape(s') && Links(s');
    assert FreeList(s');
  }

  // The same, with the local invariants of all threads.

  lemma AllocateMove(s: State, p: nat, node: Node, l: Local)
    requires Inv(s) && p < |s.threads|
    requires !MustHold(s.threads[p]) && l.PushValue? && Holds(l) == |s.nodes|
    requires Weight(l) == Weight(s.threads[p])
    ensures Inv(Goto(s, p, l).(nodes := s.nodes + [node], place := s.place + [Private(p)]))
  {
    AllocateKeepsCore(s, p, node, l);
    Reassemble(s, Goto(s, p, l).(nodes := s.nodes + [node], place := s.place + [Private(p)]), p);
  }

  lemma TakeFreeMove(s: State, p: nat, n: Ref, below: Ref, l: Local)
    requires Inv(s) && p < |s.threads|
    requires !MustHold(s.threads[p]) && l.PushValue? && Holds(l) == n
    requires Weight(l) == Weight(s.threads[p])
    requires s.freeHead.node == n && IsNode(s, n) && s.nodes[n].nextFree == below
    ensures |s.free| > 0 && n < |s.place|
    ensures Inv(Goto(s, p, l).(freeHead := Ptr(below, s.freeHead.tag + 1),
                               free := s.free[..|s.free| - 1], place := s.place[n := Private(p)]))
  {
    TakeFreeKeepsCore(s, p, n, below, l);
    Reassemble(s, Goto(s, p, l).(freeHead := Ptr(below, s.freeHead.tag + 1),
                                 free := s.free[..|s.free| - 1], place := s.place[n := Private(p)]), p);
  }

  lemma GiveFreeMove(s: State, p: nat, n: Ref, l: Local)
    requires Inv(s) && p < |s.threads|
    requires MustHold(s.threads[p]) && l.PopCount? && Holds(s.threads[p]) == n
    requires Weight(l) == Weight(s.threads[p])
    requires IsNode(s, n) && s.nodes[n].nextFree == s.freeHead.node
    ensures n < |s.place|
    ensures Inv(Goto(s, p, l).(freeHead := Ptr(n, s.freeHead.tag + 1),
                               free := s.free + [n], place := s.place[n := Free(|s.free|)]))
  {
    GiveFreeKeepsCore(s, p, n, l);
    Reassemble(s, Goto(s, p, l).(freeHead := Ptr(n, s.freeHead.tag + 1),
                                 free := s.free + [n], place := s.place[n := Free(|s.free|)]), p);
  }

  lemma PublishMove(s: State, p: nat, n: Ref, v: Value, l: Local)
    requires Inv(s) && p < |s.threads|
    requires MustHold(s.threads[p]) && Holds(s.threads[p]) == n && l == PushBack(v, n, s.tail)
    requires Weight(l) == Weight(s.threads[p]) - 1
    requires IsNode(s, n) && s.nodes[n].next == Ptr(s.tail.node, s.tail.tag + 1) && s.nodes[n].value == v
    requires GoodPrev(s, s.nodes[n].prev)
    ensures n < |s.place| && Inv(Publish(s, p, n, v, l))
  {
    PublishKeepsCore(s, p, n, v, l);
    QuietEvolves(s, Publish(s, p, n, v, l), p);
    Reassemble(s, Publish(s, p, n, v, l), p);
  }

  lemma UnlinkMove(s: State, p: nat, next: Ref, l: Local)
    requires Inv(s) && p < |s.threads|
    requires !MustHold(s.threads[p]) && l.RelValue? && Holds(l) == s.head.node
    requires Weight(l) == Weight(s.threads[p]) + 1
    requires s.head.tag >= 0 && s.head.tag + 1 < |s.order| && next == s.order[s.head.tag + 1]
    ensures 0 <= s.head.node < |s.place|
    ensures Inv(Goto(s, p, l).(head := Ptr(next, s.head.tag + 1), place := s.place[s.head.node := Private(p)]))
  {
    UnlinkKeepsCore(s, p, next, l);
    Reassemble(s, Goto(s, p, l).(head := Ptr(next, s.head.tag + 1), place := s.place[s.head.node := Private(p)]), p);
  }

  // The steps of each routine.

  /** What a step needs of the invariant. */
  lemma Open(s: State, p: nat)
    requires Inv(s) && p < |s.threads|
    ensures Shape(s) && LocalInv(s, s.threads[p]) && FreeSeen(s, s.freeHead) && Safe(s, p)
    ensures |s.place| == |s.nodes|
    ensures MustHold(s.threads[p]) ==> IsNode(s, Holds(s.threads[p])) && s.place[Holds(s.threads[p])] == Private(p)
  {
    InvIsSafe(s, p);
  }

  /** What a reader of a queued node needs of the invariant. */
  lemma OpenNode(s: State, k: int)
    requires Inv(s) && 0 <= k < |s.order|
    ensures IsNode(s, s.order[k]) && GoodPrev(s, s.nodes[s.order[k]].prev)
    ensures k > 0 ==> IsNode(s, s.nodes[s.order[k]].next.node)
    ensures k > s.head.tag ==> s.nodes[s.order[k]].next == Ptr(s.order[k - 1], k)
    ensures k > s.head.tag ==> |s.vals| == |s.order| && s.nodes[s.order[k]].value == s.vals[k]
  {
  }

  lemma AcqReadKeepsInv(s: State, p: nat, c: Choice)
    requires Inv(s) && p < |s.threads| && s.threads[p].AcqRead? && Safe(s, p) && Enabled(s, p, c)
    ensures Inv(AcquireStep(s, p, c))
  {
    hide Inv;
    Open(s, p);
    var AcqRead(v) := s.threads[p];
    Move(s, p, AcqLink(v, s.freeHead), 0);
  }

  lemma AcqLinkKeepsInv(s: State, p: nat, c: Choice)
    requires Inv(s) && p < |s.threads| && s.threads[p].AcqLink? && Safe(s, p) && Enabled(s, p, c)
    ensures Inv(AcquireStep(s, p, c))
  {
    hide Inv;
    Open(s, p);
    var AcqLink(v, seen) := s.threads[p];
    if seen.node == NULL {
      AllocateMove(s, p, c.node.(nextFree := NULL), PushValue(v, |s.nodes|));
    } else {
      Move(s, p, AcqCas(v, seen, s.nodes[seen.node].nextFree), 0);
    }
  }

  lemma AcqCasKeepsInv(s: State, p: nat, c: Choice)
    requires Inv(s) && p < |s.threads| && s.threads[p].AcqCas? && Safe(s, p) && Enabled(s, p, c)
    ensures Inv(AcquireStep(s, p, c))
  {
    hide Inv;
    Open(s, p);
    var AcqCas(v, seen, below) := s.threads[p];
    if seen == s.freeHead {
      TakeFreeMove(s, p, seen.node, below, PushValue(v, seen.node));
    } else {
      Move(s, p, AcqRead(v), 0);
    }
  }

  lemma PushValueKeepsInv(s: State, p: nat, c: Choice)
    requires Inv(s) && p < |s.threads| && s.threads[p].PushValue? && Safe(s, p) && Enabled(s, p, c)
    ensures Inv(PushStep(s, p))
  {
    hide Inv;
    Open(s, p);
    var PushValue(v, node) := s.threads[p];
    WriteMove(s, p, node, s.nodes[node].(value := v), PushCount(v, node));
  }

  lemma PushCountKeepsInv(s: State, p: nat, c: Choice)
    requires Inv(s) && p < |s.threads| && s.threads[p].PushCount? && Safe(s, p) && Enabled(s, p, c)
    ensures Inv(PushStep(s, p))
  {
    hide Inv;
    Open(s, p);
    var PushCount(v, node) := s.threads[p];
    Move(s, p, PushReset(v, node), 1);
  }

  lemma PushResetKeepsInv(s: State, p: nat, c: Choice)
    requires Inv(s) && p < |s.threads| && s.threads[p].PushReset? && Safe(s, p) && Enabled(s, p, c)
    ensures Inv(PushStep(s, p))
  {
    hide Inv;
    Open(s, p);
    var PushReset(v, node) := s.threads[p];
    WriteMove(s, p, node, s.nodes[node].(prev := Ptr(NULL, NO_TAG)), PushTail(v, node));
  }

  lemma PushTailKeepsInv(s: State, p: nat, c: Choice)
    requires Inv(s) && p < |s.threads| && s.threads[p].PushTail? && Safe(s, p) && Enabled(s, p, c)
    ensures Inv(PushStep(s, p))
  {
    hide Inv;
    Open(s, p);
    var PushTail(v, node) := s.threads[p];
    Move(s, p, PushNext(v, node, s.tail), 0);
  }

  lemma PushNextKeepsInv(s: State, p: nat, c: Choice)
    requires Inv(s) && p < |s.threads| && s.threads[p].PushNext? && Safe(s, p) && Enabled(s, p, c)
    ensures Inv(PushStep(s, p))
  {
    hide Inv;
    Open(s, p);
    var PushNext(v, node, tail) := s.threads[p];
    WriteMove(s, p, node, s.nodes[node].(next := Ptr(tail.node, tail.tag + 1)), PushCas(v, node, tail));
  }

  lemma PushCasKeepsInv(s: State, p: nat, c: Choice)
    requires Inv(s) && p < |s.threads| && s.threads[p].PushCas? && Safe(s, p) && Enabled(s, p, c)
    ensures Inv(PushStep(s, p))
  {
    hide Inv;
    Open(s, p);
    var PushCas(v, node, tail) := s.threads[p];
    if tail == s.tail {
      PublishMove(s, p, node, v, PushBack(v, node, tail));
    } else {
      Move(s, p, PushTail(v, node), 0);
    }
  }

  lemma PushBackKeepsInv(s: State, p: nat, c: Choice)
    requires Inv(s) && p < |s.threads| && s.threads[p].PushBack? && Safe(s, p) && Enabled(s, p, c)
    ensures Inv(PushStep(s, p))
  {
    hide Inv;
    Open(s, p);
    var PushBack(_, node, tail) := s.threads[p];
    WriteMove(s, p, tail.node, s.nodes[tail.node].(prev := Ptr(node, tail.tag)), Idle);
  }

  lemma PopTailKeepsInv(s: State, p: nat, c: Choice)
    requires Inv(s) && p < |s.threads| && s.threads[p].PopTail? && Safe(s, p) && Enabled(s, p, c)
    ensures Inv(PopStep(s, p))
  {
    hide Inv;
    Open(s, p);
    var PopTail(head) := s.threads[p];
    Move(s, p, PopPrev(head, s.tail), 0);
  }

  lemma PopPrevKeepsInv(s: State, p: nat, c: Choice)
    requires Inv(s) && p < |s.threads| && s.threads[p].PopPrev? && Safe(s, p) && Enabled(s, p, c)
    ensures Inv(PopStep(s, p))
  {
    hide Inv;
    Open(s, p);
    var PopPrev(head, tail) := s.threads[p];
    OpenNode(s, head.tag);
    Move(s, p, PopCheck(head, tail, s.nodes[head.node].prev), 0);
  }

  lemma PopCheckKeepsInv(s: State, p: nat, c: Choice)
    requires Inv(s) && p < |s.threads| && s.threads[p].PopCheck? && Safe(s, p) && Enabled(s, p, c)
    ensures Inv(PopStep(s, p))
  {
    hide Inv;
    Open(s, p);
    var PopCheck(head, tail, prev) := s.threads[p];
    if head == s.head {
      LiveSame(s, tail, head);
    }
    PrevTagCheck(head, prev);
    Move(s, p, PopStep(s, p).threads[p], 0);
  }

  lemma PopValueKeepsInv(s: State, p: nat, c: Choice)
    requires Inv(s) && p < |s.threads| && s.threads[p].PopValue? && Safe(s, p) && Enabled(s, p, c)
    ensures Inv(PopStep(s, p))
  {
    hide Inv;
    Open(s, p);
    var PopValue(head, prev) := s.threads[p];
    OpenNode(s, head.tag + 1);
    Move(s, p, PopCas(head, prev, s.nodes[prev.node].value), 0);
  }

  lemma PopCasKeepsInv(s: State, p: nat, c: Choice)
    requires Inv(s) && p < |s.threads| && s.threads[p].PopCas? && Safe(s, p) && Enabled(s, p, c)
    ensures Inv(PopStep(s, p))
  {
    hide Inv;
    Open(s, p);
    var PopCas(head, prev, v) := s.threads[p];
    if head == s.head {
      UnlinkMove(s, p, prev.node, RelValue(head.node, v));
    } else {
      Move(s, p, PopHead, 0);
    }
  }

  lemma FixCheckKeepsInv(s: State, p: nat, c: Choice)
    requires Inv(s) && p < |s.threads| && s.threads[p].FixCheck? && Safe(s, p) && Enabled(s, p, c)
    ensures Inv(FixStep(s, p))
  {
    hide Inv;
    Open(s, p);
    var FixCheck(head, current) := s.threads[p];
    if head == s.head {
      LiveSame(s, current, head);
    }
    Move(s, p, FixStep(s, p).threads[p], 0);
  }

  lemma FixNextKeepsInv(s: State, p: nat, c: Choice)
    requires Inv(s) && p < |s.threads| && s.threads[p].FixNext? && Safe(s, p) && Enabled(s, p, c)
    ensures Inv(FixStep(s, p))
  {
    hide Inv;
    Open(s, p);
    var FixNext(head, current) := s.threads[p];
    OpenNode(s, current.tag);
    Move(s, p, FixPrev(head, current, s.nodes[current.node].next), 0);
  }

  lemma FixPrevKeepsInv(s: State, p: nat, c: Choice)
    requires Inv(s) && p < |s.threads| && s.threads[p].FixPrev? && Safe(s, p) && Enabled(s, p, c)
    ensures Inv(FixStep(s, p))
  {
    hide Inv;
    Open(s, p);
    var FixPrev(head, current, next) := s.threads[p];
    WriteMove(s, p, next.node, s.nodes[next.node].(prev := Ptr(current.node, current.tag - 1)),
              FixCheck(head, Ptr(next.node, current.tag - 1)));
  }

  lemma RelValueKeepsInv(s: State, p: nat, c: Choice)
    requires Inv(s) && p < |s.threads| && s.threads[p].RelValue? && Safe(s, p) && Enabled(s, p, c)
    ensures Inv(ReleaseStep(s, p))
  {
    hide Inv;
    Open(s, p);
    var RelValue(node, v) := s.threads[p];
    WriteMove(s, p, node, s.nodes[node].(value := DEFAULT), RelRead(node, v));
  }

  lemma RelReadKeepsInv(s: State, p: nat, c: Choice)
    requires Inv(s) && p < |s.threads| && s.threads[p].RelRead? && Safe(s, p) && Enabled(s, p, c)
    ensures Inv(ReleaseStep(s, p))
  {
    hide Inv;
    Open(s, p);
    var RelRead(node, v) := s.threads[p];
    Move(s, p, RelReset(node, v, s.freeHead), 0);
  }

  lemma RelResetKeepsInv(s: State, p: nat, c: Choice)
    requires Inv(s) && p < |s.threads| && s.threads[p].RelReset? && Safe(s, p) && Enabled(s, p, c)
    ensures Inv(ReleaseStep(s, p))
  {
    hide Inv;
    Open(s, p);
    var RelReset(node, v, seen) := s.threads[p];
    WriteMove(s, p, node, s.nodes[node].(prev := Ptr(NULL, NO_TAG)), RelLink(node, v, seen));
  }

  lemma RelLinkKeepsInv(s: State, p: nat, c: Choice)
    requires Inv(s) && p < |s.threads| && s.threads[p].RelLink? && Safe(s, p) && Enabled(s, p, c)
    ensures Inv(ReleaseStep(s, p))
  {
    hide Inv;
    Open(s, p);
    var RelLink(node, v, seen) := s.threads[p];
    WriteMove(s, p, node, s.nodes[node].(nextFree := seen.node), RelCas(node, v, seen));
  }

  lemma RelCasKeepsInv(s: State, p: nat, c: Choice)
    requires Inv(s) && p < |s.threads| && s.threads[p].RelCas? && Safe(s, p) && Enabled(s, p, c)
    ensures Inv(ReleaseStep(s, p))
  {
    hide Inv;
    Open(s, p);
    var RelCas(node, v, seen) := s.threads[p];
    if seen == s.freeHead {
      GiveFreeMove(s, p, node, PopCount(v));
    } else {
      Move(s, p, RelRead(node, v), 0);
    }
  }

  /** The two 16-bit tests of Pop accept exactly the back links made for this head. */
  lemma PrevTagCheck(head: Ptr, prev: Ptr)
    requires head.tag >= 0 && prev.tag >= -1 && TagNotFooled(prev.tag, head.tag)
    ensures Wire(prev.tag) != INVALID_TAG && Wire(prev.tag) == Wire(head.tag) <==> prev.tag == head.tag
  {
  }

  /** What the assumption on back links is for: a link whose tag has come round to the head's is taken,
      and leads to the node of a long gone position. */
  lemma AgedLinkIsTaken(s: State, p: nat)
    requires Inv(s) && p < |s.threads| && s.threads[p].PopCheck? && Shape(s)
    requires s.threads[p].head == s.head && s.threads[p].tail == s.tail != s.head
    requires s.threads[p].prev.tag >= 0 && Wire(s.threads[p].prev.tag) == Wire(s.head.tag)
    ensures var prev := s.threads[p].prev;
            PopStep(s, p).threads[p] == PopValue(s.head, prev) && prev.tag + 1 < |s.order| &&
            prev.node == s.order[prev.tag + 1]
  {
    hide Inv;
    Open(s, p);
    LiveSame(s, s.tail, s.head);
  }

  lemma StepKeepsInv(s: State, p: nat, c: Choice)
    requires Inv(s) && p < |s.threads| && Safe(s, p) && Enabled(s, p, c)
    ensures Inv(Exec(s, p, c))
  {
    hide Inv;
    Open(s, p);
    match s.threads[p]
    case Idle => Move(s, p, if c.CallPush? then AcqRead(c.v) else PopHead, 0);
    case PopHead => Move(s, p, PopTail(s.head), 0);
    case PopCount(v) => Move(s, p, Idle, -1);
    case AcqRead(_) => AcqReadKeepsInv(s, p, c);
    case AcqLink(_, _) => AcqLinkKeepsInv(s, p, c);
    case AcqCas(_, _, _) => AcqCasKeepsInv(s, p, c);
    case PushValue(_, _) => PushValueKeepsInv(s, p, c);
    case PushCount(_, _) => PushCountKeepsInv(s, p, c);
    case PushReset(_, _) => PushResetKeepsInv(s, p, c);
    case PushTail(_, _) => PushTailKeepsInv(s, p, c);
    case PushNext(_, _, _) => PushNextKeepsInv(s, p, c);
    case PushCas(_, _, _) => PushCasKeepsInv(s, p, c);
    case PushBack(_, _, _) => PushBackKeepsInv(s, p, c);
    case PopTail(_) => PopTailKeepsInv(s, p, c);
    case PopPrev(_, _) => PopPrevKeepsInv(s, p, c);
    case PopCheck(_, _, _) => PopCheckKeepsInv(s, p, c);
    case PopValue(_, _) => PopValueKeepsInv(s, p, c);
    case PopCas(_, _, _) => PopCasKeepsInv(s, p, c);
    case FixCheck(_, _) => FixCheckKeepsInv(s, p, c);
    case FixNext(_, _) => FixNextKeepsInv(s, p, c);
    case FixPrev(_, _, _) => FixPrevKeepsInv(s, p, c);
    case RelValue(_, _) => RelValueKeepsInv(s, p, c);
    case RelRead(_, _) => RelReadKeepsInv(s, p, c);
    case RelReset(_, _, _) => RelResetKeepsInv(s, p, c);
    case RelLink(_, _, _) => RelLinkKeepsInv(s, p, c);
    case RelCas(_, _, _) => RelCasKeepsInv(s, p, c);
  }
}
