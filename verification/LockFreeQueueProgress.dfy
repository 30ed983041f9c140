/** FixList repairs what it is meant to repair: a Pop that runs alone on a non-empty queue returns
    the oldest value, whatever the back links hold when it starts. */
module LockFreeQueueProgress {
  import opened TaggedPointers
  import opened LockFreeQueue
  import opened LockFreeQueueInvariant

  predicate CanGo(s: State, p: nat) {
    p < |s.threads| && Safe(s, p) && Enabled(s, p, Continue)
  }

  /** Thread p alone takes n steps from s to s'. */
  predicate Reaches(s: State, p: nat, s': State, n: nat)
    decreases n
  {
    if n == 0 then s == s' else CanGo(s, p) && Reaches(Exec(s, p, Continue), p, s', n - 1)
  }

  lemma {:induction false} ReachesOn(s: State, p: nat, s1: State, n: nat, s2: State, m: nat)
    requires Reaches(s, p, s1, n) && Reaches(s1, p, s2, m)
    ensures Reaches(s, p, s2, n + m)
    decreases n
  {
    hide Exec, Safe, Enabled;
    if n > 0 {
      ReachesOn(Exec(s, p, Continue), p, s1, n - 1, s2, m);
    }
  }

  /** Queue positions, values and shared pointers are as before. */
  predicate SameQueue(s: State, s': State) {
    && s'.head == s.head && s'.tail == s.tail && s'.order == s.order && s'.vals == s.vals
    && |s'.threads| == |s.threads|
  }

  /** The dummy's back link leads to the first element. */
  predicate Repaired(s: State)
    requires Shape(s) && s.head.tag < s.tail.tag
  {
    s.nodes[s.head.node].prev == Ptr(s.order[s.head.tag + 1], s.head.tag)
  }

  /** One round of FixList rewrites one back link and moves one position towards the head. */
  lemma FixRound(s: State, p: nat, head: Ptr, current: Ptr) returns (s': State, below: Ptr)
    requires Inv(s) && p < |s.threads| && s.threads[p] == FixCheck(head, current)
    requires head == s.head && head.tag < current.tag
    ensures Inv(s') && SameQueue(s, s') && Reaches(s, p, s', 3)
    ensures below.tag == current.tag - 1 && WasAt(s, below) && WasAt(s, current) && IsNode(s', below.node)
    ensures s'.threads[p] == FixCheck(head, below)
    ensures s'.nodes[below.node].prev == Ptr(current.node, below.tag)
  {
    hide Inv, Exec, Same;
    Open(s, p);
    OpenNode(s, current.tag);
    StepKeepsInv(s, p, Continue);
    FixGoesOn(s, p, head, current);
    var s1 := Exec(s, p, Continue);
    Open(s1, p);
    below := Ptr(s.order[current.tag - 1], current.tag - 1);
    s' := FixRewrites(s1, p, head, current);
    OneStep(s, p);
    ReachesOn(s, p, s1, 1, s', 2);
  }

  /** The two steps of a round behind its check. */
  lemma FixRewrites(s: State, p: nat, head: Ptr, current: Ptr) returns (s': State)
    requires Inv(s) && p < |s.threads| && s.threads[p] == FixNext(head, current) && Shape(s)
    requires head == s.head && head.tag < current.tag && WasAt(s, current)
    ensures Inv(s') && SameQueue(s, s') && Reaches(s, p, s', 2)
    ensures IsNode(s', s.order[current.tag - 1])
    ensures s'.threads[p] == FixCheck(head, Ptr(s.order[current.tag - 1], current.tag - 1))
    ensures s'.nodes[s.order[current.tag - 1]].prev == Ptr(current.node, current.tag - 1)
  {
    hide Inv, Exec, Same;
    Open(s, p);
    OpenNode(s, current.tag);
    FixReads(s, p, head, current);
    StepKeepsInv(s, p, Continue);
    var s1 := Exec(s, p, Continue);
    Open(s1, p);
    FixWrites(s1, p);
    StepKeepsInv(s1, p, Continue);
    s' := Exec(s1, p, Continue);
    OneStep(s, p);
    OneStep(s1, p);
    ReachesOn(s, p, s1, 1, s', 1);
  }

  lemma FixGoesOn(s: State, p: nat, head: Ptr, current: Ptr)
    requires Inv(s) && p < |s.threads| && s.threads[p] == FixCheck(head, current) && head == s.head
    requires 0 <= head.tag < current.tag && WasAt(s, head) && WasAt(s, current)
    ensures CanGo(s, p) && Exec(s, p, Continue) == Goto(s, p, FixNext(head, current))
  {
    hide Inv;
    LiveSame(s, current, head);
  }

  lemma FixReads(s: State, p: nat, head: Ptr, current: Ptr)
    requires p < |s.threads| && s.threads[p] == FixNext(head, current) && IsNode(s, current.node)
    ensures CanGo(s, p)
    ensures Exec(s, p, Continue) == Goto(s, p, FixPrev(head, current, s.nodes[current.node].next))
  {
  }

  lemma FixWrites(s: State, p: nat)
    requires p < |s.threads| && s.threads[p].FixPrev? && IsNode(s, s.threads[p].next.node)
    ensures CanGo(s, p)
    ensures var FixPrev(head, current, next) := s.threads[p];
            Exec(s, p, Continue) ==
            Goto(Write(s, next.node, s.nodes[next.node].(prev := Ptr(current.node, current.tag - 1))),
                 p, FixCheck(head, Ptr(next.node, current.tag - 1)))
  {
  }

  lemma {:induction false} FixListRepairs(s: State, p: nat, head: Ptr, current: Ptr) returns (s': State, n: nat)
    requires Inv(s) && p < |s.threads| && s.threads[p] == FixCheck(head, current)
    requires head == s.head && head.tag < current.tag
    ensures Inv(s') && SameQueue(s, s') && Reaches(s, p, s', n)
    ensures s'.threads[p] == PopHead && s.head.tag < s.tail.tag && Repaired(s')
    decreases current.tag - head.tag
  {
    hide Inv, Exec;
    Open(s, p);
    var s1, below := FixRound(s, p, head, current);
    Open(s1, p);
    if current.tag == head.tag + 1 {
      assert CanGo(s1, p);
      StepKeepsInv(s1, p, Continue);
      s', n := Exec(s1, p, Continue), 4;
      FixStops(s1, p, head);
      assert Reaches(s1, p, s', 1);
      ReachesOn(s, p, s1, 3, s', 1);
    } else {
      var m;
      s', m := FixListRepairs(s1, p, head, below);
      n := 3 + m;
      ReachesOn(s, p, s1, 3, s', m);
    }
  }

  /** FixList ends when it meets the head. */
  lemma FixStops(s: State, p: nat, head: Ptr)
    requires CanGo(s, p) && s.threads[p] == FixCheck(head, head)
    ensures Exec(s, p, Continue) == Goto(s, p, PopHead)
  {
  }

  /** The four reads at the top of Pop's loop, alone. */
  lemma PopReads(s: State, p: nat) returns (s': State)
    requires Inv(s) && p < |s.threads| && s.threads[p] == PopHead
    ensures Inv(s') && Shape(s) && IsNode(s, s.head.node)
    ensures s' == Goto(s, p, PopCheck(s.head, s.tail, s.nodes[s.head.node].prev))
    ensures Reaches(s, p, s', 3)
  {
    hide Inv;
    Open(s, p);
    StepKeepsInv(s, p, Continue);
    var s1 := Exec(s, p, Continue);
    Open(s1, p);
    StepKeepsInv(s1, p, Continue);
    var s2 := Exec(s1, p, Continue);
    Open(s2, p);
    StepKeepsInv(s2, p, Continue);
    s' := Exec(s2, p, Continue);
    assert Reaches(s2, p, s', 1);
    assert Reaches(s1, p, s', 2);
    assert s'.threads == s.threads[p := PopCheck(s.head, s.tail, s.nodes[s.head.node].prev)];
  }

  /** With the back link in place the check of Pop passes. */
  lemma PopPasses(s: State, p: nat)
    requires Inv(s) && p < |s.threads| && Shape(s) && s.head.tag < s.tail.tag && IsNode(s, s.head.node)
    requires s.threads[p] == PopCheck(s.head, s.tail, s.nodes[s.head.node].prev) && Repaired(s)
    ensures CanGo(s, p)
    ensures Exec(s, p, Continue) == Goto(s, p, PopValue(s.head, s.nodes[s.head.node].prev))
  {
    hide Inv;
    LiveSame(s, s.tail, s.head);
    PrevTagCheck(s.head, s.nodes[s.head.node].prev);
  }

  lemma PopReadsValue(s: State, p: nat)
    requires Inv(s) && p < |s.threads| && Shape(s) && s.head.tag < s.tail.tag
    requires s.threads[p] == PopValue(s.head, Ptr(s.order[s.head.tag + 1], s.head.tag))
    ensures CanGo(s, p)
    ensures Exec(s, p, Continue) ==
            Goto(s, p, PopCas(s.head, Ptr(s.order[s.head.tag + 1], s.head.tag), s.vals[s.head.tag + 1]))
  {
    hide Inv;
    OpenNode(s, s.head.tag + 1);
  }

  lemma PopSwaps(s: State, p: nat)
    requires p < |s.threads| && s.threads[p].PopCas? && s.threads[p].head == s.head && 0 <= s.head.node < |s.place|
    ensures CanGo(s, p)
    ensures var PopCas(head, prev, v) := s.threads[p];
            Exec(s, p, Continue) ==
            Goto(s, p, RelValue(head.node, v)).(head := Ptr(prev.node, head.tag + 1),
                place := s.place[head.node := Private(p)])
  {
  }

  /** With the back link in place the loop body reaches its compare-and-swap and succeeds. */
  lemma PopTakes(s: State, p: nat) returns (s': State)
    requires Inv(s) && p < |s.threads| && Shape(s) && s.head.tag < s.tail.tag && IsNode(s, s.head.node)
    requires s.threads[p] == PopCheck(s.head, s.tail, s.nodes[s.head.node].prev) && Repaired(s)
    ensures Inv(s') && Reaches(s, p, s', 3) && |s'.threads| == |s.threads|
    ensures s'.threads[p] == RelValue(s.head.node, s.vals[s.head.tag + 1])
    ensures s'.head == Ptr(s.order[s.head.tag + 1], s.head.tag + 1) && s'.size == s.size
    ensures s'.tail == s.tail && s'.order == s.order && s'.vals == s.vals
  {
    hide Inv, Exec, Reaches, CanGo;
    PopPasses(s, p);
    var s1 := Advanced(s, p);
    PopReadsValue(s1, p);
    var s2 := Advanced(s1, p);
    Open(s2, p);
    PopSwaps(s2, p);
    s' := Advanced(s2, p);
    ReachesOn(s, p, s1, 1, s2, 1);
    ReachesOn(s, p, s2, 2, s', 1);
  }

  /** One step of p, with what every step gives. */
  lemma Advanced(s: State, p: nat) returns (s': State)
    requires Inv(s) && CanGo(s, p)
    ensures CanGo(s, p) && p < |s.threads| && Safe(s, p) && Enabled(s, p, Continue)
    ensures s' == Exec(s, p, Continue) && Inv(s') && Reaches(s, p, s', 1)
  {
    hide Inv, Exec;
    s' := Exec(s, p, Continue);
    StepKeepsInv(s, p, Continue);
    OneStep(s, p);
  }

  lemma OneStep(s: State, p: nat)
    requires CanGo(s, p)
    ensures Reaches(s, p, Exec(s, p, Continue), 1)
  {
    hide Exec;
    assert Reaches(Exec(s, p, Continue), p, Exec(s, p, Continue), 0);
  }

  /** A missing or foreign back link sends Pop through FixList and back to the top of its loop. */
  lemma RepairThenRetry(s: State, p: nat) returns (s': State, n: nat)
    requires Inv(s) && CanGo(s, p) && s.threads[p].PopCheck? && Shape(s)
    requires s.threads[p].head == s.head && s.threads[p].tail == s.tail
    requires s.head.tag < s.tail.tag
    requires -1 <= s.threads[p].prev.tag != s.head.tag
    ensures Inv(s') && SameQueue(s, s') && Shape(s') && Repaired(s') && Reaches(s, p, s', n)
    ensures s'.threads[p] == PopHead
  {
    hide Inv, Exec, Reaches;
    StepKeepsInv(s, p, Continue);
    BadLinkStartsRepair(s, p);
    OneStep(s, p);
    var s1 := Exec(s, p, Continue);
    var m;
    s', m := FixListRepairs(s1, p, s.head, s.tail);
    Open(s', p);
    n := 1 + m;
    ReachesOn(s, p, s1, 1, s', m);
  }

  /** A Pop alone on a non-empty queue takes the oldest value, after at most one repair. */
  lemma SoloPopSwaps(s: State, p: nat) returns (s': State, n: nat)
    requires Inv(s) && p < |s.threads| && s.threads[p] == PopHead
    requires s.head.tag < s.tail.tag && Shape(s)
    requires IsNode(s, s.head.node) && TagNotFooled(s.nodes[s.head.node].prev.tag, s.head.tag)
    ensures Inv(s') && Reaches(s, p, s', n) && |s'.threads| == |s.threads|
    ensures s'.threads[p] == RelValue(s.head.node, s.vals[s.head.tag + 1])
    ensures s'.head == Ptr(s.order[s.head.tag + 1], s.head.tag + 1)
    ensures s'.tail == s.tail && s'.order == s.order && s'.vals == s.vals
  {
    hide Inv, Exec, Reaches;
    var s1 := PopReads(s, p);
    Open(s1, p);
    PrevTagCheck(s.head, s1.threads[p].prev);
    if s1.threads[p].prev.tag == s.head.tag {
      s' := PopTakes(s1, p);
      n := 6;
      ReachesOn(s, p, s1, 3, s', 3);
    } else {
      var s2, m := RepairThenRetry(s1, p);
      var s3 := PopReads(s2, p);
      s' := PopTakes(s3, p);
      ReachesOn(s, p, s1, 3, s2, m);
      ReachesOn(s2, p, s3, 3, s', 3);
      n := 3 + m + 6;
      ReachesOn(s, p, s2, 3 + m, s', 6);
    }
  }

  /** Steps that ReleaseNode has left, and the value that Pop will return. */
  function ReleaseLeft(l: Local): (n: nat) {
    if l.RelValue? then 5 else if l.RelRead? then 4 else if l.RelReset? then 3 else if l.RelLink? then 2
    else if l.RelCas? then 1 else 0
  }

  function Carried(l: Local): (v: Value) {
    if ReleaseLeft(l) > 0 || l.PopCount? then l.v else DEFAULT
  }

  /** Nobody disturbs a thread that runs alone: the free list's head is still the one it saw. */
  predicate SeesTop(s: State, l: Local) {
    l.RelReset? || l.RelLink? || l.RelCas? ==> l.seen == s.freeHead
  }

  lemma ReleaseGoesOn(s: State, p: nat)
    requires p < |s.threads| && Safe(s, p) && SeesTop(s, s.threads[p]) && ReleaseLeft(s.threads[p]) > 0
    ensures CanGo(s, p)
    ensures var l, s' := s.threads[p], Exec(s, p, Continue);
            && s'.threads == s.threads[p := s'.threads[p]]
            && ReleaseLeft(s'.threads[p]) == ReleaseLeft(l) - 1 && Carried(s'.threads[p]) == Carried(l)
            && SeesTop(s', s'.threads[p]) && (ReleaseLeft(l) == 1 ==> s'.threads[p].PopCount?)
            && SameQueue(s, s') && s'.size == s.size
  {
  }

  /** ReleaseNode, alone, comes to its end and leaves the queue alone. */
  lemma {:induction false} SoloRelease(s: State, p: nat) returns (s': State)
    requires Inv(s) && p < |s.threads| && ReleaseLeft(s.threads[p]) > 0 && SeesTop(s, s.threads[p])
    ensures Inv(s') && Reaches(s, p, s', ReleaseLeft(s.threads[p])) && SameQueue(s, s')
    ensures s'.threads[p] == PopCount(Carried(s.threads[p]))
    decreases ReleaseLeft(s.threads[p])
  {
    hide Inv, Exec, Reaches;
    InvIsSafe(s, p);
    ReleaseGoesOn(s, p);
    s' := Advanced(s, p);
    if ReleaseLeft(s.threads[p]) > 1 {
      var s1 := s';
      s' := SoloRelease(s1, p);
      ReachesOn(s, p, s1, 1, s', ReleaseLeft(s1.threads[p]));
    }
  }

  /** A Pop alone on a non-empty queue returns the oldest value, whatever the back links hold: it comes
      to its last step with that value, and the queue is the rest. */
  lemma SoloPopReturnsOldest(s: State, p: nat) returns (s': State, n: nat)
    requires Inv(s) && p < |s.threads| && s.threads[p] == PopHead
    requires s.head.tag < s.tail.tag && Shape(s)
    requires IsNode(s, s.head.node) && TagNotFooled(s.nodes[s.head.node].prev.tag, s.head.tag)
    ensures Inv(s') && Reaches(s, p, s', n) && p < |s'.threads|
    ensures s'.threads[p] == PopCount(s.vals[s.head.tag + 1])
    ensures s'.head.tag == s.head.tag + 1 && s'.tail == s.tail && s'.vals == s.vals
    ensures CanGo(s', p) && Exec(s', p, Continue) == Goto(s'.(size := s'.size - 1), p, Idle)
  {
    hide Inv, Reaches;
    var s1, m := SoloPopSwaps(s, p);
    s' := SoloRelease(s1, p);
    n := m + 5;
    ReachesOn(s, p, s1, m, s', 5);
  }

  lemma BadLinkStartsRepair(s: State, p: nat)
    requires Inv(s) && CanGo(s, p) && s.threads[p].PopCheck? && Shape(s)
    requires s.threads[p].head == s.head && s.threads[p].tail == s.tail
    requires s.head.tag < s.tail.tag
    requires -1 <= s.threads[p].prev.tag != s.head.tag
    ensures Exec(s, p, Continue) == Goto(s, p, FixCheck(s.head, s.tail))
  {
    hide Inv;
    LiveSame(s, s.tail, s.head);
    PrevTagCheck(s.head, s.threads[p].prev);
  }

  // ----- Contention ----------------------------------------------------------------------------

  /** The three words that are changed by compare-and-swap. */
  datatype Cell = Head | Tail | FreeTop

  function Current(s: State, cell: Cell): (q: Ptr) {
    match cell
    case Head => s.head
    case Tail => s.tail
    case FreeTop => s.freeHead
  }

  /** The thread has read the word, and has not yet seen its compare-and-swap succeed. */
  predicate Holding(l: Local, cell: Cell, q: Ptr) {
    match cell
    case Head => (l.PopTail? || l.PopPrev? || l.PopCheck? || l.PopValue? || l.PopCas? || l.FixCheck? || l.FixNext? ||
        l.FixPrev?)
                 && l.head == q
    case Tail => (l.PushNext? || l.PushCas?) && l.tail == q
    case FreeTop => (l.AcqLink? || l.AcqCas? || l.RelReset? || l.RelLink? || l.RelCas?) && l.seen == q
  }

  /** A compare-and-swap succeeds: a value enters or leaves the queue, a node the free list. */
  predicate Succeeds(l: Local, l': Local, cell: Cell) {
    match cell
    case Head => l.PopCas? && l'.RelValue?
    case Tail => l.PushCas? && l'.PushBack?
    case FreeTop => (l.AcqCas? && l'.PushValue?) || (l.RelCas? && l'.PopCount?)
  }

  /** The words change only by a success, and then by one tag. */
  predicate OnlyBySuccess(s: State, s': State, p: nat, cell: Cell) {
    && p < |s.threads| == |s'.threads|
    && (Current(s', cell) == Current(s, cell) ||
        (Succeeds(s.threads[p], s'.threads[p], cell) && Current(s', cell).tag == Current(s, cell).tag + 1))
  }

  lemma AcquireOnlyBySuccess(s: State, p: nat, c: Choice, cell: Cell)
    requires p < |s.threads| && Safe(s, p) && Enabled(s, p, c)
    requires s.threads[p].AcqRead? || s.threads[p].AcqLink? || s.threads[p].AcqCas?
    ensures OnlyBySuccess(s, AcquireStep(s, p, c), p, cell)
  {
  }

  lemma PushOnlyBySuccess(s: State, p: nat, cell: Cell)
    requires p < |s.threads| && Safe(s, p) && (s.threads[p].PushCas? ==> NotFooled(s.threads[p].tail, s.tail))
    requires
      var l := s.threads[p];
      l.PushValue? || l.PushCount? || l.PushReset? || l.PushTail? || l.PushNext? || l.PushCas? || l.PushBack?
    ensures OnlyBySuccess(s, PushStep(s, p), p, cell)
  {
  }

  lemma PopOnlyBySuccess(s: State, p: nat, cell: Cell)
    requires p < |s.threads| && Safe(s, p) && (s.threads[p].PopCas? ==> NotFooled(s.threads[p].head, s.head))
    requires
      var l := s.threads[p];
      l.PopHead? || l.PopTail? || l.PopPrev? || l.PopCheck? || l.PopValue? || l.PopCas?
    ensures OnlyBySuccess(s, PopStep(s, p), p, cell)
  {
  }

  lemma ReleaseOnlyBySuccess(s: State, p: nat, cell: Cell)
    requires p < |s.threads| && Safe(s, p) && (s.threads[p].RelCas? ==> NotFooled(s.threads[p].seen, s.freeHead))
    requires ReleaseLeft(s.threads[p]) > 0 || s.threads[p].PopCount?
    ensures OnlyBySuccess(s, ReleaseStep(s, p), p, cell)
  {
  }

  lemma StepOnlyBySuccess(s: State, p: nat, c: Choice, cell: Cell)
    requires p < |s.threads| && Safe(s, p) && Enabled(s, p, c)
    ensures OnlyBySuccess(s, Exec(s, p, c), p, cell)
  {
    hide AcquireStep, PushStep, PopStep, ReleaseStep, NotFooled;
    var l := s.threads[p];
    if l.AcqRead? || l.AcqLink? || l.AcqCas? {
      AcquireOnlyBySuccess(s, p, c, cell);
    } else if l.PushValue? || l.PushCount? || l.PushReset? || l.PushTail? || l.PushNext? || l.PushCas? || l.PushBack? {
      PushOnlyBySuccess(s, p, cell);
    } else if l.PopHead? || l.PopTail? || l.PopPrev? || l.PopCheck? || l.PopValue? || l.PopCas? {
      PopOnlyBySuccess(s, p, cell);
    } else if ReleaseLeft(l) > 0 || l.PopCount? {
      ReleaseOnlyBySuccess(s, p, cell);
    }
  }

  /** Any steps of any threads, one after the other. */
  predicate Steps(ss: seq<State>, acts: seq<(nat, Choice)>) {
    && |ss| == |acts| + 1
    && (forall i :: 0 <= i < |acts| ==>
          && acts[i].0 < |ss[i].threads| && Safe(ss[i], acts[i].0) && Enabled(ss[i], acts[i].0, acts[i].1)
          && ss[i + 1] == Exec(ss[i], acts[i].0, acts[i].1))
  }

  /** Lock-freedom: where a word is no longer the one that a thread read, and so makes its check or its
      compare-and-swap fail, another thread's compare-and-swap has succeeded since. */
  lemma {:induction false} FailureMeansAnothersSuccess(ss: seq<State>, acts: seq<(nat, Choice)>, p: nat, cell: Cell,
      i: nat, j: nat)
      returns (k: nat)
    requires Steps(ss, acts) && i <= j < |ss|
    requires forall m :: i <= m <= j ==> p < |ss[m].threads| && Holding(ss[m].threads[p], cell, Current(ss[i], cell))
    requires Current(ss[j], cell) != Current(ss[i], cell)
    ensures i <= k < j && acts[k].0 != p && acts[k].0 < |ss[k].threads| == |ss[k + 1].threads|
    ensures Succeeds(ss[k].threads[acts[k].0], ss[k + 1].threads[acts[k].0], cell)
    decreases j
  {
    hide Exec, Safe, Enabled, OnlyBySuccess, Succeeds, Holding;
    var s, a := ss[j - 1], acts[j - 1];
    if Current(s, cell) != Current(ss[i], cell) {
      k := FailureMeansAnothersSuccess(ss, acts, p, cell, i, j - 1);
    } else {
      k := j - 1;
      StepOnlyBySuccess(s, a.0, a.1, cell);
      ChangeIsSuccess(s, ss[j], a.0, cell);
      if a.0 == p {
        SuccessLetsGo(s.threads[p], ss[j].threads[p], cell, Current(ss[i], cell));
      }
    }
  }

  lemma ChangeIsSuccess(s: State, s': State, p: nat, cell: Cell)
    requires OnlyBySuccess(s, s', p, cell) && Current(s', cell) != Current(s, cell)
    ensures p < |s.threads| == |s'.threads| && Succeeds(s.threads[p], s'.threads[p], cell)
  {
  }

  lemma SuccessLetsGo(l: Local, l': Local, cell: Cell, q: Ptr)
    requires Succeeds(l, l', cell)
    ensures !Holding(l', cell, q)
  {
  }
}
