/** What Push and ReleaseNode leave in the nodes: a back link to what was pushed, and nothing in nodes that
    are free. */
module LockFreeQueueNodes {
  import opened TaggedPointers
  import opened LockFreeQueue
  import opened LockFreeQueueInvariant
  import opened LockFreeQueueProgress

  // ----- A push alone ------------------------------------------------------------------------------

  /** A Push that runs alone appends its value, and leaves the back link of the node before it. */
  lemma SoloPushLinks(s: State, p: nat, v: Value, node: Ref) returns (s': State)
    requires Inv(s) && p < |s.threads| && s.threads[p] == PushTail(v, node) && Shape(s)
    ensures Inv(s') && Reaches(s, p, s', 4) && s'.threads == s.threads[p := Idle] && Shape(s')
    ensures s'.head == s.head && s'.tail == Ptr(node, s.tail.tag + 1)
    ensures s'.order == s.order + [node] && s'.vals == s.vals + [v]
    ensures IsNode(s', s.tail.node) && s'.nodes[s.tail.node].prev == Ptr(node, s.tail.tag)
    ensures s.head.tag == s.tail.tag ==> Repaired(s')
  {
    hide Inv, Reaches, Exec, Links, OnePlace, FreeList, SizeCount, LocalInv;
    var s2 := PushPrepares(s, p, v, node);
    s' := PushPublishes(s2, p, v, node);
    ReachesOn(s, p, s2, 2, s', 2);
    HasShape(s');
  }

  lemma PushPrepares(s: State, p: nat, v: Value, node: Ref) returns (s': State)
    requires Inv(s) && p < |s.threads| && s.threads[p] == PushTail(v, node)
    ensures Inv(s') && Reaches(s, p, s', 2) && IsNode(s, node)
    ensures s' == s.(nodes := s.nodes[node := s.nodes[node].(next := Ptr(s.tail.node, s.tail.tag + 1))],
                     threads := s.threads[p := PushCas(v, node, s.tail)])
  {
    hide Inv, Reaches;
    InvIsSafe(s, p);
    var s1 := Advanced(s, p);
    InvIsSafe(s1, p);
    s' := Advanced(s1, p);
    ReachesOn(s, p, s1, 1, s', 1);
  }

  lemma PushPublishes(s: State, p: nat, v: Value, node: Ref) returns (s': State)
    requires Inv(s) && p < |s.threads| && s.threads[p] == PushCas(v, node, s.tail)
    ensures Inv(s') && Reaches(s, p, s', 2) && s'.threads == s.threads[p := Idle] && s'.head == s.head
    ensures s'.tail == Ptr(node, s.tail.tag + 1) && s'.order == s.order + [node] && s'.vals == s.vals + [v]
    ensures IsNode(s', s.tail.node) && s'.nodes[s.tail.node].prev == Ptr(node, s.tail.tag)
  {
    hide Inv, Reaches;
    InvIsSafe(s, p);
    var s1 := Advanced(s, p);
    InvIsSafe(s1, p);
    s' := Advanced(s1, p);
    ReachesOn(s, p, s1, 1, s', 1);
  }

  lemma HasShape(s: State)
    requires Inv(s)
    ensures Shape(s)
  {
  }

  // ----- Nodes that are free -----------------------------------------------------------------------

  /** The thread has taken the value out of the node that it releases. */
  predicate Releases(l: Local) {
    l.RelRead? || l.RelReset? || l.RelLink? || l.RelCas?
  }

  /** Free nodes, and nodes on their way to the free list, hold no value. */
  predicate Emptied(s: State) {
    && |s.place| == |s.nodes|
    && (forall n :: 0 <= n < |s.nodes| && s.place[n].Free? ==> s.nodes[n].value == DEFAULT)
    && (forall p :: 0 <= p < |s.threads| && Releases(s.threads[p]) ==>
          IsNode(s, s.threads[p].node) && s.nodes[s.threads[p].node].value == DEFAULT)
  }

  /** The step changes no value of a node but that of the one the thread holds. */
  lemma OnlyOwnValue(s: State, p: nat, c: Choice, n: Ref)
    requires p < |s.threads| && Safe(s, p) && Enabled(s, p, c) && IsNode(s, n)
    requires n != Holds(s.threads[p])
    ensures IsNode(Exec(s, p, c), n) && Exec(s, p, c).nodes[n].value == s.nodes[n].value
  {
  }

  /** Nodes become free only by a release. */
  lemma OnlyByRelease(s: State, p: nat, c: Choice, n: Ref)
    requires p < |s.threads| && Safe(s, p) && Enabled(s, p, c) && IsNode(s, n) && |s.place| == |s.nodes|
    ensures |Exec(s, p, c).place| == |Exec(s, p, c).nodes| >= |s.nodes|
    ensures Exec(s, p, c).place[n].Free? ==>
              s.place[n].Free? || (s.threads[p].RelCas? && s.threads[p].node == n)
  {
  }

  /** A node that is new is not free. */
  lemma NewIsPrivate(s: State, p: nat, c: Choice, n: Ref)
    requires p < |s.threads| && Safe(s, p) && Enabled(s, p, c) && |s.place| == |s.nodes|
    requires IsNode(Exec(s, p, c), n) && !IsNode(s, n)
    ensures |Exec(s, p, c).place| == |Exec(s, p, c).nodes| && !Exec(s, p, c).place[n].Free?
  {
  }

  lemma Owns(s: State, p: nat)
    requires Inv(s) && p < |s.threads| && MustHold(s.threads[p])
    ensures IsNode(s, Holds(s.threads[p])) && |s.place| == |s.nodes| && s.place[Holds(s.threads[p])] == Private(p)
  {
  }

  lemma FreeStaysEmpty(s: State, p: nat, c: Choice, n: Ref)
    requires Inv(s) && Emptied(s) && p < |s.threads| && Safe(s, p) && Enabled(s, p, c)
    requires IsNode(Exec(s, p, c), n) && |Exec(s, p, c).place| == |Exec(s, p, c).nodes| && Exec(s, p, c).place[n].Free?
    ensures Exec(s, p, c).nodes[n].value == DEFAULT
  {
    hide Inv, Exec;
    if !IsNode(s, n) {
      NewIsPrivate(s, p, c, n);
    } else {
      OnlyByRelease(s, p, c, n);
      if MustHold(s.threads[p]) {
        Owns(s, p);
      }
      if s.threads[p].RelCas? && s.threads[p].node == n {
        ReleaseKeepsValue(s, p, c);
      } else {
        NotHeld(s, p, n);
        OnlyOwnValue(s, p, c, n);
      }
    }
  }

  lemma NotHeld(s: State, p: nat, n: Ref)
    requires p < |s.threads| && IsNode(s, n) && |s.place| == |s.nodes| && s.place[n].Free?
    requires MustHold(s.threads[p]) ==> IsNode(s, Holds(s.threads[p])) && s.place[Holds(s.threads[p])] == Private(p)
    ensures n != Holds(s.threads[p])
  {
  }

  lemma ReleaseKeepsValue(s: State, p: nat, c: Choice)
    requires p < |s.threads| && Safe(s, p) && Enabled(s, p, c) && Releases(s.threads[p]) && IsNode(s, s.threads[p].node)
    ensures var n := s.threads[p].node;
            IsNode(Exec(s, p, c), n) && Exec(s, p, c).nodes[n].value == s.nodes[n].value
  {
  }

  lemma OthersStayEmpty(s: State, p: nat, c: Choice, q: nat)
    requires Inv(s) && Emptied(s) && p < |s.threads| && Safe(s, p) && Enabled(s, p, c)
    requires q < |Exec(s, p, c).threads| && Releases(Exec(s, p, c).threads[q])
    ensures var t := Exec(s, p, c); IsNode(t, t.threads[q].node) && t.nodes[t.threads[q].node].value == DEFAULT
  {
    hide Inv, Exec;
    if q == p {
      Takes(s, p, c);
    } else {
      OtherThreads(s, p, c, q);
      Owns(s, q);
      if MustHold(s.threads[p]) {
        Owns(s, p);
      }
      OnlyOwnValue(s, p, c, s.threads[q].node);
    }
  }

  lemma OtherThreads(s: State, p: nat, c: Choice, q: nat)
    requires p < |s.threads| && Safe(s, p) && Enabled(s, p, c) && q != p && q < |Exec(s, p, c).threads|
    ensures q < |s.threads| && Exec(s, p, c).threads[q] == s.threads[q]
  {
  }

  /** The thread itself: it has just taken the value out, or had done so. */
  lemma Takes(s: State, p: nat, c: Choice)
    requires p < |s.threads| && Safe(s, p) && Enabled(s, p, c) && Emptied(s) && p < |Exec(s, p, c).threads|
    requires Releases(Exec(s, p, c).threads[p])
    ensures var t := Exec(s, p, c); IsNode(t, t.threads[p].node) && t.nodes[t.threads[p].node].value == DEFAULT
  {
  }

  lemma StepKeepsEmptied(s: State, p: nat, c: Choice)
    requires Inv(s) && Emptied(s) && p < |s.threads| && Safe(s, p) && Enabled(s, p, c)
    ensures Emptied(Exec(s, p, c))
  {
    hide Inv, Exec;
    StepKeepsInv(s, p, c);
    var t := Exec(s, p, c);
    SamePlaces(t);
    forall n | 0 <= n < |t.nodes| && t.place[n].Free? ensures t.nodes[n].value == DEFAULT {
      FreeStaysEmpty(s, p, c, n);
    }
    forall q | 0 <= q < |t.threads| && Releases(t.threads[q])
      ensures IsNode(t, t.threads[q].node) && t.nodes[t.threads[q].node].value == DEFAULT
    {
      OthersStayEmpty(s, p, c, q);
    }
  }

  lemma SamePlaces(s: State)
    requires Inv(s)
    ensures |s.place| == |s.nodes|
  {
  }

  /** In every run the nodes on the free list hold no value, and the list is what AcquireNode takes from. */
  lemma {:induction false} FreeNodesAreEmpty(ss: seq<State>, acts: seq<(nat, Choice)>, i: nat)
    requires Steps(ss, acts) && i < |ss| && Init(ss[0])
    ensures Inv(ss[i]) && Emptied(ss[i])
    decreases i
  {
    hide Inv, Exec, Emptied, Safe, Enabled;
    if i == 0 {
      InitHasInv(ss[0]);
      InitIsEmptied(ss[0]);
    } else {
      FreeNodesAreEmpty(ss, acts, i - 1);
      StepKeepsInv(ss[i - 1], acts[i - 1].0, acts[i - 1].1);
      StepKeepsEmptied(ss[i - 1], acts[i - 1].0, acts[i - 1].1);
    }
  }

  lemma InitIsEmptied(s: State)
    requires Init(s)
    ensures Emptied(s)
  {
  }

  /** A release that runs alone puts the node on top of the free list, without a back link. */
  lemma SoloReleaseClears(s: State, p: nat, node: Ref, v: Value) returns (s': State)
    requires Inv(s) && p < |s.threads| && s.threads[p] == RelValue(node, v) && IsNode(s, node)
    ensures Inv(s') && Reaches(s, p, s', 5) && s'.threads == s.threads[p := PopCount(v)]
    ensures s'.freeHead == Ptr(node, s.freeHead.tag + 1) && s'.free == s.free + [node]
    ensures |s'.nodes| == |s.nodes| && s'.nodes[node] ==
            s.nodes[node].(value := DEFAULT, prev := Ptr(NULL, NO_TAG), nextFree := s.freeHead.node)
  {
    hide Inv, Reaches, Exec;
    var s2 := ReleaseBegins(s, p, node, v);
    s' := ReleaseEnds(s2, p, node, v);
    ReachesOn(s, p, s2, 2, s', 3);
  }

  lemma ReleaseBegins(s: State, p: nat, node: Ref, v: Value) returns (s': State)
    requires Inv(s) && p < |s.threads| && s.threads[p] == RelValue(node, v) && IsNode(s, node)
    ensures Inv(s') && Reaches(s, p, s', 2)
    ensures s' == s.(nodes := s.nodes[node := s.nodes[node].(value := DEFAULT)],
                     threads := s.threads[p := RelReset(node, v, s.freeHead)])
  {
    hide Inv, Reaches;
    InvIsSafe(s, p);
    var s1 := Advanced(s, p);
    InvIsSafe(s1, p);
    s' := Advanced(s1, p);
    ReachesOn(s, p, s1, 1, s', 1);
  }

  lemma ReleaseEnds(s: State, p: nat, node: Ref, v: Value) returns (s': State)
    requires Inv(s) && p < |s.threads| && s.threads[p] == RelReset(node, v, s.freeHead) && IsNode(s, node)
    ensures Inv(s') && Reaches(s, p, s', 3) && s'.threads == s.threads[p := PopCount(v)]
    ensures s'.freeHead == Ptr(node, s.freeHead.tag + 1) && s'.free == s.free + [node]
    ensures s'.nodes == s.nodes[node := s.nodes[node].(prev := Ptr(NULL, NO_TAG), nextFree := s.freeHead.node)]
  {
    hide Inv, Reaches;
    InvIsSafe(s, p);
    var s1 := Advanced(s, p);
    InvIsSafe(s1, p);
    var s2 := Advanced(s1, p);
    InvIsSafe(s2, p);
    s' := Advanced(s2, p);
    ReachesOn(s, p, s1, 1, s2, 1);
    ReachesOn(s, p, s2, 2, s', 1);
  }

  /** An acquire that runs alone takes the node on top of the free list, if there is one. */
  lemma SoloAcquireReuses(s: State, p: nat, v: Value) returns (s': State)
    requires Inv(s) && p < |s.threads| && s.threads[p] == AcqRead(v) && |s.free| > 0
    ensures Inv(s') && Reaches(s, p, s', 3)
    ensures s'.threads == s.threads[p := PushValue(v, s.free[|s.free| - 1])] && s'.free == s.free[..|s.free| - 1]
    ensures s'.nodes == s.nodes && s'.order == s.order
  {
    hide Inv, Reaches;
    TopIsFree(s);
    InvIsSafe(s, p);
    var s1 := Advanced(s, p);
    InvIsSafe(s1, p);
    var s2 := Advanced(s1, p);
    InvIsSafe(s2, p);
    s' := Advanced(s2, p);
    ReachesOn(s, p, s1, 1, s2, 1);
    ReachesOn(s, p, s2, 2, s', 1);
  }

  lemma TopIsFree(s: State)
    requires Inv(s) && |s.free| > 0
    ensures s.freeHead.node == s.free[|s.free| - 1] && s.freeHead.node != NULL
  {
  }
}
