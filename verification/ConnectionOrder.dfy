/** Which packets the steps of ConnectionRuns take, and in what order: timeout checks take exactly what is
    due, and packets are written by deadline and in posting order. */
module ConnectionOrder {
  import opened PacketQueues
  import opened ConnectionRuns
  import Q = PacketQueueRuns

  // ----- The output queue over all runs ----------------------------------------------------------

  /** The queue of PacketQueueRuns in this connection, with the packets written as those that left. */
  function Output(s: State): Q.State {
    Q.State(s.queue, s.mine, s.writing, |s.accepted|, s.queue + s.mine + s.written, s.written)
  }

  /** Queue and waiting packets are in order, and packets have been written in turn. */
  ghost predicate InOrder(s: State) {
    Q.Inv(Output(s)) && Sorted(s.wait)
  }

  lemma AnyPosted(q: Q.State, s: State)
    requires Q.Inv(q) && q.output == s.queue && q.mine == s.mine && q.writing == s.writing && q.next == |s.accepted|
    requires s.written <= q.left
    ensures Q.Inv(Output(s))
  {
    assert s.written == q.left[..|s.written|];
    assert forall i :: 0 <= i < |s.written| ==> s.written[i] == q.left[i];
    assert multiset(s.queue + s.mine + s.written) == multiset(s.queue) + multiset(s.mine) + multiset(s.written);
  }

  lemma StepKeepsInOrder(s: State, a: Step)
    requires InOrder(s) && Enabled(s, a)
    ensures InOrder(Exec(s, a))
  {
    hide Q.Inv, Enabled, Exec, Output;
    StepKeepsWait(s, a);
    StepKeepsOutput(s, a);
  }

  /** What a step does to the output queue, if anything. */
  function OutputStep(s: State, a: Step): seq<Q.Step> {
    match a
    case Post(expire, _) => if Refused(s) then [] else [Q.Post(expire)]
    case BeginWrite => [Q.BeginWrite]
    case WriteOne => [Q.WriteOne]
    case EndWrite => [Q.EndWrite]
    case DetachPackets(c) => if c < |s.calls| && s.calls[c].Channels? then [Q.Timeout(s.calls[c].now)] else []
    case _ => []
  }

  lemma StepKeepsOutput(s: State, a: Step)
    requires Q.Inv(Output(s)) && Enabled(s, a)
    ensures Q.Inv(Output(Exec(s, a)))
  {
    hide Q.Inv, Q.Exec, Exec;
    var q := Output(s);
    if OutputStep(s, a) == [] {
      OtherSteps(s, a);
    } else {
      var b := OutputStep(s, a)[0];
      Q.StepKeepsInv(q, b);
      SameStep(s, a, b);
      AnyPosted(Q.Exec(q, b), Exec(s, a));
    }
  }

  lemma OtherSteps(s: State, a: Step)
    requires Enabled(s, a) && OutputStep(s, a) == []
    ensures Output(Exec(s, a)) == Output(s)
  {
  }

  lemma SameStep(s: State, a: Step, b: Q.Step)
    requires Enabled(s, a) && OutputStep(s, a) == [b] && Q.Enabled(Output(s), b)
    ensures var q, t := Q.Exec(Output(s), b), Exec(s, a);
            && q.output == t.queue && q.mine == t.mine && q.writing == t.writing && q.next == |t.accepted|
            && t.written <= q.left
  {
    hide Live, Handled, Merge, Insert, DueBy;
  }

  lemma StepKeepsWait(s: State, a: Step)
    requires Sorted(s.wait) && Enabled(s, a)
    ensures Sorted(Exec(s, a).wait)
  {
    hide Live, Handled, Merge;
    if a.WriteOne? {
      InsertKeepsSorted(s.wait, s.mine[0]);
    }
  }

  lemma {:induction false} RunsKeepInOrder(states: seq<State>, steps: seq<Step>, i: nat)
    requires Run(states, steps) && i < |states|
    ensures InOrder(states[i])
  {
    hide InOrder, Exec, Enabled;
    if i == 0 {
      NothingIsInOrder(states[0]);
    } else {
      RunsKeepInOrder(states, steps, i - 1);
      StepKeepsInOrder(states[i - 1], steps[i - 1]);
    }
  }

  lemma NothingIsInOrder(s: State)
    requires Init(s)
    ensures InOrder(s)
  {
  }

  /** In every run packets are written in turn: among those of equal deadline in posting order, and none
      after one of the same deadline that was posted later, in spite of timeouts, closes and reopens. */
  lemma PacketsAreWrittenInTurn(states: seq<State>, steps: seq<Step>, i: nat)
    requires Run(states, steps) && i < |states|
    ensures Q.FifoAmongEquals(states[i].written)
    ensures Q.LeftInTurn(states[i].written, states[i].queue) && Q.LeftInTurn(states[i].written, states[i].mine)
    ensures Q.Ordered(states[i].queue) && Q.Ordered(states[i].mine) && Sorted(states[i].wait)
  {
    hide Run;
    RunsKeepInOrder(states, steps, i);
  }

  // ----- What a check takes ------------------------------------------------------------------------

  /** The list falls into those due before a time, in order, and the others, in order. */
  predicate SplitAt(whole: seq<Entry>, due: seq<Entry>, rest: seq<Entry>, now: int) {
    && whole == due + rest
    && (forall e :: e in due ==> e.expire < now) && (forall e :: e in rest ==> e.expire >= now)
  }

  lemma DueIsSplit(s: seq<Entry>, now: int)
    requires Sorted(s)
    ensures SplitAt(s, s[..DueBy(s, now - 1)], s[DueBy(s, now - 1)..], now)
  {
    hide DueBy;
    var k := DueBy(s, now - 1);
    var due, rest := s[..k], s[k..];
    assert s == due + rest;
    forall e | e in rest ensures e.expire >= now {
      var i :| 0 <= i < |rest| && rest[i] == e;
      assert s[k + i] == e && s[k].expire <= s[k + i].expire;
    }
    forall e | e in due ensures e.expire < now {
      var i :| 0 <= i < |due| && due[i] == e;
      assert s[i] == e;
    }
  }

  lemma OrderedIsSorted(s: seq<Entry>)
    requires Q.Ordered(s)
    ensures Sorted(s)
  {
    forall i, j | 0 <= i < j < |s| ensures s[i].expire <= s[j].expire {
      assert Q.Before(s[i], s[j]);
    }
  }

  /** In every run a timeout check takes exactly the waiting packets that are past their deadline, in their
      order, and leaves the others waiting in theirs; it does nothing else. */
  lemma CheckTakesExpired(states: seq<State>, steps: seq<Step>, i: nat, c: nat, now: int)
    requires Run(states, steps) && i < |steps| && steps[i] == BeginCheck(c, now)
    ensures var s, t := states[i], states[i + 1];
            && c < |s.calls| && |t.calls| == |s.calls| && t.calls[c].Channels? && t.calls[c].now == now
            && SplitAt(s.wait, t.calls[c].todo, t.wait, now)
            && t == s.(wait := t.wait, calls := s.calls[c := t.calls[c]], useCount := s.useCount - |t.calls[c].todo|)
  {
    hide InOrder, DueBy, SplitAt, Sorted;
    RunsKeepInOrder(states, steps, i);
    WaitIsSorted(states[i]);
    assert Enabled(states[i], steps[i]) && states[i + 1] == Exec(states[i], steps[i]);
    DueIsSplit(states[i].wait, now);
  }

  lemma WaitIsSorted(s: State)
    requires InOrder(s)
    ensures Sorted(s.wait) && Sorted(s.queue)
  {
    OrderedIsSorted(s.queue);
  }

  /** A close takes all that waits, and closes the connection. */
  lemma CloseTakesAll(states: seq<State>, steps: seq<Step>, i: nat, c: nat)
    requires Run(states, steps) && i < |steps| && steps[i] == BeginClose(c)
    ensures var s, t := states[i], states[i + 1];
            && c < |s.calls| && |t.calls| == |s.calls| && t.calls[c] == Channels(MAX, s.opens, s.wait)
            && t == s.(closed := true, wait := [], calls := s.calls[c := t.calls[c]], useCount := s.useCount - |s.wait|)
  {
    hide Inv, DueBy;
    RunsKeepInv(states, steps, i);
    AllIsDue(states[i]);
    assert Enabled(states[i], steps[i]) && states[i + 1] == Exec(states[i], steps[i]);
  }

  lemma AllIsDue(s: State)
    requires Inv(s)
    ensures DueBy(s.wait, MAX - 1) == |s.wait|
  {
    hide Hands, ConnectionRuns.Ends, Closing, Counted, DistinctIds, DueBy;
    AllDueAtClose(s);
  }

  /** Having handled those, it takes exactly the queued packets that are past the same time. */
  lemma CheckTakesExpiredPackets(states: seq<State>, steps: seq<Step>, i: nat, c: nat)
    requires Run(states, steps) && i < |steps| && steps[i] == DetachPackets(c)
    ensures var s, t := states[i], states[i + 1];
            && c < |s.calls| && |t.calls| == |s.calls| && s.calls[c].Channels? && s.calls[c].todo == []
            && t.calls[c].Packets? && t.calls[c].now == s.calls[c].now && t.calls[c].epoch == s.calls[c].epoch
            && SplitAt(s.queue, t.calls[c].todo, t.queue, s.calls[c].now)
            && t == s.(queue := t.queue, calls := s.calls[c := t.calls[c]])
  {
    hide InOrder, DueBy, SplitAt, Sorted;
    RunsKeepInOrder(states, steps, i);
    WaitIsSorted(states[i]);
    assert Enabled(states[i], steps[i]) && states[i + 1] == Exec(states[i], steps[i]);
    DueIsSplit(states[i].queue, states[i].calls[c].now);
  }

  // ----- Nothing times out early -------------------------------------------------------------------

  /** A call that checks for timeouts has in hand only what is past the time it checks for. */
  predicate HasDue(c: Call) {
    IsCheck(c) ==> forall e :: e in Todo(c) ==> e.expire < c.now
  }

  predicate DueInHands(calls: seq<Call>) {
    forall c :: 0 <= c < |calls| ==> HasDue(calls[c])
  }

  lemma StepKeepsDue(s: State, a: Step)
    requires DueInHands(s.calls) && Enabled(s, a) && Sorted(s.wait) && Sorted(s.queue)
    ensures DueInHands(Exec(s, a).calls)
  {
    hide Live, Handled, Merge, Insert, DueBy, Sorted, DueInHands, HasDue, DoDetachChannels, DoDetachPackets,
         DoHandleChannel, DoHandlePacket, DoRunHandler;
    match a
    case TakeReply(c, chid) => HandsOf(s, c, Exec(s, a).calls[c]);
    case RunHandler(c) => HandlingKeepsDue(s, c);
    case BeginCheck(c, now) => DetachKeepsDue(s, c, now);
    case BeginClose(c) => DetachKeepsDue(s.(closed := true), c, MAX);
    case HandleChannel(c) => HandlingKeepsDue(s, c);
    case DetachPackets(c) => DetachPacketsKeepsDue(s, c);
    case HandlePacket(c) => HandlingKeepsDue(s, c);
    case Finish(c) => HandsOf(s, c, Idle);
    case _ =>
  }

  lemma DetachKeepsDue(s: State, c: nat, now: int)
    requires DueInHands(s.calls) && c < |s.calls| && Sorted(s.wait)
    ensures DueInHands(DoDetachChannels(s, c, now).calls)
  {
    hide DueBy, Sorted, DueInHands, HasDue;
    DetachedIsDue(s.wait, now, s.opens);
    HandsOf(s, c, DoDetachChannels(s, c, now).calls[c]);
  }

  lemma DetachPacketsKeepsDue(s: State, c: nat)
    requires DueInHands(s.calls) && c < |s.calls| && s.calls[c].Channels? && Sorted(s.queue)
    ensures DueInHands(DoDetachPackets(s, c).calls)
  {
    hide DueBy, Sorted, DueInHands, HasDue;
    DetachedIsDue(s.queue, s.calls[c].now, s.calls[c].epoch);
    HandsOf(s, c, DoDetachPackets(s, c).calls[c]);
  }

  lemma HandlingKeepsDue(s: State, c: nat)
    requires DueInHands(s.calls) && c < |s.calls|
    ensures s.calls[c].Channels? && |s.calls[c].todo| > 0 ==> DueInHands(DoHandleChannel(s, c).calls)
    ensures s.calls[c].Packets? && |s.calls[c].todo| > 0 ==> DueInHands(DoHandlePacket(s, c).calls)
    ensures s.calls[c].Held? || s.calls[c].Replying? ==> DueInHands(DoRunHandler(s, c).calls)
  {
    hide DueInHands, HasDue, Handled;
    IsDue(s.calls, c);
    HandledIsDue(s.calls[c]);
    if s.calls[c].Channels? && |s.calls[c].todo| > 0 {
      HandsOf(s, c, DoHandleChannel(s, c).calls[c]);
    } else if s.calls[c].Packets? && |s.calls[c].todo| > 0 {
      HandsOf(s, c, DoHandlePacket(s, c).calls[c]);
    } else if s.calls[c].Held? || s.calls[c].Replying? {
      HandsOf(s, c, DoRunHandler(s, c).calls[c]);
    }
  }

  lemma HandsOf(s: State, c: nat, x: Call)
    requires DueInHands(s.calls) && c < |s.calls| && (IsCheck(x) ==> HasDue(x))
    ensures DueInHands(s.calls[c := x])
  {
  }

  lemma DetachedIsDue(s: seq<Entry>, now: int, epoch: nat)
    requires Sorted(s)
    ensures var due := s[..DueBy(s, now - 1)]; HasDue(Channels(now, epoch, due)) && HasDue(Packets(now, epoch, due))
  {
    hide DueBy;
    DueIsSplit(s, now);
  }

  lemma HandledIsDue(c: Call)
    requires HasDue(c)
    ensures (c.Channels? || c.Packets?) && |c.todo| > 0 ==>
              && HasDue(Channels(c.now, c.epoch, c.todo[1..])) && HasDue(Packets(c.now, c.epoch, c.todo[1..]))
              && HasDue(Held(c.now, c.epoch, c.todo[1..], c.todo[0]))
    ensures c.Held? ==> HasDue(Packets(c.now, c.epoch, c.todo))
  {
  }

  lemma {:induction false} RunsKeepDue(states: seq<State>, steps: seq<Step>, i: nat)
    requires Run(states, steps) && i < |states|
    ensures DueInHands(states[i].calls)
  {
    hide InOrder, Exec, Enabled, Sorted, HasDue;
    if i == 0 {
      NothingIsDue(states[0]);
    } else {
      RunsKeepDue(states, steps, i - 1);
      RunsKeepInOrder(states, steps, i - 1);
      WaitIsSorted(states[i - 1]);
      StepKeepsDue(states[i - 1], steps[i - 1]);
    }
  }

  lemma NothingIsDue(s: State)
    requires Init(s)
    ensures DueInHands(s.calls)
  {
  }

  /** In every run a handler that has run has either been given a reply, or been told of a timeout that
      was past the packet's deadline. */
  lemma NothingTimesOutEarly(states: seq<State>, steps: seq<Step>, i: nat, e: Entry)
    requires Run(states, steps) && i < |steps| && states[i + 1].answered[e] > states[i].answered[e]
    ensures var a, s := steps[i], states[i];
            && (a.RunHandler? || a.HandleChannel?) && a.c < |s.calls| && e in Todo(s.calls[a.c])
            && (s.calls[a.c] == Replying(e) || (IsCheck(s.calls[a.c]) && e.expire < s.calls[a.c].now))
            && states[i + 1].answered == s.answered + multiset{e}
  {
    hide DueInHands, Merge, Insert, DueBy, Handled, Live;
    RunsKeepDue(states, steps, i);
    var a, s := steps[i], states[i];
    assert Enabled(s, a) && states[i + 1] == Exec(s, a);
    if a.RunHandler? || a.HandleChannel? {
      IsDue(s.calls, a.c);
    }
  }

  lemma IsDue(calls: seq<Call>, c: nat)
    requires DueInHands(calls) && c < |calls|
    ensures HasDue(calls[c])
  {
  }

  /** A reply that finds no waiting packet of its id changes nothing. */
  lemma UnknownRepliesAreDropped(s: State, c: nat, chid: nat)
    requires Enabled(s, TakeReply(c, chid)) && forall e :: e in s.wait ==> !HasId(s.infos, e, chid)
    ensures Exec(s, TakeReply(c, chid)) == s
  {
  }

  // ----- What is accepted --------------------------------------------------------------------------

  /** Whether the last close came after the last reopen. */
  predicate ClosedBy(steps: seq<Step>, i: nat)
    requires i <= |steps|
  {
    i > 0 && (steps[i - 1].BeginClose? || (!steps[i - 1].Reopen? && ClosedBy(steps, i - 1)))
  }

  lemma {:induction false} ClosedExactly(states: seq<State>, steps: seq<Step>, i: nat)
    requires Run(states, steps) && i <= |steps|
    ensures states[i].closed <==> ClosedBy(steps, i)
    decreases i
  {
    hide Exec, Enabled;
    if i > 0 {
      ClosedExactly(states, steps, i - 1);
      StepCloses(states[i - 1], steps[i - 1]);
    }
  }

  lemma StepCloses(s: State, a: Step)
    requires Enabled(s, a)
    ensures Exec(s, a).closed <==> a.BeginClose? || (!a.Reopen? && s.closed)
  {
    hide Live, Merge, Insert, DueBy, Handled;
  }

  /** In every run a packet is accepted exactly when the connection has not been closed since it was last
      opened and, if there is a limit, fewer channels than that are in use; then it is queued with its
      deadline, and otherwise nothing happens. */
  lemma PostsAreAcceptedExactly(states: seq<State>, steps: seq<Step>, i: nat, expire: int, info: Info)
    requires Run(states, steps) && i < |steps| && steps[i] == Post(expire, info)
    ensures var s, t, e := states[i], states[i + 1], Entry(expire, |states[i].accepted|);
            var inUse := |s.queue| + |s.mine| + |s.wait| + |s.lost| + Owned(s.calls);
            if ClosedBy(steps, i) || 0 < s.limit <= inUse then t == s
            else t.accepted == s.accepted + [e] && t.infos == s.infos + [info] &&
                 multiset(t.queue) == multiset(s.queue) + multiset{e}
  {
    hide Owned, Conserved, Stamped, ConnectionRuns.Ends, Closing, DistinctIds, DueBy, Live;
    RunsKeepInv(states, steps, i);
    ClosedExactly(states, steps, i);
    var s, e := states[i], Entry(expire, |states[i].accepted|);
    assert Enabled(s, steps[i]) && states[i + 1] == Exec(s, steps[i]);
    var k := DueBy(s.queue, expire);
    assert s.queue == s.queue[..k] + s.queue[k..];
  }
}
