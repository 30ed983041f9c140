/** Linearizability of the queue over every run of its step system.

    A history adds to a state the time of every step, the operations completed so far, and a log
    of linearization points: a Push takes effect at its tail compare-and-swap, a successful Pop at
    its head compare-and-swap, a failing Pop at its read of the tail. */
module LockFreeQueueLinearizability {
  import opened LockFreeQueue
  import opened LockFreeQueueInvariant

  // ----- The sequential queue ------------------------------------------------------------------

  datatype Op = Enqueue(v: Value) | Dequeue(v: Value) | FindEmpty

  datatype Outcome = Illegal | Contents(q: seq<Value>)

  /** What one operation with its result does to a first-in first-out queue. */
  function Apply(o: Outcome, op: Op): (r: Outcome) {
    match o
    case Illegal => Illegal
    case Contents(q) =>
      match op
      case Enqueue(v) => Contents(q + [v])
      case Dequeue(v) => if |q| > 0 && q[0] == v then Contents(q[1..]) else Illegal
      case FindEmpty => if |q| == 0 then Contents([]) else Illegal
  }

  datatype Event = Event(time: nat, tid: nat, op: Op)

  function Replay(log: seq<Event>): (o: Outcome) {
    if |log| == 0 then Contents([]) else Apply(Replay(log[..|log| - 1]), log[|log| - 1].op)
  }

  /** The part of a time-ordered log up to and including a time. */
  function Upto(log: seq<Event>, time: nat): (r: seq<Event>)
    ensures r <= log
  {
    if |log| == 0 || log[|log| - 1].time <= time then log else Upto(log[..|log| - 1], time)
  }

  /** Puts an event at its place in a time-ordered log. */
  function Insert(log: seq<Event>, e: Event): (r: seq<Event>)
    ensures |r| == |log| + 1
  {
    if |log| == 0 || log[|log| - 1].time < e.time then log + [e]
    else Insert(log[..|log| - 1], e) + [log[|log| - 1]]
  }

  predicate TimeOrdered(log: seq<Event>) {
    forall i, j :: 0 <= i < j < |log| ==> log[i].time < log[j].time
  }

  // ----- Histories -----------------------------------------------------------------------------

  /** A completed operation: when it was called, took effect and returned. */
  datatype Call = Call(tid: nat, op: Op, start: nat, point: nat, end: nat)

  datatype History = History(
    s: State, clock: nat, log: seq<Event>, start: seq<nat>, mark: seq<nat>, done: seq<Call>)

  predicate Begin(h: History) {
    && Init(h.s) && h.log == [] && h.done == []
    && |h.start| == |h.mark| == |h.s.threads|
  }

  predicate CanStep(h: History, p: nat, c: Choice) {
    && p < |h.s.threads| && |h.start| == |h.mark| == |h.s.threads|
    && Safe(h.s, p) && Enabled(h.s, p, c)
  }

  /** One step, with its effect on the log and on the completed operations. */
  function Advance(h: History, p: nat, c: Choice): History
    requires CanStep(h, p, c)
  {
    var l := h.s.threads[p];
    var s' := Exec(h.s, p, c);
    var l' := s'.threads[p];
    var n := h.(s := s', clock := h.clock + 1);
    match l
    case Idle => n.(start := h.start[p := h.clock])
    case PopTail(_) => n.(mark := h.mark[p := h.clock])
    case PushCas(v, _, _) =>
      if l'.PushBack? then
        n.(mark := h.mark[p := h.clock], log := h.log + [Event(h.clock, p, Enqueue(v))])
      else n
    case PopCas(_, _, v) =>
      if l'.RelValue? then
        n.(mark := h.mark[p := h.clock], log := h.log + [Event(h.clock, p, Dequeue(v))])
      else n
    case PushBack(v, _, _) =>
      n.(done := h.done + [Call(p, Enqueue(v), h.start[p], h.mark[p], h.clock)])
    case PopCount(v) =>
      n.(done := h.done + [Call(p, Dequeue(v), h.start[p], h.mark[p], h.clock)])
    case PopCheck(_, _, _) =>
      if l'.Idle? then
        n.(log := Insert(h.log, Event(h.mark[p], p, FindEmpty)),
           done := h.done + [Call(p, FindEmpty, h.start[p], h.mark[p], h.clock)])
      else n
    case _ => n
  }

  /** A thread whose operation has taken effect but not yet returned, and that operation. */
  predicate TookEffect(l: Local) {
    l.PushBack? || l.RelValue? || l.RelRead? || l.RelReset? || l.RelLink? || l.RelCas? || l.PopCount?
  }

  function EffectOf(l: Local): (op: Op)
    requires TookEffect(l)
  {
    if l.PushBack? then Enqueue(l.v) else Dequeue(l.v)
  }

  /** The queue is linearizable: the log is a legal sequential run in order of time; every completed
      operation, with its result, is in it at a time inside its own interval; and every entry of the
      log belongs to exactly one operation, completed or about to return. */
  predicate Linearizable(h: History) {
    && Replay(h.log).Contents? && TimeOrdered(h.log)
    && (forall d :: 0 <= d < |h.done| ==>
          && h.done[d].start < h.done[d].point < h.done[d].end < h.clock
          && Event(h.done[d].point, h.done[d].tid, h.done[d].op) in h.log)
    && (forall d, e :: 0 <= d < e < |h.done| ==> h.done[d].point != h.done[e].point)
    && (forall i :: 0 <= i < |h.log| ==> Completed(h, h.log[i]) != Returning(h, h.log[i]))
  }

  predicate Completed(h: History, e: Event) {
    exists d :: 0 <= d < |h.done| && h.done[d].point == e.time && h.done[d].tid == e.tid && h.done[d].op == e.op
  }

  predicate Returning(h: History, e: Event) {
    && e.tid < |h.s.threads| == |h.mark| && TookEffect(h.s.threads[e.tid])
    && h.mark[e.tid] == e.time && EffectOf(h.s.threads[e.tid]) == e.op
  }

  // ----- Facts about logs ----------------------------------------------------------------------

  predicate NoEventAt(log: seq<Event>, time: nat) {
    forall i :: 0 <= i < |log| ==> log[i].time != time
  }

  lemma AppendReplays(log: seq<Event>, e: Event)
    ensures Replay(log + [e]) == Apply(Replay(log), e.op)
  {
    assert (log + [e])[..|log|] == log;
  }

  /** Events after a time do not change the log up to it. */
  lemma UptoAppend(log: seq<Event>, e: Event, time: nat)
    requires time < e.time
    ensures Upto(log + [e], time) == Upto(log, time)
  {
    assert (log + [e])[..|log|] == log;
  }

  lemma {:induction false} InsertKeepsOrder(log: seq<Event>, e: Event)
    requires TimeOrdered(log) && NoEventAt(log, e.time)
    ensures TimeOrdered(Insert(log, e))
    ensures forall x :: x in Insert(log, e) <==> x in log || x == e
  {
    if |log| == 0 || log[|log| - 1].time < e.time {
    } else {
      var front, last := log[..|log| - 1], log[|log| - 1];
      assert log == front + [last];
      InsertKeepsOrder(front, e);
      var r := Insert(front, e);
      forall i | 0 <= i < |r| ensures r[i].time < last.time {
        assert r[i] in front || r[i] == e;
      }
    }
  }

  /** A failing Pop placed where the queue is empty changes no contents, then or later. */
  lemma {:induction false} InsertFindEmpty(log: seq<Event>, e: Event)
    requires TimeOrdered(log) && NoEventAt(log, e.time)
    requires e.op == FindEmpty && Replay(Upto(log, e.time)) == Contents([])
    ensures Replay(Insert(log, e)) == Replay(log)
    decreases |log|
  {
    hide Replay, Upto, Insert, Apply, TimeOrdered, NoEventAt;
    if |log| == 0 || log[|log| - 1].time < e.time {
      InsertAtEnd(log, e);
      AppendReplays(log, e);
      FindEmptyIsNothing();
    } else {
      var front, last := log[..|log| - 1], log[|log| - 1];
      InsertBefore(log, e);
      InsertFindEmpty(front, e);
      AppendReplays(Insert(front, e), last);
      AppendReplays(front, last);
    }
  }

  lemma FindEmptyIsNothing()
    ensures Apply(Contents([]), FindEmpty) == Contents([])
  {
  }

  lemma InsertAtEnd(log: seq<Event>, e: Event)
    requires |log| == 0 || log[|log| - 1].time < e.time
    ensures Upto(log, e.time) == log && Insert(log, e) == log + [e]
  {
  }

  lemma InsertBefore(log: seq<Event>, e: Event)
    requires |log| > 0 && log[|log| - 1].time >= e.time && TimeOrdered(log) && NoEventAt(log, e.time)
    ensures var front, last := log[..|log| - 1], log[|log| - 1];
            && TimeOrdered(front) && NoEventAt(front, e.time) && log == front + [last]
            && Upto(log, e.time) == Upto(front, e.time) && Insert(log, e) == Insert(front, e) + [last]
  {
  }

  lemma {:induction false} InsertFindEmptyUpto(log: seq<Event>, e: Event, time: nat)
    requires TimeOrdered(log) && NoEventAt(log, e.time)
    requires e.op == FindEmpty && Replay(Upto(log, e.time)) == Contents([])
    ensures Replay(Upto(Insert(log, e), time)) == Replay(Upto(log, time))
  {
    var r := Insert(log, e);
    if |log| == 0 || log[|log| - 1].time < e.time {
      assert r[..|log|] == log;
      if e.time <= time {
        AppendReplays(log, e);
      }
    } else {
      var front, last := log[..|log| - 1], log[|log| - 1];
      assert r[..|log|] == Insert(front, e);
      if last.time <= time {
        InsertFindEmpty(log, e);
      } else {
        InsertFindEmptyUpto(front, e, time);
      }
    }
  }

  lemma {:induction false} UptoWholeLog(log: seq<Event>, time: nat)
    requires forall i :: 0 <= i < |log| ==> log[i].time < time
    ensures Upto(log, time) == log
  {
  }

  /** In a legal log the values leave in the order in which they entered. */
  function Entered(log: seq<Event>): (vs: seq<Value>) {
    if |log| == 0 then []
    else Entered(log[..|log| - 1]) + if log[|log| - 1].op.Enqueue? then [log[|log| - 1].op.v] else []
  }

  function Left(log: seq<Event>): (vs: seq<Value>) {
    if |log| == 0 then []
    else Left(log[..|log| - 1]) + if log[|log| - 1].op.Dequeue? then [log[|log| - 1].op.v] else []
  }

  lemma {:induction false} LegalMeansFifo(log: seq<Event>)
    requires Replay(log).Contents?
    ensures Entered(log) == Left(log) + Replay(log).q
  {
    if |log| > 0 {
      LegalMeansFifo(log[..|log| - 1]);
    }
  }

  // ----- The invariant of histories ------------------------------------------------------------

  predicate HasMark(l: Local) {
    l.PopPrev? || l.PopCheck? || TookEffect(l)
  }

  /** A Pop that may turn out to fail: it read a tail equal to its head. */
  predicate SawEmpty(l: Local) {
    (l.PopPrev? || l.PopCheck?) && l.tail == l.head
  }

  /** The log yields the values between head and tail. */
  predicate LogMatches(h: History)
    requires Shape(h.s)
  {
    Replay(h.log) == Contents(h.s.vals[h.s.head.tag + 1..])
  }

  predicate Timed(h: History) {
    && |h.start| == |h.mark| == |h.s.threads|
    && TimeOrdered(h.log)
    && (forall i :: 0 <= i < |h.log| ==> h.log[i].time < h.clock)
    && (forall q :: 0 <= q < |h.s.threads| && !h.s.threads[q].Idle? ==> h.start[q] < h.clock)
    && (forall q :: 0 <= q < |h.s.threads| && HasMark(h.s.threads[q]) ==> h.start[q] < h.mark[q] < h.clock)
    && (forall q, r :: 0 <= q < r < |h.s.threads| && HasMark(h.s.threads[q]) && HasMark(h.s.threads[r]) ==>
          h.mark[q] != h.mark[r])
  }

  predicate PendingInv(h: History)
    requires |h.start| == |h.mark| == |h.s.threads|
  {
    && (forall q :: 0 <= q < |h.s.threads| && (h.s.threads[q].PopPrev? || h.s.threads[q].PopCheck?) ==>
          NoEventAt(h.log, h.mark[q]))
    && (forall q :: 0 <= q < |h.s.threads| && SawEmpty(h.s.threads[q]) ==>
          Replay(Upto(h.log, h.mark[q])) == Contents([]))
    && (forall q :: 0 <= q < |h.s.threads| && TookEffect(h.s.threads[q]) ==>
          Event(h.mark[q], q, EffectOf(h.s.threads[q])) in h.log)
  }

  predicate DoneInv(h: History)
    requires |h.start| == |h.mark| == |h.s.threads|
  {
    && (forall d :: 0 <= d < |h.done| ==>
          && h.done[d].start < h.done[d].point < h.done[d].end < h.clock
          && Event(h.done[d].point, h.done[d].tid, h.done[d].op) in h.log)
    && (forall d, e :: 0 <= d < e < |h.done| ==> h.done[d].point != h.done[e].point)
    && (forall d, q :: 0 <= d < |h.done| && 0 <= q < |h.s.threads| && HasMark(h.s.threads[q]) ==>
          h.done[d].point != h.mark[q])
  }

  predicate Accounted(h: History) {
    forall i :: 0 <= i < |h.log| ==> Completed(h, h.log[i]) || Returning(h, h.log[i])
  }

  /** What holds of the log and the operations, without the memory. */
  predicate Ops(h: History) {
    Timed(h) && PendingInv(h) && DoneInv(h) && Accounted(h)
  }

  predicate HistoryInv(h: History) {
    Inv(h.s) && LogMatches(h) && Ops(h)
  }

  lemma HistoryInvIsLinearizable(h: History)
    requires HistoryInv(h)
    ensures Linearizable(h)
  {
    hide Inv;
    forall i | 0 <= i < |h.log| ensures Completed(h, h.log[i]) != Returning(h, h.log[i]) {
      if Returning(h, h.log[i]) {
        assert HasMark(h.s.threads[h.log[i].tid]);
      }
    }
  }

  // ----- Every step keeps it -------------------------------------------------------------------

  /** h' is h after a step that moved thread p to l'. */
  predicate Follows(h: History, h': History, p: nat, l': Local) {
    && p < |h.s.threads| && h'.clock == h.clock + 1
    && h'.s.threads == h.s.threads[p := l']
  }

  /** A step between two points of an operation at which nothing is recorded. */
  predicate SameStage(l: Local, l': Local) {
    && !l'.Idle?
    && (HasMark(l') ==> HasMark(l)) && TookEffect(l) == TookEffect(l')
    && (TookEffect(l) ==> EffectOf(l) == EffectOf(l'))
    && (SawEmpty(l') ==> SawEmpty(l)) && (l'.PopPrev? || l'.PopCheck? ==> l.PopPrev? || l.PopCheck?)
  }

  lemma CompletedStays(h: History, h': History, e: Event)
    requires Completed(h, e) && h.done <= h'.done
    ensures Completed(h', e)
  {
    var d :| 0 <= d < |h.done| && h.done[d].point == e.time && h.done[d].tid == e.tid && h.done[d].op == e.op;
    assert h'.done[d] == h.done[d];
  }

  /** Entries stay accounted for unless p's own operation stops being about to return. */
  lemma AccountedStays(h: History, h': History, p: nat, l': Local, e: Event)
    requires Follows(h, h', p, l') && |h.mark| == |h.s.threads| && h.done <= h'.done
    requires Completed(h, e) || Returning(h, e)
    requires h'.mark == h.mark || (h'.mark == h.mark[p := h.clock] && !TookEffect(h.s.threads[p]))
    requires TookEffect(h.s.threads[p]) && e.tid == p ==>
               (TookEffect(l') && EffectOf(l') == EffectOf(h.s.threads[p])) || Completed(h', e)
    ensures Completed(h', e) || Returning(h', e)
  {
    if Completed(h, e) {
      CompletedStays(h, h', e);
    }
  }

  lemma KeepsAccounted(h: History, h': History, p: nat, l': Local)
    requires Follows(h, h', p, l') && |h.mark| == |h.s.threads| && Accounted(h) && h'.log == h.log && h'.done == h.done
    requires h'.mark == h.mark || (h'.mark == h.mark[p := h.clock] && !TookEffect(h.s.threads[p]))
    requires TookEffect(h.s.threads[p]) ==> TookEffect(l') && EffectOf(l') == EffectOf(h.s.threads[p])
    ensures Accounted(h')
  {
    hide Completed, Returning, Follows, TookEffect, EffectOf;
    forall i | 0 <= i < |h'.log| ensures Completed(h', h'.log[i]) || Returning(h', h'.log[i]) {
      AccountedStays(h, h', p, l', h.log[i]);
    }
  }

  lemma QuietTimed(h: History, h': History, p: nat, l': Local)
    requires Timed(h) && Follows(h, h', p, l') && SameStage(h.s.threads[p], l')
    requires h'.log == h.log && h'.mark == h.mark
    requires h'.start == if h.s.threads[p].Idle? then h.start[p := h.clock] else h.start
    ensures Timed(h')
  {
    hide TimeOrdered;
  }

  lemma QuietPending(h: History, h': History, p: nat, l': Local)
    requires |h.start| == |h.mark| == |h.s.threads| == |h'.start| && PendingInv(h)
    requires Follows(h, h', p, l') && SameStage(h.s.threads[p], l') && h'.log == h.log && h'.mark == h.mark
    ensures PendingInv(h')
  {
    hide Replay, Upto;
  }

  lemma QuietDone(h: History, h': History, p: nat, l': Local)
    requires |h.start| == |h.mark| == |h.s.threads| == |h'.start| && DoneInv(h)
    requires Follows(h, h', p, l') && SameStage(h.s.threads[p], l')
    requires h'.log == h.log && h'.mark == h.mark && h'.done == h.done
    ensures DoneInv(h')
  {
    hide TookEffect;
  }

  lemma QuietStep(h: History, h': History, p: nat, l': Local)
    requires Ops(h) && Follows(h, h', p, l') && SameStage(h.s.threads[p], l')
    requires h'.log == h.log && h'.done == h.done && h'.mark == h.mark
    requires h'.start == if h.s.threads[p].Idle? then h.start[p := h.clock] else h.start
    ensures Ops(h')
  {
    hide PendingInv, DoneInv, Accounted;
    QuietTimed(h, h', p, l');
    QuietPending(h, h', p, l');
    QuietDone(h, h', p, l');
    KeepsAccounted(h, h', p, l');
  }

  lemma TailPending(h: History, h': History, p: nat, l': Local)
    requires Timed(h) && PendingInv(h) && Follows(h, h', p, l') && h.s.threads[p].PopTail? && l'.PopPrev?
    requires h'.log == h.log && h'.mark == h.mark[p := h.clock] && h'.start == h.start
    requires SawEmpty(l') ==> Replay(h.log) == Contents([])
    ensures PendingInv(h')
  {
    hide Replay, Upto;
    UptoWholeLog(h.log, h.clock);
  }

  lemma TailStep(h: History, h': History, p: nat, l': Local)
    requires Ops(h) && Follows(h, h', p, l') && h.s.threads[p].PopTail? && l'.PopPrev?
    requires h'.log == h.log && h'.done == h.done && h'.mark == h.mark[p := h.clock] && h'.start == h.start
    requires SawEmpty(l') ==> Replay(h.log) == Contents([])
    ensures Ops(h')
  {
    hide PendingInv, Accounted, Replay;
    TailPending(h, h', p, l');
    KeepsAccounted(h, h', p, l');
  }

  /** A compare-and-swap at which the operation takes effect. */
  lemma EffectStepTimed(h: History, h': History, p: nat, l': Local, op: Op)
    requires Timed(h) && PendingInv(h) && Follows(h, h', p, l')
    requires !h.s.threads[p].Idle? && !HasMark(h.s.threads[p]) && TookEffect(l') && EffectOf(l') == op
    requires h'.log == h.log + [Event(h.clock, p, op)]
    requires h'.mark == h.mark[p := h.clock] && h'.start == h.start
    ensures Timed(h') && PendingInv(h')
  {
    hide Replay, Upto;
    forall q | 0 <= q < |h.s.threads| && q != p && SawEmpty(h.s.threads[q])
      ensures Replay(Upto(h'.log, h'.mark[q])) == Contents([])
    {
      UptoAppend(h.log, Event(h.clock, p, op), h.mark[q]);
    }
  }

  lemma EffectStep(h: History, h': History, p: nat, l': Local, op: Op)
    requires Ops(h) && Follows(h, h', p, l')
    requires !h.s.threads[p].Idle? && !HasMark(h.s.threads[p]) && TookEffect(l') && EffectOf(l') == op
    requires h'.log == h.log + [Event(h.clock, p, op)] && h'.done == h.done
    requires h'.mark == h.mark[p := h.clock] && h'.start == h.start
    ensures Ops(h')
  {
    EffectStepTimed(h, h', p, l', op);
    forall i | 0 <= i < |h'.log| ensures Completed(h', h'.log[i]) || Returning(h', h'.log[i]) {
      if i < |h.log| {
        AccountedStays(h, h', p, l', h.log[i]);
      }
    }
  }

  /** A return: one more completed operation, whose event is in the log. */
  lemma ReturnKeepsDone(h: History, h': History, p: nat, op: Op)
    requires Timed(h) && DoneInv(h) && Follows(h, h', p, Idle) && HasMark(h.s.threads[p])
    requires |h'.mark| == |h'.start| == |h'.s.threads|
    requires h'.mark == h.mark && h'.done == h.done + [Call(p, op, h.start[p], h.mark[p], h.clock)]
    requires forall x :: x in h.log ==> x in h'.log
    requires Event(h.mark[p], p, op) in h'.log
    ensures DoneInv(h')
  {
  }

  lemma ReturnStep(h: History, h': History, p: nat)
    requires Ops(h) && Follows(h, h', p, Idle) && TookEffect(h.s.threads[p])
    requires h'.log == h.log && h'.mark == h.mark && h'.start == h.start
    requires h'.done == h.done + [Call(p, EffectOf(h.s.threads[p]), h.start[p], h.mark[p], h.clock)]
    ensures Ops(h')
  {
    var op := EffectOf(h.s.threads[p]);
    ReturnKeepsDone(h, h', p, op);
    forall i | 0 <= i < |h'.log| ensures Completed(h', h'.log[i]) || Returning(h', h'.log[i]) {
      if Returning(h, h.log[i]) && h.log[i].tid == p {
        assert h'.done[|h.done|] == Call(p, op, h.start[p], h.mark[p], h.clock);
      }
      AccountedStays(h, h', p, Idle, h.log[i]);
    }
  }

  /** The return of a failing Pop, entered in the log at its read of the tail. */
  lemma EmptyStepTimed(h: History, h': History, p: nat, e: Event)
    requires Timed(h) && Follows(h, h', p, Idle)
    requires h'.mark == h.mark && h'.start == h.start
    requires TimeOrdered(h'.log) && (forall x :: x in h'.log <==> x in h.log || x == e) && e.time < h.clock
    ensures Timed(h')
  {
    forall i | 0 <= i < |h'.log| ensures h'.log[i].time < h'.clock {
      assert h'.log[i] in h'.log;
    }
  }

  lemma EmptyStepPending(h: History, h': History, p: nat, e: Event)
    requires Timed(h) && PendingInv(h) && Follows(h, h', p, Idle) && HasMark(h.s.threads[p])
    requires h'.mark == h.mark && h'.start == h.start && e == Event(h.mark[p], p, FindEmpty)
    requires NoEventAt(h.log, e.time) && Replay(Upto(h.log, e.time)) == Contents([])
    requires h'.log == Insert(h.log, e)
    requires forall x :: x in h'.log <==> x in h.log || x == e
    ensures PendingInv(h')
  {
    forall q | 0 <= q < |h.s.threads| && q != p && (h.s.threads[q].PopPrev? || h.s.threads[q].PopCheck?)
      ensures NoEventAt(h'.log, h.mark[q])
    {
      forall i | 0 <= i < |h'.log| ensures h'.log[i].time != h.mark[q] {
        assert h'.log[i] in h'.log;
      }
    }
    forall q | 0 <= q < |h.s.threads| && q != p && SawEmpty(h.s.threads[q])
      ensures Replay(Upto(h'.log, h'.mark[q])) == Contents([])
    {
      InsertFindEmptyUpto(h.log, e, h.mark[q]);
    }
  }

  lemma EmptyStep(h: History, h': History, p: nat)
    requires Ops(h) && Follows(h, h', p, Idle) && h.s.threads[p].PopCheck? && SawEmpty(h.s.threads[p])
    requires h'.log == Insert(h.log, Event(h.mark[p], p, FindEmpty)) && h'.mark == h.mark && h'.start == h.start
    requires h'.done == h.done + [Call(p, FindEmpty, h.start[p], h.mark[p], h.clock)]
    ensures Ops(h') && Replay(h'.log) == Replay(h.log)
  {
    hide Upto, Insert, Replay;
    var e := Event(h.mark[p], p, FindEmpty);
    InsertKeepsOrder(h.log, e);
    InsertFindEmpty(h.log, e);
    EmptyStepTimed(h, h', p, e);
    EmptyStepPending(h, h', p, e);
    ReturnKeepsDone(h, h', p, FindEmpty);
    forall i | 0 <= i < |h'.log| ensures Completed(h', h'.log[i]) || Returning(h', h'.log[i]) {
      assert h'.log[i] in h'.log;
      if h'.log[i] == e {
        assert h'.done[|h.done|].point == e.time;
      } else {
        AccountedStays(h, h', p, Idle, h'.log[i]);
      }
    }
  }

  /** Steps at which an operation takes effect, records its tail read, or returns. */
  predicate Notable(s: State, p: nat)
    requires p < |s.threads| && Safe(s, p)
  {
    var l := s.threads[p];
    || l.PopTail? || l.PushBack? || l.PopCount?
    || (l.PushCas? && Same(l.tail, s.tail))
    || (l.PopCas? && Same(l.head, s.head))
    || (l.PopCheck? && Same(l.head, s.head) && Same(l.tail, l.head))
  }

  /** What a step that is not notable leaves alone. */
  predicate IsQuiet(s: State, s': State, p: nat)
    requires p < |s.threads|
  {
    && |s'.threads| == |s.threads| && s'.threads == s.threads[p := s'.threads[p]]
    && s'.vals == s.vals && s'.head == s.head && SameStage(s.threads[p], s'.threads[p])
  }

  lemma QuietAcquire(s: State, p: nat, c: Choice)
    requires p < |s.threads| && Safe(s, p) && Enabled(s, p, c)
    requires s.threads[p].AcqRead? || s.threads[p].AcqLink? || s.threads[p].AcqCas?
    ensures IsQuiet(s, AcquireStep(s, p, c), p)
  {
  }

  lemma QuietPush(s: State, p: nat)
    requires p < |s.threads| && Safe(s, p) && !Notable(s, p)
    requires var l := s.threads[p];
             l.PushValue? || l.PushCount? || l.PushReset? || l.PushTail? || l.PushNext? || l.PushCas?
    ensures IsQuiet(s, PushStep(s, p), p)
  {
  }

  lemma QuietPop(s: State, p: nat)
    requires p < |s.threads| && Safe(s, p) && !Notable(s, p)
    requires var l := s.threads[p]; l.PopHead? || l.PopPrev? || l.PopCheck? || l.PopValue? || l.PopCas?
    ensures IsQuiet(s, PopStep(s, p), p)
  {
  }

  lemma QuietFix(s: State, p: nat)
    requires p < |s.threads| && Safe(s, p) && (s.threads[p].FixCheck? || s.threads[p].FixNext? || s.threads[p].FixPrev?)
    ensures IsQuiet(s, FixStep(s, p), p)
  {
  }

  lemma QuietRelease(s: State, p: nat)
    requires p < |s.threads| && Safe(s, p)
    requires var l := s.threads[p]; l.RelValue? || l.RelRead? || l.RelReset? || l.RelLink? || l.RelCas?
    ensures IsQuiet(s, ReleaseStep(s, p), p)
  {
  }

  lemma QuietOutline(s: State, p: nat, c: Choice)
    requires p < |s.threads| && Safe(s, p) && Enabled(s, p, c) && !Notable(s, p)
    ensures IsQuiet(s, Exec(s, p, c), p)
  {
    hide AcquireStep, PushStep, PopStep, FixStep, ReleaseStep, IsQuiet;
    var l := s.threads[p];
    if l.Idle? {
      QuietCall(s, p, c);
    } else if l.AcqRead? || l.AcqLink? || l.AcqCas? {
      QuietAcquire(s, p, c);
    } else if l.PushValue? || l.PushCount? || l.PushReset? || l.PushTail? || l.PushNext? || l.PushCas? {
      QuietPush(s, p);
    } else if l.PopHead? || l.PopPrev? || l.PopCheck? || l.PopValue? || l.PopCas? {
      QuietPop(s, p);
    } else if l.FixCheck? || l.FixNext? || l.FixPrev? {
      QuietFix(s, p);
    } else {
      QuietRelease(s, p);
    }
  }

  lemma QuietCall(s: State, p: nat, c: Choice)
    requires p < |s.threads| && s.threads[p].Idle? && Enabled(s, p, c)
    ensures IsQuiet(s, Exec(s, p, c), p)
  {
  }

  lemma QuietAdvance(h: History, p: nat, c: Choice)
    requires HistoryInv(h) && CanStep(h, p, c) && !Notable(h.s, p)
    ensures HistoryInv(Advance(h, p, c))
  {
    hide Inv, Ops, Replay;
    StepKeepsInv(h.s, p, c);
    Open(h.s, p);
    QuietOutline(h.s, p, c);
    var h' := Advance(h, p, c);
    Open(h'.s, p);
    QuietStep(h, h', p, h'.s.threads[p]);
  }

  lemma TailAdvance(h: History, p: nat, c: Choice)
    requires HistoryInv(h) && CanStep(h, p, c) && h.s.threads[p].PopTail?
    ensures HistoryInv(Advance(h, p, c))
  {
    hide Inv, Ops, Replay;
    StepKeepsInv(h.s, p, c);
    Open(h.s, p);
    var h' := Advance(h, p, c);
    Open(h'.s, p);
    TailStep(h, h', p, h'.s.threads[p]);
  }

  /** The tail compare-and-swap appends to the abstract queue. */
  lemma PublishAdvance(h: History, p: nat, c: Choice)
    requires HistoryInv(h) && CanStep(h, p, c) && h.s.threads[p].PushCas? && Same(h.s.threads[p].tail, h.s.tail)
    ensures HistoryInv(Advance(h, p, c))
  {
    hide Inv, Ops, Replay;
    StepKeepsInv(h.s, p, c);
    Open(h.s, p);
    var h' := Advance(h, p, c);
    Open(h'.s, p);
    var v := h.s.threads[p].v;
    EffectStep(h, h', p, h'.s.threads[p], Enqueue(v));
    AppendReplays(h.log, Event(h.clock, p, Enqueue(v)));
    var k := h.s.head.tag + 1;
    assert (h.s.vals + [v])[k..] == h.s.vals[k..] + [v];
  }

  /** The head compare-and-swap takes the oldest value of the abstract queue. */
  lemma UnlinkAdvance(h: History, p: nat, c: Choice)
    requires HistoryInv(h) && CanStep(h, p, c) && h.s.threads[p].PopCas? && Same(h.s.threads[p].head, h.s.head)
    ensures HistoryInv(Advance(h, p, c))
  {
    hide Inv, Ops, Replay;
    StepKeepsInv(h.s, p, c);
    Open(h.s, p);
    var h' := Advance(h, p, c);
    Open(h'.s, p);
    var l := h.s.threads[p];
    EffectStep(h, h', p, h'.s.threads[p], Dequeue(l.v));
    AppendReplays(h.log, Event(h.clock, p, Dequeue(l.v)));
    var k := h.s.head.tag + 1;
    assert h.s.vals[k..][0] == l.v;
    assert h.s.vals[k..][1..] == h.s.vals[k + 1..];
  }

  lemma ReturnAdvance(h: History, p: nat, c: Choice)
    requires HistoryInv(h) && CanStep(h, p, c) && (h.s.threads[p].PushBack? || h.s.threads[p].PopCount?)
    ensures HistoryInv(Advance(h, p, c))
  {
    hide Inv, Ops, Replay;
    StepKeepsInv(h.s, p, c);
    Open(h.s, p);
    var h' := Advance(h, p, c);
    Open(h'.s, p);
    ReturnStep(h, h', p);
  }

  /** A Pop fails only if the queue was empty when it read the tail. */
  lemma EmptyAdvance(h: History, p: nat, c: Choice)
    requires HistoryInv(h) && CanStep(h, p, c) && h.s.threads[p].PopCheck?
    requires Same(h.s.threads[p].head, h.s.head) && Same(h.s.threads[p].tail, h.s.threads[p].head)
    ensures HistoryInv(Advance(h, p, c))
    ensures Replay(Upto(h.log, h.mark[p])) == Contents([])
  {
    hide Inv, Replay, Upto, Insert;
    StepKeepsInv(h.s, p, c);
    Open(h.s, p);
    var h' := Advance(h, p, c);
    Open(h'.s, p);
    LiveSame(h.s, h.s.threads[p].tail, h.s.threads[p].head);
    EmptyStep(h, h', p);
  }

  lemma AdvanceKeepsInv(h: History, p: nat, c: Choice)
    requires HistoryInv(h) && CanStep(h, p, c)
    ensures HistoryInv(Advance(h, p, c))
  {
    hide HistoryInv, Advance;
    var l := h.s.threads[p];
    if !Notable(h.s, p) {
      QuietAdvance(h, p, c);
    } else if l.PopTail? {
      TailAdvance(h, p, c);
    } else if l.PushCas? {
      PublishAdvance(h, p, c);
    } else if l.PopCas? {
      UnlinkAdvance(h, p, c);
    } else if l.PopCheck? {
      EmptyAdvance(h, p, c);
    } else {
      ReturnAdvance(h, p, c);
    }
  }

  // ----- Runs ----------------------------------------------------------------------------------

  datatype Action = Action(thread: nat, choice: Choice)

  /** Any interleaving of any operations of any number of threads. */
  predicate Run(hs: seq<History>, acts: seq<Action>) {
    && |hs| == |acts| + 1 && Begin(hs[0])
    && (forall i :: 0 <= i < |acts| ==>
          && CanStep(hs[i], acts[i].thread, acts[i].choice)
          && hs[i + 1] == Advance(hs[i], acts[i].thread, acts[i].choice))
  }

  lemma {:induction false} RunsKeepInv(hs: seq<History>, acts: seq<Action>)
    requires Run(hs, acts)
    ensures HistoryInv(hs[|acts|])
  {
    var n := |acts|;
    if n == 0 {
      InitHasInv(hs[0].s);
    } else {
      assert Run(hs[..n], acts[..n - 1]);
      RunsKeepInv(hs[..n], acts[..n - 1]);
      AdvanceKeepsInv(hs[n - 1], acts[n - 1].thread, acts[n - 1].choice);
    }
  }

  /** Every state of every run is linearizable, leaves its values in the order in which they entered,
      keeps every node in exactly one place, counts its size exactly, and takes no unsafe step next. */
  lemma EveryRunIsLinearizable(hs: seq<History>, acts: seq<Action>)
    requires Run(hs, acts)
    ensures var h := hs[|acts|];
            && Linearizable(h) && Replay(h.log).Contents?
            && Entered(h.log) == Left(h.log) + Replay(h.log).q
            && OnePlace(h.s) && SizeCount(h.s)
            && (forall p :: 0 <= p < |h.s.threads| ==> Safe(h.s, p))
  {
    var h := hs[|acts|];
    RunsKeepInv(hs, acts);
    HistoryInvIsLinearizable(h);
    LegalMeansFifo(h.log);
    forall p | 0 <= p < |h.s.threads| ensures Safe(h.s, p) {
      InvIsSafe(h.s, p);
    }
  }

  /** The log respects real time: an operation that returned before another began precedes it. */
  lemma RealTimeOrder(h: History, c: Call, d: Call, i: nat, j: nat)
    requires Linearizable(h) && c in h.done && d in h.done && c.end < d.start
    requires i < |h.log| && h.log[i] == Event(c.point, c.tid, c.op)
    requires j < |h.log| && h.log[j] == Event(d.point, d.tid, d.op)
    ensures i < j
  {
    assert c.point < d.point;
  }
}
