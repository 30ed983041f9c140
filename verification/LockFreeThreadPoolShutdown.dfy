/** Shutdown: Join returns whatever producers do meanwhile, and how many items Stop leaves queued. */
module LockFreeThreadPoolShutdown {
  import opened LockFreeThreadPool
  import opened LockFreeThreadPoolProof

  // ----- How far shutdown is from its end ------------------------------------------------------

  /** Steps a worker has left before it exits, once the pool is stopped. */
  function StepsLeft(l: Worker): (n: nat) {
    match l
    case Spin => 6
    case Working(_) => 5
    case TakeTicket => 4
    case Arrive(_) => 3
    case Asleep(_) => 3
    case Woken(_) => 3
    case Served => 1
    case Exited => 0
  }

  function AllStepsLeft(ws: seq<Worker>): (n: nat) {
    if |ws| == 0 then 0 else AllStepsLeft(ws[..|ws| - 1]) + StepsLeft(ws[|ws| - 1])
  }

  /** Steps a producer has left inside PushWorkItem, not counting those spent waiting for room. */
  function PushesLeft(l: Pusher): (n: nat) {
    match l
    case Outside => 0
    case Entered(_, _) => 6
    case Full(_) => 5
    case Admitted(_) => 4
    case Counted(_) => 3
    case Queued => 2
    case Ticket(_) => 1
  }

  function AllPushesLeft(ps: seq<Pusher>): (n: nat) {
    if |ps| == 0 then 0 else AllPushesLeft(ps[..|ps| - 1]) + PushesLeft(ps[|ps| - 1])
  }

  lemma {:induction false} AllStepsLeftUpdate(ws: seq<Worker>, i: nat, l: Worker)
    requires i < |ws|
    ensures AllStepsLeft(ws[i := l]) == AllStepsLeft(ws) - StepsLeft(ws[i]) + StepsLeft(l)
  {
    var n := |ws| - 1;
    if i == n {
      assert ws[i := l][..n] == ws[..n];
    } else {
      assert ws[i := l][..n] == ws[..n][i := l];
      AllStepsLeftUpdate(ws[..n], i, l);
    }
  }

  lemma {:induction false} AllPushesLeftUpdate(ps: seq<Pusher>, i: nat, l: Pusher)
    requires i < |ps|
    ensures AllPushesLeft(ps[i := l]) == AllPushesLeft(ps) - PushesLeft(ps[i]) + PushesLeft(l)
  {
    var n := |ps| - 1;
    if i == n {
      assert ps[i := l][..n] == ps[..n];
    } else {
      assert ps[i := l][..n] == ps[..n][i := l];
      AllPushesLeftUpdate(ps[..n], i, l);
    }
  }

  function SignalsLeft(s: State): (n: nat) {
    if s.stopper.Signalling? && s.stopper.slot < |s.slots| then |s.slots| - s.stopper.slot else 0
  }

  function Distance(s: State): (n: nat) {
    AllStepsLeft(s.workers) + AllPushesLeft(s.pushers) + SignalsLeft(s)
  }

  /** Stop has been called; producers may still be anywhere in PushWorkItem. */
  predicate Stopping(s: State) {
    Inv(s) && !s.run
  }

  /** A step that leads on: not one that goes to sleep, wakes for nothing, or waits for room. */
  predicate Useful(s: State, a: Action)
    requires Shape(s) && Enabled(s, a)
  {
    match a
    case WorkerStep(w) => Waits(s.workers[w]) ==> s.slots[s.workers[w].slot] > 0
    case PusherStep(p, _) => !s.pushers[p].Full?
    case JoinSignal(_) => true
    case _ => false
  }

  lemma SignalKeepsDistance(s: State, slot: nat, wake: nat)
    requires slot < |s.slots| && WakeOk(s, slot, wake)
    ensures AllStepsLeft(Signal(s, slot, wake).workers) == AllStepsLeft(s.workers)
  {
    if wake < |s.workers| && s.workers[wake] == Asleep(slot) {
      AllStepsLeftUpdate(s.workers, wake, Woken(slot));
    }
  }

  /** Every useful step brings shutdown closer to its end. */
  lemma UsefulStepsCount(s: State, a: Action)
    requires Stopping(s) && Shape(s) && Enabled(s, a) && Useful(s, a)
    ensures Stopping(Exec(s, a)) && Distance(Exec(s, a)) < Distance(s)
  {
    hide Inv, AllStepsLeft, AllPushesLeft;
    StepKeepsInv(s, a);
    match a
    case WorkerStep(w) => AllStepsLeftUpdate(s.workers, w, Exec(s, a).workers[w]);
    case PusherStep(p, wake) =>
      AllPushesLeftUpdate(s.pushers, p, Exec(s, a).pushers[p]);
      if s.pushers[p].Ticket? {
        SignalKeepsDistance(s, s.pushers[p].slot, wake);
      }
    case JoinSignal(wake) => SignalKeepsDistance(s, s.stopper.slot, wake);
  }

  /** No step sets it back: not a spurious wake-up, nor a push that is refused, waits or gets its room. */
  lemma NoStepSetsBack(s: State, a: Action)
    requires Stopping(s) && Shape(s) && Enabled(s, a)
    ensures Stopping(Exec(s, a)) && Distance(Exec(s, a)) <= Distance(s)
  {
    hide Inv, AllStepsLeft, AllPushesLeft;
    if Useful(s, a) {
      UsefulStepsCount(s, a);
    } else {
      StepKeepsInv(s, a);
      match a
      case WorkerStep(w) => AllStepsLeftUpdate(s.workers, w, Exec(s, a).workers[w]);
      case SpuriousWakeup(w) => AllStepsLeftUpdate(s.workers, w, Exec(s, a).workers[w]);
      case PusherStep(p, wake) => AllPushesLeftUpdate(s.pushers, p, Exec(s, a).pushers[p]);
      case _ =>
    }
  }

  // ----- Somebody can always move ---------------------------------------------------------------

  lemma {:induction false} SomeWorker(ws: seq<Worker>, k: WKind) returns (i: nat)
    requires W(ws, k) > 0
    ensures i < |ws| && IsW(k, ws[i])
  {
    var n := |ws| - 1;
    if IsW(k, ws[n]) {
      i := n;
    } else {
      i := SomeWorker(ws[..n], k);
    }
  }

  lemma {:induction false} SomePusher(ps: seq<Pusher>, k: PKind) returns (i: nat)
    requires P(ps, k) > 0
    ensures i < |ps| && IsP(k, ps[i])
  {
    var n := |ps| - 1;
    if IsP(k, ps[n]) {
      i := n;
    } else {
      i := SomePusher(ps[..n], k);
    }
  }

  /** A signal finds a sleeper, if there is one. */
  lemma Sleeper(s: State, slot: nat) returns (wake: nat)
    ensures WakeOk(s, slot, wake)
  {
    if w: nat :| w < |s.workers| && s.workers[w] == Asleep(slot) {
      wake := w;
    } else {
      wake := 0;
    }
  }

  /** What a worker that waits is waiting for, once Join has signalled: a token that a woken worker of
      the same slot can take, or one that a producer is about to give. */
  lemma WaitsForSomeone(s: State, w: nat) returns (a: Action)
    requires Stopping(s) && s.stopper.Joining? && w < |s.workers| && Waits(s.workers[w]) && Shape(s)
    ensures Enabled(s, a) && Useful(s, a)
    ensures var j := s.workers[w].slot;
            || (a == WorkerStep(w) && s.slots[j] > 0)
            || (a.WorkerStep? && s.workers[a.w] == Woken(j) && s.slots[j] > 0 && s.workers[w] == Asleep(j))
            || (a.PusherStep? && s.pushers[a.p] == Ticket(j) && s.slots[j] == 0)
  {
    hide W, P, Sum, Tickets, TokensAdd, WaitersAdd, TotalsAdd, Reserved, SizeCount;
    var j := s.workers[w].slot;
    JoinCoversEveryWaiter(s, j);
    CountsMember(s.workers, w, WUnserved(j));
    if s.slots[j] == 0 {
      var p := SomePusher(s.pushers, PTicket(j));
      var wake := Sleeper(s, j);
      a := PusherStep(p, wake);
    } else if s.workers[w].Asleep? {
      CountsMember(s.workers, w, WAsleep(j));
      var v := SomeWorker(s.workers, WWoken(j));
      a := WorkerStep(v);
    } else {
      a := WorkerStep(w);
    }
  }

  /** From Stop on, as long as a worker is left, some useful step can be made at once: no worker is
      stuck, whatever producers are in the middle of, or wait for. */
  lemma ShutdownNeverSticks(s: State, w: nat) returns (a: Action)
    requires Stopping(s) && w < |s.workers| && !s.workers[w].Exited?
    ensures Shape(s) && Enabled(s, a) && Useful(s, a)
    ensures s.stopper.Joining? && !Waits(s.workers[w]) ==> a == WorkerStep(w)
  {
    hide W, P, Sum, Tickets, TokensAdd, WaitersAdd, TotalsAdd, SizeCount;
    if s.stopper.Signalling? {
      var wake := Sleeper(s, s.stopper.slot);
      a := JoinSignal(wake);
    } else if Waits(s.workers[w]) {
      a := WaitsForSomeone(s, w);
    } else {
      a := WorkerStep(w);
      if s.workers[w].Spin? {
        CountsMember(s.workers, w, WSpin);
      }
    }
  }

  predicate Steps(ss: seq<State>, acts: seq<Action>) {
    && |ss| == |acts| + 1
    && (forall i :: 0 <= i < |acts| ==>
          Shape(ss[i]) && Enabled(ss[i], acts[i]) && ss[i + 1] == Exec(ss[i], acts[i]))
  }

  /** So Join returns: within the distance, useful steps lead to a state in which every worker has exited,
      and that a run of useful steps can only end there. */
  lemma {:induction false} ShutdownCompletes(s: State) returns (ss: seq<State>, acts: seq<Action>)
    requires Stopping(s)
    ensures Steps(ss, acts) && ss[0] == s && |acts| <= Distance(s)
    ensures forall i :: 0 <= i < |acts| ==> Useful(ss[i], acts[i])
    ensures forall w :: 0 <= w < |ss[|acts|].workers| ==> ss[|acts|].workers[w].Exited?
    decreases Distance(s)
  {
    hide Inv, Exec, Distance, Useful;
    InvHasShape(s);
    if w: nat :| w < |s.workers| && !s.workers[w].Exited? {
      var a := ShutdownNeverSticks(s, w);
      UsefulStepsCount(s, a);
      var rest, more := ShutdownCompletes(Exec(s, a));
      ss, acts := [s] + rest, [a] + more;
    } else {
      ss, acts := [s], [];
    }
  }

  /** How many useful steps a run makes. */
  ghost function UsefulSteps(ss: seq<State>, acts: seq<Action>): (n: nat)
    requires Steps(ss, acts)
    decreases |acts|
  {
    if |acts| == 0 then 0
    else UsefulSteps(ss[1..], acts[1..]) + if Useful(ss[0], acts[0]) then 1 else 0
  }

  /** Every run after Stop, with any spurious wake-ups and any producers, makes no more useful steps than
      the distance it started with. */
  lemma {:induction false} UsefulStepsAreBounded(ss: seq<State>, acts: seq<Action>)
    requires Steps(ss, acts) && Stopping(ss[0])
    ensures Stopping(ss[|acts|]) && UsefulSteps(ss, acts) + Distance(ss[|acts|]) <= Distance(ss[0])
    decreases |acts|
  {
    hide Inv, Exec, Distance, Useful;
    if |acts| > 0 {
      if Useful(ss[0], acts[0]) {
        UsefulStepsCount(ss[0], acts[0]);
      } else {
        NoStepSetsBack(ss[0], acts[0]);
      }
      UsefulStepsAreBounded(ss[1..], acts[1..]);
    }
  }

  // ----- What Stop leaves behind ----------------------------------------------------------------

  /** Items in the queue or on their way into it that no worker will take: a worker that is not yet in
      its pop loop when the pool stops exits instead. */
  function Doomed(s: State): (n: int) {
    |s.queue| - W(s.workers, WSpin) + P(s.pushers, PEntering)
  }

  /** A producer that was let in, or waited, finds room. */
  predicate Admits(s: State, a: Action)
    requires Shape(s) && Enabled(s, a)
  {
    a.PusherStep? && IsP(PWaiting, s.pushers[a.p]) && s.curSize <= s.limit
  }

  lemma SignalKeepsSpinners(s: State, slot: nat, wake: nat)
    requires slot < |s.slots| && WakeOk(s, slot, wake)
    ensures W(Signal(s, slot, wake).workers, WSpin) == W(s.workers, WSpin)
  {
    if wake < |s.workers| && s.workers[wake] == Asleep(slot) {
      WUpdate(s.workers, wake, Woken(slot), WSpin);
    }
  }

  lemma StepKeepsDoomed(s: State, a: Action)
    requires Stopping(s) && Shape(s) && Enabled(s, a)
    ensures Stopping(Exec(s, a)) && Doomed(Exec(s, a)) == Doomed(s) + if Admits(s, a) then 1 else 0
  {
    hide Inv, W, P;
    StepKeepsInv(s, a);
    match a
    case WorkerStep(w) => WUpdate(s.workers, w, Exec(s, a).workers[w], WSpin);
    case SpuriousWakeup(w) => WUpdate(s.workers, w, Exec(s, a).workers[w], WSpin);
    case PusherStep(p, wake) =>
      PUpdate(s.pushers, p, Exec(s, a).pushers[p], PEntering);
      if s.pushers[p].Ticket? {
        SignalKeepsSpinners(s, s.pushers[p].slot, wake);
      }
    case JoinSignal(wake) => SignalKeepsSpinners(s, s.stopper.slot, wake);
    case _ =>
  }

  ghost function Admissions(ss: seq<State>, acts: seq<Action>): (n: nat)
    requires Steps(ss, acts)
    decreases |acts|
  {
    if |acts| == 0 then 0
    else Admissions(ss[1..], acts[1..]) + if Admits(ss[0], acts[0]) then 1 else 0
  }

  lemma {:induction false} RunsKeepDoomed(ss: seq<State>, acts: seq<Action>)
    requires Steps(ss, acts) && Stopping(ss[0])
    ensures Stopping(ss[|acts|]) && Doomed(ss[|acts|]) == Doomed(ss[0]) + Admissions(ss, acts)
    decreases |acts|
  {
    hide Inv, Exec, Doomed, Admits;
    if |acts| > 0 {
      StepKeepsDoomed(ss[0], acts[0]);
      RunsKeepDoomed(ss[1..], acts[1..]);
    }
  }

  /** When all workers have exited and all producers have returned, the items left in the queue are those
      that were doomed when the pool stopped, and one for each producer that found room since. Nothing
      is left if and only if there were none of either. At most those producers can find room that were
      past the first test when the pool stopped and not past the second. */
  lemma LeftoverExactly(ss: seq<State>, acts: seq<Action>)
    requires Steps(ss, acts) && Stopping(ss[0])
    requires forall w :: 0 <= w < |ss[|acts|].workers| ==> ss[|acts|].workers[w].Exited?
    requires forall p :: 0 <= p < |ss[|acts|].pushers| ==> ss[|acts|].pushers[p].Outside?
    ensures |ss[|acts|].queue| == Doomed(ss[0]) + Admissions(ss, acts)
    ensures ss[|acts|].queue == [] <==> Doomed(ss[0]) == 0 && Admissions(ss, acts) == 0
    ensures 0 <= Admissions(ss, acts) <= P(ss[0].pushers, PWaiting)
  {
    hide W, P, Inv, Exec, Enabled, Shape, Admissions;
    RunsKeepDoomed(ss, acts);
    NobodyCounts(ss[|acts|].workers, WSpin);
    NobodyPushes(ss[|acts|].pushers, PEntering);
    SpinnersAreServed(ss[0]);
    OnlyTheWaitingEnter(ss, acts);
  }

  lemma SpinnersAreServed(s: State)
    requires Inv(s)
    ensures Doomed(s) >= 0
  {
  }

  /** Stop with no producer inside leaves exactly the items beyond those of the spinning workers. */
  lemma QuietLeftoverExactly(ss: seq<State>, acts: seq<Action>)
    requires Steps(ss, acts) && Stopping(ss[0])
    requires forall p :: 0 <= p < |ss[0].pushers| ==> ss[0].pushers[p].Outside?
    requires forall w :: 0 <= w < |ss[|acts|].workers| ==> ss[|acts|].workers[w].Exited?
    ensures |ss[|acts|].queue| == |ss[0].queue| - W(ss[0].workers, WSpin)
    ensures ss[|acts|].queue == [] <==> |ss[0].queue| == W(ss[0].workers, WSpin)
  {
    hide W, P, Inv;
    QuietStaysQuiet(ss, acts);
    LeftoverExactly(ss, acts);
    NobodyPushes(ss[0].pushers, PEntering);
    NobodyPushes(ss[0].pushers, PWaiting);
  }

  lemma {:induction false} QuietStaysQuiet(ss: seq<State>, acts: seq<Action>)
    requires Steps(ss, acts) && Stopping(ss[0])
    requires forall p :: 0 <= p < |ss[0].pushers| ==> ss[0].pushers[p].Outside?
    ensures forall p :: 0 <= p < |ss[|acts|].pushers| ==> ss[|acts|].pushers[p].Outside?
    decreases |acts|
  {
    hide Inv;
    if |acts| > 0 {
      StepKeepsInv(ss[0], acts[0]);
      QuietStaysQuiet(ss[1..], acts[1..]);
    }
  }

  lemma AdmissionLeavesWaiting(s: State, a: Action)
    requires Stopping(s) && Shape(s) && Enabled(s, a)
    ensures P(Exec(s, a).pushers, PWaiting) + (if Admits(s, a) then 1 else 0) <= P(s.pushers, PWaiting)
  {
    hide Inv, P;
    if a.PusherStep? {
      PUpdate(s.pushers, a.p, Exec(s, a).pushers[a.p], PWaiting);
    }
  }

  /** A stopped pool lets no more producers in, so only those already inside can find room, each once. */
  lemma {:induction false} OnlyTheWaitingEnter(ss: seq<State>, acts: seq<Action>)
    requires Steps(ss, acts) && Stopping(ss[0])
    ensures Admissions(ss, acts) + P(ss[|acts|].pushers, PWaiting) <= P(ss[0].pushers, PWaiting)
    decreases |acts|
  {
    hide Inv, P, Exec, Enabled, Admits;
    if |acts| > 0 {
      StepKeepsInv(ss[0], acts[0]);
      StoppedStays(ss[0], acts[0]);
      AdmissionLeavesWaiting(ss[0], acts[0]);
      OnlyTheWaitingEnter(ss[1..], acts[1..]);
    }
  }

  lemma StoppedStays(s: State, a: Action)
    requires Shape(s) && Enabled(s, a) && !s.run
    ensures !Exec(s, a).run
  {
  }

  predicate Moves(s: State, a: Action, s': State) {
    Shape(s) && Enabled(s, a) && s' == Exec(s, a)
  }

  /** A pool of one worker and one producer that has been given an item; stage is how far the push is. */
  function Given(item: Item, stage: Pusher): State {
    State(true, [if stage.Outside? then 1 else 0], if stage.Ticket? || stage.Outside? then 1 else 0, 0,
          if stage.Entered? || stage.Admitted? then 0 else 1, 10,
          if stage.Entered? || stage.Admitted? || stage.Counted? then [] else [item],
          [TakeTicket], [stage], NotCalled, [0])
  }

  lemma GiveItem(item: Item)
    ensures Moves(Given(item, Entered(item, false)), PusherStep(0, 0), Given(item, Admitted(item)))
    ensures Moves(Given(item, Admitted(item)), PusherStep(0, 0), Given(item, Counted(item)))
    ensures Moves(Given(item, Counted(item)), PusherStep(0, 0), Given(item, Queued))
  {
    assert [] + [item] == [item];
  }

  lemma GiveToken(item: Item)
    ensures Moves(Given(item, Queued), PusherStep(0, 0), Given(item, Ticket(0)))
    ensures Moves(Given(item, Ticket(0)), PusherStep(0, 0), Given(item, Outside))
  {
  }

  /** The same pool after Stop and Join; stage is how far its worker is. */
  function Stopped(item: Item, stage: Worker): State {
    State(false, [if stage.Served? || stage.Exited? then 1 else 2],
          1, if stage.TakeTicket? then 0 else 1, 1, 10, [item],
          [stage], [Outside], Joining, [if stage.Served? || stage.Exited? then 1 else 0])
  }

  lemma WorkerExits(item: Item)
    ensures Moves(Stopped(item, TakeTicket), WorkerStep(0), Stopped(item, Arrive(0)))
    ensures Moves(Stopped(item, Arrive(0)), WorkerStep(0), Stopped(item, Served))
    ensures Moves(Stopped(item, Served), WorkerStep(0), Stopped(item, Exited))
  {
  }

  lemma StopAndJoin(item: Item)
    ensures var s := Given(item, Outside).(run := false, stopper := Signalling(0));
            Moves(Given(item, Outside), CallStop, s) && Moves(s, JoinSignal(0), Stopped(item, TakeTicket))
  {
  }

  lemma FirstPush(item: Item) returns (s: State)
    ensures Init(s) && Moves(s, CallPush(0, item, false), Given(item, Entered(item, false)))
  {
    s := State(true, [0], 0, 0, 0, 10, [], [TakeTicket], [Outside], NotCalled, [0]);
  }

  /** One item is pushed, and the pool stops before its worker has looked for it: the item stays. */
  lemma StopLeavesAnItem(item: Item) returns (ss: seq<State>, acts: seq<Action>)
    ensures Run(ss, acts) && ss[|acts|].queue == [item] && ss[|acts|].stopper.Joining?
    ensures ss[|acts|].workers == [Exited] && ss[|acts|].pushers == [Outside]
  {
    hide Shape, Enabled, Exec, Init, Moves, Given;
    var s0 := FirstPush(item);
    GiveItem(item);
    GiveToken(item);
    StopAndJoin(item);
    WorkerExits(item);
    var s6 := Given(item, Outside);
    ss := [s0, Given(item, Entered(item, false)), Given(item, Admitted(item)), Given(item, Counted(item)),
           Given(item, Queued), Given(item, Ticket(0)), s6,
           s6.(run := false, stopper := Signalling(0)), Stopped(item, TakeTicket), Stopped(item, Arrive(0)),
           Stopped(item, Served), Stopped(item, Exited)];
    acts := [CallPush(0, item, false), PusherStep(0, 0), PusherStep(0, 0), PusherStep(0, 0), PusherStep(0, 0),
             PusherStep(0, 0), CallStop, JoinSignal(0), WorkerStep(0), WorkerStep(0), WorkerStep(0)];
    MovesMakeRun(ss, acts);
  }

  /** A pool that stopped with a producer behind its first test; worker and stage say how far each is. */
  function Caught(item: Item, worker: Worker, stage: Pusher): State {
    State(false, [if worker.TakeTicket? || worker.Arrive? || stage.Outside? then 1 else 0],
          if stage.Ticket? || stage.Outside? then 1 else 0, if worker.TakeTicket? then 0 else 1,
          if stage.Entered? || stage.Admitted? then 0 else 1, 10,
          if stage.Entered? || stage.Admitted? || stage.Counted? then [] else [item],
          [worker], [stage], Joining, [if worker.Served? || worker.Exited? then 1 else 0])
  }

  lemma CaughtWorkerExits(item: Item)
    ensures var e := Entered(item, false);
            && Moves(Caught(item, TakeTicket, e), WorkerStep(0), Caught(item, Arrive(0), e))
            && Moves(Caught(item, Arrive(0), e), WorkerStep(0), Caught(item, Served, e))
            && Moves(Caught(item, Served, e), WorkerStep(0), Caught(item, Exited, e))
  {
  }

  lemma CaughtPushGoesOn(item: Item)
    ensures Moves(Caught(item, Exited, Entered(item, false)), PusherStep(0, 0), Caught(item, Exited, Admitted(item)))
    ensures Moves(Caught(item, Exited, Admitted(item)), PusherStep(0, 0), Caught(item, Exited, Counted(item)))
    ensures Moves(Caught(item, Exited, Counted(item)), PusherStep(0, 0), Caught(item, Exited, Queued))
  {
    assert [] + [item] == [item];
  }

  lemma CaughtPushReturns(item: Item)
    ensures Moves(Caught(item, Exited, Queued), PusherStep(0, 0), Caught(item, Exited, Ticket(0)))
    ensures Moves(Caught(item, Exited, Ticket(0)), PusherStep(0, 0), Caught(item, Exited, Outside))
  {
  }

  lemma StopCatches(item: Item)
    ensures var g := Given(item, Entered(item, false)); var s := g.(run := false, stopper := Signalling(0));
            && Moves(g, CallStop, s) && Moves(s, JoinSignal(0), Caught(item, TakeTicket, Entered(item, false)))
            && Doomed(s) == 0 && s.queue == []
  {
    hide W, P;
    NobodyCounts([TakeTicket], WSpin);
    NobodyPushes([Entered(item, false)], PEntering);
  }

  /** The queue is empty when the pool stops, and nobody waits for room, and yet an item stays: that of a
      producer caught between its two tests. */
  lemma CaughtPushLeavesAnItem(item: Item) returns (ss: seq<State>, acts: seq<Action>)
    ensures Run(ss, acts) && |acts| > 2 && acts[1] == CallStop
    ensures Doomed(ss[2]) == 0 && ss[2].queue == [] && ss[2].pushers == [Entered(item, false)]
    ensures var s := ss[|acts|]; s.workers == [Exited] && s.pushers == [Outside] && s.queue == [item]
  {
    hide Shape, Enabled, Exec, Init, Moves, Doomed;
    var s0 := FirstPush(item);
    var e := Entered(item, false);
    var g := Given(item, e);
    StopCatches(item);
    CaughtWorkerExits(item);
    CaughtPushGoesOn(item);
    CaughtPushReturns(item);
    ss := [s0, g, g.(run := false, stopper := Signalling(0)), Caught(item, TakeTicket, e), Caught(item, Arrive(0), e),
           Caught(item, Served, e), Caught(item, Exited, e), Caught(item, Exited, Admitted(item)),
           Caught(item, Exited, Counted(item)), Caught(item, Exited, Queued), Caught(item, Exited, Ticket(0)),
           Caught(item, Exited, Outside)];
    acts := [CallPush(0, item, false), CallStop, JoinSignal(0), WorkerStep(0), WorkerStep(0), WorkerStep(0),
             PusherStep(0, 0), PusherStep(0, 0), PusherStep(0, 0), PusherStep(0, 0), PusherStep(0, 0)];
    MovesMakeRun(ss, acts);
  }

  lemma MovesMakeRun(ss: seq<State>, acts: seq<Action>)
    requires |ss| == |acts| + 1 && Init(ss[0]) && forall i :: 0 <= i < |acts| ==> Moves(ss[i], acts[i], ss[i + 1])
    ensures Run(ss, acts)
  {
    hide Shape, Enabled, Exec, Init;
    forall i | 0 <= i < |acts| ensures Shape(ss[i]) && Enabled(ss[i], acts[i]) && ss[i + 1] == Exec(ss[i], acts[i]) {
      assert Moves(ss[i], acts[i], ss[i + 1]);
    }
  }
}
