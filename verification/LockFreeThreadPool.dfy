/** The token protocol of the lock-free thread pool as a step system.

    One counting semaphore per worker; producers signal them and workers wait on them round-robin,
    each side following its own ever-growing index. The work-item queue is taken as an atomic
    first-in first-out queue, which LockFreeQueueLinearizability justifies. No auto-scaler. */
module LockFreeThreadPool {

  type Item = int

  /** Program points of WorkerRoutine. Arrive, Asleep and Woken are inside waitCounted. */
  datatype Worker =
    | TakeTicket
    | Arrive(slot: nat)
    | Asleep(slot: nat)
    | Woken(slot: nat)
    | Served
    | Spin
    | Working(item: Item)
    | Exited

  /** Program points of PushWorkItem. Entered is behind the test whether the pool runs, Full in the loop
      that waits for room. */
  datatype Pusher =
    | Outside
    | Entered(item: Item, isBlocked: bool)
    | Full(item: Item)
    | Admitted(item: Item)
    | Counted(item: Item)
    | Queued
    | Ticket(slot: nat)

  /** Stop and Join: not called, about to signal a slot, or waiting for the threads. */
  datatype Stopper = NotCalled | Signalling(slot: nat) | Joining

  /** consumed counts the tokens taken from each slot; no step reads it. */
  datatype State = State(
    run: bool, slots: seq<nat>, notifyIndex: nat, waitIndex: nat, curSize: int, limit: nat,
    queue: seq<Item>, workers: seq<Worker>, pushers: seq<Pusher>, stopper: Stopper,
    consumed: seq<nat>)

  /** Which thread moves; a signal names the sleeper it wakes. */
  datatype Action =
    | WorkerStep(w: nat)
    | SpuriousWakeup(w: nat)
    | CallPush(p: nat, item: Item, isBlocked: bool)
    | PusherStep(p: nat, wake: nat)
    | CallStop
    | JoinSignal(wake: nat)

  predicate Init(s: State) {
    && s.run && |s.slots| == |s.workers| == |s.consumed| > 0
    && (forall j :: 0 <= j < |s.slots| ==> s.slots[j] == 0 && s.consumed[j] == 0)
    && (forall w :: 0 <= w < |s.workers| ==> s.workers[w] == TakeTicket)
    && (forall p :: 0 <= p < |s.pushers| ==> s.pushers[p] == Outside)
    && s.notifyIndex == s.waitIndex == 0 && s.curSize == 0 && s.queue == [] && s.stopper == NotCalled
  }

  /** The sizes and indices that every step relies on. */
  predicate Shape(s: State) {
    && |s.slots| == |s.workers| == |s.consumed| > 0
    && (forall w :: 0 <= w < |s.workers| ==>
          match s.workers[w]
          case Arrive(j) => j < |s.slots|
          case Asleep(j) => j < |s.slots|
          case Woken(j) => j < |s.slots|
          case _ => true)
    && (forall p :: 0 <= p < |s.pushers| ==> (s.pushers[p].Ticket? ==> s.pushers[p].slot < |s.slots|))
    && (s.stopper.Signalling? ==> s.stopper.slot < |s.slots|)
  }

  predicate NobodySleeps(s: State, slot: nat) {
    forall w :: 0 <= w < |s.workers| ==> s.workers[w] != Asleep(slot)
  }

  /** signalCounted wakes one sleeper of the slot if there is one. */
  predicate WakeOk(s: State, slot: nat, wake: nat) {
    (wake < |s.workers| && s.workers[wake] == Asleep(slot)) || NobodySleeps(s, slot)
  }

  /** signalCounted, under the slot's lock. */
  function Signal(s: State, slot: nat, wake: nat): State
    requires slot < |s.slots| && WakeOk(s, slot, wake)
  {
    var n := s.(slots := s.slots[slot := s.slots[slot] + 1]);
    if wake < |s.workers| && s.workers[wake] == Asleep(slot) then
      n.(workers := s.workers[wake := Woken(slot)])
    else n
  }

  predicate Enabled(s: State, a: Action)
    requires Shape(s)
  {
    match a
    case WorkerStep(w) =>
      && w < |s.workers| && !s.workers[w].Exited? && !s.workers[w].Asleep?
      && (s.workers[w].Spin? ==> |s.queue| > 0)
    case SpuriousWakeup(w) => w < |s.workers| && s.workers[w].Asleep?
    case CallPush(p, _, _) => p < |s.pushers| && s.pushers[p].Outside?
    case PusherStep(p, wake) =>
      && p < |s.pushers| && !s.pushers[p].Outside?
      && (s.pushers[p].Ticket? ==> WakeOk(s, s.pushers[p].slot, wake))
    case CallStop => true
    case JoinSignal(wake) => s.stopper.Signalling? && WakeOk(s, s.stopper.slot, wake)
  }

  function SetWorker(s: State, w: nat, l: Worker): State
    requires w < |s.workers|
  {
    s.(workers := s.workers[w := l])
  }

  function SetPusher(s: State, p: nat, l: Pusher): State
    requires p < |s.pushers|
  {
    s.(pushers := s.pushers[p := l])
  }

  /** waitCounted under the slot's lock: take a token, or go to sleep if there is none. */
  function WaitStep(s: State, w: nat, slot: nat): State
    requires Shape(s) && w < |s.workers| && slot < |s.slots|
  {
    if s.slots[slot] > 0 then
      SetWorker(s, w, Served).(
        slots := s.slots[slot := s.slots[slot] - 1],
        consumed := s.consumed[slot := s.consumed[slot] + 1])
    else
      SetWorker(s, w, Asleep(slot))
  }

  function DoWorker(s: State, w: nat): State
    requires Shape(s) && Enabled(s, WorkerStep(w))
  {
    match s.workers[w]
    case TakeTicket =>
      SetWorker(s, w, Arrive((s.waitIndex + 1) % |s.slots|)).(waitIndex := s.waitIndex + 1)
    case Arrive(slot) => WaitStep(s, w, slot)
    case Woken(slot) => WaitStep(s, w, slot)
    case Served => SetWorker(s, w, if s.run then Spin else Exited)
    case Spin => SetWorker(s, w, Working(s.queue[0])).(queue := s.queue[1..])
    case Working(_) => SetWorker(s, w, TakeTicket).(curSize := s.curSize - 1)
    case _ => s
  }

  function DoPusher(s: State, p: nat, wake: nat): State
    requires Shape(s) && Enabled(s, PusherStep(p, wake))
  {
    match s.pushers[p]
    case Entered(item, isBlocked) =>
      SetPusher(s, p, if s.curSize <= s.limit then Admitted(item) else if isBlocked then Full(item) else Outside)
    case Full(item) => if s.curSize > s.limit then s else SetPusher(s, p, Admitted(item))
    case Admitted(item) => SetPusher(s, p, Counted(item)).(curSize := s.curSize + 1)
    case Counted(item) => SetPusher(s, p, Queued).(queue := s.queue + [item])
    case Queued =>
      SetPusher(s, p, Ticket((s.notifyIndex + 1) % |s.slots|)).(notifyIndex := s.notifyIndex + 1)
    case Ticket(slot) => SetPusher(Signal(s, slot, wake), p, Outside)
    case Outside => s
  }

  function DoCallPush(s: State, p: nat, item: Item, isBlocked: bool): State
    requires Shape(s) && p < |s.pushers|
  {
    if s.run then SetPusher(s, p, Entered(item, isBlocked)) else s
  }

  /** Stop lets one caller through; the flag is cleared before any slot is signalled. */
  function DoStop(s: State): State
    requires Shape(s)
  {
    if s.run then s.(run := false, stopper := Signalling(0)) else s
  }

  function DoJoinSignal(s: State, wake: nat): State
    requires Shape(s) && Enabled(s, JoinSignal(wake))
  {
    var j := s.stopper.slot;
    Signal(s, j, wake).(stopper := if j + 1 < |s.slots| then Signalling(j + 1) else Joining)
  }

  function Exec(s: State, a: Action): State
    requires Shape(s) && Enabled(s, a)
  {
    match a
    case WorkerStep(w) => DoWorker(s, w)
    case SpuriousWakeup(w) => SetWorker(s, w, Woken(s.workers[w].slot))
    case CallPush(p, item, isBlocked) => DoCallPush(s, p, item, isBlocked)
    case PusherStep(p, wake) => DoPusher(s, p, wake)
    case CallStop => DoStop(s)
    case JoinSignal(wake) => DoJoinSignal(s, wake)
  }
}
