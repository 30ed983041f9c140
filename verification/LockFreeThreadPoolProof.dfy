/** What every run of the thread pool keeps: tokens are reserved items, no wake-up is lost, and
    shutdown reaches every worker. */
module LockFreeThreadPoolProof {
  import opened LockFreeThreadPool

  // ----- Counting ------------------------------------------------------------------------------

  /** Classes of workers to count. */
  datatype WKind = WAsleep(j: nat) | WWoken(j: nat) | WUnserved(j: nat) | WAnyUnserved | WServed | WSpin
                 | WWorking | WFree | WExited

  predicate Waits(l: Worker) {
    l.Arrive? || l.Asleep? || l.Woken?
  }

  predicate IsW(k: WKind, l: Worker) {
    match k
    case WAsleep(j) => l == Asleep(j)
    case WWoken(j) => l == Woken(j)
    case WUnserved(j) => Waits(l) && l.slot == j
    case WAnyUnserved => Waits(l)
    case WServed => l.Served?
    case WSpin => l.Spin?
    case WWorking => l.Working?
    case WFree => l.TakeTicket? || l.Spin? || l.Working?
    case WExited => l.Exited?
  }

  function W(ws: seq<Worker>, k: WKind): (n: nat)
    ensures n <= |ws|
  {
    if |ws| == 0 then 0 else W(ws[..|ws| - 1], k) + if IsW(k, ws[|ws| - 1]) then 1 else 0
  }

  datatype PKind = PTicket(j: nat) | PAnyTicket | PQueued | PCounted | PEntering | PWaiting

  predicate IsP(k: PKind, l: Pusher) {
    match k
    case PTicket(j) => l == Ticket(j)
    case PAnyTicket => l.Ticket?
    case PQueued => l.Queued?
    case PCounted => l.Counted?
    case PEntering => l.Admitted? || l.Counted?
    case PWaiting => l.Entered? || l.Full?
  }

  function P(ps: seq<Pusher>, k: PKind): (n: nat) {
    if |ps| == 0 then 0 else P(ps[..|ps| - 1], k) + if IsP(k, ps[|ps| - 1]) then 1 else 0
  }

  function Sum(xs: seq<nat>): (n: nat) {
    if |xs| == 0 then 0 else Sum(xs[..|xs| - 1]) + xs[|xs| - 1]
  }

  /** How many of the tickets 1..n fall on slot j of m. */
  function Tickets(n: nat, j: nat, m: nat): (c: nat)
    requires m > 0
  {
    if n == 0 then 0 else Tickets(n - 1, j, m) + if n % m == j then 1 else 0
  }

  lemma {:induction false} WUpdate(ws: seq<Worker>, i: nat, l: Worker, k: WKind)
    requires i < |ws|
    ensures W(ws[i := l], k) == W(ws, k) - (if IsW(k, ws[i]) then 1 else 0) + (if IsW(k, l) then 1 else 0)
  {
    var n := |ws| - 1;
    if i == n {
      assert ws[i := l][..n] == ws[..n];
    } else {
      assert ws[i := l][..n] == ws[..n][i := l];
      WUpdate(ws[..n], i, l, k);
    }
  }

  lemma WUpdates(ws: seq<Worker>, i: nat, l: Worker)
    requires i < |ws|
    ensures forall k :: W(ws[i := l], k) ==
                        W(ws, k) - (if IsW(k, ws[i]) then 1 else 0) + (if IsW(k, l) then 1 else 0)
  {
    forall k ensures W(ws[i := l], k) ==
                     W(ws, k) - (if IsW(k, ws[i]) then 1 else 0) + (if IsW(k, l) then 1 else 0)
    {
      WUpdate(ws, i, l, k);
    }
  }

  lemma {:induction false} PUpdate(ps: seq<Pusher>, i: nat, l: Pusher, k: PKind)
    requires i < |ps|
    ensures P(ps[i := l], k) == P(ps, k) - (if IsP(k, ps[i]) then 1 else 0) + (if IsP(k, l) then 1 else 0)
  {
    var n := |ps| - 1;
    if i == n {
      assert ps[i := l][..n] == ps[..n];
    } else {
      assert ps[i := l][..n] == ps[..n][i := l];
      PUpdate(ps[..n], i, l, k);
    }
  }

  lemma PUpdates(ps: seq<Pusher>, i: nat, l: Pusher)
    requires i < |ps|
    ensures forall k :: P(ps[i := l], k) ==
                        P(ps, k) - (if IsP(k, ps[i]) then 1 else 0) + (if IsP(k, l) then 1 else 0)
  {
    forall k ensures P(ps[i := l], k) ==
                     P(ps, k) - (if IsP(k, ps[i]) then 1 else 0) + (if IsP(k, l) then 1 else 0)
    {
      PUpdate(ps, i, l, k);
    }
  }

  lemma {:induction false} SumUpdate(xs: seq<nat>, i: nat, x: nat)
    requires i < |xs|
    ensures Sum(xs[i := x]) == Sum(xs) - xs[i] + x
  {
    var n := |xs| - 1;
    if i == n {
      assert xs[i := x][..n] == xs[..n];
    } else {
      assert xs[i := x][..n] == xs[..n][i := x];
      SumUpdate(xs[..n], i, x);
    }
  }

  /** Every worker is waiting, served, free or gone. */
  lemma {:induction false} Partition(ws: seq<Worker>)
    ensures W(ws, WAnyUnserved) + W(ws, WServed) + W(ws, WFree) + W(ws, WExited) == |ws|
  {
    if |ws| > 0 { Partition(ws[..|ws| - 1]); }
  }

  lemma {:induction false} SleepersAreUnserved(ws: seq<Worker>, j: nat)
    ensures W(ws, WAsleep(j)) + W(ws, WWoken(j)) <= W(ws, WUnserved(j))
  {
    if |ws| > 0 { SleepersAreUnserved(ws[..|ws| - 1], j); }
  }

  lemma {:induction false} CountsMember(ws: seq<Worker>, i: nat, k: WKind)
    requires i < |ws| && IsW(k, ws[i])
    ensures W(ws, k) > 0
  {
    if i < |ws| - 1 { CountsMember(ws[..|ws| - 1], i, k); }
  }

  lemma {:induction false} NobodyCounts(ws: seq<Worker>, k: WKind)
    requires forall i :: 0 <= i < |ws| ==> !IsW(k, ws[i])
    ensures W(ws, k) == 0
  {
    if |ws| > 0 { NobodyCounts(ws[..|ws| - 1], k); }
  }

  lemma {:induction false} TicketsMonotone(a: nat, b: nat, j: nat, m: nat)
    requires m > 0 && a <= b
    ensures Tickets(a, j, m) <= Tickets(b, j, m)
    decreases b
  {
    if a < b { TicketsMonotone(a, b - 1, j, m); }
  }

  /** A full round of m tickets gives every slot exactly one. */
  lemma {:induction false} RoundGivesOne(n: nat, j: nat, m: nat)
    requires j < m
    ensures Tickets(n + m, j, m) == Tickets(n, j, m) + 1
  {
    if n == 0 {
      FirstRound(m, j, m);
    } else {
      RoundGivesOne(n - 1, j, m);
      ShiftByModulus(n, m);
    }
  }

  lemma ShiftByModulus(n: nat, m: nat)
    requires m > 0
    ensures (n + m) % m == n % m
  {
    ModIsUnique(n + m, n / m + 1, n % m, m);
  }

  lemma MulGap(a: nat, b: nat, m: nat)
    requires a < b
    ensures b * m >= a * m + m
  {
    assert b * m == (b - a - 1) * m + (a + 1) * m;
  }

  lemma ModIsUnique(n: nat, q: nat, r: nat, m: nat)
    requires r < m && n == q * m + r
    ensures n % m == r
  {
    var q', r' := n / m, n % m;
    if q' < q { MulGap(q', q, m); }
    if q' > q { MulGap(q, q', m); }
  }

  lemma {:induction false} FirstRound(n: nat, j: nat, m: nat)
    requires j < m && n <= m
    ensures Tickets(n, j, m) == if j == 0 then (if n == m then 1 else 0) else if j <= n then 1 else 0
  {
    if n > 0 {
      FirstRound(n - 1, j, m);
      if n < m { ModIsUnique(n, 0, n, m); } else { ModIsUnique(n, 1, 0, m); }
    }
  }

  // ----- The invariant -------------------------------------------------------------------------

  /** The slots Join has signalled. */
  function Joined(s: Stopper, j: nat): (n: nat) {
    match s
    case NotCalled => 0
    case Signalling(i) => if j < i then 1 else 0
    case Joining => 1
  }

  function JoinedTotal(s: State): (n: nat) {
    match s.stopper
    case NotCalled => 0
    case Signalling(i) => i
    case Joining => |s.slots|
  }

  /** Per slot: tokens present, taken and on their way are those ticketed by producers and Join. */
  predicate TokensAdd(s: State)
    requires Shape(s)
  {
    forall j :: 0 <= j < |s.slots| ==>
      s.slots[j] + s.consumed[j] + P(s.pushers, PTicket(j)) ==
      Tickets(s.notifyIndex, j, |s.slots|) + Joined(s.stopper, j)
  }

  /** Per slot: tokens taken and workers still waiting are those ticketed by workers. */
  predicate WaitersAdd(s: State)
    requires Shape(s)
  {
    forall j :: 0 <= j < |s.slots| ==>
      s.consumed[j] + W(s.workers, WUnserved(j)) == Tickets(s.waitIndex, j, |s.slots|)
  }

  predicate TotalsAdd(s: State)
    requires Shape(s)
  {
    && Sum(s.slots) + Sum(s.consumed) + P(s.pushers, PAnyTicket) == s.notifyIndex + JoinedTotal(s)
    && Sum(s.consumed) + W(s.workers, WAnyUnserved) == s.waitIndex
  }

  /** Waiting never gets more than one round ahead of signalling. */
  predicate OneRoundAhead(s: State)
    requires Shape(s)
  {
    s.waitIndex + W(s.workers, WFree) <= s.notifyIndex + |s.slots|
  }

  /** A sleeper is left sleeping only if every token is spoken for by a worker already woken. */
  predicate NoLostWakeup(s: State)
    requires Shape(s)
  {
    forall j :: 0 <= j < |s.slots| && W(s.workers, WAsleep(j)) > 0 ==> s.slots[j] <= W(s.workers, WWoken(j))
  }

  predicate Flags(s: State) {
    && (s.run <==> s.stopper.NotCalled?)
    && (s.run ==> W(s.workers, WExited) == 0)
  }

  /** While the pool runs, every token and every served or spinning worker stands for one queued item. */
  predicate Reserved(s: State)
    requires Shape(s)
  {
    && (s.run ==> |s.queue| == Sum(s.slots) + W(s.workers, WServed) + W(s.workers, WSpin)
                               + P(s.pushers, PQueued) + P(s.pushers, PAnyTicket))
    && |s.queue| >= W(s.workers, WSpin)
  }

  predicate SizeCount(s: State) {
    s.curSize == |s.queue| + P(s.pushers, PCounted) + W(s.workers, WWorking)
  }

  predicate Inv(s: State) {
    && Shape(s) && TokensAdd(s) && WaitersAdd(s) && TotalsAdd(s) && OneRoundAhead(s)
    && NoLostWakeup(s) && Flags(s) && Reserved(s) && SizeCount(s)
  }

  lemma {:induction false} ZeroSum(xs: seq<nat>)
    requires forall i :: 0 <= i < |xs| ==> xs[i] == 0
    ensures Sum(xs) == 0
  {
    if |xs| > 0 { ZeroSum(xs[..|xs| - 1]); }
  }

  lemma {:induction false} NobodyPushes(ps: seq<Pusher>, k: PKind)
    requires forall i :: 0 <= i < |ps| ==> !IsP(k, ps[i])
    ensures P(ps, k) == 0
  {
    if |ps| > 0 { NobodyPushes(ps[..|ps| - 1], k); }
  }

  lemma InitHasInv(s: State)
    requires Init(s)
    ensures Inv(s)
  {
    ZeroSum(s.slots);
    ZeroSum(s.consumed);
    forall k | k != WFree ensures W(s.workers, k) == 0 { NobodyCounts(s.workers, k); }
    forall k ensures P(s.pushers, k) == 0 { NobodyPushes(s.pushers, k); }
    Partition(s.workers);
  }

  // ----- Every step keeps it -------------------------------------------------------------------

  lemma TakeTicketKeepsInv(s: State, w: nat)
    requires Inv(s) && w < |s.workers| && s.workers[w].TakeTicket?
    ensures Inv(DoWorker(s, w))
  {
    hide W, P, Sum;
    WUpdates(s.workers, w, Arrive((s.waitIndex + 1) % |s.slots|));
  }

  lemma TakeTokenPerSlot(s: State, w: nat, slot: nat)
    requires Shape(s) && TokensAdd(s) && WaitersAdd(s) && NoLostWakeup(s)
    requires w < |s.workers| && (s.workers[w] == Arrive(slot) || s.workers[w] == Woken(slot))
    requires s.slots[slot] > 0
    ensures var s' := WaitStep(s, w, slot);
            Shape(s') && TokensAdd(s') && WaitersAdd(s') && NoLostWakeup(s')
  {
    hide W, P, Tickets;
    WUpdates(s.workers, w, Served);
  }

  lemma TakeTokenKeepsInv(s: State, w: nat, slot: nat)
    requires Inv(s) && w < |s.workers| && (s.workers[w] == Arrive(slot) || s.workers[w] == Woken(slot))
    requires s.slots[slot] > 0
    ensures Inv(WaitStep(s, w, slot))
  {
    hide W, P, Sum, Tickets, TokensAdd, WaitersAdd, NoLostWakeup;
    TakeTokenPerSlot(s, w, slot);
    WUpdates(s.workers, w, Served);
    SumUpdate(s.slots, slot, s.slots[slot] - 1);
    SumUpdate(s.consumed, slot, s.consumed[slot] + 1);
  }

  lemma FallAsleepKeepsInv(s: State, w: nat, slot: nat)
    requires Inv(s) && w < |s.workers| && (s.workers[w] == Arrive(slot) || s.workers[w] == Woken(slot))
    requires s.slots[slot] == 0
    ensures Inv(WaitStep(s, w, slot))
  {
    hide W, P, Sum, Tickets;
    WUpdates(s.workers, w, Asleep(slot));
  }

  /** A served worker goes on only while the pool runs, so the round budget still covers it. */
  lemma ServedKeepsInv(s: State, w: nat)
    requires Inv(s) && w < |s.workers| && s.workers[w].Served?
    ensures Inv(DoWorker(s, w))
  {
    hide W, P, Sum;
    WUpdates(s.workers, w, if s.run then Spin else Exited);
    CountsMember(s.workers, w, WServed);
    Partition(s.workers);
  }

  lemma SpinKeepsInv(s: State, w: nat)
    requires Inv(s) && w < |s.workers| && s.workers[w].Spin? && |s.queue| > 0
    ensures Inv(DoWorker(s, w))
  {
    hide W, P, Sum;
    WUpdates(s.workers, w, Working(s.queue[0]));
    CountsMember(s.workers, w, WSpin);
  }

  lemma WorkingKeepsInv(s: State, w: nat)
    requires Inv(s) && w < |s.workers| && s.workers[w].Working?
    ensures Inv(DoWorker(s, w))
  {
    hide W, P, Sum;
    WUpdates(s.workers, w, TakeTicket);
  }

  lemma SpuriousKeepsInv(s: State, w: nat)
    requires Inv(s) && w < |s.workers| && s.workers[w].Asleep?
    ensures Inv(SetWorker(s, w, Woken(s.workers[w].slot)))
  {
    hide W, P, Sum;
    WUpdates(s.workers, w, Woken(s.workers[w].slot));
  }

  lemma WorkerKeepsInv(s: State, w: nat)
    requires Inv(s) && Enabled(s, WorkerStep(w))
    ensures Inv(DoWorker(s, w))
  {
    hide Inv;
    InvHasShape(s);
    match s.workers[w]
    case TakeTicket => TakeTicketKeepsInv(s, w);
    case Arrive(slot) =>
      if s.slots[slot] > 0 {
        TakeTokenKeepsInv(s, w, slot);
      } else {
        FallAsleepKeepsInv(s, w, slot);
      }
    case Woken(slot) => if s.slots[slot] > 0 { TakeTokenKeepsInv(s, w, slot); } else { FallAsleepKeepsInv(s, w, slot); }
    case Served => ServedKeepsInv(s, w);
    case Spin => SpinKeepsInv(s, w);
    case Working(_) => WorkingKeepsInv(s, w);
  }

  lemma InvHasShape(s: State)
    requires Inv(s)
    ensures Shape(s)
  {
  }

  /** Any signal, seen as one more token plus at most one sleeper woken. */
  lemma SignalFacts(s: State, slot: nat, wake: nat)
    requires Shape(s) && NoLostWakeup(s) && slot < |s.slots| && WakeOk(s, slot, wake)
    ensures var s' := Signal(s, slot, wake);
            && Shape(s') && NoLostWakeup(s')
            && Sum(s'.slots) == Sum(s.slots) + 1
            && (forall k: WKind | !k.WAsleep? && !k.WWoken? :: W(s'.workers, k) == W(s.workers, k))
  {
    hide W, Sum;
    SumUpdate(s.slots, slot, s.slots[slot] + 1);
    if wake < |s.workers| && s.workers[wake] == Asleep(slot) {
      WUpdates(s.workers, wake, Woken(slot));
    } else {
      NobodyCounts(s.workers, WAsleep(slot));
    }
  }

  lemma PushSignalPerSlot(s: State, p: nat, wake: nat)
    requires Shape(s) && TokensAdd(s) && WaitersAdd(s) && NoLostWakeup(s)
    requires p < |s.pushers| && s.pushers[p].Ticket? && Enabled(s, PusherStep(p, wake))
    ensures var s' := DoPusher(s, p, wake);
            Shape(s') && TokensAdd(s') && WaitersAdd(s') && NoLostWakeup(s')
  {
    hide W, P, Sum, Tickets;
    SignalFacts(s, s.pushers[p].slot, wake);
    PUpdates(s.pushers, p, Outside);
  }

  lemma PushSignalKeepsInv(s: State, p: nat, wake: nat)
    requires Inv(s) && p < |s.pushers| && s.pushers[p].Ticket? && Enabled(s, PusherStep(p, wake))
    ensures Inv(DoPusher(s, p, wake))
  {
    hide W, P, Sum, Tickets, TokensAdd, WaitersAdd, NoLostWakeup;
    PushSignalPerSlot(s, p, wake);
    SignalFacts(s, s.pushers[p].slot, wake);
    PUpdates(s.pushers, p, Outside);
  }

  lemma PusherKeepsInv(s: State, p: nat, wake: nat)
    requires Inv(s) && Enabled(s, PusherStep(p, wake)) && !s.pushers[p].Ticket? && !s.pushers[p].Queued?
    ensures Inv(DoPusher(s, p, wake))
  {
    hide W, P, Sum, Tickets;
    PUpdates(s.pushers, p, DoPusher(s, p, wake).pushers[p]);
  }

  lemma NotifyTicketKeepsInv(s: State, p: nat, wake: nat)
    requires Inv(s) && p < |s.pushers| && s.pushers[p].Queued?
    ensures Inv(DoPusher(s, p, wake))
  {
    hide W, P, Sum;
    PUpdates(s.pushers, p, Ticket((s.notifyIndex + 1) % |s.slots|));
  }

  lemma CallPushKeepsInv(s: State, p: nat, item: Item, isBlocked: bool)
    requires Inv(s) && p < |s.pushers| && s.pushers[p].Outside?
    ensures Inv(DoCallPush(s, p, item, isBlocked))
  {
    hide W, P, Sum, Tickets;
    PUpdates(s.pushers, p, DoCallPush(s, p, item, isBlocked).pushers[p]);
  }

  lemma StopKeepsInv(s: State)
    requires Inv(s)
    ensures Inv(DoStop(s))
  {
    hide W, P, Sum, Tickets;
  }

  lemma JoinSignalKeepsInv(s: State, wake: nat)
    requires Inv(s) && Enabled(s, JoinSignal(wake))
    ensures Inv(DoJoinSignal(s, wake))
  {
    hide W, P, Sum, Tickets;
    SignalFacts(s, s.stopper.slot, wake);
  }

  lemma StepKeepsInv(s: State, a: Action)
    requires Inv(s) && Enabled(s, a)
    ensures Inv(Exec(s, a))
  {
    hide Inv;
    InvHasShape(s);
    match a
    case WorkerStep(w) => WorkerKeepsInv(s, w);
    case SpuriousWakeup(w) => SpuriousKeepsInv(s, w);
    case CallPush(p, item, isBlocked) => CallPushKeepsInv(s, p, item, isBlocked);
    case PusherStep(p, wake) =>
      if s.pushers[p].Ticket? { PushSignalKeepsInv(s, p, wake); }
      else if s.pushers[p].Queued? { NotifyTicketKeepsInv(s, p, wake); }
      else { PusherKeepsInv(s, p, wake); }
    case CallStop => StopKeepsInv(s);
    case JoinSignal(wake) => JoinSignalKeepsInv(s, wake);
  }

  // ----- Theorems ------------------------------------------------------------------------------

  /** Any interleaving of workers, producers, Stop and Join. */
  predicate Run(ss: seq<State>, acts: seq<Action>) {
    && |ss| == |acts| + 1 && Init(ss[0])
    && (forall i :: 0 <= i < |acts| ==>
          Shape(ss[i]) && Enabled(ss[i], acts[i]) && ss[i + 1] == Exec(ss[i], acts[i]))
  }

  lemma {:induction false} RunsKeepInv(ss: seq<State>, acts: seq<Action>)
    requires Run(ss, acts)
    ensures Inv(ss[|acts|])
  {
    var n := |acts|;
    if n == 0 {
      InitHasInv(ss[0]);
    } else {
      assert Run(ss[..n], acts[..n - 1]);
      RunsKeepInv(ss[..n], acts[..n - 1]);
      StepKeepsInv(ss[n - 1], acts[n - 1]);
    }
  }

  /** In every state of every run, each spinning worker has an item reserved for it, before and after
      shutdown begins; and the item count is exact. */
  lemma SpinnersHaveItems(ss: seq<State>, acts: seq<Action>)
    requires Run(ss, acts)
    ensures var s := ss[|acts|];
            && |s.queue| >= W(s.workers, WSpin)
            && (s.run ==> |s.queue| >= Sum(s.slots) + W(s.workers, WSpin))
            && s.curSize == |s.queue| + P(s.pushers, PCounted) + W(s.workers, WWorking)
  {
    RunsKeepInv(ss, acts);
  }

  /** Once Join has signalled every slot, each slot holds a token for every worker waiting on it,
      counting those that producers already hold a ticket to deliver. */
  lemma JoinCoversEveryWaiter(s: State, j: nat)
    requires Inv(s) && s.stopper.Joining? && j < |s.slots|
    ensures s.slots[j] + P(s.pushers, PTicket(j)) >= W(s.workers, WUnserved(j))
  {
    hide W, P, Sum, Tickets;
    TicketsMonotone(s.waitIndex, s.notifyIndex + |s.slots|, j, |s.slots|);
    RoundGivesOne(s.notifyIndex, j, |s.slots|);
  }

  /** Then nobody is asleep on a slot that no producer still has to signal. */
  lemma JoinWakesEveryone(s: State, j: nat)
    requires Inv(s) && s.stopper.Joining? && j < |s.slots| && P(s.pushers, PTicket(j)) == 0
    ensures W(s.workers, WAsleep(j)) == 0
  {
    hide W, P, Sum, Tickets;
    JoinCoversEveryWaiter(s, j);
    SleepersAreUnserved(s.workers, j);
  }
}
