/** Which items go through the pool: those that callers bring, each once, and in the order in which they
    were queued. What has been queued, taken and refused is read off the run. */
module LockFreeThreadPoolItems {
  import opened LockFreeThreadPool
  import opened LockFreeThreadPoolProof

  datatype Take = Take(w: nat, item: Item)

  datatype Call = Call(p: nat, item: Item)

  function WorkerAt(s: State, w: nat): Worker {
    if w < |s.workers| then s.workers[w] else Exited
  }

  function PusherAt(s: State, p: nat): Pusher {
    if p < |s.pushers| then s.pushers[p] else Outside
  }

  // ----- The record of a run -----------------------------------------------------------------------

  /** The items put into the queue: a producer that had one, and had counted it, has it no more. */
  function QueuedBy(s: State, a: Action, t: State): seq<Item> {
    if a.PusherStep? && PusherAt(s, a.p).Counted? && PusherAt(t, a.p).Queued? then [PusherAt(s, a.p).item] else []
  }

  /** A worker that looked for an item has one. */
  function TakenBy(s: State, a: Action, t: State): seq<Take> {
    if a.WorkerStep? && WorkerAt(s, a.w).Spin? && WorkerAt(t, a.w).Working? then [Take(a.w, WorkerAt(t, a.w).item)]
    else []
  }

  /** A worker that had an item has none. */
  function DoneBy(s: State, a: Action, t: State): multiset<Item> {
    if a.WorkerStep? && WorkerAt(s, a.w).Working? && !WorkerAt(t, a.w).Working? then multiset{WorkerAt(s, a.w).item}
    else multiset{}
  }

  /** A call that came while the pool ran, and one that was turned away at the size. */
  function CalledBy(s: State, a: Action, t: State): seq<Call> {
    if a.CallPush? && s.run && PusherAt(s, a.p).Outside? && a.p < |s.pushers| then [Call(a.p, a.item)] else []
  }

  function RefusedBy(s: State, a: Action, t: State): multiset<Item> {
    if a.PusherStep? && PusherAt(s, a.p).Entered? && PusherAt(t, a.p).Outside? then multiset{PusherAt(s, a.p).item}
    else multiset{}
  }

  datatype Record = Record(called: seq<Call>, refused: multiset<Item>, queued: seq<Item>, taken: seq<Take>,
                           done: multiset<Item>)

  ghost function RecordOf(ss: seq<State>, acts: seq<Action>, k: nat): Record
    requires k <= |acts| < |ss|
  {
    if k == 0 then Record([], multiset{}, [], [], multiset{})
    else
      var r, s, a, t := RecordOf(ss, acts, k - 1), ss[k - 1], acts[k - 1], ss[k];
      Record(r.called + CalledBy(s, a, t), r.refused + RefusedBy(s, a, t), r.queued + QueuedBy(s, a, t),
             r.taken + TakenBy(s, a, t), r.done + DoneBy(s, a, t))
  }

  // ----- What the record says ----------------------------------------------------------------------

  function Items(ts: seq<Take>): (r: seq<Item>)
    ensures |r| == |ts| && forall i :: 0 <= i < |ts| ==> r[i] == ts[i].item
  {
    seq(|ts|, i requires 0 <= i < |ts| => ts[i].item)
  }

  function CallItems(cs: seq<Call>): (r: seq<Item>)
    ensures |r| == |cs| && forall i :: 0 <= i < |cs| ==> r[i] == cs[i].item
  {
    seq(|cs|, i requires 0 <= i < |cs| => cs[i].item)
  }

  /** What a worker took last. */
  function LastTaken(ts: seq<Take>, w: nat): seq<Item> {
    if |ts| == 0 then []
    else if ts[|ts| - 1].w == w then [ts[|ts| - 1].item] else LastTaken(ts[..|ts| - 1], w)
  }

  function LastCall(cs: seq<Call>, p: nat): seq<Item> {
    if |cs| == 0 then []
    else if cs[|cs| - 1].p == p then [cs[|cs| - 1].item] else LastCall(cs[..|cs| - 1], p)
  }

  /** The item a producer brings and has not queued yet. */
  function Brought(l: Pusher): seq<Item> {
    if l.Entered? || l.Full? || l.Admitted? || l.Counted? then [l.item] else []
  }

  /** How many producers bring an item. */
  function Bringing(ps: seq<Pusher>, x: Item): (n: nat) {
    if |ps| == 0 then 0 else Bringing(ps[..|ps| - 1], x) + multiset(Brought(ps[|ps| - 1]))[x]
  }

  function Working(l: Worker): seq<Item> {
    if l.Working? then [l.item] else []
  }

  /** How many workers work on an item. */
  function WorkingOn(ws: seq<Worker>, x: Item): (n: nat) {
    if |ws| == 0 then 0 else WorkingOn(ws[..|ws| - 1], x) + multiset(Working(ws[|ws| - 1]))[x]
  }

  /** Items leave the queue in the order in which they entered it. */
  predicate InTurn(s: State, r: Record) {
    r.queued == Items(r.taken) + s.queue
  }

  /** Workers and producers have in hand what they took or brought last. */
  predicate InHand(s: State, r: Record) {
    && (forall w :: 0 <= w < |s.workers| && s.workers[w].Working? ==> LastTaken(r.taken, w) == [s.workers[w].item])
    && (forall p :: 0 <= p < |s.pushers| && Brought(s.pushers[p]) != [] ==>
          LastCall(r.called, p) == Brought(s.pushers[p]))
  }

  /** Every item brought is refused, on its way or queued, and every item taken is worked on or done. */
  predicate Balanced(s: State, r: Record, x: Item) {
    && multiset(CallItems(r.called))[x] == r.refused[x] + Bringing(s.pushers, x) + multiset(r.queued)[x]
    && multiset(Items(r.taken))[x] == WorkingOn(s.workers, x) + r.done[x]
  }

  // ----- Proofs ------------------------------------------------------------------------------------

  lemma {:induction false} BringingUpdate(ps: seq<Pusher>, i: nat, l: Pusher, x: Item)
    requires i < |ps|
    ensures Bringing(ps[i := l], x) + multiset(Brought(ps[i]))[x] == Bringing(ps, x) + multiset(Brought(l))[x]
  {
    hide Brought;
    var n := |ps| - 1;
    if i == n {
      assert ps[i := l][..n] == ps[..n];
    } else {
      assert ps[i := l][..n] == ps[..n][i := l];
      BringingUpdate(ps[..n], i, l, x);
    }
  }

  lemma {:induction false} WorkingUpdate(ws: seq<Worker>, i: nat, l: Worker, x: Item)
    requires i < |ws|
    ensures WorkingOn(ws[i := l], x) + multiset(Working(ws[i]))[x] == WorkingOn(ws, x) + multiset(Working(l))[x]
  {
    hide Working;
    var n := |ws| - 1;
    if i == n {
      assert ws[i := l][..n] == ws[..n];
    } else {
      assert ws[i := l][..n] == ws[..n][i := l];
      WorkingUpdate(ws[..n], i, l, x);
    }
  }

  function Next(r: Record, s: State, a: Action, t: State): Record {
    Record(r.called + CalledBy(s, a, t), r.refused + RefusedBy(s, a, t), r.queued + QueuedBy(s, a, t),
           r.taken + TakenBy(s, a, t), r.done + DoneBy(s, a, t))
  }

  lemma ItemsAppend(ts: seq<Take>, us: seq<Take>)
    ensures Items(ts + us) == Items(ts) + Items(us)
  {
  }

  lemma CallItemsAppend(cs: seq<Call>, ds: seq<Call>)
    ensures CallItems(cs + ds) == CallItems(cs) + CallItems(ds)
  {
  }

  lemma StepKeepsInTurn(s: State, a: Action, r: Record)
    requires Shape(s) && Enabled(s, a) && InTurn(s, r)
    ensures InTurn(Exec(s, a), Next(r, s, a, Exec(s, a)))
  {
    var t := Exec(s, a);
    ItemsAppend(r.taken, TakenBy(s, a, t));
    if a.WorkerStep? && s.workers[a.w].Spin? {
      assert s.queue == [s.queue[0]] + s.queue[1..];
    }
  }

  lemma LastTakenAppend(ts: seq<Take>, us: seq<Take>, w: nat)
    requires |us| <= 1
    ensures LastTaken(ts + us, w) == if |us| == 1 && us[0].w == w then [us[0].item] else LastTaken(ts, w)
  {
    if |us| == 1 {
      assert (ts + us)[..|ts|] == ts;
    } else {
      assert ts + us == ts;
    }
  }

  lemma LastCallAppend(cs: seq<Call>, ds: seq<Call>, p: nat)
    requires |ds| <= 1
    ensures LastCall(cs + ds, p) == if |ds| == 1 && ds[0].p == p then [ds[0].item] else LastCall(cs, p)
  {
    if |ds| == 1 {
      assert (cs + ds)[..|cs|] == cs;
    } else {
      assert cs + ds == cs;
    }
  }

  lemma StepKeepsInHand(s: State, a: Action, r: Record)
    requires Shape(s) && Enabled(s, a) && InHand(s, r)
    ensures InHand(Exec(s, a), Next(r, s, a, Exec(s, a)))
  {
    hide LastTaken, LastCall, Exec, Enabled, Brought, TakenBy, CalledBy;
    var t := Exec(s, a);
    forall w | 0 <= w < |t.workers| && t.workers[w].Working?
      ensures LastTaken(r.taken + TakenBy(s, a, t), w) == [t.workers[w].item]
    {
      WorkerMoves(s, a, w);
      LastTakenAppend(r.taken, TakenBy(s, a, t), w);
    }
    forall p | 0 <= p < |t.pushers| && Brought(t.pushers[p]) != []
      ensures LastCall(r.called + CalledBy(s, a, t), p) == Brought(t.pushers[p])
    {
      PusherMoves(s, a, p);
      LastCallAppend(r.called, CalledBy(s, a, t), p);
    }
  }

  /** What a step does to the producers: at most one moves. */
  lemma PusherSteps(s: State, a: Action)
    requires Shape(s) && Enabled(s, a)
    ensures a.CallPush? ==>
              Exec(s, a).pushers == s.pushers[a.p := if s.run then Entered(a.item, a.isBlocked) else Outside]
    ensures a.PusherStep? ==>
              && |Exec(s, a).pushers| == |s.pushers|
              && Exec(s, a).pushers == s.pushers[a.p := Exec(s, a).pushers[a.p]]
    ensures !a.CallPush? && !a.PusherStep? ==> Exec(s, a).pushers == s.pushers
  {
  }

  /** A producer keeps the item it brings until it has queued it or is refused. */
  lemma PusherKeepsItem(s: State, p: nat, wake: nat)
    requires Shape(s) && Enabled(s, PusherStep(p, wake)) && p < |Exec(s, PusherStep(p, wake)).pushers|
    ensures var l, m := s.pushers[p], Exec(s, PusherStep(p, wake)).pushers[p];
            || (Brought(m) == Brought(l) && !(l.Counted? && m.Queued?) && !(l.Entered? && m.Outside?))
            || (Brought(m) == [] && ((l.Counted? && m.Queued?) || (l.Entered? && m.Outside?)))
  {
  }

  /** What a step does to the workers: one moves, or is woken. */
  lemma WorkerSteps(s: State, a: Action)
    requires Shape(s) && Enabled(s, a)
    ensures |Exec(s, a).workers| == |s.workers|
    ensures a.WorkerStep? ==> Exec(s, a).workers == s.workers[a.w := Exec(s, a).workers[a.w]]
    ensures !a.WorkerStep? ==>
              || Exec(s, a).workers == s.workers
              || exists w, j :: 0 <= w < |s.workers| && s.workers[w] == Asleep(j) &&
                   Exec(s, a).workers == s.workers[w := Woken(j)]
  {
    match a
    case PusherStep(p, wake) =>
      if s.pushers[p].Ticket? {
        SignalWakes(s, s.pushers[p].slot, wake);
      }
    case JoinSignal(wake) => SignalWakes(s, s.stopper.slot, wake);
    case _ =>
  }

  lemma SignalWakes(s: State, slot: nat, wake: nat)
    requires slot < |s.slots| && WakeOk(s, slot, wake)
    ensures var ws := Signal(s, slot, wake).workers;
            || ws == s.workers
            || (wake < |s.workers| && s.workers[wake] == Asleep(slot) && ws == s.workers[wake := Woken(slot)])
  {
  }

  /** A worker has an item only from looking for one, and until it is done with it. */
  lemma WorkerKeepsItem(s: State, w: nat)
    requires Shape(s) && Enabled(s, WorkerStep(w)) && w < |Exec(s, WorkerStep(w)).workers|
    ensures var l, m := s.workers[w], Exec(s, WorkerStep(w)).workers[w];
            (m.Working? <==> l.Spin?) && (l.Working? ==> !m.Working?)
  {
  }

  /** A worker has the item it had, or the one it has just taken. */
  lemma WorkerMoves(s: State, a: Action, w: nat)
    requires Shape(s) && Enabled(s, a) && w < |Exec(s, a).workers|
    ensures var t := Exec(s, a); var us := TakenBy(s, a, t);
            && |t.workers| == |s.workers| && |us| <= 1
            && (t.workers[w].Working? ==>
                  if |us| == 1 && us[0].w == w then us[0].item == t.workers[w].item
                  else s.workers[w] == t.workers[w])
  {
    hide Exec;
    WorkerSteps(s, a);
    if a.WorkerStep? {
      WorkerKeepsItem(s, a.w);
    }
  }

  /** A producer brings the item it brought, or the one it has just been called with. */
  lemma PusherMoves(s: State, a: Action, p: nat)
    requires Shape(s) && Enabled(s, a) && p < |Exec(s, a).pushers|
    ensures var t := Exec(s, a); var ds := CalledBy(s, a, t);
            && |t.pushers| == |s.pushers| && |ds| <= 1
            && (Brought(t.pushers[p]) != [] ==>
                  if |ds| == 1 && ds[0].p == p then Brought(t.pushers[p]) == [ds[0].item]
                  else Brought(t.pushers[p]) == Brought(s.pushers[p]))
  {
    hide Exec;
    PusherSteps(s, a);
    if a.PusherStep? {
      PusherKeepsItem(s, a.p, a.wake);
    }
  }

  lemma StepKeepsBalanced(s: State, a: Action, r: Record, x: Item)
    requires Shape(s) && Enabled(s, a) && Balanced(s, r, x)
    ensures Balanced(Exec(s, a), Next(r, s, a, Exec(s, a)), x)
  {
    hide Bringing, WorkingOn, Exec, Enabled, TakenBy, CalledBy, QueuedBy, DoneBy, RefusedBy;
    var t := Exec(s, a);
    ItemsAppend(r.taken, TakenBy(s, a, t));
    CallItemsAppend(r.called, CalledBy(s, a, t));
    PushersMove(s, a, x);
    WorkersMove(s, a, x);
  }

  lemma PushersMove(s: State, a: Action, x: Item)
    requires Shape(s) && Enabled(s, a)
    ensures var t := Exec(s, a);
            Bringing(t.pushers, x) + RefusedBy(s, a, t)[x] + multiset(QueuedBy(s, a, t))[x] ==
            Bringing(s.pushers, x) + multiset(CallItems(CalledBy(s, a, t)))[x]
  {
    hide Bringing, Exec;
    PusherSteps(s, a);
    OneCall(CalledBy(s, a, Exec(s, a)));
    if a.CallPush? || a.PusherStep? {
      BringingUpdate(s.pushers, a.p, Exec(s, a).pushers[a.p], x);
    }
    if a.PusherStep? {
      PusherKeepsItem(s, a.p, a.wake);
    }
  }

  lemma OneCall(cs: seq<Call>)
    requires |cs| <= 1
    ensures CallItems(cs) == if |cs| == 0 then [] else [cs[0].item]
  {
  }

  lemma WorkersMove(s: State, a: Action, x: Item)
    requires Shape(s) && Enabled(s, a)
    ensures var t := Exec(s, a);
            WorkingOn(t.workers, x) + DoneBy(s, a, t)[x] ==
            WorkingOn(s.workers, x) + multiset(Items(TakenBy(s, a, t)))[x]
  {
    hide WorkingOn, Exec;
    WorkerSteps(s, a);
    OneItem(TakenBy(s, a, Exec(s, a)));
    if a.WorkerStep? {
      WorkingUpdate(s.workers, a.w, Exec(s, a).workers[a.w], x);
      WorkerKeepsItem(s, a.w);
    } else if Exec(s, a).workers != s.workers {
      var w, j :| 0 <= w < |s.workers| && s.workers[w] == Asleep(j) && Exec(s, a).workers == s.workers[w := Woken(j)];
      WorkingUpdate(s.workers, w, Woken(j), x);
    }
  }

  lemma OneItem(ts: seq<Take>)
    requires |ts| <= 1
    ensures Items(ts) == if |ts| == 0 then [] else [ts[0].item]
  {
  }

  lemma NothingYet(s: State, x: Item)
    requires Init(s)
    ensures var r := Record([], multiset{}, [], [], multiset{}); InTurn(s, r) && InHand(s, r) && Balanced(s, r, x)
  {
    NobodyBrings(s.pushers, x);
    NobodyWorks(s.workers, x);
  }

  lemma {:induction false} NobodyBrings(ps: seq<Pusher>, x: Item)
    requires forall p :: 0 <= p < |ps| ==> ps[p].Outside?
    ensures Bringing(ps, x) == 0
  {
    if |ps| > 0 { NobodyBrings(ps[..|ps| - 1], x); }
  }

  lemma {:induction false} NobodyWorks(ws: seq<Worker>, x: Item)
    requires forall w :: 0 <= w < |ws| ==> ws[w].TakeTicket?
    ensures WorkingOn(ws, x) == 0
  {
    if |ws| > 0 { NobodyWorks(ws[..|ws| - 1], x); }
  }

  /** In every run: the items queued are the items taken, in that order, and then those in the queue. A
      worker works on the item that it took last, and a producer brings the one it was last called with.
      Each item that callers brought was refused, is on its way or has been queued, and each that was taken
      is being worked on or done, as often: nothing is lost, repeated or invented. */
  lemma {:induction false} ItemsGoThrough(ss: seq<State>, acts: seq<Action>, k: nat, x: Item)
    requires Run(ss, acts) && k <= |acts|
    ensures InTurn(ss[k], RecordOf(ss, acts, k)) && InHand(ss[k], RecordOf(ss, acts, k))
    ensures Balanced(ss[k], RecordOf(ss, acts, k), x)
    decreases k
  {
    hide InTurn, InHand, Balanced, Exec, Enabled, Init;
    if k == 0 {
      NothingYet(ss[0], x);
    } else {
      ItemsGoThrough(ss, acts, k - 1, x);
      var r := RecordOf(ss, acts, k - 1);
      StepKeepsInTurn(ss[k - 1], acts[k - 1], r);
      StepKeepsInHand(ss[k - 1], acts[k - 1], r);
      StepKeepsBalanced(ss[k - 1], acts[k - 1], r, x);
    }
  }

  /** A producer that was let in goes on at once exactly when the counter is within the limit; otherwise it
      waits, or is refused if it was not to block. One that waits goes on exactly when it is. */
  lemma AdmissionExactly(s: State, p: nat, wake: nat)
    requires Shape(s) && Enabled(s, PusherStep(p, wake)) && (s.pushers[p].Entered? || s.pushers[p].Full?)
    ensures var l, m := s.pushers[p], Exec(s, PusherStep(p, wake)).pushers[p];
            && (m == Admitted(l.item) <==> s.curSize <= s.limit)
            && (m == Full(l.item) <==> s.curSize > s.limit && (l.Full? || l.isBlocked))
            && (m == Outside <==> s.curSize > s.limit && l.Entered? && !l.isBlocked)
  {
  }
}
