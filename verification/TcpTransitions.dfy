/** When a TCP component changes its state, and what a close by the user ends for good. */
module TcpTransitions {
  import opened TcpComponents

  // ----- All changes of state ----------------------------------------------------------------------

  /** The connect under way has taken too long. */
  predicate Overdue(t: Tcp, a: Step) {
    a.Check? && t.state == Connecting && 0 < t.startTime < a.now - a.timeout
  }

  /** Something goes wrong with a component in use, or the worker closes it. */
  predicate Fails(t: Tcp, a: Step) {
    a.CloseAndSet? || (a.WriteEvent? && !a.writeOk && InUse(t)) || Overdue(t, a)
  }

  /** From each state to each other one: by what, and with what budget. */
  predicate Changes(t: Tcp, a: Step, to: IocState) {
    match (t.state, to)
    case (ToBeConnecting, Connecting) => IsAttempt(t, a) && a.connectOk
    case (ToBeConnecting, Closing) => a.UserClose? || (IsAttempt(t, a) && !a.connectOk && t.budget == 1)
    case (Connecting, Connected) => a.WriteEvent? && a.writeOk
    case (Connecting, ToBeConnecting) => t.budget > 0 && Fails(t, a)
    case (Connecting, Closing) => a.UserClose? || (t.budget == 0 && Fails(t, a))
    case (Connected, ToBeConnecting) => t.budget > 0 && Fails(t, a)
    case (Connected, Closing) => a.UserClose? || (t.server && a.IdleClose?) || (t.budget == 0 && Fails(t, a))
    case (Closing, Closed) => a.Check? && a.refs == 1
    case (Closing, Connecting) => a.Reconnect? && a.connectOk && t.budget == 0
    case _ => false
  }

  /** In every run the state changes to another one exactly in these cases. */
  lemma StatesChangeExactly(ts: seq<Tcp>, steps: seq<Step>, autoReconn: bool, i: nat, to: IocState)
    requires Run(ts, steps, autoReconn) && i < |steps| && to != ts[i].state
    ensures ts[i + 1].state == to <==> Changes(ts[i], steps[i], to)
  {
    hide Exec, Inv, Changes;
    RunsKeepInv(ts, steps, autoReconn, i);
    StepIs(ts, steps, autoReconn, i);
    StepChangesExactly(ts[i], steps[i], to);
  }

  lemma StepIs(ts: seq<Tcp>, steps: seq<Step>, autoReconn: bool, i: nat)
    requires Run(ts, steps, autoReconn) && i < |steps|
    ensures ts[i + 1] == Exec(ts[i], steps[i])
  {
  }

  lemma StepChangesExactly(t: Tcp, a: Step, to: IocState)
    requires Inv(t) && to != t.state
    ensures Exec(t, a).state == to <==> Changes(t, a, to)
  {
  }

  // ----- A close by the user -----------------------------------------------------------------------

  predicate AtTheEnd(t: Tcp) {
    t.state == Closing || t.state == Closed
  }

  /** A manual reconnect that goes through. */
  predicate Reopens(t: Tcp, a: Step) {
    a.Reconnect? && a.connectOk && t.budget == 0 && t.state == Closing
  }

  /** In every run a close by the user ends the component: until a manual reconnect, and that takes automatic
      reconnecting to be off, it is neither in use nor waiting, and makes no attempt. */
  lemma {:induction false} UserCloseIsFinal(ts: seq<Tcp>, steps: seq<Step>, autoReconn: bool, i: nat, j: nat)
    requires Run(ts, steps, autoReconn) && i < j < |ts| && steps[i] == UserClose
    requires forall k :: i < k < j ==> !Reopens(ts[k], steps[k])
    ensures AtTheEnd(ts[j]) && Attempts(ts, steps, i + 1, j) == 0
    decreases j
  {
    hide Exec;
    if i + 1 == j {
      UserCloses(ts[i]);
    } else {
      UserCloseIsFinal(ts, steps, autoReconn, i, j - 1);
      EndStays(ts[j - 1], steps[j - 1]);
    }
  }

  lemma UserCloses(t: Tcp)
    ensures AtTheEnd(Exec(t, UserClose))
  {
  }

  lemma EndStays(t: Tcp, a: Step)
    requires AtTheEnd(t) && !Reopens(t, a)
    ensures AtTheEnd(Exec(t, a)) && !IsAttempt(t, a)
  {
  }

  // ----- Attempts are apart ------------------------------------------------------------------------

  /** No automatic attempt can follow. */
  predicate GivenUp(t: Tcp) {
    t.budget == 0 || AtTheEnd(t)
  }

  /** Handlers of a close run only then. */
  predicate Inv2(t: Tcp) {
    Inv(t) && (t.closes != [] ==> GivenUp(t))
  }

  lemma StepKeepsGivenUp(t: Tcp, a: Step)
    requires Inv2(t)
    ensures Inv2(Exec(t, a)) && (GivenUp(t) ==> GivenUp(Exec(t, a)))
    ensures GivenUp(t) ==> !IsAttempt(t, a)
  {
  }

  lemma {:induction false} RunsKeepInv2(ts: seq<Tcp>, steps: seq<Step>, autoReconn: bool, i: nat)
    requires Run(ts, steps, autoReconn) && i < |ts|
    ensures Inv2(ts[i])
  {
    hide Exec, Inv2;
    if i == 0 {
      InitHasInv2(ts[0], autoReconn);
    } else {
      RunsKeepInv2(ts, steps, autoReconn, i - 1);
      StepKeepsGivenUp(ts[i - 1], steps[i - 1]);
    }
  }

  lemma InitHasInv2(t: Tcp, autoReconn: bool)
    requires Init(t, autoReconn)
    ensures Inv2(t)
  {
  }

  /** The clock of the checking thread does not run back. */
  predicate Clocked(steps: seq<Step>) {
    forall k, l :: 0 <= k < l < |steps| && steps[k].Check? && steps[l].Check? ==> steps[k].now <= steps[l].now
  }

  /** In every run an automatic attempt is made more than an interval after any attempt before it, and after
      any connect that was found to take too long. */
  lemma AttemptsAreApart(ts: seq<Tcp>, steps: seq<Step>, autoReconn: bool, i: nat, j: nat)
    requires Run(ts, steps, autoReconn) && Clocked(steps) && i < j < |steps|
    requires (IsAttempt(ts[i], steps[i]) || Overdue(ts[i], steps[i])) && IsAttempt(ts[j], steps[j])
    ensures steps[i].now + RECONNECTING_INTERVAL < steps[j].now
  {
    hide Exec, Clocked, Inv2, GivenUp;
    StartedLater(ts, steps, autoReconn, i, j);
    RunsKeepInv2(ts, steps, autoReconn, j);
    StepKeepsGivenUp(ts[j], steps[j]);
  }

  lemma {:induction false} StartedLater(ts: seq<Tcp>, steps: seq<Step>, autoReconn: bool, i: nat, j: nat)
    requires Run(ts, steps, autoReconn) && Clocked(steps) && i < j <= |steps|
    requires IsAttempt(ts[i], steps[i]) || Overdue(ts[i], steps[i])
    ensures GivenUp(ts[j]) || ts[j].startTime >= steps[i].now
    decreases j
  {
    hide Exec, Inv2, GivenUp;
    RunsKeepInv2(ts, steps, autoReconn, j - 1);
    if i + 1 < j {
      StartedLater(ts, steps, autoReconn, i, j - 1);
    }
    StepKeepsGivenUp(ts[j - 1], steps[j - 1]);
    StartsAtNow(ts[j - 1], steps[j - 1]);
  }

  /** The start time is set to the time of a check, or by what leaves no attempts. */
  lemma StartsAtNow(t: Tcp, a: Step)
    requires Inv2(t)
    ensures var u := Exec(t, a);
            GivenUp(u) || u.startTime == t.startTime || (a.Check? && u.startTime == a.now)
    ensures IsAttempt(t, a) || Overdue(t, a) ==> GivenUp(Exec(t, a)) || Exec(t, a).startTime == a.now
  {
  }

  // ----- How long a connect may take ---------------------------------------------------------------

  /** The step begins a connect. */
  predicate Begins(t: Tcp, a: Step) {
    t.state != Connecting && Exec(t, a).state == Connecting
  }

  lemma BeginsNow(t: Tcp, a: Step)
    requires Begins(t, a)
    ensures (a.Check? || a.Reconnect?) && Exec(t, a).startTime == a.now
  {
  }

  lemma ConnectingStays(t: Tcp, a: Step)
    requires t.state == Connecting && t.closes == [] && Exec(t, a).state == Connecting
    ensures Exec(t, a).startTime == t.startTime
  {
  }

  /** In every run without a reconnect that is too early, a component that has been connecting since a step
      has the time of that step as its start, so that a check finds the connect overdue exactly when more
      than the timeout has passed since then. */
  lemma {:induction false} ConnectingSince(ts: seq<Tcp>, steps: seq<Step>, autoReconn: bool, i: nat, j: nat)
    requires Run(ts, steps, autoReconn) && i < j < |ts| && forall k :: 0 <= k < j ==> !TooEarly(ts[k], steps[k])
    requires Begins(ts[i], steps[i]) && forall k :: i < k <= j ==> ts[k].state == Connecting
    ensures (steps[i].Check? || steps[i].Reconnect?) && ts[j].startTime == steps[i].now
    ensures steps[i].now > 0 ==>
              forall a: Step :: a.Check? ==> (Overdue(ts[j], a) <==> steps[i].now + a.timeout < a.now)
    decreases j
  {
    hide Exec, TooEarly;
    if i + 1 == j {
      BeginsNow(ts[i], steps[i]);
    } else {
      ConnectingSince(ts, steps, autoReconn, i, j - 1);
      ListedWhenInUse(ts, steps, autoReconn, j - 1);
      StepIs(ts, steps, autoReconn, j - 1);
      assert ts[j].state == Connecting;
      ConnectingStays(ts[j - 1], steps[j - 1]);
    }
  }
}
