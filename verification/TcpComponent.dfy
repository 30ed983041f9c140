/** The life of a TCP component: its states, the budget of automatic reconnects, and the commands it
    posts to its worker. Every step runs under the component's lock; steps of different threads
    interleave. A close that finds the component open gives the lock up while its handlers run, and
    goes on later. */
module TcpComponents {

  const MAX_RECONNECTING_TIMES: nat := 30
  const RECONNECTING_INTERVAL: int := 1_000_000

  datatype IocState = ToBeConnecting | Connecting | Connected | Closing | Closed

  function Rank(s: IocState): nat {
    match s
    case ToBeConnecting => 1
    case Connecting => 2
    case Connected => 3
    case Closing => 4
    case Closed => 5
  }

  /** What a component asks of its worker: to be put on its list, or taken off it. */
  datatype Command = AddIoc | RemoveIoc

  /** A close whose handlers are running: it has still to post its command, and to set the start time if
      it was a connect that took too long. */
  datatype Close = Close(time: int, setsTime: bool)

  /** attempts counts the automatic reconnects since the component was last connected; commands are
      those posted so far. No step reads either. */
  datatype Tcp = Tcp(
    state: IocState, budget: nat, server: bool, startTime: int, attempts: nat,
    commands: seq<Command>, closes: seq<Close>)

  datatype Step =
    | WriteEvent(writeOk: bool)
    | CloseAndSet
    | UserClose
    | IdleClose
    | Check(now: int, timeout: int, refs: nat, connectOk: bool)
    | Reconnect(now: int, connectOk: bool)
    | Resume(k: nat)

  /** setState: forward, or back from closing to connecting. */
  function SetState(t: Tcp, s: IocState): Tcp {
    if Accepts(t.state, s) then t.(state := s) else t
  }

  predicate Accepts(from: IocState, to: IocState) {
    Rank(from) < Rank(Closing) || (from == Closing && to == Connecting) || Rank(to) > Rank(from)
  }

  function Posted(t: Tcp, c: Command): Tcp {
    t.(commands := t.commands + [c])
  }

  /** closeAndSetState, or its start where the component is closed for good and handlers run. */
  function DoCloseAndSet(t: Tcp, c: Close): Tcp {
    if t.budget == 0 && Rank(t.state) < Rank(Closing) then t.(state := Closing, closes := t.closes + [c])
    else EndClose(SetState(t, if t.budget > 0 then ToBeConnecting else Closing), c)
  }

  function EndClose(t: Tcp, c: Close): Tcp {
    Posted(t.(startTime := if c.setsTime then c.time else t.startTime), RemoveIoc)
  }

  const CLOSE: Close := Close(0, false)

  /** init and, for a client, setAutoReconn. */
  predicate Init(t: Tcp, autoReconn: bool) {
    && t.state == (if t.server then Connected else Connecting) && t.attempts == 0
    && t.commands == [AddIoc] && t.closes == []
    && t.budget == (if t.server || !autoReconn then 0 else MAX_RECONNECTING_TIMES)
  }

  function Exec(t: Tcp, a: Step): Tcp {
    match a
    case WriteEvent(writeOk) =>
      var c := if t.state == Connecting then DoConnected(t) else t;
      if c.state == Connected && !writeOk then DoCloseAndSet(c, CLOSE) else c
    case CloseAndSet => DoCloseAndSet(t, CLOSE)
    case UserClose =>
      if Rank(t.state) < Rank(Closing) then t.(state := Closing, closes := t.closes + [CLOSE]) else t
    case IdleClose => if t.state == Connected && t.server then DoCloseAndSet(t.(budget := 0), CLOSE) else t
    case Check(now, timeout, refs, connectOk) => DoCheck(t, now, timeout, refs, connectOk)
    case Reconnect(now, connectOk) =>
      if t.budget > 0 || Rank(t.state) <= Rank(Connected) || t.state == Closed then t
      else if connectOk then SetState(Posted(t.(startTime := now), AddIoc), Connecting)
      else t.(startTime := now)
    case Resume(k) =>
      if k < |t.closes| then EndClose(t.(closes := t.closes[..k] + t.closes[k + 1..]), t.closes[k]) else t
  }

  /** The connection is up: the budget is filled again if there is any left. */
  function DoConnected(t: Tcp): Tcp {
    SetState(t, Connected).(budget := if t.budget > 0 && !t.server then MAX_RECONNECTING_TIMES else 0, attempts := 0)
  }

  /** The part of checkTimeout that looks at the state of the component. */
  function DoCheck(t: Tcp, now: int, timeout: int, refs: nat, connectOk: bool): Tcp {
    if t.state == Connecting then
      if t.startTime > 0 && t.startTime < now - timeout then DoCloseAndSet(t, Close(now, true)) else t
    else if t.state == ToBeConnecting && t.budget > 0 && t.startTime < now - RECONNECTING_INTERVAL then
      var c := t.(budget := t.budget - 1, attempts := t.attempts + 1, startTime := now);
      if connectOk then SetState(Posted(c, AddIoc), Connecting) else if c.budget == 0 then SetState(c, Closing) else c
    else if t.state == Closing && refs == 1 then SetState(t, Closed)
    else t
  }

  // ----- What every step keeps -----------------------------------------------------------------------

  /** A component that waits to be connected has attempts left, and never makes more than its budget. */
  predicate Inv(t: Tcp) {
    && t.attempts + t.budget <= MAX_RECONNECTING_TIMES && (t.state == ToBeConnecting ==> t.budget > 0)
    && (t.server ==> t.budget == 0)
  }

  lemma StepKeepsInv(t: Tcp, a: Step)
    requires Inv(t)
    ensures Inv(Exec(t, a))
  {
  }

  /** Closed is the end. Closing is left only for it, and then only when the caller holds the last
      reference, or by a manual reconnect of a component that does not reconnect by itself. */
  lemma StepsFromTheEnd(t: Tcp, a: Step)
    ensures t.state == Closed ==> Exec(t, a).state == Closed
    ensures t.state == Closing && Exec(t, a).state != Closing ==>
              || (Exec(t, a).state == Closed && a.Check? && a.refs == 1)
              || (Exec(t, a).state == Connecting && a.Reconnect? && a.connectOk && t.budget == 0)
  {
  }

  ghost predicate Run(ts: seq<Tcp>, steps: seq<Step>, autoReconn: bool) {
    && |ts| == |steps| + 1 && Init(ts[0], autoReconn)
    && forall i :: 0 <= i < |steps| ==> ts[i + 1] == Exec(ts[i], steps[i])
  }

  lemma {:induction false} RunsKeepInv(ts: seq<Tcp>, steps: seq<Step>, autoReconn: bool, i: nat)
    requires Run(ts, steps, autoReconn) && i < |ts|
    ensures Inv(ts[i])
  {
    hide Exec, Inv;
    if i == 0 {
      InitHasInv(ts[0], autoReconn);
    } else {
      RunsKeepInv(ts, steps, autoReconn, i - 1);
      StepKeepsInv(ts[i - 1], steps[i - 1]);
    }
  }

  lemma InitHasInv(t: Tcp, autoReconn: bool)
    requires Init(t, autoReconn)
    ensures Inv(t)
  {
  }

  /** An automatic attempt: checkTimeout takes one from the budget. */
  predicate IsAttempt(t: Tcp, a: Step) {
    a.Check? && t.state == ToBeConnecting && t.budget > 0 && t.startTime < a.now - RECONNECTING_INTERVAL
  }

  function Attempts(ts: seq<Tcp>, steps: seq<Step>, i: nat, j: nat): nat
    requires i <= j <= |steps| <= |ts|
    decreases j - i
  {
    if i == j then 0 else (if IsAttempt(ts[j - 1], steps[j - 1]) then 1 else 0) + Attempts(ts, steps, i, j - 1)
  }

  /** No run makes more than thirty automatic attempts without getting connected in between. */
  lemma {:induction false} AttemptsAreBounded(ts: seq<Tcp>, steps: seq<Step>, autoReconn: bool, i: nat, j: nat)
    requires Run(ts, steps, autoReconn) && i <= j <= |steps|
    requires forall k :: i <= k < j ==> !(ts[k].state == Connecting && steps[k].WriteEvent?)
    ensures Attempts(ts, steps, i, j) <= ts[j].attempts <= MAX_RECONNECTING_TIMES
    decreases j - i
  {
    hide Exec, Inv;
    RunsKeepInv(ts, steps, autoReconn, j);
    InvBounds(ts[j]);
    if i < j {
      AttemptsAreBounded(ts, steps, autoReconn, i, j - 1);
      StepCountsAttempts(ts, steps, autoReconn, j - 1);
    }
  }

  lemma InvBounds(t: Tcp)
    requires Inv(t)
    ensures t.attempts <= MAX_RECONNECTING_TIMES
  {
  }

  lemma StepCountsAttempts(ts: seq<Tcp>, steps: seq<Step>, autoReconn: bool, k: nat)
    requires Run(ts, steps, autoReconn) && k < |steps| && !(ts[k].state == Connecting && steps[k].WriteEvent?)
    ensures ts[k + 1].attempts == ts[k].attempts + if IsAttempt(ts[k], steps[k]) then 1 else 0
  {
  }

  /** A component never waits to be connected once its attempts are used up. */
  lemma NeverWaitsInVain(ts: seq<Tcp>, steps: seq<Step>, autoReconn: bool, i: nat)
    requires Run(ts, steps, autoReconn) && i < |ts| && ts[i].state == ToBeConnecting
    ensures ts[i].budget > 0
  {
    hide Run;
    RunsKeepInv(ts, steps, autoReconn, i);
  }

  /** The worker's list after a command: adding what is there and removing what is not do nothing. */
  function Listed(commands: seq<Command>): bool {
    |commands| > 0 && commands[|commands| - 1] == AddIoc
  }

  function Process(commands: seq<Command>, listed: bool): bool {
    if |commands| == 0 then listed else Process(commands[1..], commands[0] == AddIoc)
  }

  lemma {:induction false} ProcessGivesLast(commands: seq<Command>, listed: bool)
    requires |commands| > 0
    ensures Process(commands, listed) == Listed(commands)
    decreases |commands|
  {
    if |commands| > 1 {
      ProcessGivesLast(commands[1..], commands[0] == AddIoc);
    }
  }

  predicate InUse(t: Tcp) {
    t.state == Connecting || t.state == Connected
  }

  /** The commands agree with the state, but for closes that have still to post theirs. */
  predicate Registered(t: Tcp) {
    && |t.commands| > 0 && (Listed(t.commands) ==> InUse(t) || t.closes != [])
    && (InUse(t) ==> Listed(t.commands)) && (InUse(t) || t.state == ToBeConnecting ==> t.closes == [])
  }

  /** A manual reconnect that succeeds while the handlers of a close are still running. */
  predicate TooEarly(t: Tcp, a: Step) {
    a.Reconnect? && a.connectOk && t.budget == 0 && t.state == Closing && t.closes != []
  }

  lemma StepKeepsRegistered(t: Tcp, a: Step)
    requires Inv(t) && Registered(t) && !TooEarly(t, a)
    ensures Registered(Exec(t, a))
  {
    hide DoCloseAndSet;
    match a
    case WriteEvent(_) => CloseKeepsRegistered(if t.state == Connecting then DoConnected(t) else t, CLOSE);
    case CloseAndSet => CloseKeepsRegistered(t, CLOSE);
    case IdleClose => CloseKeepsRegistered(t.(budget := 0), CLOSE);
    case Check(now, _, _, _) => CloseKeepsRegistered(t, Close(now, true));
    case _ =>
  }

  lemma CloseKeepsRegistered(t: Tcp, c: Close)
    requires Registered(t)
    ensures Registered(DoCloseAndSet(t, c))
  {
  }

  /** In every run in which no manual reconnect is too early, the component is on the worker's list, once
      the commands posted so far have been processed and no close is under way, exactly when it is
      connecting or connected. */
  lemma {:induction false} ListedWhenInUse(ts: seq<Tcp>, steps: seq<Step>, autoReconn: bool, i: nat)
    requires Run(ts, steps, autoReconn) && i < |ts| && forall k :: 0 <= k < i ==> !TooEarly(ts[k], steps[k])
    ensures Registered(ts[i])
    ensures ts[i].closes == [] ==> (Process(ts[i].commands, false) <==> InUse(ts[i]))
    decreases i
  {
    hide Exec, Inv, TooEarly;
    if i > 0 {
      ListedWhenInUse(ts, steps, autoReconn, i - 1);
      RunsKeepInv(ts, steps, autoReconn, i - 1);
      StepKeepsRegistered(ts[i - 1], steps[i - 1]);
    }
    ProcessGivesLast(ts[i].commands, false);
  }

  /** A reconnect that is too early is undone when the close resumes: the component is connecting, and
      off the worker's list. */
  lemma TooEarlyIsUnlisted(t: Tcp, a: Step, k: nat)
    requires TooEarly(t, a) && k < |t.closes|
    ensures var u := Exec(Exec(t, a), Resume(k));
            InUse(u) && |u.closes| == |t.closes| - 1 && !Process(u.commands, false)
  {
    var u := Exec(Exec(t, a), Resume(k));
    ProcessGivesLast(u.commands, false);
  }

  /** Such a reconnect is in reach: a handler that is told of the close calls it. */
  lemma TooEarlyIsReachable() returns (ts: seq<Tcp>, steps: seq<Step>, a: Step)
    ensures Run(ts, steps, false) && |ts| == |steps| + 1 && TooEarly(ts[|steps|], a) && |ts[|steps|].closes| == 1
  {
    var t := Tcp(Connecting, 0, false, 0, 0, [AddIoc], []);
    ts, steps, a := [t, Exec(t, CloseAndSet)], [CloseAndSet], Reconnect(1, true);
  }

  // ----- The last attempt ----------------------------------------------------------------------------

  /** Up again by an automatic attempt, and failed again. */
  function Failed(t: Tcp, attempt: Step): Tcp {
    Exec(Exec(Exec(t, attempt), WriteEvent(true)), CloseAndSet)
  }

  /** In every run an automatic attempt that succeeds gives the component its full budget back, so that
      it reconnects again when it fails, if and only if it was not the last: getting connected fills a
      budget only when there is some left. */
  lemma RefilledUnlessLast(ts: seq<Tcp>, steps: seq<Step>, autoReconn: bool, i: nat, now: int, timeout: int, refs: nat)
    requires Run(ts, steps, autoReconn) && i < |ts| && IsAttempt(ts[i], Check(now, timeout, refs, true))
    ensures var t := Failed(ts[i], Check(now, timeout, refs, true));
            && (t.state == ToBeConnecting <==> ts[i].budget > 1)
            && (t.state == Closing <==> ts[i].budget == 1)
            && t.budget == if ts[i].budget > 1 then MAX_RECONNECTING_TIMES else 0
  {
    hide Run;
    RunsKeepInv(ts, steps, autoReconn, i);
  }

  /** A component that lost its connection and has failed n attempts to get it back. */
  function Waiting(n: nat, commands: seq<Command>): Tcp
    requires n < MAX_RECONNECTING_TIMES
  {
    Tcp(ToBeConnecting, MAX_RECONNECTING_TIMES - n, false, 2 * n * RECONNECTING_INTERVAL, n, commands, [])
  }

  /** A run of failures that comes to any number of attempts left, down to the last. */
  lemma {:induction false} AllAttemptsAreReached(n: nat) returns (ts: seq<Tcp>, steps: seq<Step>)
    requires n < MAX_RECONNECTING_TIMES
    ensures Run(ts, steps, true) && |ts| == |steps| + 1 && ts[|steps|] == Waiting(n, [AddIoc, RemoveIoc])
    decreases n
  {
    if n == 0 {
      var t := Tcp(Connecting, MAX_RECONNECTING_TIMES, false, 0, 0, [AddIoc], []);
      ts, steps := [t, Exec(t, CloseAndSet)], [CloseAndSet];
      assert [AddIoc] + [RemoveIoc] == [AddIoc, RemoveIoc];
    } else {
      ts, steps := AllAttemptsAreReached(n - 1);
      var a := Check(2 * n * RECONNECTING_INTERVAL, 0, 2, false);
      assert Exec(ts[|steps|], a) == Waiting(n, [AddIoc, RemoveIoc]);
      ts, steps := ts + [Exec(ts[|steps|], a)], steps + [a];
    }
  }

  /** So a component may be connected and yet go to CLOSING when its connection fails. */
  lemma LastAttemptEndsReconnecting() returns (ts: seq<Tcp>, steps: seq<Step>, attempt: Step)
    ensures Run(ts, steps, true) && |ts| == |steps| + 1 && IsAttempt(ts[|steps|], attempt)
    ensures Exec(Exec(ts[|steps|], attempt), WriteEvent(true)).state == Connected
    ensures Failed(ts[|steps|], attempt).state == Closing
  {
    hide Run;
    ts, steps := AllAttemptsAreReached(MAX_RECONNECTING_TIMES - 1);
    attempt := Check(60 * RECONNECTING_INTERVAL, 0, 2, true);
  }
}

/** The component as an object whose event handlers update it. Where a close gives up the lock, the
    method ends with the close noted, and Resume goes on with it. */
module TcpComponentObjects {
  import opened TcpComponents

  class TCPComponent {
    var state: IocState
    var autoReconn: nat
    var startConnectTime: int
    const isServer: bool
    // The commands posted to the worker, in order, and the closes whose handlers are running.
    var commands: seq<Command>
    var closes: seq<Close>
    ghost var attempts: nat

    ghost function Abs(): Tcp
      reads this
    {
      Tcp(state, autoReconn, isServer, startConnectTime, attempts, commands, closes)
    }

    constructor (server: bool, reconn: bool, now: int)
      ensures Init(Abs(), reconn)
    {
      isServer := server;
      state := if server then Connected else Connecting;
      autoReconn := if server || !reconn then 0 else MAX_RECONNECTING_TIMES;
      startConnectTime, attempts, commands, closes := now, 0, [AddIoc], [];
    }

    /** hook tells whether the handlers of a close are to run now. */
    method SetState(s: IocState) returns (changed: bool, hook: bool)
      modifies `state
      ensures Abs() == TcpComponents.SetState(old(Abs()), s)
      ensures changed ==> state == s
      ensures !changed <==> old(state) == Closed || (old(state) == Closing && s != Connecting && s != Closed)
      ensures hook <==> old(InUseOrWaiting()) && !InUseOrWaiting()
    {
      if Rank(state) < Rank(Closing) {
        state := s;
        return true, Rank(s) >= Rank(Closing);
      } else if state == Closing {
        if s == Connecting {
          state := s;
          return true, false;
        }
      }
      if Rank(s) > Rank(state) {
        state := s;
        return true, false;
      }
      return false, false;
    }

    predicate InUseOrWaiting()
      reads `state
    {
      state == ToBeConnecting || state == Connecting || state == Connected
    }

    method CloseAndSetState(c: Close)
      modifies this
      ensures Abs() == DoCloseAndSet(old(Abs()), c)
    {
      var _, hook := SetState(if autoReconn > 0 then ToBeConnecting else Closing);
      if hook {
        closes := closes + [c];
      } else {
        Finish(c);
      }
    }

    method Finish(c: Close)
      modifies `commands, `startConnectTime
      ensures Abs() == EndClose(old(Abs()), c)
    {
      if c.setsTime {
        startConnectTime := c.time;
      }
      commands := commands + [RemoveIoc];
    }

    method ResumeClose(k: nat)
      requires k < |closes|
      modifies this
      ensures Abs() == Exec(old(Abs()), Resume(k))
    {
      var c := closes[k];
      closes := closes[..k] + closes[k + 1..];
      Finish(c);
    }

    method HandleWriteEvent(writeOk: bool) returns (ok: bool)
      modifies this
      ensures Abs() == Exec(old(Abs()), WriteEvent(writeOk))
      ensures ok == ((old(state).Connecting? || old(state).Connected?) && writeOk)
    {
      if state == Connecting {
        var _, _ := SetState(Connected);
        autoReconn := if autoReconn > 0 && !isServer then MAX_RECONNECTING_TIMES else 0;
        attempts := 0;
      }
      if state == Connected {
        ok := writeOk;
        if !ok {
          CloseAndSetState(CLOSE);
        }
      } else {
        ok := false;
      }
    }

    method HandleErrorEvent()
      modifies this
      ensures Abs() ==
              if old(state).Connected? || old(state).Connecting? then Exec(old(Abs()), CloseAndSet) else old(Abs())
    {
      if state == Connected || state == Connecting {
        CloseAndSetState(CLOSE);
      }
    }

    method CloseByUser()
      modifies this
      ensures Abs() == Exec(old(Abs()), UserClose)
      ensures state == (if old(InUseOrWaiting()) then Closing else old(state))
      ensures closes == (if old(InUseOrWaiting()) then old(closes) + [CLOSE] else old(closes))
      ensures autoReconn == old(autoReconn) && commands == old(commands)
    {
      var changed, _ := SetState(Closing);
      if changed {
        closes := closes + [CLOSE];
      }
    }

    /** checkTimeout: keep is false when the component is to leave the checking list. */
    method CheckTimeout(now: int, timeout: int, idle: bool, refs: nat, connectOk: bool) returns (keep: bool)
      modifies this
      ensures Abs() == (if old(state).Connected? && isServer && idle then Exec(old(Abs()), IdleClose)
                        else Exec(old(Abs()), Check(now, timeout, refs, connectOk)))
      ensures keep == !(old(state).Closing? && refs == 1)
    {
      keep := true;
      if state == Connecting {
        if startConnectTime > 0 && startConnectTime < now - timeout {
          CloseAndSetState(Close(now, true));
        }
      } else if state == Connected && isServer {
        if idle {
          autoReconn := 0;
          CloseAndSetState(CLOSE);
        }
      } else if state == ToBeConnecting && autoReconn > 0 && startConnectTime < now - RECONNECTING_INTERVAL {
        autoReconn := autoReconn - 1;
        attempts := attempts + 1;
        startConnectTime := now;
        if connectOk {
          commands := commands + [AddIoc];
          var _, _ := SetState(Connecting);
        } else if autoReconn == 0 {
          var _, _ := SetState(Closing);
        }
      } else if state == Closing && refs == 1 {
        var _, _ := SetState(Closed);
        keep := false;
      }
    }

    /** reconnect by hand; refused while the component reconnects by itself. */
    method ReconnectByHand(now: int, connectOk: bool) returns (ok: bool)
      modifies this
      ensures Abs() == Exec(old(Abs()), Reconnect(now, connectOk))
      ensures ok == (old(autoReconn) == 0 && old(state).Closing? && connectOk)
    {
      ok := false;
      if autoReconn == 0 && state == Closing {
        startConnectTime := now;
        if connectOk {
          commands := commands + [AddIoc];
          var _, _ := SetState(Connecting);
          ok := true;
        }
      }
    }
  }
}
