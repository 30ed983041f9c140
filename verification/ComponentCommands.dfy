/** What the worker's commands come to: an add puts its component on the list and a remove takes it off,
    whatever was there before, so that the last command posted for a component decides. */
module ComponentCommands {
  import opened ComponentRefs
  import TcpComponents

  // ----- One command -------------------------------------------------------------------------------

  /** The list without a component. */
  function Others(list: seq<nat>, c: nat): seq<nat> {
    if |list| == 0 then [] else (if list[0] == c then [] else [list[0]]) + Others(list[1..], c)
  }

  lemma {:induction false} OthersAppend(list: seq<nat>, c: nat)
    ensures Others(list + [c], c) == Others(list, c)
  {
    if |list| == 0 {
      assert (list + [c])[1..] == [];
    } else {
      assert (list + [c])[1..] == list[1..] + [c];
      OthersAppend(list[1..], c);
    }
  }

  lemma {:induction false} OthersRemove(list: seq<nat>, c: nat)
    ensures Others(RemoveFirst(list, c), c) == Others(list, c)
  {
    if |list| > 0 && list[0] != c {
      OthersRemove(list[1..], c);
      assert RemoveFirst(list, c)[1..] == RemoveFirst(list[1..], c);
    }
  }

  lemma {:induction false} OthersMembers(list: seq<nat>, c: nat, x: nat)
    ensures x in Others(list, c) <==> x in list && x != c
  {
    if |list| > 0 {
      OthersMembers(list[1..], c, x);
      assert list == [list[0]] + list[1..];
    }
  }

  /** A command has been processed: its component is on the list exactly when it is an add, all others are
      where they were, in the same order, and the other commands are still to come. */
  ghost predicate Processed(s: State, m: Command, t: State) {
    && (m.c in t.list <==> m.AddIoc?) && Others(t.list, m.c) == Others(s.list, m.c)
    && (forall x :: x != m.c ==> (x in t.list <==> x in s.list))
  }

  lemma AddLists(s: State, c: nat)
    requires Counted(s) && c < |s.refs|
    ensures Processed(s, AddIoc(c), DoAdd(s, c))
  {
    assert c in s.list <==> c in multiset(s.list);
    OthersAppend(s.list, c);
  }

  lemma RemoveUnlists(s: State, c: nat)
    requires Counted(s) && c < |s.refs|
    ensures Processed(s, RemoveIoc(c), DoRemove(s, c))
  {
    var t := DoRemove(s, c);
    assert c in s.list <==> c in multiset(s.list);
    OthersRemove(s.list, c);
    RemoveFirstCount(s.list, c, c);
    assert c in t.list <==> c in multiset(t.list);
    forall x | x != c ensures x in t.list <==> x in s.list {
      OthersMembers(s.list, c, x);
      OthersMembers(t.list, c, x);
    }
  }

  lemma StepProcesses(s: State)
    requires Counted(s) && |s.commands| > 0
    ensures Enabled(s, ProcessCommand) && Processed(s, s.commands[0], Exec(s, ProcessCommand))
    ensures Exec(s, ProcessCommand).commands == s.commands[1..]
  {
    hide Processed, Holders;
    var m, t := s.commands[0], s.(commands := s.commands[1..]);
    if m.AddIoc? {
      AddLists(s, m.c);
      SameList(s, m, DoAdd(s, m.c), DoAdd(t, m.c));
      SameList(s, m, DoAdd(t, m.c), Exec(s, ProcessCommand));
    } else {
      RemoveUnlists(s, m.c);
      SameList(s, m, DoRemove(s, m.c), DoRemove(t, m.c));
      SameList(s, m, DoRemove(t, m.c), Exec(s, ProcessCommand));
    }
  }

  lemma SameList(s: State, m: Command, t: State, u: State)
    requires Processed(s, m, t) && u.list == t.list
    ensures Processed(s, m, u)
  {
  }

  /** In every run processing a command does just that. */
  lemma CommandsDoWhatTheySay(states: seq<State>, steps: seq<Step>, i: nat)
    requires Run(states, steps) && i < |steps| && steps[i] == ProcessCommand
    ensures |states[i].commands| > 0 && Processed(states[i], states[i].commands[0], states[i + 1])
    ensures states[i + 1].commands == states[i].commands[1..]
  {
    hide Counted, Processed;
    RunsKeepCount(states, steps, i);
    assert Enabled(states[i], steps[i]) && states[i + 1] == Exec(states[i], steps[i]);
    StepProcesses(states[i]);
  }

  // ----- The last command --------------------------------------------------------------------------

  /** The commands for a component, true for an add. */
  function For(commands: seq<Command>, c: nat): seq<bool> {
    if |commands| == 0 then []
    else For(commands[..|commands| - 1], c) +
         if commands[|commands| - 1].c == c then [commands[|commands| - 1].AddIoc?] else []
  }

  /** All commands that have been posted for a component. */
  function Posted(steps: seq<Step>, i: nat, c: nat): seq<bool>
    requires i <= |steps|
  {
    if i == 0 then []
    else Posted(steps, i - 1, c) +
         if steps[i - 1].PostCommand? && steps[i - 1].command.c == c then [steps[i - 1].command.AddIoc?] else []
  }

  /** Whether the last command is an add, or, with no command, what was there. */
  predicate Last(kinds: seq<bool>, listed: bool) {
    if |kinds| == 0 then listed else kinds[|kinds| - 1]
  }

  /** Where a component will be when all pending commands are processed. */
  predicate WillBeListed(s: State, c: nat) {
    Last(For(s.commands, c), c in s.list)
  }

  lemma {:induction false} ForFirst(commands: seq<Command>, c: nat)
    requires |commands| > 0
    ensures For(commands, c) == (if commands[0].c == c then [commands[0].AddIoc?] else []) + For(commands[1..], c)
    decreases |commands|
  {
    var n := |commands| - 1;
    if n > 0 {
      ForFirst(commands[..n], c);
      assert commands[..n][1..] == commands[1..][..n - 1];
    }
  }

  lemma StepKeepsWill(s: State, a: Step, c: nat)
    requires Counted(s) && Enabled(s, a)
    ensures WillBeListed(Exec(s, a), c) ==
            if a.PostCommand? && a.command.c == c then a.command.AddIoc? else WillBeListed(s, c)
  {
    hide Counted;
    var t := Exec(s, a);
    if a.ProcessCommand? {
      StepProcesses(s);
      ForFirst(s.commands, c);
    } else if a.PostCommand? {
      assert t.commands[..|s.commands|] == s.commands;
    }
  }

  /** In every run a component will be on the list, once all pending commands are processed, exactly when the
      last command ever posted for it is an add. Without pending commands for it, it is there just then. */
  lemma {:induction false} LastCommandDecides(states: seq<State>, steps: seq<Step>, i: nat, c: nat)
    requires Run(states, steps) && i <= |steps|
    ensures WillBeListed(states[i], c) <==> Last(Posted(steps, i, c), false)
    ensures For(states[i].commands, c) == [] ==> (c in states[i].list <==> Last(Posted(steps, i, c), false))
    decreases i
  {
    hide Counted, Exec, Enabled;
    if i > 0 {
      LastCommandDecides(states, steps, i - 1, c);
      RunsKeepCount(states, steps, i - 1);
      StepKeepsWill(states[i - 1], steps[i - 1], c);
    }
  }

  // ----- The checking list -------------------------------------------------------------------------

  /** In every run a component that was handed to the checking thread is on its list after it has next
      collected. */
  lemma {:induction false} HandedOverIsChecked(states: seq<State>, steps: seq<Step>, i: nat, j: nat, c: nat)
    requires Run(states, steps) && i < j < |steps| && steps[i] == AddToChecking(c) && steps[j] == Collect
    requires forall k :: i < k < j ==> steps[k] != Collect
    ensures c in states[j + 1].checking
  {
    hide Exec, Enabled;
    StaysHandedOver(states, steps, i, j, c);
    Collects(states[j]);
  }

  lemma {:induction false} StaysHandedOver(states: seq<State>, steps: seq<Step>, i: nat, j: nat, c: nat)
    requires Run(states, steps) && i < j < |states| && steps[i] == AddToChecking(c)
    requires forall k :: i < k < j ==> steps[k] != Collect
    ensures c in states[j].newChecking
    decreases j
  {
    hide Exec, Enabled;
    if i + 1 < j {
      StaysHandedOver(states, steps, i, j - 1, c);
    }
    HandsOver(states[j - 1], steps[j - 1]);
  }

  lemma HandsOver(s: State, a: Step)
    requires Enabled(s, a)
    ensures a != Collect ==> forall c :: c in s.newChecking ==> c in Exec(s, a).newChecking
    ensures a.AddToChecking? ==> a.c in Exec(s, a).newChecking
  {
  }

  lemma Collects(s: State)
    ensures Enabled(s, Collect) ==>
              forall c :: c in s.newChecking || c in s.checking ==> c in Exec(s, Collect).checking
  {
  }

  // ----- The component that posts them -------------------------------------------------------------

  function Kinds(commands: seq<TcpComponents.Command>): (r: seq<bool>)
    ensures |r| == |commands| && forall i :: 0 <= i < |commands| ==> r[i] == commands[i].AddIoc?
  {
    seq(|commands|, i requires 0 <= i < |commands| => commands[i].AddIoc?)
  }

  /** A TCP component and the worker, each in a run of its own, the commands posted for the component being
      those it posts: with none of them pending and no close under way, the component is on the worker's
      list exactly when it is connecting or connected, unless a manual reconnect was too early. */
  lemma PolledWhenInUse(ts: seq<TcpComponents.Tcp>, events: seq<TcpComponents.Step>, autoReconn: bool, k: nat,
                        states: seq<State>, steps: seq<Step>, i: nat, c: nat)
    requires TcpComponents.Run(ts, events, autoReconn) && k < |ts| && ts[k].closes == []
    requires forall j :: 0 <= j < k ==> !TcpComponents.TooEarly(ts[j], events[j])
    requires Run(states, steps) && i <= |steps| && For(states[i].commands, c) == []
    requires Posted(steps, i, c) == Kinds(ts[k].commands)
    ensures c in states[i].list <==> TcpComponents.InUse(ts[k])
  {
    hide Run, TcpComponents.Run, For, Posted;
    TcpComponents.ListedWhenInUse(ts, events, autoReconn, k);
    LastCommandDecides(states, steps, i, c);
  }
}
