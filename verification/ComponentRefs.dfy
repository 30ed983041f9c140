/** Who holds a component: the user, the worker's list, commands on their way to the worker, and the
    checking lists. The count of references is kept through all of them, and a component is deleted
    when it falls to zero. Components are numbered; the transport is not torn down here. */
module ComponentRefs {

  datatype Command = AddIoc(c: nat) | RemoveIoc(c: nat)

  datatype State = State(
    refs: seq<int>,
    users: seq<nat>,
    /** Referenced by the worker: the flag in the component, and the worker's list. */
    flagged: seq<bool>, list: seq<nat>,
    commands: seq<Command>,
    checking: seq<nat>, newChecking: seq<nat>,
    deleted: seq<bool>)

  datatype Step =
    | Create
    | UserAddRef(c: nat)
    | UserSubRef(c: nat)
    | PostCommand(command: Command)
    | ProcessCommand
    | AddToChecking(c: nat)
    | Collect
    | DropChecked(i: nat)

  predicate Init(s: State) {
    s == State([], [], [], [], [], [], [], [])
  }

  /** Whoever acts on a component holds a reference to it. */
  predicate Enabled(s: State, a: Step) {
    && |s.users| == |s.refs| && |s.flagged| == |s.refs| && |s.deleted| == |s.refs|
    && match a
       case Create => true
       case UserAddRef(c) => c < |s.refs| && s.refs[c] > 0
       case UserSubRef(c) => c < |s.refs| && s.users[c] > 0
       case PostCommand(m) => m.c < |s.refs| && s.refs[m.c] > 0
       case ProcessCommand => |s.commands| > 0 && s.commands[0].c < |s.refs|
       case AddToChecking(c) => c < |s.refs| && s.refs[c] > 0
       case Collect => true
       case DropChecked(i) => i < |s.checking| && s.checking[i] < |s.refs|
  }

  function AddRef(s: State, c: nat): State
    requires c < |s.refs|
  {
    s.(refs := s.refs[c := s.refs[c] + 1])
  }

  /** The last reference deletes the component. */
  function SubRef(s: State, c: nat): State
    requires c < |s.refs| == |s.deleted|
  {
    s.(refs := s.refs[c := s.refs[c] - 1], deleted := if s.refs[c] == 1 then s.deleted[c := true] else s.deleted)
  }

  function RemoveFirst(s: seq<nat>, c: nat): seq<nat> {
    if |s| == 0 then [] else if s[0] == c then s[1..] else [s[0]] + RemoveFirst(s[1..], c)
  }

  /** addComponent and removeComponent do nothing when the flag says so. */
  function DoAdd(s: State, c: nat): State
    requires c < |s.refs| == |s.flagged|
  {
    if s.flagged[c] then s
    else AddRef(s.(list := s.list + [c], flagged := s.flagged[c := true]), c)
  }

  function DoRemove(s: State, c: nat): State
    requires c < |s.refs| == |s.flagged| && |s.deleted| == |s.refs|
  {
    if !s.flagged[c] then s
    else SubRef(s.(list := RemoveFirst(s.list, c), flagged := s.flagged[c := false]), c)
  }

  /** One round of processCommands. */
  function DoProcess(s: State): State
    requires Enabled(s, ProcessCommand)
  {
    var m, t := s.commands[0], s.(commands := s.commands[1..]);
    SubRef(if m.AddIoc? then DoAdd(t, m.c) else DoRemove(t, m.c), m.c)
  }

  function Exec(s: State, a: Step): State
    requires Enabled(s, a)
  {
    match a
    case Create =>
      s.(refs := s.refs + [1], users := s.users + [1], flagged := s.flagged + [false], deleted := s.deleted + [false])
    case UserAddRef(c) => AddRef(s.(users := s.users[c := s.users[c] + 1]), c)
    case UserSubRef(c) => SubRef(s.(users := s.users[c := s.users[c] - 1]), c)
    case PostCommand(m) => AddRef(s.(commands := s.commands + [m]), m.c)
    case ProcessCommand => DoProcess(s)
    case AddToChecking(c) => AddRef(s.(newChecking := s.newChecking + [c]), c)
    case Collect => s.(checking := s.checking + s.newChecking, newChecking := [])
    case DropChecked(i) => SubRef(s.(checking := s.checking[..i] + s.checking[i + 1..]), s.checking[i])
  }

  // ----- The count -------------------------------------------------------------------------------------

  function Count(s: seq<nat>, c: nat): nat {
    multiset(s)[c]
  }

  function Pending(commands: seq<Command>, c: nat): nat {
    if |commands| == 0 then 0 else (if commands[0].c == c then 1 else 0) + Pending(commands[1..], c)
  }

  /** All that holds a component. */
  function Holders(s: State, c: nat): nat
    requires c < |s.users|
  {
    s.users[c] + Count(s.list, c) + Pending(s.commands, c) + Count(s.checking, c) + Count(s.newChecking, c)
  }

  ghost predicate Shape(s: State) {
    && |s.users| == |s.refs| && |s.flagged| == |s.refs| && |s.deleted| == |s.refs|
    && (forall c :: c in s.list || c in s.checking || c in s.newChecking ==> c < |s.refs|)
    && (forall i :: 0 <= i < |s.commands| ==> s.commands[i].c < |s.refs|)
  }

  ghost predicate Counted(s: State) {
    && Shape(s)
    && (forall c :: 0 <= c < |s.refs| ==> s.refs[c] == Holders(s, c))
    && (forall c :: 0 <= c < |s.refs| ==> Count(s.list, c) == if s.flagged[c] then 1 else 0)
    && (forall c :: 0 <= c < |s.refs| ==> (s.deleted[c] <==> s.refs[c] == 0))
  }

  lemma {:induction false} RemoveFirstCount(s: seq<nat>, c: nat, x: nat)
    ensures Count(RemoveFirst(s, c), x) == Count(s, x) - if x == c && c in s then 1 else 0
    ensures x in RemoveFirst(s, c) ==> x in s
  {
    if |s| > 0 {
      assert s == [s[0]] + s[1..];
      RemoveFirstCount(s[1..], c, x);
    }
  }

  lemma {:induction false} PendingAppend(commands: seq<Command>, m: Command, c: nat)
    ensures Pending(commands + [m], c) == Pending(commands, c) + if m.c == c then 1 else 0
  {
    if |commands| == 0 {
      assert (commands + [m])[1..] == [];
    } else {
      PendingAppend(commands[1..], m, c);
      assert (commands + [m])[1..] == commands[1..] + [m];
    }
  }

  lemma CountAppend(a: seq<nat>, b: seq<nat>, c: nat)
    ensures Count(a + b, c) == Count(a, c) + Count(b, c)
  {
  }

  lemma CountOne(d: nat, c: nat)
    ensures Count([d], c) == if d == c then 1 else 0
  {
  }

  lemma CountDrop(s: seq<nat>, i: nat, c: nat)
    requires i < |s|
    ensures Count(s[..i] + s[i + 1..], c) == Count(s, c) - if s[i] == c then 1 else 0
  {
    assert s == s[..i] + [s[i]] + s[i + 1..];
  }

  // ----- Every step keeps it ---------------------------------------------------------------------------

  lemma {:induction false} NoneBeyond(s: State, c: nat)
    requires Shape(s) && c >= |s.refs|
    ensures Count(s.list, c) == 0 && Count(s.checking, c) == 0 && Count(s.newChecking, c) == 0 &&
            Pending(s.commands, c) == 0
  {
    PendingBeyond(s.commands, c);
    assert c !in s.list && c !in s.checking && c !in s.newChecking;
    assert c !in multiset(s.list) && c !in multiset(s.checking) && c !in multiset(s.newChecking);
  }

  lemma {:induction false} PendingBeyond(commands: seq<Command>, c: nat)
    requires forall i :: 0 <= i < |commands| ==> commands[i].c != c
    ensures Pending(commands, c) == 0
  {
    if |commands| > 0 { PendingBeyond(commands[1..], c); }
  }

  lemma CreateKeepsCount(s: State)
    requires Counted(s)
    ensures Counted(Exec(s, Create))
  {
    hide Count, Pending;
    NoneBeyond(s, |s.refs|);
  }

  lemma UserKeepsCount(s: State, c: nat)
    requires Counted(s) && c < |s.refs|
    ensures s.refs[c] > 0 ==> Counted(Exec(s, UserAddRef(c)))
    ensures s.users[c] > 0 ==> Counted(Exec(s, UserSubRef(c)))
  {
    hide Count, Pending;
  }

  lemma PostKeepsCount(s: State, m: Command)
    requires Counted(s) && m.c < |s.refs| && s.refs[m.c] > 0
    ensures Counted(Exec(s, PostCommand(m)))
  {
    hide Count, Pending;
    forall c: nat ensures Pending(s.commands + [m], c) == Pending(s.commands, c) + if m.c == c then 1 else 0 {
      PendingAppend(s.commands, m, c);
    }
  }

  lemma CheckingKeepsCount(s: State, c: nat)
    requires Counted(s) && c < |s.refs| && s.refs[c] > 0
    ensures Counted(Exec(s, AddToChecking(c)))
  {
    hide Count, Pending;
    forall x: nat ensures Count(s.newChecking + [c], x) == Count(s.newChecking, x) + if x == c then 1 else 0 {
      CountAppend(s.newChecking, [c], x);
      CountOne(c, x);
    }
  }

  lemma CollectKeepsCount(s: State)
    requires Counted(s)
    ensures Counted(Exec(s, Collect))
  {
    hide Count, Pending;
    forall x: nat ensures Count(s.checking + s.newChecking, x) == Count(s.checking, x) + Count(s.newChecking, x) {
      CountAppend(s.checking, s.newChecking, x);
    }
    NoneInEmpty();
  }

  lemma NoneInEmpty()
    ensures forall x :: Count([], x) == 0
  {
  }

  lemma DropKeepsCount(s: State, i: nat)
    requires Counted(s) && i < |s.checking| && s.checking[i] < |s.refs|
    ensures Counted(Exec(s, DropChecked(i)))
  {
    hide Count, Pending;
    forall x: nat
      ensures Count(s.checking[..i] + s.checking[i + 1..], x) ==
              Count(s.checking, x) - if s.checking[i] == x then 1 else 0
    {
      CountDrop(s.checking, i, x);
    }
    HeldByChecking(s, i);
  }

  lemma HeldByChecking(s: State, i: nat)
    requires Counted(s) && i < |s.checking| && s.checking[i] < |s.refs|
    ensures s.refs[s.checking[i]] > 0
  {
    assert s.checking[i] in multiset(s.checking);
  }

  /** A state in which one reference to c is not accounted for: that of a command being processed. */
  ghost predicate OneMore(s: State, c: nat) {
    && Shape(s) && c < |s.refs|
    && (forall x :: 0 <= x < |s.refs| ==> s.refs[x] == Holders(s, x) + if x == c then 1 else 0)
    && (forall x :: 0 <= x < |s.refs| ==> Count(s.list, x) == if s.flagged[x] then 1 else 0)
    && (forall x :: 0 <= x < |s.refs| ==> (s.deleted[x] <==> s.refs[x] == 0))
  }

  lemma AddKeepsOneMore(s: State, c: nat)
    requires OneMore(s, c)
    ensures OneMore(DoAdd(s, c), c)
  {
    hide Count, Pending;
    forall x: nat ensures Count(s.list + [c], x) == Count(s.list, x) + if x == c then 1 else 0 {
      CountAppend(s.list, [c], x);
      CountOne(c, x);
    }
  }

  lemma RemoveKeepsOneMore(s: State, c: nat)
    requires OneMore(s, c)
    ensures OneMore(DoRemove(s, c), c)
  {
    hide Pending, RemoveFirst;
    forall x: nat
      ensures Count(RemoveFirst(s.list, c), x) == Count(s.list, x) - if x == c && c in s.list then 1 else 0
      ensures x in RemoveFirst(s.list, c) ==> x in s.list
    {
      RemoveFirstCount(s.list, c, x);
    }
    assert s.flagged[c] ==> c in s.list;
  }

  lemma ProcessKeepsCount(s: State)
    requires Counted(s) && |s.commands| > 0
    ensures Counted(Exec(s, ProcessCommand))
  {
    var m, t := s.commands[0], s.(commands := s.commands[1..]);
    assert OneMore(t, m.c);
    AddKeepsOneMore(t, m.c);
    RemoveKeepsOneMore(t, m.c);
    Release(if m.AddIoc? then DoAdd(t, m.c) else DoRemove(t, m.c), m.c);
  }

  lemma Release(s: State, c: nat)
    requires OneMore(s, c)
    ensures Counted(SubRef(s, c))
  {
    hide Count, Pending;
  }

  lemma StepKeepsCount(s: State, a: Step)
    requires Counted(s) && Enabled(s, a)
    ensures Counted(Exec(s, a))
  {
    hide Counted, Holders;
    assert Shape(s) by { OpenCounted(s); }
    match a
    case Create => CreateKeepsCount(s);
    case UserAddRef(c) => UserKeepsCount(s, c);
    case UserSubRef(c) => UserKeepsCount(s, c);
    case PostCommand(m) => PostKeepsCount(s, m);
    case ProcessCommand => ProcessKeepsCount(s);
    case AddToChecking(c) => CheckingKeepsCount(s, c);
    case Collect => CollectKeepsCount(s);
    case DropChecked(i) => DropKeepsCount(s, i);
  }

  lemma OpenCounted(s: State)
    requires Counted(s)
    ensures Shape(s)
  {
  }

  ghost predicate Run(states: seq<State>, steps: seq<Step>) {
    && |states| == |steps| + 1 && Init(states[0])
    && forall i :: 0 <= i < |steps| ==> Enabled(states[i], steps[i]) && states[i + 1] == Exec(states[i], steps[i])
  }

  /** In every run the count of references is the number of holders. */
  lemma {:induction false} RunsKeepCount(states: seq<State>, steps: seq<Step>, i: nat)
    requires Run(states, steps) && i < |states|
    ensures Counted(states[i])
  {
    hide Counted, Exec, Enabled;
    if i == 0 {
      NothingIsCounted(states[0]);
    } else {
      RunsKeepCount(states, steps, i - 1);
      StepKeepsCount(states[i - 1], steps[i - 1]);
    }
  }

  lemma NothingIsCounted(s: State)
    requires Init(s)
    ensures Counted(s)
  {
  }

  /** A deleted component is linked from nowhere: no user, list, command or checking list holds it. */
  lemma DeletedIsUnlinked(states: seq<State>, steps: seq<Step>, i: nat, c: nat)
    requires Run(states, steps) && i < |states| && c < |states[i].refs| && c < |states[i].deleted| &&
             states[i].deleted[c]
    ensures var s := states[i];
            && c < |s.users| && s.users[c] == 0 && c !in s.list && c !in s.checking && c !in s.newChecking
            && forall k :: 0 <= k < |s.commands| ==> s.commands[k].c != c
  {
    hide Run;
    RunsKeepCount(states, steps, i);
    NoPending(states[i].commands, c);
  }

  lemma {:induction false} NoPending(commands: seq<Command>, c: nat)
    ensures Pending(commands, c) == 0 <==> forall k :: 0 <= k < |commands| ==> commands[k].c != c
  {
    if |commands| > 0 { NoPending(commands[1..], c); }
  }

  /** A component in the checking list whose count is one is held by that list alone, and once. So when
      a closing component with count one is dropped from the list, nothing else can reach it. */
  lemma LastHolderIsTheCheckingList(states: seq<State>, steps: seq<Step>, i: nat, k: nat)
    requires Run(states, steps) && i < |states| && k < |states[i].checking| && states[i].checking[k] < |states[i].refs|
    requires states[i].refs[states[i].checking[k]] == 1
    ensures var s := states[i]; var c := s.checking[k];
            && c < |s.users| && s.users[c] == 0 && c !in s.list && c !in s.newChecking && Count(s.checking, c) == 1
            && (forall j :: 0 <= j < |s.commands| ==> s.commands[j].c != c)
            && Enabled(s, DropChecked(k)) && c < |Exec(s, DropChecked(k)).deleted| && Exec(s, DropChecked(k)).deleted[c]
  {
    hide Run;
    RunsKeepCount(states, steps, i);
    var s := states[i];
    var c := s.checking[k];
    assert c in multiset(s.checking);
    NoPending(s.commands, c);
  }
}
