/** The module manager as an object: the loaded flags of the modules and whether it was stopped. */
module ModuleManagers {
  import opened Loading = ModuleLoading

  class ModuleManager {
    const g: Graph
    /** The order in which the map of all modules is iterated. */
    const order: seq<nat>
    var loaded: seq<bool>
    var stopped: bool
    ghost var log: seq<Event>

    ghost predicate Valid()
      reads this
    {
      && Bound(g) && Legal(g, log) && |loaded| == |g.deps|
      && (forall m :: 0 <= m < |loaded| ==> loaded[m] == (m in Up(log)))
      && (forall i :: 0 <= i < |order| ==> order[i] < |g.deps|) && (forall m :: 0 <= m < |g.deps| ==> m in order)
    }

    predicate Empty()
      reads this
    {
      forall m :: 0 <= m < |loaded| ==> !loaded[m]
    }

    constructor (g: Graph, order: seq<nat>)
      requires Bound(g) && (forall i :: 0 <= i < |order| ==> order[i] < |g.deps|)
      requires forall m :: 0 <= m < |g.deps| ==> m in order
      ensures Valid() && stopped && log == [] && this.g == g && this.order == order
    {
      this.g, this.order, stopped, log := g, order, true, [];
      loaded := seq(|g.deps|, _ => false);
    }

    /** BaseModule::Load: the hook is called unless the module is loaded. */
    method LoadModule(m: nat, works: set<nat>) returns (ok: bool)
      requires Valid() && m < |loaded| && forall i :: 0 <= i < |g.deps[m]| ==> g.deps[m][i] in Up(log)
      modifies `loaded, `log
      ensures Valid() && ok == (old(loaded)[m] || m in works)
      ensures log == old(log) + if ok && !old(loaded)[m] then [DidLoad(m)] else []
    {
      hide Legal, Up, Bound;
      if loaded[m] {
        return true;
      }
      if m !in works {
        return false;
      }
      AppendLoad(g, log, m);
      loaded := loaded[m := true];
      log := log + [DidLoad(m)];
      ok := true;
    }

    method Load(m: nat, depth: nat, works: set<nat>) returns (ok: bool)
      requires Valid() && m < |loaded| && depth <= MAX_DEPTH
      modifies `loaded, `log
      ensures Valid() && Outcome(log, ok) == Loading.Load(g, old(log), m, depth, works)
      decreases MAX_DEPTH - depth
    {
      hide Legal, Up;
      if depth >= MAX_DEPTH {
        return false;
      }
      ghost var all := Loading.LoadAll(g, log, g.deps[m], depth + 1, works);
      LoadAllIsLegal(g, log, g.deps[m], depth + 1, works);
      for i := 0 to |g.deps[m]|
        invariant Valid() && Loading.LoadAll(g, log, g.deps[m][i..], depth + 1, works) == all
      {
        var d := g.deps[m][i];
        assert g.deps[m][i..][0] == d && g.deps[m][i..][1..] == g.deps[m][i + 1..];
        if !loaded[d] {
          var done := Load(d, depth + 1, works);
          if !done {
            return false;
          }
        }
      }
      assert |g.deps[m][|g.deps[m]|..]| == 0;
      ok := LoadModule(m, works);
    }

    /** BaseModule::Unload. */
    method UnloadModule(m: nat, works: set<nat>) returns (ok: bool)
      requires Valid() && m < |loaded| && forall i :: 0 <= i < |g.rev[m]| ==> g.rev[m][i] !in Up(log)
      modifies `loaded, `log
      ensures Valid() && ok == (!old(loaded)[m] || m in works)
      ensures log == old(log) + if ok && old(loaded)[m] then [DidUnload(m)] else []
    {
      hide Legal, Up, Bound;
      if !loaded[m] {
        return true;
      }
      if m !in works {
        return false;
      }
      AppendUnload(g, log, m);
      loaded := loaded[m := false];
      log := log + [DidUnload(m)];
      ok := true;
    }

    method Unload(m: nat, depth: nat, works: set<nat>) returns (ok: bool)
      requires Valid() && m < |loaded| && depth <= MAX_DEPTH
      modifies `loaded, `log
      ensures Valid() && Outcome(log, ok) == Loading.Unload(g, old(log), m, depth, works)
      decreases MAX_DEPTH - depth
    {
      hide Legal, Up;
      if depth >= MAX_DEPTH {
        return false;
      }
      ghost var all := Loading.UnloadAll(g, log, g.rev[m], depth + 1, works);
      UnloadAllIsLegal(g, log, g.rev[m], depth + 1, works);
      for i := 0 to |g.rev[m]|
        invariant Valid() && Loading.UnloadAll(g, log, g.rev[m][i..], depth + 1, works) == all
      {
        var d := g.rev[m][i];
        assert g.rev[m][i..][0] == d && g.rev[m][i..][1..] == g.rev[m][i + 1..];
        if loaded[d] {
          var done := Unload(d, depth + 1, works);
          if !done {
            return false;
          }
        }
      }
      assert |g.rev[m][|g.rev[m]|..]| == 0;
      ok := UnloadModule(m, works);
    }

    /** A manager that is not stopped has been started and does nothing. */
    method Start(works: set<nat>) returns (ok: bool)
      requires Valid()
      modifies this
      ensures Valid()
      ensures !old(stopped) ==> ok && log == old(log) && !stopped
      ensures old(stopped) ==> Outcome(log, ok) == StartAll(g, old(log), order, works) && stopped == !ok
      ensures old(stopped) && ok ==> forall m :: 0 <= m < |loaded| ==> loaded[m]
    {
      hide Legal, Up, Loading.Load;
      if !stopped {
        return true;
      }
      ghost var all := StartAll(g, log, order, works);
      StartIsLegal(g, log, order, works);
      assert order[0..] == order;
      for i := 0 to |order|
        invariant Valid() && stopped && StartAll(g, log, order[i..], works) == all
      {
        assert order[i] in order && order[i..][1..] == order[i + 1..];
        ok := Load(order[i], 0, works);
        if !ok {
          return false;
        }
      }
      assert |order[|order|..]| == 0;
      forall m | 0 <= m < |loaded| ensures loaded[m] {
        assert m in order;
      }
      stopped := false;
      ok := true;
    }

    /** A manager that is stopped does nothing; a successful stop of a started one leaves nothing
        loaded. */
    method Stop(works: set<nat>) returns (ok: bool)
      requires Valid()
      modifies this
      ensures Valid()
      ensures old(stopped) ==> ok && log == old(log) && stopped
      ensures !old(stopped) ==> Outcome(log, ok) == StopAll(g, old(log), order, works) && stopped == ok
      ensures ok ==> (Empty() <==> !old(stopped) || old(Empty()))
    {
      hide Legal, Up, Loading.Unload;
      if stopped {
        return true;
      }
      ghost var all := StopAll(g, log, order, works);
      StopIsLegal(g, log, order, works);
      assert order[0..] == order;
      for i := 0 to |order|
        invariant Valid() && !stopped && StopAll(g, log, order[i..], works) == all
      {
        assert order[i] in order && order[i..][1..] == order[i + 1..];
        ok := Unload(order[i], 0, works);
        if !ok {
          return false;
        }
      }
      assert |order[|order|..]| == 0;
      forall m | 0 <= m < |loaded| ensures !loaded[m] {
        assert m in order;
      }
      stopped := true;
      ok := true;
    }
  }

  /** A start that fails half way leaves modules loaded and the manager marked as stopped, so that Stop
      then does nothing. */
  lemma FailedStartLeavesModules(g: Graph)
    requires g == Graph([[], []], [[], []])
    ensures Bound(g) && StartAll(g, [], [0, 1], {0}) == Outcome([DidLoad(0)], false) && Up([DidLoad(0)]) == [0]
  {
    hide Loading.Load, LoadAll, Up;
    var log := [DidLoad(0)];
    FirstUp();
    LoadOne(g, [], 0, {0});
    LoadOne(g, log, 1, {0});
    assert [] + [DidLoad(0)] == log && [0, 1][1..] == [1];
    assert StartAll(g, log, [1], {0}) == Outcome(log, false);
  }

  lemma FirstUp()
    ensures Up([DidLoad(0)]) == [0] && Up([]) == []
  {
    assert [DidLoad(0)][..0] == [];
  }

  /** A module without dependencies is loaded if its hook succeeds. */
  lemma LoadOne(g: Graph, log: seq<Event>, m: nat, works: set<nat>)
    requires Bound(g) && m < |g.deps| && g.deps[m] == [] && m !in Up(log)
    ensures Loading.Load(g, log, m, 0, works) ==
            if m in works then Outcome(log + [DidLoad(m)], true) else Outcome(log, false)
  {
    assert LoadAll(g, log, [], 1, works) == Outcome(log, true);
  }
}
