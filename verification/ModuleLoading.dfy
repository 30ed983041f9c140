/** The module manager: modules are loaded after what they depend on and unloaded before it, by
    recursion of bounded depth over dependency maps in any iteration order. */
module ModuleLoading {

  const MAX_DEPTH: nat := 64

  /** deps and rev list, per module, what it depends on and what depends on it, in the order in which
      their maps are iterated. */
  datatype Graph = Graph(deps: seq<seq<nat>>, rev: seq<seq<nat>>)

  /** BindDependModule: every dependency exists, and is told who depends on it. */
  predicate Bound(g: Graph) {
    && |g.rev| == |g.deps|
    && (forall m, i :: 0 <= m < |g.deps| && 0 <= i < |g.deps[m]| ==> g.deps[m][i] < |g.deps|)
    && (forall m, i :: 0 <= m < |g.rev| && 0 <= i < |g.rev[m]| ==> g.rev[m][i] < |g.deps|)
    && (forall m, d :: 0 <= m < |g.deps| && d in g.deps[m] ==> m in g.rev[d])
    && (forall m, d :: 0 <= d < |g.rev| && m in g.rev[d] ==> d in g.deps[m])
  }

  /** What the modules' own hooks have done, in order. */
  datatype Event = DidLoad(m: nat) | DidUnload(m: nat)

  function Index(s: seq<nat>, m: nat): (i: nat)
    ensures i <= |s| && (i < |s| ==> s[i] == m) && forall k :: 0 <= k < i ==> s[k] != m
  {
    if |s| == 0 || s[0] == m then 0 else 1 + Index(s[1..], m)
  }

  function Remove(s: seq<nat>, m: nat): seq<nat> {
    var i := Index(s, m);
    if i == |s| then s else s[..i] + s[i + 1..]
  }

  /** The loaded modules, in the order in which they were loaded. */
  function Up(log: seq<Event>): seq<nat> {
    if |log| == 0 then []
    else
      var up := Up(log[..|log| - 1]);
      match log[|log| - 1]
      case DidLoad(m) => up + [m]
      case DidUnload(m) => Remove(up, m)
  }

  /** A module is loaded when it is not loaded and all it depends on is; it is unloaded when it is
      loaded and nothing that depends on it is. */
  predicate Legal(g: Graph, log: seq<Event>)
    requires Bound(g)
  {
    if |log| == 0 then true
    else
      var front := log[..|log| - 1];
      && Legal(g, front)
      && match log[|log| - 1]
         case DidLoad(m) =>
           m < |g.deps| && m !in Up(front) &&
           (forall i :: 0 <= i < |g.deps[m]| ==> g.deps[m][i] in Up(front))
         case DidUnload(m) =>
           m < |g.deps| && m in Up(front) &&
           (forall i :: 0 <= i < |g.rev[m]| ==> g.rev[m][i] !in Up(front))
  }

  // ----- Loading -----------------------------------------------------------------------------------

  datatype Outcome = Outcome(log: seq<Event>, ok: bool)

  /** works: the modules whose hooks succeed when they are called. */
  function Load(g: Graph, log: seq<Event>, m: nat, depth: nat, works: set<nat>): Outcome
    requires Bound(g) && m < |g.deps| && depth <= MAX_DEPTH
    decreases 2 * (MAX_DEPTH - depth), 0
  {
    if depth >= MAX_DEPTH then Outcome(log, false)
    else
      var r := LoadAll(g, log, g.deps[m], depth + 1, works);
      if !r.ok then r
      else if m in Up(r.log) then r
      else if m !in works then Outcome(r.log, false)
      else Outcome(r.log + [DidLoad(m)], true)
  }

  function LoadAll(g: Graph, log: seq<Event>, list: seq<nat>, depth: nat, works: set<nat>): Outcome
    requires Bound(g) && (forall i :: 0 <= i < |list| ==> list[i] < |g.deps|) && depth <= MAX_DEPTH
    decreases 2 * (MAX_DEPTH - depth) + 1, |list|
  {
    if |list| == 0 then Outcome(log, true)
    else if list[0] in Up(log) then LoadAll(g, log, list[1..], depth, works)
    else
      var r := Load(g, log, list[0], depth, works);
      if !r.ok then r else LoadAll(g, r.log, list[1..], depth, works)
  }

  /** The loop of Start over all modules, loaded or not. */
  function StartAll(g: Graph, log: seq<Event>, order: seq<nat>, works: set<nat>): Outcome
    requires Bound(g) && forall i :: 0 <= i < |order| ==> order[i] < |g.deps|
    decreases |order|
  {
    if |order| == 0 then Outcome(log, true)
    else
      var r := Load(g, log, order[0], 0, works);
      if !r.ok then r else StartAll(g, r.log, order[1..], works)
  }

  // ----- Unloading ---------------------------------------------------------------------------------

  function Unload(g: Graph, log: seq<Event>, m: nat, depth: nat, works: set<nat>): Outcome
    requires Bound(g) && m < |g.deps| && depth <= MAX_DEPTH
    decreases 2 * (MAX_DEPTH - depth), 0
  {
    if depth >= MAX_DEPTH then Outcome(log, false)
    else
      var r := UnloadAll(g, log, g.rev[m], depth + 1, works);
      if !r.ok then r
      else if m !in Up(r.log) then r
      else if m !in works then Outcome(r.log, false)
      else Outcome(r.log + [DidUnload(m)], true)
  }

  function UnloadAll(g: Graph, log: seq<Event>, list: seq<nat>, depth: nat, works: set<nat>): Outcome
    requires Bound(g) && (forall i :: 0 <= i < |list| ==> list[i] < |g.deps|) && depth <= MAX_DEPTH
    decreases 2 * (MAX_DEPTH - depth) + 1, |list|
  {
    if |list| == 0 then Outcome(log, true)
    else if list[0] !in Up(log) then UnloadAll(g, log, list[1..], depth, works)
    else
      var r := Unload(g, log, list[0], depth, works);
      if !r.ok then r else UnloadAll(g, r.log, list[1..], depth, works)
  }

  function StopAll(g: Graph, log: seq<Event>, order: seq<nat>, works: set<nat>): Outcome
    requires Bound(g) && forall i :: 0 <= i < |order| ==> order[i] < |g.deps|
    decreases |order|
  {
    if |order| == 0 then Outcome(log, true)
    else
      var r := Unload(g, log, order[0], 0, works);
      if !r.ok then r else StopAll(g, r.log, order[1..], works)
  }

  // ----- What every log keeps ----------------------------------------------------------------------

  predicate Distinct(s: seq<nat>) {
    forall i, j :: 0 <= i < j < |s| ==> s[i] != s[j]
  }

  /** Each loaded module depends only on modules that were loaded before it. */
  predicate InOrder(g: Graph, up: seq<nat>)
    requires Bound(g)
  {
    && Distinct(up) && (forall i :: 0 <= i < |up| ==> up[i] < |g.deps|)
    && forall i, d :: 0 <= i < |up| && d in g.deps[up[i]] ==> d in up[..i]
  }

  lemma RemoveMembers(s: seq<nat>, m: nat)
    requires Distinct(s)
    ensures Distinct(Remove(s, m)) && forall x :: x in Remove(s, m) <==> x in s && x != m
  {
    var i, r := Index(s, m), Remove(s, m);
    if i < |s| {
      forall x | x in s && x != m ensures x in r {
        var k :| 0 <= k < |s| && s[k] == x;
        assert r[if k < i then k else k - 1] == x;
      }
      forall x | x in r ensures x in s && x != m {
        var k :| 0 <= k < |r| && r[k] == x;
        assert s[if k < i then k else k + 1] == x;
      }
    } else {
      assert m !in s;
    }
  }

  lemma LoadKeepsInOrder(g: Graph, up: seq<nat>, m: nat)
    requires Bound(g) && InOrder(g, up) && m < |g.deps| && m !in up &&
             forall i :: 0 <= i < |g.deps[m]| ==> g.deps[m][i] in up
    ensures InOrder(g, up + [m])
  {
    var r := up + [m];
    forall i, d | 0 <= i < |r| && d in g.deps[r[i]] ensures d in r[..i] {
      if i < |up| { assert r[..i] == up[..i]; } else { assert r[..i] == up; }
    }
  }

  lemma NobodyDepends(g: Graph, up: seq<nat>, m: nat)
    requires Bound(g) && InOrder(g, up) && m < |g.deps| && forall i :: 0 <= i < |g.rev[m]| ==> g.rev[m][i] !in up
    ensures forall k :: 0 <= k < |up| ==> m !in g.deps[up[k]]
  {
    forall k | 0 <= k < |up| ensures m !in g.deps[up[k]] {
      assert up[k] in up;
      DependsBothWays(g, up[k], m);
    }
  }

  lemma DependsBothWays(g: Graph, m: nat, d: nat)
    requires Bound(g) && m < |g.deps| && d < |g.deps|
    ensures d in g.deps[m] <==> m in g.rev[d]
  {
  }

  lemma UnloadKeepsInOrder(g: Graph, up: seq<nat>, m: nat)
    requires Bound(g) && InOrder(g, up) && m in up && forall i :: 0 <= i < |g.rev[m]| ==> g.rev[m][i] !in up
    ensures InOrder(g, Remove(up, m))
  {
    RemoveMembers(up, m);
    var j, r := Index(up, m), Remove(up, m);
    assert j < |up|;
    NobodyDepends(g, up, m);
    forall i, d | 0 <= i < |r| && d in g.deps[r[i]] ensures d in r[..i] {
      var k := if i < j then i else i + 1;
      assert r[i] == up[k] && d in up[..k];
      var l :| 0 <= l < k && up[l] == d;
      assert r[if l < j then l else l - 1] == d;
    }
  }

  /** In every legal log the loaded modules are in dependency order; so the loaded set is closed. */
  lemma {:induction false} LegalIsInOrder(g: Graph, log: seq<Event>)
    requires Bound(g) && Legal(g, log)
    ensures InOrder(g, Up(log))
  {
    hide InOrder, Bound;
    if |log| == 0 {
      NothingInOrder(g);
    } else {
      var front := log[..|log| - 1];
      LegalIsInOrder(g, front);
      match log[|log| - 1]
      case DidLoad(m) => LoadKeepsInOrder(g, Up(front), m);
      case DidUnload(m) => UnloadKeepsInOrder(g, Up(front), m);
    }
  }

  lemma NothingInOrder(g: Graph)
    requires Bound(g)
    ensures InOrder(g, [])
  {
  }

  // ----- What loading does -------------------------------------------------------------------------

  predicate Grows(a: seq<Event>, b: seq<Event>) {
    forall x :: x in Up(a) ==> x in Up(b)
  }

  lemma AppendLoad(g: Graph, log: seq<Event>, m: nat)
    requires Bound(g) && Legal(g, log) && m < |g.deps| && m !in Up(log)
    requires forall i :: 0 <= i < |g.deps[m]| ==> g.deps[m][i] in Up(log)
    ensures Legal(g, log + [DidLoad(m)]) && Up(log + [DidLoad(m)]) == Up(log) + [m]
  {
    assert (log + [DidLoad(m)])[..|log|] == log;
  }

  lemma AppendUnload(g: Graph, log: seq<Event>, m: nat)
    requires Bound(g) && Legal(g, log) && m < |g.deps| && m in Up(log)
    requires forall i :: 0 <= i < |g.rev[m]| ==> g.rev[m][i] !in Up(log)
    ensures Legal(g, log + [DidUnload(m)]) && forall x :: x in Up(log + [DidUnload(m)]) <==> x in Up(log) && x != m
  {
    assert (log + [DidUnload(m)])[..|log|] == log;
    LegalIsInOrder(g, log);
    RemoveMembers(Up(log), m);
  }

  /** Loading keeps the log legal and only adds modules; if it succeeds the module is loaded. */
  lemma {:induction false} LoadIsLegal(g: Graph, log: seq<Event>, m: nat, depth: nat, works: set<nat>)
    requires Bound(g) && Legal(g, log) && m < |g.deps| && depth <= MAX_DEPTH
    ensures var r := Load(g, log, m, depth, works);
            Legal(g, r.log) && Grows(log, r.log) && (r.ok ==> m in Up(r.log))
    decreases 2 * (MAX_DEPTH - depth), 0
  {
    hide Legal, Up;
    if depth < MAX_DEPTH {
      LoadAllIsLegal(g, log, g.deps[m], depth + 1, works);
      var r := LoadAll(g, log, g.deps[m], depth + 1, works);
      if r.ok && m !in Up(r.log) && m in works {
        AppendLoad(g, r.log, m);
      }
    }
  }

  lemma {:induction false} LoadAllIsLegal(g: Graph, log: seq<Event>, list: seq<nat>, depth: nat, works: set<nat>)
    requires Bound(g) && Legal(g, log) && (forall i :: 0 <= i < |list| ==> list[i] < |g.deps|) && depth <= MAX_DEPTH
    ensures var r := LoadAll(g, log, list, depth, works);
            Legal(g, r.log) && Grows(log, r.log) && (r.ok ==> forall i :: 0 <= i < |list| ==> list[i] in Up(r.log))
    decreases 2 * (MAX_DEPTH - depth) + 1, |list|
  {
    hide Legal, Up;
    if |list| > 0 {
      if list[0] in Up(log) {
        LoadAllIsLegal(g, log, list[1..], depth, works);
      } else {
        LoadIsLegal(g, log, list[0], depth, works);
        var r := Load(g, log, list[0], depth, works);
        if r.ok {
          LoadAllIsLegal(g, r.log, list[1..], depth, works);
        }
      }
    }
  }

  /** Start keeps the log legal; if it succeeds every module is loaded. */
  lemma {:induction false} StartIsLegal(g: Graph, log: seq<Event>, order: seq<nat>, works: set<nat>)
    requires Bound(g) && Legal(g, log) && forall i :: 0 <= i < |order| ==> order[i] < |g.deps|
    ensures var r := StartAll(g, log, order, works);
            Legal(g, r.log) && Grows(log, r.log) && (r.ok ==> forall i :: 0 <= i < |order| ==> order[i] in Up(r.log))
    decreases |order|
  {
    hide Legal, Up, Load;
    if |order| > 0 {
      LoadIsLegal(g, log, order[0], 0, works);
      var r := Load(g, log, order[0], 0, works);
      if r.ok {
        StartIsLegal(g, r.log, order[1..], works);
      }
    }
  }

  // ----- What unloading does -----------------------------------------------------------------------

  /** Unloading keeps the log legal and only removes modules; if it succeeds the module is not loaded. */
  lemma {:induction false} UnloadIsLegal(g: Graph, log: seq<Event>, m: nat, depth: nat, works: set<nat>)
    requires Bound(g) && Legal(g, log) && m < |g.deps| && depth <= MAX_DEPTH
    ensures var r := Unload(g, log, m, depth, works);
            Legal(g, r.log) && Grows(r.log, log) && (r.ok ==> m !in Up(r.log))
    decreases 2 * (MAX_DEPTH - depth), 0
  {
    hide Legal, Up;
    if depth < MAX_DEPTH {
      UnloadAllIsLegal(g, log, g.rev[m], depth + 1, works);
      var r := UnloadAll(g, log, g.rev[m], depth + 1, works);
      if r.ok && m in Up(r.log) && m in works {
        AppendUnload(g, r.log, m);
      }
    }
  }

  lemma {:induction false} UnloadAllIsLegal(g: Graph, log: seq<Event>, list: seq<nat>, depth: nat, works: set<nat>)
    requires Bound(g) && Legal(g, log) && (forall i :: 0 <= i < |list| ==> list[i] < |g.deps|) && depth <= MAX_DEPTH
    ensures var r := UnloadAll(g, log, list, depth, works);
            Legal(g, r.log) && Grows(r.log, log) && (r.ok ==> forall i :: 0 <= i < |list| ==> list[i] !in Up(r.log))
    decreases 2 * (MAX_DEPTH - depth) + 1, |list|
  {
    hide Legal, Up;
    if |list| > 0 {
      if list[0] !in Up(log) {
        UnloadAllIsLegal(g, log, list[1..], depth, works);
      } else {
        UnloadIsLegal(g, log, list[0], depth, works);
        var r := Unload(g, log, list[0], depth, works);
        if r.ok {
          UnloadAllIsLegal(g, r.log, list[1..], depth, works);
        }
      }
    }
  }

  lemma {:induction false} StopIsLegal(g: Graph, log: seq<Event>, order: seq<nat>, works: set<nat>)
    requires Bound(g) && Legal(g, log) && forall i :: 0 <= i < |order| ==> order[i] < |g.deps|
    ensures var r := StopAll(g, log, order, works);
            Legal(g, r.log) && Grows(r.log, log) && (r.ok ==> forall i :: 0 <= i < |order| ==> order[i] !in Up(r.log))
    decreases |order|
  {
    hide Legal, Up, Unload;
    if |order| > 0 {
      UnloadIsLegal(g, log, order[0], 0, works);
      var r := Unload(g, log, order[0], 0, works);
      if r.ok {
        StopIsLegal(g, r.log, order[1..], works);
      }
    }
  }

  // ----- Cycles and chains -------------------------------------------------------------------------

  /** A chain of dependencies: each module depends on the next. */
  predicate Chain(g: Graph, c: seq<nat>) {
    (forall i :: 0 <= i < |c| ==> c[i] < |g.deps|) && forall i :: 0 <= i < |c| - 1 ==> c[i + 1] in g.deps[c[i]]
  }

  /** Along a chain that starts at a loaded module, modules were loaded earlier and earlier. */
  lemma {:induction false} ChainGoesBack(g: Graph, up: seq<nat>, c: seq<nat>, i: nat) returns (k: nat)
    requires Bound(g) && InOrder(g, up) && Chain(g, c) && i < |c| && c[0] in up
    ensures k < |up| && up[k] == c[i] && (i > 0 ==> k < Index(up, c[0]))
  {
    if i == 0 {
      k := Index(up, c[0]);
    } else {
      var j := ChainGoesBack(g, up, c, i - 1);
      assert c[i] in g.deps[up[j]];
      k :| 0 <= k < j && up[k] == c[i];
      if i == 1 {
        assert up[Index(up, c[0])] == c[0];
      }
    }
  }

  /** No module of a cycle is ever loaded. */
  lemma CyclesAreNeverLoaded(g: Graph, log: seq<Event>, c: seq<nat>)
    requires Bound(g) && Legal(g, log) && Chain(g, c) && |c| >= 2 && c[0] == c[|c| - 1]
    ensures c[0] !in Up(log)
  {
    hide Legal;
    if c[0] in Up(log) {
      LegalIsInOrder(g, log);
      var k := ChainGoesBack(g, Up(log), c, |c| - 1);
    }
  }

  /** Start never succeeds when there is a cycle, whatever the order and the hooks. */
  lemma StartFailsOnCycles(g: Graph, log: seq<Event>, order: seq<nat>, works: set<nat>, c: seq<nat>)
    requires Bound(g) && Legal(g, log) && (forall i :: 0 <= i < |order| ==> order[i] < |g.deps|)
    requires (forall m :: 0 <= m < |g.deps| ==> m in order) && Chain(g, c) && |c| >= 2 && c[0] == c[|c| - 1]
    ensures !StartAll(g, log, order, works).ok
  {
    hide Legal, StartAll;
    StartIsLegal(g, log, order, works);
    assert c[0] in order;
    CyclesAreNeverLoaded(g, StartAll(g, log, order, works).log, c);
  }

  /** Every chain that starts at a module has at most n modules. */
  predicate ChainsWithin(g: Graph, m: nat, n: nat)
    requires Bound(g) && m < |g.deps|
    decreases n
  {
    n > 0 && forall i :: 0 <= i < |g.deps[m]| ==> ChainsWithin(g, g.deps[m][i], n - 1)
  }

  /** The recursive form says what it should: a longer chain refutes it. */
  lemma {:induction false} ChainsWithinBounds(g: Graph, c: seq<nat>, n: nat)
    requires Bound(g) && Chain(g, c) && |c| > 0 && ChainsWithin(g, c[0], n)
    ensures |c| <= n
    decreases n
  {
    if |c| > 1 {
      assert c[1] in g.deps[c[0]];
      ChainsWithinBounds(g, c[1..], n - 1);
    }
  }

  lemma {:induction false} LongChain(g: Graph, m: nat, n: nat) returns (c: seq<nat>)
    requires Bound(g) && m < |g.deps| && !ChainsWithin(g, m, n)
    ensures Chain(g, c) && |c| == n + 1 && c[0] == m
    decreases n
  {
    if n == 0 {
      c := [m];
    } else {
      var i :| 0 <= i < |g.deps[m]| && !ChainsWithin(g, g.deps[m][i], n - 1);
      var rest := LongChain(g, g.deps[m][i], n - 1);
      c := [m] + rest;
    }
  }

  lemma {:induction false} LoadSucceeds(g: Graph, log: seq<Event>, m: nat, depth: nat, works: set<nat>)
    requires Bound(g) && m < |g.deps| && depth <= MAX_DEPTH && ChainsWithin(g, m, MAX_DEPTH - depth)
    requires forall x :: 0 <= x < |g.deps| ==> x in works
    ensures Load(g, log, m, depth, works).ok
    decreases 2 * (MAX_DEPTH - depth), 0
  {
    hide Up;
    LoadAllSucceeds(g, log, g.deps[m], depth + 1, works);
  }

  lemma {:induction false} LoadAllSucceeds(g: Graph, log: seq<Event>, list: seq<nat>, depth: nat, works: set<nat>)
    requires Bound(g) && depth <= MAX_DEPTH && forall x :: 0 <= x < |g.deps| ==> x in works
    requires forall i :: 0 <= i < |list| ==> list[i] < |g.deps| && ChainsWithin(g, list[i], MAX_DEPTH - depth)
    ensures LoadAll(g, log, list, depth, works).ok
    decreases 2 * (MAX_DEPTH - depth) + 1, |list|
  {
    hide Up, ChainsWithin;
    if |list| > 0 {
      if list[0] in Up(log) {
        LoadAllSucceeds(g, log, list[1..], depth, works);
      } else {
        LoadSucceeds(g, log, list[0], depth, works);
        LoadAllSucceeds(g, Load(g, log, list[0], depth, works).log, list[1..], depth, works);
      }
    }
  }

  /** Start succeeds when no chain is longer than the depth bound and every hook succeeds. */
  lemma {:induction false} StartSucceeds(g: Graph, log: seq<Event>, order: seq<nat>, works: set<nat>)
    requires Bound(g) && forall x :: 0 <= x < |g.deps| ==> x in works
    requires forall i :: 0 <= i < |order| ==> order[i] < |g.deps| && ChainsWithin(g, order[i], MAX_DEPTH)
    ensures StartAll(g, log, order, works).ok
    decreases |order|
  {
    hide Load, ChainsWithin;
    if |order| > 0 {
      LoadSucceeds(g, log, order[0], 0, works);
      StartSucceeds(g, Load(g, log, order[0], 0, works).log, order[1..], works);
    }
  }
}
