/** Start and Stop in every order in which the maps may list modules and dependencies. */
module ModuleOrders {
  import opened ModuleLoading

  /** The same dependencies, listed in any order. */
  predicate SameGraph(g: Graph, h: Graph) {
    && |h.deps| == |g.deps| && |h.rev| == |g.rev|
    && (forall m :: 0 <= m < |g.deps| ==> multiset(h.deps[m]) == multiset(g.deps[m]))
    && (forall m :: 0 <= m < |g.rev| ==> multiset(h.rev[m]) == multiset(g.rev[m]))
  }

  /** The order lists every module, once. */
  predicate Covers(g: Graph, order: seq<nat>) {
    && Distinct(order) && (forall i :: 0 <= i < |order| ==> order[i] < |g.deps|)
    && forall m :: 0 <= m < |g.deps| ==> m in order
  }

  predicate AllWork(g: Graph, works: set<nat>) {
    forall m :: 0 <= m < |g.deps| ==> m in works
  }

  predicate AllWithin(g: Graph, n: nat)
    requires Bound(g)
  {
    forall m :: 0 <= m < |g.deps| ==> ChainsWithin(g, m, n)
  }

  lemma SameMembers(a: seq<nat>, b: seq<nat>, x: nat)
    requires multiset(a) == multiset(b)
    ensures x in a <==> x in b
  {
    assert x in a <==> x in multiset(a);
    assert x in b <==> x in multiset(b);
  }

  lemma SameIsBound(g: Graph, h: Graph)
    requires Bound(g) && SameGraph(g, h)
    ensures Bound(h)
  {
    forall m, x | 0 <= m < |g.deps| ensures x in h.deps[m] <==> x in g.deps[m] {
      SameMembers(h.deps[m], g.deps[m], x);
    }
    forall m, x | 0 <= m < |g.rev| ensures x in h.rev[m] <==> x in g.rev[m] {
      SameMembers(h.rev[m], g.rev[m], x);
    }
    forall m, i | 0 <= m < |h.deps| && 0 <= i < |h.deps[m]| ensures h.deps[m][i] < |h.deps| {
      assert h.deps[m][i] in g.deps[m];
    }
    forall m, i | 0 <= m < |h.rev| && 0 <= i < |h.rev[m]| ensures h.rev[m][i] < |h.deps| {
      assert h.rev[m][i] in g.rev[m];
    }
  }

  lemma {:induction false} SameChains(g: Graph, h: Graph, m: nat, n: nat)
    requires Bound(g) && Bound(h) && SameGraph(g, h) && m < |g.deps| && ChainsWithin(g, m, n)
    ensures ChainsWithin(h, m, n)
    decreases n
  {
    forall i | 0 <= i < |h.deps[m]| ensures ChainsWithin(h, h.deps[m][i], n - 1) {
      SameMembers(h.deps[m], g.deps[m], h.deps[m][i]);
      var j :| 0 <= j < |g.deps[m]| && g.deps[m][j] == h.deps[m][i];
      assert ChainsWithin(g, g.deps[m][j], n - 1);
      SameChains(g, h, h.deps[m][i], n - 1);
    }
  }

  // ----- An order that fails -----------------------------------------------------------------------

  /** The next module of a chain first, if it is there. */
  function NextFirst(list: seq<nat>, c: seq<nat>, m: nat): seq<nat> {
    var i := Index(c, m);
    if i + 1 < |c| && c[i + 1] in list then [c[i + 1]] + Remove(list, c[i + 1]) else list
  }

  function AlongChain(g: Graph, c: seq<nat>): Graph {
    g.(deps := seq(|g.deps|, m requires 0 <= m < |g.deps| => NextFirst(g.deps[m], c, m)))
  }

  lemma AlongChainIsSame(g: Graph, c: seq<nat>)
    ensures SameGraph(g, AlongChain(g, c))
  {
    forall m | 0 <= m < |g.deps| ensures multiset(NextFirst(g.deps[m], c, m)) == multiset(g.deps[m]) {
      FirstIsSame(g.deps[m], c, m);
    }
  }

  lemma FirstIsSame(list: seq<nat>, c: seq<nat>, m: nat)
    ensures multiset(NextFirst(list, c, m)) == multiset(list)
  {
    hide Index, Remove;
    var i := Index(c, m);
    if i + 1 < |c| && c[i + 1] in list {
      MovedIsSame(list, c[i + 1]);
    }
  }

  lemma MovedIsSame(list: seq<nat>, x: nat)
    requires x in list
    ensures multiset([x] + Remove(list, x)) == multiset(list)
  {
    hide Index;
    var k := Index(list, x);
    if k == |list| {
      assert false;
    }
    var a, b := list[..k], list[k + 1..];
    assert list == a + [x] + b;
    assert Remove(list, x) == a + b;
  }

  /** A chain that is too long, followed first, ends at the depth bound with nothing loaded. */
  lemma {:induction false} FollowedChainFails(g: Graph, h: Graph, c: seq<nat>, m: nat, depth: nat, works: set<nat>)
    requires Bound(g) && Bound(h) && h == AlongChain(g, c) && Chain(g, c) && |c| == MAX_DEPTH + 1
    requires m in c && Index(c, m) <= depth <= MAX_DEPTH && m < |g.deps|
    ensures Load(h, [], m, depth, works) == Outcome([], false)
    decreases MAX_DEPTH - depth
  {
    hide Load, LoadAll, Index, AlongChain, Bound;
    AlongChainIsSame(g, c);
    DepsAreModules(h);
    if depth < MAX_DEPTH {
      var next := NextOnChain(g, c, m);
      FollowedChainFails(g, h, c, next, depth + 1, works);
      FirstFails(h, h.deps[m], depth + 1, works);
    }
    LoadFails(h, m, depth, works);
  }

  lemma DepsAreModules(g: Graph)
    requires Bound(g)
    ensures forall m, i :: 0 <= m < |g.deps| && 0 <= i < |g.deps[m]| ==> g.deps[m][i] < |g.deps|
  {
  }

  lemma NextOnChain(g: Graph, c: seq<nat>, m: nat) returns (next: nat)
    requires Chain(g, c) && m in c && m < |g.deps| && Index(c, m) + 1 < |c|
    ensures next in c && next < |g.deps| && Index(c, next) <= Index(c, m) + 1
    ensures |AlongChain(g, c).deps| == |g.deps| && |AlongChain(g, c).deps[m]| > 0 && AlongChain(g, c).deps[m][0] == next
  {
    var i := Index(c, m);
    next := c[i + 1];
    IndexIsFirst(c, i + 1);
    assert next in g.deps[c[i]];
  }

  lemma FirstFails(h: Graph, list: seq<nat>, depth: nat, works: set<nat>)
    requires Bound(h) && (forall i :: 0 <= i < |list| ==> list[i] < |h.deps|) && depth <= MAX_DEPTH && |list| > 0
    requires Load(h, [], list[0], depth, works) == Outcome([], false)
    ensures LoadAll(h, [], list, depth, works) == Outcome([], false)
  {
    hide Load;
  }

  lemma LoadFails(h: Graph, m: nat, depth: nat, works: set<nat>)
    requires Bound(h) && m < |h.deps| && depth <= MAX_DEPTH
    requires depth < MAX_DEPTH ==> LoadAll(h, [], h.deps[m], depth + 1, works) == Outcome([], false)
    ensures Load(h, [], m, depth, works) == Outcome([], false)
  {
    hide LoadAll;
  }

  lemma {:induction false} IndexIsFirst(s: seq<nat>, i: nat)
    requires i < |s|
    ensures Index(s, s[i]) <= i
    decreases |s|
  {
    if i > 0 && s[0] != s[i] {
      IndexIsFirst(s[1..], i - 1);
    }
  }

  predicate Starts(g: Graph, order: seq<nat>, works: set<nat>) {
    Bound(g) && Covers(g, order) && StartAll(g, [], order, works).ok
  }

  /** Where a chain is longer than the depth bound, the maps may list it so that Start fails. */
  lemma LongChainFails(g: Graph, m: nat, order: seq<nat>, works: set<nat>) returns (h: Graph, first: seq<nat>)
    requires Bound(g) && m < |g.deps| && !ChainsWithin(g, m, MAX_DEPTH) && Covers(g, order)
    ensures SameGraph(g, h) && Covers(h, first) && !Starts(h, first, works)
  {
    hide Load, StartAll, ChainsWithin, Starts, Index, Bound, SameGraph, Covers, Remove;
    var c := LongChain(g, m, MAX_DEPTH);
    h, first := AlongChain(g, c), [m] + Remove(order, m);
    AlongChainIsSame(g, c);
    SameIsBound(g, h);
    MovedCovers(g, h, order, m);
    IndexIsFirst(c, 0);
    FollowedChainFails(g, h, c, m, 0, works);
    FirstStops(h, first, works);
  }

  lemma MovedCovers(g: Graph, h: Graph, order: seq<nat>, m: nat)
    requires Covers(g, order) && m < |g.deps| == |h.deps|
    ensures Covers(h, [m] + Remove(order, m))
  {
    hide Remove;
    RemoveMembers(order, m);
    var rest := Remove(order, m);
    var first := [m] + rest;
    forall x | 0 <= x < |h.deps| ensures x in first {
      assert x != m ==> x in rest;
    }
    forall i | 0 <= i < |rest| ensures rest[i] < |h.deps| && rest[i] != m {
      assert rest[i] in rest;
    }
  }

  lemma FirstStops(h: Graph, order: seq<nat>, works: set<nat>)
    requires Bound(h) && Covers(h, order) && |order| > 0 && !Load(h, [], order[0], 0, works).ok
    ensures !Starts(h, order, works)
  {
    hide Load, Bound, Covers;
  }

  /** With hooks that succeed, Start succeeds in every order of every map if and only if no dependency
      chain has more than 64 modules. */
  lemma StartsInEveryOrder(g: Graph, order: seq<nat>, works: set<nat>)
    requires Bound(g) && Covers(g, order) && AllWork(g, works)
    ensures AllWithin(g, MAX_DEPTH) <==>
            forall h, o :: SameGraph(g, h) && Covers(h, o) ==> Starts(h, o, works)
  {
    hide StartAll, ChainsWithin, SameGraph, Covers;
    if AllWithin(g, MAX_DEPTH) {
      forall h, o | SameGraph(g, h) && Covers(h, o) ensures Starts(h, o, works) {
        EveryOrderStarts(g, h, o, works);
      }
    } else {
      var m :| 0 <= m < |g.deps| && !ChainsWithin(g, m, MAX_DEPTH);
      var h, o := LongChainFails(g, m, order, works);
    }
  }

  lemma EveryOrderStarts(g: Graph, h: Graph, order: seq<nat>, works: set<nat>)
    requires Bound(g) && AllWork(g, works) && AllWithin(g, MAX_DEPTH) && SameGraph(g, h) && Covers(h, order)
    ensures Starts(h, order, works)
  {
    hide StartAll, ChainsWithin;
    SameIsBound(g, h);
    forall i | 0 <= i < |order| ensures ChainsWithin(h, order[i], MAX_DEPTH) {
      SameChains(g, h, order[i], MAX_DEPTH);
    }
    StartSucceeds(h, [], order, works);
  }

  // ----- Where a hook fails ------------------------------------------------------------------------

  /** No hook runs after one that failed: what is done with failing hooks is what is done when more of them
      work, up to there. */
  predicate UpTo(r: Outcome, more: Outcome) {
    r.log <= more.log && (r.ok ==> more == r)
  }

  lemma {:induction false} LoadGrows(g: Graph, log: seq<Event>, m: nat, depth: nat, works: set<nat>)
    requires Bound(g) && m < |g.deps| && depth <= MAX_DEPTH
    ensures log <= Load(g, log, m, depth, works).log
    decreases 2 * (MAX_DEPTH - depth), 0
  {
    hide Up;
    if depth < MAX_DEPTH {
      LoadAllGrows(g, log, g.deps[m], depth + 1, works);
    }
  }

  lemma {:induction false} LoadAllGrows(g: Graph, log: seq<Event>, list: seq<nat>, depth: nat, works: set<nat>)
    requires Bound(g) && (forall i :: 0 <= i < |list| ==> list[i] < |g.deps|) && depth <= MAX_DEPTH
    ensures log <= LoadAll(g, log, list, depth, works).log
    decreases 2 * (MAX_DEPTH - depth) + 1, |list|
  {
    hide Up;
    if |list| > 0 {
      if list[0] in Up(log) {
        LoadAllGrows(g, log, list[1..], depth, works);
      } else {
        LoadGrows(g, log, list[0], depth, works);
        LoadAllGrows(g, Load(g, log, list[0], depth, works).log, list[1..], depth, works);
      }
    }
  }

  lemma {:induction false} LoadUpTo(g: Graph, log: seq<Event>, m: nat, depth: nat, works: set<nat>, more: set<nat>)
    requires Bound(g) && m < |g.deps| && depth <= MAX_DEPTH && works <= more
    ensures UpTo(Load(g, log, m, depth, works), Load(g, log, m, depth, more))
    decreases 2 * (MAX_DEPTH - depth), 0
  {
    hide Up;
    if depth < MAX_DEPTH {
      LoadAllUpTo(g, log, g.deps[m], depth + 1, works, more);
    }
  }

  lemma {:induction false} LoadAllUpTo(g: Graph, log: seq<Event>, list: seq<nat>, depth: nat, works: set<nat>,
      more: set<nat>)
    requires Bound(g) && (forall i :: 0 <= i < |list| ==> list[i] < |g.deps|) && depth <= MAX_DEPTH && works <= more
    ensures UpTo(LoadAll(g, log, list, depth, works), LoadAll(g, log, list, depth, more))
    decreases 2 * (MAX_DEPTH - depth) + 1, |list|
  {
    hide Up;
    if |list| > 0 {
      if list[0] in Up(log) {
        LoadAllUpTo(g, log, list[1..], depth, works, more);
      } else {
        LoadUpTo(g, log, list[0], depth, works, more);
        var r, q := Load(g, log, list[0], depth, works), Load(g, log, list[0], depth, more);
        LoadAllGrows(g, q.log, list[1..], depth, more);
        if r.ok {
          LoadAllUpTo(g, r.log, list[1..], depth, works, more);
        }
      }
    }
  }

  /** A start that fails has run the hooks of the start that would have succeeded, in the same order, up to
      where it failed, and none after. */
  lemma {:induction false} FailureStopsStart(g: Graph, log: seq<Event>, order: seq<nat>, works: set<nat>,
      more: set<nat>)
    requires Bound(g) && (forall i :: 0 <= i < |order| ==> order[i] < |g.deps|) && works <= more
    ensures UpTo(StartAll(g, log, order, works), StartAll(g, log, order, more))
    decreases |order|
  {
    hide Load;
    if |order| > 0 {
      LoadUpTo(g, log, order[0], 0, works, more);
      var r, q := Load(g, log, order[0], 0, works), Load(g, log, order[0], 0, more);
      StartGrows(g, q.log, order[1..], more);
      if r.ok {
        FailureStopsStart(g, r.log, order[1..], works, more);
      }
    }
  }

  lemma {:induction false} StartGrows(g: Graph, log: seq<Event>, order: seq<nat>, works: set<nat>)
    requires Bound(g) && forall i :: 0 <= i < |order| ==> order[i] < |g.deps|
    ensures log <= StartAll(g, log, order, works).log
    decreases |order|
  {
    hide Load;
    if |order| > 0 {
      LoadGrows(g, log, order[0], 0, works);
      StartGrows(g, Load(g, log, order[0], 0, works).log, order[1..], works);
    }
  }

  lemma {:induction false} UnloadGrows(g: Graph, log: seq<Event>, m: nat, depth: nat, works: set<nat>)
    requires Bound(g) && m < |g.deps| && depth <= MAX_DEPTH
    ensures log <= Unload(g, log, m, depth, works).log
    decreases 2 * (MAX_DEPTH - depth), 0
  {
    hide Up;
    if depth < MAX_DEPTH {
      UnloadAllGrows(g, log, g.rev[m], depth + 1, works);
    }
  }

  lemma {:induction false} UnloadAllGrows(g: Graph, log: seq<Event>, list: seq<nat>, depth: nat, works: set<nat>)
    requires Bound(g) && (forall i :: 0 <= i < |list| ==> list[i] < |g.deps|) && depth <= MAX_DEPTH
    ensures log <= UnloadAll(g, log, list, depth, works).log
    decreases 2 * (MAX_DEPTH - depth) + 1, |list|
  {
    hide Up;
    if |list| > 0 {
      if list[0] !in Up(log) {
        UnloadAllGrows(g, log, list[1..], depth, works);
      } else {
        UnloadGrows(g, log, list[0], depth, works);
        UnloadAllGrows(g, Unload(g, log, list[0], depth, works).log, list[1..], depth, works);
      }
    }
  }

  lemma {:induction false} UnloadUpTo(g: Graph, log: seq<Event>, m: nat, depth: nat, works: set<nat>, more: set<nat>)
    requires Bound(g) && m < |g.deps| && depth <= MAX_DEPTH && works <= more
    ensures UpTo(Unload(g, log, m, depth, works), Unload(g, log, m, depth, more))
    decreases 2 * (MAX_DEPTH - depth), 0
  {
    hide Up;
    if depth < MAX_DEPTH {
      UnloadAllUpTo(g, log, g.rev[m], depth + 1, works, more);
    }
  }

  lemma {:induction false} UnloadAllUpTo(g: Graph, log: seq<Event>, list: seq<nat>, depth: nat, works: set<nat>,
      more: set<nat>)
    requires Bound(g) && (forall i :: 0 <= i < |list| ==> list[i] < |g.deps|) && depth <= MAX_DEPTH && works <= more
    ensures UpTo(UnloadAll(g, log, list, depth, works), UnloadAll(g, log, list, depth, more))
    decreases 2 * (MAX_DEPTH - depth) + 1, |list|
  {
    hide Up;
    if |list| > 0 {
      if list[0] !in Up(log) {
        UnloadAllUpTo(g, log, list[1..], depth, works, more);
      } else {
        UnloadUpTo(g, log, list[0], depth, works, more);
        var r, q := Unload(g, log, list[0], depth, works), Unload(g, log, list[0], depth, more);
        UnloadAllGrows(g, q.log, list[1..], depth, more);
        if r.ok {
          UnloadAllUpTo(g, r.log, list[1..], depth, works, more);
        }
      }
    }
  }

  /** So it is with a stop that fails. */
  lemma {:induction false} FailureStopsStop(g: Graph, log: seq<Event>, order: seq<nat>, works: set<nat>, more: set<nat>)
    requires Bound(g) && (forall i :: 0 <= i < |order| ==> order[i] < |g.deps|) && works <= more
    ensures UpTo(StopAll(g, log, order, works), StopAll(g, log, order, more))
    decreases |order|
  {
    hide Unload;
    if |order| > 0 {
      UnloadUpTo(g, log, order[0], 0, works, more);
      var r, q := Unload(g, log, order[0], 0, works), Unload(g, log, order[0], 0, more);
      StopGrows(g, q.log, order[1..], more);
      if r.ok {
        FailureStopsStop(g, r.log, order[1..], works, more);
      }
    }
  }

  lemma {:induction false} StopGrows(g: Graph, log: seq<Event>, order: seq<nat>, works: set<nat>)
    requires Bound(g) && forall i :: 0 <= i < |order| ==> order[i] < |g.deps|
    ensures log <= StopAll(g, log, order, works).log
    decreases |order|
  {
    hide Unload;
    if |order| > 0 {
      UnloadGrows(g, log, order[0], 0, works);
      StopGrows(g, Unload(g, log, order[0], 0, works).log, order[1..], works);
    }
  }

  /** Modules whose hooks fail are not loaded. */
  lemma {:induction false} LoadOnlyWorking(g: Graph, log: seq<Event>, m: nat, depth: nat, works: set<nat>, x: nat)
    requires Bound(g) && m < |g.deps| && depth <= MAX_DEPTH && x !in works && x !in Up(log)
    ensures x !in Up(Load(g, log, m, depth, works).log)
    decreases 2 * (MAX_DEPTH - depth), 0
  {
    hide Up;
    if depth < MAX_DEPTH {
      LoadAllOnlyWorking(g, log, g.deps[m], depth + 1, works, x);
      UpAfterLoad(LoadAll(g, log, g.deps[m], depth + 1, works).log, m);
    }
  }

  lemma {:induction false} LoadAllOnlyWorking(g: Graph, log: seq<Event>, list: seq<nat>, depth: nat, works: set<nat>,
      x: nat)
    requires Bound(g) && (forall i :: 0 <= i < |list| ==> list[i] < |g.deps|) && depth <= MAX_DEPTH
    requires x !in works && x !in Up(log)
    ensures x !in Up(LoadAll(g, log, list, depth, works).log)
    decreases 2 * (MAX_DEPTH - depth) + 1, |list|
  {
    hide Up;
    if |list| > 0 {
      if list[0] in Up(log) {
        LoadAllOnlyWorking(g, log, list[1..], depth, works, x);
      } else {
        LoadOnlyWorking(g, log, list[0], depth, works, x);
        LoadAllOnlyWorking(g, Load(g, log, list[0], depth, works).log, list[1..], depth, works, x);
      }
    }
  }

  lemma UpAfterLoad(log: seq<Event>, m: nat)
    ensures Up(log + [DidLoad(m)]) == Up(log) + [m]
  {
    assert (log + [DidLoad(m)])[..|log|] == log;
  }

  lemma {:induction false} StartOnlyWorking(g: Graph, log: seq<Event>, order: seq<nat>, works: set<nat>, x: nat)
    requires Bound(g) && (forall i :: 0 <= i < |order| ==> order[i] < |g.deps|) && x !in works && x !in Up(log)
    ensures x !in Up(StartAll(g, log, order, works).log)
    decreases |order|
  {
    hide Load, Up;
    if |order| > 0 {
      LoadOnlyWorking(g, log, order[0], 0, works, x);
      StartOnlyWorking(g, Load(g, log, order[0], 0, works).log, order[1..], works, x);
    }
  }

  /** Start fails if a module that is not loaded has a hook that fails, and leaves it unloaded. */
  lemma FailingHookFailsStart(g: Graph, log: seq<Event>, order: seq<nat>, works: set<nat>, x: nat)
    requires Bound(g) && Legal(g, log) && Covers(g, order) && x < |g.deps| && x !in works && x !in Up(log)
    ensures var r := StartAll(g, log, order, works); !r.ok && x !in Up(r.log)
  {
    hide StartAll, Up, Legal;
    StartOnlyWorking(g, log, order, works, x);
    StartIsLegal(g, log, order, works);
    assert x in order;
    var i :| 0 <= i < |order| && order[i] == x;
  }

  /** Modules whose hooks fail are not unloaded. */
  lemma {:induction false} UnloadOnlyWorking(g: Graph, log: seq<Event>, m: nat, depth: nat, works: set<nat>, x: nat)
    requires Bound(g) && m < |g.deps| && depth <= MAX_DEPTH && x !in works && x in Up(log)
    ensures x in Up(Unload(g, log, m, depth, works).log)
    decreases 2 * (MAX_DEPTH - depth), 0
  {
    hide Up;
    if depth < MAX_DEPTH {
      UnloadAllOnlyWorking(g, log, g.rev[m], depth + 1, works, x);
      UpAfterUnload(UnloadAll(g, log, g.rev[m], depth + 1, works).log, m, x);
    }
  }

  lemma {:induction false} UnloadAllOnlyWorking(g: Graph, log: seq<Event>, list: seq<nat>, depth: nat,
      works: set<nat>, x: nat)
    requires Bound(g) && (forall i :: 0 <= i < |list| ==> list[i] < |g.deps|) && depth <= MAX_DEPTH
    requires x !in works && x in Up(log)
    ensures x in Up(UnloadAll(g, log, list, depth, works).log)
    decreases 2 * (MAX_DEPTH - depth) + 1, |list|
  {
    hide Up;
    if |list| > 0 {
      if list[0] !in Up(log) {
        UnloadAllOnlyWorking(g, log, list[1..], depth, works, x);
      } else {
        UnloadOnlyWorking(g, log, list[0], depth, works, x);
        UnloadAllOnlyWorking(g, Unload(g, log, list[0], depth, works).log, list[1..], depth, works, x);
      }
    }
  }

  lemma UpAfterUnload(log: seq<Event>, m: nat, x: nat)
    ensures x in Up(log) && x != m ==> x in Up(log + [DidUnload(m)])
  {
    assert (log + [DidUnload(m)])[..|log|] == log;
    var up := Up(log);
    var i := Index(up, m);
    if x in up && x != m && i < |up| {
      var k :| 0 <= k < |up| && up[k] == x;
      assert Remove(up, m)[if k < i then k else k - 1] == x;
    }
  }

  lemma {:induction false} StopOnlyWorking(g: Graph, log: seq<Event>, order: seq<nat>, works: set<nat>, x: nat)
    requires Bound(g) && (forall i :: 0 <= i < |order| ==> order[i] < |g.deps|) && x !in works && x in Up(log)
    ensures x in Up(StopAll(g, log, order, works).log)
    decreases |order|
  {
    hide Unload, Up;
    if |order| > 0 {
      UnloadOnlyWorking(g, log, order[0], 0, works, x);
      StopOnlyWorking(g, Unload(g, log, order[0], 0, works).log, order[1..], works, x);
    }
  }

  /** Stop fails if a loaded module has a hook that fails, and leaves it loaded. */
  lemma FailingHookFailsStop(g: Graph, log: seq<Event>, order: seq<nat>, works: set<nat>, x: nat)
    requires Bound(g) && Legal(g, log) && Covers(g, order) && x < |g.deps| && x !in works && x in Up(log)
    ensures var r := StopAll(g, log, order, works); !r.ok && x in Up(r.log)
  {
    hide StopAll, Up, Legal;
    StopOnlyWorking(g, log, order, works, x);
    StopIsLegal(g, log, order, works);
    assert x in order;
    var i :| 0 <= i < |order| && order[i] == x;
  }

  // ----- Stop undoes Start -------------------------------------------------------------------------

  function Reversed(g: Graph): Graph {
    Graph(g.rev, g.deps)
  }

  function Backwards(c: seq<nat>): (r: seq<nat>)
    ensures |r| == |c| && forall i :: 0 <= i < |c| ==> r[i] == c[|c| - 1 - i]
  {
    seq(|c|, i requires 0 <= i < |c| => c[|c| - 1 - i])
  }

  lemma BackwardsIsChain(g: Graph, c: seq<nat>)
    requires Bound(g) && Chain(Reversed(g), c)
    ensures Chain(g, Backwards(c))
  {
    var r := Backwards(c);
    forall i | 0 <= i < |r| - 1 ensures r[i + 1] in g.deps[r[i]] {
      var j := |c| - 2 - i;
      assert c[j + 1] in g.rev[c[j]];
    }
  }

  /** Dependents reach no further up than dependencies reach down. */
  lemma ReversedWithin(g: Graph, n: nat)
    requires Bound(g) && AllWithin(g, n)
    ensures Bound(Reversed(g)) && AllWithin(Reversed(g), n)
  {
    hide ChainsWithin;
    forall m | 0 <= m < |g.rev| ensures ChainsWithin(Reversed(g), m, n) {
      if !ChainsWithin(Reversed(g), m, n) {
        var c := LongChain(Reversed(g), m, n);
        BackwardsIsChain(g, c);
        ChainsWithinBounds(g, Backwards(c), n);
      }
    }
  }

  lemma {:induction false} UnloadSucceeds(g: Graph, log: seq<Event>, m: nat, depth: nat, works: set<nat>)
    requires Bound(g) && Bound(Reversed(g)) && m < |g.deps| && depth <= MAX_DEPTH && AllWork(g, works)
    requires ChainsWithin(Reversed(g), m, MAX_DEPTH - depth)
    ensures Unload(g, log, m, depth, works).ok
    decreases 2 * (MAX_DEPTH - depth), 0
  {
    hide Up;
    UnloadAllSucceeds(g, log, g.rev[m], depth + 1, works);
  }

  lemma {:induction false} UnloadAllSucceeds(g: Graph, log: seq<Event>, list: seq<nat>, depth: nat, works: set<nat>)
    requires Bound(g) && Bound(Reversed(g)) && depth <= MAX_DEPTH && AllWork(g, works)
    requires forall i :: 0 <= i < |list| ==> list[i] < |g.deps| && ChainsWithin(Reversed(g), list[i], MAX_DEPTH - depth)
    ensures UnloadAll(g, log, list, depth, works).ok
    decreases 2 * (MAX_DEPTH - depth) + 1, |list|
  {
    hide Up, ChainsWithin;
    if |list| > 0 {
      if list[0] !in Up(log) {
        UnloadAllSucceeds(g, log, list[1..], depth, works);
      } else {
        UnloadSucceeds(g, log, list[0], depth, works);
        UnloadAllSucceeds(g, Unload(g, log, list[0], depth, works).log, list[1..], depth, works);
      }
    }
  }

  lemma {:induction false} StopSucceeds(g: Graph, log: seq<Event>, order: seq<nat>, works: set<nat>)
    requires Bound(g) && Bound(Reversed(g)) && AllWork(g, works) && AllWithin(Reversed(g), MAX_DEPTH)
    requires forall i :: 0 <= i < |order| ==> order[i] < |g.deps|
    ensures StopAll(g, log, order, works).ok
    decreases |order|
  {
    hide Unload, ChainsWithin;
    if |order| > 0 {
      UnloadSucceeds(g, log, order[0], 0, works);
      StopSucceeds(g, Unload(g, log, order[0], 0, works).log, order[1..], works);
    }
  }

  /** With hooks that succeed and no chain of more than 64 modules, Start loads everything and Stop
      unloads everything again, in any two orders. */
  lemma StopUndoesStart(g: Graph, up: seq<nat>, down: seq<nat>, works: set<nat>)
    requires Bound(g) && Covers(g, up) && Covers(g, down) && AllWork(g, works) && AllWithin(g, MAX_DEPTH)
    ensures var r := StartAll(g, [], up, works);
            && r.ok && (forall m :: 0 <= m < |g.deps| ==> m in Up(r.log))
            && var q := StopAll(g, r.log, down, works); q.ok && Up(q.log) == []
  {
    hide StartAll, StopAll, ChainsWithin, Legal, Up;
    NothingIsLegal(g);
    StartSucceeds(g, [], up, works);
    StartIsLegal(g, [], up, works);
    var r := StartAll(g, [], up, works);
    forall m | 0 <= m < |g.deps| ensures m in Up(r.log) {
      assert m in up;
    }
    ReversedWithin(g, MAX_DEPTH);
    StopSucceeds(g, r.log, down, works);
    StopIsLegal(g, r.log, down, works);
    var q := StopAll(g, r.log, down, works);
    LegalIsInOrder(g, q.log);
    forall m | 0 <= m < |g.deps| ensures m !in Up(q.log) {
      assert m in down;
      var i :| 0 <= i < |down| && down[i] == m;
    }
    NoneIsUp(g, Up(q.log));
  }

  lemma NoneIsUp(g: Graph, up: seq<nat>)
    requires Bound(g) && InOrder(g, up) && forall m :: 0 <= m < |g.deps| ==> m !in up
    ensures up == []
  {
    if |up| > 0 {
      FirstIsThere(up);
      assert false;
    }
  }

  lemma FirstIsThere(s: seq<nat>)
    requires |s| > 0
    ensures s[0] in s
  {
  }

  lemma NothingIsLegal(g: Graph)
    requires Bound(g)
    ensures Legal(g, [])
  {
  }
}
