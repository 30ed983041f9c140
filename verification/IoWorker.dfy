/** The worker's list of components as it is: linked both ways through the components, relinked in place
    by the commands that the worker processes. The methods do to it, and to flags and counts, what the
    steps of ComponentRefs do. */
module IoWorkers {
  import opened ComponentRefs

  class IOComponent {
    const number: nat
    var prev: IOComponent?
    var next: IOComponent?
    var referenced: bool
    var refs: int
    ghost var deleted: bool

    constructor (number: nat)
      ensures this.number == number && refs == 1 && !referenced && !deleted && prev == null && next == null
    {
      this.number, prev, next, referenced, refs, deleted := number, null, null, false, 1, false;
    }

    method AddRef()
      modifies `refs
      ensures refs == old(refs) + 1
    {
      refs := refs + 1;
    }

    /** The last reference deletes the component. */
    method SubRef()
      modifies `refs, `deleted
      ensures refs == old(refs) - 1 && deleted == (old(deleted) || old(refs) == 1)
    {
      refs := refs - 1;
      if refs == 0 {
        deleted := true;
      }
    }
  }

  // ----- Linked lists ------------------------------------------------------------------------------

  ghost predicate Distinct(cs: seq<IOComponent>) {
    forall i, j :: 0 <= i < j < |cs| ==> cs[i] != cs[j]
  }

  ghost predicate Dll(cs: seq<IOComponent>)
    reads (set c | c in cs)`next, (set c | c in cs)`prev
  {
    && (forall i {:trigger cs[i].next} :: 0 <= i < |cs| ==> cs[i].next == if i + 1 < |cs| then cs[i + 1] else null)
    && (forall i {:trigger cs[i].prev} :: 0 <= i < |cs| ==> cs[i].prev == if i == 0 then null else cs[i - 1])
  }

  /** What the list links to in front and behind. */
  ghost predicate Ends(cs: seq<IOComponent>, head: IOComponent?, tail: IOComponent?) {
    && head == (if |cs| == 0 then null else cs[0])
    && tail == (if |cs| == 0 then null else cs[|cs| - 1])
  }

  ghost function Without(cs: seq<IOComponent>, i: nat): (r: seq<IOComponent>)
    requires i < |cs|
    ensures |r| == |cs| - 1 && forall k :: 0 <= k < |r| ==> r[k] == cs[if k < i then k else k + 1]
  {
    cs[..i] + cs[i + 1..]
  }

  lemma AppendedIsDll(cs: seq<IOComponent>, c: IOComponent)
    requires Distinct(cs) && c !in cs && c.next == null && c.prev == (if |cs| == 0 then null else cs[|cs| - 1])
    requires forall i {:trigger cs[i].next} :: 0 <= i < |cs| ==> cs[i].next == if i + 1 < |cs| then cs[i + 1] else c
    requires forall i {:trigger cs[i].prev} :: 0 <= i < |cs| ==> cs[i].prev == if i == 0 then null else cs[i - 1]
    ensures Dll(cs + [c]) && Distinct(cs + [c])
  {
    var r := cs + [c];
    forall i {:trigger r[i].next} | 0 <= i < |r| ensures r[i].next == if i + 1 < |r| then r[i + 1] else null {
      assert i < |cs| ==> r[i] == cs[i];
    }
    forall i {:trigger r[i].prev} | 0 <= i < |r| ensures r[i].prev == if i == 0 then null else r[i - 1] {
      assert i < |cs| ==> r[i] == cs[i];
    }
  }

  lemma UnlinkedIsDll(cs: seq<IOComponent>, i: nat)
    requires Distinct(cs) && i < |cs|
    requires forall k {:trigger cs[k].next} :: 0 <= k < |cs| && k != i ==>
               var j := if k + 1 == i then i + 1 else k + 1; cs[k].next == if j < |cs| then cs[j] else null
    requires forall k {:trigger cs[k].prev} :: 0 <= k < |cs| && k != i ==>
               var j := if k - 1 == i then i - 1 else k - 1; cs[k].prev == if j >= 0 then cs[j] else null
    ensures Dll(Without(cs, i)) && Distinct(Without(cs, i))
  {
    hide Without;
    var r := Without(cs, i);
    forall k {:trigger r[k].next} | 0 <= k < |r| ensures r[k].next == if k + 1 < |r| then r[k + 1] else null {
      assert r[k] == cs[if k < i then k else k + 1];
    }
    forall k {:trigger r[k].prev} | 0 <= k < |r| ensures r[k].prev == if k == 0 then null else r[k - 1] {
      assert r[k] == cs[if k < i then k else k + 1];
    }
  }

  method Append(c: IOComponent, tail: IOComponent?, ghost cs: seq<IOComponent>)
    requires Distinct(cs) && Dll(cs) && c !in cs && tail == (if |cs| == 0 then null else cs[|cs| - 1])
    modifies c`prev, c`next, (if tail != null then {tail} else {})`next
    ensures Dll(cs + [c]) && Distinct(cs + [c])
  {
    c.prev := tail;
    c.next := null;
    if tail != null {
      tail.next := c;
    }
    AppendedIsDll(cs, c);
  }

  method Unlink(c: IOComponent, ghost cs: seq<IOComponent>, ghost i: nat)
    requires Distinct(cs) && Dll(cs) && i < |cs| && c == cs[i]
    modifies (if c.prev != null then {c.prev} else {})`next, (if c.next != null then {c.next} else {})`prev
    ensures Dll(Without(cs, i)) && Distinct(Without(cs, i))
  {
    hide Without;
    if c.prev != null {
      c.prev.next := c.next;
    }
    if c.next != null {
      c.next.prev := c.prev;
    }
    UnlinkedIsDll(cs, i);
  }

  lemma Neighbours(cs: seq<IOComponent>, i: nat)
    requires Dll(cs) && Distinct(cs) && i < |cs|
    ensures cs[i].next == (if i + 1 < |cs| then cs[i + 1] else null) &&
            cs[i].prev == (if i == 0 then null else cs[i - 1])
    ensures (cs[i] == cs[0]) == (i == 0) && (cs[i] == cs[|cs| - 1]) == (i == |cs| - 1)
    ensures Ends(Without(cs, i), if i == 0 then cs[i].next else cs[0],
                 if i == |cs| - 1 then cs[i].prev else cs[|cs| - 1])
  {
  }

  // ----- The worker --------------------------------------------------------------------------------

  /** Components are numbered by their places. */
  ghost predicate Numbered(comps: seq<IOComponent>) {
    forall i :: 0 <= i < |comps| ==> comps[i].number == i
  }

  ghost function Numbers(cs: seq<IOComponent>): (r: seq<nat>)
    ensures |r| == |cs| && forall i :: 0 <= i < |cs| ==> r[i] == cs[i].number
  {
    seq(|cs|, i requires 0 <= i < |cs| => cs[i].number)
  }

  lemma {:induction false} RemovedNumber(cs: seq<IOComponent>, i: nat)
    requires i < |cs| && forall j, k :: 0 <= j < k < |cs| ==> cs[j].number != cs[k].number
    ensures Numbers(Without(cs, i)) == RemoveFirst(Numbers(cs), cs[i].number)
    decreases i
  {
    hide Numbers, Without;
    NumbersOfRest(cs);
    if i == 0 {
      WithoutFirst(cs);
    } else {
      RemovedNumber(cs[1..], i - 1);
      WithoutLater(cs, i);
      assert Numbers(Without(cs, i)) == [cs[0].number] + Numbers(Without(cs[1..], i - 1));
    }
  }

  lemma NumbersOfRest(cs: seq<IOComponent>)
    requires |cs| > 0
    ensures Numbers(cs)[1..] == Numbers(cs[1..]) && Numbers(cs)[0] == cs[0].number
  {
  }

  lemma WithoutFirst(cs: seq<IOComponent>)
    requires |cs| > 0
    ensures Without(cs, 0) == cs[1..]
  {
  }

  lemma WithoutLater(cs: seq<IOComponent>, i: nat)
    requires 0 < i < |cs|
    ensures |Without(cs, i)| > 0 && Without(cs, i)[0] == cs[0]
    ensures Numbers(Without(cs, i)) == [cs[0].number] + Numbers(Without(cs[1..], i - 1))
  {
  }

  /** All components of a sequence are among others. */
  ghost predicate Among(cs: seq<IOComponent>, comps: seq<IOComponent>) {
    forall c :: c in cs ==> c in comps
  }

  lemma NumbersDiffer(comps: seq<IOComponent>, cs: seq<IOComponent>)
    requires Numbered(comps) && Distinct(cs) && Among(cs, comps)
    ensures forall j, k :: 0 <= j < k < |cs| ==> cs[j].number != cs[k].number
  {
    forall j, k | 0 <= j < k < |cs| ensures cs[j].number != cs[k].number {
      assert cs[j] in comps && cs[k] in comps;
      var a :| 0 <= a < |comps| && comps[a] == cs[j];
      var b :| 0 <= b < |comps| && comps[b] == cs[k];
    }
  }

  /** A command of the transport: add the component to the list, or remove it. */
  datatype Request = Request(add: bool, c: IOComponent)

  /** Whether the last request for a component is an add, or, with none, what was there. */
  predicate LastAdds(rs: seq<Request>, c: IOComponent, listed: bool) {
    if |rs| == 0 then listed
    else if rs[|rs| - 1].c == c then rs[|rs| - 1].add else LastAdds(rs[..|rs| - 1], c, listed)
  }

  /** One command of ComponentRefs after the other. */
  ghost function ProcessAll(s: State, rs: seq<Request>): (t: State)
    requires |s.refs| == |s.flagged| == |s.deleted|
    requires forall i :: 0 <= i < |rs| ==> rs[i].c.number < |s.refs|
    ensures |t.refs| == |t.flagged| == |t.deleted| == |s.refs|
  {
    if |rs| == 0 then s
    else After(ProcessAll(s, rs[..|rs| - 1]), rs[|rs| - 1])
  }

  /** What a command of ComponentRefs does, with the reference it held given back. */
  ghost function After(s: State, r: Request): (t: State)
    requires |s.refs| == |s.flagged| == |s.deleted| && r.c.number < |s.refs|
    ensures |t.refs| == |t.flagged| == |t.deleted| == |s.refs|
  {
    SubRef(if r.add then DoAdd(s, r.c.number) else DoRemove(s, r.c.number), r.c.number)
  }

  lemma NoneProcessed(s: State, cs: seq<IOComponent>)
    requires |s.refs| == |s.flagged| == |s.deleted|
    ensures ProcessAll(s, []) == s && forall c :: LastAdds([], c, c in cs) <==> c in cs
  {
  }

  lemma NextProcessed(s: State, cs: seq<IOComponent>, rs: seq<Request>, i: nat)
    requires |s.refs| == |s.flagged| == |s.deleted| && i < |rs|
    requires forall k :: 0 <= k < |rs| ==> rs[k].c.number < |s.refs|
    ensures ProcessAll(s, rs[..i + 1]) == After(ProcessAll(s, rs[..i]), rs[i])
    ensures forall c :: LastAdds(rs[..i + 1], c, c in cs) <==>
              if c == rs[i].c then rs[i].add else LastAdds(rs[..i], c, c in cs)
  {
    assert rs[..i + 1][..i] == rs[..i];
  }

  /** The flag of every component says whether it is on the list. */
  ghost predicate Flagged(comps: seq<IOComponent>, cs: seq<IOComponent>)
    reads (set c | c in comps)`referenced
  {
    forall i :: 0 <= i < |comps| ==> (comps[i].referenced <==> comps[i] in cs)
  }

  ghost function Refs(cs: seq<IOComponent>): (r: seq<int>)
    reads (set c | c in cs)`refs
    ensures |r| == |cs| && forall i :: 0 <= i < |cs| ==> r[i] == cs[i].refs
  {
    if |cs| == 0 then [] else Refs(cs[..|cs| - 1]) + [cs[|cs| - 1].refs]
  }

  ghost function Flags(cs: seq<IOComponent>): (r: seq<bool>)
    reads (set c | c in cs)`referenced
    ensures |r| == |cs| && forall i :: 0 <= i < |cs| ==> r[i] == cs[i].referenced
  {
    if |cs| == 0 then [] else Flags(cs[..|cs| - 1]) + [cs[|cs| - 1].referenced]
  }

  ghost function Deletions(cs: seq<IOComponent>): (r: seq<bool>)
    reads (set c | c in cs)`deleted
    ensures |r| == |cs| && forall i :: 0 <= i < |cs| ==> r[i] == cs[i].deleted
  {
    if |cs| == 0 then [] else Deletions(cs[..|cs| - 1]) + [cs[|cs| - 1].deleted]
  }

  class IoWorker {
    var head: IOComponent?
    var tail: IOComponent?
    /** Posted by other threads, under the worker's lock. */
    var commands: seq<Request>
    ghost var list: seq<IOComponent>
    ghost const comps: seq<IOComponent>

    ghost predicate Linked()
      reads `head, `tail, `list, (set c | c in list)`next, (set c | c in list)`prev
    {
      Dll(list) && Distinct(list) && Ends(list, head, tail)
    }

    ghost predicate Valid()
      reads this, list, comps
    {
      && Numbered(comps) && Among(list, comps) && Linked() && Flagged(comps, list)
      && forall i :: 0 <= i < |commands| ==> commands[i].c in comps
    }

    /** The worker's part of a state of ComponentRefs. */
    ghost function Abs(s: State): State
      reads `list, comps
    {
      s.(refs := Refs(comps), flagged := Flags(comps), deleted := Deletions(comps), list := Numbers(list))
    }

    /** A worker starts with no component on its list. */
    constructor (comps: seq<IOComponent>)
      requires Numbered(comps) && forall c :: c in comps ==> !c.referenced
      ensures Valid() && list == [] && this.comps == comps
    {
      head, tail, commands, list, this.comps := null, null, [], [], comps;
    }

    /** The pointer updates of addComponent. */
    method LinkLast(c: IOComponent)
      requires Linked() && c !in list
      modifies `head, `tail, `list, c`prev, c`next, (set k | k in list)`next
      ensures Linked() && list == old(list) + [c]
    {
      hide Dll, Distinct;
      assert tail != null ==> tail in list;
      Append(c, tail, list);
      if tail == null {
        head := c;
      }
      tail := c;
      list := list + [c];
    }

    /** The pointer updates of removeComponent. */
    method UnlinkAt(c: IOComponent, ghost i: nat)
      requires Linked() && i < |list| && c == list[i]
      modifies `head, `tail, `list, (set k | k in list)`next, (set k | k in list)`prev
      ensures Linked() && list == Without(old(list), i)
    {
      hide Dll, Distinct, Without;
      Neighbours(list, i);
      assert (c.prev != null ==> c.prev in list) && (c.next != null ==> c.next in list);
      if c == head {
        head := c.next;
      }
      if c == tail {
        tail := c.prev;
      }
      Unlink(c, list, i);
      list := Without(list, i);
    }

    /** A component the list takes is flagged and referenced. */
    method Take(c: IOComponent, ghost cs: seq<IOComponent>)
      requires Numbered(comps) && c in comps && Flagged(comps, cs)
      modifies c`referenced, c`refs
      ensures Flagged(comps, cs + [c]) && Flags(comps) == old(Flags(comps))[c.number := true]
      ensures Refs(comps) == old(Refs(comps))[c.number := old(c.refs) + 1]
    {
      hide Flags, Refs;
      IsNumbered(comps, c);
      c.AddRef();
      c.referenced := true;
    }

    /** A component the list gives up is neither. */
    method GiveUp(c: IOComponent, ghost cs: seq<IOComponent>, ghost i: nat)
      requires Numbered(comps) && c in comps && Flagged(comps, cs) && Distinct(cs) && i < |cs| && cs[i] == c
      modifies c`referenced, c`refs, c`deleted
      ensures Flagged(comps, Without(cs, i)) && Flags(comps) == old(Flags(comps))[c.number := false]
      ensures Refs(comps) == old(Refs(comps))[c.number := old(c.refs) - 1]
      ensures Deletions(comps) ==
              if old(c.refs) == 1 then old(Deletions(comps))[c.number := true] else old(Deletions(comps))
    {
      hide Flags, Refs, Deletions, Without, Distinct;
      IsNumbered(comps, c);
      WithoutMembers(cs, i);
      c.referenced := false;
      c.SubRef();
    }

    method AddComponent(c: IOComponent, ghost s: State)
      requires Valid() && c in comps
      modifies this, comps
      ensures Valid() && c.number < |comps| && Abs(s) == DoAdd(old(Abs(s)), c.number)
      ensures list == if c in old(list) then old(list) else old(list) + [c]
      ensures commands == old(commands)
    {
      hide Linked, Refs, Flags, Deletions, Numbers, Flagged, Among;
      IsNumbered(comps, c);
      IsFlagged(comps, list, c);
      if c.referenced {
        return;
      }
      ghost var cs := list;
      NumbersAppend(cs, c);
      AmongAppend(cs, comps, c);
      LinkLast(c);
      Take(c, cs);
    }

    method RemoveComponent(c: IOComponent, ghost s: State)
      requires Valid() && c in comps
      modifies this, comps
      ensures Valid() && c.number < |comps| && Abs(s) == DoRemove(old(Abs(s)), c.number)
      ensures forall k :: k in list <==> k in old(list) && k != c
      ensures commands == old(commands)
    {
      hide Linked, Refs, Flags, Deletions, Numbers, Flagged, Among, Without, Distinct, RemoveFirst;
      IsNumbered(comps, c);
      IsFlagged(comps, list, c);
      if !c.referenced {
        return;
      }
      ghost var cs, i := list, Find(list, c);
      ListIsDistinct();
      WithoutMembers(cs, i);
      RemovedFrom(comps, cs, i);
      AmongSubset(cs, comps);
      UnlinkAt(c, i);
      GiveUp(c, cs, i);
    }

    /** A command gives back the reference it held. */
    method Release(c: IOComponent, ghost s: State)
      requires Valid() && c in comps
      modifies c`refs, c`deleted
      ensures Valid() && c.number < |comps| && Abs(s) == SubRef(old(Abs(s)), c.number)
    {
      hide Linked, Refs, Flags, Deletions, Numbers, Flagged, Among;
      IsNumbered(comps, c);
      c.SubRef();
      assert Refs(comps) == old(Refs(comps))[c.number := old(c.refs) - 1];
      assert Deletions(comps) ==
             if old(c.refs) == 1 then old(Deletions(comps))[c.number := true] else old(Deletions(comps));
    }

    /** One command: its component is on the list exactly when it is an add, others are where they were. */
    method ProcessOne(r: Request, ghost s: State)
      requires Valid() && r.c in comps
      modifies this, comps
      ensures Valid() && commands == old(commands)
      ensures forall k :: k in comps ==> (k in list <==> if k == r.c then r.add else k in old(list))
      ensures r.c.number < |comps| && Abs(s) == After(old(Abs(s)), r)
    {
      hide Linked, Refs, Flags, Deletions, Numbers, Flagged, Among, Numbered, DoAdd, DoRemove, SubRef;
      if r.add {
        AddComponent(r.c, s);
      } else {
        RemoveComponent(r.c, s);
      }
      Release(r.c, s);
    }

    /** processCommands: a component is on the list afterwards exactly when the last command for it is an add,
        or it was and there is none. Counts and flags are what the steps of ComponentRefs make of them. */
    method ProcessCommands(ghost s: State)
      requires Valid()
      modifies this, comps
      ensures Valid() && commands == []
      ensures forall c :: c in comps ==> (c in list <==> LastAdds(old(commands), c, c in old(list)))
      ensures |Abs(s).refs| == |comps| && (forall i :: 0 <= i < |old(commands)| ==> old(commands)[i].c.number < |comps|)
      ensures Abs(s) == ProcessAll(old(Abs(s)), old(commands))
    {
      hide Linked, Refs, Flags, Deletions, Numbers, Flagged, Among, Numbered, After, LastAdds, ProcessAll;
      AllNumbered();
      NoneProcessed(Abs(s), list);
      for i := 0 to |commands|
        invariant Valid() && commands == old(commands)
        invariant forall c :: c in comps ==> (c in list <==> LastAdds(commands[..i], c, c in old(list)))
        invariant Abs(s) == ProcessAll(old(Abs(s)), commands[..i])
      {
        var r := commands[i];
        NextProcessed(old(Abs(s)), old(list), commands, i);
        ProcessOne(r, s);
      }
      assert commands[..|commands|] == commands;
      commands := [];
    }

    lemma AllNumbered()
      requires Valid()
      ensures forall i :: 0 <= i < |commands| ==> commands[i].c.number < |comps|
    {
      hide Linked, Flagged, Among;
      forall i | 0 <= i < |commands| ensures commands[i].c.number < |comps| {
        IsNumbered(comps, commands[i].c);
      }
    }

    lemma ListIsDistinct()
      requires Linked()
      ensures Distinct(list)
    {
    }
  }

  ghost function Find(cs: seq<IOComponent>, c: IOComponent): (i: nat)
    requires c in cs
    ensures i < |cs| && cs[i] == c
  {
    var i: nat :| i < |cs| && cs[i] == c;
    i
  }

  lemma RemovedFrom(comps: seq<IOComponent>, cs: seq<IOComponent>, i: nat)
    requires Numbered(comps) && Distinct(cs) && Among(cs, comps) && i < |cs|
    ensures Numbers(Without(cs, i)) == RemoveFirst(Numbers(cs), cs[i].number)
    ensures Among(Without(cs, i), comps)
  {
    hide Without, Numbers, RemoveFirst;
    NumbersDiffer(comps, cs);
    RemovedNumber(cs, i);
    WithoutMembers(cs, i);
  }

  lemma IsFlagged(comps: seq<IOComponent>, cs: seq<IOComponent>, c: IOComponent)
    requires Flagged(comps, cs) && c in comps
    ensures c.referenced <==> c in cs
  {
  }

  lemma AmongAppend(cs: seq<IOComponent>, comps: seq<IOComponent>, c: IOComponent)
    requires Among(cs, comps) && c in comps
    ensures Among(cs + [c], comps) && forall k :: k in cs ==> k in comps
  {
  }

  lemma AmongSubset(cs: seq<IOComponent>, comps: seq<IOComponent>)
    requires Among(cs, comps)
    ensures forall k :: k in cs ==> k in comps
  {
  }

  lemma IsNumbered(comps: seq<IOComponent>, c: IOComponent)
    requires Numbered(comps) && c in comps
    ensures c.number < |comps| && comps[c.number] == c
  {
    var k :| 0 <= k < |comps| && comps[k] == c;
  }

  lemma NumbersAppend(cs: seq<IOComponent>, c: IOComponent)
    ensures Numbers(cs + [c]) == Numbers(cs) + [c.number]
  {
  }

  lemma WithoutMembers(cs: seq<IOComponent>, i: nat)
    requires i < |cs| && Distinct(cs)
    ensures forall c :: c in Without(cs, i) <==> c in cs && c != cs[i]
  {
    hide Without;
    var r := Without(cs, i);
    forall k | 0 <= k < |cs| && k != i ensures cs[k] in r {
      assert r[if k < i then k else k - 1] == cs[k];
    }
  }
}
