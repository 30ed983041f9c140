/** The deadline-ordered output queue of a connection, as singly linked lists edited in place.

    The lists are specified by functions on sequences of entries; the second half of the file says
    what those functions mean: order, stability and conservation. */
module PacketQueues {

  /** What ordering looks at: the deadline, and the posting order that breaks ties. */
  datatype Entry = Entry(expire: int, stamp: nat)

  class Packet {
    const entry: Entry
    var next: Packet?

    constructor (entry: Entry)
      ensures this.entry == entry && next == null
    {
      this.entry := entry;
      next := null;
    }
  }

  // ----- Specification -------------------------------------------------------------------------

  predicate Sorted(s: seq<Entry>) {
    forall i, j :: 0 <= i < j < |s| ==> s[i].expire <= s[j].expire
  }

  /** How many leading entries are due no later than the given time. */
  function DueBy(s: seq<Entry>, time: int): (k: nat)
    ensures k <= |s|
    ensures forall i :: 0 <= i < k ==> s[i].expire <= time
    ensures k < |s| ==> s[k].expire > time
  {
    if |s| == 0 || s[0].expire > time then 0 else 1 + DueBy(s[1..], time)
  }

  /** A new packet goes behind all that are due no later. */
  function Insert(s: seq<Entry>, e: Entry): (r: seq<Entry>) {
    var k := DueBy(s, e.expire);
    s[..k] + [e] + s[k..]
  }

  /** Merge of a destination and a source; on equal deadlines the source goes first. */
  function Merge(dest: seq<Entry>, src: seq<Entry>): (r: seq<Entry>) {
    if |dest| == 0 then src
    else if |src| == 0 then dest
    else if dest[0].expire < src[0].expire then [dest[0]] + Merge(dest[1..], src)
    else [src[0]] + Merge(dest, src[1..])
  }

  ghost function View(ps: seq<Packet>): (s: seq<Entry>)
    ensures |s| == |ps| && forall i :: 0 <= i < |ps| ==> s[i] == ps[i].entry
  {
    seq(|ps|, i requires 0 <= i < |ps| => ps[i].entry)
  }

  lemma ViewConcat(a: seq<Packet>, b: seq<Packet>)
    ensures View(a + b) == View(a) + View(b)
  {
  }

  lemma DueByIsUnique(s: seq<Entry>, time: int, k: nat)
    requires k <= |s|
    requires forall i :: 0 <= i < k ==> s[i].expire <= time
    requires k < |s| ==> s[k].expire > time
    ensures DueBy(s, time) == k
  {
  }

  // ----- The linked lists ----------------------------------------------------------------------

  ghost predicate Distinct(ps: seq<Packet>) {
    forall i, j :: 0 <= i < j < |ps| ==> ps[i] != ps[j]
  }

  /** Each packet points to the one after it, the last one to the given end. */
  ghost predicate Chain(ps: seq<Packet>, end: Packet?)
    reads (set p | p in ps)`next
  {
    forall i {:trigger ps[i].next} :: 0 <= i < |ps| ==> ps[i].next == if i + 1 < |ps| then ps[i + 1] else end
  }

  lemma ChainDrop(ps: seq<Packet>, k: nat, end: Packet?)
    requires Chain(ps, end) && k <= |ps|
    ensures Chain(ps[k..], end)
  {
    forall i | 0 <= i < |ps| - k
      ensures ps[k..][i].next == if i + 1 < |ps| - k then ps[k..][i + 1] else end
    {
      assert ps[k..][i] == ps[k + i];
    }
  }

  ghost function InsertAt(was: seq<Packet>, i: nat, packet: Packet): (ps: seq<Packet>)
    requires i <= |was|
    ensures |ps| == |was| + 1
    ensures ps[0] == (if i == 0 then packet else was[0])
    ensures ps[|was|] == (if i == |was| then packet else was[|was| - 1])
  {
    was[..i] + [packet] + was[i..]
  }

  /** The pointer updates of push: the packet goes between its two neighbours. */
  method LinkIn(packet: Packet, before: Packet?, after: Packet?, ghost was: seq<Packet>, ghost i: nat)
    requires Chain(was, null) && Distinct(was) && packet !in was && i <= |was|
    requires before == (if i == 0 then null else was[i - 1]) && after == (if i < |was| then was[i] else null)
    modifies packet`next, (if before == null then {} else {before})`next
    ensures Chain(InsertAt(was, i, packet), null) && Distinct(InsertAt(was, i, packet))
  {
    packet.next := after;
    if before != null {
      before.next := packet;
    }
    LinkedInIsChain(was, packet, i);
  }

  lemma LinkedInIsChain(was: seq<Packet>, packet: Packet, i: nat)
    requires packet !in was && Distinct(was) && i <= |was| && packet.next == (if i < |was| then was[i] else null)
    requires forall k {:trigger was[k].next} :: 0 <= k < |was| ==>
               was[k].next == if k + 1 == i then packet else if k + 1 < |was| then was[k + 1] else null
    ensures Chain(InsertAt(was, i, packet), null) && Distinct(InsertAt(was, i, packet))
  {
    var ps := InsertAt(was, i, packet);
    forall k | 0 <= k < |ps| ensures ps[k].next == if k + 1 < |ps| then ps[k + 1] else null {
      if k < i { assert ps[k] == was[k]; } else if k > i { assert ps[k] == was[k - 1]; }
    }
  }

  lemma LinkedInCounts(was: seq<Packet>, packet: Packet, i: nat)
    requires i <= |was|
    ensures multiset(InsertAt(was, i, packet)) == multiset(was) + multiset{packet}
  {
    assert was == was[..i] + was[i..];
  }

  lemma InsertView(was: seq<Packet>, packet: Packet, i: nat)
    requires i <= |was|
    requires forall k :: 0 <= k < i ==> was[k].entry.expire <= packet.entry.expire
    requires i < |was| ==> was[i].entry.expire > packet.entry.expire
    ensures View(InsertAt(was, i, packet)) == Insert(View(was), packet.entry)
  {
    hide DueBy;
    DueByIsUnique(View(was), packet.entry.expire, i);
    ViewInsert(was, i, packet);
  }

  lemma ViewInsert(was: seq<Packet>, i: nat, packet: Packet)
    requires i <= |was|
    ensures View(InsertAt(was, i, packet)) == View(was)[..i] + [packet.entry] + View(was)[i..]
  {
  }

  lemma InsertKeepsSorted(s: seq<Entry>, e: Entry)
    requires Sorted(s)
    ensures Sorted(Insert(s, e))
  {
  }

  lemma Ends(ps: seq<Packet>)
    requires Sorted(View(ps)) && |ps| > 0
    ensures forall k {:trigger ps[k]} :: 0 <= k < |ps| ==>
            ps[0].entry.expire <= ps[k].entry.expire <= ps[|ps| - 1].entry.expire
  {
  }

  ghost predicate Apart(ps: seq<Packet>, qs: seq<Packet>) {
    forall i, j :: 0 <= i < |ps| && 0 <= j < |qs| ==> ps[i] != qs[j]
  }

  /** The part of a merge already linked: each packet but the last points to its successor. */
  ghost predicate Linked(ps: seq<Packet>)
    reads ps
  {
    forall i {:trigger ps[i].next} :: 0 <= i < |ps| - 1 ==> ps[i].next == ps[i + 1]
  }

  /** The state of the merge loop: a done part and two unread rests. */
  ghost predicate Merging(done: seq<Packet>, l: seq<Packet>, r: seq<Packet>)
    reads done, l, r
  {
    && |done| > 0 && Linked(done) && Chain(l, null) && Chain(r, null)
    && Distinct(done) && Distinct(l) && Distinct(r)
    && Apart(done, l) && Apart(done, r) && Apart(l, r)
  }

  /** Links the next packet behind the last one merged. */
  method Append(ghost done: seq<Packet>, curr: Packet, next: Packet, ghost l: seq<Packet>, ghost r: seq<Packet>)
    requires Merging(done, l, r) && curr == done[|done| - 1] && |l| > 0 && next == l[0]
    modifies curr`next
    ensures Merging(done + [next], l[1..], r) && next.next == if |l| > 1 then l[1] else null
  {
    ghost var after := next.next;
    curr.next := next;
    ChainDrop(l, 1, null);
    assert l[0] !in l[1..];
  }

  /** Which packet the merge takes next, and what remains of the specification. */
  lemma MergeTakes(out: seq<Packet>, a: seq<Packet>, b: seq<Packet>)
    requires |a| > 0 && |b| > 0
    ensures a[0].entry.expire < b[0].entry.expire ==>
              View(out + [a[0]]) + Merge(View(a[1..]), View(b)) == View(out) + Merge(View(a), View(b))
    ensures a[0].entry.expire >= b[0].entry.expire ==>
              View(out + [b[0]]) + Merge(View(a), View(b[1..])) == View(out) + Merge(View(a), View(b))
  {
    assert View(a[1..]) == View(a)[1..];
    assert View(b[1..]) == View(b)[1..];
    ViewConcat(out, [a[0]]);
    ViewConcat(out, [b[0]]);
    assert View([a[0]]) == [a[0].entry];
    assert View([b[0]]) == [b[0].entry];
    if a[0].entry.expire < b[0].entry.expire {
      assert View(out) + [a[0].entry] + Merge(View(a[1..]), View(b)) == View(out) + Merge(View(a), View(b));
    } else {
      assert View(out) + [b[0].entry] + Merge(View(a), View(b[1..])) == View(out) + Merge(View(a), View(b));
    }
  }

  lemma SplitFirst(ps: seq<Packet>)
    requires |ps| > 0
    ensures multiset(ps) == multiset{ps[0]} + multiset(ps[1..])
  {
    assert ps == [ps[0]] + ps[1..];
  }

  /** a is what remains of ps after some packets were taken from its front. */
  ghost predicate Rest(a: seq<Packet>, ps: seq<Packet>) {
    |a| <= |ps| && a == ps[|ps| - |a|..]
  }

  /** The state of the merge loop, read against what it must produce. */
  ghost predicate OnTheWay(out: seq<Packet>, a: seq<Packet>, b: seq<Packet>, ls: seq<Packet>, rs: seq<Packet>) {
    && Rest(a, ls) && Rest(b, rs)
    && View(out) + Merge(View(a), View(b)) == Merge(View(ls), View(rs))
    && multiset(out) + multiset(a) + multiset(b) == multiset(ls) + multiset(rs)
  }

  lemma OnTheWayLeft(out: seq<Packet>, a: seq<Packet>, b: seq<Packet>, ls: seq<Packet>, rs: seq<Packet>)
    requires OnTheWay(out, a, b, ls, rs) && |a| > 0 && |b| > 0 && a[0].entry.expire < b[0].entry.expire
    ensures OnTheWay(out + [a[0]], a[1..], b, ls, rs)
  {
    hide Merge;
    MergeTakes(out, a, b);
    SplitFirst(a);
  }

  lemma OnTheWayRight(out: seq<Packet>, a: seq<Packet>, b: seq<Packet>, ls: seq<Packet>, rs: seq<Packet>)
    requires OnTheWay(out, a, b, ls, rs) && |a| > 0 && |b| > 0 && a[0].entry.expire >= b[0].entry.expire
    ensures OnTheWay(out + [b[0]], a, b[1..], ls, rs)
  {
    hide Merge;
    MergeTakes(out, a, b);
    SplitFirst(b);
  }

  lemma MergeIsDone(out: seq<Packet>, a: seq<Packet>, b: seq<Packet>, ls: seq<Packet>, rs: seq<Packet>)
    requires OnTheWay(out, a, b, ls, rs) && (|a| == 0 || |b| == 0)
    ensures var rest := if |a| == 0 then b else a;
            View(out + rest) == Merge(View(ls), View(rs)) && multiset(out + rest) == multiset(ls) + multiset(rs)
  {
    if |a| == 0 {
      ViewConcat(out, b);
    } else {
      ViewConcat(out, a);
    }
  }

  /** Links the unread rest of one list behind the last packet merged. */
  method AppendRest(ghost done: seq<Packet>, curr: Packet, next: Packet, ghost l: seq<Packet>, ghost r: seq<Packet>)
    requires Merging(done, l, r) && curr == done[|done| - 1] && |l| > 0 && next == l[0]
    modifies curr`next
    ensures Chain(done + l, null) && Distinct(done + l)
  {
    curr.next := next;
    forall i | 0 <= i < |done + l|
      ensures (done + l)[i].next == if i + 1 < |done + l| then (done + l)[i + 1] else null
    {
      if i < |done| { assert (done + l)[i] == done[i]; } else { assert (done + l)[i] == l[i - |done|]; }
    }
  }

  /** The merge loop of moveBack. */
  method MergeChains(first: Packet, second: Packet, ghost ls: seq<Packet>, ghost rs: seq<Packet>)
    returns (head: Packet, leftEnds: bool, ghost out: seq<Packet>)
    requires |ls| > 0 && |rs| > 0 && first == ls[0] && second == rs[0]
    requires Chain(ls, null) && Chain(rs, null) && Distinct(ls) && Distinct(rs) && Apart(ls, rs)
    modifies ls, rs
    ensures |out| > 0 && Chain(out, null) && Distinct(out) && head == out[0]
    ensures out[|out| - 1] == if leftEnds then ls[|ls| - 1] else rs[|rs| - 1]
    ensures View(out) == Merge(View(ls), View(rs)) && multiset(out) == multiset(ls) + multiset(rs)
  {
    hide Merge, View, OnTheWay, Merging, Chain, Distinct, Apart;
    var l: Packet?, r: Packet? := first, second;
    ghost var a, b := ls, rs;
    MergeBegins(ls, rs);
    if first.entry.expire < second.entry.expire {
      head := first;
      OnTheWayLeft([], a, b, ls, rs);
      NextOf(ls, 0);
      l := first.next;
      a := ls[1..];
      MergingBegins(ls, rs);
    } else {
      head := second;
      OnTheWayRight([], a, b, ls, rs);
      NextOf(rs, 0);
      r := second.next;
      b := rs[1..];
      MergingBegins(rs, ls);
      MergingTurned([head], b, a);
    }
    assert [] + [head] == [head];
    leftEnds, out := MergeLoop(head, l, r, a, b, ls, rs);
  }

  /** The loop itself, behind the first packet. */
  method MergeLoop(head: Packet, first: Packet?, second: Packet?, ghost l0: seq<Packet>, ghost r0: seq<Packet>,
                   ghost ls: seq<Packet>, ghost rs: seq<Packet>)
    returns (leftEnds: bool, ghost out: seq<Packet>)
    requires Merging([head], l0, r0) && (head in ls || head in rs) && |l0| + |r0| > 0 && |ls| > 0 && |rs| > 0
    requires first == (if |l0| == 0 then null else l0[0]) && second == (if |r0| == 0 then null else r0[0])
    requires Rest(l0, ls) && Rest(r0, rs) && OnTheWay([head], l0, r0, ls, rs)
    modifies ls, rs
    ensures |out| > 0 && Chain(out, null) && Distinct(out) && head == out[0]
    ensures out[|out| - 1] == if leftEnds then ls[|ls| - 1] else rs[|rs| - 1]
    ensures View(out) == Merge(View(ls), View(rs)) && multiset(out) == multiset(ls) + multiset(rs)
  {
    hide Merge, View, OnTheWay, Merging, Chain, Distinct, Apart;
    var l: Packet?, r: Packet? := first, second;
    ghost var a, b := l0, r0;
    out := [head];
    var curr := head;
    while l != null && r != null
      invariant |out| > 0 && Merging(out, a, b) && curr == out[|out| - 1] && head == out[0] &&
              (curr in ls || curr in rs)
      invariant l == (if |a| == 0 then null else a[0]) && r == (if |b| == 0 then null else b[0])
      invariant Rest(a, ls) && Rest(b, rs) && OnTheWay(out, a, b, ls, rs)
      invariant |a| + |b| > 0
      decreases |a| + |b|
    {
      if l.entry.expire < r.entry.expire {
        OnTheWayLeft(out, a, b, ls, rs);
        Append(out, curr, l, a, b);
        curr := l;
        l := l.next;
        out, a := out + [curr], a[1..];
      } else {
        OnTheWayRight(out, a, b, ls, rs);
        MergingTurned(out, a, b);
        Append(out, curr, r, b, a);
        curr := r;
        r := r.next;
        out, b := out + [curr], b[1..];
        MergingTurned(out, b, a);
      }
    }
    leftEnds := l != null;
    MergeIsDone(out, a, b, ls, rs);
    if l != null {
      AppendRest(out, curr, l, a, b);
      out := out + a;
    } else {
      MergingTurned(out, a, b);
      AppendRest(out, curr, r, b, a);
      out := out + b;
    }
  }

  lemma MergingBegins(ls: seq<Packet>, rs: seq<Packet>)
    requires |ls| > 0 && Chain(ls, null) && Chain(rs, null) && Distinct(ls) && Distinct(rs) &&
             (Apart(ls, rs) || Apart(rs, ls))
    ensures Merging([ls[0]], ls[1..], rs)
  {
    ChainDrop(ls, 1, null);
  }

  lemma MergingTurned(out: seq<Packet>, a: seq<Packet>, b: seq<Packet>)
    requires Merging(out, a, b)
    ensures Merging(out, b, a)
  {
  }

  lemma MergeBegins(ls: seq<Packet>, rs: seq<Packet>)
    ensures OnTheWay([], ls, rs, ls, rs)
  {
    assert View([]) == [];
  }

  ghost predicate AllBefore(ps: seq<Packet>, i: nat, now: int) {
    i <= |ps| && forall k :: 0 <= k < i ==> ps[k].entry.expire < now
  }

  lemma NoneBefore(ps: seq<Packet>, now: int)
    ensures AllBefore(ps, 0, now)
  {
  }

  lemma OneMoreBefore(ps: seq<Packet>, i: nat, now: int)
    requires AllBefore(ps, i, now) && i < |ps| && ps[i].entry.expire < now
    ensures AllBefore(ps, i + 1, now)
  {
  }

  lemma NextOf(ps: seq<Packet>, i: nat)
    requires Chain(ps, null) && i < |ps|
    ensures ps[i].next == if i + 1 < |ps| then ps[i + 1] else null
  {
  }

  /** Writes a link that is already there. */
  method Relink(last: Packet, head: Packet, ghost ps: seq<Packet>, ghost i: nat)
    requires Chain(ps, null) && 0 < i < |ps| && last == ps[i - 1] && head == ps[i]
    modifies last`next
    ensures Chain(ps, null)
  {
    assert last.next == head;
    last.next := head;
  }

  ghost function Front(ps: seq<Packet>, i: nat): (r: seq<Packet>)
    requires i <= |ps|
    ensures |r| == i && (i > 0 ==> r[0] == ps[0])
  {
    ps[..i]
  }

  ghost function Back(ps: seq<Packet>, i: nat): (r: seq<Packet>)
    requires i <= |ps|
    ensures |r| == |ps| - i && (i < |ps| ==> r[0] == ps[i] && r[|r| - 1] == ps[|ps| - 1])
  {
    ps[i..]
  }

  /** Ends the list of expired packets behind its last one. */
  method Cut(last: Packet?, ghost was: seq<Packet>, ghost i: nat)
    requires i <= |was| && Distinct(was) && Chain(was, null)
    requires last == if i == 0 then null else was[i - 1]
    modifies (if last == null then {} else {last})`next
    ensures Chain(Front(was, i), null) && Chain(Back(was, i), null)
  {
    if last != null {
      last.next := null;
      forall k | 0 <= k < |was|
        ensures was[k].next == if k + 1 < |was| && k + 1 != i then was[k + 1] else null
      {
        assert old(was[k].next) == if k + 1 < |was| then was[k + 1] else null;
      }
    }
    CutIsChain(was, i);
  }

  class OrderedPacketQueue {
    var head: Packet?
    var tail: Packet?
    var size: nat
    ghost var packets: seq<Packet>

    ghost predicate Valid()
      reads this, packets
    {
      && size == |packets| && Distinct(packets) && Chain(packets, null)
      && head == (if |packets| == 0 then null else packets[0])
      && tail == (if |packets| == 0 then null else packets[|packets| - 1])
      && Sorted(View(packets))
    }

    ghost function Contents(): (s: seq<Entry>)
      reads this
    {
      View(packets)
    }

    constructor ()
      ensures Valid() && Contents() == []
    {
      head, tail, size, packets := null, null, 0, [];
    }

    /** The scan of Push: the first packet due later, and the one before it. */
    method FindLater(expireTime: int) returns (p1: Packet, p2: Packet, ghost i: nat)
      requires Valid() && |packets| > 0
      requires packets[0].entry.expire <= expireTime < packets[|packets| - 1].entry.expire
      ensures 0 < i < |packets| && p1 == packets[i] && p2 == packets[i - 1]
      ensures forall k :: 0 <= k < i ==> packets[k].entry.expire <= expireTime
      ensures packets[i].entry.expire > expireTime
    {
      hide Sorted, View, Distinct;
      p1 := head;
      p2 := p1;
      i := 0;
      while expireTime >= p1.entry.expire
        invariant 0 <= i < |packets| && p1 == packets[i] && (i > 0 ==> p2 == packets[i - 1])
        invariant forall k :: 0 <= k < i ==> packets[k].entry.expire <= expireTime
        decreases |packets| - i
      {
        p2 := p1;
        p1 := p1.next;
        i := i + 1;
      }
    }

    method Push(packet: Packet)
      requires Valid() && packet !in packets
      modifies this, packets, packet
      ensures Valid() && Contents() == Insert(old(Contents()), packet.entry)
      ensures multiset(packets) == multiset(old(packets)) + multiset{packet}
    {
      hide Insert, InsertAt, DueBy, View, Sorted, Chain, Distinct;
      var before: Packet?, after: Packet? := tail, null;
      ghost var i := |packets|;
      if head != null {
        Ends(packets);
      }
      if head == null || packet.entry.expire >= tail.entry.expire {
        // behind every other packet
      } else if packet.entry.expire < head.entry.expire {
        before, after, i := null, head, 0;
      } else {
        after, before, i := FindLater(packet.entry.expire);
      }
      LinkedInCounts(packets, packet, i);
      InsertView(packets, packet, i);
      InsertKeepsSorted(View(packets), packet.entry);
      LinkIn(packet, before, after, packets, i);
      if before == null {
        head := packet;
      }
      if after == null {
        tail := packet;
      }
      size := size + 1;
      packets := InsertAt(packets, i, packet);
    }

    method Pop() returns (packet: Packet?)
      requires Valid()
      modifies this
      ensures Valid()
      ensures old(packets) == [] ==> packet == null && packets == []
      ensures old(packets) != [] ==> packet == old(packets)[0] && packets == old(packets)[1..]
    {
      if head == null {
        return null;
      }
      packet := head;
      assert packets[0].next == head.next;
      head := head.next;
      if head == null {
        tail := null;
      }
      size := size - 1;
      ChainDrop(packets, 1, null);
      packets := packets[1..];
      assert View(packets) == View(old(packets))[1..];
    }

    /** Merges the source into this queue and leaves it empty. */
    method MoveBack(src: OrderedPacketQueue)
      requires Valid() && src.Valid() && src != this && Apart(packets, src.packets)
      modifies this, packets, src, src.packets
      ensures Valid() && src.Valid() && src.packets == []
      ensures Contents() == Merge(old(Contents()), old(src.Contents()))
      ensures multiset(packets) == multiset(old(packets)) + multiset(old(src.packets))
    {
      hide Merge, View, Sorted, Chain, Distinct, Apart;
      ghost var ls, rs := packets, src.packets;
      if src.head == null {
        MergeWithEmpty(ls, rs);
        return;
      }
      TakeChain(src);
      SizesAdd(packets, ls, rs);
      size := size + src.size;
      src.size, src.head, src.tail, src.packets := 0, null, null, [];
      EmptyIsSorted();
    }

    /** The relinking of MoveBack: the packets of a queue that is not empty come into this one. */
    method TakeChain(src: OrderedPacketQueue)
      requires Valid() && src.Valid() && src != this && Apart(packets, src.packets) && src.head != null
      modifies `head, `tail, `packets, packets, src.packets
      ensures Distinct(packets) && Chain(packets, null) && Sorted(View(packets)) && |packets| > 0
      ensures head == packets[0] && tail == packets[|packets| - 1]
      ensures Contents() == Merge(old(Contents()), old(src.Contents()))
      ensures multiset(packets) == multiset(old(packets)) + multiset(old(src.packets))
    {
      hide Merge, View, Sorted, Chain, Distinct, Apart;
      ghost var ls, rs := packets, src.packets;
      MergeKeepsSorted(View(ls), View(rs));
      if head == null {
        MergeWithEmpty(ls, rs);
        head, tail, packets := src.head, src.tail, rs;
      } else if src.tail.entry.expire <= head.entry.expire {
        SourceGoesFirst(ls, rs);
        Join(src.tail, head, rs, ls);
        head, packets := src.head, rs + ls;
      } else {
        var first, leftEnds;
        ghost var out;
        first, leftEnds, out := MergeChains(head, src.head, ls, rs);
        if !leftEnds { tail := src.tail; }
        head, packets := first, out;
      }
    }

    method MoveTo(dest: OrderedPacketQueue)
      requires Valid() && dest.Valid() && dest != this && Apart(dest.packets, packets)
      modifies this, packets, dest, dest.packets
      ensures Valid() && dest.Valid() && packets == []
      ensures dest.Contents() == Merge(old(dest.Contents()), old(Contents()))
      ensures multiset(dest.packets) == multiset(old(dest.packets)) + multiset(old(packets))
    {
      dest.MoveBack(this);
    }

    /** The loop of getTimeoutList: head moves past the expired packets. */
    method SkipExpired(now: int) returns (list: Packet?, last: Packet?, ghost i: nat)
      requires Valid()
      modifies this`head, this`size, (set p | p in packets)`next
      ensures i <= |packets| && size == |packets| - i && Chain(packets, null)
      ensures head == (if i < |packets| then packets[i] else null)
      ensures last == (if i == 0 then null else packets[i - 1]) && list == (if i == 0 then null else packets[0])
      ensures AllBefore(packets, i, now) && (i < |packets| ==> packets[i].entry.expire >= now)
    {
      hide Chain, Sorted, View, Distinct, AllBefore;
      NoneBefore(packets, now);
      i := 0;
      list, last := null, null;
      ghost var ps := packets;
      while head != null && head.entry.expire < now
        invariant packets == ps && i <= |ps| && size == |ps| - i && Chain(ps, null)
        invariant head == (if i < |ps| then ps[i] else null)
        invariant last == (if i == 0 then null else ps[i - 1]) && list == (if i == 0 then null else ps[0])
        invariant AllBefore(ps, i, now)
        decreases |ps| - i
      {
        if last == null {
          list := head;
        } else {
          Relink(last, head, ps, i);
        }
        NextOf(ps, i);
        OneMoreBefore(ps, i, now);
        last := head;
        size := size - 1;
        head := head.next;
        i := i + 1;
      }
    }

    /** Detaches the packets past their deadline. */
    method GetTimeoutList(now: int) returns (list: Packet?, ghost expired: seq<Packet>)
      requires Valid()
      modifies this, packets
      ensures Valid() && old(packets) == expired + packets
      ensures |expired| == DueBy(old(Contents()), now - 1)
      ensures Chain(expired, null) && list == if |expired| == 0 then null else expired[0]
    {
      hide DueBy, Sorted, View, Chain, Distinct, AllBefore, Front, Back;
      ghost var was := packets;
      var last;
      ghost var i;
      list, last, i := SkipExpired(now);
      ExpiredPrefix(was, now, i);
      Cut(last, was, i);
      if head == null {
        tail := head;
      }
      expired, packets := Front(was, i), Back(was, i);
    }
  }

  // ----- Lemmas behind the methods -------------------------------------------------------------

  lemma MergeWithEmpty(ls: seq<Packet>, rs: seq<Packet>)
    ensures |rs| == 0 ==> Merge(View(ls), View(rs)) == View(ls) && multiset(ls) == multiset(ls) + multiset(rs)
    ensures |ls| == 0 ==> Merge(View(ls), View(rs)) == View(rs) && multiset(rs) == multiset(ls) + multiset(rs)
  {
  }

  lemma EmptyIsSorted()
    ensures Sorted(View([])) && Chain([], null) && Distinct([])
  {
  }

  lemma SizesAdd(out: seq<Packet>, ls: seq<Packet>, rs: seq<Packet>)
    requires multiset(out) == multiset(ls) + multiset(rs)
    ensures |out| == |ls| + |rs|
  {
    assert |multiset(out)| == |multiset(ls)| + |multiset(rs)|;
  }

  lemma ExpiredPrefix(was: seq<Packet>, now: int, i: nat)
    requires i <= |was| && Sorted(View(was)) && Distinct(was)
    requires AllBefore(was, i, now) && (i < |was| ==> was[i].entry.expire >= now)
    ensures DueBy(View(was), now - 1) == i
    ensures Sorted(View(Back(was, i))) && Distinct(Back(was, i)) && was == Front(was, i) + Back(was, i)
  {
    DueByIsUnique(View(was), now - 1, i);
  }

  /** Links one list in front of another. */
  method Join(last: Packet, first: Packet, ghost rs: seq<Packet>, ghost ls: seq<Packet>)
    requires |rs| > 0 && |ls| > 0 && last == rs[|rs| - 1] && first == ls[0]
    requires Distinct(ls) && Distinct(rs) && Apart(ls, rs) && Chain(rs, null) && Chain(ls, null)
    modifies last`next
    ensures Chain(rs + ls, null) && Distinct(rs + ls)
  {
    last.next := first;
    JoinedIsChain(rs, ls);
  }

  /** Two chains joined by one link. */
  lemma JoinedIsChain(rs: seq<Packet>, ls: seq<Packet>)
    requires |rs| > 0 && |ls| > 0 && Distinct(ls) && Distinct(rs) && Apart(ls, rs)
    requires Chain(rs, ls[0]) && Chain(ls, null)
    ensures Chain(rs + ls, null) && Distinct(rs + ls)
  {
    var ps := rs + ls;
    forall i | 0 <= i < |ps| ensures ps[i].next == if i + 1 < |ps| then ps[i + 1] else null {
      if i < |rs| { assert ps[i] == rs[i]; } else { assert ps[i] == ls[i - |rs|]; }
    }
  }

  /** A chain cut in two behind its first i packets. */
  lemma CutIsChain(was: seq<Packet>, i: nat)
    requires i <= |was| && Distinct(was)
    requires forall k {:trigger was[k].next} :: 0 <= k < |was| ==>
               was[k].next == if k + 1 < |was| && k + 1 != i then was[k + 1] else null
    ensures Chain(was[..i], null) && Chain(was[i..], null)
  {
    forall k | 0 <= k < i ensures was[..i][k].next == if k + 1 < i then was[..i][k + 1] else null {
      assert was[..i][k] == was[k];
    }
    var rest := was[i..];
    forall k | 0 <= k < |rest| ensures rest[k].next == if k + 1 < |rest| then rest[k + 1] else null {
      assert rest[k] == was[i + k];
    }
  }

  lemma SourceGoesFirst(ls: seq<Packet>, rs: seq<Packet>)
    requires |ls| > 0 && |rs| > 0 && Sorted(View(rs)) && rs[|rs| - 1].entry.expire <= ls[0].entry.expire
    ensures Merge(View(ls), View(rs)) == View(rs + ls)
    ensures multiset(rs + ls) == multiset(ls) + multiset(rs)
  {
    ViewConcat(rs, ls);
    MergeSourceFirst(View(ls), View(rs));
  }

  // ----- What the specification means ----------------------------------------------------------

  lemma {:induction false} MergeSourceFirst(dest: seq<Entry>, src: seq<Entry>)
    requires |dest| > 0 && forall i :: 0 <= i < |src| ==> src[i].expire <= dest[0].expire
    ensures Merge(dest, src) == src + dest
  {
    if |src| > 0 { MergeSourceFirst(dest, src[1..]); }
  }

  lemma {:induction false} MergeCounts(dest: seq<Entry>, src: seq<Entry>)
    ensures multiset(Merge(dest, src)) == multiset(dest) + multiset(src)
    decreases |dest| + |src|
  {
    if |dest| == 0 || |src| == 0 {
    } else if dest[0].expire < src[0].expire {
      MergeCounts(dest[1..], src);
      assert dest == [dest[0]] + dest[1..];
    } else {
      MergeCounts(dest, src[1..]);
      assert src == [src[0]] + src[1..];
    }
  }

  lemma {:induction false} MergeKeepsBound(dest: seq<Entry>, src: seq<Entry>, low: int)
    requires forall i :: 0 <= i < |dest| ==> low <= dest[i].expire
    requires forall i :: 0 <= i < |src| ==> low <= src[i].expire
    ensures forall i :: 0 <= i < |Merge(dest, src)| ==> low <= Merge(dest, src)[i].expire
    decreases |dest| + |src|
  {
    if |dest| == 0 || |src| == 0 {
    } else if dest[0].expire < src[0].expire {
      MergeKeepsBound(dest[1..], src, low);
    } else {
      MergeKeepsBound(dest, src[1..], low);
    }
  }

  lemma {:induction false} MergeKeepsSorted(dest: seq<Entry>, src: seq<Entry>)
    requires Sorted(dest) && Sorted(src)
    ensures Sorted(Merge(dest, src))
    decreases |dest| + |src|
  {
    if |dest| == 0 || |src| == 0 {
    } else if dest[0].expire < src[0].expire {
      MergeKeepsSorted(dest[1..], src);
      MergeKeepsBound(dest[1..], src, dest[0].expire);
    } else {
      MergeKeepsSorted(dest, src[1..]);
      MergeKeepsBound(dest, src[1..], src[0].expire);
    }
  }
}
