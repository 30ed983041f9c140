/** The channel pool: doubly linked free and waiting lists over clusters of channels, an id map of
    the channels that wait for a reply, and the count of channels in use. */
module ChannelPool {

  const CLUSTER_SIZE: nat := 64

  class Channel {
    var id: nat
    var expire: int
    var prev: Channel?
    var next: Channel?

    constructor ()
      ensures id == 0 && expire == 0 && prev == null && next == null
    {
      id, expire, prev, next := 0, 0, null, null;
    }
  }

  // ----- Doubly linked lists -------------------------------------------------------------------

  ghost predicate Distinct(cs: seq<Channel>) {
    forall i, j :: 0 <= i < j < |cs| ==> cs[i] != cs[j]
  }

  function First(cs: seq<Channel>): Channel? {
    if |cs| == 0 then null else cs[0]
  }

  function Last(cs: seq<Channel>): Channel? {
    if |cs| == 0 then null else cs[|cs| - 1]
  }

  /** The channels of cs are linked to their neighbours both ways, and to nothing at the ends. */
  ghost predicate Dll(cs: seq<Channel>)
    reads (set c | c in cs)`next, (set c | c in cs)`prev
  {
    && (forall i {:trigger cs[i].next} :: 0 <= i < |cs| ==> cs[i].next == if i + 1 < |cs| then cs[i + 1] else null)
    && (forall i {:trigger cs[i].prev} :: 0 <= i < |cs| ==> cs[i].prev == if i == 0 then null else cs[i - 1])
  }

  ghost function RemoveAt(cs: seq<Channel>, i: nat): (r: seq<Channel>)
    requires i < |cs|
    ensures |r| == |cs| - 1
  {
    cs[..i] + cs[i + 1..]
  }

  ghost function InsertAt(cs: seq<Channel>, i: nat, c: Channel): (r: seq<Channel>)
    requires i <= |cs|
    ensures |r| == |cs| + 1
  {
    cs[..i] + [c] + cs[i..]
  }

  lemma Neighbours(cs: seq<Channel>, i: nat)
    requires Dll(cs) && Distinct(cs) && i < |cs|
    ensures cs[i].next == if i + 1 < |cs| then cs[i + 1] else null
    ensures cs[i].prev == if i == 0 then null else cs[i - 1]
    ensures (cs[i] == First(cs)) == (i == 0) && (cs[i] == Last(cs)) == (i == |cs| - 1)
  {
  }

  /** freeWaitingChannel's pointer surgery: the neighbours of the i-th channel skip it. */
  method Unlink(c: Channel, ghost cs: seq<Channel>, ghost i: nat)
    requires Distinct(cs) && Dll(cs) && i < |cs| && c == cs[i]
    modifies (if c.prev != null then {c.prev} else {})`next, (if c.next != null then {c.next} else {})`prev
    ensures Dll(RemoveAt(cs, i)) && Distinct(RemoveAt(cs, i))
  {
    if c.prev != null {
      c.prev.next := c.next;
    }
    if c.next != null {
      c.next.prev := c.prev;
    }
    UnlinkedIsDll(cs, i);
  }

  lemma UnlinkedIsDll(cs: seq<Channel>, i: nat)
    requires Distinct(cs) && i < |cs|
    requires forall k {:trigger cs[k].next} :: 0 <= k < |cs| && k != i ==>
               var j := if k + 1 == i then i + 1 else k + 1; cs[k].next == if j < |cs| then cs[j] else null
    requires forall k {:trigger cs[k].prev} :: 0 <= k < |cs| && k != i ==>
               var j := if k - 1 == i then i - 1 else k - 1; cs[k].prev == if j >= 0 then cs[j] else null
    ensures Dll(RemoveAt(cs, i)) && Distinct(RemoveAt(cs, i))
  {
    var r := RemoveAt(cs, i);
    forall k | 0 <= k < |r|
      ensures r[k].next == if k + 1 < |r| then r[k + 1] else null
      ensures r[k].prev == if k == 0 then null else r[k - 1]
    {
      if k < i { assert r[k] == cs[k]; } else { assert r[k] == cs[k + 1]; }
    }
  }

  /** addToWaitingList's pointer surgery: c goes between the channels at i - 1 and i. */
  method LinkAt(c: Channel, before: Channel?, after: Channel?, ghost cs: seq<Channel>, ghost i: nat)
    requires Distinct(cs) && Dll(cs) && i <= |cs| && c !in cs
    requires before == (if i == 0 then null else cs[i - 1]) && after == (if i == |cs| then null else cs[i])
    modifies c`prev, c`next, (if before != null then {before} else {})`next,
        (if after != null then {after} else {})`prev
    ensures Dll(InsertAt(cs, i, c)) && Distinct(InsertAt(cs, i, c))
  {
    c.prev := before;
    c.next := after;
    if before != null {
      before.next := c;
    }
    if after != null {
      after.prev := c;
    }
    LinkedIsDll(c, cs, i);
  }

  lemma InsertedAt(cs: seq<Channel>, i: nat, c: Channel, k: nat)
    requires i <= |cs| && k <= |cs|
    ensures InsertAt(cs, i, c)[k] == if k < i then cs[k] else if k == i then c else cs[k - 1]
  {
  }

  lemma LinkedIsDll(c: Channel, cs: seq<Channel>, i: nat)
    requires Distinct(cs) && i <= |cs| && c !in cs
    requires c.prev == (if i == 0 then null else cs[i - 1]) && c.next == (if i == |cs| then null else cs[i])
    requires forall k {:trigger cs[k].next} :: 0 <= k < |cs| ==>
               cs[k].next == if k + 1 == i then c else if k + 1 < |cs| then cs[k + 1] else null
    requires forall k {:trigger cs[k].prev} :: 0 <= k < |cs| ==>
               cs[k].prev == if k == i then c else if k == 0 then null else cs[k - 1]
    ensures Dll(InsertAt(cs, i, c)) && Distinct(InsertAt(cs, i, c))
  {
    hide InsertAt;
    var r := InsertAt(cs, i, c);
    forall k {:trigger r[k].next} | 0 <= k < |r| ensures r[k].next == if k + 1 < |r| then r[k + 1] else null {
      InsertedAt(cs, i, c, k);
      if k + 1 < |r| { InsertedAt(cs, i, c, k + 1); }
    }
    forall k {:trigger r[k].prev} | 0 <= k < |r| ensures r[k].prev == if k == 0 then null else r[k - 1] {
      InsertedAt(cs, i, c, k);
      if k > 0 { InsertedAt(cs, i, c, k - 1); }
    }
    InsertedIsDistinct(cs, i, c);
  }

  lemma InsertedIsDistinct(cs: seq<Channel>, i: nat, c: Channel)
    requires Distinct(cs) && i <= |cs| && c !in cs
    ensures Distinct(InsertAt(cs, i, c))
  {
    hide InsertAt;
    var r := InsertAt(cs, i, c);
    forall j, k | 0 <= j < k < |r| ensures r[j] != r[k] {
      InsertedAt(cs, i, c, j);
      InsertedAt(cs, i, c, k);
    }
  }

  /** Joins two lists end to end. */
  method Join(last: Channel, first: Channel, ghost a: seq<Channel>, ghost b: seq<Channel>)
    requires |a| > 0 && |b| > 0 && last == a[|a| - 1] && first == b[0]
    requires Dll(a) && Dll(b) && Distinct(a + b)
    modifies last`next, first`prev
    ensures Dll(a + b)
  {
    assert forall i :: 0 <= i < |a| ==> a[i] == (a + b)[i];
    assert forall i :: 0 <= i < |b| ==> b[i] == (a + b)[|a| + i];
    last.next := first;
    first.prev := last;
    var r := a + b;
    forall k | 0 <= k < |r|
      ensures r[k].next == if k + 1 < |r| then r[k + 1] else null
      ensures r[k].prev == if k == 0 then null else r[k - 1]
    {
      if k < |a| { assert r[k] == a[k]; } else { assert r[k] == b[k - |a|]; }
    }
  }

  /** Cuts a list in two in front of its i-th channel. */
  method Split(at: Channel, ghost cs: seq<Channel>, ghost i: nat)
    requires 0 < i < |cs| && at == cs[i] && Dll(cs) && Distinct(cs)
    modifies {cs[i - 1]}`next, at`prev
    ensures Dll(cs[..i]) && Dll(cs[i..])
  {
    assert at.prev == cs[i - 1];
    at.prev.next := null;
    at.prev := null;
    var a, b := cs[..i], cs[i..];
    forall k | 0 <= k < |a|
      ensures a[k].next == if k + 1 < |a| then a[k + 1] else null
      ensures a[k].prev == if k == 0 then null else a[k - 1]
    {
      assert a[k] == cs[k];
    }
    forall k | 0 <= k < |b|
      ensures b[k].next == if k + 1 < |b| then b[k + 1] else null
      ensures b[k].prev == if k == 0 then null else b[k - 1]
    {
      assert b[k] == cs[i + k];
    }
  }

  /** Detaches the first channel of a list. */
  method DropFirst(c: Channel, ghost cs: seq<Channel>)
    requires |cs| > 0 && c == cs[0] && Dll(cs) && Distinct(cs)
    modifies (if c.next != null then {c.next} else {})`prev
    ensures Dll(cs[1..]) && Distinct(cs[1..])
  {
    if c.next != null {
      c.next.prev := null;
    }
    assert RemoveAt(cs, 0) == cs[1..];
    UnlinkedIsDll(cs, 0);
  }

  lemma EmptyIsList()
    ensures Dll([]) && Distinct([])
  {
  }

  lemma Whole(cs: seq<Channel>)
    ensures cs[..|cs|] == cs && cs[0..] == cs && cs[..0] == [] && cs[|cs|..] == []
  {
  }

  lemma TailIsDistinct(cs: seq<Channel>, n: nat)
    requires Distinct(cs) && n <= |cs|
    ensures Distinct(cs[n..]) && Distinct(cs[..n])
  {
  }

  lemma DropsFirst(cs: seq<Channel>, n: nat)
    requires n < |cs|
    ensures RemoveAt(cs[n..], 0) == cs[n + 1..]
  {
  }

  /** The first channel of a list has nothing before it. */
  method ClearPrev(first: Channel, ghost cs: seq<Channel>)
    requires |cs| > 0 && first == cs[0] && Dll(cs)
    modifies first`prev
    ensures Dll(cs)
  {
    assert first.prev == null;
    first.prev := null;
  }

  /** The scan of appendFreeList. */
  method LastOf(list: Channel, ghost cs: seq<Channel>) returns (tail: Channel)
    requires |cs| > 0 && list == cs[0] && Dll(cs)
    ensures tail == Last(cs)
  {
    tail := list;
    ghost var i := 0;
    while tail.next != null
      invariant i < |cs| && tail == cs[i]
      decreases |cs| - i
    {
      tail := tail.next;
      i := i + 1;
    }
  }

  method BuildCluster() returns (c: Channel, head: Channel, tail: Channel, ghost cs: seq<Channel>)
    ensures |cs| == CLUSTER_SIZE - 1 && Dll(cs) && Distinct(cs) && c !in cs
    ensures fresh(c) && (forall k :: k in cs ==> fresh(k)) && head == First(cs) && tail == Last(cs)
  {
    hide Dll, Distinct;
    c := new Channel();
    head := new Channel();
    tail, cs := head, [head];
    OneIsList(head);
    for i := 2 to CLUSTER_SIZE
      invariant |cs| == i - 1 && Dll(cs) && Distinct(cs) && c !in cs
      invariant fresh(c) && (forall k :: k in cs ==> fresh(k)) && head == First(cs) && tail == Last(cs)
    {
      var next := new Channel();
      assert InsertAt(cs, |cs|, next) == cs + [next] && tail in cs;
      LinkAt(next, tail, null, cs, |cs|);
      tail, cs := next, cs + [next];
    }
  }

  lemma OneIsList(c: Channel)
    requires c.prev == null && c.next == null
    ensures Dll([c]) && Distinct([c])
  {
  }

  // ----- Channel ids ---------------------------------------------------------------------------

  const AUTO_CHANNEL_ID_MAX: nat := 0x0FFF_FFFF_FFFF_FFFF
  const HTTP_CHANNEL_ID: nat := 0x1000_0000
  const ADMIN_CHANNEL_ID: nat := 0x1000_0001

  /** Ids whose low 32 bits an old peer would take for a special channel. */
  predicate Reserved(id: nat) {
    var low := Low32(id);
    low == HTTP_CHANNEL_ID || low == ADMIN_CHANNEL_ID || low == 0
  }

  function Low32(n: nat): (r: nat) {
    n % 0x1_0000_0000
  }

  lemma Low32IsUnique(n: int, q: int, r: int)
    requires n == q * 0x1_0000_0000 + r && 0 <= r < 0x1_0000_0000
    ensures n % 0x1_0000_0000 == r
  {
  }

  /** Masking to 60 bits keeps the low 32 bits. */
  lemma MaskKeepsLow32(n: nat)
    ensures Low32(n % 0x1000_0000_0000_0000) == Low32(n)
  {
    var a, b := n / 0x1000_0000_0000_0000, n % 0x1000_0000_0000_0000;
    var c, d := b / 0x1_0000_0000, b % 0x1_0000_0000;
    Low32IsUnique(n, a * 0x1000_0000 + c, d);
  }

  /** The 64-bit increment carries into the low 32 bits like a 32-bit one. */
  lemma IncrementLow32(n: nat)
    requires n < 0x1_0000_0000_0000_0000
    ensures Low32((n + 1) % 0x1_0000_0000_0000_0000) == (Low32(n) + 1) % 0x1_0000_0000
  {
    var c, d := n / 0x1_0000_0000, n % 0x1_0000_0000;
    if n + 1 == 0x1_0000_0000_0000_0000 {
      assert (n + 1) % 0x1_0000_0000_0000_0000 == 0;
      Low32IsUnique(n, 0xFFFF_FFFF, 0xFFFF_FFFF);
    } else if d == 0xFFFF_FFFF {
      Low32IsUnique(n + 1, c + 1, 0);
    } else {
      Low32IsUnique(n + 1, c, d + 1);
    }
  }

  /** The id that the n-th increment of the global 64-bit counter yields. */
  function IdAfter(counter: nat, n: nat): (id: nat) {
    ((counter + n) % 0x1_0000_0000_0000_0000) % 0x1000_0000_0000_0000
  }

  /** The counter moved on to the first id that is not reserved, at most three steps away. */
  predicate Issued(counter: nat, n: nat, counter': nat, id: nat) {
    && 1 <= n <= 3 && counter' == (counter + n) % 0x1_0000_0000_0000_0000
    && id == IdAfter(counter, n) && !Reserved(id)
    && (forall m :: 1 <= m < n ==> Reserved(IdAfter(counter, m)))
  }

  method CreateChannelId(chid: nat, counter: nat) returns (id: nat, counter': nat, ghost n: nat)
    requires chid < 0x1_0000_0000_0000_0000 && counter < 0x1_0000_0000_0000_0000
    ensures counter' < 0x1_0000_0000_0000_0000
    ensures IsAutomatic(chid) ==> Issued(counter, n, counter', id) && 0 < id <= AUTO_CHANNEL_ID_MAX
    ensures !IsAutomatic(chid) ==> id == chid && counter' == counter
  {
    id, counter', n := chid, counter, 0;
    if IsAutomatic(chid) {
      counter', id := NextId(counter');
      n := 1;
      while Reserved(id)
        invariant counter' < 0x1_0000_0000_0000_0000 && Low32(id) == Low32(counter')
        invariant 1 <= n && n + SkipsLeft(Low32(counter')) <= 3
        invariant counter' == (counter + n) % 0x1_0000_0000_0000_0000 && id == IdAfter(counter, n)
        invariant forall m :: 1 <= m < n ==> Reserved(IdAfter(counter, m))
        decreases SkipsLeft(Low32(counter'))
      {
        CountOn(counter, n);
        counter', id := NextId(counter');
        n := n + 1;
      }
    }
  }

  lemma CountOn(counter: nat, n: nat)
    ensures ((counter + n) % 0x1_0000_0000_0000_0000 + 1) % 0x1_0000_0000_0000_0000 ==
            (counter + (n + 1)) % 0x1_0000_0000_0000_0000
  {
  }

  /** Issued ids repeat only after a whole round of the 60-bit id space. */
  lemma IdsStayDistinct(counters: seq<nat>, ns: seq<nat>, ids: seq<nat>, i: nat, j: nat)
    requires |counters| == |ids| + 1 == |ns| + 1 && i < j < |ids|
    requires forall k :: 0 <= k < |ids| ==> Issued(counters[k], ns[k], counters[k + 1], ids[k])
    requires 3 * (j - i) < 0x1000_0000_0000_0000
    ensures ids[i] != ids[j]
  {
    var d := Travelled(counters, ns, ids, i, j);
    IdsDiffer(counters[i + 1], d);
  }

  lemma {:induction false} Travelled(counters: seq<nat>, ns: seq<nat>, ids: seq<nat>, i: nat, j: nat) returns (d: nat)
    requires |counters| == |ids| + 1 == |ns| + 1 && i < j < |ids|
    requires forall k :: 0 <= k < |ids| ==> Issued(counters[k], ns[k], counters[k + 1], ids[k])
    ensures 0 < d <= 3 * (j - i) && counters[j + 1] == (counters[i + 1] + d) % 0x1_0000_0000_0000_0000
    ensures ids[j] == counters[j + 1] % 0x1000_0000_0000_0000 && ids[i] == counters[i + 1] % 0x1000_0000_0000_0000
    ensures counters[i + 1] < 0x1_0000_0000_0000_0000
    decreases j
  {
    assert Issued(counters[i], ns[i], counters[i + 1], ids[i]);
    assert Issued(counters[j], ns[j], counters[j + 1], ids[j]);
    d := ns[j];
    if i + 1 < j {
      var e := Travelled(counters, ns, ids, i, j - 1);
      d := e + ns[j];
      StepsAdd(counters[i + 1], e, ns[j]);
    }
  }

  lemma StepsAdd(a: nat, d: nat, e: nat)
    ensures ((a + d) % 0x1_0000_0000_0000_0000 + e) % 0x1_0000_0000_0000_0000 ==
            (a + (d + e)) % 0x1_0000_0000_0000_0000
  {
  }

  lemma IdsDiffer(a: nat, d: nat)
    requires a < 0x1_0000_0000_0000_0000 && 0 < d < 0x1000_0000_0000_0000
    ensures ((a + d) % 0x1_0000_0000_0000_0000) % 0x1000_0000_0000_0000 != a % 0x1000_0000_0000_0000
  {
  }

  predicate IsAutomatic(chid: nat) {
    chid <= AUTO_CHANNEL_ID_MAX && chid != HTTP_CHANNEL_ID && chid != ADMIN_CHANNEL_ID
  }

  method NextId(counter: nat) returns (counter': nat, id: nat)
    requires counter < 0x1_0000_0000_0000_0000
    ensures counter' == (counter + 1) % 0x1_0000_0000_0000_0000 && id == counter' % 0x1000_0000_0000_0000
    ensures Low32(counter') == (Low32(counter) + 1) % 0x1_0000_0000 && Low32(id) == Low32(counter')
  {
    counter' := (counter + 1) % 0x1_0000_0000_0000_0000;
    id := counter' % 0x1000_0000_0000_0000;
    IncrementLow32(counter);
    MaskKeepsLow32(counter');
  }

  /** At most two consecutive counter values are skipped. */
  function SkipsLeft(low: nat): (n: nat) {
    if low == HTTP_CHANNEL_ID then 2 else if low == ADMIN_CHANNEL_ID || low == 0 then 1 else 0
  }

  // ----- The pool ------------------------------------------------------------------------------

  ghost predicate SortedByExpire(cs: seq<Channel>)
    reads (set c | c in cs)`expire
  {
    forall i, j :: 0 <= i < j < |cs| ==> cs[i].expire <= cs[j].expire
  }

  /** The map holds listed channels only, each under its own id. */
  ghost predicate MapOf(m: map<nat, Channel>, cs: seq<Channel>)
    reads (set c | c in cs)`id
  {
    forall id {:trigger m[id]} :: id in m ==> m[id] in cs && m[id].id == id
  }

  /** Every listed channel can be found. The pool keeps this as long as no channel starts to wait under
      an id that is waiting already. */
  ghost predicate Complete(m: map<nat, Channel>, cs: seq<Channel>)
    reads (set c | c in cs)`id
  {
    forall i {:trigger cs[i]} :: 0 <= i < |cs| ==> cs[i].id in m && m[cs[i].id] == cs[i]
  }

  function Erase(m: map<nat, Channel>, id: nat): map<nat, Channel> {
    m - {id}
  }

  /** Every channel of every cluster is in exactly one place. */
  ghost predicate Parts(all: set<Channel>, free: seq<Channel>, wait: seq<Channel>, outstanding: set<Channel>,
                        expired: set<Channel>)
  {
    && (forall c :: c in free ==> c in all) && (forall c :: c in wait ==> c in all)
    && outstanding <= all && expired <= all
    && (forall c :: c in all ==> ExactlyOne(c in free, c in wait, c in outstanding, c in expired))
  }

  predicate ExactlyOne(a: bool, b: bool, c: bool, d: bool) {
    && (a || b || c || d)
    && !(a && b) && !(a && c) && !(a && d) && !(b && c) && !(b && d) && !(c && d)
  }

  ghost predicate AllWaiting(cs: seq<Channel>)
    reads (set c | c in cs)`expire
  {
    forall i :: 0 <= i < |cs| ==> cs[i].expire > 0
  }

  ghost predicate NoneWaiting(cs: set<Channel>)
    reads cs`expire
  {
    forall c :: c in cs ==> c.expire == 0
  }

  /** A waiting list in deadline order, with its id map. */
  ghost predicate WaitingList(m: map<nat, Channel>, cs: seq<Channel>)
    reads (set c | c in cs)`expire, (set c | c in cs)`id
  {
    SortedByExpire(cs) && AllWaiting(cs) && MapOf(m, cs)
  }

  /** Behind all channels due at or before a time, and before all due later: last among its equals. */
  ghost predicate IsPlace(cs: seq<Channel>, i: nat, time: int)
    reads (set c | c in cs)`expire
  {
    && i <= |cs| && (forall k :: 0 <= k < i ==> cs[k].expire <= time)
    && (forall k :: i <= k < |cs| ==> cs[k].expire > time)
  }

  class Pool {
    var freeHead: Channel?
    var freeTail: Channel?
    var waitHead: Channel?
    var waitTail: Channel?
    var waitMap: map<nat, Channel>
    var useCount: int
    var counter: nat
    // Where every channel of every cluster is.
    ghost var all: set<Channel>
    ghost var free: seq<Channel>
    ghost var wait: seq<Channel>
    ghost var outstanding: set<Channel>
    ghost var expired: set<Channel>

    ghost predicate Lists()
      reads `freeHead, `freeTail, `free, `waitHead, `waitTail, `wait
      reads (set k | k in free)`next, (set k | k in free)`prev, (set k | k in wait)`next, (set k | k in wait)`prev
    {
      && Dll(free) && Distinct(free) && freeHead == First(free) && freeTail == Last(free)
      && Dll(wait) && Distinct(wait) && waitHead == First(wait) && waitTail == Last(wait)
    }

    ghost predicate Waiting()
      reads `waitMap, `wait, `outstanding
      reads (set k | k in wait)`expire, (set k | k in wait)`id, outstanding`expire
    {
      WaitingList(waitMap, wait) && NoneWaiting(outstanding)
    }

    ghost predicate Valid()
      reads this, free, wait, outstanding
    {
      && Lists() && Waiting() && Parts(all, free, wait, outstanding, expired)
      && useCount == |wait| + |outstanding| && counter < 0x1_0000_0000_0000_0000
      && |all| % CLUSTER_SIZE == 0
    }

    constructor ()
      ensures Valid() && all == {} && useCount == 0 && Complete(waitMap, wait)
    {
      freeHead, freeTail, waitHead, waitTail := null, null, null, null;
      waitMap, useCount, counter := map[], 0, 0;
      all, free, wait, outstanding, expired := {}, [], [], {}, {};
    }

    method AllocChannel(chid: nat) returns (c: Channel)
      requires Valid() && chid < 0x1_0000_0000_0000_0000
      modifies this, free
      ensures Valid() && wait == old(wait) && waitMap == old(waitMap) && expired == old(expired)
      ensures outstanding == old(outstanding) + {c} && c !in old(outstanding) && useCount == old(useCount) + 1
      ensures IsAutomatic(chid) ==> exists n :: Issued(old(counter), n, counter, c.id)
      ensures !IsAutomatic(chid) ==> c.id == chid && counter == old(counter)
      ensures |old(free)| > 0 ==> all == old(all) && c == old(free)[0] && free == old(free)[1..]
      ensures |old(free)| == 0 ==> fresh(c) && |free| == CLUSTER_SIZE - 1 && forall k :: k in free ==> fresh(k)
      ensures old(Complete(waitMap, wait)) ==> Complete(waitMap, wait)
    {
      hide Lists, Waiting, Parts, Issued, Complete;
      c := Take();
      Register(c, chid);
      useCount := useCount + 1;
    }

    /** The id of a channel that has just left the free list. */
    method Register(c: Channel, chid: nat)
      requires Lists() && Waiting() && c !in outstanding && Parts(all, free, wait, outstanding + {c}, expired)
      requires chid < 0x1_0000_0000_0000_0000 && counter < 0x1_0000_0000_0000_0000
      modifies c, `outstanding, `counter
      ensures Lists() && Waiting() && outstanding == old(outstanding) + {c} && counter < 0x1_0000_0000_0000_0000
      ensures IsAutomatic(chid) ==> exists n :: Issued(old(counter), n, counter, c.id)
      ensures !IsAutomatic(chid) ==> c.id == chid && counter == old(counter)
      ensures Complete(waitMap, wait) == old(Complete(waitMap, wait))
    {
      hide Lists, Waiting, Parts, Issued, Complete, IsAutomatic;
      var id;
      ghost var n;
      id, counter, n := CreateChannelId(chid, counter);
      Lend(c, id);
    }

    /** A channel off the free list, or off a new cluster when the list is empty. */
    method Take() returns (c: Channel)
      requires Lists() && Parts(all, free, wait, outstanding, expired)
      modifies `freeHead, `freeTail, `free, `all, (set k | k in free)`prev
      ensures Lists() && Parts(all, free, wait, outstanding + {c}, expired) && c !in outstanding
      ensures |old(free)| > 0 ==> all == old(all) && c == old(free)[0] && free == old(free)[1..]
      ensures |old(free)| == 0 ==> fresh(c) && |free| == CLUSTER_SIZE - 1 && forall k :: k in free ==> fresh(k)
      ensures |old(free)| == 0 ==> |all| == |old(all)| + CLUSTER_SIZE
    {
      hide Lists, Parts;
      FreeHeads();
      if freeHead == null {
        c := NewCluster();
      } else {
        c := TakeFree();
      }
    }

    /** A new cluster: its first channel is lent out, the others become the free list. */
    method NewCluster() returns (c: Channel)
      requires Lists() && free == [] && Parts(all, free, wait, outstanding, expired)
      modifies `freeHead, `freeTail, `free, `all
      ensures fresh(c) && (forall k :: k in free ==> fresh(k)) && |free| == CLUSTER_SIZE - 1 && c !in outstanding
      ensures Lists() && Parts(all, free, wait, outstanding + {c}, expired) && |all| == |old(all)| + CLUSTER_SIZE
    {
      hide Dll, Distinct, Parts, First, Last, WithCluster;
      var head, tail;
      ghost var cs;
      c, head, tail, cs := BuildCluster();
      ClusterSize(all, c, cs);
      ClusterToParts(all, wait, outstanding, expired, c, cs);
      all := WithCluster(all, c, cs);
      freeHead, freeTail, free := head, tail, cs;
    }

    /** Channel::init on a channel that has just left the free list. */
    method Lend(c: Channel, id: nat)
      requires Lists() && Waiting() && c !in outstanding && Parts(all, free, wait, outstanding + {c}, expired)
      modifies c, `outstanding
      ensures Lists() && Waiting() && outstanding == old(outstanding) + {c} && c.id == id
      ensures Complete(waitMap, wait) == old(Complete(waitMap, wait))
    {
      hide Lists, WaitingList, Parts, Complete;
      Apart(all, free, wait, outstanding + {c}, expired);
      assert c in outstanding + {c};
      c.prev := null;
      c.next := null;
      c.id := id;
      c.expire := 0;
      outstanding := outstanding + {c};
    }

    /** Takes the first channel off the free list. */
    method TakeFree() returns (c: Channel)
      requires Lists() && freeHead != null && Parts(all, free, wait, outstanding, expired)
      modifies `freeHead, `freeTail, `free, (set k | k in free)`prev
      ensures |old(free)| > 0 && c == old(free)[0] && free == old(free)[1..] && c !in outstanding
      ensures Lists() && Parts(all, free, wait, outstanding + {c}, expired)
    {
      hide Parts, Dll, Distinct;
      Apart(all, free, wait, outstanding, expired);
      Neighbours(free, 0);
      c := freeHead;
      freeHead := c.next;
      DropFirst(c, free);
      if freeHead == null {
        freeTail := null;
      }
      FreeToOut(all, free, wait, outstanding, expired);
      free := free[1..];
    }

    lemma FreeHeads()
      requires Lists()
      ensures freeHead == null <==> free == []
      ensures |free| > 0 ==> freeHead == free[0] && Distinct(free)
    {
    }

    method FindChannel(id: nat) returns (c: Channel?)
      requires Valid()
      ensures c != null ==> c in wait && c.id == id
      ensures c == null ==> id !in waitMap
      ensures Complete(waitMap, wait) && c == null ==> forall i :: 0 <= i < |wait| ==> wait[i].id != id
    {
      c := if id in waitMap then waitMap[id] else null;
    }

    /** setExpireTime and addToWaitingList, as the writer calls them. */
    method AddToWaitingList(c: Channel, expireTime: int) returns (ghost i: nat)
      requires Valid() && c in outstanding && expireTime >= 0
      modifies this, c, wait
      ensures Valid() && free == old(free) && expired == old(expired) && all == old(all)
      ensures useCount == old(useCount) && c.expire == expireTime && c.id == old(c.id)
      ensures expireTime == 0 ==> wait == old(wait) && outstanding == old(outstanding) && waitMap == old(waitMap)
      ensures expireTime > 0 ==> outstanding == old(outstanding) - {c} && waitMap == old(waitMap)[c.id := c]
      ensures expireTime > 0 ==> i <= |old(wait)| && wait == InsertAt(old(wait), i, c)
      ensures expireTime > 0 ==> IsPlace(old(wait), i, expireTime)
      ensures expireTime == 0 ==> Complete(waitMap, wait) == old(Complete(waitMap, wait))
      ensures expireTime > 0 ==> (Complete(waitMap, wait) <==> old(Complete(waitMap, wait)) && c.id !in old(waitMap))
    {
      hide Lists, WaitingList, Parts, Complete, IsPlace;
      i := 0;
      Apart(all, free, wait, outstanding, expired);
      c.expire := expireTime;
      if expireTime > 0 {
        i := EnterWaiting(c);
      }
    }

    method EnterWaiting(c: Channel) returns (ghost i: nat)
      requires Lists() && Parts(all, free, wait, outstanding, expired) && c in outstanding && c.expire > 0
      requires WaitingList(waitMap, wait)
      modifies `waitHead, `waitTail, `waitMap, `wait, `outstanding, c`prev, c`next
      modifies (set k | k in wait)`prev, (set k | k in wait)`next
      ensures Lists() && Parts(all, free, wait, outstanding, expired)
      ensures WaitingList(waitMap, wait)
      ensures waitMap == old(waitMap)[c.id := c] && outstanding == old(outstanding) - {c}
      ensures i <= |old(wait)| && wait == InsertAt(old(wait), i, c) && IsPlace(old(wait), i, c.expire)
      ensures Complete(waitMap, wait) <==> old(Complete(waitMap, wait)) && c.id !in old(waitMap)
    {
      hide Lists, WaitingList, Parts, InsertAt, Complete;
      Apart(all, free, wait, outstanding, expired);
      var before, after;
      before, after, i := FindPlace(c.expire);
      Placed(waitMap, wait, i, c);
      InsertedComplete(waitMap, wait, i, c);
      OutToWait(all, free, wait, outstanding, expired, i, c);
      waitMap := waitMap[c.id := c];
      LinkWaiting(c, before, after, i);
      outstanding := outstanding - {c};
    }

    /** The pointer updates of addToWaitingList. */
    method LinkWaiting(c: Channel, before: Channel?, after: Channel?, ghost i: nat)
      requires Lists() && c !in wait && c !in free && (forall k :: k in free ==> k !in wait) && i <= |wait|
      requires before == (if i == 0 then null else wait[i - 1]) && after == (if i == |wait| then null else wait[i])
      modifies this`waitHead, this`waitTail, this`wait, c`prev, c`next
      modifies (set k | k in wait)`prev, (set k | k in wait)`next
      ensures Lists() && wait == InsertAt(old(wait), i, c)
    {
      hide Dll, Distinct;
      LinkAt(c, before, after, wait, i);
      if before == null {
        waitHead := c;
      }
      if after == null {
        waitTail := c;
      }
      wait := InsertAt(wait, i, c);
    }

    /** The scan of addToWaitingList: behind every channel due at or before the given time. */
    method FindPlace(expireTime: int) returns (before: Channel?, after: Channel?, ghost i: nat)
      requires Lists() && WaitingList(waitMap, wait)
      ensures i <= |wait| && after == (if i < |wait| then wait[i] else null)
      ensures before == (if i > 0 then wait[i - 1] else null)
      ensures IsPlace(wait, i, expireTime)
    {
      i, before, after := 0, null, waitHead;
      if waitHead == null || waitHead.expire > expireTime {
        return;
      }
      after := waitHead.next;
      i := 1;
      while after != null && after.expire <= expireTime
        invariant 0 < i <= |wait| && after == (if i < |wait| then wait[i] else null)
        invariant forall k :: 0 <= k < i ==> wait[k].expire <= expireTime
        decreases |wait| - i
      {
        after := after.next;
        i := i + 1;
      }
      before := if after == null then waitTail else after.prev;
    }

    method FreeChannel(c: Channel) returns (ghost i: nat)
      requires Valid() && (c in wait || c in outstanding)
      modifies this, c, free, wait
      ensures Valid() && all == old(all) && expired == old(expired) && free == old(free) + [c]
      ensures useCount == old(useCount) - 1 && c.id == old(c.id)
      ensures c in old(outstanding) ==>
                wait == old(wait) && waitMap == old(waitMap) && outstanding == old(outstanding) - {c}
      ensures c in old(wait) ==> outstanding == old(outstanding) && waitMap == Erase(old(waitMap), c.id)
      ensures c in old(wait) ==> i < |old(wait)| && c == old(wait)[i] && wait == RemoveAt(old(wait), i)
      ensures old(Complete(waitMap, wait)) ==> Complete(waitMap, wait)
    {
      hide Lists, Waiting, Parts, RemoveAt, Erase, Complete;
      WhereItIs(c);
      i := Release(c);
      RecycleChannel(c);
      useCount := useCount - 1;
    }

    /** Takes a channel from where it is used. */
    method Release(c: Channel) returns (ghost i: nat)
      requires Lists() && Waiting() && Parts(all, free, wait, outstanding, expired)
      requires c in wait || c in outstanding
      modifies `waitHead, `waitTail, `waitMap, `wait, `outstanding
      modifies (set k | k in wait)`prev, (set k | k in wait)`next
      ensures Lists() && Waiting() && Parts(all, free + [c], wait, outstanding, expired)
      ensures c in old(outstanding) ==>
                wait == old(wait) && waitMap == old(waitMap) && outstanding == old(outstanding) - {c}
      ensures c in old(wait) ==> outstanding == old(outstanding) && waitMap == Erase(old(waitMap), c.id)
      ensures c in old(wait) ==> i < |old(wait)| && c == old(wait)[i] && wait == RemoveAt(old(wait), i)
      ensures old(Complete(waitMap, wait)) ==> Complete(waitMap, wait)
    {
      hide Lists, Waiting, Parts, RemoveAt, Erase, Complete;
      i := 0;
      WaitsOrIsOut(c);
      if c.expire > 0 {
        i := FreeWaitingChannel(c);
      } else {
        OutToFree(all, free, wait, outstanding, expired, c);
        TakeOutstanding(c);
      }
    }

    lemma WaitsOrIsOut(c: Channel)
      requires Waiting() && Parts(all, free, wait, outstanding, expired) && (c in wait || c in outstanding)
      ensures (c in wait <==> c.expire > 0) && (c in wait <==> c !in outstanding)
    {
    }

    ghost method TakeOutstanding(c: Channel)
      requires Waiting()
      modifies `outstanding
      ensures Waiting() && outstanding == old(outstanding) - {c}
    {
      hide WaitingList;
      outstanding := outstanding - {c};
    }

    lemma WhereItIs(c: Channel)
      requires Valid() && (c in wait || c in outstanding)
      ensures c in wait <==> c !in outstanding
      ensures c !in free
    {
    }

    /** Takes a waiting channel out of the list and the map. */
    method FreeWaitingChannel(c: Channel) returns (ghost i: nat)
      requires Lists() && Parts(all, free, wait, outstanding, expired) && c in wait
      requires Waiting()
      modifies `waitHead, `waitTail, `waitMap, `wait, (set k | k in wait)`prev, (set k | k in wait)`next
      ensures Lists() && Parts(all, free + [c], wait, outstanding, expired)
      ensures Waiting() && waitMap == Erase(old(waitMap), c.id)
      ensures i < |old(wait)| && c == old(wait)[i] && wait == RemoveAt(old(wait), i)
      ensures old(Complete(waitMap, wait)) ==> Complete(waitMap, wait)
    {
      hide Lists, Dll, Distinct, WaitingList, NoneWaiting, Parts, RemoveAt, Erase, Complete;
      i := Find(wait, c);
      Apart(all, free, wait, outstanding, expired);
      ListsOpen();
      Removed(waitMap, wait, i);
      if Complete(waitMap, wait) {
        RemovedComplete(waitMap, wait, i);
      }
      WaitToFree(all, free, wait, outstanding, expired, i);
      waitMap := Erase(waitMap, c.id);
      UnlinkWaiting(c, i);
    }

    lemma ListsOpen()
      requires Lists()
      ensures Distinct(free) && Distinct(wait) && Dll(free) && Dll(wait)
    {
    }

    /** The pointer updates of freeWaitingChannel. */
    method UnlinkWaiting(c: Channel, ghost i: nat)
      requires Lists() && i < |wait| && c == wait[i] && (forall k :: k in free ==> k !in wait)
      modifies `waitHead, `waitTail, `wait, (set k | k in wait)`prev, (set k | k in wait)`next
      ensures Lists() && wait == RemoveAt(old(wait), i)
    {
      hide Dll, Distinct;
      Neighbours(wait, i);
      if c == waitHead {
        waitHead := c.next;
      }
      if c == waitTail {
        waitTail := c.prev;
      }
      Unlink(c, wait, i);
      wait := RemoveAt(wait, i);
    }

    /** Appends a channel to the free list. */
    method RecycleChannel(c: Channel)
      requires Lists() && c !in free && Parts(all, free + [c], wait, outstanding, expired)
      modifies `freeHead, `freeTail, `free, c`prev, c`next, (set k | k in free)`next
      ensures Lists() && free == old(free) + [c]
    {
      hide Dll, Distinct, Parts;
      Apart(all, free + [c], wait, outstanding, expired);
      assert c in free + [c] && (forall k :: k in free ==> k in free + [c]);
      assert freeTail != null ==> freeTail in free;
      assert InsertAt(free, |free|, c) == free + [c];
      LinkAt(c, freeTail, null, free, |free|);
      if freeTail == null {
        freeHead := c;
      }
      freeTail := c;
      free := free + [c];
    }

    /** Detaches exactly the waiting channels whose deadline has passed; they stay linked to each other. */
    method GetTimeoutList(now: int) returns (list: Channel?, ghost ds: seq<Channel>)
      requires Valid()
      modifies this, wait
      ensures Valid() && free == old(free) && outstanding == old(outstanding) && all == old(all)
      ensures old(wait) == ds + wait && expired == old(expired) + Elements(ds) && useCount == old(useCount) - |ds|
      ensures (forall c :: c in ds ==> c.expire < now) && (forall c :: c in wait ==> c.expire >= now)
      ensures Dll(ds) && Distinct(ds) && list == First(ds)
      ensures forall c :: c in old(wait) ==> c.id == old(c.id) && c.expire == old(c.expire)
      ensures old(Complete(waitMap, wait)) ==> Complete(waitMap, wait)
    {
      hide Lists, Waiting, Dll, Distinct, Parts, Complete;
      list, ds := DetachExpired(now);
    }

    method DetachExpired(now: int) returns (list: Channel?, ghost ds: seq<Channel>)
      requires Lists() && Waiting() && Parts(all, free, wait, outstanding, expired)
      modifies `waitHead, `waitTail, `wait, `waitMap, `useCount, `expired
      modifies (set k | k in wait)`next, (set k | k in wait)`prev
      ensures Lists() && Waiting() && Parts(all, free, wait, outstanding, expired)
      ensures old(wait) == ds + wait && expired == old(expired) + Elements(ds) && useCount == old(useCount) - |ds|
      ensures (forall c :: c in ds ==> c.expire < now) && (forall c :: c in wait ==> c.expire >= now)
      ensures Dll(ds) && Distinct(ds) && list == First(ds)
      ensures old(Complete(waitMap, wait)) ==> Complete(waitMap, wait)
    {
      hide Lists, Dll, Distinct, WaitingList, NoneWaiting, Parts, First, Complete;
      ListsOpen();
      Apart(all, free, wait, outstanding, expired);
      var at, n := ScanExpired(now);
      ds := wait[..n];
      ghost var rest := wait[n..];
      assert wait == ds + rest;
      TailIsDistinct(wait, n);
      WaitToExpired(all, free, wait, outstanding, expired, n);
      list := CutBefore(at, n);
      expired := expired + Elements(ds);
    }

    /** The loop of getTimeoutList. */
    method ScanExpired(now: int) returns (at: Channel?, ghost n: nat)
      requires Lists() && WaitingList(waitMap, wait)
      modifies `waitMap, `useCount
      ensures n <= |wait| && at == (if n < |wait| then wait[n] else null) && WaitingList(waitMap, wait[n..])
      ensures useCount == old(useCount) - n
      ensures (forall c :: c in wait[..n] ==> c.expire < now) && (forall c :: c in wait[n..] ==> c.expire >= now)
      ensures old(Complete(waitMap, wait)) ==> Complete(waitMap, wait[n..])
    {
      hide Dll, Distinct, MapOf, Complete, SortedByExpire, Erase, RemoveAt;
      at, n := waitHead, 0;
      assert wait[0..] == wait;
      while at != null
        invariant n <= |wait| && at == (if n < |wait| then wait[n] else null) && MapOf(waitMap, wait[n..])
        invariant useCount == old(useCount) - n && (old(Complete(waitMap, wait)) ==> Complete(waitMap, wait[n..]))
        invariant forall k :: 0 <= k < n ==> wait[k].expire < now
        decreases |wait| - n
      {
        if at.expire == 0 || at.expire >= now {
          break;
        }
        Neighbours(wait, n);
        TailIsDistinct(wait, n);
        DropsFirst(wait, n);
        RemovedMap(waitMap, wait[n..], 0);
        if Complete(waitMap, wait[n..]) {
          RemovedComplete(waitMap, wait[n..], 0);
        }
        waitMap := Erase(waitMap, at.id);
        useCount := useCount - 1;
        at := at.next;
        n := n + 1;
      }
      Halves(wait, n, now);
    }

    /** The pointer updates of getTimeoutList: the first n waiting channels become a list of their own. */
    method CutBefore(at: Channel?, ghost n: nat) returns (list: Channel?)
      requires Lists() && n <= |wait| && at == (if n < |wait| then wait[n] else null)
      requires forall k :: k in free ==> k !in wait
      modifies `waitHead, `waitTail, `wait, (set k | k in wait)`next, (set k | k in wait)`prev
      ensures Lists() && wait == old(wait)[n..] && Dll(old(wait)[..n]) && list == First(old(wait)[..n])
    {
      hide Dll, Distinct;
      list := null;
      EmptyIsList();
      Whole(wait);
      if n < |wait| {
        Neighbours(wait, n);
        TailIsDistinct(wait, n);
      }
      if at != waitHead {
        list := waitHead;
        if at == null {
          waitHead, waitTail := null, null;
        } else {
          Split(at, wait, n);
          waitHead := at;
        }
      }
      wait := wait[n..];
    }

    /** Puts a detached list behind the free list. */
    method AppendFreeList(list: Channel?, ghost ds: seq<Channel>)
      requires Valid() && Elements(ds) <= expired && Dll(ds) && Distinct(ds) && list == First(ds)
      modifies this, free, ds
      ensures Valid() && wait == old(wait) && waitMap == old(waitMap) && outstanding == old(outstanding)
      ensures all == old(all) && useCount == old(useCount)
      ensures free == old(free) + ds && expired == old(expired) - Elements(ds)
      ensures old(Complete(waitMap, wait)) ==> Complete(waitMap, wait)
    {
      hide Lists, Waiting, Parts, Dll, Distinct, Complete;
      if list == null {
        assert ds == [];
        return;
      }
      MoveExpired(list, ds);
    }

    method MoveExpired(list: Channel, ghost ds: seq<Channel>)
      requires Lists() && Parts(all, free, wait, outstanding, expired)
      requires Elements(ds) <= expired && Dll(ds) && Distinct(ds) && list == First(ds)
      modifies `freeHead, `freeTail, `free, `expired, list`prev, (set k | k in free)`next
      ensures Lists() && Parts(all, free, wait, outstanding, expired)
      ensures free == old(free) + ds && expired == old(expired) - Elements(ds)
    {
      hide Lists, Parts, Dll, Distinct, Elements;
      var tail := LastOf(list, ds);
      ListsOpen();
      ExpiredToFree(all, free, wait, outstanding, expired, ds);
      JoinIsDistinct(free, ds);
      LinkFree(list, tail, ds);
      expired := expired - Elements(ds);
    }

    /** The pointer updates of appendFreeList. */
    method LinkFree(list: Channel, tail: Channel, ghost ds: seq<Channel>)
      requires Lists() && Dll(ds) && Distinct(free + ds) && |ds| > 0 && list == First(ds) && tail == Last(ds)
      requires forall k :: k in wait ==> k !in free && k !in ds
      modifies `freeHead, `freeTail, `free, list`prev, (set k | k in free)`next
      ensures Lists() && free == old(free) + ds
    {
      hide Dll, Distinct;
      if freeTail == null {
        assert free + ds == ds;
        ClearPrev(list, ds);
        freeHead := list;
      } else {
        Join(freeTail, list, free, ds);
      }
      freeTail := tail;
      free := free + ds;
    }
  }

  // ----- Moves between the parts ---------------------------------------------------------------

  lemma Apart(all: set<Channel>, free: seq<Channel>, wait: seq<Channel>, outstanding: set<Channel>,
      expired: set<Channel>)
    requires Parts(all, free, wait, outstanding, expired)
    ensures forall k :: k in free ==> k !in wait && k !in outstanding && k !in expired
    ensures forall k :: k in wait ==> k !in outstanding && k !in expired
    ensures outstanding !! expired
  {
  }

  lemma OutToWait(all: set<Channel>, free: seq<Channel>, wait: seq<Channel>, outstanding: set<Channel>,
                  expired: set<Channel>, i: nat, c: Channel)
    requires Parts(all, free, wait, outstanding, expired) && c in outstanding && i <= |wait|
    ensures Parts(all, free, InsertAt(wait, i, c), outstanding - {c}, expired)
  {
    InsertedMembers(wait, i, c);
  }

  lemma FreeToOut(all: set<Channel>, free: seq<Channel>, wait: seq<Channel>, outstanding: set<Channel>,
                  expired: set<Channel>)
    requires Parts(all, free, wait, outstanding, expired) && |free| > 0 && Distinct(free)
    ensures Parts(all, free[1..], wait, outstanding + {free[0]}, expired)
  {
    assert free == [free[0]] + free[1..];
  }

  ghost function Elements(cs: seq<Channel>): set<Channel> {
    set c | c in cs
  }

  lemma {:induction false} ElementsSize(cs: seq<Channel>)
    requires Distinct(cs)
    ensures |Elements(cs)| == |cs|
  {
    if |cs| > 0 {
      ElementsSize(cs[1..]);
      assert cs == [cs[0]] + cs[1..];
      assert Elements(cs) == {cs[0]} + Elements(cs[1..]);
    }
  }

  ghost function WithCluster(all: set<Channel>, c: Channel, cs: seq<Channel>): set<Channel> {
    all + {c} + Elements(cs)
  }

  lemma ClusterSize(all: set<Channel>, c: Channel, cs: seq<Channel>)
    requires Distinct(cs) && c !in cs && c !in all && forall k :: k in cs ==> k !in all
    ensures |WithCluster(all, c, cs)| == |all| + 1 + |cs|
  {
    ElementsSize(cs);
    assert (all + {c}) !! Elements(cs);
  }

  lemma ClusterToParts(all: set<Channel>, wait: seq<Channel>, outstanding: set<Channel>, expired: set<Channel>,
                       c: Channel, cs: seq<Channel>)
    requires Parts(all, [], wait, outstanding, expired)
    requires c !in cs && c !in all && forall k :: k in cs ==> k !in all
    ensures Parts(WithCluster(all, c, cs), cs, wait, outstanding + {c}, expired)
  {
  }

  lemma OutToFree(all: set<Channel>, free: seq<Channel>, wait: seq<Channel>, outstanding: set<Channel>,
                  expired: set<Channel>, c: Channel)
    requires Parts(all, free, wait, outstanding, expired) && c in outstanding
    ensures Parts(all, free + [c], wait, outstanding - {c}, expired)
  {
  }

  lemma WaitToFree(all: set<Channel>, free: seq<Channel>, wait: seq<Channel>, outstanding: set<Channel>,
                   expired: set<Channel>, i: nat)
    requires Parts(all, free, wait, outstanding, expired) && i < |wait| && Distinct(wait)
    ensures Parts(all, free + [wait[i]], RemoveAt(wait, i), outstanding, expired)
  {
    RemovedMembers(wait, i);
  }

  lemma Find(cs: seq<Channel>, c: Channel) returns (i: nat)
    requires c in cs
    ensures i < |cs| && cs[i] == c
  {
    i :| i < |cs| && cs[i] == c;
  }

  lemma WaitToExpired(all: set<Channel>, free: seq<Channel>, wait: seq<Channel>, outstanding: set<Channel>,
                      expired: set<Channel>, n: nat)
    requires Parts(all, free, wait, outstanding, expired) && n <= |wait| && Distinct(wait)
    ensures Parts(all, free, wait[n..], outstanding, expired + Elements(wait[..n]))
  {
    assert forall c :: c in wait[..n] ==> c !in wait[n..];
    assert wait == wait[..n] + wait[n..];
  }

  lemma ExpiredToFree(all: set<Channel>, free: seq<Channel>, wait: seq<Channel>, outstanding: set<Channel>,
                      expired: set<Channel>, ds: seq<Channel>)
    requires Parts(all, free, wait, outstanding, expired) && Elements(ds) <= expired
    ensures Parts(all, free + ds, wait, outstanding, expired - Elements(ds))
    ensures forall k :: k in wait ==> k !in free && k !in ds
    ensures forall k :: k in free ==> k !in ds
  {
    assert forall k :: k in ds ==> k in Elements(ds);
  }

  /** A prefix of a sorted list that is due, and a first channel behind it that is not, split it at the deadline. */
  lemma Halves(cs: seq<Channel>, n: nat, now: int)
    requires SortedByExpire(cs) && AllWaiting(cs) && n <= |cs|
    requires (forall k :: 0 <= k < n ==> cs[k].expire < now) && (n < |cs| ==> cs[n].expire >= now)
    ensures SortedByExpire(cs[n..]) && AllWaiting(cs[n..])
    ensures (forall c :: c in cs[..n] ==> c.expire < now) && (forall c :: c in cs[n..] ==> c.expire >= now)
  {
    forall c | c in cs[n..] ensures c.expire >= now {
      var k :| 0 <= k < |cs| - n && cs[n..][k] == c;
      assert cs[n + k] == c;
    }
  }

  lemma JoinIsDistinct(a: seq<Channel>, b: seq<Channel>)
    requires Distinct(a) && Distinct(b) && forall k :: k in a ==> k !in b
    ensures Distinct(a + b)
  {
    forall i, j | 0 <= i < j < |a + b| ensures (a + b)[i] != (a + b)[j] {
      if i < |a| <= j {
        assert a[i] in a && b[j - |a|] in b;
      }
    }
  }

  lemma InsertedMembers(cs: seq<Channel>, i: nat, c: Channel)
    requires i <= |cs|
    ensures forall k :: k in InsertAt(cs, i, c) <==> k in cs || k == c
  {
    var r := InsertAt(cs, i, c);
    assert r[i] == c;
    forall k | 0 <= k < |cs| ensures cs[k] in r {
      assert cs[k] == r[if k < i then k else k + 1];
    }
  }

  lemma RemovedMembers(cs: seq<Channel>, i: nat)
    requires i < |cs| && Distinct(cs)
    ensures forall k :: k in RemoveAt(cs, i) <==> k in cs && k != cs[i]
  {
    var r := RemoveAt(cs, i);
    forall k | 0 <= k < |cs| && k != i ensures cs[k] in r {
      assert cs[k] == r[if k < i then k else k - 1];
    }
  }

  lemma PlacedInOrder(cs: seq<Channel>, i: nat, c: Channel)
    requires i <= |cs| && SortedByExpire(cs) && AllWaiting(cs) && c.expire > 0
    requires IsPlace(cs, i, c.expire)
    ensures SortedByExpire(InsertAt(cs, i, c)) && AllWaiting(InsertAt(cs, i, c))
  {
  }

  lemma RemovedInOrder(cs: seq<Channel>, i: nat)
    requires i < |cs| && SortedByExpire(cs) && AllWaiting(cs)
    ensures SortedByExpire(RemoveAt(cs, i)) && AllWaiting(RemoveAt(cs, i))
  {
  }

  lemma InsertedMap(m: map<nat, Channel>, cs: seq<Channel>, i: nat, c: Channel)
    requires MapOf(m, cs) && i <= |cs|
    ensures MapOf(m[c.id := c], InsertAt(cs, i, c))
  {
    hide InsertAt;
    InsertedMembers(cs, i, c);
  }

  /** A new waiting channel hides one that waits under its id already. */
  lemma InsertedComplete(m: map<nat, Channel>, cs: seq<Channel>, i: nat, c: Channel)
    requires WaitingList(m, cs) && i <= |cs| && c !in cs
    ensures Complete(m[c.id := c], InsertAt(cs, i, c)) <==> Complete(m, cs) && c.id !in m
  {
    hide InsertAt;
    var r := InsertAt(cs, i, c);
    var m': map<nat, Channel> := m[c.id := c];
    InsertedMembers(cs, i, c);
    if Complete(m', r) {
      forall k | 0 <= k < |cs| ensures cs[k].id in m && m[cs[k].id] == cs[k] && cs[k].id != c.id {
        assert cs[k] in cs;
        var j := Find(r, cs[k]);
        assert r[j].id in m' && m'[r[j].id] == r[j];
      }
      if c.id in m {
        var k := Find(cs, m[c.id]);
        assert false;
      }
    }
    if Complete(m, cs) && c.id !in m {
      forall j | 0 <= j < |r| ensures r[j].id in m' && m'[r[j].id] == r[j] {
        assert r[j] in r;
        if r[j] != c {
          var k := Find(cs, r[j]);
          assert cs[k].id in m && m[cs[k].id] == cs[k];
        }
      }
    }
  }

  lemma RemovedAt(cs: seq<Channel>, i: nat, j: nat) returns (k: nat)
    requires i < |cs| && j < |cs| - 1
    ensures k < |cs| && k != i && RemoveAt(cs, i)[j] == cs[k]
  {
    k := if j < i then j else j + 1;
  }

  lemma RemovedComplete(m: map<nat, Channel>, cs: seq<Channel>, i: nat)
    requires Complete(m, cs) && Distinct(cs) && i < |cs|
    ensures Complete(Erase(m, cs[i].id), RemoveAt(cs, i))
  {
    hide RemoveAt;
    var r := RemoveAt(cs, i);
    forall j | 0 <= j < |r| ensures r[j].id in Erase(m, cs[i].id) && Erase(m, cs[i].id)[r[j].id] == r[j] {
      var k := RemovedAt(cs, i, j);
      assert cs[k].id in m && m[cs[k].id] == cs[k] && cs[i].id in m && m[cs[i].id] == cs[i];
    }
  }

  lemma Placed(m: map<nat, Channel>, cs: seq<Channel>, i: nat, c: Channel)
    requires WaitingList(m, cs) && i <= |cs| && c.expire > 0
    requires IsPlace(cs, i, c.expire)
    ensures WaitingList(m[c.id := c], InsertAt(cs, i, c))
  {
    hide MapOf, InsertAt, SortedByExpire, AllWaiting;
    PlacedInOrder(cs, i, c);
    InsertedMap(m, cs, i, c);
  }

  lemma Removed(m: map<nat, Channel>, cs: seq<Channel>, i: nat)
    requires WaitingList(m, cs) && Distinct(cs) && i < |cs|
    ensures WaitingList(Erase(m, cs[i].id), RemoveAt(cs, i))
  {
    hide MapOf, RemoveAt, Erase, SortedByExpire, AllWaiting;
    RemovedInOrder(cs, i);
    RemovedMap(m, cs, i);
  }

  lemma RemovedMap(m: map<nat, Channel>, cs: seq<Channel>, i: nat)
    requires MapOf(m, cs) && Distinct(cs) && i < |cs|
    ensures MapOf(Erase(m, cs[i].id), RemoveAt(cs, i))
  {
    hide RemoveAt;
    RemovedMembers(cs, i);
  }
}
