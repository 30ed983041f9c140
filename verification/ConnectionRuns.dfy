/** The race of reply, timeout and close on a client connection.

    Any number of calls (posts, write cycles, replies, timeout checks, closes) run at once. Write
    cycles hold the component's lock from end to end. Replies, timeout checks and closes give it up
    around each handler, so that anything may happen between the moment a packet's channel is freed
    and the moment its handler runs; a check that closes the connection on its way is two calls here.
    Every collection that can hold an accepted packet or its channel is part of the state. */
module ConnectionRuns {
  import opened PacketQueues

  /** The largest time; a close collects everything due before it. */
  const MAX: int := 0x7FFF_FFFF_FFFF_FFFF

  /** How far a timeout check has come: over detached channels, then over detached packets, of which
      one may be held without its channel while its handler is about to run. A close is a check with
      now == MAX; epoch is the number of reopens before it began. A reply holds the packet it found. */
  datatype Call =
    | Idle
    | Channels(now: int, epoch: nat, todo: seq<Entry>)
    | Packets(now: int, epoch: nat, todo: seq<Entry>)
    | Held(now: int, epoch: nat, todo: seq<Entry>, held: Entry)
    | Replying(held: Entry)

  /** What a packet brings along: its channel's id and whether anyone handles the reply. */
  datatype Info = Info(chid: nat, handled: bool)

  /** accepted[i] is the packet with stamp i, and written are the packets written, in order; no step
      reads them. answered, silent and lost are where packets end: the handler ran, there was no
      handler, the channel stays outstanding for good. */
  datatype State = State(
    closed: bool, queue: seq<Entry>, mine: seq<Entry>, writing: bool, wait: seq<Entry>, calls: seq<Call>,
    useCount: int, limit: nat, opens: nat, drained: bool,
    accepted: seq<Entry>, infos: seq<Info>, written: seq<Entry>,
    answered: multiset<Entry>, silent: multiset<Entry>, lost: multiset<Entry>)

  datatype Step =
    | Post(expire: int, info: Info)
    | BeginWrite
    | WriteOne
    | EndWrite
    | TakeReply(c: nat, chid: nat)
    | RunHandler(c: nat)
    | BeginCheck(c: nat, now: int)
    | BeginClose(c: nat)
    | HandleChannel(c: nat)
    | DetachPackets(c: nat)
    | HandlePacket(c: nat)
    | Finish(c: nat)
    | Reopen

  predicate Init(s: State) {
    && s.closed == false && s.queue == [] && s.mine == [] && !s.writing && s.wait == []
    && (forall c :: 0 <= c < |s.calls| ==> s.calls[c] == Idle)
    && s.useCount == 0 && s.opens == 0 && !s.drained && s.accepted == [] && s.infos == [] && s.written == []
    && s.answered == multiset{} && s.silent == multiset{} && s.lost == multiset{}
  }

  /** The id is in use by a packet that can still wait for a reply. */
  ghost predicate Live(s: State, chid: nat) {
    exists e :: Here(s, e) && HasId(s.infos, e, chid)
  }

  /** Callers give deadlines below MAX, and channel ids of live packets differ. */
  ghost predicate Enabled(s: State, a: Step) {
    match a
    case Post(expire, info) => 0 <= expire < MAX && !Live(s, info.chid)
    case BeginWrite => !s.writing && !s.closed
    case WriteOne => s.writing && |s.mine| > 0
    case EndWrite => s.writing
    case TakeReply(c, _) => !s.writing && c < |s.calls| && s.calls[c].Idle?
    case RunHandler(c) => c < |s.calls| && (s.calls[c].Held? || s.calls[c].Replying?)
    case BeginCheck(c, now) => !s.writing && !s.closed && c < |s.calls| && s.calls[c].Idle? && now < MAX
    case BeginClose(c) => !s.writing && c < |s.calls| && s.calls[c].Idle?
    case HandleChannel(c) => c < |s.calls| && s.calls[c].Channels? && |s.calls[c].todo| > 0
    case DetachPackets(c) => !s.writing && c < |s.calls| && s.calls[c].Channels? && |s.calls[c].todo| == 0
    case HandlePacket(c) => !s.writing && c < |s.calls| && s.calls[c].Packets? && |s.calls[c].todo| > 0
    case Finish(c) => !s.writing && c < |s.calls| && s.calls[c].Packets? && |s.calls[c].todo| == 0
    case Reopen => !s.writing
  }

  /** postPacket is refused on a closed connection and at the queue limit. */
  predicate Refused(s: State) {
    s.closed || (s.limit > 0 && s.useCount >= s.limit)
  }

  function FindWaiting(wait: seq<Entry>, infos: seq<Info>, chid: nat): (i: nat)
    ensures i <= |wait|
    ensures i < |wait| ==> HasId(infos, wait[i], chid)
    ensures i == |wait| ==> forall k :: 0 <= k < |wait| ==> !HasId(infos, wait[k], chid)
  {
    if |wait| == 0 then 0
    else if HasId(infos, wait[0], chid) then 0
    else 1 + FindWaiting(wait[1..], infos, chid)
  }

  function Exec(s: State, a: Step): State
    requires Enabled(s, a)
  {
    match a
    case Post(expire, info) => if Refused(s) then s else DoPost(s, expire, info)
    case BeginWrite => s.(mine := Merge(s.mine, s.queue), queue := [], writing := true)
    case WriteOne => DoWriteOne(s)
    case EndWrite => s.(queue := Merge(s.queue, s.mine), mine := [], writing := false)
    case TakeReply(c, chid) => DoTakeReply(s, c, chid)
    case RunHandler(c) => DoRunHandler(s, c)
    case BeginCheck(c, now) => DoDetachChannels(s, c, now)
    case BeginClose(c) => DoDetachChannels(s.(closed := true), c, MAX)
    case HandleChannel(c) => DoHandleChannel(s, c)
    case DetachPackets(c) => DoDetachPackets(s, c)
    case HandlePacket(c) => DoHandlePacket(s, c)
    case Finish(c) =>
      var drained := s.drained || (s.calls[c].now == MAX && s.calls[c].epoch == s.opens);
      s.(calls := s.calls[c := Idle], drained := drained)
    case Reopen => s.(closed := false, opens := s.opens + 1, drained := false)
  }

  /** postPacket: a channel is allocated and the packet queued by deadline. */
  function DoPost(s: State, expire: int, info: Info): State {
    var e := Entry(expire, |s.accepted|);
    s.(queue := Insert(s.queue, e), accepted := s.accepted + [e], infos := s.infos + [info], useCount := s.useCount + 1)
  }

  /** One round of writeData: the channel is freed, waits for the reply, or stays outstanding. */
  function DoWriteOne(s: State): State
    requires |s.mine| > 0
  {
    var e, t := s.mine[0], s.(mine := s.mine[1..], written := s.written + [s.mine[0]]);
    if !Handled(s.infos, e) then t.(silent := s.silent + multiset{e}, useCount := s.useCount - 1)
    else if e.expire == 0 then t.(lost := s.lost + multiset{e})
    else t.(wait := Insert(s.wait, e))
  }

  /** handlePacket: the channel is freed, and the lock given up, before the handler runs. */
  function DoTakeReply(s: State, c: nat, chid: nat): State
    requires c < |s.calls|
  {
    var i := FindWaiting(s.wait, s.infos, chid);
    if i == |s.wait| then s
    else s.(wait := s.wait[..i] + s.wait[i + 1..],
            calls := s.calls[c := Replying(s.wait[i])],
            useCount := s.useCount - 1)
  }

  function DoRunHandler(s: State, c: nat): State
    requires c < |s.calls| && (s.calls[c].Held? || s.calls[c].Replying?)
  {
    var l := s.calls[c];
    var next := if l.Held? then Packets(l.now, l.epoch, l.todo) else Idle;
    s.(calls := s.calls[c := next], answered := s.answered + multiset{l.held})
  }

  function DoDetachChannels(s: State, c: nat, now: int): State
    requires c < |s.calls|
  {
    var k := DueBy(s.wait, now - 1);
    s.(wait := s.wait[k..], calls := s.calls[c := Channels(now, s.opens, s.wait[..k])], useCount := s.useCount - k)
  }

  function DoHandleChannel(s: State, c: nat): State
    requires c < |s.calls| && s.calls[c].Channels? && |s.calls[c].todo| > 0
  {
    var Channels(now, epoch, todo) := s.calls[c];
    s.(calls := s.calls[c := Channels(now, epoch, todo[1..])], answered := s.answered + multiset{todo[0]})
  }

  function DoDetachPackets(s: State, c: nat): State
    requires c < |s.calls| && s.calls[c].Channels?
  {
    var k := DueBy(s.queue, s.calls[c].now - 1);
    s.(queue := s.queue[k..], calls := s.calls[c := Packets(s.calls[c].now, s.calls[c].epoch, s.queue[..k])])
  }

  /** The channel of a detached packet is freed; then its handler runs, if there is one. */
  function DoHandlePacket(s: State, c: nat): State
    requires c < |s.calls| && s.calls[c].Packets? && |s.calls[c].todo| > 0
  {
    var Packets(now, epoch, todo) := s.calls[c];
    var e, t := todo[0], s.(useCount := s.useCount - 1);
    if Handled(s.infos, e) then t.(calls := s.calls[c := Held(now, epoch, todo[1..], e)])
    else t.(calls := s.calls[c := Packets(now, epoch, todo[1..])], silent := s.silent + multiset{e})
  }

  // ----- What the calls hold -------------------------------------------------------------------

  function Todo(c: Call): seq<Entry> {
    match c
    case Idle => []
    case Held(_, _, todo, held) => [held] + todo
    case Replying(held) => [held]
    case _ => c.todo
  }

  predicate IsCheck(c: Call) {
    c.Channels? || c.Packets? || c.Held?
  }

  /** How often a packet is in the hands of running checks and replies. */
  ghost function Hands(calls: seq<Call>, e: Entry): nat {
    if |calls| == 0 then 0 else multiset(Todo(calls[0]))[e] + Hands(calls[1..], e)
  }

  function OwnedBy(c: Call): nat {
    if c.Packets? || c.Held? then |c.todo| else 0
  }

  /** How many channels the detached packets still own. */
  function Owned(calls: seq<Call>): nat {
    if |calls| == 0 then 0 else OwnedBy(calls[0]) + Owned(calls[1..])
  }

  lemma {:induction false} HandsUpdate(calls: seq<Call>, c: nat, x: Call, e: Entry)
    requires c < |calls|
    ensures Hands(calls[c := x], e) + multiset(Todo(calls[c]))[e] == Hands(calls, e) + multiset(Todo(x))[e]
  {
    hide Todo;
    if c == 0 {
      assert calls[c := x][1..] == calls[1..];
    } else {
      HandsUpdate(calls[1..], c - 1, x, e);
      assert calls[c := x][1..] == calls[1..][c - 1 := x];
    }
  }

  lemma {:induction false} OwnedUpdate(calls: seq<Call>, c: nat, x: Call)
    requires c < |calls|
    ensures Owned(calls[c := x]) + OwnedBy(calls[c]) == Owned(calls) + OwnedBy(x)
  {
    if c == 0 {
      assert calls[c := x][1..] == calls[1..];
    } else {
      OwnedUpdate(calls[1..], c - 1, x);
      assert calls[c := x][1..] == calls[1..][c - 1 := x];
    }
  }

  lemma {:induction false} IdleHands(calls: seq<Call>, e: Entry)
    requires forall c :: 0 <= c < |calls| ==> calls[c].Idle?
    ensures Hands(calls, e) == 0 && Owned(calls) == 0
  {
    if |calls| > 0 { IdleHands(calls[1..], e); }
  }

  // ----- The invariant -------------------------------------------------------------------------

  /** In how many places a packet is. */
  ghost function Places(s: State, e: Entry): nat {
    multiset(s.queue)[e] + multiset(s.mine)[e] + multiset(s.wait)[e] + Hands(s.calls, e)
    + s.answered[e] + s.silent[e] + s.lost[e]
  }

  /** Accepted packets are in exactly one place each, others nowhere. */
  ghost predicate Conserved(s: State) {
    forall e :: Places(s, e) == if e in s.accepted then 1 else 0
  }

  predicate Stamped(s: State) {
    && |s.infos| == |s.accepted|
    && forall i :: 0 <= i < |s.accepted| ==> s.accepted[i].stamp == i && 0 <= s.accepted[i].expire < MAX
  }

  predicate Handled(infos: seq<Info>, e: Entry) {
    e.stamp < |infos| && infos[e.stamp].handled
  }

  /** Packets end where they should: only packets without a handler are silent, exactly the packets
      written with a handler and without a deadline are lost, and only packets with a handler wait for
      a reply, are held or are answered. */
  ghost predicate Ends(s: State) {
    && SilentAll(s) && LostAll(s) && HandledAll(s)
    && (forall c :: 0 <= c < |s.calls| ==> HoldsHandled(s.infos, s.calls[c]))
  }

  ghost predicate SilentAll(s: State) {
    forall e :: e in s.silent ==> !Handled(s.infos, e)
  }

  ghost predicate LostAll(s: State) {
    && (forall e :: e in s.lost <==> e in s.written && e.expire == 0 && Handled(s.infos, e))
    && (forall e :: e in s.written ==> e.stamp < |s.infos|)
  }

  ghost predicate HandledAll(s: State) {
    forall e :: e in s.wait || e in s.answered ==> Handled(s.infos, e)
  }

  ghost predicate HoldsHandled(infos: seq<Info>, c: Call) {
    && (c.Channels? ==> forall e :: e in c.todo ==> Handled(infos, e))
    && (c.Held? || c.Replying? ==> Handled(infos, c.held))
  }

  /** A close that began after the last reopen has emptied what it has passed. */
  predicate Closing(s: State) {
    && (!s.writing ==> s.mine == []) && (s.closed ==> !s.writing)
    && (s.drained ==> s.closed && s.wait == [] && s.queue == [])
    && (forall c :: 0 <= c < |s.calls| && IsCheck(s.calls[c]) ==> s.calls[c].epoch <= s.opens)
    && (forall c ::
          0 <= c < |s.calls| && IsCheck(s.calls[c]) && s.calls[c].now == MAX && s.calls[c].epoch == s.opens ==>
          s.closed && s.wait == [] && (!s.calls[c].Channels? ==> s.queue == []))
  }

  predicate Counted(s: State) {
    && s.useCount == |s.queue| + |s.mine| + |s.wait| + |s.lost| + Owned(s.calls)
    && (s.limit > 0 ==> s.useCount <= s.limit)
  }

  /** Where a reply can still find the packet's channel, now or after it is written. */
  predicate Here(s: State, e: Entry) {
    e in s.queue || e in s.mine || e in s.wait
  }

  predicate HasId(infos: seq<Info>, e: Entry, chid: nat) {
    e.stamp < |infos| && infos[e.stamp].chid == chid
  }

  ghost predicate DistinctIds(s: State) {
    forall d, e ::
      Here(s, d) && Here(s, e) && d.stamp < |s.infos| && HasId(s.infos, e, s.infos[d.stamp].chid) ==> d == e
  }

  ghost predicate Inv(s: State) {
    Conserved(s) && Stamped(s) && Ends(s) && Closing(s) && Counted(s) && DistinctIds(s)
  }

  // ----- Every step keeps every packet in exactly one place -------------------------------------

  function One(d: Entry, e: Entry): nat {
    if d == e then 1 else 0
  }

  lemma InsertCount(s: seq<Entry>, d: Entry, e: Entry)
    ensures multiset(Insert(s, d))[e] == multiset(s)[e] + One(d, e)
  {
    var k := DueBy(s, d.expire);
    assert s == s[..k] + s[k..];
  }

  lemma SplitCount(s: seq<Entry>, k: nat, e: Entry)
    requires k <= |s|
    ensures multiset(s[..k])[e] + multiset(s[k..])[e] == multiset(s)[e]
  {
    assert s == s[..k] + s[k..];
  }

  lemma RemoveCount(s: seq<Entry>, i: nat, e: Entry)
    requires i < |s|
    ensures multiset(s[..i] + s[i + 1..])[e] + One(s[i], e) == multiset(s)[e]
  {
    assert s == s[..i] + [s[i]] + s[i + 1..];
  }

  lemma FirstCount(s: seq<Entry>, e: Entry)
    requires |s| > 0
    ensures multiset(s[1..])[e] + One(s[0], e) == multiset(s)[e]
  {
    assert s == [s[0]] + s[1..];
  }

  lemma AddCount(m: multiset<Entry>, d: Entry, e: Entry)
    ensures (m + multiset{d})[e] == m[e] + One(d, e)
  {
  }

  lemma PostPlaces(s: State, expire: int, info: Info, e: Entry)
    ensures Places(DoPost(s, expire, info), e) == Places(s, e) + One(Entry(expire, |s.accepted|), e)
  {
    hide Insert, Hands;
    InsertCount(s.queue, Entry(expire, |s.accepted|), e);
  }

  lemma WriteOnePlaces(s: State, e: Entry)
    requires |s.mine| > 0
    ensures Places(DoWriteOne(s), e) == Places(s, e)
  {
    hide Insert, Hands, Handled, One;
    var d := s.mine[0];
    FirstCount(s.mine, e);
    if !Handled(s.infos, d) {
      AddCount(s.silent, d, e);
    } else if d.expire == 0 {
      AddCount(s.lost, d, e);
    } else {
      InsertCount(s.wait, d, e);
    }
  }

  lemma TakeReplyPlaces(s: State, c: nat, chid: nat, e: Entry)
    requires c < |s.calls| && s.calls[c].Idle?
    ensures Places(DoTakeReply(s, c, chid), e) == Places(s, e)
  {
    hide FindWaiting, Hands;
    var i := FindWaiting(s.wait, s.infos, chid);
    if i < |s.wait| {
      RemoveCount(s.wait, i, e);
      HandsUpdate(s.calls, c, Replying(s.wait[i]), e);
    }
  }

  lemma RunHandlerPlaces(s: State, c: nat, e: Entry)
    requires c < |s.calls| && (s.calls[c].Held? || s.calls[c].Replying?)
    ensures Places(DoRunHandler(s, c), e) == Places(s, e)
  {
    hide Hands, One;
    var l := s.calls[c];
    AddCount(s.answered, l.held, e);
    FirstCount(Todo(l), e);
    HandsUpdate(s.calls, c, DoRunHandler(s, c).calls[c], e);
    assert Todo(DoRunHandler(s, c).calls[c]) == Todo(l)[1..];
  }

  lemma DetachChannelsPlaces(s: State, c: nat, now: int, e: Entry)
    requires c < |s.calls| && s.calls[c].Idle?
    ensures Places(DoDetachChannels(s, c, now), e) == Places(s, e)
  {
    hide DueBy, Hands;
    var k := DueBy(s.wait, now - 1);
    SplitCount(s.wait, k, e);
    HandsUpdate(s.calls, c, Channels(now, s.opens, s.wait[..k]), e);
  }

  lemma DetachPacketsPlaces(s: State, c: nat, e: Entry)
    requires c < |s.calls| && s.calls[c].Channels? && s.calls[c].todo == []
    ensures Places(DoDetachPackets(s, c), e) == Places(s, e)
  {
    hide DueBy, Hands;
    var k := DueBy(s.queue, s.calls[c].now - 1);
    SplitCount(s.queue, k, e);
    HandsUpdate(s.calls, c, Packets(s.calls[c].now, s.calls[c].epoch, s.queue[..k]), e);
  }

  lemma HandlePacketPlaces(s: State, c: nat, e: Entry)
    requires c < |s.calls| && s.calls[c].Packets? && |s.calls[c].todo| > 0
    ensures Places(DoHandlePacket(s, c), e) == Places(s, e)
  {
    hide Hands, Handled, One;
    var Packets(now, epoch, todo) := s.calls[c];
    HandsUpdate(s.calls, c, DoHandlePacket(s, c).calls[c], e);
    if Handled(s.infos, todo[0]) {
      assert [todo[0]] + todo[1..] == todo;
    } else {
      FirstCount(todo, e);
      AddCount(s.silent, todo[0], e);
    }
  }

  lemma HandleChannelPlaces(s: State, c: nat, e: Entry)
    requires c < |s.calls| && s.calls[c].Channels? && |s.calls[c].todo| > 0
    ensures Places(DoHandleChannel(s, c), e) == Places(s, e)
  {
    hide Hands;
    var Channels(now, epoch, todo) := s.calls[c];
    FirstCount(todo, e);
    HandsUpdate(s.calls, c, Channels(now, epoch, todo[1..]), e);
  }

  lemma FinishPlaces(s: State, c: nat, e: Entry)
    requires Enabled(s, Finish(c))
    ensures Places(Exec(s, Finish(c)), e) == Places(s, e)
  {
    hide Hands;
    HandsUpdate(s.calls, c, Idle, e);
  }

  lemma WriteCyclePlaces(s: State, e: Entry)
    ensures Places(s.(mine := Merge(s.mine, s.queue), queue := [], writing := true), e) == Places(s, e)
    ensures Places(s.(queue := Merge(s.queue, s.mine), mine := [], writing := false), e) == Places(s, e)
  {
    hide Merge, Hands;
    MergeCounts(s.mine, s.queue);
    MergeCounts(s.queue, s.mine);
  }

  lemma StepPlaces(s: State, a: Step, e: Entry)
    requires Enabled(s, a)
    ensures Places(Exec(s, a), e) ==
            Places(s, e) + if a.Post? && !Refused(s) then One(Entry(a.expire, |s.accepted|), e) else 0
  {
    hide Hands, Insert, Merge, DueBy, FindWaiting;
    match a
    case Post(expire, info) => PostPlaces(s, expire, info, e);
    case BeginWrite => WriteCyclePlaces(s, e);
    case WriteOne => WriteOnePlaces(s, e);
    case EndWrite => WriteCyclePlaces(s, e);
    case TakeReply(c, chid) => TakeReplyPlaces(s, c, chid, e);
    case RunHandler(c) => RunHandlerPlaces(s, c, e);
    case BeginCheck(c, now) => DetachChannelsPlaces(s, c, now, e);
    case BeginClose(c) => DetachChannelsPlaces(s.(closed := true), c, MAX, e);
    case HandleChannel(c) => HandleChannelPlaces(s, c, e);
    case DetachPackets(c) => DetachPacketsPlaces(s, c, e);
    case HandlePacket(c) => HandlePacketPlaces(s, c, e);
    case Finish(c) => FinishPlaces(s, c, e);
    case Reopen =>
  }

  lemma StepKeepsConserved(s: State, a: Step)
    requires Conserved(s) && Stamped(s) && Enabled(s, a)
    ensures Conserved(Exec(s, a)) && Stamped(Exec(s, a))
  {
    hide Places, Live, Insert, Merge, DueBy, FindWaiting;
    var s' := Exec(s, a);
    StepAccepts(s, a);
    forall e ensures Places(s', e) == if e in s'.accepted then 1 else 0 {
      StepPlaces(s, a, e);
    }
  }

  /** Only an accepted post changes what has been accepted. */
  lemma StepAccepts(s: State, a: Step)
    requires Enabled(s, a)
    ensures var s' := Exec(s, a);
            if a.Post? && !Refused(s)
            then s'.accepted == s.accepted + [Entry(a.expire, |s.accepted|)] && s'.infos == s.infos + [a.info]
            else s'.accepted == s.accepted && s'.infos == s.infos
  {
    hide Live, Insert, Merge, DueBy, FindWaiting;
  }

  /** A packet that is somewhere has been accepted. */
  lemma SomewhereIsAccepted(s: State, e: Entry)
    requires Conserved(s) && Stamped(s) && Places(s, e) > 0
    ensures e in s.accepted && e.stamp < |s.infos| && s.accepted[e.stamp] == e && 0 <= e.expire < MAX
  {
    var i :| 0 <= i < |s.accepted| && s.accepted[i] == e;
  }

  // ----- Packets end where they should ---------------------------------------------------------

  lemma StepKeepsEnds(s: State, a: Step)
    requires Ends(s) && Conserved(s) && Stamped(s) && Enabled(s, a)
    ensures Ends(Exec(s, a))
  {
    hide Conserved, Stamped, Live, Insert, Merge, DueBy, FindWaiting;
    match a
    case Post(expire, info) =>
      if !Refused(s) {
        PostKeepsEnds(s, expire, info);
      }
    case WriteOne =>
      assert multiset(s.mine)[s.mine[0]] > 0;
      SomewhereIsAccepted(s, s.mine[0]);
      WriteOneKeepsEnds(s);
    case TakeReply(c, chid) => TakeReplyKeepsEnds(s, c, chid);
    case RunHandler(c) => RunHandlerKeepsEnds(s, c);
    case DetachPackets(c) => DetachPacketsKeepsEnds(s, c);
    case Finish(c) => FinishKeepsEnds(s, c);
    case BeginCheck(c, now) => DetachChannelsKeepsEnds(s, c, now);
    case BeginClose(c) => DetachChannelsKeepsEnds(s.(closed := true), c, MAX);
    case HandleChannel(c) => HandleChannelKeepsEnds(s, c);
    case HandlePacket(c) => HandlePacketKeepsEnds(s, c);
    case _ =>
  }

  lemma TakeReplyKeepsEnds(s: State, c: nat, chid: nat)
    requires Ends(s) && c < |s.calls|
    ensures Ends(DoTakeReply(s, c, chid))
  {
    hide FindWaiting, Handled;
    assert forall i :: 0 <= i < |s.wait| ==> s.wait[i] in s.wait;
  }

  lemma RunHandlerKeepsEnds(s: State, c: nat)
    requires Ends(s) && c < |s.calls| && (s.calls[c].Held? || s.calls[c].Replying?)
    ensures Ends(DoRunHandler(s, c))
  {
    hide Handled;
    assert HoldsHandled(s.infos, s.calls[c]);
  }

  lemma DetachPacketsKeepsEnds(s: State, c: nat)
    requires Ends(s) && c < |s.calls| && s.calls[c].Channels?
    ensures Ends(DoDetachPackets(s, c))
  {
    hide Handled, DueBy;
  }

  lemma FinishKeepsEnds(s: State, c: nat)
    requires Ends(s) && Enabled(s, Finish(c))
    ensures Ends(Exec(s, Finish(c)))
  {
    hide Handled;
  }

  lemma DetachChannelsKeepsEnds(s: State, c: nat, now: int)
    requires Ends(s) && c < |s.calls|
    ensures Ends(DoDetachChannels(s, c, now))
  {
    hide DueBy;
    var k := DueBy(s.wait, now - 1);
    assert forall e :: e in s.wait[..k] ==> e in s.wait;
  }

  lemma HandleChannelKeepsEnds(s: State, c: nat)
    requires Ends(s) && c < |s.calls| && s.calls[c].Channels? && |s.calls[c].todo| > 0
    ensures Ends(DoHandleChannel(s, c))
  {
    assert forall e :: e in s.calls[c].todo[1..] ==> e in s.calls[c].todo;
  }

  lemma HandlePacketKeepsEnds(s: State, c: nat)
    requires Ends(s) && c < |s.calls| && s.calls[c].Packets? && |s.calls[c].todo| > 0
    ensures Ends(DoHandlePacket(s, c))
  {
    hide Handled, HoldsHandled;
    var s' := DoHandlePacket(s, c);
    HoldsPackets(s.infos, s.calls[c].now, s.calls[c].epoch, s.calls[c].todo[1..], s.calls[c].todo[0]);
    assert HoldsHandled(s'.infos, s'.calls[c]);
  }

  lemma HoldsPackets(infos: seq<Info>, now: int, epoch: nat, todo: seq<Entry>, e: Entry)
    ensures HoldsHandled(infos, Packets(now, epoch, todo))
    ensures Handled(infos, e) ==> HoldsHandled(infos, Held(now, epoch, todo, e))
  {
  }

  lemma PostKeepsEnds(s: State, expire: int, info: Info)
    requires Ends(s) && Conserved(s) && Stamped(s)
    ensures Ends(DoPost(s, expire, info))
  {
    hide Conserved, Stamped, Insert, Hands, Handled;
    var infos := s.infos + [info];
    forall e | e in s.silent ensures !Handled(infos, e) {
      assert s.silent[e] > 0 && !Handled(s.infos, e);
      SomewhereIsAccepted(s, e);
      SameHandled(s.infos, info, e);
    }
    forall e | e in s.written ensures Handled(infos, e) <==> Handled(s.infos, e) {
      SameHandled(s.infos, info, e);
    }
    forall e | Handled(s.infos, e) ensures Handled(infos, e) {
      StaysHandled(s.infos, info, e);
    }
    forall e | e in s.lost ensures e in s.written && e.expire == 0 && Handled(infos, e) {
    }
  }

  lemma SameHandled(infos: seq<Info>, info: Info, e: Entry)
    requires e.stamp < |infos|
    ensures Handled(infos + [info], e) <==> Handled(infos, e)
  {
  }

  lemma StaysHandled(infos: seq<Info>, info: Info, e: Entry)
    requires Handled(infos, e)
    ensures Handled(infos + [info], e)
  {
  }

  lemma WriteOneKeepsEnds(s: State)
    requires Ends(s) && |s.mine| > 0 && s.mine[0].stamp < |s.infos|
    ensures Ends(DoWriteOne(s))
  {
    hide Insert, Handled, HoldsHandled, LostAll, HandledAll;
    WriteOneKeepsLost(s);
    WriteOneKeepsHandled(s);
  }

  lemma WriteOneKeepsLost(s: State)
    requires LostAll(s) && |s.mine| > 0 && s.mine[0].stamp < |s.infos|
    ensures LostAll(DoWriteOne(s))
  {
    hide Insert, Handled;
  }

  lemma WriteOneKeepsHandled(s: State)
    requires HandledAll(s) && |s.mine| > 0
    ensures HandledAll(DoWriteOne(s))
  {
    hide Insert, Handled;
    forall e | e in Insert(s.wait, s.mine[0]) ensures e in s.wait || e == s.mine[0] {
      InsertCount(s.wait, s.mine[0], e);
    }
  }

  // ----- A close empties the connection ----------------------------------------------------------

  lemma {:induction false} AllDue(s: seq<Entry>, time: int)
    requires forall i :: 0 <= i < |s| ==> s[i].expire <= time
    ensures DueBy(s, time) == |s|
  {
    if |s| > 0 { AllDue(s[1..], time); }
  }

  /** Everything that waits or is queued is due before MAX. */
  lemma AllDueAtClose(s: State)
    requires Conserved(s) && Stamped(s)
    ensures DueBy(s.wait, MAX - 1) == |s.wait| && DueBy(s.queue, MAX - 1) == |s.queue|
  {
    hide Conserved, Stamped, Hands;
    forall i | 0 <= i < |s.wait| ensures s.wait[i].expire <= MAX - 1 {
      SomewhereIsAccepted(s, s.wait[i]);
    }
    forall i | 0 <= i < |s.queue| ensures s.queue[i].expire <= MAX - 1 {
      SomewhereIsAccepted(s, s.queue[i]);
    }
    AllDue(s.wait, MAX - 1);
    AllDue(s.queue, MAX - 1);
  }

  lemma StepKeepsClosing(s: State, a: Step)
    requires Closing(s) && Conserved(s) && Stamped(s) && Enabled(s, a)
    ensures Closing(Exec(s, a))
  {
    hide Conserved, Stamped, Live, Insert, Merge, DueBy, FindWaiting;
    match a
    case BeginCheck(c, now) => CheckKeepsClosing(s, c, now);
    case BeginClose(c) => CloseKeepsClosing(s, c);
    case DetachPackets(c) => DetachKeepsClosing(s, c);
    case Finish(c) => FinishKeepsClosing(s, c);
    case HandleChannel(c) => HandleChannelKeepsClosing(s, c);
    case HandlePacket(c) => HandlePacketKeepsClosing(s, c);
    case TakeReply(c, chid) => TakeReplyKeepsClosing(s, c, chid);
    case RunHandler(c) => RunHandlerKeepsClosing(s, c);
    case _ =>
  }

  lemma CheckKeepsClosing(s: State, c: nat, now: int)
    requires Closing(s) && c < |s.calls| && now < MAX && !s.closed
    ensures Closing(DoDetachChannels(s, c, now))
  {
    hide DueBy;
  }

  lemma CloseKeepsClosing(s: State, c: nat)
    requires Closing(s) && Conserved(s) && Stamped(s) && c < |s.calls| && !s.writing
    ensures Closing(DoDetachChannels(s.(closed := true), c, MAX))
  {
    hide DueBy, Conserved, Stamped;
    AllDueAtClose(s);
  }

  lemma DetachKeepsClosing(s: State, c: nat)
    requires Closing(s) && Conserved(s) && Stamped(s) && c < |s.calls| && s.calls[c].Channels?
    ensures Closing(DoDetachPackets(s, c))
  {
    hide DueBy, Conserved, Stamped;
    AllDueAtClose(s);
  }

  lemma HandleChannelKeepsClosing(s: State, c: nat)
    requires Closing(s) && c < |s.calls| && s.calls[c].Channels? && |s.calls[c].todo| > 0
    ensures Closing(DoHandleChannel(s, c))
  {
  }

  lemma HandlePacketKeepsClosing(s: State, c: nat)
    requires Closing(s) && c < |s.calls| && s.calls[c].Packets? && |s.calls[c].todo| > 0
    ensures Closing(DoHandlePacket(s, c))
  {
    hide Handled;
  }

  lemma TakeReplyKeepsClosing(s: State, c: nat, chid: nat)
    requires Closing(s) && c < |s.calls|
    ensures Closing(DoTakeReply(s, c, chid))
  {
    hide FindWaiting;
  }

  lemma RunHandlerKeepsClosing(s: State, c: nat)
    requires Closing(s) && c < |s.calls| && (s.calls[c].Held? || s.calls[c].Replying?)
    ensures Closing(DoRunHandler(s, c))
  {
  }

  lemma FinishKeepsClosing(s: State, c: nat)
    requires Closing(s) && Enabled(s, Finish(c))
    ensures Closing(Exec(s, Finish(c)))
  {
  }

  // ----- The use count ---------------------------------------------------------------------------

  lemma MergeSize(dest: seq<Entry>, src: seq<Entry>)
    ensures |Merge(dest, src)| == |dest| + |src|
  {
    MergeCounts(dest, src);
    assert |multiset(Merge(dest, src))| == |multiset(dest)| + |multiset(src)|;
  }

  lemma StepKeepsCounted(s: State, a: Step)
    requires Counted(s) && Enabled(s, a)
    ensures Counted(Exec(s, a))
  {
    hide Live, Merge, DueBy, FindWaiting, Owned;
    match a
    case Post(expire, info) =>
    case BeginWrite => MergeSize(s.mine, s.queue);
    case EndWrite => MergeSize(s.queue, s.mine);
    case WriteOne => WriteOneKeepsCounted(s);
    case TakeReply(c, chid) => TakeReplyKeepsCounted(s, c, chid);
    case RunHandler(c) => OwnedUpdate(s.calls, c, Exec(s, a).calls[c]);
    case BeginCheck(c, now) => DetachChannelsKeepsCounted(s, c, now);
    case BeginClose(c) => DetachChannelsKeepsCounted(s.(closed := true), c, MAX);
    case HandleChannel(c) => HandleChannelKeepsCounted(s, c);
    case DetachPackets(c) => DetachPacketsKeepsCounted(s, c);
    case HandlePacket(c) => HandlePacketKeepsCounted(s, c);
    case Finish(c) => OwnedUpdate(s.calls, c, Idle);
    case Reopen =>
  }

  lemma WriteOneKeepsCounted(s: State)
    requires Counted(s) && |s.mine| > 0
    ensures Counted(DoWriteOne(s))
  {
    hide Owned, DueBy;
  }

  lemma TakeReplyKeepsCounted(s: State, c: nat, chid: nat)
    requires Counted(s) && c < |s.calls| && s.calls[c].Idle?
    ensures Counted(DoTakeReply(s, c, chid))
  {
    hide Owned, FindWaiting;
    OwnedUpdate(s.calls, c, DoTakeReply(s, c, chid).calls[c]);
  }

  lemma DetachChannelsKeepsCounted(s: State, c: nat, now: int)
    requires Counted(s) && c < |s.calls| && s.calls[c].Idle?
    ensures Counted(DoDetachChannels(s, c, now))
  {
    hide Owned, DueBy;
    OwnedUpdate(s.calls, c, Channels(now, s.opens, s.wait[..DueBy(s.wait, now - 1)]));
  }

  lemma HandleChannelKeepsCounted(s: State, c: nat)
    requires Counted(s) && c < |s.calls| && s.calls[c].Channels? && |s.calls[c].todo| > 0
    ensures Counted(DoHandleChannel(s, c))
  {
    hide Owned;
    OwnedUpdate(s.calls, c, Channels(s.calls[c].now, s.calls[c].epoch, s.calls[c].todo[1..]));
  }

  lemma DetachPacketsKeepsCounted(s: State, c: nat)
    requires Counted(s) && c < |s.calls| && s.calls[c].Channels?
    ensures Counted(DoDetachPackets(s, c))
  {
    hide Owned, DueBy;
    var k := DueBy(s.queue, s.calls[c].now - 1);
    OwnedUpdate(s.calls, c, Packets(s.calls[c].now, s.calls[c].epoch, s.queue[..k]));
  }

  lemma HandlePacketKeepsCounted(s: State, c: nat)
    requires Counted(s) && c < |s.calls| && s.calls[c].Packets? && |s.calls[c].todo| > 0
    ensures Counted(DoHandlePacket(s, c))
  {
    hide Owned;
    OwnedUpdate(s.calls, c, DoHandlePacket(s, c).calls[c]);
  }

  // ----- Live channel ids --------------------------------------------------------------------------

  /** A step brings no packet back to where a reply can find it. */
  lemma StepHere(s: State, a: Step, e: Entry)
    requires Enabled(s, a) && Here(Exec(s, a), e)
    ensures Here(s, e) || (a.Post? && !Refused(s) && e == Entry(a.expire, |s.accepted|))
  {
    hide Live, Insert, Merge, DueBy, FindWaiting;
    match a
    case Post(expire, info) => InsertCount(s.queue, Entry(expire, |s.accepted|), e);
    case BeginWrite => MergeMembers(s.mine, s.queue, e);
    case WriteOne => WriteOneHere(s, e);
    case EndWrite => MergeMembers(s.queue, s.mine, e);
    case TakeReply(c, chid) => TakeReplyHere(s, c, chid, e);
    case _ =>
  }

  lemma MergeMembers(dest: seq<Entry>, src: seq<Entry>, e: Entry)
    ensures e in Merge(dest, src) <==> e in dest || e in src
  {
    MergeCounts(dest, src);
    assert multiset(Merge(dest, src))[e] == multiset(dest)[e] + multiset(src)[e];
  }

  lemma WriteOneHere(s: State, e: Entry)
    requires |s.mine| > 0 && Here(DoWriteOne(s), e)
    ensures Here(s, e)
  {
    hide Insert;
    InsertCount(s.wait, s.mine[0], e);
  }

  lemma TakeReplyHere(s: State, c: nat, chid: nat, e: Entry)
    requires c < |s.calls| && Here(DoTakeReply(s, c, chid), e)
    ensures Here(s, e)
  {
    hide FindWaiting;
  }

  lemma StepKeepsIds(s: State, a: Step)
    requires DistinctIds(s) && Conserved(s) && Stamped(s) && Enabled(s, a)
    ensures DistinctIds(Exec(s, a))
  {
    hide Conserved, Stamped, Here, Insert, Merge, DueBy, FindWaiting;
    var s' := Exec(s, a);
    StepAccepts(s, a);
    forall d, e | Here(s', d) && Here(s', e) && d.stamp < |s'.infos| && HasId(s'.infos, e, s'.infos[d.stamp].chid)
      ensures d == e
    {
      StepHere(s, a, d);
      StepHere(s, a, e);
      HereIsAccepted(s, d);
      HereIsAccepted(s, e);
    }
  }

  lemma HereIsAccepted(s: State, e: Entry)
    requires Conserved(s) && Stamped(s)
    ensures |s.infos| == |s.accepted| && (Here(s, e) ==> e.stamp < |s.infos|)
  {
    if Here(s, e) {
      SomewhereIsAccepted(s, e);
    }
  }

  // ----- All runs --------------------------------------------------------------------------------

  lemma InitHasInv(s: State)
    requires Init(s)
    ensures Inv(s)
  {
    forall e ensures Places(s, e) == 0 {
      IdleHands(s.calls, e);
    }
    IdleHands(s.calls, Entry(0, 0));
  }

  lemma StepKeepsInv(s: State, a: Step)
    requires Inv(s) && Enabled(s, a)
    ensures Inv(Exec(s, a))
  {
    hide Conserved, Stamped, Ends, Closing, Counted, DistinctIds, Enabled, Exec;
    StepKeepsConserved(s, a);
    StepKeepsEnds(s, a);
    StepKeepsClosing(s, a);
    StepKeepsCounted(s, a);
    StepKeepsIds(s, a);
  }

  ghost predicate Run(states: seq<State>, steps: seq<Step>) {
    && |states| == |steps| + 1 && Init(states[0])
    && forall i :: 0 <= i < |steps| ==> Enabled(states[i], steps[i]) && states[i + 1] == Exec(states[i], steps[i])
  }

  lemma {:induction false} RunsKeepInv(states: seq<State>, steps: seq<Step>, i: nat)
    requires Run(states, steps) && i < |states|
    ensures Inv(states[i])
  {
    hide Inv, Exec, Enabled, Init;
    if i == 0 {
      InitHasInv(states[0]);
    } else {
      RunsKeepInv(states, steps, i - 1);
      StepKeepsInv(states[i - 1], steps[i - 1]);
    }
  }

  /** In every run the handler of an accepted packet runs at most once, and never for a packet that
      was not accepted or has no handler. */
  lemma HandlersRunAtMostOnce(states: seq<State>, steps: seq<Step>, i: nat, e: Entry)
    requires Run(states, steps) && i < |states|
    ensures states[i].answered[e] <= 1
    ensures e in states[i].answered ==> e in states[i].accepted && Handled(states[i].infos, e)
  {
    hide Run, Hands, Closing, Counted, DistinctIds, Stamped;
    RunsKeepInv(states, steps, i);
    assert Places(states[i], e) == if e in states[i].accepted then 1 else 0;
  }

  /** Once a close has finished and the connection was not reopened, the handler of an accepted packet
      has run, exactly once, if and only if no check or reply that is still running holds the packet and
      it was not written without a deadline: then its channel is never collected. */
  lemma ClosedConnectionHandledAll(states: seq<State>, steps: seq<Step>, i: nat, e: Entry)
    requires Run(states, steps) && i < |states| && states[i].drained
    requires e in states[i].accepted && Handled(states[i].infos, e)
    ensures states[i].answered[e] + Hands(states[i].calls, e) + states[i].lost[e] == 1
    ensures states[i].answered[e] == 1 <==>
            Hands(states[i].calls, e) == 0 && !(e in states[i].written && e.expire == 0)
    ensures (forall c :: 0 <= c < |states[i].calls| ==> states[i].calls[c].Idle?) && e.expire != 0 ==>
              states[i].answered[e] == 1
  {
    hide Run, Hands, Counted, DistinctIds, Stamped;
    RunsKeepInv(states, steps, i);
    var s := states[i];
    assert Places(s, e) == 1;
    LostExactly(states, steps, i, e);
    if forall c :: 0 <= c < |s.calls| ==> s.calls[c].Idle? {
      IdleHands(s.calls, e);
    }
  }

  /** In every run a channel stays outstanding for good exactly for the packets written with a handler
      and without a deadline. Their handler has not run, and no call is about to run it. */
  lemma LostExactly(states: seq<State>, steps: seq<Step>, i: nat, e: Entry)
    requires Run(states, steps) && i < |states|
    ensures states[i].lost[e] == 1 <==> e in states[i].written && e.expire == 0 && Handled(states[i].infos, e)
    ensures states[i].lost[e] <= 1
    ensures states[i].lost[e] == 1 ==> states[i].answered[e] == 0 && Hands(states[i].calls, e) == 0
  {
    hide Run, Hands, Counted, DistinctIds, Stamped, Closing, Handled;
    RunsKeepInv(states, steps, i);
    assert Places(states[i], e) <= 1;
  }

  /** Nor does it ever run, however the run goes on: with replies, checks, closes and reopens. */
  lemma LostIsNeverHandled(states: seq<State>, steps: seq<Step>, i: nat, j: nat, e: Entry)
    requires Run(states, steps) && i <= j < |states|
    requires e in states[i].written && e.expire == 0 && Handled(states[i].infos, e)
    ensures states[j].answered[e] == 0 && Hands(states[j].calls, e) == 0
  {
    hide Run, Hands, Handled;
    LostExactly(states, steps, i, e);
    LostStays(states, steps, i, j, e);
    LostExactly(states, steps, j, e);
  }

  lemma {:induction false} LostStays(states: seq<State>, steps: seq<Step>, i: nat, j: nat, e: Entry)
    requires Run(states, steps) && i <= j < |states|
    ensures states[i].lost[e] <= states[j].lost[e]
    decreases j
  {
    hide Exec, Enabled, Init;
    if i < j {
      LostStays(states, steps, i, j - 1, e);
      LostGrows(states[j - 1], steps[j - 1], e);
    }
  }

  lemma LostGrows(s: State, a: Step, e: Entry)
    requires Enabled(s, a)
    ensures s.lost[e] <= Exec(s, a).lost[e]
  {
    hide Insert, Merge, DueBy, Handled, Live;
  }

  // ----- Runs in which a handler does not run ------------------------------------------------------

  lemma NothingIsLive(s: State, chid: nat)
    requires s.queue == [] && s.mine == [] && s.wait == []
    ensures !Live(s, chid)
  {
  }

  lemma Longer(states: seq<State>, steps: seq<Step>, a: Step) returns (more: seq<State>, acts: seq<Step>)
    requires Run(states, steps) && |states| == |steps| + 1 && Enabled(states[|steps|], a)
    ensures Run(more, acts) && |more| == |acts| + 1 && more[|acts|] == Exec(states[|steps|], a)
  {
    hide Exec, Enabled, Init;
    more, acts := states + [Exec(states[|steps|], a)], steps + [a];
  }

  /** One packet with a handler has been accepted; nothing has been answered. */
  function Accepted(e: Entry): State {
    State(false, [], [], false, [], [Idle, Idle], 1, 50, 0, false, [e], [Info(7, true)], [], multiset{}, multiset{},
        multiset{})
  }

  /** That packet has been written, and waits for its reply or is lost. */
  function Written(e: Entry): State {
    if e.expire == 0 then Accepted(e).(written := [e], lost := multiset{e})
    else Accepted(e).(written := [e], wait := [e])
  }

  lemma WrittenIsReachable(e: Entry) returns (states: seq<State>, steps: seq<Step>)
    requires 0 <= e.expire < MAX && e.stamp == 0
    ensures Run(states, steps) && |states| == |steps| + 1 && states[|steps|] == Written(e)
  {
    hide Run, Exec, Enabled, Written, Accepted;
    states, steps := AcceptedIsReachable(e);
    WriteTheOnly(Accepted(e).(mine := [e], writing := true), e);
    WriteCycle(e);
    states, steps := Longer(states, steps, BeginWrite);
    states, steps := Longer(states, steps, WriteOne);
    states, steps := Longer(states, steps, EndWrite);
  }

  lemma AcceptedIsReachable(e: Entry) returns (states: seq<State>, steps: seq<Step>)
    requires 0 <= e.expire < MAX && e.stamp == 0
    ensures Run(states, steps) && |states| == |steps| + 1 && states[|steps|] == Accepted(e).(queue := [e])
  {
    hide Live;
    var s := Accepted(e).(accepted := [], infos := [], useCount := 0);
    NothingIsLive(s, 7);
    assert Insert([], e) == [e] && [] + [e] == [e] && [] + [Info(7, true)] == [Info(7, true)];
    states, steps := [s, Accepted(e).(queue := [e])], [Post(e.expire, Info(7, true))];
  }

  lemma WriteCycle(e: Entry)
    requires e.stamp == 0
    ensures Enabled(Accepted(e).(queue := [e]), BeginWrite)
    ensures Exec(Accepted(e).(queue := [e]), BeginWrite) == Accepted(e).(mine := [e], writing := true)
    ensures Enabled(Accepted(e).(mine := [e], writing := true), WriteOne)
    ensures Exec(Accepted(e).(mine := [e], writing := true), WriteOne) ==
            DoWriteOne(Accepted(e).(mine := [e], writing := true))
    ensures Enabled(Written(e).(writing := true), EndWrite)
    ensures Exec(Written(e).(writing := true), EndWrite) == Written(e)
  {
    hide DoWriteOne;
  }

  lemma WriteTheOnly(s: State, e: Entry)
    requires s == Accepted(e).(mine := [e], writing := true) && e.stamp == 0
    ensures DoWriteOne(s) == Written(e).(writing := true)
  {
    assert s.mine[1..] == [] && [] + [e] == [e] && multiset{} + multiset{e} == multiset{e};
    assert Insert([], e) == [e];
  }

  /** With nothing queued or waiting a close runs to its end at once, whatever the checks and replies
      that began earlier still hold. */
  lemma CloseMayFinishFirst(s: State, d: nat)
    requires !s.writing && s.wait == [] && s.queue == [] && d < |s.calls| && s.calls[d].Idle?
    ensures Enabled(s, BeginClose(d)) && var s1 := Exec(s, BeginClose(d));
            && Enabled(s1, DetachPackets(d)) && var s2 := Exec(s1, DetachPackets(d));
            && Enabled(s2, Finish(d)) && Exec(s2, Finish(d)) == s.(closed := true, drained := true)
  {
    var s1 := s.(closed := true, calls := s.calls[d := Channels(MAX, s.opens, [])]);
    var s2 := s.(closed := true, calls := s.calls[d := Packets(MAX, s.opens, [])]);
    assert Exec(s, BeginClose(d)) == s1;
    assert s1.calls[d := s2.calls[d]] == s2.calls;
    assert Exec(s1, DetachPackets(d)) == s2;
    assert s2.calls[d := Idle] == s.calls;
  }

  predicate CanCloseAtOnce(s: State) {
    !s.writing && s.wait == [] && s.queue == [] && |s.calls| == 2 && s.calls[1].Idle?
  }

  lemma CloseAtOnce(states: seq<State>, steps: seq<Step>) returns (more: seq<State>, acts: seq<Step>)
    requires Run(states, steps) && |states| == |steps| + 1
    requires CanCloseAtOnce(states[|steps|])
    ensures Run(more, acts) && |more| == |acts| + 1 && more[|acts|] == states[|steps|].(closed := true, drained := true)
  {
    hide Run, Exec, Enabled;
    CloseMayFinishFirst(states[|steps|], 1);
    more, acts := Longer(states, steps, BeginClose(1));
    more, acts := Longer(more, acts, DetachPackets(1));
    more, acts := Longer(more, acts, Finish(1));
  }

  /** A close has finished, and the handler of an accepted packet has not run. */
  predicate Unhandled(s: State, e: Entry) {
    s.drained && e in s.accepted && Handled(s.infos, e) && s.answered[e] == 0
  }

  lemma CheckHoldsThePacket(e: Entry)
    requires e == Entry(10, 0)
    ensures Enabled(Written(e), BeginCheck(0, 20))
    ensures Exec(Written(e), BeginCheck(0, 20)) ==
            Written(e).(wait := [], useCount := 0, calls := [Channels(20, 0, [e]), Idle])
  {
    assert DueBy([e], 19) == 1 && [e][..1] == [e] && [e][1..] == [];
    assert [Idle, Idle][0 := Channels(20, 0, [e])] == [Channels(20, 0, [e]), Idle];
  }

  /** The check that found the packet late still holds it. */
  lemma ClosedBeforeHandled(e: Entry) returns (states: seq<State>, steps: seq<Step>)
    requires e == Entry(10, 0)
    ensures Run(states, steps) && Unhandled(states[|steps|], e)
  {
    hide Run, Exec, Enabled;
    states, steps := WrittenIsReachable(e);
    CheckHoldsThePacket(e);
    states, steps := Longer(states, steps, BeginCheck(0, 20));
    states, steps := CloseAtOnce(states, steps);
  }

  lemma ReplyHoldsThePacket(e: Entry)
    requires e == Entry(10, 0)
    ensures Enabled(Written(e), TakeReply(0, 7))
    ensures Exec(Written(e), TakeReply(0, 7)) == Written(e).(wait := [], useCount := 0, calls := [Replying(e), Idle])
  {
    assert FindWaiting([e], [Info(7, true)], 7) == 0 && [e][..0] + [e][1..] == [];
    assert [Idle, Idle][0 := Replying(e)] == [Replying(e), Idle];
  }

  /** The reply that freed the channel is still about to run the handler. */
  lemma ClosedBeforeReplied(e: Entry) returns (states: seq<State>, steps: seq<Step>)
    requires e == Entry(10, 0)
    ensures Run(states, steps) && Unhandled(states[|steps|], e)
  {
    hide Run, Exec, Enabled;
    states, steps := WrittenIsReachable(e);
    ReplyHoldsThePacket(e);
    states, steps := Longer(states, steps, TakeReply(0, 7));
    states, steps := CloseAtOnce(states, steps);
  }

  /** No check and no reply is running: the packet was written without a deadline, and nobody will ever
      handle it. */
  lemma ClosedWithoutDeadline(e: Entry) returns (states: seq<State>, steps: seq<Step>)
    requires e == Entry(0, 0)
    ensures Run(states, steps) && var s := states[|steps|];
            Unhandled(s, e) && s.lost[e] == 1 && forall c :: 0 <= c < |s.calls| ==> s.calls[c].Idle?
  {
    hide Run, Exec, Enabled;
    states, steps := WrittenIsReachable(e);
    states, steps := CloseAtOnce(states, steps);
  }

  // ----- Replies and the use count -----------------------------------------------------------------

  /** The channels in use never exceed a fixed queue limit. */
  lemma UseCountStaysBelowLimit(states: seq<State>, steps: seq<Step>, i: nat)
    requires Run(states, steps) && i < |states| && states[i].limit > 0
    ensures states[i].useCount <= states[i].limit
  {
    hide Run;
    RunsKeepInv(states, steps, i);
  }

  /** A reply reaches the packet that carries its channel id, and no other waits under that id; its
      handler runs next for that packet. */
  lemma RepliesFindTheirPacket(states: seq<State>, steps: seq<Step>, i: nat, c: nat, chid: nat, e: Entry)
    requires Run(states, steps) && i < |states| && c < |states[i].calls| && states[i].calls[c].Idle?
    requires e in states[i].wait && HasId(states[i].infos, e, chid)
    ensures var s := DoTakeReply(states[i], c, chid);
            && e !in s.wait && c < |s.calls| && s.calls[c] == Replying(e)
            && DoRunHandler(s, c).answered == states[i].answered + multiset{e}
  {
    hide Run, Counted, Closing, Ends, FindWaiting;
    RunsKeepInv(states, steps, i);
    var s := states[i];
    var k := FindWaiting(s.wait, s.infos, chid);
    assert Here(s, e) && (k < |s.wait| ==> Here(s, s.wait[k]));
    TakeReplyPlaces(s, c, chid, e);
    RemoveCount(s.wait, k, e);
    assert Places(s, e) <= 1;
  }
}
