/** Where frames have what, and which packet infos break the stream: ANET frames. */
module AnetLayout {
  import opened DataBuffers
  import opened AnetFrames

  const START: State := Open(None, [])

  /** The fields of a frame, at their places and in network order. */
  lemma FrameLayout(p: Packet, on: bool)
    requires Valid(p)
    ensures var f := Frame(p, on);
            && |f| >= 16 && f[0..4] == [0x41, 0x6e, 0x45, 0x74] && Value(f[4..8]) == p.chid
            && Value(f[8..12]) == (if p.Plain? then p.pcode else p.pcode + 0x8000) && Value(f[12..16]) == |f| - 16
            && f[16..] == Payload(p, on)
  {
    hide Payload, InfoBytes, Value, IsMarked;
    var h := HeaderOf(p, on);
    InfoLayout(h);
    var i, f := InfoBytes(h), Frame(p, on);
    assert f[0..4] == i[0..4] && f[4..8] == i[4..8] && f[8..12] == i[8..12] && f[12..16] == i[12..16];
    assert f[16..] == Payload(p, on);
  }

  lemma InfoLayout(h: Header)
    requires IsWord(h.chid) && IsWord(h.pcode) && IsWord(h.dataLen)
    ensures var i := InfoBytes(h);
            && i[0..4] == [0x41, 0x6e, 0x45, 0x74] && Value(i[4..8]) == h.chid && Value(i[8..12]) == h.pcode
            && Value(i[12..16]) == h.dataLen
  {
    hide Value;
    ValueOfWord(h.chid);
    ValueOfWord(h.pcode);
    ValueOfWord(h.dataLen);
    var i := InfoBytes(h);
    assert i[0..4] == Word(ANET_PACKET_FLAG) && i[4..8] == Word(h.chid);
    assert i[8..12] == Word(h.pcode) && i[12..16] == Word(h.dataLen);
  }

  /** Behind the packet info of an advance packet: time to live, checksum, high half of the channel id,
      priority with flags, version, and the body. */
  lemma AdvanceLayout(p: Packet, on: bool)
    requires Valid(p) && p.Advanced?
    ensures var s := Payload(p, on);
            && |s| >= 16 && Value(s[0..4]) == p.adv.ttl && Value(s[8..12]) == p.adv.chidHigh
            && s[12] % 8 == p.adv.priority && s[13] == p.adv.version && s[14] == p.adv.nextHeaderType
            && s[15] == p.adv.reserved && s[16..] == p.body
  {
    hide Value, Checksum;
    var a, s := Sealed(p.adv, p.body, on), Payload(p, on);
    assert s[0..4] == Word(a.ttl) && s[8..12] == Word(a.chidHigh);
    ValueOfWord(a.ttl);
    ValueOfWord(a.chidHigh);
    assert (a.priority + a.flags * 8) % 8 == a.priority;
  }

  /** A packet info with another flag, or a length above the limit, breaks the stream behind all that came
      before it, in any pieces; what follows is not looked at. */
  lemma BadInfoBreaks(ps: seq<Packet>, info: seq<Byte>, rest: seq<Byte>, chunks: seq<seq<Byte>>, on: bool)
    requires AllValid(ps) && |info| == 16 && Concat(chunks) == Frames(ps, on) + (info + rest)
    requires Value(info[0..4]) != 0x416e4574 || Value(info[12..16]) > 0x4000_0000
    ensures Receive(START, chunks, on) == (Stopped, Deliveries(ps, on))
  {
    hide Frames, Valid, Deliveries, Receive, Concat;
    var s := Open(None, info + rest);
    assert s.input[..16] == info;
    assert Drain(s, on) == (Stopped, []) by {
      assert Take(s, on) == (Stopped, []);
      StepsOnce(s, on);
    }
    Reads(ps, info + rest, chunks, on);
    assert Deliveries(ps, on) + [] == Deliveries(ps, on);
  }

  /** Any other packet info is taken: its payload is waited for. */
  lemma GoodInfoIsTaken(ps: seq<Packet>, info: seq<Byte>, chunks: seq<seq<Byte>>, on: bool)
    requires AllValid(ps) && |info| == 16 && Concat(chunks) == Frames(ps, on) + info
    requires Value(info[0..4]) == 0x416e4574 && 0 < Value(info[12..16]) <= 0x4000_0000
    ensures Receive(START, chunks, on) ==
            (Open(Some(Header(Value(info[4..8]), Value(info[8..12]), Value(info[12..16]))), []), Deliveries(ps, on))
  {
    hide Frames, Valid, Deliveries, Receive, Concat;
    var s := Open(None, info);
    assert s.input[..16] == info && s.input[16..] == [];
    var t := Open(Some(Header(Value(info[4..8]), Value(info[8..12]), Value(info[12..16]))), []);
    assert Drain(s, on) == (t, []) by {
      assert Take(s, on) == (t, []);
      StepsOnce(s, on);
    }
    Reads(ps, info, chunks, on);
    assert Deliveries(ps, on) + [] == Deliveries(ps, on);
  }

  lemma StepsOnce(s: State, on: bool)
    requires Advances(s) && Take(s, on).1 == [] && !Advances(Take(s, on).0)
    ensures Drain(s, on) == (Take(s, on).0, [])
  {
    var t := Take(s, on).0;
    var (u, os) := Drain(t, on);
    assert (u, os) == (t, []) && Take(s, on).1 + os == os;
  }

  lemma Reads(ps: seq<Packet>, rest: seq<Byte>, chunks: seq<seq<Byte>>, on: bool)
    requires AllValid(ps) && Concat(chunks) == Frames(ps, on) + rest
    ensures Receive(START, chunks, on) ==
            (Drain(Open(None, rest), on).0, Deliveries(ps, on) + Drain(Open(None, rest), on).1)
  {
    hide Frames, Valid, Deliveries, Receive, Concat, Take;
    assert Drain(START, on) == (START, []);
    FragmentationDoesNotMatter(START, chunks, on);
    FramesAreTaken(ps, rest, on);
    assert [] + Concat(chunks) == Concat(chunks);
  }
}

/** The same for direct frames. */
module DirectLayout {
  import opened DataBuffers
  import opened DirectFrames
  import AnetFrames
  import AnetLayout

  const START: State := Open(NoPacket, [])

  lemma FrameLayout(p: Packet)
    requires Valid(p)
    ensures var f := Frame(p);
            && |f| >= 44 && f[0..4] == [0x41, 0x6e, 0x45, 0x74] && Value(f[4..8]) == p.chid
            && Value(f[8..12]) == p.pcode && Value(f[12..16]) == |f| - 16
            && f[16..20] == [0x49, 0x4f, 0x52, 0x49] && Value(f[20..24]) == 1
            && Value(f[32..36]) == |p.msg| && Value(f[36..40]) == |p.payload| && Value(f[40..44]) == p.toReceive
            && f[44..] == p.msg + p.payload
  {
    hide InfoBytes, Value;
    var i, f := InfoOf(p), Frame(p);
    HeadLayout(i);
    DirectHeaderLayout(i);
    var b := InfoBytes(i);
    assert forall j, k :: 0 <= j <= k <= 44 ==> f[j..k] == b[j..k];
    assert f[44..] == p.msg + p.payload;
  }

  lemma DirectHeaderLayout(i: Info)
    requires ValidInfo(i)
    ensures var b := InfoBytes(i);
            && b[16..20] == [0x49, 0x4f, 0x52, 0x49] && Value(b[20..24]) == 1
            && Value(b[32..36]) == i.msgSize && Value(b[36..40]) == i.payloadSize && Value(b[40..44]) == i.toReceive
  {
    hide Value, AnetFrames.InfoBytes;
    var b := InfoBytes(i);
    assert b[16..20] == Word(DIRECT_FLAG) && b[20..24] == Word(DIRECT_VER);
    assert b[32..36] == Word(i.msgSize) && b[36..40] == Word(i.payloadSize) && b[40..44] == Word(i.toReceive);
    ValueOfWord(DIRECT_VER);
    ValueOfWord(i.msgSize);
    ValueOfWord(i.payloadSize);
    ValueOfWord(i.toReceive);
  }

  lemma HeadLayout(i: Info)
    requires ValidInfo(i)
    ensures var h := InfoBytes(i);
            && h[0..4] == [0x41, 0x6e, 0x45, 0x74] && Value(h[4..8]) == i.chid && Value(h[8..12]) == i.pcode
            && Value(h[12..16]) == i.dataLen
  {
    hide Value, AnetFrames.InfoBytes;
    var header := AnetFrames.Header(i.chid, i.pcode, i.dataLen);
    AnetLayout.InfoLayout(header);
    var h, a := InfoBytes(i), AnetFrames.InfoBytes(header);
    assert h[0..4] == a[0..4] && h[4..8] == a[4..8] && h[8..12] == a[8..12] && h[12..16] == a[12..16];
  }

  /** What the reader does not take: another flag or version, a length above the limit. */
  lemma BadInfoBreaks(ps: seq<Packet>, info: seq<Byte>, rest: seq<Byte>, chunks: seq<seq<Byte>>, rooms: map<nat, nat>)
    requires AllFit(ps, rooms) && |info| == 44 && Concat(chunks) == Frames(ps) + (info + rest)
    requires Value(info[0..4]) != 0x416e4574 || Value(info[12..16]) > 0x4000_0000 ||
             Value(info[16..20]) != 0x494f5249 || Value(info[20..24]) != 1
    ensures Receive(START, chunks, rooms) == (Stopped, ps)
  {
    hide Frames, AllFit, Receive, Concat;
    var s := Open(NoPacket, info + rest);
    assert s.input[..44] == info;
    assert info[..16][0..4] == info[0..4] && info[..16][12..16] == info[12..16];
    assert Drain(s, rooms) == (Stopped, []) by {
      assert Take(s, rooms) == (Stopped, []);
      StepsOnce(s, rooms);
    }
    Reads(ps, info + rest, chunks, rooms);
    assert ps + [] == ps;
  }

  /** A payload for which nobody has provided enough memory breaks the stream too, as soon as its message is
      there. */
  lemma UnplacedPayloadBreaks(ps: seq<Packet>, p: Packet, rest: seq<Byte>, chunks: seq<seq<Byte>>, rooms: map<nat, nat>)
    requires AllFit(ps, rooms) && Valid(p) && |p.payload| > 0 && (p.chid !in rooms || rooms[p.chid] < |p.payload|)
    requires Concat(chunks) == Frames(ps) + (Frame(p) + rest)
    ensures Receive(START, chunks, rooms) == (Stopped, ps)
  {
    hide Frames, AllFit, Receive, Concat, Frame;
    InfoIsTaken(p, rest, rooms);
    var t := Open(NeedMessage(InfoOf(p)), p.msg + (p.payload + rest));
    assert Take(t, rooms) == (Stopped, []);
    StepsOnce(t, rooms);
    Reads(ps, Frame(p) + rest, chunks, rooms);
    assert ps + [] == ps;
  }

  lemma StepsOnce(s: State, rooms: map<nat, nat>)
    requires Advances(s) && Take(s, rooms).1 == [] && !Advances(Take(s, rooms).0)
    ensures Drain(s, rooms) == (Take(s, rooms).0, [])
  {
    var t := Take(s, rooms).0;
    var (u, os) := Drain(t, rooms);
    assert (u, os) == (t, []) && Take(s, rooms).1 + os == os;
  }

  lemma Reads(ps: seq<Packet>, rest: seq<Byte>, chunks: seq<seq<Byte>>, rooms: map<nat, nat>)
    requires AllFit(ps, rooms) && Concat(chunks) == Frames(ps) + rest
    ensures Receive(START, chunks, rooms) ==
            (Drain(Open(NoPacket, rest), rooms).0, ps + Drain(Open(NoPacket, rest), rooms).1)
  {
    hide Frames, Receive, Concat, Take;
    assert Drain(START, rooms) == (START, []);
    FragmentationDoesNotMatter(START, chunks, rooms);
    FramesAreTaken(ps, rest, rooms);
    assert [] + Concat(chunks) == Concat(chunks);
  }
}
