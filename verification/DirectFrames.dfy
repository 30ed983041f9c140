/** Direct frames: packet info, a 28-byte direct header, the message, and a payload that the receiver
    stores straight into memory its caller has provided. The reader is resumable in the middle of a
    payload as well, and takes what has come so far. */
module DirectFrames {
  import opened DataBuffers
  import AnetFrames

  const DIRECT_FLAG: nat := 0x494F5249
  const DIRECT_VER: nat := 1
  const DIRECT_INFO_LEN: nat := 44
  const THRESHOLD: nat := 8192

  datatype Packet = Packet(chid: nat, pcode: nat, toReceive: nat, msg: seq<Byte>, payload: seq<Byte>)

  predicate Valid(p: Packet) {
    && AnetFrames.IsWord(p.chid) && AnetFrames.IsWord(p.pcode) && AnetFrames.IsWord(p.toReceive)
    && 28 + |p.msg| + |p.payload| <= AnetFrames.MAX_PACKAGE_SIZE
  }

  /** The packet info and the direct header. */
  datatype Info = Info(chid: nat, pcode: nat, dataLen: nat, msgSize: nat, payloadSize: nat, toReceive: nat)

  predicate ValidInfo(i: Info) {
    && AnetFrames.IsWord(i.chid) && AnetFrames.IsWord(i.pcode) && i.dataLen <= AnetFrames.MAX_PACKAGE_SIZE
    && AnetFrames.IsWord(i.msgSize) && AnetFrames.IsWord(i.payloadSize) && AnetFrames.IsWord(i.toReceive)
  }

  function InfoOf(p: Packet): Info {
    Info(p.chid, p.pcode, 28 + |p.msg| + |p.payload|, |p.msg|, |p.payload|, p.toReceive)
  }

  function InfoBytes(i: Info): (s: seq<Byte>)
    requires ValidInfo(i)
    ensures |s| == DIRECT_INFO_LEN
  {
    AnetFrames.InfoBytes(AnetFrames.Header(i.chid, i.pcode, i.dataLen))
    + Word(DIRECT_FLAG) + Word(DIRECT_VER) + Word(0) + Word(0) + Word(i.msgSize) + Word(i.payloadSize)
    + Word(i.toReceive)
  }

  function Frame(p: Packet): seq<Byte>
    requires Valid(p)
  {
    InfoBytes(InfoOf(p)) + p.msg + p.payload
  }

  // ----- The receiver ----------------------------------------------------------------------------

  /** What has been read of the current packet. */
  datatype Stage =
    | NoPacket
    | NeedMessage(info: Info)
    | NeedPayload(info: Info, msg: seq<Byte>, filled: seq<Byte>)

  /** Stopped: the stream is broken (a bad flag or length, or a payload nobody has provided memory
      for), or announces a negative message size. */
  datatype State = Open(stage: Stage, input: seq<Byte>) | Stopped

  function ReadInfo(s: seq<Byte>): (i: Info)
    requires |s| == DIRECT_INFO_LEN
  {
    var h := AnetFrames.ReadInfo(s[..16]);
    Info(h.chid, h.pcode, h.dataLen, Value(s[32..36]), Value(s[36..40]), Value(s[40..44]))
  }

  predicate GoodInfo(s: seq<Byte>)
    requires |s| == DIRECT_INFO_LEN
  {
    AnetFrames.GoodInfo(s[..16]) && Value(s[16..20]) == DIRECT_FLAG && Value(s[20..24]) == DIRECT_VER
  }

  /** The memory provided for the payload of each channel: rooms maps channel ids to its length. */
  predicate PayloadFits(i: Info, rooms: map<nat, nat>) {
    i.payloadSize == 0 || (i.payloadSize < 0x8000_0000 && i.chid in rooms && i.payloadSize <= rooms[i.chid])
  }

  function Needs(stage: Stage): nat {
    match stage
    case NoPacket => DIRECT_INFO_LEN
    case NeedMessage(i) => i.msgSize
    case NeedPayload(i, _, filled) => if |filled| < i.payloadSize then 1 else 0
  }

  predicate Advances(s: State) {
    s.Open? && |s.input| >= Needs(s.stage)
  }

  function Measure(s: State): nat {
    if s.Stopped? then 0
    else 3 * |s.input| + match s.stage case NoPacket => 0 case NeedMessage(_) => 2 case NeedPayload(_, _, _) => 1
  }

  function Take(s: State, rooms: map<nat, nat>): (r: (State, seq<Packet>))
    requires Advances(s)
    ensures Measure(r.0) < Measure(s)
  {
    match s.stage
    case NoPacket =>
      var info := s.input[..DIRECT_INFO_LEN];
      if GoodInfo(info) && ReadInfo(info).msgSize < 0x8000_0000
      then (Open(NeedMessage(ReadInfo(info)), s.input[DIRECT_INFO_LEN..]), [])
      else (Stopped, [])
    case NeedMessage(i) =>
      if PayloadFits(i, rooms)
      then (Open(NeedPayload(i, s.input[..i.msgSize], []), s.input[i.msgSize..]), [])
      else (Stopped, [])
    case NeedPayload(i, msg, filled) =>
      if |filled| >= i.payloadSize then (Open(NoPacket, s.input), [Packet(i.chid, i.pcode, i.toReceive, msg, filled)])
      else (Fill(i, msg, filled, s.input), [])
  }

  /** The part of readPayload that takes bytes from the buffer. */
  function Fill(i: Info, msg: seq<Byte>, filled: seq<Byte>, input: seq<Byte>): State
    requires |filled| <= i.payloadSize
  {
    var n := if |input| < i.payloadSize - |filled| then |input| else i.payloadSize - |filled|;
    Open(NeedPayload(i, msg, filled + input[..n]), input[n..])
  }

  function Drain(s: State, rooms: map<nat, nat>): (State, seq<Packet>)
    decreases Measure(s)
  {
    if !Advances(s) then (s, [])
    else
      var (t, o) := Take(s, rooms);
      var (u, os) := Drain(t, rooms);
      (u, o + os)
  }

  function Feed(s: State, chunk: seq<Byte>): State {
    if s.Stopped? then s else Open(s.stage, s.input + chunk)
  }

  function Receive(s: State, chunks: seq<seq<Byte>>, rooms: map<nat, nat>): (State, seq<Packet>)
    decreases |chunks|
  {
    if |chunks| == 0 then (s, [])
    else
      var (t, o) := Drain(Feed(s, chunks[0]), rooms);
      var (u, os) := Receive(t, chunks[1..], rooms);
      (u, o + os)
  }

  // ----- Fragmentation ---------------------------------------------------------------------------

  /** Bytes that come later may as well have been there from the start. The payload stage takes
      what there is, so that it may need more steps for the same result. */
  lemma {:induction false} DrainLater(s: State, b: seq<Byte>, rooms: map<nat, nat>)
    ensures var (t, o) := Drain(s, rooms);
            var (u, os) := Drain(Feed(t, b), rooms);
            Drain(Feed(s, b), rooms) == (u, o + os)
    decreases Measure(s)
  {
    hide Take, Feed, Advances;
    if !Advances(s) {
      assert Drain(s, rooms) == (s, []);
      assert [] + Drain(Feed(s, b), rooms).1 == Drain(Feed(s, b), rooms).1;
    } else {
      var (t, o) := Take(s, rooms);
      DrainLater(t, b, rooms);
      TakeLater(s, b, rooms);
      var (u, os) := Drain(t, rooms);
      var (w, rest) := Drain(Feed(u, b), rooms);
      assert o + (os + rest) == (o + os) + rest;
    }
  }

  /** One step now and the rest later, or all of it later. */
  lemma TakeLater(s: State, b: seq<Byte>, rooms: map<nat, nat>)
    requires Advances(s)
    ensures var (t, o) := Take(s, rooms);
            var (u, os) := Drain(Feed(t, b), rooms);
            Drain(Feed(s, b), rooms) == (u, o + os)
  {
    if s.stage.NeedPayload? && |s.stage.filled| < s.stage.info.payloadSize {
      PayloadLater(s, b, rooms);
      NothingFirst(Drain(Feed(s, b), rooms).1);
    } else {
      hide GoodInfo, ReadInfo, PayloadFits, Drain;
      var n := if s.stage.NeedPayload? then 0 else Needs(s.stage);
      assert (s.input + b)[..n] == s.input[..n] && (s.input + b)[n..] == s.input[n..] + b;
      assert Take(Feed(s, b), rooms) == (Feed(Take(s, rooms).0, b), Take(s, rooms).1);
      DrainStep(Feed(s, b), rooms);
    }
  }

  lemma DrainStep(s: State, rooms: map<nat, nat>)
    requires Advances(s)
    ensures Drain(s, rooms) == (Drain(Take(s, rooms).0, rooms).0, Take(s, rooms).1 + Drain(Take(s, rooms).0, rooms).1)
  {
  }

  lemma PayloadLater(s: State, b: seq<Byte>, rooms: map<nat, nat>)
    requires Advances(s) && s.stage.NeedPayload? && |s.stage.filled| < s.stage.info.payloadSize
    ensures Drain(Feed(s, b), rooms) == Drain(Feed(Take(s, rooms).0, b), rooms) && Take(s, rooms).1 == []
  {
    hide Drain, Fill;
    var NeedPayload(i, msg, filled) := s.stage;
    var a := s.input;
    DrainStep(Feed(s, b), rooms);
    NothingFirst(Drain(Fill(i, msg, filled, a + b), rooms).1);
    assert Drain(Feed(s, b), rooms) == Drain(Fill(i, msg, filled, a + b), rooms);
    if |a| >= i.payloadSize - |filled| {
      FillAll(i, msg, filled, a, b);
    } else if |b| == 0 {
      assert a + b == a;
      FillPart(i, msg, filled, a, b);
    } else {
      FillPart(i, msg, filled, a, b);
      var t := Open(NeedPayload(i, msg, filled + a), b);
      DrainStep(t, rooms);
      NothingFirst(Drain(Fill(i, msg, filled + a, b), rooms).1);
    }
  }

  lemma NothingFirst(os: seq<Packet>)
    ensures [] + os == os
  {
  }

  lemma FillAll(i: Info, msg: seq<Byte>, filled: seq<Byte>, a: seq<Byte>, b: seq<Byte>)
    requires |filled| <= i.payloadSize && |a| >= i.payloadSize - |filled|
    ensures Fill(i, msg, filled, a + b) == Feed(Fill(i, msg, filled, a), b)
  {
    var left := i.payloadSize - |filled|;
    assert (a + b)[..left] == a[..left] && (a + b)[left..] == a[left..] + b;
  }

  lemma FillPart(i: Info, msg: seq<Byte>, filled: seq<Byte>, a: seq<Byte>, b: seq<Byte>)
    requires |a| < i.payloadSize - |filled|
    ensures Feed(Fill(i, msg, filled, a), b) == Open(NeedPayload(i, msg, filled + a), b)
    ensures Fill(i, msg, filled, a + b) == Fill(i, msg, filled + a, b)
  {
    var left := i.payloadSize - |filled|;
    var n := if |b| < left - |a| then |b| else left - |a|;
    assert a[..|a|] == a && a[|a|..] + b == b;
    assert (a + b)[..|a| + n] == a + b[..n] && (a + b)[|a| + n..] == b[n..];
    assert filled + (a + b[..n]) == filled + a + b[..n];
  }

  lemma {:induction false} DrainIsIdempotent(s: State, rooms: map<nat, nat>)
    ensures Drain(Drain(s, rooms).0, rooms) == (Drain(s, rooms).0, [])
    decreases Measure(s)
  {
    hide Take, Advances;
    if Advances(s) {
      DrainIsIdempotent(Take(s, rooms).0, rooms);
    }
  }

  /** For every stream the packets read do not depend on how it was cut. */
  lemma {:induction false} FragmentationDoesNotMatter(s: State, chunks: seq<seq<Byte>>, rooms: map<nat, nat>)
    requires Drain(s, rooms) == (s, [])
    ensures Receive(s, chunks, rooms) == Drain(Feed(s, Concat(chunks)), rooms)
    decreases |chunks|
  {
    hide Drain;
    var all := Concat(chunks);
    if |chunks| == 0 {
      assert s.Open? ==> s.input + [] == s.input;
    } else {
      var rest := Concat(chunks[1..]);
      var t := Drain(Feed(s, chunks[0]), rooms).0;
      DrainIsIdempotent(Feed(s, chunks[0]), rooms);
      FragmentationDoesNotMatter(t, chunks[1..], rooms);
      DrainLater(Feed(s, chunks[0]), rest, rooms);
      assert s.Open? ==> s.input + (chunks[0] + rest) == s.input + chunks[0] + rest;
    }
  }

  // ----- Round trip ------------------------------------------------------------------------------

  lemma InfoRoundTrip(i: Info)
    requires ValidInfo(i)
    ensures GoodInfo(InfoBytes(i)) && ReadInfo(InfoBytes(i)) == i
  {
    hide Word, Value, AnetFrames.InfoBytes, AnetFrames.ReadInfo, AnetFrames.GoodInfo;
    var h := AnetFrames.Header(i.chid, i.pcode, i.dataLen);
    var s := InfoBytes(i);
    AnetFrames.InfoRoundTrip(h);
    assert s[..16] == AnetFrames.InfoBytes(h) && s[16..20] == Word(DIRECT_FLAG) && s[20..24] == Word(DIRECT_VER);
    assert s[32..36] == Word(i.msgSize) && s[36..40] == Word(i.payloadSize) && s[40..44] == Word(i.toReceive);
    ValueOfWord(DIRECT_FLAG);
    ValueOfWord(DIRECT_VER);
    ValueOfWord(i.msgSize);
    ValueOfWord(i.payloadSize);
    ValueOfWord(i.toReceive);
  }

  lemma InfoIsTaken(p: Packet, rest: seq<Byte>, rooms: map<nat, nat>)
    requires Valid(p)
    ensures Drain(Open(NoPacket, Frame(p) + rest), rooms) ==
            Drain(Open(NeedMessage(InfoOf(p)), p.msg + (p.payload + rest)), rooms)
  {
    hide Drain, InfoBytes, GoodInfo, ReadInfo;
    var s := Open(NoPacket, Frame(p) + rest);
    assert s.input[..DIRECT_INFO_LEN] == InfoBytes(InfoOf(p));
    assert s.input[DIRECT_INFO_LEN..] == p.msg + (p.payload + rest);
    InfoRoundTrip(InfoOf(p));
    DrainStep(s, rooms);
    NothingFirst(Drain(Take(s, rooms).0, rooms).1);
  }

  lemma MessageIsTaken(p: Packet, rest: seq<Byte>, rooms: map<nat, nat>)
    requires Valid(p) && PayloadFits(InfoOf(p), rooms)
    ensures Drain(Open(NeedMessage(InfoOf(p)), p.msg + (p.payload + rest)), rooms) ==
            Drain(Open(NeedPayload(InfoOf(p), p.msg, []), p.payload + rest), rooms)
  {
    hide Drain, PayloadFits;
    var s := Open(NeedMessage(InfoOf(p)), p.msg + (p.payload + rest));
    assert s.input[..|p.msg|] == p.msg && s.input[|p.msg|..] == p.payload + rest;
    DrainStep(s, rooms);
    NothingFirst(Drain(Take(s, rooms).0, rooms).1);
  }

  lemma PayloadIsTaken(p: Packet, rest: seq<Byte>, rooms: map<nat, nat>)
    ensures Drain(Open(NeedPayload(InfoOf(p), p.msg, []), p.payload + rest), rooms) ==
            Drain(Open(NeedPayload(InfoOf(p), p.msg, p.payload), rest), rooms)
  {
    hide Drain;
    var s := Open(NeedPayload(InfoOf(p), p.msg, []), p.payload + rest);
    if |p.payload| == 0 {
      assert p.payload + rest == rest;
    } else {
      assert s.input[..|p.payload|] == p.payload && s.input[|p.payload|..] == rest;
      assert [] + p.payload == p.payload;
      DrainStep(s, rooms);
      NothingFirst(Drain(Take(s, rooms).0, rooms).1);
    }
  }

  /** A frame in front of the buffer is taken whole: its message, and the payload into its place. */
  lemma FrameIsTaken(p: Packet, rest: seq<Byte>, rooms: map<nat, nat>)
    requires Valid(p) && PayloadFits(InfoOf(p), rooms)
    ensures var (u, os) := Drain(Open(NoPacket, rest), rooms);
            Drain(Open(NoPacket, Frame(p) + rest), rooms) == (u, [p] + os)
  {
    hide Drain, Frame, PayloadFits;
    InfoIsTaken(p, rest, rooms);
    MessageIsTaken(p, rest, rooms);
    PayloadIsTaken(p, rest, rooms);
    DrainStep(Open(NeedPayload(InfoOf(p), p.msg, p.payload), rest), rooms);
  }

  predicate AllFit(ps: seq<Packet>, rooms: map<nat, nat>) {
    forall i :: 0 <= i < |ps| ==> Valid(ps[i]) && PayloadFits(InfoOf(ps[i]), rooms)
  }

  predicate AllValid(ps: seq<Packet>) {
    forall i :: 0 <= i < |ps| ==> Valid(ps[i])
  }

  function Frames(ps: seq<Packet>): seq<Byte>
    requires AllValid(ps)
  {
    if |ps| == 0 then [] else Frame(ps[0]) + Frames(ps[1..])
  }

  lemma {:induction false} FramesAreTaken(ps: seq<Packet>, rest: seq<Byte>, rooms: map<nat, nat>)
    requires AllFit(ps, rooms)
    ensures var (u, os) := Drain(Open(NoPacket, rest), rooms);
            Drain(Open(NoPacket, Frames(ps) + rest), rooms) == (u, ps + os)
    decreases |ps|
  {
    hide Drain, Frame, Valid, PayloadFits;
    var (u, os) := Drain(Open(NoPacket, rest), rooms);
    if |ps| == 0 {
      assert Frames(ps) + rest == rest && ps + os == os;
    } else {
      FramesAreTaken(ps[1..], rest, rooms);
      FrameIsTaken(ps[0], Frames(ps[1..]) + rest, rooms);
      assert Frames(ps) + rest == Frame(ps[0]) + (Frames(ps[1..]) + rest);
      assert [ps[0]] + (ps[1..] + os) == ps + os;
    }
  }

  /** Any packets whose payloads have a place, framed, cut into any pieces and read, come out as they
      were sent: each message, and each payload in its place. */
  lemma FramesRoundTrip(ps: seq<Packet>, chunks: seq<seq<Byte>>, rooms: map<nat, nat>)
    requires AllFit(ps, rooms) && Concat(chunks) == Frames(ps)
    ensures Receive(Open(NoPacket, []), chunks, rooms) == (Open(NoPacket, []), ps)
  {
    hide Frames, Valid, Take;
    assert Drain(Open(NoPacket, []), rooms) == (Open(NoPacket, []), []);
    FragmentationDoesNotMatter(Open(NoPacket, []), chunks, rooms);
    FramesAreTaken(ps, [], rooms);
    assert [] + Frames(ps) == Frames(ps) && Frames(ps) + [] == Frames(ps) && ps + [] == ps;
  }
}
