/** Bytes as numbers and as bits. */
module ByteBits {

  /** Four bits. */
  function Nibble(n: int): bv8 {
    if n == 0 then 0
    else if n == 1 then 1
    else if n == 2 then 2
    else if n == 3 then 3
    else if n == 4 then 4
    else if n == 5 then 5
    else if n == 6 then 6
    else if n == 7 then 7
    else if n == 8 then 8
    else if n == 9 then 9
    else if n == 10 then 10
    else if n == 11 then 11
    else if n == 12 then 12
    else if n == 13 then 13
    else if n == 14 then 14
    else 15
  }

  function Bits(b: int): bv8
    requires 0 <= b < 256
  {
    (Nibble(b / 16) << 4) | Nibble(b % 16)
  }

  function NibbleValue(x: bv8): (n: int)
    ensures 0 <= n < 16
  {
    if x == 0 then 0
    else if x == 1 then 1
    else if x == 2 then 2
    else if x == 3 then 3
    else if x == 4 then 4
    else if x == 5 then 5
    else if x == 6 then 6
    else if x == 7 then 7
    else if x == 8 then 8
    else if x == 9 then 9
    else if x == 10 then 10
    else if x == 11 then 11
    else if x == 12 then 12
    else if x == 13 then 13
    else if x == 14 then 14
    else 15
  }

  function FromBits(x: bv8): (b: int)
    ensures 0 <= b < 256
  {
    NibbleValue(x >> 4) * 16 + NibbleValue(x & 15)
  }

  lemma NibbleInjective(m: int, n: int)
    requires 0 <= m < 16 && 0 <= n < 16
    ensures Nibble(m) <= 15 && (Nibble(m) == Nibble(n) ==> m == n)
  {
  }

  lemma HalvesInjective(x: bv8, y: bv8, u: bv8, v: bv8)
    requires x <= 15 && y <= 15 && u <= 15 && v <= 15 && (x << 4) | y == (u << 4) | v
    ensures x == u && y == v
  {
  }

  lemma BitsInjective(a: int, b: int)
    requires 0 <= a < 256 && 0 <= b < 256 && Bits(a) == Bits(b)
    ensures a == b
  {
    hide Nibble;
    NibbleInjective(a / 16, b / 16);
    NibbleInjective(a % 16, b % 16);
    NibbleInjective(b / 16, a / 16);
    NibbleInjective(b % 16, a % 16);
    HalvesInjective(Nibble(a / 16), Nibble(a % 16), Nibble(b / 16), Nibble(b % 16));
  }

  lemma NibbleRoundTrip(x: bv8)
    requires x <= 15
    ensures Nibble(NibbleValue(x)) == x
  {
  }

  lemma Halves(x: bv8)
    ensures x >> 4 <= 15 && x & 15 <= 15 && ((x >> 4) << 4) | (x & 15) == x
  {
  }

  lemma BitsOfFromBits(x: bv8)
    ensures Bits(FromBits(x)) == x
  {
    hide Nibble, NibbleValue;
    Halves(x);
    NibbleRoundTrip(x >> 4);
    NibbleRoundTrip(x & 15);
    var h, l := NibbleValue(x >> 4), NibbleValue(x & 15);
    assert (h * 16 + l) / 16 == h && (h * 16 + l) % 16 == l;
  }

  lemma FromBitsOfBits(b: int)
    requires 0 <= b < 256
    ensures FromBits(Bits(b)) == b
  {
    hide Bits, FromBits;
    BitsOfFromBits(Bits(b));
    BitsInjective(FromBits(Bits(b)), b);
  }

  /** The four bytes of a word, the highest first. */
  function Part0(c: bv32): bv8 { ((c >> 24) & 0xff) as bv8 }
  function Part1(c: bv32): bv8 { ((c >> 16) & 0xff) as bv8 }
  function Part2(c: bv32): bv8 { ((c >> 8) & 0xff) as bv8 }
  function Part3(c: bv32): bv8 { (c & 0xff) as bv8 }

  function Join(a: bv8, b: bv8, c: bv8, d: bv8): bv32 {
    ((a as bv32) << 24) | ((b as bv32) << 16) | ((c as bv32) << 8) | (d as bv32)
  }

  lemma JoinOfParts(c: bv32)
    ensures Join(Part0(c), Part1(c), Part2(c), Part3(c)) == c
  {
  }

  lemma PartsOfJoin(a: bv8, b: bv8, c: bv8, d: bv8)
    ensures var w := Join(a, b, c, d); Part0(w) == a && Part1(w) == b && Part2(w) == c && Part3(w) == d
  {
  }
}

/** ANET frames: a 16-byte packet info, and for advance packets a 16-byte extended header whose
    checksum covers header and body. The reader is resumable: it keeps the packet info it has
    consumed and waits until the whole payload is there. */
module AnetFrames {
  import opened DataBuffers
  import ByteBits
  import Crc32c

  const ANET_PACKET_FLAG: nat := 0x416e4574
  const PACKET_INFO_LEN: nat := 16
  const ADVANCE_HEADER_LEN: nat := 16
  const MAX_PACKAGE_SIZE: nat := 0x4000_0000

  datatype Header = Header(chid: nat, pcode: nat, dataLen: nat)

  /** The fields of the extended header. The low three bits of its flags byte are the priority. */
  datatype Advance = Advance(ttl: nat, checksum: nat, chidHigh: nat, priority: nat, flags: nat, version: Byte,
                             nextHeaderType: Byte, reserved: Byte)

  datatype Packet =
    | Plain(chid: nat, pcode: nat, body: seq<Byte>)
    | Advanced(chid: nat, pcode: nat, adv: Advance, body: seq<Byte>)

  predicate IsWord(n: nat) {
    n < 0x1_0000_0000
  }

  predicate ValidAdvance(a: Advance) {
    IsWord(a.ttl) && IsWord(a.checksum) && IsWord(a.chidHigh) && a.priority < 8 && a.flags < 32
  }

  /** What can be sent: the bit that marks advance packets is free, and the frame is not too long. */
  predicate Valid(p: Packet) {
    && IsWord(p.chid) && IsWord(p.pcode) && !IsMarked(p.pcode)
    && |p.body| + ADVANCE_HEADER_LEN <= MAX_PACKAGE_SIZE
    && (p.Advanced? ==> ValidAdvance(p.adv))
  }

  // ----- Fields ----------------------------------------------------------------------------------

  /** Bit 15 of the packet code marks advance packets. */
  predicate IsMarked(pcode: nat) {
    pcode / 0x8000 % 2 == 1
  }

  function Mark(pcode: nat): nat {
    if IsMarked(pcode) then pcode else pcode + 0x8000
  }

  function Unmark(pcode: nat): nat {
    if IsMarked(pcode) && pcode >= 0x8000 then pcode - 0x8000 else pcode
  }

  lemma MarkRoundTrip(pcode: nat)
    requires IsWord(pcode) && !IsMarked(pcode)
    ensures IsMarked(Mark(pcode)) && IsWord(Mark(pcode)) && Unmark(Mark(pcode)) == pcode
  {
    var q := pcode / 0x8000;
    assert (pcode + 0x8000) / 0x8000 == q + 1;
    assert q % 2 == 0;
    assert q <= 0x1_fffe;
  }

  /** A channel id is sent in two halves. */
  function LowHalf(id: nat): nat {
    id % 0x1_0000_0000
  }

  function HighHalf(id: nat): nat {
    id / 0x1_0000_0000
  }

  function JoinHalves(low: nat, high: nat): nat {
    low + high * 0x1_0000_0000
  }

  /** All ids of up to 60 bits fit, and come back whole. */
  lemma ChannelIdRoundTrip(id: nat)
    requires id < 0x1000_0000_0000_0000
    ensures IsWord(LowHalf(id)) && IsWord(HighHalf(id)) && JoinHalves(LowHalf(id), HighHalf(id)) == id
  {
  }

  /** The two checksum bits of the five packet flags. */
  function ChecksumMethod(flags: nat): nat {
    flags / 8 % 4 * 8
  }

  function SetChecksumMethod(flags: nat, on: bool): nat {
    flags % 8 + if on then 8 else 0
  }

  function FlagsByte(priority: nat, flags: nat): Byte
    requires priority < 8 && flags < 32
  {
    priority + flags * 8
  }

  // ----- The sender ------------------------------------------------------------------------------

  function AdvanceBytes(a: Advance): (s: seq<Byte>)
    requires ValidAdvance(a)
    ensures |s| == ADVANCE_HEADER_LEN
  {
    Word(a.ttl) + Word(a.checksum) + Word(a.chidHigh)
    + [FlagsByte(a.priority, a.flags), a.version, a.nextHeaderType, a.reserved]
  }

  function ToBits(s: seq<Byte>): (r: seq<bv8>)
    ensures |r| == |s|
  {
    seq(|s|, i requires 0 <= i < |s| => ByteBits.Bits(s[i]))
  }

  /** A register of the checksum as four bytes, the highest first, and back. */
  function WordBytes(c: bv32): (s: seq<Byte>)
    ensures |s| == 4
  {
    [ByteBits.FromBits(ByteBits.Part0(c)), ByteBits.FromBits(ByteBits.Part1(c)),
     ByteBits.FromBits(ByteBits.Part2(c)), ByteBits.FromBits(ByteBits.Part3(c))]
  }

  function WordBits(s: seq<Byte>): bv32
    requires |s| == 4
  {
    ByteBits.Join(ByteBits.Bits(s[0]), ByteBits.Bits(s[1]), ByteBits.Bits(s[2]), ByteBits.Bits(s[3]))
  }

  lemma BitsOfWordBytes(c: bv32)
    ensures WordBits(WordBytes(c)) == c
  {
    hide ByteBits.Bits, ByteBits.FromBits, ByteBits.Join;
    ByteBits.BitsOfFromBits(ByteBits.Part0(c));
    ByteBits.BitsOfFromBits(ByteBits.Part1(c));
    ByteBits.BitsOfFromBits(ByteBits.Part2(c));
    ByteBits.BitsOfFromBits(ByteBits.Part3(c));
    ByteBits.JoinOfParts(c);
  }

  lemma BytesOfWordBits(s: seq<Byte>)
    requires |s| == 4
    ensures WordBytes(WordBits(s)) == s
  {
    hide ByteBits.Bits, ByteBits.FromBits, ByteBits.Join, ByteBits.Part0, ByteBits.Part1, ByteBits.Part2,
        ByteBits.Part3;
    ByteBits.PartsOfJoin(ByteBits.Bits(s[0]), ByteBits.Bits(s[1]), ByteBits.Bits(s[2]), ByteBits.Bits(s[3]));
    ByteBits.FromBitsOfBits(s[0]);
    ByteBits.FromBitsOfBits(s[1]);
    ByteBits.FromBitsOfBits(s[2]);
    ByteBits.FromBitsOfBits(s[3]);
  }

  /** A stored word reads as the number of a register if and only if it holds the register's bits. */
  lemma StoredIsRegister(s: seq<Byte>, c: bv32)
    requires |s| == 4
    ensures Value(s) == Value(WordBytes(c)) <==> WordBits(s) == c
  {
    hide Value, Word, WordBits, WordBytes;
    BitsOfWordBytes(c);
    BytesOfWordBits(s);
    WordOfValue(s);
    WordOfValue(WordBytes(c));
  }

  /** The checksum as it is stored. */
  function Checksum(s: seq<Byte>): (n: nat)
    ensures IsWord(n)
  {
    Value(WordBytes(Crc32c.Serial(0, ToBits(s))))
  }

  /** The extended header as encode leaves it. */
  function Sealed(a: Advance, body: seq<Byte>, on: bool): (r: Advance)
    requires ValidAdvance(a)
    ensures ValidAdvance(r)
  {
    var cleared := a.(checksum := 0, flags := SetChecksumMethod(a.flags, on));
    if on then cleared.(checksum := Checksum(AdvanceBytes(cleared) + body)) else cleared
  }

  function Payload(p: Packet, on: bool): seq<Byte>
    requires Valid(p)
  {
    if p.Plain? then p.body else AdvanceBytes(Sealed(p.adv, p.body, on)) + p.body
  }

  function HeaderOf(p: Packet, on: bool): (h: Header)
    requires Valid(p)
    ensures IsWord(h.chid) && IsWord(h.pcode) && h.dataLen <= MAX_PACKAGE_SIZE
  {
    MarkRoundTrip(p.pcode);
    Header(p.chid, if p.Plain? then p.pcode else Mark(p.pcode), |Payload(p, on)|)
  }

  function InfoBytes(h: Header): (s: seq<Byte>)
    requires IsWord(h.chid) && IsWord(h.pcode) && IsWord(h.dataLen)
    ensures |s| == PACKET_INFO_LEN
  {
    Word(ANET_PACKET_FLAG) + Word(h.chid) + Word(h.pcode) + Word(h.dataLen)
  }

  function Frame(p: Packet, on: bool): seq<Byte>
    requires Valid(p)
  {
    InfoBytes(HeaderOf(p, on)) + Payload(p, on)
  }

  /** What the receiver of a frame gets: the packet as sent, with its seal. */
  function Delivered(p: Packet, on: bool): Packet
    requires Valid(p)
  {
    if p.Plain? then p else Advanced(p.chid, Mark(p.pcode), Sealed(p.adv, p.body, on), p.body)
  }

  // ----- The receiver ----------------------------------------------------------------------------

  /** Undefined: a payload too short for the extended header its packet code announces. */
  datatype Outcome = Got(packet: Packet) | BadPacket(header: Header) | Undefined

  function ReadAdvance(s: seq<Byte>): (a: Advance)
    requires |s| == ADVANCE_HEADER_LEN
    ensures ValidAdvance(a)
  {
    var f: int := s[12];
    Advance(Value(s[0..4]), Value(s[4..8]), Value(s[8..12]), f % 8, f / 8, s[13], s[14], s[15])
  }

  /** The payload as the checksum saw it, with its own field cleared. */
  function Cleared(s: seq<Byte>): (r: seq<Byte>)
    requires |s| >= ADVANCE_HEADER_LEN
    ensures |r| == |s|
  {
    s[..4] + [0, 0, 0, 0] + s[8..]
  }

  /** The checksum test of AdvancePacket::decode; an unknown method is compared with zero. */
  predicate ChecksumHolds(s: seq<Byte>, on: bool)
    requires |s| >= ADVANCE_HEADER_LEN
  {
    var f: int := s[12];
    var m := ChecksumMethod(f / 8);
    !on || m == 0 || Value(s[4..8]) == if m == 8 then Checksum(Cleared(s)) else 0
  }

  function Decode(h: Header, s: seq<Byte>, on: bool): Outcome
    requires |s| == h.dataLen
  {
    if !IsMarked(h.pcode) then Got(Plain(h.chid, h.pcode, s))
    else if |s| < ADVANCE_HEADER_LEN then Undefined
    else if !ChecksumHolds(s, on) then BadPacket(h)
    else Got(Advanced(h.chid, h.pcode, ReadAdvance(s[..ADVANCE_HEADER_LEN]), s[ADVANCE_HEADER_LEN..]))
  }

  /** Open: packet info read but not yet its payload, and the bytes in the buffer.
      Stopped: the stream was broken, or left the behaviour described here. */
  datatype State = Open(pending: Option<Header>, input: seq<Byte>) | Stopped

  function ReadInfo(s: seq<Byte>): (h: Header)
    requires |s| == PACKET_INFO_LEN
    ensures IsWord(h.chid) && IsWord(h.pcode) && IsWord(h.dataLen)
  {
    Header(Value(s[4..8]), Value(s[8..12]), Value(s[12..16]))
  }

  predicate GoodInfo(s: seq<Byte>)
    requires |s| == PACKET_INFO_LEN
  {
    Value(s[0..4]) == ANET_PACKET_FLAG && ReadInfo(s).dataLen <= MAX_PACKAGE_SIZE
  }

  function Measure(s: State): nat {
    if s.Stopped? then 0 else 2 * |s.input| + if s.pending.Some? then 1 else 0
  }

  /** One call of processData that makes progress, if any can be made. */
  function Advances(s: State): bool {
    s.Open? && |s.input| >= if s.pending.None? then PACKET_INFO_LEN else s.pending.value.dataLen
  }

  function Take(s: State, on: bool): (r: (State, seq<Outcome>))
    requires Advances(s)
    ensures Measure(r.0) < Measure(s)
  {
    if s.pending.None? then
      var info := s.input[..PACKET_INFO_LEN];
      if GoodInfo(info) then (Open(Some(ReadInfo(info)), s.input[PACKET_INFO_LEN..]), []) else (Stopped, [])
    else
      var n := s.pending.value.dataLen;
      var o := Decode(s.pending.value, s.input[..n], on);
      if o.Undefined? then (Stopped, [o]) else (Open(None, s.input[n..]), [o])
  }

  /** The inner loop of readData: take packets until more bytes are needed. */
  function Drain(s: State, on: bool): (State, seq<Outcome>)
    decreases Measure(s)
  {
    if !Advances(s) then (s, [])
    else
      var (t, o) := Take(s, on);
      var (u, os) := Drain(t, on);
      (u, o + os)
  }

  function Feed(s: State, chunk: seq<Byte>): State {
    if s.Stopped? then s else Open(s.pending, s.input + chunk)
  }

  /** All that is read from the socket, piece by piece. */
  function Receive(s: State, chunks: seq<seq<Byte>>, on: bool): (State, seq<Outcome>)
    decreases |chunks|
  {
    if |chunks| == 0 then (s, [])
    else
      var (t, o) := Drain(Feed(s, chunks[0]), on);
      var (u, os) := Receive(t, chunks[1..], on);
      (u, o + os)
  }

  // ----- Fragmentation ---------------------------------------------------------------------------

  lemma TakeFed(s: State, b: seq<Byte>, on: bool)
    requires Advances(s)
    ensures Advances(Feed(s, b)) && Take(Feed(s, b), on) == (Feed(Take(s, on).0, b), Take(s, on).1)
  {
    hide Decode, GoodInfo, ReadInfo;
    var n := if s.pending.None? then PACKET_INFO_LEN else s.pending.value.dataLen;
    assert (s.input + b)[..n] == s.input[..n];
    assert (s.input + b)[n..] == s.input[n..] + b;
  }

  /** Bytes that come later may as well have been there from the start. */
  lemma {:induction false} DrainLater(s: State, b: seq<Byte>, on: bool)
    ensures var (t, o) := Drain(s, on);
            var (u, os) := Drain(Feed(t, b), on);
            Drain(Feed(s, b), on) == (u, o + os)
    decreases Measure(s)
  {
    hide Take, Feed, Advances;
    if Advances(s) {
      TakeFed(s, b, on);
      var (t, o) := Take(s, on);
      DrainLater(t, b, on);
      var (u, os) := Drain(t, on);
      var (w, rest) := Drain(Feed(u, b), on);
      assert o + (os + rest) == (o + os) + rest;
    } else {
      assert Drain(s, on) == (s, []);
      assert [] + Drain(Feed(s, b), on).1 == Drain(Feed(s, b), on).1;
    }
  }

  /** A drained reader stays as it is until bytes come. */
  lemma {:induction false} DrainIsIdempotent(s: State, on: bool)
    ensures Drain(Drain(s, on).0, on) == (Drain(s, on).0, [])
    decreases Measure(s)
  {
    hide Take, Advances;
    if Advances(s) {
      DrainIsIdempotent(Take(s, on).0, on);
    }
  }

  /** For every stream, well formed or not, the packets read do not depend on how it was cut. */
  lemma {:induction false} FragmentationDoesNotMatter(s: State, chunks: seq<seq<Byte>>, on: bool)
    requires Drain(s, on) == (s, [])
    ensures Receive(s, chunks, on) == Drain(Feed(s, Concat(chunks)), on)
    decreases |chunks|
  {
    hide Drain;
    if |chunks| == 0 {
      assert s.Open? ==> s.input + [] == s.input;
    } else {
      var t := Drain(Feed(s, chunks[0]), on).0;
      DrainIsIdempotent(Feed(s, chunks[0]), on);
      FragmentationDoesNotMatter(t, chunks[1..], on);
      DrainLater(Feed(s, chunks[0]), Concat(chunks[1..]), on);
      assert s.Open? ==> s.input + (chunks[0] + Concat(chunks[1..])) == s.input + chunks[0] + Concat(chunks[1..]);
    }
  }

  // ----- Round trip ------------------------------------------------------------------------------

  lemma InfoRoundTrip(h: Header)
    requires IsWord(h.chid) && IsWord(h.pcode) && h.dataLen <= MAX_PACKAGE_SIZE
    ensures GoodInfo(InfoBytes(h)) && ReadInfo(InfoBytes(h)) == h
  {
    hide Word, Value;
    var s := InfoBytes(h);
    assert s[0..4] == Word(ANET_PACKET_FLAG) && s[4..8] == Word(h.chid);
    assert s[8..12] == Word(h.pcode) && s[12..16] == Word(h.dataLen);
    ValueOfWord(ANET_PACKET_FLAG);
    ValueOfWord(h.chid);
    ValueOfWord(h.pcode);
    ValueOfWord(h.dataLen);
  }

  lemma FlagsRoundTrip(priority: nat, flags: nat)
    requires priority < 8 && flags < 32
    ensures var f: int := FlagsByte(priority, flags); f % 8 == priority && f / 8 == flags
  {
  }

  lemma AdvanceRoundTrip(a: Advance)
    requires ValidAdvance(a)
    ensures ReadAdvance(AdvanceBytes(a)) == a
  {
    hide Word, Value, FlagsByte;
    var s := AdvanceBytes(a);
    assert s[0..4] == Word(a.ttl) && s[4..8] == Word(a.checksum) && s[8..12] == Word(a.chidHigh);
    assert s[12] == FlagsByte(a.priority, a.flags) && s[13] == a.version;
    assert s[14] == a.nextHeaderType && s[15] == a.reserved;
    ValueOfWord(a.ttl);
    ValueOfWord(a.checksum);
    ValueOfWord(a.chidHigh);
    FlagsRoundTrip(a.priority, a.flags);
  }

  lemma MethodRoundTrip(flags: nat, on: bool)
    ensures ChecksumMethod(SetChecksumMethod(flags, on)) == if on then 8 else 0
  {
  }

  /** The receiver accepts the seal of the sender. */
  lemma SealHolds(a: Advance, body: seq<Byte>, on: bool)
    requires ValidAdvance(a)
    ensures ChecksumHolds(AdvanceBytes(Sealed(a, body, on)) + body, on)
  {
    hide Word, Value, Checksum;
    var cleared := a.(checksum := 0, flags := SetChecksumMethod(a.flags, on));
    var r := Sealed(a, body, on);
    var s := AdvanceBytes(r) + body;
    assert s[12] == FlagsByte(r.priority, r.flags);
    FlagsRoundTrip(r.priority, r.flags);
    MethodRoundTrip(a.flags, on);
    assert s[4..8] == Word(r.checksum);
    ValueOfWord(r.checksum);
    ZeroWord();
    assert Cleared(s) == AdvanceBytes(cleared) + body;
  }

  lemma ZeroWord()
    ensures Word(0) == [0, 0, 0, 0]
  {
  }

  lemma DecodeDelivers(p: Packet, on: bool)
    requires Valid(p)
    ensures Decode(HeaderOf(p, on), Payload(p, on), on) == Got(Delivered(p, on))
  {
    hide ChecksumHolds, AdvanceBytes, ReadAdvance, IsMarked, Mark;
    if p.Advanced? {
      var r := Sealed(p.adv, p.body, on);
      var s := AdvanceBytes(r) + p.body;
      MarkRoundTrip(p.pcode);
      SealHolds(p.adv, p.body, on);
      assert s[..ADVANCE_HEADER_LEN] == AdvanceBytes(r) && s[ADVANCE_HEADER_LEN..] == p.body;
      AdvanceRoundTrip(r);
    }
  }

  /** A frame at the front of the buffer is taken whole: exactly its bytes, and its packet. */
  lemma FrameIsTaken(p: Packet, rest: seq<Byte>, on: bool)
    requires Valid(p)
    ensures var (u, os) := Drain(Open(None, rest), on);
            Drain(Open(None, Frame(p, on) + rest), on) == (u, [Got(Delivered(p, on))] + os)
  {
    hide Decode, Payload, InfoBytes, GoodInfo, ReadInfo, Delivered;
    var h, body := HeaderOf(p, on), Payload(p, on);
    var s := Open(None, Frame(p, on) + rest);
    var t := Open(Some(h), body + rest);
    assert s.input[..PACKET_INFO_LEN] == InfoBytes(h) && s.input[PACKET_INFO_LEN..] == body + rest;
    InfoRoundTrip(h);
    assert Take(s, on) == (t, []);
    assert t.input[..h.dataLen] == body && t.input[h.dataLen..] == rest;
    DecodeDelivers(p, on);
    assert Take(t, on) == (Open(None, rest), [Got(Delivered(p, on))]);
    var (u, os) := Drain(Open(None, rest), on);
    assert Drain(t, on) == (u, [Got(Delivered(p, on))] + os);
    assert [] + ([Got(Delivered(p, on))] + os) == [Got(Delivered(p, on))] + os;
  }

  ghost predicate AllValid(ps: seq<Packet>) {
    forall i :: 0 <= i < |ps| ==> Valid(ps[i])
  }

  function Frames(ps: seq<Packet>, on: bool): seq<Byte>
    requires forall i :: 0 <= i < |ps| ==> Valid(ps[i])
  {
    if |ps| == 0 then [] else Frame(ps[0], on) + Frames(ps[1..], on)
  }

  function Deliveries(ps: seq<Packet>, on: bool): (r: seq<Outcome>)
    requires forall i :: 0 <= i < |ps| ==> Valid(ps[i])
    ensures |r| == |ps| && forall i :: 0 <= i < |ps| ==> r[i] == Got(Delivered(ps[i], on))
  {
    if |ps| == 0 then [] else [Got(Delivered(ps[0], on))] + Deliveries(ps[1..], on)
  }

  lemma {:induction false} FramesAreTaken(ps: seq<Packet>, rest: seq<Byte>, on: bool)
    requires AllValid(ps)
    ensures var (u, os) := Drain(Open(None, rest), on);
            Drain(Open(None, Frames(ps, on) + rest), on) == (u, Deliveries(ps, on) + os)
    decreases |ps|
  {
    hide Drain, Frame, Valid;
    var (u, os) := Drain(Open(None, rest), on);
    if |ps| == 0 {
      assert Frames(ps, on) + rest == rest && Deliveries(ps, on) + os == os;
    } else {
      FramesAreTaken(ps[1..], rest, on);
      FrameIsTaken(ps[0], Frames(ps[1..], on) + rest, on);
      assert Frames(ps, on) + rest == Frame(ps[0], on) + (Frames(ps[1..], on) + rest);
      assert [Got(Delivered(ps[0], on))] + (Deliveries(ps[1..], on) + os) == Deliveries(ps, on) + os;
    }
  }

  /** Any packets, framed, cut into any pieces and read, come out as they were sent, and leave
      nothing behind. */
  lemma FramesRoundTrip(ps: seq<Packet>, chunks: seq<seq<Byte>>, on: bool)
    requires AllValid(ps) && Concat(chunks) == Frames(ps, on)
    ensures Receive(Open(None, []), chunks, on) == (Open(None, []), Deliveries(ps, on))
  {
    hide Frames, Valid, Take;
    assert Drain(Open(None, []), on) == (Open(None, []), []);
    FragmentationDoesNotMatter(Open(None, []), chunks, on);
    FramesAreTaken(ps, [], on);
    assert [] + Frames(ps, on) == Frames(ps, on) && Frames(ps, on) + [] == Frames(ps, on);
    assert Deliveries(ps, on) + [] == Deliveries(ps, on);
  }

  /** After cleanupFlags the packet code is the one that was set, and the channel id is whole. */
  lemma DeliveredFields(p: Packet, on: bool, id: nat)
    requires Valid(p) && p.Advanced? && id < 0x1000_0000_0000_0000 && p.chid == LowHalf(id) &&
             p.adv.chidHigh == HighHalf(id)
    ensures var d := Delivered(p, on);
            && Unmark(d.pcode) == p.pcode && d.body == p.body && JoinHalves(d.chid, d.adv.chidHigh) == id
            && d.adv.ttl == p.adv.ttl && d.adv.priority == p.adv.priority && d.adv.version == p.adv.version
  {
    MarkRoundTrip(p.pcode);
    ChannelIdRoundTrip(id);
  }
}
