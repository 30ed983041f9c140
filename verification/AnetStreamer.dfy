/** The streamer as it works on buffers: the sender goes back to fill in what it learns only at the
    end, the receiver clears and restores the checksum in place. */
module AnetStreamer {
  import opened DataBuffers
  import opened AnetFrames
  import Crc32c

  /** The bytes of the data from the given offset on. */
  method BytesFrom(b: DataBuffer, offset: nat, len: nat) returns (s: seq<Byte>)
    requires b.Valid() && offset + len <= |b.Contents()|
    ensures s == b.Contents()[offset..offset + len]
  {
    if b.buf == null {
      s := [];
    } else {
      s := b.buf[b.data + offset..b.data + offset + len];
    }
  }

  /** AdvancePacket::encode on the extended header and the body. */
  method EncodeAdvanced(a: Advance, body: seq<Byte>, on: bool, output: DataBuffer)
    requires output.Valid() && ValidAdvance(a)
    modifies output, output.buf
    ensures output.Valid() && (output.buf == old(output.buf) || fresh(output.buf))
    ensures output.Contents() == old(output.Contents()) + AdvanceBytes(Sealed(a, body, on)) + body
  {
    hide AdvanceBytes, Word, Value, WordBytes, Crc32c.Serial, ToBits, DataBuffer.Valid, DataBuffer.Contents;
    ghost var was := output.Contents();
    var oldLen := output.DataLen();
    var r := a.(checksum := 0, flags := SetChecksumMethod(a.flags, on));
    WriteAdvance(r, output);
    output.WriteBytes(body);
    ghost var plain := AdvanceBytes(r) + body;
    assert output.Contents() == was + plain;
    if on {
      var s := BytesFrom(output, oldLen, ADVANCE_HEADER_LEN + |body|);
      assert s == plain;
      var crc := Crc32c.Lookup(0, ToBits(s));
      var n := Value(WordBytes(crc));
      output.FillInt32(oldLen + 4, n);
      ChecksumFilled(was, r, body, n);
    }
    assert was + plain == was + AdvanceBytes(r) + body;
  }

  method WriteAdvance(a: Advance, output: DataBuffer)
    requires output.Valid() && ValidAdvance(a)
    modifies output, output.buf
    ensures output.Valid() && (output.buf == old(output.buf) || fresh(output.buf))
    ensures output.Contents() == old(output.Contents()) + AdvanceBytes(a)
  {
    hide Word, FlagsByte, DataBuffer.Valid, DataBuffer.Contents;
    ghost var was := output.Contents();
    output.WriteInt32(a.ttl);
    output.WriteInt32(a.checksum);
    output.WriteInt32(a.chidHigh);
    output.WriteInt8(FlagsByte(a.priority, a.flags));
    output.WriteInt8(a.version);
    output.WriteInt8(a.nextHeaderType);
    output.WriteInt8(a.reserved);
    assert output.Contents() == was + AdvanceBytes(a);
  }

  lemma ChecksumFilled(was: seq<Byte>, r: Advance, body: seq<Byte>, n: nat)
    requires ValidAdvance(r) && IsWord(n)
    ensures var s := was + (AdvanceBytes(r) + body);
            s[..|was| + 4] + Word(n) + s[|was| + 8..] == was + AdvanceBytes(r.(checksum := n)) + body
  {
    hide Word;
  }

  /** The packet info, before the length is known. */
  method WriteInfo(chid: nat, pcode: nat, output: DataBuffer)
    requires output.Valid() && IsWord(chid) && IsWord(pcode)
    modifies output, output.buf
    ensures output.Valid() && (output.buf == old(output.buf) || fresh(output.buf))
    ensures output.Contents() == old(output.Contents()) + InfoBytes(Header(chid, pcode, 0))
  {
    hide Word, DataBuffer.Valid, DataBuffer.Contents;
    ghost var was := output.Contents();
    output.WriteInt32(ANET_PACKET_FLAG);
    output.WriteInt32(chid);
    output.WriteInt32(pcode);
    output.WriteInt32(0);
    assert output.Contents() == was + InfoBytes(Header(chid, pcode, 0));
  }

  /** packet->encode: advance packets mark their packet code on the way. */
  method EncodePayload(p: Packet, on: bool, output: DataBuffer) returns (pcode: nat)
    requires output.Valid() && Valid(p)
    modifies output, output.buf
    ensures output.Valid() && (output.buf == old(output.buf) || fresh(output.buf))
    ensures output.Contents() == old(output.Contents()) + Payload(p, on) && pcode == HeaderOf(p, on).pcode
  {
    hide AdvanceBytes, Sealed, DataBuffer.Valid, DataBuffer.Contents;
    ghost var was := output.Contents();
    pcode := p.pcode;
    if p.Plain? {
      if |p.body| > 0 {
        output.WriteBytes(p.body);
      }
    } else {
      pcode := Mark(p.pcode);
      EncodeAdvanced(p.adv, p.body, on, output);
    }
    assert output.Contents() == was + Payload(p, on);
  }

  /** DefaultPacketStreamer::encode: one frame behind what is in the buffer already. */
  method Encode(p: Packet, on: bool, output: DataBuffer)
    requires output.Valid() && Valid(p)
    modifies output, output.buf
    ensures output.Valid() && (output.buf == old(output.buf) || fresh(output.buf))
    ensures output.Contents() == old(output.Contents()) + Frame(p, on)
  {
    hide InfoBytes, Payload, Valid, Mark, Word, DataBuffer.Valid, DataBuffer.Contents;
    CodesAreWords(p);
    ghost var was := output.Contents();
    var oldLen := output.DataLen();
    WriteInfo(p.chid, p.pcode, output);
    var pcode := EncodePayload(p, on, output);
    ghost var info, payload := InfoBytes(Header(p.chid, p.pcode, 0)), Payload(p, on);
    assert output.Contents() == was + (info + payload);
    var newLen := output.DataLen();
    var dataLen := newLen - oldLen - PACKET_INFO_LEN;
    output.FillInt32(oldLen + 12, dataLen);
    LengthFilled(was, Header(p.chid, p.pcode, 0), payload, dataLen);
    output.FillInt32(oldLen + 8, pcode);
    CodeFilled(was, Header(p.chid, p.pcode, dataLen), payload, pcode);
  }

  lemma CodesAreWords(p: Packet)
    requires Valid(p)
    ensures IsWord(p.chid) && IsWord(p.pcode)
  {
  }

  lemma LengthFilled(was: seq<Byte>, h: Header, payload: seq<Byte>, n: nat)
    requires IsWord(h.chid) && IsWord(h.pcode) && IsWord(h.dataLen) && IsWord(n)
    ensures var s := was + (InfoBytes(h) + payload);
            s[..|was| + 12] + Word(n) + s[|was| + 16..] == was + (InfoBytes(h.(dataLen := n)) + payload)
  {
    hide Word;
  }

  lemma CodeFilled(was: seq<Byte>, h: Header, payload: seq<Byte>, n: nat)
    requires IsWord(h.chid) && IsWord(h.pcode) && IsWord(h.dataLen) && IsWord(n)
    ensures var s := was + (InfoBytes(h) + payload);
            s[..|was| + 8] + Word(n) + s[|was| + 12..] == was + (InfoBytes(h.(pcode := n)) + payload)
  {
    hide Word;
  }

  // ----- The receiver ----------------------------------------------------------------------------

  /** The checksum test of AdvancePacket::decode: the field is cleared for the computation and put
      back when it agrees. */
  method VerifyChecksum(dataLen: nat, on: bool, input: DataBuffer) returns (ok: bool)
    requires input.Valid() && ADVANCE_HEADER_LEN <= dataLen <= |input.Contents()|
    modifies input.buf
    ensures input.Valid() && ok == ChecksumHolds(old(input.Contents())[..dataLen], on)
    ensures |input.Contents()| == |old(input.Contents())| &&
            input.Contents()[dataLen..] == old(input.Contents())[dataLen..]
    ensures ok ==> input.Contents() == old(input.Contents())
  {
    hide Value, Word, WordBytes, ToBits, Crc32c.Serial, DataBuffer.Valid, DataBuffer.Contents;
    ghost var was := input.Contents();
    var head := BytesFrom(input, 0, ADVANCE_HEADER_LEN);
    assert head == was[..ADVANCE_HEADER_LEN];
    var f: int := head[12];
    var kind := ChecksumMethod(f / 8);
    assert was[..dataLen][12] == head[12] && was[..dataLen][4..8] == head[4..8];
    if !on || kind == 0 {
      return true;
    }
    var stored := Value(head[4..8]);
    input.FillInt32(4, 0);
    var computed := 0;
    if kind == 8 {
      var s := BytesFrom(input, 0, dataLen);
      ZeroWord();
      assert s == Cleared(was[..dataLen]);
      var crc := Crc32c.Lookup(0, ToBits(s));
      computed := Value(WordBytes(crc));
    }
    ok := stored == computed;
    if ok {
      input.FillInt32(4, stored);
      WordOfValue(head[4..8]);
      assert input.Contents() == was;
    }
  }

  /** The fields of the extended header, read off the front of the buffer. */
  method ReadHeaderFields(input: DataBuffer) returns (a: Advance)
    requires input.Valid() && |input.Contents()| >= ADVANCE_HEADER_LEN
    modifies input`data
    ensures input.Valid() && a == ReadAdvance(old(input.Contents())[..ADVANCE_HEADER_LEN])
    ensures input.Contents() == old(input.Contents())[ADVANCE_HEADER_LEN..]
  {
    hide Value, DataBuffer.Valid, DataBuffer.Contents;
    ghost var was := input.Contents();
    var ttl := input.ReadInt32();
    var checksum := input.ReadInt32();
    var chidHigh := input.ReadInt32();
    assert input.Contents() == was[12..];
    var f: int := input.ReadInt8();
    var version := input.ReadInt8();
    var next := input.ReadInt8();
    var reserved := input.ReadInt8();
    assert input.Contents() == was[16..];
    ghost var s := was[..ADVANCE_HEADER_LEN];
    assert s[0..4] == was[..4] && s[4..8] == was[4..][..4] && s[8..12] == was[4..][4..][..4];
    a := Advance(ttl, checksum, chidHigh, f % 8, f / 8, version, next, reserved);
  }

  /** packet->decode on a payload that is there as a whole. */
  method DecodePacket(h: Header, on: bool, input: DataBuffer) returns (o: Outcome)
    requires input.Valid() && h.dataLen <= |input.Contents()|
    modifies input, input.buf
    ensures input.Valid() && input.buf == old(input.buf)
    ensures o == Decode(h, old(input.Contents())[..h.dataLen], on)
    ensures !o.Undefined? ==> input.Contents() == old(input.Contents())[h.dataLen..]
  {
    hide ChecksumHolds, ReadAdvance, IsMarked, DataBuffer.Valid, DataBuffer.Contents;
    ghost var was := input.Contents();
    var n := h.dataLen;
    if !IsMarked(h.pcode) {
      var body := BytesFrom(input, 0, n);
      input.DrainData(n);
      return Got(Plain(h.chid, h.pcode, body));
    }
    if n < ADVANCE_HEADER_LEN {
      return Undefined;
    }
    var ok := VerifyChecksum(n, on, input);
    if !ok {
      input.DrainData(n);
      return BadPacket(h);
    }
    var a := ReadHeaderFields(input);
    var body := BytesFrom(input, 0, n - ADVANCE_HEADER_LEN);
    input.DrainData(n - ADVANCE_HEADER_LEN);
    Slices(was, n);
    o := Got(Advanced(h.chid, h.pcode, a, body));
  }

  lemma Slices(s: seq<Byte>, n: nat)
    requires ADVANCE_HEADER_LEN <= n <= |s|
    ensures s[ADVANCE_HEADER_LEN..][0..n - ADVANCE_HEADER_LEN] == s[..n][ADVANCE_HEADER_LEN..]
    ensures s[ADVANCE_HEADER_LEN..][n - ADVANCE_HEADER_LEN..] == s[n..]
    ensures s[..n][..ADVANCE_HEADER_LEN] == s[..ADVANCE_HEADER_LEN]
  {
  }

  method ReadPacketInfo(input: DataBuffer) returns (h: Header, good: bool)
    requires input.Valid() && |input.Contents()| >= PACKET_INFO_LEN
    modifies input`data
    ensures input.Valid() && input.Contents() == old(input.Contents())[PACKET_INFO_LEN..]
    ensures h == ReadInfo(old(input.Contents())[..PACKET_INFO_LEN]) &&
            good == GoodInfo(old(input.Contents())[..PACKET_INFO_LEN])
  {
    hide Value, DataBuffer.Valid, DataBuffer.Contents;
    ghost var was := input.Contents();
    var flag := input.ReadInt32();
    var chid := input.ReadInt32();
    var pcode := input.ReadInt32();
    var dataLen := input.ReadInt32();
    assert input.Contents() == was[16..];
    ghost var s := was[..PACKET_INFO_LEN];
    assert s[0..4] == was[..4] && s[4..8] == was[4..][..4];
    assert s[8..12] == was[4..][4..][..4] && s[12..16] == was[4..][4..][4..][..4];
    h := Header(chid, pcode, dataLen);
    good := flag == ANET_PACKET_FLAG && dataLen <= MAX_PACKAGE_SIZE;
  }

  /** The read side of a connection: its input buffer and the streaming context. */
  class Reader {
    const input: DataBuffer
    var pending: Option<Header>
    var stopped: bool

    constructor ()
      ensures input.Valid() && State() == Open(None, []) && fresh(input)
    {
      input := new DataBuffer();
      pending, stopped := None, false;
    }

    ghost function State(): State
      requires input.Valid()
      reads this, input, input.buf
    {
      if stopped then Stopped else Open(pending, input.Contents())
    }

    /** processData, when it can make progress. */
    method ProcessData(on: bool) returns (os: seq<Outcome>)
      requires input.Valid() && Advances(State())
      modifies this, input, input.buf
      ensures input.Valid() && (input.buf == old(input.buf) || fresh(input.buf))
      ensures (State(), os) == Take(old(State()), on)
    {
      hide Decode, GoodInfo, ReadInfo, DataBuffer.Valid, DataBuffer.Contents;
      os := [];
      if pending.None? {
        var h, good := ReadPacketInfo(input);
        if good {
          pending := Some(h);
          input.EnsureFree(h.dataLen);
        } else {
          stopped := true;
        }
      } else {
        var o := DecodePacket(pending.value, on, input);
        os := [o];
        pending, stopped := None, o.Undefined?;
      }
    }

    method CanAdvance() returns (b: bool)
      requires input.Valid()
      ensures b == Advances(State())
    {
      var n := input.DataLen();
      b := !stopped && n >= if pending.None? then PACKET_INFO_LEN else pending.value.dataLen;
    }

    /** One round of readData: what came from the socket, then every packet that is complete. */
    method ReadData(room: nat, chunk: seq<Byte>, on: bool) returns (os: seq<Outcome>)
      requires input.Valid() && |chunk| <= room
      modifies this, input, input.buf
      ensures input.Valid() && (input.buf == old(input.buf) || fresh(input.buf))
      ensures (State(), os) == Drain(Feed(old(State()), chunk), on)
    {
      hide Take, Advances, DataBuffer.Valid, DataBuffer.Contents;
      input.Receive(room, chunk);
      ghost var start := State();
      assert start == Feed(old(State()), chunk);
      os := [];
      assert os + Drain(start, on).1 == Drain(start, on).1;
      var more := CanAdvance();
      while more
        invariant input.Valid() && (input.buf == old(input.buf) || fresh(input.buf))
        invariant more == Advances(State())
        invariant Drain(start, on) == (Drain(State(), on).0, os + Drain(State(), on).1)
        decreases Measure(State())
      {
        ghost var t := State();
        var o := ProcessData(on);
        ghost var u := State();
        assert (os + o) + Drain(u, on).1 == os + (o + Drain(u, on).1);
        os := os + o;
        more := CanAdvance();
      }
      assert os + [] == os;
    }
  }
}
