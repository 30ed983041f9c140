/** What damage to a payload the checksum finds: exactly which damaged payloads are rejected, that a
    change of up to four consecutive bytes on one side of the checksum field always is, and that one
    across its edge, or one of the flags, may pass. */
module AnetDamage {
  import opened DataBuffers
  import ByteBits
  import Crc32c
  import opened AnetFrames

  lemma BitsConcat(a: seq<Byte>, b: seq<Byte>)
    ensures ToBits(a + b) == ToBits(a) + ToBits(b)
  {
  }

  lemma BitsInjective(v: seq<Byte>, w: seq<Byte>)
    requires |v| == |w| && v != w
    ensures ToBits(v) != ToBits(w)
  {
    hide ByteBits.Bits;
    var i :| 0 <= i < |v| && v[i] != w[i];
    if ByteBits.Bits(v[i]) == ByteBits.Bits(w[i]) {
      ByteBits.BitsInjective(v[i], w[i]);
    }
    assert ToBits(v)[i] == ByteBits.Bits(v[i]) && ToBits(w)[i] == ByteBits.Bits(w[i]);
  }

  /** A change of up to four consecutive bytes changes the stored checksum. */
  lemma ChecksumDetects(before: seq<Byte>, v: seq<Byte>, w: seq<Byte>, after: seq<Byte>)
    requires |v| == |w| <= 4 && v != w
    ensures Checksum(before + v + after) != Checksum(before + w + after)
  {
    hide ToBits, Crc32c.Serial, WordBytes, WordBits, Value;
    BitsConcat(before, v);
    BitsConcat(before, w);
    BitsConcat(before + v, after);
    BitsConcat(before + w, after);
    BitsInjective(v, w);
    Crc32c.BurstIsDetected(0, ToBits(before), ToBits(v), ToBits(w), ToBits(after));
    var c, d := Crc32c.Serial(0, ToBits(before + v + after)), Crc32c.Serial(0, ToBits(before + w + after));
    StoredIsRegister(WordBytes(c), d);
    BitsOfWordBytes(c);
  }

  // ----- All damage ----------------------------------------------------------------------------

  function Method(s: seq<Byte>): nat
    requires |s| >= ADVANCE_HEADER_LEN
  {
    var f: int := s[12];
    ChecksumMethod(f / 8)
  }

  /** A payload as it is sent with its checksum. */
  predicate IsSealed(s: seq<Byte>) {
    |s| >= ADVANCE_HEADER_LEN && Method(s) == 8 && ChecksumHolds(s, true)
  }

  /** Where the checksummed bytes of two payloads differ. */
  ghost function Difference(good: seq<Byte>, bad: seq<Byte>): seq<bv8>
    requires |good| == |bad| >= ADVANCE_HEADER_LEN
  {
    Crc32c.XorBytes(ToBits(Cleared(good)), ToBits(Cleared(bad)))
  }

  /** The stored checksum has changed by just the checksum of the rest of the damage. */
  ghost predicate Compensated(good: seq<Byte>, bad: seq<Byte>)
    requires |good| == |bad| >= ADVANCE_HEADER_LEN
  {
    Crc32c.Serial(0, Difference(good, bad)) == Crc32c.Xor(WordBits(good[4..8]), WordBits(bad[4..8]))
  }

  /** The damaged payload passes: its flags ask for no checksum, or for an unknown one that is compared
      with zero, or the damage makes up for itself. */
  ghost predicate Passes(good: seq<Byte>, bad: seq<Byte>)
    requires |good| == |bad| >= ADVANCE_HEADER_LEN
  {
    var m := Method(bad);
    m == 0 || (m == 8 && Compensated(good, bad)) || (m != 8 && Value(bad[4..8]) == 0)
  }

  lemma XorSolves(a: bv32, b: bv32, x: bv32, y: bv32)
    requires a == x
    ensures Crc32c.Xor(a, b) == Crc32c.Xor(x, y) <==> b == y
  {
  }

  lemma XorZero()
    ensures Crc32c.Xor(0, 0) == 0
  {
  }

  lemma CompensatedExactly(good: seq<Byte>, bad: seq<Byte>)
    requires IsSealed(good) && |bad| == |good|
    ensures Compensated(good, bad) <==> Value(bad[4..8]) == Checksum(Cleared(bad))
  {
    hide ToBits, Crc32c.Serial, Crc32c.Xor, WordBytes, WordBits, Value, Cleared;
    var a, b := ToBits(Cleared(good)), ToBits(Cleared(bad));
    XorZero();
    Crc32c.SerialLinear(0, 0, a, b);
    StoredIsRegister(good[4..8], Crc32c.Serial(0, a));
    StoredIsRegister(bad[4..8], Crc32c.Serial(0, b));
    XorSolves(Crc32c.Serial(0, a), Crc32c.Serial(0, b), WordBits(good[4..8]), WordBits(bad[4..8]));
  }

  /** Whatever is done to a sealed payload, it is accepted exactly when the damage passes. */
  lemma DamageExactly(good: seq<Byte>, bad: seq<Byte>)
    requires IsSealed(good) && |bad| == |good|
    ensures ChecksumHolds(bad, true) <==> Passes(good, bad)
  {
    hide Compensated, Checksum, Value, Cleared;
    CompensatedExactly(good, bad);
  }

  lemma PayloadIsSealed(p: Packet)
    requires Valid(p) && p.Advanced?
    ensures IsSealed(Payload(p, true))
  {
    hide AdvanceBytes, Checksum, Value, Sealed, Cleared;
    SealHolds(p.adv, p.body, true);
    SealUsesCrc(p.adv, p.body);
  }

  /** A damaged payload is reported as a bad packet exactly when the damage does not pass; either way
      exactly its bytes are dropped, and the reader goes on with what follows. */
  lemma DamageIsRejected(p: Packet, bad: seq<Byte>, rest: seq<Byte>)
    requires Valid(p) && p.Advanced? && |bad| == |Payload(p, true)|
    ensures |bad| >= ADVANCE_HEADER_LEN
    ensures var s := Open(Some(HeaderOf(p, true)), bad + rest);
            && Advances(s) && Take(s, true).0 == Open(None, rest)
            && (Take(s, true).1 == [BadPacket(HeaderOf(p, true))] <==> !Passes(Payload(p, true), bad))
  {
    hide AdvanceBytes, Checksum, Cleared, IsMarked, Mark, Value, Sealed, Passes;
    MarkRoundTrip(p.pcode);
    PayloadIsSealed(p);
    DamageExactly(Payload(p, true), bad);
    var s := Open(Some(HeaderOf(p, true)), bad + rest);
    assert s.input[..|bad|] == bad && s.input[|bad|..] == rest;
  }

  // ----- Damage on one side of the checksum field --------------------------------------------------

  /** The window is outside the checksum field, or within it. */
  predicate Outside(at: nat, n: nat) {
    at + n <= 4 || at >= 8
  }

  predicate Within(at: nat, n: nat) {
    4 <= at && at + n <= 8
  }

  /** Clearing the checksum field leaves the window where it is. */
  lemma ClearedWindow(before: seq<Byte>, v: seq<Byte>, after: seq<Byte>) returns (b: seq<Byte>, a: seq<Byte>)
    requires |before| + |v| + |after| >= ADVANCE_HEADER_LEN && (|before| + |v| <= 4 || |before| >= 8)
    ensures Cleared(before + v + after) == b + v + a
    ensures |before| >= 8 ==> b == before[..4] + [0, 0, 0, 0] + before[8..] && a == after
    ensures |before| < 8 ==>
              b == before && a == after[..4 - |before| - |v|] + [0, 0, 0, 0] + after[8 - |before| - |v|..]
  {
    if |before| >= 8 {
      b, a := before[..4] + [0, 0, 0, 0] + before[8..], after;
    } else {
      b, a := before, after[..4 - |before| - |v|] + [0, 0, 0, 0] + after[8 - |before| - |v|..];
    }
    assert Cleared(before + v + after) == b + v + a;
  }

  lemma OutsideDamage(before: seq<Byte>, v: seq<Byte>, w: seq<Byte>, after: seq<Byte>)
    requires |v| == |w| <= 4 && v != w && |before| + |v| + |after| >= ADVANCE_HEADER_LEN && Outside(|before|, |v|)
    ensures (before + w + after)[4..8] == (before + v + after)[4..8]
    ensures Checksum(Cleared(before + w + after)) != Checksum(Cleared(before + v + after))
  {
    hide Checksum, Cleared;
    var b, a := ClearedWindow(before, v, after);
    var same, too := ClearedWindow(before, w, after);
    ChecksumDetects(b, v, w, a);
  }

  lemma WithinDamage(before: seq<Byte>, v: seq<Byte>, w: seq<Byte>, after: seq<Byte>)
    requires |v| == |w| && v != w && |before| + |v| + |after| >= ADVANCE_HEADER_LEN && Within(|before|, |v|)
    ensures Cleared(before + w + after) == Cleared(before + v + after)
    ensures Value((before + w + after)[4..8]) != Value((before + v + after)[4..8])
    ensures (before + w + after)[12] == (before + v + after)[12]
  {
    hide Word, Value;
    var good, bad := before + v + after, before + w + after;
    assert bad[..4] == good[..4] && bad[8..] == good[8..];
    var k :| 0 <= k < |v| && v[k] != w[k];
    assert good[4..8][|before| + k - 4] == v[k] && bad[4..8][|before| + k - 4] == w[k];
    WordOfValue(good[4..8]);
    WordOfValue(bad[4..8]);
  }

  /** With checking off, the reader takes any payload of the announced length, whatever it was. */
  lemma UncheckedIsTaken(h: Header, bad: seq<Byte>, rest: seq<Byte>)
    requires IsMarked(h.pcode) && |bad| == h.dataLen >= ADVANCE_HEADER_LEN
    ensures var s := Open(Some(h), bad + rest);
            && Advances(s) && Take(s, false).0 == Open(None, rest)
            && Take(s, false).1 ==
               [Got(Advanced(h.chid, h.pcode, ReadAdvance(bad[..ADVANCE_HEADER_LEN]), bad[ADVANCE_HEADER_LEN..]))]
  {
    var s := Open(Some(h), bad + rest);
    assert s.input[..|bad|] == bad && s.input[|bad|..] == rest;
  }

  /** A change of up to four consecutive bytes on one side of the edge never makes up for itself. */
  lemma OneSideIsNotCompensated(before: seq<Byte>, v: seq<Byte>, w: seq<Byte>, after: seq<Byte>)
    requires IsSealed(before + v + after) && |v| == |w| <= 4 && v != w
    requires Outside(|before|, |v|) || Within(|before|, |v|)
    ensures !Compensated(before + v + after, before + w + after)
  {
    hide Checksum, Cleared, Value, Compensated;
    CompensatedExactly(before + v + after, before + w + after);
    if Outside(|before|, |v|) {
      OutsideDamage(before, v, w, after);
    } else {
      WithinDamage(before, v, w, after);
    }
  }

  /** So it is rejected exactly when the flags still ask for a checksum, or for an unknown one that a
      checksum field of zero would pass. */
  lemma OneSideIsRejected(p: Packet, before: seq<Byte>, v: seq<Byte>, w: seq<Byte>, after: seq<Byte>)
    requires Valid(p) && p.Advanced? && Payload(p, true) == before + v + after
    requires |v| == |w| <= 4 && v != w && (Outside(|before|, |v|) || Within(|before|, |v|))
    ensures |before + w + after| >= ADVANCE_HEADER_LEN
    ensures var bad := before + w + after;
            Passes(Payload(p, true), bad) <==> Method(bad) == 0 || (Method(bad) != 8 && Value(bad[4..8]) == 0)
  {
    hide AdvanceBytes, Checksum, Value, Sealed, Compensated;
    PayloadIsSealed(p);
    OneSideIsNotCompensated(before, v, w, after);
  }

  /** And always when it leaves the flags byte alone. */
  lemma OneSideBesideFlagsIsRejected(p: Packet, before: seq<Byte>, v: seq<Byte>, w: seq<Byte>, after: seq<Byte>)
    requires Valid(p) && p.Advanced? && Payload(p, true) == before + v + after
    requires |v| == |w| <= 4 && v != w && (Outside(|before|, |v|) || Within(|before|, |v|))
    requires !(|before| <= 12 < |before| + |v|)
    ensures |before + w + after| >= ADVANCE_HEADER_LEN && !Passes(Payload(p, true), before + w + after)
  {
    hide AdvanceBytes, Checksum, Value, Sealed, Compensated;
    PayloadIsSealed(p);
    OneSideIsRejected(p, before, v, w, after);
    assert (before + w + after)[12] == (before + v + after)[12];
  }

  // ----- Damage that passes ------------------------------------------------------------------------

  function Zeros(n: nat): (s: seq<bv8>)
    ensures |s| == n && forall i :: 0 <= i < n ==> s[i] == 0
  {
    seq(n, _ => 0 as bv8)
  }

  lemma ZeroEnters(c: bv32)
    ensures Crc32c.Xor(c, Crc32c.Word(0)) == c && Crc32c.Xor(0, Crc32c.Word(0x32)) == 0x32 && Crc32c.Step8(0) == 0
  {
  }

  lemma {:induction false} SerialOfZeros(c: bv32, n: nat)
    ensures Crc32c.Serial(c, Zeros(n)) == Crc32c.Clocks(n, c)
    decreases n
  {
    hide Crc32c.Step8, Crc32c.Xor, Crc32c.Word;
    if n > 0 {
      ZeroEnters(c);
      SerialOfZeros(Crc32c.Step8(c), n - 1);
      assert Zeros(n)[1..] == Zeros(n - 1);
    }
  }

  lemma EarlyClocks()
    ensures Crc32c.Step8(0x00000032) == 0xd1d83946
    ensures Crc32c.Step8(0xd1d83946) == 0x670b226d
    ensures Crc32c.Step8(0x670b226d) == 0xde89d493
    ensures Crc32c.Step8(0xde89d493) == 0x81268637
    ensures Crc32c.Step8(0x81268637) == 0xe4a80bdc
    ensures Crc32c.Step8(0xe4a80bdc) == 0x9e748670
    ensures Crc32c.Step8(0x9e748670) == 0x7106208b
    ensures Crc32c.Step8(0x7106208b) == 0x1b0e9663
    ensures Crc32c.Step8(0x1b0e9663) == 0x728d6e00
  {
  }

  lemma LateClocks()
    ensures Crc32c.Step8(0x728d6e00) == 0x00728d6e
    ensures Crc32c.Step8(0x00728d6e) == 0xcdbe5ec8
    ensures Crc32c.Step8(0xcdbe5ec8) == 0x4999c055
    ensures Crc32c.Step8(0x4999c055) == 0x649d570f
    ensures Crc32c.Step8(0x649d570f) == 0x5e77a173
    ensures Crc32c.Step8(0x5e77a173) == 0x6296d058
    ensures Crc32c.Step8(0x6296d058) == 0xdb9e14cc
    ensures Crc32c.Step8(0xdb9e14cc) == 0x8e157700
  {
  }

  lemma ClocksOfEdge()
    ensures Crc32c.Clocks(16, 0xd1d83946) == 0x8e157700
  {
    hide Crc32c.Step8;
    EarlyClocks();
    LateClocks();
    assert Crc32c.Clocks(0, 0x8e157700) == 0x8e157700;
    assert Crc32c.Clocks(1, 0xdb9e14cc) == 0x8e157700;
    assert Crc32c.Clocks(2, 0x6296d058) == 0x8e157700;
    assert Crc32c.Clocks(3, 0x5e77a173) == 0x8e157700;
    assert Crc32c.Clocks(4, 0x649d570f) == 0x8e157700;
    assert Crc32c.Clocks(5, 0x4999c055) == 0x8e157700;
    assert Crc32c.Clocks(6, 0xcdbe5ec8) == 0x8e157700;
    assert Crc32c.Clocks(7, 0x00728d6e) == 0x8e157700;
    assert Crc32c.Clocks(8, 0x728d6e00) == 0x8e157700;
    assert Crc32c.Clocks(9, 0x1b0e9663) == 0x8e157700;
    assert Crc32c.Clocks(10, 0x7106208b) == 0x8e157700;
    assert Crc32c.Clocks(11, 0x9e748670) == 0x8e157700;
    assert Crc32c.Clocks(12, 0xe4a80bdc) == 0x8e157700;
    assert Crc32c.Clocks(13, 0x81268637) == 0x8e157700;
    assert Crc32c.Clocks(14, 0xde89d493) == 0x8e157700;
    assert Crc32c.Clocks(15, 0x670b226d) == 0x8e157700;
    assert Crc32c.Clocks(16, 0xd1d83946) == 0x8e157700;
  }

  /** The byte 0x32 in fourth place, and sixteen bytes of zeros. */
  ghost function Edge(): seq<bv8> {
    [0, 0, 0, 0x32] + Zeros(16)
  }

  lemma ChecksumOfEdge()
    ensures Crc32c.Serial(0, Edge()) == 0x8e157700
  {
    hide Crc32c.Step8, Crc32c.Xor, Crc32c.Word, Crc32c.Clocks, Zeros;
    ZeroEnters(0);
    EarlyClocks();
    var e := Edge();
    assert e[1..][1..][1..][1..] == Zeros(16);
    assert Crc32c.Serial(0, e) == Crc32c.Serial(0, e[1..]);
    assert Crc32c.Serial(0, e[1..]) == Crc32c.Serial(0, e[1..][1..]);
    assert Crc32c.Serial(0, e[1..][1..]) == Crc32c.Serial(0, e[1..][1..][1..]);
    assert Crc32c.Serial(0, e[1..][1..][1..]) == Crc32c.Serial(0xd1d83946, Zeros(16));
    SerialOfZeros(0xd1d83946, 16);
    ClocksOfEdge();
  }

  function Flip(b: Byte, mask: bv8): Byte {
    ByteBits.FromBits(Crc32c.XorByte(ByteBits.Bits(b), mask))
  }

  lemma FlipBits(b: Byte, mask: bv8)
    ensures ByteBits.Bits(Flip(b, mask)) == Crc32c.XorByte(ByteBits.Bits(b), mask)
  {
    hide ByteBits.Bits, ByteBits.FromBits;
    ByteBits.BitsOfFromBits(Crc32c.XorByte(ByteBits.Bits(b), mask));
  }

  /** Byte 3 and the first three bytes of the checksum field are changed. */
  function AcrossTheEdge(good: seq<Byte>): (bad: seq<Byte>)
    requires |good| == 20
    ensures |bad| == 20
  {
    good[..3] + [Flip(good[3], 0x32), Flip(good[4], 0x8e), Flip(good[5], 0x15), Flip(good[6], 0x77)] + good[7..]
  }

  lemma XorByteFacts(a: bv8, m: bv8)
    ensures Crc32c.XorByte(a, a) == 0 && Crc32c.XorByte(a, Crc32c.XorByte(a, m)) == m
  {
  }

  lemma JoinFlipped(a: bv8, b: bv8, c: bv8, d: bv8)
    ensures Crc32c.Xor(ByteBits.Join(a, b, c, d),
                       ByteBits.Join(Crc32c.XorByte(a, 0x8e), Crc32c.XorByte(b, 0x15), Crc32c.XorByte(c, 0x77), d)) ==
                       0x8e157700
  {
  }

  lemma DifferenceIsEdge(good: seq<Byte>)
    requires |good| == 20
    ensures Difference(good, AcrossTheEdge(good)) == Edge()
  {
    hide ByteBits.Bits, Crc32c.XorByte, Flip;
    var bad, d := AcrossTheEdge(good), Difference(good, AcrossTheEdge(good));
    FlipBits(good[3], 0x32);
    XorByteFacts(ByteBits.Bits(good[3]), 0x32);
    forall i | 0 <= i < 20 ensures d[i] == Edge()[i] {
      if i != 3 {
        assert Cleared(good)[i] == Cleared(bad)[i];
        XorByteFacts(ByteBits.Bits(Cleared(good)[i]), 0);
      }
    }
  }

  lemma StoredIsFlipped(good: seq<Byte>)
    requires |good| == 20
    ensures Crc32c.Xor(WordBits(good[4..8]), WordBits(AcrossTheEdge(good)[4..8])) == 0x8e157700
  {
    hide ByteBits.Bits, Crc32c.XorByte, Crc32c.Xor, Flip, ByteBits.Join;
    var bad := AcrossTheEdge(good);
    FlipBits(good[4], 0x8e);
    FlipBits(good[5], 0x15);
    FlipBits(good[6], 0x77);
    assert bad[4..8] == [Flip(good[4], 0x8e), Flip(good[5], 0x15), Flip(good[6], 0x77), good[7]];
    assert good[4..8] == [good[4], good[5], good[6], good[7]];
    JoinFlipped(ByteBits.Bits(good[4]), ByteBits.Bits(good[5]), ByteBits.Bits(good[6]), ByteBits.Bits(good[7]));
  }

  lemma FlipChanges(b: Byte)
    ensures Flip(b, 0x32) != b
  {
    hide ByteBits.Bits, Flip;
    FlipBits(b, 0x32);
    XorChanges(ByteBits.Bits(b));
  }

  lemma XorChanges(a: bv8)
    ensures Crc32c.XorByte(a, 0x32) != a
  {
  }

  lemma EdgeIsCompensated(good: seq<Byte>)
    requires |good| == 20
    ensures Compensated(good, AcrossTheEdge(good)) && Method(AcrossTheEdge(good)) == Method(good)
  {
    hide Difference, Crc32c.Xor, WordBits, Crc32c.Serial, Flip;
    DifferenceIsEdge(good);
    ChecksumOfEdge();
    StoredIsFlipped(good);
  }

  /** Every packet with a body of four bytes can be damaged in four consecutive bytes, across the edge of
      the checksum field and without touching the flags, and is accepted. */
  lemma AcrossTheEdgePasses(p: Packet)
    requires Valid(p) && p.Advanced? && |p.body| == 4
    ensures var good := Payload(p, true);
            && |good| == 20 && var bad := AcrossTheEdge(good);
            && bad != good && bad[..3] == good[..3] && bad[7..] == good[7..] && Passes(good, bad)
  {
    hide AdvanceBytes, Checksum, Value, Sealed, Flip, Compensated, Method;
    PayloadIsSealed(p);
    var good := Payload(p, true);
    EdgeIsCompensated(good);
    FlipChanges(good[3]);
    assert AcrossTheEdge(good)[3] == Flip(good[3], 0x32);
  }

  /** Every packet can be damaged in its flags byte alone, so that it asks for no checksum, and is
      accepted. */
  lemma FlagsDamagePasses(p: Packet)
    requires Valid(p) && p.Advanced?
    ensures var good := Payload(p, true);
            && |good| >= ADVANCE_HEADER_LEN && good[12] >= 64 && Passes(good, good[12 := good[12] - 64])
  {
    hide Checksum, Value, Word, Compensated;
    var r := Sealed(p.adv, p.body, true);
    var good := Payload(p, true);
    assert good[12] == FlagsByte(r.priority, r.flags);
  }

  lemma SealUsesCrc(a: Advance, body: seq<Byte>)
    requires ValidAdvance(a)
    ensures Method(AdvanceBytes(Sealed(a, body, true)) + body) == 8
  {
    hide Checksum, Word;
    var r := Sealed(a, body, true);
    FlagsRoundTrip(r.priority, r.flags);
    MethodRoundTrip(a.flags, true);
    assert (AdvanceBytes(r) + body)[12] == FlagsByte(r.priority, r.flags);
  }
}
