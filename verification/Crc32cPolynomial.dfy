/** The register of the checksum holds the remainder of the message, as a polynomial over the field
    of two elements, shifted by 32 and divided by the CRC-32C polynomial (section 12.1 of RFC 3720).

    A polynomial is the set of the exponents whose coefficient is one. */
module Crc32cPolynomial {
  import opened Crc32c

  // ----- Polynomials ---------------------------------------------------------------------------

  function Add(a: set<nat>, b: set<nat>): set<nat> {
    (a - b) + (b - a)
  }

  function TimesX(a: set<nat>): set<nat> {
    set i | i in a :: i + 1
  }

  function TimesX32(a: set<nat>): set<nat> {
    set i | i in a :: i + 32
  }

  /** The polynomial with the given coefficients, highest first, times p. */
  function Times(bits: seq<bool>, p: set<nat>): set<nat> {
    if |bits| == 0 then {}
    else Add(TimesX(Times(bits[..|bits| - 1], p)), if bits[|bits| - 1] then p else {})
  }

  /** x^32 + x^28 + x^27 + x^26 + x^25 + x^23 + x^22 + x^20 + x^19 + x^18 + x^14 + x^13 + x^11 + x^10
      + x^9 + x^8 + x^6 + 1 */
  const CRC32C: set<nat> := {32, 28, 27, 26, 25, 23, 22, 20, 19, 18, 14, 13, 11, 10, 9, 8, 6, 0}

  lemma AddMembers(a: set<nat>, b: set<nat>, i: nat)
    ensures i in Add(a, b) <==> (i in a) != (i in b)
  {
  }

  lemma TimesXMembers(a: set<nat>, i: nat)
    ensures i in TimesX(a) <==> i > 0 && i - 1 in a
  {
    if i > 0 && i - 1 in a { assert (i - 1) + 1 in TimesX(a); }
  }

  lemma TimesX32Members(a: set<nat>, i: nat)
    ensures i in TimesX32(a) <==> i >= 32 && i - 32 in a
  {
    if i >= 32 && i - 32 in a { assert (i - 32) + 32 in TimesX32(a); }
  }

  // ----- The register as a polynomial ----------------------------------------------------------

  function Half(c: bv32): bv32 {
    c >> 1
  }

  function Shift4(c: bv32): bv32 {
    c >> 4
  }

  predicate Odd(c: bv32) {
    c & 1 == 1
  }

  predicate Bit(c: bv32, i: nat) {
    if i == 0 then Odd(c) else Bit(Half(c), i - 1)
  }

  /** The register is reflected: its lowest bit is the coefficient of x^31. */
  predicate Coefficient(c: bv32, i: nat) {
    i < 32 && Bit(c, 31 - i)
  }

  function Value(c: bv32): set<nat> {
    set i: nat | i < 32 && Coefficient(c, i)
  }

  lemma XorParts(x: bv32, y: bv32)
    ensures Half(Xor(x, y)) == Xor(Half(x), Half(y)) && Odd(Xor(x, y)) == (Odd(x) != Odd(y))
  {
    LowBit(x);
    LowBit(y);
  }

  lemma {:induction false} BitXor(x: bv32, y: bv32, i: nat)
    ensures Bit(Xor(x, y), i) == (Bit(x, i) != Bit(y, i))
    decreases i
  {
    hide Half, Odd, Xor;
    XorParts(x, y);
    if i > 0 { BitXor(Half(x), Half(y), i - 1); }
  }

  lemma Down4(c: bv32, i: nat)
    requires i >= 4
    ensures Bit(c, i) == Bit(Shift4(c), i - 4)
  {
    assert Bit(c, i) == Bit(Half(c), i - 1);
    assert Bit(Half(c), i - 1) == Bit(Half(Half(c)), i - 2);
    assert Bit(Half(Half(c)), i - 2) == Bit(Half(Half(Half(c))), i - 3);
    assert Bit(Half(Half(Half(c))), i - 3) == Bit(Half(Half(Half(Half(c)))), i - 4);
    Halves(c);
  }

  lemma Halves(c: bv32)
    ensures Half(Half(Half(Half(c)))) == Shift4(c)
  {
  }

  lemma Nibble(c: bv32)
    ensures Bit(c, 0) == (c & 1 == 1) && Bit(c, 1) == (c & 2 == 2)
    ensures Bit(c, 2) == (c & 4 == 4) && Bit(c, 3) == (c & 8 == 8)
  {
    hide Half, Odd, Bit;
    var h := Half(c);
    var q := Half(h);
    BitDown(c, 1);
    BitDown(c, 2);
    BitDown(c, 3);
    BitDown(h, 1);
    BitDown(h, 2);
    BitDown(q, 1);
    NibbleMasks(c);
  }

  lemma BitDown(c: bv32, i: nat)
    requires i > 0
    ensures Bit(c, i) == Bit(Half(c), i - 1) && Bit(c, 0) == Odd(c) && Bit(Half(c), 0) == Odd(Half(c))
  {
  }

  lemma NibbleMasks(c: bv32)
    ensures Odd(c) == (c & 1 == 1) && Odd(Half(c)) == (c & 2 == 2) && Odd(Half(Half(c))) == (c & 4 == 4)
    ensures Odd(Half(Half(Half(c)))) == (c & 8 == 8)
  {
  }

  lemma Down16(c: bv32, i: nat)
    requires i >= 16
    ensures Bit(c, i) == Bit(Shift4(Shift4(Shift4(Shift4(c)))), i - 16)
  {
    hide Bit, Shift4;
    Down4(c, i);
    Down4(Shift4(c), i - 4);
    Down4(Shift4(Shift4(c)), i - 8);
    Down4(Shift4(Shift4(Shift4(c))), i - 12);
  }

  lemma Shift16(c: bv32)
    ensures Shift4(Shift4(Shift4(Shift4(c)))) == c >> 16
    ensures (c >> 16) >> 16 == 0
  {
  }

  /** The register has 32 bits. */
  lemma NoBit32(c: bv32)
    ensures !Bit(c, 32)
  {
    hide Shift4;
    Down16(c, 32);
    Shift16(c);
    Down16(c >> 16, 16);
    Shift16(c >> 16);
    assert !Bit(0, 0);
  }

  /** The constant of the register is the polynomial without its leading term. */
  lemma PolynomialBits(i: nat)
    requires i < 32
    ensures Bit(0x82f63b78, i) == (31 - i in CRC32C)
  {
    if i < 4 {
      Nibble(0x82f63b78);
    } else if i < 8 {
      Down4(0x82f63b78, i);
      Nibble(0x082f63b7);
    } else if i < 16 {
      Down4(0x82f63b78, i);
      Down4(0x082f63b7, i - 4);
      if i < 12 { Nibble(0x0082f63b); } else { Down4(0x0082f63b, i - 8); Nibble(0x00082f63); }
    } else if i < 24 {
      Down16(0x82f63b78, i);
      Shift16(0x82f63b78);
      if i < 20 { Nibble(0x000082f6); } else { Down4(0x000082f6, i - 16); Nibble(0x0000082f); }
    } else {
      Down16(0x82f63b78, i);
      Shift16(0x82f63b78);
      Down4(0x000082f6, i - 16);
      Down4(0x0000082f, i - 20);
      if i < 28 { Nibble(0x00000082); } else { Down4(0x00000082, i - 24); Nibble(0x00000008); }
    }
  }

  /** One clock multiplies by x and subtracts the polynomial when x^32 appears. */
  lemma StepValue(c: bv32)
    ensures Value(Step(c)) == Add(TimesX(Value(c)), if Bit(c, 0) then CRC32C else {})
  {
    var p := if Bit(c, 0) then CRC32C else {};
    forall i: nat ensures i in Value(Step(c)) <==> i in Add(TimesX(Value(c)), p) {
      AddMembers(TimesX(Value(c)), p, i);
      TimesXMembers(Value(c), i);
      if i < 32 {
        StepBit(c, 31 - i);
        PolynomialBits(31 - i);
        if i == 0 { NoBit32(c); }
      }
    }
  }

  lemma StepBit(c: bv32, i: nat)
    ensures Bit(Step(c), i) == (Bit(c, i + 1) != (Bit(c, 0) && Bit(0x82f63b78, i)))
  {
    hide Half, Odd, Xor, Step;
    StepParts(c);
    BitXor(Half(c), 0x82f63b78, i);
  }

  lemma StepParts(c: bv32)
    ensures Step(c) == if Odd(c) then Xor(Half(c), 0x82f63b78) else Half(c)
  {
  }

  // ----- The message as a polynomial -------------------------------------------------------------

  /** The n low bits of a word, lowest first: the order in which the register takes them. */
  function LowBits(w: bv32, n: nat): seq<bool> {
    if n == 0 then [] else [Odd(w)] + LowBits(Half(w), n - 1)
  }

  function MessageBits(data: seq<bv8>): seq<bool> {
    if |data| == 0 then [] else LowBits(Word(data[0]), 8) + MessageBits(data[1..])
  }

  function Enter(c: bv32, b: bool): bv32 {
    Step(Xor(c, if b then 1 else 0))
  }

  function Feed(c: bv32, bits: seq<bool>): bv32
    decreases |bits|
  {
    if |bits| == 0 then c else Feed(Enter(c, bits[0]), bits[1..])
  }

  lemma {:induction false} FeedConcat(c: bv32, a: seq<bool>, b: seq<bool>)
    ensures Feed(c, a + b) == Feed(Feed(c, a), b)
    decreases |a|
  {
    hide Enter;
    if |a| == 0 {
      assert a + b == b;
    } else {
      FeedConcat(Enter(c, a[0]), a[1..], b);
      assert (a + b)[1..] == a[1..] + b;
    }
  }

  function Steps(n: nat, c: bv32): bv32 {
    if n == 0 then c else Steps(n - 1, Step(c))
  }

  /** The word has at most n bits. */
  predicate Small(w: bv32, n: nat) {
    if n == 0 then w == 0 else Small(Half(w), n - 1)
  }

  /** Bits that are still on their way may be added after the clock instead of before it. */
  lemma EnterLater(c: bv32, w: bv32)
    ensures Step(Xor(c, w)) == Xor(Enter(c, Odd(w)), Half(w))
  {
    hide Step, Xor;
    SplitLowest(c, w);
    StepLinear(Xor(c, if Odd(w) then 1 else 0), w & 0xfffffffe);
  }

  lemma SplitLowest(c: bv32, w: bv32)
    ensures Xor(Xor(c, if Odd(w) then 1 else 0), w & 0xfffffffe) == Xor(c, w)
    ensures Step(w & 0xfffffffe) == Half(w)
  {
    hide Xor, Step;
    LowestAlone(w);
    XorAssociates(c, if Odd(w) then 1 else 0, w & 0xfffffffe);
  }

  lemma LowestAlone(w: bv32)
    ensures Xor(if Odd(w) then 1 else 0, w & 0xfffffffe) == w && Step(w & 0xfffffffe) == Half(w)
  {
    LowBit(w);
  }

  lemma XorAssociates(a: bv32, b: bv32, c: bv32)
    ensures Xor(Xor(a, b), c) == Xor(a, Xor(b, c))
  {
  }

  lemma {:induction false} WordIsFed(c: bv32, w: bv32, n: nat)
    requires Small(w, n)
    ensures Steps(n, Xor(c, w)) == Feed(c, LowBits(w, n))
    decreases n
  {
    hide Step, Xor, Enter, Odd, Half;
    if n == 0 {
      XorZero(c);
    } else {
      EnterLater(c, w);
      WordIsFed(Enter(c, Odd(w)), Half(w), n - 1);
      assert LowBits(w, n)[1..] == LowBits(Half(w), n - 1);
    }
  }

  lemma ByteIsSmall(b: bv8)
    ensures Small(Word(b), 8)
  {
    var w := Word(b);
    assert Half(Half(Half(Half(Half(Half(Half(Half(w)))))))) == 0;
    assert Small(Half(Half(Half(Half(Half(Half(w)))))), 2);
    assert Small(Half(Half(Half(Half(w)))), 4);
    assert Small(Half(Half(w)), 6);
  }

  lemma Step8IsSteps(c: bv32)
    ensures Step8(c) == Steps(8, c)
  {
    hide Step;
    var d := Step4(c);
    assert Steps(2, Step(Step(d))) == Steps(1, Step(Step(Step(d)))) == Step4(d);
    assert Steps(4, d) == Steps(3, Step(d)) == Steps(2, Step(Step(d)));
    assert Steps(6, Step(Step(c))) == Steps(5, Step(Step(Step(c)))) == Steps(4, d);
    assert Steps(8, c) == Steps(7, Step(c)) == Steps(6, Step(Step(c)));
  }

  lemma {:induction false} SerialIsFeed(c: bv32, data: seq<bv8>)
    ensures Serial(c, data) == Feed(c, MessageBits(data))
    decreases |data|
  {
    hide Step8, Xor, Word, Enter, LowBits, Small, Steps;
    if |data| > 0 {
      var w := Word(data[0]);
      ByteIsSmall(data[0]);
      WordIsFed(c, w, 8);
      Step8IsSteps(Xor(c, w));
      SerialIsFeed(Step8(Xor(c, w)), data[1..]);
      FeedConcat(c, LowBits(w, 8), MessageBits(data[1..]));
    }
  }

  // ----- Division --------------------------------------------------------------------------------

  lemma EnterValue(c: bv32, b: bool)
    ensures var t := Bit(c, 0) != b;
            Value(Enter(c, b)) ==
            Add(Add(TimesX(Value(c)), if b then {32} else {}), if t then CRC32C else {})
  {
    hide Step, Xor, Bit, Value, Add, TimesX;
    var d := Xor(c, if b then 1 else 0);
    StepValue(d);
    BitXor(c, if b then 1 else 0, 0);
    OneBits();
    FlippedLowest(c, b);
  }

  /** The lowest bit of the register becomes x^32. */
  lemma FlippedLowest(c: bv32, b: bool)
    ensures TimesX(Value(Xor(c, if b then 1 else 0))) == Add(TimesX(Value(c)), if b then {32} else {})
  {
    hide Xor, Bit, Value, Add, TimesX;
    var d, one := Xor(c, if b then 1 else 0), if b then {32} else {};
    forall i: nat ensures i in TimesX(Value(d)) <==> i in Add(TimesX(Value(c)), one) {
      AddMembers(TimesX(Value(c)), one, i);
      TimesXMembers(Value(c), i);
      TimesXMembers(Value(d), i);
      if 0 < i {
        ValueMembers(c, i - 1);
        ValueMembers(d, i - 1);
        if i <= 32 {
          BitXor(c, if b then 1 else 0, 32 - i);
          LowestOnly(32 - i);
        }
      }
    }
  }

  lemma ValueMembers(c: bv32, i: nat)
    ensures i in Value(c) <==> i < 32 && Bit(c, 31 - i)
  {
  }

  lemma OneBits()
    ensures Bit(1, 0) && !Bit(0, 0)
  {
  }

  lemma {:induction false} LowestOnly(i: nat)
    ensures Bit(1, i) == (i == 0) && !Bit(0, i)
  {
    assert Half(1) == 0 && Half(0) == 0;
    if i > 0 { LowestOnly(i - 1); }
  }

  lemma TimesXAdds(a: set<nat>, b: set<nat>)
    ensures TimesX(Add(a, b)) == Add(TimesX(a), TimesX(b))
  {
    forall i: nat ensures i in TimesX(Add(a, b)) <==> i in Add(TimesX(a), TimesX(b)) {
      TimesXMembers(Add(a, b), i);
      TimesXMembers(a, i);
      TimesXMembers(b, i);
    }
  }

  lemma ShiftedHorner(a: set<nat>, b: bool)
    ensures TimesX32(Add(TimesX(a), if b then {0} else {})) == Add(TimesX(TimesX32(a)), if b then {32} else {})
  {
    var one := if b then {0} else {};
    forall i: nat
      ensures i in TimesX32(Add(TimesX(a), one)) <==> i in Add(TimesX(TimesX32(a)), if b then {32} else {})
    {
      TimesX32Members(Add(TimesX(a), one), i);
      TimesXMembers(TimesX32(a), i);
      if i >= 32 { TimesXMembers(a, i - 32); }
      if i >= 1 { TimesX32Members(a, i - 1); }
    }
  }

  lemma AddRearranges(qx: set<nat>, rx: set<nat>, b: set<nat>, p: set<nat>)
    ensures Add(Add(qx, rx), b) == Add(Add(qx, p), Add(Add(rx, b), p))
  {
  }

  /** The register after the message bits is the remainder of the message times x^32 modulo the
      CRC-32C polynomial: there is a quotient q with message * x^32 = q * CRC32C + register. */
  lemma {:induction false} FeedIsRemainder(bits: seq<bool>) returns (q: seq<bool>)
    ensures TimesX32(Times(bits, {0})) == Add(Times(q, CRC32C), Value(Feed(0, bits)))
  {
    if |bits| == 0 {
      q := [];
      ZeroValue();
    } else {
      var n := |bits| - 1;
      var c, b := Feed(0, bits[..n]), bits[n];
      var q0 := FeedIsRemainder(bits[..n]);
      var t := Bit(c, 0) != b;
      q := q0 + [t];
      FeedLast(bits);
      DivisionStep(bits[..n], b, c, q0, t);
      assert q[..|q0|] == q0;
    }
  }

  lemma ZeroValue()
    ensures Value(0) == {}
  {
    forall i: nat ensures i !in Value(0) {
      if i < 32 { LowestOnly(31 - i); }
    }
  }

  lemma FeedLast(bits: seq<bool>)
    requires |bits| > 0
    ensures Feed(0, bits) == Enter(Feed(0, bits[..|bits| - 1]), bits[|bits| - 1])
  {
    hide Enter;
    var n := |bits| - 1;
    assert bits == bits[..n] + [bits[n]];
    FeedConcat(0, bits[..n], [bits[n]]);
    assert Feed(Feed(0, bits[..n]), [bits[n]]) == Feed(Enter(Feed(0, bits[..n]), bits[n]), []);
  }

  lemma DivisionStep(front: seq<bool>, b: bool, c: bv32, q0: seq<bool>, t: bool)
    requires TimesX32(Times(front, {0})) == Add(Times(q0, CRC32C), Value(c)) && t == (Bit(c, 0) != b)
    ensures TimesX32(Add(TimesX(Times(front, {0})), if b then {0} else {})) ==
            Add(Add(TimesX(Times(q0, CRC32C)), if t then CRC32C else {}), Value(Enter(c, b)))
  {
    hide Enter, Value, Add, TimesX, TimesX32, Times, Bit;
    ShiftedHorner(Times(front, {0}), b);
    TimesXAdds(Times(q0, CRC32C), Value(c));
    EnterValue(c, b);
    AddRearranges(TimesX(Times(q0, CRC32C)), TimesX(Value(c)), if b then {32} else {}, if t then CRC32C else {});
  }

  /** The checksum of a packet is the remainder of its bits, shifted by 32. */
  lemma ChecksumIsRemainder(data: seq<bv8>) returns (q: seq<bool>)
    ensures TimesX32(Times(MessageBits(data), {0})) == Add(Times(q, CRC32C), Value(Serial(0, data)))
    ensures forall i :: i in Value(Serial(0, data)) ==> i < 32
  {
    hide Feed, Times, TimesX32, Add;
    SerialIsFeed(0, data);
    q := FeedIsRemainder(MessageBits(data));
  }
}
