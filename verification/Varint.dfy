/** Variable-length integers: groups of seven bits, lowest first, the last byte marked. */
module Varint {
  import opened DataBuffers

  /** What WriteVarint puts out. */
  function Encode(n: nat): (s: seq<Byte>)
    ensures |s| > 0
  {
    if n < 128 then [n + 128] else [n % 128] + Encode(n / 128)
  }

  /** Where the first marked byte is, among the first max bytes. */
  function Marked(s: seq<Byte>, max: nat): (i: nat)
    ensures i <= |s| && i <= max
    ensures i < |s| && i < max ==> s[i] >= 128
    ensures forall k :: 0 <= k < i ==> s[k] < 128
  {
    if |s| == 0 || max == 0 || s[0] >= 128 then 0 else 1 + Marked(s[1..], max - 1)
  }

  /** The value of bytes, lowest group first. */
  function Sum(s: seq<Byte>): nat {
    if |s| == 0 then 0 else s[0] % 128 + 128 * Sum(s[1..])
  }

  datatype Result = Value(value: nat, length: nat) | Corrupted

  /** What every reader must make of the bytes before it: at most max bytes, cut to the given width. */
  function Decode(s: seq<Byte>, max: nat, width: nat): Result
    requires width > 0
  {
    var i := Marked(s, max);
    if i < |s| && i < max then Value(Sum(s[..i + 1]) % width, i + 1) else Corrupted
  }

  lemma {:induction false} MarkedOfEncode(n: nat, rest: seq<Byte>, max: nat)
    requires |Encode(n)| <= max
    ensures Marked(Encode(n) + rest, max) == |Encode(n)| - 1
  {
    if n >= 128 {
      assert (Encode(n) + rest)[1..] == Encode(n / 128) + rest;
      MarkedOfEncode(n / 128, rest, max - 1);
    }
  }

  lemma {:induction false} SumOfEncode(n: nat)
    ensures Sum(Encode(n)) == n
  {
    if n >= 128 {
      assert Encode(n)[1..] == Encode(n / 128);
      SumOfEncode(n / 128);
    } else {
      assert Encode(n)[1..] == [];
      assert (n + 128) % 128 == n;
    }
  }

  /** The bytes: groups of seven bits, lowest first, all below 128 but the last, which is marked by 128. */
  lemma {:induction false} EncodedBytes(n: nat, i: nat)
    requires i < |Encode(n)|
    ensures Encode(n)[i] == n / Power(i) % 128 + if i == |Encode(n)| - 1 then 128 else 0
    ensures i == |Encode(n)| - 1 ==> n / Power(i) < 128
    ensures i > 0 ==> n / Power(i) > 0
    decreases i
  {
    hide Power;
    NoGroups();
    if i > 0 {
      EncodedBytes(n / 128, i - 1);
      NextPower(i - 1);
      DivideTwice(n, Power(i - 1));
    }
  }

  lemma DivideTwice(n: nat, p: nat)
    requires p > 0
    ensures n / 128 / p == n / (128 * p)
  {
    var q := n / 128 / p;
    var r, t := n % 128, n / 128 % p;
    assert n / 128 == q * p + t;
    assert n == q * (128 * p) + (128 * t + r) && 0 <= 128 * t + r < 128 * p;
    Quotient(n, 128 * p, q, 128 * t + r);
  }

  lemma Quotient(n: nat, d: nat, q: nat, r: nat)
    requires n == q * d + r && r < d
    ensures n / d == q
  {
    var e := n / d - q;
    assert e * d == r - n % d;
  }

  /** A value of k groups takes k bytes. */
  lemma {:induction false} EncodeLength(n: nat, k: nat)
    requires k > 0 && n < Power(k)
    ensures |Encode(n)| <= k
  {
    if n >= 128 {
      assert k > 1;
      EncodeLength(n / 128, k - 1);
    }
  }

  function Power(k: nat): (p: nat)
    ensures p > 0
  {
    if k == 0 then 1 else 128 * Power(k - 1)
  }

  lemma Powers()
    ensures Power(5) >= 0x1_0000_0000 && Power(10) >= 0x1_0000_0000_0000_0000
  {
    assert Power(5) == 128 * 128 * 128 * 128 * 128;
    assert Power(10) == Power(5) * 128 * 128 * 128 * 128 * 128 by {
      assert Power(10) == 128 * Power(9) && Power(9) == 128 * Power(8) && Power(8) == 128 * Power(7);
      assert Power(7) == 128 * Power(6) && Power(6) == 128 * Power(5);
    }
  }

  lemma RoundTripWithin(n: nat, rest: seq<Byte>, max: nat, width: nat)
    requires |Encode(n)| <= max && n < width
    ensures Decode(Encode(n) + rest, max, width) == Value(n, |Encode(n)|)
  {
    hide Encode, Marked, Sum;
    assert (Encode(n) + rest)[..|Encode(n)|] == Encode(n);
    SumOfEncode(n);
    MarkedOfEncode(n, rest, max);
  }

  /** Reading undoes writing, for 32-bit values in at most five bytes and 64-bit values in at most ten,
      and consumes exactly the bytes written. */
  lemma VarintRoundTrip(n: nat, rest: seq<Byte>)
    ensures n < 0x1_0000_0000 ==> Decode(Encode(n) + rest, 5, 0x1_0000_0000) == Value(n, |Encode(n)|)
    ensures n < 0x1_0000_0000_0000_0000 ==>
            Decode(Encode(n) + rest, 10, 0x1_0000_0000_0000_0000) == Value(n, |Encode(n)|)
  {
    hide Encode, Decode, Power;
    Powers();
    if n < 0x1_0000_0000 {
      EncodeLength(n, 5);
      RoundTripWithin(n, rest, 5, 0x1_0000_0000);
    }
    if n < 0x1_0000_0000_0000_0000 {
      EncodeLength(n, 10);
      RoundTripWithin(n, rest, 10, 0x1_0000_0000_0000_0000);
    }
  }

  // ----- Writers -----------------------------------------------------------------------------------

  /** The unrolled writer for values of at most five groups. */
  method Put5(n: nat) returns (s: seq<Byte>)
    requires n < 0x8_0000_0000
    ensures s == Encode(n)
  {
    Groups(n);
    ghost var a, b := n / 128, n / 128 / 128;
    assert n >= 128 ==> Encode(n) == [n % 128] + Encode(a);
    assert a >= 128 ==> Encode(a) == [a % 128] + Encode(b);
    assert b >= 128 ==> Encode(b) == [b % 128] + Encode(b / 128);
    if n <= 0x7f {
      s := [n + 128];
    } else if n <= 0x3fff {
      s := [n % 128, n / 128 + 128];
    } else if n <= 0x1f_ffff {
      s := [n % 128, n / 128 % 128, n / 128 / 128 + 128];
    } else if n <= 0xfff_ffff {
      s := [n % 128, n / 128 % 128, n / 128 / 128 % 128, n / 128 / 128 / 128 + 128];
    } else {
      s := [n % 128, n / 128 % 128, n / 128 / 128 % 128, n / 128 / 128 / 128 % 128, n / 128 / 128 / 128 / 128 + 128];
    }
  }

  lemma Groups(n: nat)
    requires n < 0x8_0000_0000
    ensures n / 128 / 128 / 128 / 128 < 128 && (n > 0xfff_ffff <==> n / 128 / 128 / 128 >= 128)
    ensures (n > 0x1f_ffff <==> n / 128 / 128 >= 128) && (n > 0x3fff <==> n / 128 >= 128)
    ensures n / 128 / 128 / 128 < 128 ==> Encode(n / 128 / 128 / 128) == [n / 128 / 128 / 128 + 128]
    ensures n / 128 / 128 / 128 >= 128 ==>
              Encode(n / 128 / 128 / 128) == [n / 128 / 128 / 128 % 128, n / 128 / 128 / 128 / 128 + 128]
  {
  }

  /** WriteVarint for 64 bits: values above 35 bits go out in two parts. */
  method WriteVarint64(n: nat) returns (s: seq<Byte>)
    requires n < 0x1_0000_0000_0000_0000
    ensures s == Encode(n)
  {
    hide Encode;
    if n <= 0x7_ffff_ffff {
      s := Put5(n);
    } else {
      var high := n / 128 / 128 / 128 / 128 / 128;
      FiveLowGroups(n);
      var rest := Put5(high);
      s := [n % 128, n / 128 % 128, n / 128 / 128 % 128, n / 128 / 128 / 128 % 128, n / 128 / 128 / 128 / 128 % 128] +
          rest;
    }
  }

  lemma FiveLowGroups(n: nat)
    requires 0x7_ffff_ffff < n < 0x1_0000_0000_0000_0000
    ensures n / 128 / 128 / 128 / 128 / 128 < 0x2000_0000
    ensures Encode(n) ==
            [n % 128, n / 128 % 128, n / 128 / 128 % 128, n / 128 / 128 / 128 % 128, n / 128 / 128 / 128 / 128 % 128]
            + Encode(n / 128 / 128 / 128 / 128 / 128)
  {
    var a, b := n / 128, n / 128 / 128;
    var c, d := b / 128, b / 128 / 128;
    assert Encode(d) == [d % 128] + Encode(d / 128);
    assert Encode(c) == [c % 128] + Encode(d);
    assert Encode(b) == [b % 128] + Encode(c);
    assert Encode(a) == [a % 128] + Encode(b);
    assert Encode(n) == [n % 128] + Encode(a);
  }

  // ----- Reading byte by byte ------------------------------------------------------------------------

  lemma {:induction false} SumLast(s: seq<Byte>, i: nat)
    requires i < |s|
    ensures Sum(s[..i + 1]) == Sum(s[..i]) + s[i] % 128 * Power(i)
  {
    hide Power;
    NoGroups();
    if i == 0 {
      assert s[..1][1..] == [];
    } else {
      SumLast(s[1..], i - 1);
      NextPower(i - 1);
      assert s[..i + 1][1..] == s[1..][..i] && s[..i][1..] == s[1..][..i - 1];
      Distribute(s[i] % 128, Power(i - 1));
    }
  }

  lemma Distribute(g: nat, p: nat)
    ensures 128 * (g * p) == g * (128 * p)
  {
  }

  lemma MarkedIsUnique(s: seq<Byte>, max: nat, i: nat)
    requires i <= |s| && i <= max && (i < |s| && i < max ==> s[i] >= 128) && forall k :: 0 <= k < i ==> s[k] < 128
    ensures Marked(s, max) == i
  {
  }

  /** The loop over get, and its unrolled form over a string. */
  method ReadVarint(s: seq<Byte>, max: nat, width: nat) returns (r: Result)
    requires width > 0
    ensures r == Decode(s, max, width)
  {
    hide Power, Sum, Marked;
    var sum, count, scale := 0, 0, 1;
    NoGroups();
    while count < max && count < |s|
      invariant 0 <= count <= |s| && count <= max && sum == Sum(s[..count]) && scale == Power(count)
      invariant forall k :: 0 <= k < count ==> s[k] < 128
    {
      SumLast(s, count);
      sum := sum + s[count] % 128 * scale;
      if s[count] >= 128 {
        MarkedIsUnique(s, max, count);
        return Value(sum % width, count + 1);
      }
      NextPower(count);
      scale := 128 * scale;
      count := count + 1;
    }
    MarkedIsUnique(s, max, count);
    r := Corrupted;
  }

  lemma NoGroups()
    ensures Sum([]) == 0 && Power(0) == 1
  {
  }

  lemma NextPower(k: nat)
    ensures Power(k + 1) == 128 * Power(k)
  {
  }
}
