/** How a full buffer grows, in the single-precision arithmetic of the code: numbers have 24 significant
    bits, and every result is rounded to the nearest of them, to the even one of two. */
module BufferGrowth {

  /** Up to here all whole numbers have an exact representation. */
  const EXACT: nat := 0x100_0000

  function NearestEven(x: real): int {
    var f := x.Floor;
    if x - f as real < 0.5 || (x - f as real == 0.5 && f % 2 == 0) then f else f + 1
  }

  /** Rounding of numbers from 1 on: scaled so that the last of 24 bits counts one. */
  function Round(x: real): (r: real)
    requires x >= 1.0
    decreases x >= 16777216.0, if x >= 16777216.0 then x else 16777216.0 - x
  {
    if x >= 16777216.0 then 2.0 * Round(x / 2.0)
    else if x < 8388608.0 then Round(2.0 * x) / 2.0
    else NearestEven(x) as real
  }

  /** Conversion of an integer. */
  function OfInt(n: nat): (r: real) {
    if n == 0 then 0.0 else Round(n as real)
  }

  predicate Whole(x: real) {
    x == x.Floor as real
  }

  // ----- Rounding ----------------------------------------------------------------------------------

  lemma {:induction false} RoundBounds(x: real)
    requires x >= 1.0
    ensures 0.99 * x <= Round(x) <= 1.01 * x
    decreases x >= 16777216.0, if x >= 16777216.0 then x else 16777216.0 - x
  {
    if x >= 16777216.0 {
      RoundBounds(x / 2.0);
    } else if x < 8388608.0 {
      RoundBounds(2.0 * x);
    }
  }

  lemma {:induction false} WholeIsExact(x: real)
    requires 1.0 <= x <= 16777216.0 && Whole(x)
    ensures Round(x) == x
    decreases x >= 16777216.0, if x >= 16777216.0 then x else 16777216.0 - x
  {
    if x >= 16777216.0 {
      WholeIsExact(8388608.0);
    } else if x < 8388608.0 {
      assert (2.0 * x).Floor == 2 * x.Floor;
      WholeIsExact(2.0 * x);
    }
  }

  lemma {:induction false} LargeIsWhole(x: real)
    requires x >= 8388608.0
    ensures Whole(Round(x))
    decreases x
  {
    if x >= 16777216.0 {
      LargeIsWhole(x / 2.0);
      assert (2.0 * Round(x / 2.0)).Floor == 2 * Round(x / 2.0).Floor;
    }
  }

  function Power(k: nat): (p: real)
    ensures p >= 1.0
  {
    if k == 0 then 1.0 else 2.0 * Power(k - 1)
  }

  function Scaled(x: real, k: nat): real {
    x * Power(k)
  }

  /** x has no more than 24 bits, k of them behind the point. */
  predicate OnGrid(x: real, k: nat) {
    Whole(Scaled(x, k)) && Scaled(x, k) <= 16777216.0
  }

  lemma ScaledTwice(x: real, k: nat)
    ensures Scaled(x, k + 1) == Scaled(2.0 * x, k)
  {
  }

  lemma Unscaled(x: real)
    ensures Scaled(x, 0) == x
  {
  }

  lemma ScaledIsMore(x: real, k: nat)
    requires x >= 0.0
    ensures Scaled(x, k) >= x
  {
    assert x * (Power(k) - 1.0) >= 0.0;
  }

  lemma {:induction false} GridOf(x: real) returns (k: nat)
    requires 1.0 <= x < 16777216.0
    ensures OnGrid(Round(x), k)
    decreases 16777216.0 - x
  {
    hide Scaled;
    if x < 8388608.0 {
      k := GridOf(2.0 * x);
      ScaledTwice(Round(x), k);
      k := k + 1;
    } else {
      k := 0;
      Unscaled(Round(x));
    }
  }

  lemma {:induction false} GridIsExact(x: real, k: nat)
    requires x >= 1.0 && OnGrid(x, k)
    ensures Round(x) == x
    decreases k
  {
    hide Scaled;
    if k == 0 {
      Unscaled(x);
      WholeIsExact(x);
    } else {
      ScaledTwice(x, k - 1);
      if x < 8388608.0 {
        GridIsExact(2.0 * x, k - 1);
      } else {
        ScaledIsMore(2.0 * x, k - 1);
        WholeIsExact(x);
      }
    }
  }

  // ----- Growing -----------------------------------------------------------------------------------

  /** The test of the loop, negated: the room beside the data is enough. */
  predicate Enough(size: real, dataLen: nat, need: nat)
    requires size - OfInt(dataLen) >= 1.0
  {
    Round(size - OfInt(dataLen)) >= OfInt(need)
  }

  lemma LeavesSome(capacity: nat, dataLen: nat)
    requires 0 < capacity && dataLen <= capacity
    ensures Round((2 * capacity) as real) - OfInt(dataLen) >= 1.0
  {
    var twice := (2 * capacity) as real;
    RoundBounds(twice);
    if capacity <= 8388608 {
      WholeIsExact(twice);
      if dataLen > 0 {
        WholeIsExact(dataLen as real);
      }
    } else if dataLen > 0 {
      RoundBounds(dataLen as real);
    }
  }

  /** Up to 2^24 bytes of data and of need, what the loop takes to be enough is. */
  lemma EnoughIsEnough(x: real, dataLen: nat, need: nat)
    requires x >= 1.0 && Round(x) - OfInt(dataLen) >= 1.0 && dataLen <= EXACT && need <= EXACT
    requires Enough(Round(x), dataLen, need)
    ensures Round(x).Floor >= dataLen + need
  {
    hide Round, OnGrid;
    var size := Round(x);
    if dataLen > 0 {
      WholeIsExact(dataLen as real);
    }
    if need > 0 {
      WholeIsExact(need as real);
    }
    var room := size - dataLen as real;
    if room < need as real {
      if x >= 8388608.0 {
        LargeIsWhole(x);
        assert room.Floor == size.Floor - dataLen;
        WholeIsExact(room);
      } else {
        var k := GridOf(x);
        PartIsOnGrid(size, dataLen, k);
        GridIsExact(room, k);
      }
    }
  }

  lemma PartIsOnGrid(size: real, n: nat, k: nat)
    requires OnGrid(size, k)
    ensures OnGrid(size - n as real, k)
  {
    WholePower(k);
    var p := Power(k).Floor;
    assert Scaled(size - n as real, k) == Scaled(size, k) - (n * p) as real;
    assert (Scaled(size, k) - (n * p) as real).Floor == Scaled(size, k).Floor - n * p;
  }

  lemma {:induction false} WholePower(k: nat)
    ensures Whole(Power(k))
  {
    if k > 0 {
      WholePower(k - 1);
      assert (2.0 * Power(k - 1)).Floor == 2 * Power(k - 1).Floor;
    }
  }

  /** The size of the new array. */
  method GrownSize(capacity: nat, dataLen: nat, need: nat) returns (size: nat)
    requires 0 < capacity && dataLen <= capacity
    ensures dataLen <= EXACT && need <= EXACT ==> size >= dataLen + need
    ensures var twice := Round((2 * capacity) as real);
            twice - OfInt(dataLen) >= 1.0 && (Enough(twice, dataLen, need) ==> size == twice.Floor)
  {
    hide Round, OfInt;
    LeavesSome(capacity, dataLen);
    ghost var x := (2 * capacity) as real;
    var s := Round((2 * capacity) as real);
    RoundBounds(x);
    while !Enough(s, dataLen, need)
      invariant x >= 1.0 && s == Round(x) && s >= 1.0 && s - OfInt(dataLen) >= 1.0
      invariant s == Round((2 * capacity) as real) || !Enough(Round((2 * capacity) as real), dataLen, need)
      decreases 4.0 * (OfInt(dataLen) + OfInt(need) / 0.99 - s)
    {
      RoundBounds(s - OfInt(dataLen));
      RoundBounds(s * 1.5);
      x := s * 1.5;
      s := Round(s * 1.5);
    }
    if dataLen <= EXACT && need <= EXACT {
      EnoughIsEnough(x, dataLen, need);
    }
    size := s.Floor;
  }

  /** Beyond, one byte more is too much: an empty buffer of 2^23 bytes that is to take 2^24 + 1 grows to
      2^24, and one of 2^25 bytes that holds 2^24 + 1 and is to take 3 * 2^24 grows to one byte too little. */
  method GrowsTooLittle() returns (a: nat, b: nat)
    ensures a == EXACT && b == EXACT + 1 + 3 * EXACT - 1
  {
    FirstIsShort();
    a := GrownSize(0x80_0000, 0, EXACT + 1);
    SecondIsShort();
    b := GrownSize(0x200_0000, EXACT + 1, 3 * EXACT);
  }

  lemma FirstIsShort()
    ensures Round(16777216.0) == 16777216.0 && OfInt(EXACT + 1) == 16777216.0 && OfInt(0) == 0.0
  {
    WholeIsExact(16777216.0);
    assert Round(16777217.0) == 2.0 * Round(8388608.5);
  }

  lemma SecondIsShort()
    ensures OfInt(EXACT + 1) == 16777216.0 && Round(67108864.0) == 67108864.0
    ensures OfInt(3 * EXACT) == 50331648.0 && Round(50331648.0) == 50331648.0
  {
    FirstIsShort();
    WholeIsExact(16777216.0);
    WholeIsExact(12582912.0);
    assert Round(67108864.0) == 2.0 * Round(33554432.0);
    assert Round(33554432.0) == 2.0 * Round(16777216.0);
    assert Round(50331648.0) == 2.0 * Round(25165824.0);
    assert Round(25165824.0) == 2.0 * Round(12582912.0);
  }
}
