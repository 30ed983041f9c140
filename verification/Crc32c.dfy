/** CRC-32C as the packet layer computes it: one table lookup per byte, start value 0 and no final
    complement. The table loop is proved equal to the bit-serial register, and the register to the
    remainder of a polynomial division. */
module Crc32c {

  // ----- The bit-serial register ---------------------------------------------------------------

  /** One clock of the reflected register of polynomial 0x1EDC6F41. */
  function Step(c: bv32): bv32 {
    if c & 1 == 1 then (c >> 1) ^ 0x82f63b78 else c >> 1
  }

  function Step4(c: bv32): bv32 {
    Step(Step(Step(Step(c))))
  }

  function Step8(c: bv32): bv32 {
    Step4(Step4(c))
  }

  function Xor(x: bv32, y: bv32): bv32 {
    x ^ y
  }

  function Word(b: bv8): bv32 {
    b as bv32
  }

  /** Bit-serial CRC of a sequence of bytes, least significant bit first. */
  function Serial(crc: bv32, data: seq<bv8>): bv32
    decreases |data|
  {
    if |data| == 0 then crc else Serial(Step8(Xor(crc, Word(data[0]))), data[1..])
  }

  // ----- The table -------------------------------------------------------------------------------

  /** Entries 0x00 to 0x0F of the table. */
  function Row0(low: bv8): (r: bv32)
    requires low <= 0xF
    ensures r == Step8(0x00 | (low as bv32))
  {
    if low == 0x0 then 0x00000000
    else if low == 0x1 then 0xf26b8303
    else if low == 0x2 then 0xe13b70f7
    else if low == 0x3 then 0x1350f3f4
    else if low == 0x4 then 0xc79a971f
    else if low == 0x5 then 0x35f1141c
    else if low == 0x6 then 0x26a1e7e8
    else if low == 0x7 then 0xd4ca64eb
    else if low == 0x8 then 0x8ad958cf
    else if low == 0x9 then 0x78b2dbcc
    else if low == 0xA then 0x6be22838
    else if low == 0xB then 0x9989ab3b
    else if low == 0xC then 0x4d43cfd0
    else if low == 0xD then 0xbf284cd3
    else if low == 0xE then 0xac78bf27
    else 0x5e133c24
  }

  /** Entries 0x10 to 0x1F of the table. */
  function Row1(low: bv8): (r: bv32)
    requires low <= 0xF
    ensures r == Step8(0x10 | (low as bv32))
  {
    if low == 0x0 then 0x105ec76f
    else if low == 0x1 then 0xe235446c
    else if low == 0x2 then 0xf165b798
    else if low == 0x3 then 0x030e349b
    else if low == 0x4 then 0xd7c45070
    else if low == 0x5 then 0x25afd373
    else if low == 0x6 then 0x36ff2087
    else if low == 0x7 then 0xc494a384
    else if low == 0x8 then 0x9a879fa0
    else if low == 0x9 then 0x68ec1ca3
    else if low == 0xA then 0x7bbcef57
    else if low == 0xB then 0x89d76c54
    else if low == 0xC then 0x5d1d08bf
    else if low == 0xD then 0xaf768bbc
    else if low == 0xE then 0xbc267848
    else 0x4e4dfb4b
  }

  /** Entries 0x20 to 0x2F of the table. */
  function Row2(low: bv8): (r: bv32)
    requires low <= 0xF
    ensures r == Step8(0x20 | (low as bv32))
  {
    if low == 0x0 then 0x20bd8ede
    else if low == 0x1 then 0xd2d60ddd
    else if low == 0x2 then 0xc186fe29
    else if low == 0x3 then 0x33ed7d2a
    else if low == 0x4 then 0xe72719c1
    else if low == 0x5 then 0x154c9ac2
    else if low == 0x6 then 0x061c6936
    else if low == 0x7 then 0xf477ea35
    else if low == 0x8 then 0xaa64d611
    else if low == 0x9 then 0x580f5512
    else if low == 0xA then 0x4b5fa6e6
    else if low == 0xB then 0xb93425e5
    else if low == 0xC then 0x6dfe410e
    else if low == 0xD then 0x9f95c20d
    else if low == 0xE then 0x8cc531f9
    else 0x7eaeb2fa
  }

  /** Entries 0x30 to 0x3F of the table. */
  function Row3(low: bv8): (r: bv32)
    requires low <= 0xF
    ensures r == Step8(0x30 | (low as bv32))
  {
    if low == 0x0 then 0x30e349b1
    else if low == 0x1 then 0xc288cab2
    else if low == 0x2 then 0xd1d83946
    else if low == 0x3 then 0x23b3ba45
    else if low == 0x4 then 0xf779deae
    else if low == 0x5 then 0x05125dad
    else if low == 0x6 then 0x1642ae59
    else if low == 0x7 then 0xe4292d5a
    else if low == 0x8 then 0xba3a117e
    else if low == 0x9 then 0x4851927d
    else if low == 0xA then 0x5b016189
    else if low == 0xB then 0xa96ae28a
    else if low == 0xC then 0x7da08661
    else if low == 0xD then 0x8fcb0562
    else if low == 0xE then 0x9c9bf696
    else 0x6ef07595
  }

  /** Entries 0x40 to 0x4F of the table. */
  function Row4(low: bv8): (r: bv32)
    requires low <= 0xF
    ensures r == Step8(0x40 | (low as bv32))
  {
    if low == 0x0 then 0x417b1dbc
    else if low == 0x1 then 0xb3109ebf
    else if low == 0x2 then 0xa0406d4b
    else if low == 0x3 then 0x522bee48
    else if low == 0x4 then 0x86e18aa3
    else if low == 0x5 then 0x748a09a0
    else if low == 0x6 then 0x67dafa54
    else if low == 0x7 then 0x95b17957
    else if low == 0x8 then 0xcba24573
    else if low == 0x9 then 0x39c9c670
    else if low == 0xA then 0x2a993584
    else if low == 0xB then 0xd8f2b687
    else if low == 0xC then 0x0c38d26c
    else if low == 0xD then 0xfe53516f
    else if low == 0xE then 0xed03a29b
    else 0x1f682198
  }

  /** Entries 0x50 to 0x5F of the table. */
  function Row5(low: bv8): (r: bv32)
    requires low <= 0xF
    ensures r == Step8(0x50 | (low as bv32))
  {
    if low == 0x0 then 0x5125dad3
    else if low == 0x1 then 0xa34e59d0
    else if low == 0x2 then 0xb01eaa24
    else if low == 0x3 then 0x42752927
    else if low == 0x4 then 0x96bf4dcc
    else if low == 0x5 then 0x64d4cecf
    else if low == 0x6 then 0x77843d3b
    else if low == 0x7 then 0x85efbe38
    else if low == 0x8 then 0xdbfc821c
    else if low == 0x9 then 0x2997011f
    else if low == 0xA then 0x3ac7f2eb
    else if low == 0xB then 0xc8ac71e8
    else if low == 0xC then 0x1c661503
    else if low == 0xD then 0xee0d9600
    else if low == 0xE then 0xfd5d65f4
    else 0x0f36e6f7
  }

  /** Entries 0x60 to 0x6F of the table. */
  function Row6(low: bv8): (r: bv32)
    requires low <= 0xF
    ensures r == Step8(0x60 | (low as bv32))
  {
    if low == 0x0 then 0x61c69362
    else if low == 0x1 then 0x93ad1061
    else if low == 0x2 then 0x80fde395
    else if low == 0x3 then 0x72966096
    else if low == 0x4 then 0xa65c047d
    else if low == 0x5 then 0x5437877e
    else if low == 0x6 then 0x4767748a
    else if low == 0x7 then 0xb50cf789
    else if low == 0x8 then 0xeb1fcbad
    else if low == 0x9 then 0x197448ae
    else if low == 0xA then 0x0a24bb5a
    else if low == 0xB then 0xf84f3859
    else if low == 0xC then 0x2c855cb2
    else if low == 0xD then 0xdeeedfb1
    else if low == 0xE then 0xcdbe2c45
    else 0x3fd5af46
  }

  /** Entries 0x70 to 0x7F of the table. */
  function Row7(low: bv8): (r: bv32)
    requires low <= 0xF
    ensures r == Step8(0x70 | (low as bv32))
  {
    if low == 0x0 then 0x7198540d
    else if low == 0x1 then 0x83f3d70e
    else if low == 0x2 then 0x90a324fa
    else if low == 0x3 then 0x62c8a7f9
    else if low == 0x4 then 0xb602c312
    else if low == 0x5 then 0x44694011
    else if low == 0x6 then 0x5739b3e5
    else if low == 0x7 then 0xa55230e6
    else if low == 0x8 then 0xfb410cc2
    else if low == 0x9 then 0x092a8fc1
    else if low == 0xA then 0x1a7a7c35
    else if low == 0xB then 0xe811ff36
    else if low == 0xC then 0x3cdb9bdd
    else if low == 0xD then 0xceb018de
    else if low == 0xE then 0xdde0eb2a
    else 0x2f8b6829
  }

  /** Entries 0x80 to 0x8F of the table. */
  function Row8(low: bv8): (r: bv32)
    requires low <= 0xF
    ensures r == Step8(0x80 | (low as bv32))
  {
    if low == 0x0 then 0x82f63b78
    else if low == 0x1 then 0x709db87b
    else if low == 0x2 then 0x63cd4b8f
    else if low == 0x3 then 0x91a6c88c
    else if low == 0x4 then 0x456cac67
    else if low == 0x5 then 0xb7072f64
    else if low == 0x6 then 0xa457dc90
    else if low == 0x7 then 0x563c5f93
    else if low == 0x8 then 0x082f63b7
    else if low == 0x9 then 0xfa44e0b4
    else if low == 0xA then 0xe9141340
    else if low == 0xB then 0x1b7f9043
    else if low == 0xC then 0xcfb5f4a8
    else if low == 0xD then 0x3dde77ab
    else if low == 0xE then 0x2e8e845f
    else 0xdce5075c
  }

  /** Entries 0x90 to 0x9F of the table. */
  function Row9(low: bv8): (r: bv32)
    requires low <= 0xF
    ensures r == Step8(0x90 | (low as bv32))
  {
    if low == 0x0 then 0x92a8fc17
    else if low == 0x1 then 0x60c37f14
    else if low == 0x2 then 0x73938ce0
    else if low == 0x3 then 0x81f80fe3
    else if low == 0x4 then 0x55326b08
    else if low == 0x5 then 0xa759e80b
    else if low == 0x6 then 0xb4091bff
    else if low == 0x7 then 0x466298fc
    else if low == 0x8 then 0x1871a4d8
    else if low == 0x9 then 0xea1a27db
    else if low == 0xA then 0xf94ad42f
    else if low == 0xB then 0x0b21572c
    else if low == 0xC then 0xdfeb33c7
    else if low == 0xD then 0x2d80b0c4
    else if low == 0xE then 0x3ed04330
    else 0xccbbc033
  }

  /** Entries 0xA0 to 0xAF of the table. */
  function RowA(low: bv8): (r: bv32)
    requires low <= 0xF
    ensures r == Step8(0xA0 | (low as bv32))
  {
    if low == 0x0 then 0xa24bb5a6
    else if low == 0x1 then 0x502036a5
    else if low == 0x2 then 0x4370c551
    else if low == 0x3 then 0xb11b4652
    else if low == 0x4 then 0x65d122b9
    else if low == 0x5 then 0x97baa1ba
    else if low == 0x6 then 0x84ea524e
    else if low == 0x7 then 0x7681d14d
    else if low == 0x8 then 0x2892ed69
    else if low == 0x9 then 0xdaf96e6a
    else if low == 0xA then 0xc9a99d9e
    else if low == 0xB then 0x3bc21e9d
    else if low == 0xC then 0xef087a76
    else if low == 0xD then 0x1d63f975
    else if low == 0xE then 0x0e330a81
    else 0xfc588982
  }

  /** Entries 0xB0 to 0xBF of the table. */
  function RowB(low: bv8): (r: bv32)
    requires low <= 0xF
    ensures r == Step8(0xB0 | (low as bv32))
  {
    if low == 0x0 then 0xb21572c9
    else if low == 0x1 then 0x407ef1ca
    else if low == 0x2 then 0x532e023e
    else if low == 0x3 then 0xa145813d
    else if low == 0x4 then 0x758fe5d6
    else if low == 0x5 then 0x87e466d5
    else if low == 0x6 then 0x94b49521
    else if low == 0x7 then 0x66df1622
    else if low == 0x8 then 0x38cc2a06
    else if low == 0x9 then 0xcaa7a905
    else if low == 0xA then 0xd9f75af1
    else if low == 0xB then 0x2b9cd9f2
    else if low == 0xC then 0xff56bd19
    else if low == 0xD then 0x0d3d3e1a
    else if low == 0xE then 0x1e6dcdee
    else 0xec064eed
  }

  /** Entries 0xC0 to 0xCF of the table. */
  function RowC(low: bv8): (r: bv32)
    requires low <= 0xF
    ensures r == Step8(0xC0 | (low as bv32))
  {
    if low == 0x0 then 0xc38d26c4
    else if low == 0x1 then 0x31e6a5c7
    else if low == 0x2 then 0x22b65633
    else if low == 0x3 then 0xd0ddd530
    else if low == 0x4 then 0x0417b1db
    else if low == 0x5 then 0xf67c32d8
    else if low == 0x6 then 0xe52cc12c
    else if low == 0x7 then 0x1747422f
    else if low == 0x8 then 0x49547e0b
    else if low == 0x9 then 0xbb3ffd08
    else if low == 0xA then 0xa86f0efc
    else if low == 0xB then 0x5a048dff
    else if low == 0xC then 0x8ecee914
    else if low == 0xD then 0x7ca56a17
    else if low == 0xE then 0x6ff599e3
    else 0x9d9e1ae0
  }

  /** Entries 0xD0 to 0xDF of the table. */
  function RowD(low: bv8): (r: bv32)
    requires low <= 0xF
    ensures r == Step8(0xD0 | (low as bv32))
  {
    if low == 0x0 then 0xd3d3e1ab
    else if low == 0x1 then 0x21b862a8
    else if low == 0x2 then 0x32e8915c
    else if low == 0x3 then 0xc083125f
    else if low == 0x4 then 0x144976b4
    else if low == 0x5 then 0xe622f5b7
    else if low == 0x6 then 0xf5720643
    else if low == 0x7 then 0x07198540
    else if low == 0x8 then 0x590ab964
    else if low == 0x9 then 0xab613a67
    else if low == 0xA then 0xb831c993
    else if low == 0xB then 0x4a5a4a90
    else if low == 0xC then 0x9e902e7b
    else if low == 0xD then 0x6cfbad78
    else if low == 0xE then 0x7fab5e8c
    else 0x8dc0dd8f
  }

  /** Entries 0xE0 to 0xEF of the table. */
  function RowE(low: bv8): (r: bv32)
    requires low <= 0xF
    ensures r == Step8(0xE0 | (low as bv32))
  {
    if low == 0x0 then 0xe330a81a
    else if low == 0x1 then 0x115b2b19
    else if low == 0x2 then 0x020bd8ed
    else if low == 0x3 then 0xf0605bee
    else if low == 0x4 then 0x24aa3f05
    else if low == 0x5 then 0xd6c1bc06
    else if low == 0x6 then 0xc5914ff2
    else if low == 0x7 then 0x37faccf1
    else if low == 0x8 then 0x69e9f0d5
    else if low == 0x9 then 0x9b8273d6
    else if low == 0xA then 0x88d28022
    else if low == 0xB then 0x7ab90321
    else if low == 0xC then 0xae7367ca
    else if low == 0xD then 0x5c18e4c9
    else if low == 0xE then 0x4f48173d
    else 0xbd23943e
  }

  /** Entries 0xF0 to 0xFF of the table. */
  function RowF(low: bv8): (r: bv32)
    requires low <= 0xF
    ensures r == Step8(0xF0 | (low as bv32))
  {
    if low == 0x0 then 0xf36e6f75
    else if low == 0x1 then 0x0105ec76
    else if low == 0x2 then 0x12551f82
    else if low == 0x3 then 0xe03e9c81
    else if low == 0x4 then 0x34f4f86a
    else if low == 0x5 then 0xc69f7b69
    else if low == 0x6 then 0xd5cf889d
    else if low == 0x7 then 0x27a40b9e
    else if low == 0x8 then 0x79b737ba
    else if low == 0x9 then 0x8bdcb4b9
    else if low == 0xA then 0x988c474d
    else if low == 0xB then 0x6ae7c44e
    else if low == 0xC then 0xbe2da0a5
    else if low == 0xD then 0x4c4623a6
    else if low == 0xE then 0x5f16d052
    else 0xad7d5351
  }

  lemma LowNibble(b: bv8)
    ensures b & 0xF <= 0xF
  {
  }

  function Table(b: bv8): bv32 {
    var high, low := b >> 4, b & 0xF;
    LowNibble(b);
    if high == 0x0 then Row0(low)
    else if high == 0x1 then Row1(low)
    else if high == 0x2 then Row2(low)
    else if high == 0x3 then Row3(low)
    else if high == 0x4 then Row4(low)
    else if high == 0x5 then Row5(low)
    else if high == 0x6 then Row6(low)
    else if high == 0x7 then Row7(low)
    else if high == 0x8 then Row8(low)
    else if high == 0x9 then Row9(low)
    else if high == 0xA then RowA(low)
    else if high == 0xB then RowB(low)
    else if high == 0xC then RowC(low)
    else if high == 0xD then RowD(low)
    else if high == 0xE then RowE(low)
    else RowF(low)
  }

  lemma TableIsStep8(b: bv8)
    ensures Table(b) == Step8(Word(b))
  {
    hide Step8;
    Nibbles(b);
  }

  lemma Nibbles(b: bv8)
    ensures b & 0xF <= 0xF && b >> 4 <= 0xF && Word(b) == (Word(b >> 4) << 4) | Word(b & 0xF)
  {
  }

  // ----- Linearity -------------------------------------------------------------------------------

  lemma ShiftXor(x: bv32, y: bv32)
    ensures (x ^ y) >> 1 == (x >> 1) ^ (y >> 1) && (x ^ y) & 1 == (x & 1) ^ (y & 1)
  {
  }

  lemma LowBit(x: bv32)
    ensures x & 1 == 0 || x & 1 == 1
  {
  }

  lemma XorMoves(a: bv32, b: bv32, p: bv32)
    ensures (a ^ p) ^ (b ^ p) == a ^ b && (a ^ p) ^ b == (a ^ b) ^ p && a ^ (b ^ p) == (a ^ b) ^ p
  {
  }

  lemma StepLinear(x: bv32, y: bv32)
    ensures Step(Xor(x, y)) == Xor(Step(x), Step(y))
  {
    ShiftXor(x, y);
    LowBit(x);
    LowBit(y);
    XorMoves(x >> 1, y >> 1, 0x82f63b78);
  }

  lemma Step4Linear(x: bv32, y: bv32)
    ensures Step4(Xor(x, y)) == Xor(Step4(x), Step4(y))
  {
    hide Step, Xor;
    StepLinear(x, y);
    StepLinear(Step(x), Step(y));
    StepLinear(Step(Step(x)), Step(Step(y)));
    StepLinear(Step(Step(Step(x))), Step(Step(Step(y))));
  }

  lemma Step8Linear(x: bv32, y: bv32)
    ensures Step8(Xor(x, y)) == Xor(Step8(x), Step8(y))
  {
    hide Step4, Xor;
    Step4Linear(x, y);
    Step4Linear(Step4(x), Step4(y));
  }

  /** Bits that do not reach the end of the register only move. */
  lemma HighBitsMove(h: bv32)
    requires h & 0xff == 0
    ensures Step8(h) == h >> 8
  {
  }

  // ----- The table loop ------------------------------------------------------------------------

  function LowByte(crc: bv32): bv8 {
    (crc & 0xff) as bv8
  }

  /** One round of the loop: a lookup replaces eight clocks. */
  function Update(crc: bv32, b: bv8): bv32 {
    Xor(Table(b ^ LowByte(crc)), crc >> 8)
  }

  lemma UpdateIsStep8(crc: bv32, b: bv8)
    ensures Update(crc, b) == Step8(Xor(crc, Word(b)))
  {
    hide Table, Step8, Xor, Word, LowByte;
    Recombine(crc, b);
    TableIsStep8(b ^ LowByte(crc));
    Step8Linear(Word(b ^ LowByte(crc)), crc & 0xffffff00);
    HighBitsMove(crc & 0xffffff00);
  }

  lemma Recombine(crc: bv32, b: bv8)
    ensures Xor(Word(b ^ LowByte(crc)), crc & 0xffffff00) == Xor(crc, Word(b))
    ensures (crc & 0xffffff00) & 0xff == 0 && (crc & 0xffffff00) >> 8 == crc >> 8
  {
  }

  /** The table loop over a buffer. */
  method Lookup(crc: bv32, data: seq<bv8>) returns (r: bv32)
    ensures r == Serial(crc, data)
  {
    hide Table, Step8, Xor, Word, LowByte;
    r := crc;
    var i := 0;
    while i < |data|
      invariant 0 <= i <= |data| && Serial(r, data[i..]) == Serial(crc, data)
    {
      UpdateIsStep8(r, data[i]);
      assert data[i..][1..] == data[i + 1..];
      r := Update(r, data[i]);
      i := i + 1;
    }
  }

  function XorByte(a: bv8, b: bv8): bv8 {
    a ^ b
  }

  /** Where two inputs of the same length differ. */
  function XorBytes(a: seq<bv8>, b: seq<bv8>): (r: seq<bv8>)
    requires |a| == |b|
    ensures |r| == |a| && forall i :: 0 <= i < |a| ==> r[i] == XorByte(a[i], b[i])
  {
    seq(|a|, i requires 0 <= i < |a| => XorByte(a[i], b[i]))
  }

  lemma EnterBoth(x: bv32, y: bv32, a: bv8, b: bv8)
    ensures Xor(Xor(x, y), Word(XorByte(a, b))) == Xor(Xor(x, Word(a)), Xor(y, Word(b)))
  {
  }

  /** The checksum of a difference is the difference of the checksums. */
  lemma {:induction false} SerialLinear(x: bv32, y: bv32, a: seq<bv8>, b: seq<bv8>)
    requires |a| == |b|
    ensures Serial(Xor(x, y), XorBytes(a, b)) == Xor(Serial(x, a), Serial(y, b))
    decreases |a|
  {
    hide Step8, Xor, Word, XorByte;
    if |a| > 0 {
      EnterBoth(x, y, a[0], b[0]);
      Step8Linear(Xor(x, Word(a[0])), Xor(y, Word(b[0])));
      SerialLinear(Step8(Xor(x, Word(a[0]))), Step8(Xor(y, Word(b[0]))), a[1..], b[1..]);
      assert XorBytes(a, b)[1..] == XorBytes(a[1..], b[1..]);
    }
  }

  // ----- Changes the checksum cannot miss --------------------------------------------------------

  lemma StepInjective(x: bv32, y: bv32)
    requires Step(x) == Step(y)
    ensures x == y
  {
  }

  lemma Step4Injective(x: bv32, y: bv32)
    requires Step4(x) == Step4(y)
    ensures x == y
  {
    hide Step;
    StepInjective(Step(Step(Step(x))), Step(Step(Step(y))));
    StepInjective(Step(Step(x)), Step(Step(y)));
    StepInjective(Step(x), Step(y));
    StepInjective(x, y);
  }

  lemma Step8Injective(x: bv32, y: bv32)
    requires Step8(x) == Step8(y)
    ensures x == y
  {
    hide Step4;
    Step4Injective(Step4(x), Step4(y));
    Step4Injective(x, y);
  }

  lemma XorCancels(x: bv32, y: bv32, b: bv32)
    requires Xor(x, b) == Xor(y, b)
    ensures x == y
  {
  }

  /** Equal bytes never make different registers meet. */
  lemma {:induction false} SuffixKeepsDifference(x: bv32, y: bv32, data: seq<bv8>)
    requires x != y
    ensures Serial(x, data) != Serial(y, data)
    decreases |data|
  {
    hide Step8, Xor, Word;
    if |data| > 0 {
      var b := Word(data[0]);
      if Step8(Xor(x, b)) == Step8(Xor(y, b)) {
        Step8Injective(Xor(x, b), Xor(y, b));
        XorCancels(x, y, b);
      }
      SuffixKeepsDifference(Step8(Xor(x, b)), Step8(Xor(y, b)), data[1..]);
    }
  }

  lemma {:induction false} SerialConcat(crc: bv32, a: seq<bv8>, b: seq<bv8>)
    ensures Serial(crc, a + b) == Serial(Serial(crc, a), b)
    decreases |a|
  {
    hide Step8, Xor, Word;
    if |a| == 0 {
      assert a + b == b;
    } else {
      SerialConcat(Step8(Xor(crc, Word(a[0]))), a[1..], b);
      assert (a + b)[1..] == a[1..] + b;
    }
  }

  function Shift8(v: bv32): bv32 {
    v << 8
  }

  function Push(v: bv32, b: bv8): bv32 {
    (v << 8) ^ (b as bv32)
  }

  /** Up to four bytes as one little-endian word. */
  function Window(w: seq<bv8>): bv32
    requires |w| <= 4
  {
    if |w| == 0 then 0 else Push(Window(w[1..]), w[0])
  }

  function Clocks(n: nat, c: bv32): bv32 {
    if n == 0 then c else Clocks(n - 1, Step8(c))
  }

  /** The value has at most k bytes. */
  predicate Fits(v: bv32, k: nat) {
    (k == 0 && v == 0) || (k == 1 && v <= 0xff) || (k == 2 && v <= 0xffff) || (k == 3 && v <= 0xffffff)
  }

  lemma PushFits(v: bv32, b: bv8, k: nat)
    requires Fits(v, k) && k <= 2
    ensures Fits(Push(v, b), k + 1)
  {
  }

  lemma {:induction false} WindowFits(w: seq<bv8>)
    requires |w| <= 3
    ensures Fits(Window(w), |w|)
  {
    hide Push;
    if |w| > 0 {
      hide Fits;
      WindowFits(w[1..]);
      PushFits(Window(w[1..]), w[0], |w| - 1);
    }
  }

  lemma ShiftedFits(v: bv32, k: nat)
    requires Fits(v, k)
    ensures Shift8(v) & 0xff == 0 && Shift8(v) >> 8 == v
  {
  }

  /** A byte that enters later may as well have been in the register from the start. */
  lemma EnterEarlier(c: bv32, v: bv32, k: nat)
    requires Fits(v, k)
    ensures Xor(Step8(c), v) == Step8(Xor(c, Shift8(v)))
  {
    hide Step8, Xor, Shift8, Fits;
    ShiftedFits(v, k);
    HighBitsMove(Shift8(v));
    Step8Linear(c, Shift8(v));
  }

  lemma PushIsXor(c: bv32, v: bv32, b: bv8)
    ensures Xor(c, Push(v, b)) == Xor(Xor(c, Word(b)), Shift8(v))
  {
  }

  /** Up to four bytes go through the register like one word. */
  lemma {:induction false} SerialOfWindow(c: bv32, w: seq<bv8>)
    requires |w| <= 4
    ensures Serial(c, w) == Clocks(|w|, Xor(c, Window(w)))
    decreases |w|
  {
    hide Step8, Xor, Word, Push, Shift8, Fits;
    if |w| == 0 {
      XorZero(c);
    } else {
      var b, v := Word(w[0]), Window(w[1..]);
      SerialOfWindow(Step8(Xor(c, b)), w[1..]);
      WindowFits(w[1..]);
      EnterEarlier(Xor(c, b), v, |w| - 1);
      PushIsXor(c, v, w[0]);
    }
  }

  lemma XorZero(c: bv32)
    ensures Xor(c, 0) == c
  {
  }

  lemma {:induction false} ClocksInjective(n: nat, x: bv32, y: bv32)
    requires Clocks(n, x) == Clocks(n, y)
    ensures x == y
  {
    hide Step8;
    if n > 0 {
      ClocksInjective(n - 1, Step8(x), Step8(y));
      Step8Injective(x, y);
    }
  }

  lemma {:induction false} WindowInjective(v: seq<bv8>, w: seq<bv8>)
    requires |v| == |w| <= 4 && Window(v) == Window(w)
    ensures v == w
  {
    hide Push, Fits;
    if |v| > 0 {
      WindowFits(v[1..]);
      WindowFits(w[1..]);
      PushInjective(Window(v[1..]), Window(w[1..]), v[0], w[0], |v| - 1);
      WindowInjective(v[1..], w[1..]);
      assert v == [v[0]] + v[1..] && w == [w[0]] + w[1..];
    }
  }

  lemma PushInjective(x: bv32, y: bv32, a: bv8, b: bv8, k: nat)
    requires Fits(x, k) && Fits(y, k) && Push(x, a) == Push(y, b)
    ensures x == y && a == b
  {
  }

  lemma XorCancelsLeft(c: bv32, x: bv32, y: bv32)
    requires Xor(c, x) == Xor(c, y)
    ensures x == y
  {
  }

  /** Any change confined to four consecutive bytes changes the checksum. */
  lemma BurstIsDetected(crc: bv32, before: seq<bv8>, v: seq<bv8>, w: seq<bv8>, after: seq<bv8>)
    requires |v| == |w| <= 4 && v != w
    ensures Serial(crc, before + v + after) != Serial(crc, before + w + after)
  {
    hide Step8, Xor, Word, Serial, Window, Clocks;
    var c := Serial(crc, before);
    SerialConcat(crc, before, v);
    SerialConcat(crc, before, w);
    SerialConcat(crc, before + v, after);
    SerialConcat(crc, before + w, after);
    if Serial(c, v) == Serial(c, w) {
      SerialOfWindow(c, v);
      SerialOfWindow(c, w);
      ClocksInjective(|v|, Xor(c, Window(v)), Xor(c, Window(w)));
      XorCancelsLeft(c, Window(v), Window(w));
      WindowInjective(v, w);
    }
    SuffixKeepsDifference(Serial(c, v), Serial(c, w), after);
  }
}
