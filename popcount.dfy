/**
 * The three population-count routines of the descriptor matcher.
 *
 * Descriptor words are read as signed 32-bit integers and are modelled as
 * `bv32`; the JavaScript operators `&`, `+`, `-` and `*` followed by `>>`
 * wrap to 32 bits exactly like bit-vector arithmetic, and `>>` propagates the
 * sign bit, which `Sar` spells out.
 */
module Popcnt {

  /** JavaScript `x >> k` on a 32-bit word: the shift that copies the sign bit. */
  function Sar(x: bv32, k: bv5): bv32
  {
    if x & 0x8000_0000 == 0 then x >> k else (x >> k) | !(0xFFFF_FFFF >> k)
  }

  /** Bit 0 of `x` as a number. */
  function Low(x: bv32): (r: nat)
    ensures r <= 1
  {
    if x & 1 == 1 then 1 else 0
  }

  /** The reference count: how many of the `n` lowest bits of `x` are set, one bit at a time. */
  function CountBits(x: bv32, n: nat): (r: nat)
    requires n <= 32
    ensures r <= n
  {
    if n == 0 then 0 else Low(x) + CountBits(x >> 1, n - 1)
  }

  /** Number of set bits of a 32-bit word, the sign bit included. */
  function PopCount(x: bv32): nat
  {
    CountBits(x, 32)
  }

  // ---------------------------------------------------------------------
  // The reference count, byte by byte

  lemma {:induction false} Count8(y: bv32)
    ensures CountBits(y, 8) == Low(y) + Low(y >> 1) + Low(y >> 2) + Low(y >> 3)
                             + Low(y >> 4) + Low(y >> 5) + Low(y >> 6) + Low(y >> 7)
  {
    assert CountBits(y >> 6, 2) == Low(y >> 6) + Low(y >> 7);
    assert CountBits(y >> 4, 4) == Low(y >> 4) + Low(y >> 5) + CountBits(y >> 6, 2);
    assert CountBits(y >> 2, 6) == Low(y >> 2) + Low(y >> 3) + CountBits(y >> 4, 4);
  }

  /** Counting `8 + n` bits is counting the low byte and then `n` bits of the next ones. */
  lemma {:induction false} Split8(x: bv32, y: bv32, n: nat)
    requires n <= 24 && y == x >> 8
    ensures CountBits(x, 8 + n) == CountBits(x, 8) + CountBits(y, n)
  {
    assert CountBits(x >> 6, 2 + n) == Low(x >> 6) + Low(x >> 7) + CountBits(x >> 8, n);
    assert CountBits(x >> 4, 4 + n) == Low(x >> 4) + Low(x >> 5) + CountBits(x >> 6, 2 + n);
    assert CountBits(x >> 2, 6 + n) == Low(x >> 2) + Low(x >> 3) + CountBits(x >> 4, 4 + n);
    Count8(x);
  }

  lemma ShiftsCompose(x: bv32)
    ensures (x >> 8) >> 8 == x >> 16 && (x >> 16) >> 8 == x >> 24
  {
  }

  /** The count of a word is the sum of the counts of its four bytes. */
  lemma PopCountBytes(x: bv32, y1: bv32, y2: bv32, y3: bv32)
    requires y1 == x >> 8 && y2 == y1 >> 8 && y3 == y2 >> 8
    ensures PopCount(x) == CountBits(x, 8) + CountBits(y1, 8) + CountBits(y2, 8) + CountBits(y3, 8)
  {
    Split8(x, y1, 24);
    Split8(y1, y2, 16);
    Split8(y2, y3, 8);
  }

  // ---------------------------------------------------------------------
  // popcnt32: the bit-parallel count

  /** First step: every 2-bit field of the result counts the set bits of that field of `n`. */
  function SwarPairs(n: bv32): bv32
  {
    n - (Sar(n, 1) & 0x5555_5555)
  }

  /** Second step: every 4-bit field holds the sum of its two 2-bit fields. */
  function SwarNibbles(n: bv32): bv32
  {
    (n & 0x3333_3333) + (Sar(n, 2) & 0x3333_3333)
  }

  /** Third step: every byte holds the sum of its two 4-bit fields. */
  function SwarBytes(n: bv32): bv32
  {
    (n + Sar(n, 4)) & 0x0F0F_0F0F
  }

  /** `popcnt32`: the byte sums are added up by a multiplication and the top byte is kept. */
  function Popcnt32(n: bv32): bv32
  {
    Sar(SwarBytes(SwarNibbles(SwarPairs(n))) * 0x0101_0101, 24)
  }

  // The same three steps written with logical shifts only: the reasoning is done on these.

  function Pairs(n: bv32): bv32
  {
    (n & 0x5555_5555) + ((n >> 1) & 0x5555_5555)
  }

  function Nibbles(a: bv32): bv32
  {
    (a & 0x3333_3333) + ((a >> 2) & 0x3333_3333)
  }

  function Octets(b: bv32): bv32
  {
    (b + (b >> 4)) & 0x0F0F_0F0F
  }

  lemma SarMasked1(n: bv32)
    ensures Sar(n, 1) & 0x5555_5555 == (n >> 1) & 0x5555_5555
  {
  }

  lemma SarMasked2(n: bv32)
    ensures Sar(n, 2) & 0x3333_3333 == (n >> 2) & 0x3333_3333
  {
  }

  /** Subtracting the odd bits, shifted down, leaves the sum of the even and the odd bits. */
  lemma SubtractHalves(n: bv32, p: bv32)
    requires p == (n >> 1) & 0x5555_5555
    ensures n - p == (n & 0x5555_5555) + p
  {
    assert n == (n & 0x5555_5555) + (n & 0xAAAA_AAAA);
    assert n & 0xAAAA_AAAA == p + p;
  }

  lemma SwarPairsLogical(n: bv32)
    ensures SwarPairs(n) == Pairs(n)
  {
    SarMasked1(n);
    SubtractHalves(n, (n >> 1) & 0x5555_5555);
  }

  lemma SwarNibblesLogical(a: bv32)
    ensures SwarNibbles(a) == Nibbles(a)
  {
    SarMasked2(a);
  }

  /** Every 4-bit field of `Nibbles(a)` is at most 6, so no field has its top bit set. */
  lemma NibblesSmall(a: bv32)
    ensures Nibbles(a) & 0x8888_8888 == 0
  {
  }

  lemma SwarBytesLogical(b: bv32)
    requires b & 0x8888_8888 == 0
    ensures SwarBytes(b) == Octets(b)
  {
  }

  /** Bit 0 of `x` as a word. */
  function Bit(x: bv32): bv32
  {
    x & 1
  }

  /** The eight low bits of `y` added up as a word. */
  function BitSum8(y: bv32): bv32
  {
    Bit(y) + Bit(y >> 1) + Bit(y >> 2) + Bit(y >> 3) + Bit(y >> 4) + Bit(y >> 5) + Bit(y >> 6) + Bit(y >> 7)
  }

  /** The low byte of the three steps is the number of set bits of the low byte of `y`. */
  lemma OctetsLow(y: bv32, a: bv32, b: bv32)
    requires a == Pairs(y) && b == Nibbles(a)
    ensures Octets(b) & 0xFF == BitSum8(y)
  {
    assert a & 3 == Bit(y) + Bit(y >> 1);
    assert (a >> 2) & 3 == Bit(y >> 2) + Bit(y >> 3);
    assert (a >> 4) & 3 == Bit(y >> 4) + Bit(y >> 5);
    assert (a >> 6) & 3 == Bit(y >> 6) + Bit(y >> 7);
    assert b & 15 == (a & 3) + ((a >> 2) & 3);
    assert (b >> 4) & 15 == ((a >> 4) & 3) + ((a >> 6) & 3);
    assert Octets(b) & 0xFF == (b & 15) + ((b >> 4) & 15);
  }

  lemma BitSum8Small(y: bv32)
    ensures BitSum8(y) <= 8
  {
  }

  /** The eight bits counted as words and as numbers agree. */
  lemma BitSum8Count(y: bv32)
    ensures BitSum8(y) as int == CountBits(y, 8)
  {
    Count8(y);
  }

  // No field carries into the next byte, so each step commutes with a shift by a whole byte.

  lemma PairsShift(n: bv32)
    ensures Pairs(n >> 8) == Pairs(n) >> 8
  {
  }

  lemma NibblesShift(a: bv32)
    ensures Nibbles(a >> 8) == Nibbles(a) >> 8
  {
  }

  lemma OctetsShift(b: bv32)
    requires b & 0x8888_8888 == 0
    ensures Octets(b >> 8) == Octets(b) >> 8
  {
  }

  /** After the three steps every byte holds the number of set bits of the same byte of `n`. */
  function ByteCounts(n: bv32): bv32
  {
    Octets(Nibbles(Pairs(n)))
  }

  lemma ByteCountsShift(n: bv32)
    ensures ByteCounts(n >> 8) == ByteCounts(n) >> 8
  {
    PairsShift(n);
    NibblesShift(Pairs(n));
    NibblesSmall(Pairs(n));
    OctetsShift(Nibbles(Pairs(n)));
  }

  lemma ByteCountsMask(n: bv32)
    ensures ByteCounts(n) & 0xF0F0_F0F0 == 0
  {
  }

  lemma MultiplyByOnes(c: bv32)
    ensures c * 0x0101_0101 == c + (c << 8) + (c << 16) + (c << 24)
  {
  }

  /** With every byte below 16, the top byte of the sum of the shifted copies is the sum of the bytes. */
  lemma ShiftedSums(c: bv32, c1: bv32, c2: bv32, c3: bv32)
    requires c & 0xF0F0_F0F0 == 0
    requires c1 == c >> 8 && c2 == c1 >> 8 && c3 == c2 >> 8
    ensures Sar(c + (c << 8) + (c << 16) + (c << 24), 24) == (c & 0xFF) + (c1 & 0xFF) + (c2 & 0xFF) + (c3 & 0xFF)
  {
  }

  lemma Popcnt32Logical(n: bv32)
    ensures Popcnt32(n) == Sar(ByteCounts(n) * 0x0101_0101, 24)
  {
    SwarPairsLogical(n);
    SwarNibblesLogical(Pairs(n));
    NibblesSmall(Pairs(n));
    SwarBytesLogical(Nibbles(Pairs(n)));
  }

  /** `popcnt32` adds up the low bytes of the byte counts of the word shifted by 0, 8, 16 and 24 bits. */
  lemma Popcnt32Bytes(n: bv32, y1: bv32, y2: bv32, y3: bv32)
    requires y1 == n >> 8 && y2 == y1 >> 8 && y3 == y2 >> 8
    ensures Popcnt32(n) == (ByteCounts(n) & 0xFF) + (ByteCounts(y1) & 0xFF) + (ByteCounts(y2) & 0xFF) + (ByteCounts(y3) & 0xFF)
  {
    Popcnt32Logical(n);
    MultiplyByOnes(ByteCounts(n));
    ByteCountsMask(n);
    ByteCountsShift(n);
    ByteCountsShift(y1);
    ByteCountsShift(y2);
    ShiftedSums(ByteCounts(n), ByteCounts(y1), ByteCounts(y2), ByteCounts(y3));
  }

  lemma ByteCountsLow(y: bv32)
    ensures ByteCounts(y) & 0xFF == BitSum8(y)
  {
    OctetsLow(y, Pairs(y), Nibbles(Pairs(y)));
  }

  /** The low byte of the byte counts, as a number, is the count of the low byte. */
  lemma ByteCountsLowCount(y: bv32)
    ensures ByteCounts(y) & 0xFF <= 8
    ensures (ByteCounts(y) & 0xFF) as int == CountBits(y, 8)
  {
    ByteCountsLow(y);
    BitSum8Small(y);
    BitSum8Count(y);
  }

  /** Two small counts add up the same as words and as numbers. */
  lemma AddSmall(a: bv32, b: bv32)
    requires a <= 32 && b <= 32
    ensures (a + b) as int == a as int + b as int
    ensures a + b <= 64
  {
  }

  lemma SumOfThree(b0: bv32, b1: bv32, b2: bv32)
    requires b0 <= 8 && b1 <= 8 && b2 <= 8
    ensures b0 + b1 + b2 <= 24
    ensures (b0 + b1 + b2) as int == b0 as int + b1 as int + b2 as int
  {
    AddSmall(b0, b1);
    AddSmall(b0 + b1, b2);
  }

  lemma AddInto(s: bv32, a: bv32, b: bv32)
    requires a <= 24 && b <= 8 && s == a + b
    ensures s as int == a as int + b as int
  {
  }

  lemma SumOfFour(b0: bv32, b1: bv32, b2: bv32, b3: bv32)
    requires b0 <= 8 && b1 <= 8 && b2 <= 8 && b3 <= 8
    ensures (b0 + b1 + b2 + b3) as int == b0 as int + b1 as int + b2 as int + b3 as int
  {
    SumOfThree(b0, b1, b2);
    AddInto(b0 + b1 + b2 + b3, b0 + b1 + b2, b3);
  }

  /** The four byte counts as words, added and read as a number, give the count of the word. */
  lemma ByteCountsSum(n: bv32, y1: bv32, y2: bv32, y3: bv32)
    requires y1 == n >> 8 && y2 == y1 >> 8 && y3 == y2 >> 8
    ensures ((ByteCounts(n) & 0xFF) + (ByteCounts(y1) & 0xFF) + (ByteCounts(y2) & 0xFF) + (ByteCounts(y3) & 0xFF)) as int
         == PopCount(n)
  {
    ByteCountsLowCount(n);
    ByteCountsLowCount(y1);
    ByteCountsLowCount(y2);
    ByteCountsLowCount(y3);
    SumOfFour(ByteCounts(n) & 0xFF, ByteCounts(y1) & 0xFF, ByteCounts(y2) & 0xFF, ByteCounts(y3) & 0xFF);
    PopCountBytes(n, y1, y2, y3);
  }

  lemma Popcnt32ByteSum(n: bv32, y1: bv32, y2: bv32, y3: bv32)
    requires y1 == n >> 8 && y2 == y1 >> 8 && y3 == y2 >> 8
    ensures Popcnt32(n) as int == PopCount(n)
  {
    Popcnt32Bytes(n, y1, y2, y3);
    ByteCountsSum(n, y1, y2, y3);
  }

  /** `popcnt32` returns the number of set bits of its argument, for negative words too. */
  lemma Popcnt32Correct(n: bv32)
    ensures Popcnt32(n) as int == PopCount(n)
  {
    var y1 := n >> 8;
    var y2 := y1 >> 8;
    Popcnt32ByteSum(n, y1, y2, y2 >> 8);
  }

  // ---------------------------------------------------------------------
  // Only the zero word has no set bit

  lemma {:induction false} CountBitsOfZero(n: nat)
    requires n <= 32
    ensures CountBits(0, n) == 0
  {
    if n > 0 {
      CountBitsOfZero(n - 1);
    }
  }

  lemma ByteOfNoBits(y: bv32)
    requires CountBits(y, 8) == 0
    ensures y & 0xFF == 0
  {
    Count8(y);
  }

  lemma ZeroBytes(x: bv32, y1: bv32, y2: bv32, y3: bv32)
    requires y1 == x >> 8 && y2 == y1 >> 8 && y3 == y2 >> 8
    requires x & 0xFF == 0 && y1 & 0xFF == 0 && y2 & 0xFF == 0 && y3 & 0xFF == 0
    ensures x == 0
  {
  }

  lemma NoBitsIsZero(x: bv32, y1: bv32, y2: bv32, y3: bv32)
    requires y1 == x >> 8 && y2 == y1 >> 8 && y3 == y2 >> 8
    requires PopCount(x) == 0
    ensures x == 0
  {
    PopCountBytes(x, y1, y2, y3);
    ByteOfNoBits(x);
    ByteOfNoBits(y1);
    ByteOfNoBits(y2);
    ByteOfNoBits(y3);
    ZeroBytes(x, y1, y2, y3);
  }

  /** A word has no set bit exactly when it is zero. */
  lemma PopCountZero(x: bv32)
    ensures PopCount(x) == 0 <==> x == 0
  {
    if x == 0 {
      CountBitsOfZero(32);
    } else if PopCount(x) == 0 {
      var y1 := x >> 8;
      var y2 := y1 >> 8;
      NoBitsIsZero(x, y1, y2, y2 >> 8);
    }
  }

  // ---------------------------------------------------------------------
  // Table lookups

  /** Two words with the same low byte have the same count of low-byte bits. */
  lemma {:induction false} SameLowByte(y: bv32, z: bv32)
    requires y & 0xFF == z & 0xFF
    ensures CountBits(y, 8) == CountBits(z, 8)
  {
    Count8(y);
    Count8(z);
    assert Low(y >> 1) == Low(z >> 1);
    assert Low(y >> 2) == Low(z >> 2);
    assert Low(y >> 3) == Low(z >> 3);
    assert Low(y >> 4) == Low(z >> 4);
    assert Low(y >> 5) == Low(z >> 5);
    assert Low(y >> 6) == Low(z >> 6);
    assert Low(y >> 7) == Low(z >> 7);
  }

  /** The number of set bits among the `k` lowest binary digits of the number `i`. */
  function NumBits(i: nat, k: nat): nat
  {
    if k == 0 then 0 else i % 2 + NumBits(i / 2, k - 1)
  }

  lemma ByteStep(b: bv8)
    ensures (b as int) % 2 == Low(b as bv32)
    ensures (b as int) / 2 == (b >> 1) as int
    ensures (b >> 1) as bv32 == (b as bv32) >> 1
  {
  }

  /** On a byte, counting bits of the word and binary digits of the number agree. */
  lemma {:induction false} ByteBits(b: bv8, k: nat)
    requires k <= 8
    ensures CountBits(b as bv32, k) == NumBits(b as int, k)
  {
    if k > 0 {
      ByteStep(b);
      ByteBits(b >> 1, k - 1);
    }
  }

  /** The table position of the low byte of a word. */
  function ByteIndex(x: bv32): (i: nat)
    ensures i < 256
  {
    ((x & 0xFF) as bv8) as int
  }

  /** Entry `i` holds the number of set bits of `i`: the table of `popcnt32_2`. */
  ghost predicate IsByteTable(t: seq<int>)
  {
    |t| == 256 && forall i :: 0 <= i < 256 ==> t[i] == NumBits(i, 8)
  }

  lemma ByteLookup(t: seq<int>, x: bv32)
    requires IsByteTable(t)
    ensures t[ByteIndex(x)] == CountBits(x, 8)
  {
    var b := (x & 0xFF) as bv8;
    ByteBits(b, 8);
    assert b as bv32 == x & 0xFF;
    SameLowByte(b as bv32, x);
  }

  lemma SarTwice(n: bv32)
    ensures Sar(Sar(n, 8), 8) == Sar(n, 16)
  {
    if n & 0x8000_0000 == 0 {
      assert Sar(n, 8) == n >> 8;
    } else {
      assert Sar(n, 8) == (n >> 8) | 0xFF00_0000;
    }
  }

  lemma SarThrice(n: bv32)
    ensures Sar(Sar(n, 16), 8) == Sar(n, 24)
  {
  }

  lemma SarLowByte1(n: bv32)
    ensures Sar(n, 8) & 0xFF == (n >> 8) & 0xFF
  {
  }

  lemma SarLowByte2(n: bv32)
    ensures Sar(n, 16) & 0xFF == ((n >> 8) >> 8) & 0xFF
  {
  }

  lemma SarLowByte3(n: bv32)
    ensures Sar(n, 24) & 0xFF == (((n >> 8) >> 8) >> 8) & 0xFF
  {
  }

  lemma LookupByte1(v2b: seq<int>, n: bv32, y1: bv32)
    requires IsByteTable(v2b) && y1 == n >> 8
    ensures v2b[ByteIndex(Sar(n, 8))] == CountBits(y1, 8)
  {
    ByteLookup(v2b, Sar(n, 8));
    SarLowByte1(n);
    SameLowByte(Sar(n, 8), y1);
  }

  lemma LookupByte2(v2b: seq<int>, n: bv32, y1: bv32, y2: bv32)
    requires IsByteTable(v2b) && y1 == n >> 8 && y2 == y1 >> 8
    ensures v2b[ByteIndex(Sar(Sar(n, 8), 8))] == CountBits(y2, 8)
  {
    SarTwice(n);
    ByteLookup(v2b, Sar(n, 16));
    SarLowByte2(n);
    SameLowByte(Sar(n, 16), y2);
  }

  lemma LookupByte3(v2b: seq<int>, n: bv32, y1: bv32, y2: bv32, y3: bv32)
    requires IsByteTable(v2b) && y1 == n >> 8 && y2 == y1 >> 8 && y3 == y2 >> 8
    ensures v2b[ByteIndex(Sar(Sar(Sar(n, 8), 8), 8))] == CountBits(y3, 8)
  {
    SarTwice(n);
    SarThrice(n);
    ByteLookup(v2b, Sar(n, 24));
    SarLowByte3(n);
    SameLowByte(Sar(n, 24), y3);
  }

  /** `popcnt32_2`: four lookups in the byte table, shifting the word right by 8 bits in between. */
  function Popcnt32Table8(v2b: seq<int>, n: bv32): (r: int)
    requires IsByteTable(v2b)
    ensures r == PopCount(n)
  {
    var y1 := n >> 8;
    var y2 := y1 >> 8;
    Popcnt32Table8Correct(v2b, n, y1, y2, y2 >> 8);
    var n1 := Sar(n, 8);
    var n2 := Sar(n1, 8);
    var n3 := Sar(n2, 8);
    v2b[ByteIndex(n)] + v2b[ByteIndex(n1)] + v2b[ByteIndex(n2)] + v2b[ByteIndex(n3)]
  }

  lemma Popcnt32Table8Correct(v2b: seq<int>, n: bv32, y1: bv32, y2: bv32, y3: bv32)
    requires IsByteTable(v2b)
    requires y1 == n >> 8 && y2 == y1 >> 8 && y3 == y2 >> 8
    ensures v2b[ByteIndex(n)] + v2b[ByteIndex(Sar(n, 8))] + v2b[ByteIndex(Sar(Sar(n, 8), 8))]
          + v2b[ByteIndex(Sar(Sar(Sar(n, 8), 8), 8))] == PopCount(n)
  {
    ByteLookup(v2b, n);
    LookupByte1(v2b, n, y1);
    LookupByte2(v2b, n, y1, y2);
    LookupByte3(v2b, n, y1, y2, y3);
    PopCountBytes(n, y1, y2, y3);
  }

  // ---------------------------------------------------------------------
  // popcnt32_3: a table of 65536 counts built with popcnt32

  /** Entry `i` holds the number of set bits of the 16-bit word `i`: the table of `popcnt32_3`. */
  ghost predicate IsHalfWordTable(t: seq<int>)
  {
    |t| == 0x1_0000 && forall i :: 0 <= i < 0x1_0000 ==> t[i] == PopCount((i as bv16) as bv32)
  }

  /** The table of `popcnt32_3`: `popcnt32(i)` pushed for every `i` below 65536, in order. */
  method BuildHalfWordTable() returns (v2b: seq<int>)
    ensures IsHalfWordTable(v2b)
  {
    v2b := [];
    var i := 0;
    while i < 0x1_0000
      invariant 0 <= i <= 0x1_0000 && |v2b| == i
      invariant forall j :: 0 <= j < i ==> v2b[j] == PopCount((j as bv16) as bv32)
    {
      Popcnt32Correct((i as bv16) as bv32);
      v2b := v2b + [Popcnt32((i as bv16) as bv32) as int];
      i := i + 1;
    }
  }

  /** The table position of the low 16 bits of a word. */
  function HalfWordIndex(x: bv32): (i: nat)
    ensures i < 0x1_0000
  {
    ((x & 0xFFFF) as bv16) as int
  }

  lemma HalfWordRoundTrip(w: bv16)
    ensures (w as int) as bv16 == w && 0 <= w as int < 0x1_0000
  {
  }

  lemma HalfWordEntry(t: seq<int>, w: bv16)
    requires IsHalfWordTable(t)
    ensures t[w as int] == PopCount(w as bv32)
  {
    HalfWordRoundTrip(w);
  }

  lemma HalfWordBits(x: bv32)
    ensures ((x & 0xFFFF) as bv16) as bv32 == x & 0xFFFF
  {
  }

  lemma HalfWordLookup(t: seq<int>, x: bv32)
    requires IsHalfWordTable(t)
    ensures t[HalfWordIndex(x)] == PopCount(x & 0xFFFF)
  {
    HalfWordEntry(t, (x & 0xFFFF) as bv16);
    HalfWordBits(x);
  }

  lemma CountZero()
    ensures CountBits(0, 8) == 0
  {
  }

  /** The count of the low 16 bits is the count of the low byte plus the count of the next one. */
  lemma LowHalfCount(x: bv32, y1: bv32, h: bv32, h1: bv32, h2: bv32, h3: bv32)
    requires y1 == x >> 8
    requires h == x & 0xFFFF && h1 == h >> 8 && h2 == h1 >> 8 && h3 == h2 >> 8
    ensures PopCount(h) == CountBits(x, 8) + CountBits(y1, 8)
  {
    PopCountBytes(h, h1, h2, h3);
    SameLowByte(h, x);
    SameLowByte(h1, y1);
    assert h2 == 0 && h3 == 0;
    CountZero();
  }

  lemma SarNegative16(n: bv32)
    ensures n & 0x8000_0000 != 0 ==> Sar(n, 16) == (n >> 16) | 0xFFFF_0000
  {
  }

  lemma SarNonNegative16(n: bv32)
    ensures n & 0x8000_0000 == 0 ==> Sar(n, 16) == n >> 16
  {
  }

  lemma HighHalfMask(x: bv32)
    ensures ((x >> 16) | 0xFFFF_0000) & 0xFFFF == x >> 16
    ensures (x >> 16) & 0xFFFF == x >> 16
  {
  }

  lemma ShiftTwice(n: bv32, y1: bv32, y2: bv32)
    requires y1 == n >> 8 && y2 == y1 >> 8
    ensures y2 == n >> 16
  {
  }

  /** Whatever the sign of `n`, the arithmetic shift by 16 leaves the high half in the low 16 bits. */
  lemma SarHalf(n: bv32)
    ensures Sar(n, 16) & 0xFFFF == n >> 16
  {
    SarNegative16(n);
    SarNonNegative16(n);
    HighHalfMask(n);
  }

  lemma SarHalfChain(n: bv32, y1: bv32, y2: bv32)
    requires y1 == n >> 8 && y2 == y1 >> 8
    ensures Sar(n, 16) & 0xFFFF == y2 & 0xFFFF
  {
    SarHalf(n);
    ShiftTwice(n, y1, y2);
    HighHalfMask(n);
  }

  lemma HalfCount(x: bv32, y1: bv32)
    requires y1 == x >> 8
    ensures PopCount(x & 0xFFFF) == CountBits(x, 8) + CountBits(y1, 8)
  {
    var h := x & 0xFFFF;
    var h1 := h >> 8;
    var h2 := h1 >> 8;
    LowHalfCount(x, y1, h, h1, h2, h2 >> 8);
  }

  /** The entry for the low half of `n` counts its two low bytes. */
  lemma LookupLowHalf(v2b: seq<int>, n: bv32, y1: bv32)
    requires IsHalfWordTable(v2b)
    requires y1 == n >> 8
    ensures v2b[HalfWordIndex(n)] == CountBits(n, 8) + CountBits(y1, 8)
  {
    HalfWordLookup(v2b, n);
    HalfCount(n, y1);
  }

  lemma HalfWordLookupAt(t: seq<int>, x: bv32, h: bv32)
    requires IsHalfWordTable(t)
    requires x & 0xFFFF == h
    ensures t[HalfWordIndex(x)] == PopCount(h)
  {
    HalfWordLookup(t, x);
  }

  /** Two words with the same low half read the same entry. */
  lemma LookupSameHalf(t: seq<int>, x: bv32, y: bv32)
    requires IsHalfWordTable(t)
    requires x & 0xFFFF == y & 0xFFFF
    ensures t[HalfWordIndex(x)] == PopCount(y & 0xFFFF)
  {
    HalfWordLookupAt(t, x, y & 0xFFFF);
  }

  /** The entry for the high half, reached through an arithmetic shift, counts the low half of `y`. */
  lemma LookupHighHalf(v2b: seq<int>, n: bv32, y: bv32)
    requires IsHalfWordTable(v2b)
    requires Sar(n, 16) & 0xFFFF == y & 0xFFFF
    ensures v2b[HalfWordIndex(Sar(n, 16))] == PopCount(y & 0xFFFF)
  {
    LookupSameHalf(v2b, Sar(n, 16), y);
  }

  /** `popcnt32_3`: one lookup for the low 16 bits, one for the high 16 bits after an arithmetic shift. */
  function Popcnt32Table16(v2b: seq<int>, n: bv32): (r: int)
    requires IsHalfWordTable(v2b)
    ensures r == PopCount(n)
  {
    var y1 := n >> 8;
    var y2 := y1 >> 8;
    Popcnt32Table16Correct(v2b, n, y1, y2, y2 >> 8);
    v2b[HalfWordIndex(n)] + v2b[HalfWordIndex(Sar(n, 16))]
  }

  lemma Popcnt32Table16Correct(v2b: seq<int>, n: bv32, y1: bv32, y2: bv32, y3: bv32)
    requires IsHalfWordTable(v2b)
    requires y1 == n >> 8 && y2 == y1 >> 8 && y3 == y2 >> 8
    ensures v2b[HalfWordIndex(n)] + v2b[HalfWordIndex(Sar(n, 16))] == PopCount(n)
  {
    LookupLowHalf(v2b, n, y1);
    SarHalfChain(n, y1, y2);
    LookupHighHalf(v2b, n, y2);
    HalfCount(y2, y3);
    PopCountBytes(n, y1, y2, y3);
  }
}
