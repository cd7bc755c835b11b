/** The word-at-a-time bit routines behind BITCOUNT, BITPOS and BITOP, shown equal to what they
    mean bit by bit, for every byte string and every alignment of its first byte. */
module Bitops {
  type Byte = bv8

  // ---------------------------------------------------------------- counting ones

  /** How many bits of a byte are set. */
  function Ones(b: Byte): nat {
    (if b & 1 != 0 then 1 else 0) + (if b & 2 != 0 then 1 else 0)
    + (if b & 4 != 0 then 1 else 0) + (if b & 8 != 0 then 1 else 0)
    + (if b & 16 != 0 then 1 else 0) + (if b & 32 != 0 then 1 else 0)
    + (if b & 64 != 0 then 1 else 0) + (if b & 128 != 0 then 1 else 0)
  }

  /** How many bits of a string are set. */
  function OnesIn(s: seq<Byte>): nat {
    if s == [] then 0 else OnesIn(s[..|s| - 1]) + Ones(s[|s| - 1])
  }

  /** `bitsinbyte`, in rows of sixteen. */
  const BITS_IN_BYTE: seq<seq<nat>> := [
    [0, 1, 1, 2, 1, 2, 2, 3, 1, 2, 2, 3, 2, 3, 3, 4],
    [1, 2, 2, 3, 2, 3, 3, 4, 2, 3, 3, 4, 3, 4, 4, 5],
    [1, 2, 2, 3, 2, 3, 3, 4, 2, 3, 3, 4, 3, 4, 4, 5],
    [2, 3, 3, 4, 3, 4, 4, 5, 3, 4, 4, 5, 4, 5, 5, 6],
    [1, 2, 2, 3, 2, 3, 3, 4, 2, 3, 3, 4, 3, 4, 4, 5],
    [2, 3, 3, 4, 3, 4, 4, 5, 3, 4, 4, 5, 4, 5, 5, 6],
    [2, 3, 3, 4, 3, 4, 4, 5, 3, 4, 4, 5, 4, 5, 5, 6],
    [3, 4, 4, 5, 4, 5, 5, 6, 4, 5, 5, 6, 5, 6, 6, 7],
    [1, 2, 2, 3, 2, 3, 3, 4, 2, 3, 3, 4, 3, 4, 4, 5],
    [2, 3, 3, 4, 3, 4, 4, 5, 3, 4, 4, 5, 4, 5, 5, 6],
    [2, 3, 3, 4, 3, 4, 4, 5, 3, 4, 4, 5, 4, 5, 5, 6],
    [3, 4, 4, 5, 4, 5, 5, 6, 4, 5, 5, 6, 5, 6, 6, 7],
    [2, 3, 3, 4, 3, 4, 4, 5, 3, 4, 4, 5, 4, 5, 5, 6],
    [3, 4, 4, 5, 4, 5, 5, 6, 4, 5, 5, 6, 5, 6, 6, 7],
    [3, 4, 4, 5, 4, 5, 5, 6, 4, 5, 5, 6, 5, 6, 6, 7],
    [4, 5, 5, 6, 5, 6, 6, 7, 5, 6, 6, 7, 6, 7, 7, 8]]

  function BitsInByte(b: Byte): nat {
    NibbleRange(b);
    BITS_IN_BYTE[(b >> 4) as nat][(b & 15) as nat]
  }

  lemma NibbleRange(b: Byte)
    ensures (b >> 4) as nat < 16 && (b & 15) as nat < 16
  {
  }

  predicate Nibble(n: nat) {
    n == 0 || n == 1 || n == 2 || n == 3 || n == 4 || n == 5 || n == 6 || n == 7
    || n == 8 || n == 9 || n == 10 || n == 11 || n == 12 || n == 13 || n == 14 || n == 15
  }

  /** The first row counts the ones of a nibble. */
  lemma NibbleOnes(b: Byte)
    requires b <= 15
    ensures (b as nat) < 16 && BITS_IN_BYTE[0][b as nat] == Ones(b)
  {
    assert Nibble(b as nat);
  }

  /** Row `hi` is the first row plus the ones of `hi`. */
  lemma RowIs(hi: nat, lo: nat)
    requires hi < 16 && lo < 16
    ensures BITS_IN_BYTE[hi][lo] == BITS_IN_BYTE[0][hi] + BITS_IN_BYTE[0][lo]
  {
    assert Nibble(hi) && Nibble(lo);
  }

  lemma OnesOfNibbles(b: Byte)
    ensures Ones(b) == Ones(b >> 4) + Ones(b & 15) && b >> 4 <= 15 && b & 15 <= 15
  {
  }

  /** The table holds the number of ones of every byte. */
  lemma TableIsRight(b: Byte)
    ensures BitsInByte(b) == Ones(b)
  {
    hide Ones;
    OnesOfNibbles(b);
    NibbleOnes(b >> 4);
    NibbleOnes(b & 15);
    RowIs((b >> 4) as nat, (b & 15) as nat);
  }

  /** Four bytes side by side, the first lowest. */
  function Pack(a: bv32, b: bv32, c: bv32, d: bv32): bv32 {
    a | (b << 8) | (c << 16) | (d << 24)
  }

  /** The 32-bit word at an address. */
  function Word32(a: Byte, b: Byte, c: Byte, d: Byte): bv32 {
    Pack(a as bv32, b as bv32, c as bv32, d as bv32)
  }

  // The steps of the parallel count: ones in each pair of bits, in each nibble, in each byte.

  function Pairs(x: bv32): bv32 {
    x - ((x >> 1) & 0x55555555)
  }

  function Nibbles(x: bv32): bv32 {
    (x & 0x33333333) + ((x >> 2) & 0x33333333)
  }

  function Bytes(x: bv32): bv32 {
    (x + (x >> 4)) & 0x0F0F0F0F
  }

  function ByteCounts(x: bv32): bv32 {
    Bytes(Nibbles(Pairs(x)))
  }

  /** The count of a word: the byte counts are added up in the top byte. */
  function ParallelCount(x: bv32): bv32 {
    TopByte(ByteCounts(x))
  }

  function TopByte(x: bv32): bv32 {
    (x * 0x01010101) >> 24
  }

  predicate OneByte(x: bv32) {
    x <= 255
  }

  /** Both nibbles hold at most 7. */
  predicate LowNibbles(x: bv32) {
    x <= 255 && x & 0x88 == 0
  }

  /** Subtracting the odd bits from a pair leaves the sum of its two bits. */
  function PairSums(x: bv32): bv32 {
    (x & 0x55555555) + ((x >> 1) & 0x55555555)
  }

  lemma PairsAreSums(x: bv32)
    ensures Pairs(x) == PairSums(x)
  {
  }

  lemma PairSumsByByte(a: bv32, b: bv32, c: bv32, d: bv32)
    requires OneByte(a) && OneByte(b) && OneByte(c) && OneByte(d)
    ensures PairSums(Pack(a, b, c, d)) == Pack(PairSums(a), PairSums(b), PairSums(c), PairSums(d))
  {
  }

  lemma PairsByByte(a: bv32, b: bv32, c: bv32, d: bv32)
    requires OneByte(a) && OneByte(b) && OneByte(c) && OneByte(d)
    ensures Pairs(Pack(a, b, c, d)) == Pack(Pairs(a), Pairs(b), Pairs(c), Pairs(d))
  {
    hide Pairs, PairSums, Pack, OneByte;
    PairSumsByByte(a, b, c, d);
    PairsAreSums(Pack(a, b, c, d));
    PairsAreSums(a);
    PairsAreSums(b);
    PairsAreSums(c);
    PairsAreSums(d);
  }

  lemma PairsFit(a: bv32)
    requires OneByte(a)
    ensures OneByte(Pairs(a))
  {
  }

  lemma NibblesByByte(a: bv32, b: bv32, c: bv32, d: bv32)
    requires OneByte(a) && OneByte(b) && OneByte(c) && OneByte(d)
    ensures Nibbles(Pack(a, b, c, d)) == Pack(Nibbles(a), Nibbles(b), Nibbles(c), Nibbles(d))
  {
  }

  lemma NibblesFit(a: bv32)
    requires OneByte(a)
    ensures LowNibbles(Nibbles(a))
  {
  }

  lemma BytesByByte(a: bv32, b: bv32, c: bv32, d: bv32)
    requires LowNibbles(a) && LowNibbles(b) && LowNibbles(c) && LowNibbles(d)
    ensures Bytes(Pack(a, b, c, d)) == Pack(Bytes(a), Bytes(b), Bytes(c), Bytes(d))
  {
  }

  /** The byte counts of a word are the counts of its bytes. */
  lemma CountsByByte(a: bv32, b: bv32, c: bv32, d: bv32)
    requires OneByte(a) && OneByte(b) && OneByte(c) && OneByte(d)
    ensures ByteCounts(Pack(a, b, c, d)) == Pack(ByteCounts(a), ByteCounts(b), ByteCounts(c), ByteCounts(d))
  {
    hide Pairs, Nibbles, Bytes, Pack, OneByte, LowNibbles;
    PairsByByte(a, b, c, d);
    PairsFit(a);
    PairsFit(b);
    PairsFit(c);
    PairsFit(d);
    NibblesByByte(Pairs(a), Pairs(b), Pairs(c), Pairs(d));
    NibblesFit(Pairs(a));
    NibblesFit(Pairs(b));
    NibblesFit(Pairs(c));
    NibblesFit(Pairs(d));
    BytesByByte(Nibbles(Pairs(a)), Nibbles(Pairs(b)), Nibbles(Pairs(c)), Nibbles(Pairs(d)));
  }

  /** The value of a count. */
  function Number(x: bv32): nat {
    x as nat
  }

  predicate Small(x: bv32) {
    x <= 8
  }

  lemma ByteCountIs(b: Byte)
    ensures OneByte(b as bv32) && Small(ByteCounts(b as bv32)) && Number(ByteCounts(b as bv32)) == Ones(b)
  {
    var x := b as bv32;
    assert ByteCounts(x) == (x & 1) + ((x >> 1) & 1) + ((x >> 2) & 1) + ((x >> 3) & 1)
                            + ((x >> 4) & 1) + ((x >> 5) & 1) + ((x >> 6) & 1) + ((x >> 7) & 1);
  }

  function Plus(x: bv32, y: bv32): bv32 {
    x + y
  }

  lemma TopByteAddsUp(a: bv32, b: bv32, c: bv32, d: bv32)
    requires Small(a) && Small(b) && Small(c) && Small(d)
    ensures TopByte(Pack(a, b, c, d)) == Plus(Plus(Plus(a, b), c), d)
  {
  }

  lemma SmallSum(x: bv32, y: bv32)
    requires Number(x) <= 24 && Number(y) <= 8
    ensures Number(Plus(x, y)) == Number(x) + Number(y)
  {
  }

  lemma SmallIs(x: bv32)
    requires Small(x)
    ensures Number(x) <= 8
  {
  }

  lemma TopByteIsSum(a: bv32, b: bv32, c: bv32, d: bv32)
    requires Small(a) && Small(b) && Small(c) && Small(d)
    ensures Number(TopByte(Pack(a, b, c, d))) == Number(a) + Number(b) + Number(c) + Number(d)
  {
    hide TopByte, Pack, Plus, Number, Small;
    TopByteAddsUp(a, b, c, d);
    SmallIs(a);
    SmallIs(b);
    SmallIs(c);
    SmallIs(d);
    SmallSum(a, b);
    SmallSum(Plus(a, b), c);
    SmallSum(Plus(Plus(a, b), c), d);
  }

  /** The parallel count of a word is the number of ones in its four bytes. */
  lemma ParallelCountIsRight(a: Byte, b: Byte, c: Byte, d: Byte)
    ensures Number(ParallelCount(Word32(a, b, c, d))) == Ones(a) + Ones(b) + Ones(c) + Ones(d)
  {
    hide ByteCounts, Ones, TopByte, Pack, OneByte, Small, Number;
    ByteCountIs(a);
    ByteCountIs(b);
    ByteCountIs(c);
    ByteCountIs(d);
    CountsByByte(a as bv32, b as bv32, c as bv32, d as bv32);
    TopByteIsSum(ByteCounts(a as bv32), ByteCounts(b as bv32), ByteCounts(c as bv32), ByteCounts(d as bv32));
  }

  lemma OnesInNext(s: seq<Byte>, i: nat)
    requires i < |s|
    ensures OnesIn(s[..i + 1]) == OnesIn(s[..i]) + Ones(s[i])
  {
    assert s[..i + 1][..i] == s[..i];
  }

  lemma OnesInFour(s: seq<Byte>, i: nat)
    requires i + 4 <= |s|
    ensures OnesIn(s[..i + 4])
         == OnesIn(s[..i]) + Number(ParallelCount(Word32(s[i], s[i + 1], s[i + 2], s[i + 3])))
  {
    hide OnesIn, ParallelCount, Ones, Word32, Number;
    OnesInNext(s, i);
    OnesInNext(s, i + 1);
    OnesInNext(s, i + 2);
    OnesInNext(s, i + 3);
    ParallelCountIsRight(s[i], s[i + 1], s[i + 2], s[i + 3]);
  }

  /** `redisPopcount` of a string whose first byte is at `address`: bytes up to a multiple of four, then
      sixteen bytes at a time, then the rest. */
  method Popcount(s: array<Byte>, address: nat) returns (bits: nat)
    ensures bits == OnesIn(s[..])
  {
    hide OnesIn, ParallelCount, Ones, Word32, Number, BitsInByte;
    bits := 0;
    var i := 0;
    assert s[..0] == [] && OnesIn([]) == 0 by { EmptyHasNone(); }
    while (address + i) % 4 != 0 && i < s.Length
      invariant 0 <= i <= s.Length && bits == OnesIn(s[..i])
      decreases s.Length - i
    {
      TableIsRight(s[i]);
      OnesInNext(s[..], i);
      assert s[..][..i] == s[..i] && s[..][..i + 1] == s[..i + 1];
      bits := bits + BitsInByte(s[i]);
      i := i + 1;
    }
    while s.Length - i >= 16
      invariant 0 <= i <= s.Length && bits == OnesIn(s[..i])
    {
      var one := Number(ParallelCount(Word32(s[i], s[i + 1], s[i + 2], s[i + 3])));
      var two := Number(ParallelCount(Word32(s[i + 4], s[i + 5], s[i + 6], s[i + 7])));
      var three := Number(ParallelCount(Word32(s[i + 8], s[i + 9], s[i + 10], s[i + 11])));
      var four := Number(ParallelCount(Word32(s[i + 12], s[i + 13], s[i + 14], s[i + 15])));
      bits := bits + one + two + three + four;
      SixteenBytes(s[..], i);
      assert s[..][..i] == s[..i] && s[..][..i + 16] == s[..i + 16];
      i := i + 16;
    }
    while i < s.Length
      invariant 0 <= i <= s.Length && bits == OnesIn(s[..i])
    {
      TableIsRight(s[i]);
      OnesInNext(s[..], i);
      assert s[..][..i] == s[..i] && s[..][..i + 1] == s[..i + 1];
      bits := bits + BitsInByte(s[i]);
      i := i + 1;
    }
    assert s[..i] == s[..];
  }

  lemma EmptyHasNone()
    ensures OnesIn([]) == 0
  {
  }

  lemma SixteenBytes(s: seq<Byte>, i: nat)
    requires i + 16 <= |s|
    ensures OnesIn(s[..i + 16]) == OnesIn(s[..i])
      + Number(ParallelCount(Word32(s[i], s[i + 1], s[i + 2], s[i + 3])))
      + Number(ParallelCount(Word32(s[i + 4], s[i + 5], s[i + 6], s[i + 7])))
      + Number(ParallelCount(Word32(s[i + 8], s[i + 9], s[i + 10], s[i + 11])))
      + Number(ParallelCount(Word32(s[i + 12], s[i + 13], s[i + 14], s[i + 15])))
  {
    hide OnesIn, ParallelCount, Word32, Number;
    OnesInFour(s, i);
    OnesInFour(s, i + 4);
    OnesInFour(s, i + 8);
    OnesInFour(s, i + 12);
  }
}
