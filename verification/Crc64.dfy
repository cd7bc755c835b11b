/** CRC-64 (Jones, reflected): the table, the loop over it, and what they compute. */
module Crc64 {
  type Byte = bv8

  // ---------------------------------------------------------------- the table

  // `crc64_tab`, in rows of sixteen.

  const ROW_0: seq<bv64> := [
    0x0000000000000000, 0x7ad870c830358979, 0xf5b0e190606b12f2, 0x8f689158505e9b8b,
    0xc038e5739841b68f, 0xbae095bba8743ff6, 0x358804e3f82aa47d, 0x4f50742bc81f2d04,
    0xab28ecb46814fe75, 0xd1f09c7c5821770c, 0x5e980d24087fec87, 0x24407dec384a65fe,
    0x6b1009c7f05548fa, 0x11c8790fc060c183, 0x9ea0e857903e5a08, 0xe478989fa00bd371]

  const ROW_1: seq<bv64> := [
    0x7d08ff3b88be6f81, 0x07d08ff3b88be6f8, 0x88b81eabe8d57d73, 0xf2606e63d8e0f40a,
    0xbd301a4810ffd90e, 0xc7e86a8020ca5077, 0x4880fbd87094cbfc, 0x32588b1040a14285,
    0xd620138fe0aa91f4, 0xacf86347d09f188d, 0x2390f21f80c18306, 0x594882d7b0f40a7f,
    0x1618f6fc78eb277b, 0x6cc0863448deae02, 0xe3a8176c18803589, 0x997067a428b5bcf0]

  const ROW_2: seq<bv64> := [
    0xfa11fe77117cdf02, 0x80c98ebf2149567b, 0x0fa11fe77117cdf0, 0x75796f2f41224489,
    0x3a291b04893d698d, 0x40f16bccb908e0f4, 0xcf99fa94e9567b7f, 0xb5418a5cd963f206,
    0x513912c379682177, 0x2be1620b495da80e, 0xa489f35319033385, 0xde51839b2936bafc,
    0x9101f7b0e12997f8, 0xebd98778d11c1e81, 0x64b116208142850a, 0x1e6966e8b1770c73]

  const ROW_3: seq<bv64> := [
    0x8719014c99c2b083, 0xfdc17184a9f739fa, 0x72a9e0dcf9a9a271, 0x08719014c99c2b08,
    0x4721e43f0183060c, 0x3df994f731b68f75, 0xb29105af61e814fe, 0xc849756751dd9d87,
    0x2c31edf8f1d64ef6, 0x56e99d30c1e3c78f, 0xd9810c6891bd5c04, 0xa3597ca0a188d57d,
    0xec09088b6997f879, 0x96d1784359a27100, 0x19b9e91b09fcea8b, 0x636199d339c963f2]

  const ROW_4: seq<bv64> := [
    0xdf7adabd7a6e2d6f, 0xa5a2aa754a5ba416, 0x2aca3b2d1a053f9d, 0x50124be52a30b6e4,
    0x1f423fcee22f9be0, 0x659a4f06d21a1299, 0xeaf2de5e82448912, 0x902aae96b271006b,
    0x74523609127ad31a, 0x0e8a46c1224f5a63, 0x81e2d7997211c1e8, 0xfb3aa75142244891,
    0xb46ad37a8a3b6595, 0xceb2a3b2ba0eecec, 0x41da32eaea507767, 0x3b024222da65fe1e]

  const ROW_5: seq<bv64> := [
    0xa2722586f2d042ee, 0xd8aa554ec2e5cb97, 0x57c2c41692bb501c, 0x2d1ab4dea28ed965,
    0x624ac0f56a91f461, 0x1892b03d5aa47d18, 0x97fa21650afae693, 0xed2251ad3acf6fea,
    0x095ac9329ac4bc9b, 0x7382b9faaaf135e2, 0xfcea28a2faafae69, 0x8632586aca9a2710,
    0xc9622c4102850a14, 0xb3ba5c8932b0836d, 0x3cd2cdd162ee18e6, 0x460abd1952db919f]

  const ROW_6: seq<bv64> := [
    0x256b24ca6b12f26d, 0x5fb354025b277b14, 0xd0dbc55a0b79e09f, 0xaa03b5923b4c69e6,
    0xe553c1b9f35344e2, 0x9f8bb171c366cd9b, 0x10e3202993385610, 0x6a3b50e1a30ddf69,
    0x8e43c87e03060c18, 0xf49bb8b633338561, 0x7bf329ee636d1eea, 0x012b592653589793,
    0x4e7b2d0d9b47ba97, 0x34a35dc5ab7233ee, 0xbbcbcc9dfb2ca865, 0xc113bc55cb19211c]

  const ROW_7: seq<bv64> := [
    0x5863dbf1e3ac9dec, 0x22bbab39d3991495, 0xadd33a6183c78f1e, 0xd70b4aa9b3f20667,
    0x985b3e827bed2b63, 0xe2834e4a4bd8a21a, 0x6debdf121b863991, 0x1733afda2bb3b0e8,
    0xf34b37458bb86399, 0x8993478dbb8deae0, 0x06fbd6d5ebd3716b, 0x7c23a61ddbe6f812,
    0x3373d23613f9d516, 0x49aba2fe23cc5c6f, 0xc6c333a67392c7e4, 0xbc1b436e43a74e9d]

  const ROW_8: seq<bv64> := [
    0x95ac9329ac4bc9b5, 0xef74e3e19c7e40cc, 0x601c72b9cc20db47, 0x1ac40271fc15523e,
    0x5594765a340a7f3a, 0x2f4c0692043ff643, 0xa02497ca54616dc8, 0xdafce7026454e4b1,
    0x3e847f9dc45f37c0, 0x445c0f55f46abeb9, 0xcb349e0da4342532, 0xb1eceec59401ac4b,
    0xfebc9aee5c1e814f, 0x8464ea266c2b0836, 0x0b0c7b7e3c7593bd, 0x71d40bb60c401ac4]

  const ROW_9: seq<bv64> := [
    0xe8a46c1224f5a634, 0x927c1cda14c02f4d, 0x1d148d82449eb4c6, 0x67ccfd4a74ab3dbf,
    0x289c8961bcb410bb, 0x5244f9a98c8199c2, 0xdd2c68f1dcdf0249, 0xa7f41839ecea8b30,
    0x438c80a64ce15841, 0x3954f06e7cd4d138, 0xb63c61362c8a4ab3, 0xcce411fe1cbfc3ca,
    0x83b465d5d4a0eece, 0xf96c151de49567b7, 0x76048445b4cbfc3c, 0x0cdcf48d84fe7545]

  const ROW_10: seq<bv64> := [
    0x6fbd6d5ebd3716b7, 0x15651d968d029fce, 0x9a0d8ccedd5c0445, 0xe0d5fc06ed698d3c,
    0xaf85882d2576a038, 0xd55df8e515432941, 0x5a3569bd451db2ca, 0x20ed197575283bb3,
    0xc49581ead523e8c2, 0xbe4df122e51661bb, 0x3125607ab548fa30, 0x4bfd10b2857d7349,
    0x04ad64994d625e4d, 0x7e7514517d57d734, 0xf11d85092d094cbf, 0x8bc5f5c11d3cc5c6]

  const ROW_11: seq<bv64> := [
    0x12b5926535897936, 0x686de2ad05bcf04f, 0xe70573f555e26bc4, 0x9ddd033d65d7e2bd,
    0xd28d7716adc8cfb9, 0xa85507de9dfd46c0, 0x273d9686cda3dd4b, 0x5de5e64efd965432,
    0xb99d7ed15d9d8743, 0xc3450e196da80e3a, 0x4c2d9f413df695b1, 0x36f5ef890dc31cc8,
    0x79a59ba2c5dc31cc, 0x037deb6af5e9b8b5, 0x8c157a32a5b7233e, 0xf6cd0afa9582aa47]

  const ROW_12: seq<bv64> := [
    0x4ad64994d625e4da, 0x300e395ce6106da3, 0xbf66a804b64ef628, 0xc5bed8cc867b7f51,
    0x8aeeace74e645255, 0xf036dc2f7e51db2c, 0x7f5e4d772e0f40a7, 0x05863dbf1e3ac9de,
    0xe1fea520be311aaf, 0x9b26d5e88e0493d6, 0x144e44b0de5a085d, 0x6e963478ee6f8124,
    0x21c640532670ac20, 0x5b1e309b16452559, 0xd476a1c3461bbed2, 0xaeaed10b762e37ab]

  const ROW_13: seq<bv64> := [
    0x37deb6af5e9b8b5b, 0x4d06c6676eae0222, 0xc26e573f3ef099a9, 0xb8b627f70ec510d0,
    0xf7e653dcc6da3dd4, 0x8d3e2314f6efb4ad, 0x0256b24ca6b12f26, 0x788ec2849684a65f,
    0x9cf65a1b368f752e, 0xe62e2ad306bafc57, 0x6946bb8b56e467dc, 0x139ecb4366d1eea5,
    0x5ccebf68aecec3a1, 0x2616cfa09efb4ad8, 0xa97e5ef8cea5d153, 0xd3a62e30fe90582a]

  const ROW_14: seq<bv64> := [
    0xb0c7b7e3c7593bd8, 0xca1fc72bf76cb2a1, 0x45775673a732292a, 0x3faf26bb9707a053,
    0x70ff52905f188d57, 0x0a2722586f2d042e, 0x854fb3003f739fa5, 0xff97c3c80f4616dc,
    0x1bef5b57af4dc5ad, 0x61372b9f9f784cd4, 0xee5fbac7cf26d75f, 0x9487ca0fff135e26,
    0xdbd7be24370c7322, 0xa10fceec0739fa5b, 0x2e675fb4576761d0, 0x54bf2f7c6752e8a9]

  const ROW_15: seq<bv64> := [
    0xcdcf48d84fe75459, 0xb71738107fd2dd20, 0x387fa9482f8c46ab, 0x42a7d9801fb9cfd2,
    0x0df7adabd7a6e2d6, 0x772fdd63e7936baf, 0xf8474c3bb7cdf024, 0x829f3cf387f8795d,
    0x66e7a46c27f3aa2c, 0x1c3fd4a417c62355, 0x935745fc4798b8de, 0xe98f353477ad31a7,
    0xa6df411fbfb21ca3, 0xdc0731d78f8795da, 0x536fa08fdfd90e51, 0x29b7d047efec8728]

  function Row(hi: nat): (r: seq<bv64>)
    requires hi < 16
    ensures |r| == 16
  {
    if hi == 0 then ROW_0
    else if hi == 1 then ROW_1
    else if hi == 2 then ROW_2
    else if hi == 3 then ROW_3
    else if hi == 4 then ROW_4
    else if hi == 5 then ROW_5
    else if hi == 6 then ROW_6
    else if hi == 7 then ROW_7
    else if hi == 8 then ROW_8
    else if hi == 9 then ROW_9
    else if hi == 10 then ROW_10
    else if hi == 11 then ROW_11
    else if hi == 12 then ROW_12
    else if hi == 13 then ROW_13
    else if hi == 14 then ROW_14
    else ROW_15
  }

  function Entry(i: Byte): bv64 {
    NibbleRange(i);
    Row((i >> 4) as nat)[(i & 15) as nat]
  }

  lemma NibbleRange(b: Byte)
    ensures (b >> 4) as nat < 16 && (b & 15) as nat < 16
  {
  }

  /** The generator polynomial, reflected. */
  const POLYNOMIAL: bv64 := 0x95ac9329ac4bc9b5

  /** One bit of the division by the polynomial. */
  function Round(c: bv64): bv64 {
    if c & 1 != 0 then (c >> 1) ^ POLYNOMIAL else c >> 1
  }

  /** What the table is a table of: eight rounds from a byte. */
  function Remainder(i: Byte): bv64 {
    Rounds(i as bv64)
  }

  // The table is linear: an entry is the sum, in the sense of exclusive or, of the entries of its bits.

  function When(b: bool, x: bv64): bv64 {
    if b then x else 0
  }

  function LowPart(i: Byte): bv64 {
    When(i & 1 != 0, 0x7ad870c830358979) ^ When(i & 2 != 0, 0xf5b0e190606b12f2)
    ^ When(i & 4 != 0, 0xc038e5739841b68f) ^ When(i & 8 != 0, 0xab28ecb46814fe75)
  }

  function HighPart(i: Byte): bv64 {
    When(i & 16 != 0, 0x7d08ff3b88be6f81) ^ When(i & 32 != 0, 0xfa11fe77117cdf02)
    ^ When(i & 64 != 0, 0xdf7adabd7a6e2d6f) ^ When(i & 128 != 0, 0x95ac9329ac4bc9b5)
  }

  predicate Nibble(n: nat) {
    n == 0 || n == 1 || n == 2 || n == 3 || n == 4 || n == 5 || n == 6 || n == 7
    || n == 8 || n == 9 || n == 10 || n == 11 || n == 12 || n == 13 || n == 14 || n == 15
  }

  lemma Row1Is(lo: nat)
    requires lo < 16
    ensures ROW_1[lo] == ROW_1[0] ^ ROW_0[lo]
  {
    assert Nibble(lo);
  }

  lemma Row2Is(lo: nat)
    requires lo < 16
    ensures ROW_2[lo] == ROW_2[0] ^ ROW_0[lo]
  {
    assert Nibble(lo);
  }

  lemma Row3Is(lo: nat)
    requires lo < 16
    ensures ROW_3[lo] == ROW_3[0] ^ ROW_0[lo]
  {
    assert Nibble(lo);
  }

  lemma Row4Is(lo: nat)
    requires lo < 16
    ensures ROW_4[lo] == ROW_4[0] ^ ROW_0[lo]
  {
    assert Nibble(lo);
  }

  lemma Row5Is(lo: nat)
    requires lo < 16
    ensures ROW_5[lo] == ROW_5[0] ^ ROW_0[lo]
  {
    assert Nibble(lo);
  }

  lemma Row6Is(lo: nat)
    requires lo < 16
    ensures ROW_6[lo] == ROW_6[0] ^ ROW_0[lo]
  {
    assert Nibble(lo);
  }

  lemma Row7Is(lo: nat)
    requires lo < 16
    ensures ROW_7[lo] == ROW_7[0] ^ ROW_0[lo]
  {
    assert Nibble(lo);
  }

  lemma Row8Is(lo: nat)
    requires lo < 16
    ensures ROW_8[lo] == ROW_8[0] ^ ROW_0[lo]
  {
    assert Nibble(lo);
  }

  lemma Row9Is(lo: nat)
    requires lo < 16
    ensures ROW_9[lo] == ROW_9[0] ^ ROW_0[lo]
  {
    assert Nibble(lo);
  }

  lemma Row10Is(lo: nat)
    requires lo < 16
    ensures ROW_10[lo] == ROW_10[0] ^ ROW_0[lo]
  {
    assert Nibble(lo);
  }

  lemma Row11Is(lo: nat)
    requires lo < 16
    ensures ROW_11[lo] == ROW_11[0] ^ ROW_0[lo]
  {
    assert Nibble(lo);
  }

  lemma Row12Is(lo: nat)
    requires lo < 16
    ensures ROW_12[lo] == ROW_12[0] ^ ROW_0[lo]
  {
    assert Nibble(lo);
  }

  lemma Row13Is(lo: nat)
    requires lo < 16
    ensures ROW_13[lo] == ROW_13[0] ^ ROW_0[lo]
  {
    assert Nibble(lo);
  }

  lemma Row14Is(lo: nat)
    requires lo < 16
    ensures ROW_14[lo] == ROW_14[0] ^ ROW_0[lo]
  {
    assert Nibble(lo);
  }

  lemma Row15Is(lo: nat)
    requires lo < 16
    ensures ROW_15[lo] == ROW_15[0] ^ ROW_0[lo]
  {
    assert Nibble(lo);
  }

  lemma RowIs(hi: nat, lo: nat)
    requires hi < 16 && lo < 16
    ensures Row(hi)[lo] == Row(hi)[0] ^ ROW_0[lo]
  {
    match hi
    case 0 => ZeroStart(ROW_0[lo]);
    case 1 => Row1Is(lo);
    case 2 => Row2Is(lo);
    case 3 => Row3Is(lo);
    case 4 => Row4Is(lo);
    case 5 => Row5Is(lo);
    case 6 => Row6Is(lo);
    case 7 => Row7Is(lo);
    case 8 => Row8Is(lo);
    case 9 => Row9Is(lo);
    case 10 => Row10Is(lo);
    case 11 => Row11Is(lo);
    case 12 => Row12Is(lo);
    case 13 => Row13Is(lo);
    case 14 => Row14Is(lo);
    case _ => Row15Is(lo);
  }

  lemma ZeroStart(x: bv64)
    ensures ROW_0[0] ^ x == x
  {
  }

  lemma FirstRowIs(i: Byte)
    ensures (i & 15) as nat < 16 && ROW_0[(i & 15) as nat] == LowPart(i)
  {
    assert Nibble((i & 15) as nat);
  }

  lemma FirstColumnIs(i: Byte)
    ensures (i >> 4) as nat < 16 && Row((i >> 4) as nat)[0] == HighPart(i)
  {
    assert Nibble((i >> 4) as nat);
  }

  lemma RemainderIsLinear(i: Byte)
    ensures Remainder(i) == HighPart(i) ^ LowPart(i)
  {
  }

  /** Every entry is the remainder of its index. */
  lemma TableIsRight(i: Byte)
    ensures Entry(i) == HighPart(i) ^ LowPart(i) && Entry(i) == Remainder(i)
  {
    hide LowPart, HighPart, Remainder;
    NibbleRange(i);
    RowIs((i >> 4) as nat, (i & 15) as nat);
    FirstRowIs(i);
    FirstColumnIs(i);
    RemainderIsLinear(i);
  }

  // ---------------------------------------------------------------- the checksum

  function Low(crc: bv64): Byte {
    (crc & 255) as Byte
  }

  /** The table index for a byte. */
  function Index(crc: bv64, b: Byte): Byte {
    Low(crc) ^ b
  }

  function Shift(crc: bv64): bv64 {
    crc >> 8
  }

  function Sum(x: bv64, y: bv64): bv64 {
    x ^ y
  }

  function Next(crc: bv64, b: Byte): bv64 {
    Sum(Entry(Index(crc, b)), Shift(crc))
  }

  function Crc(crc: bv64, s: seq<Byte>): bv64
    decreases |s|
  {
    if s == [] then crc else Next(Crc(crc, s[..|s| - 1]), s[|s| - 1])
  }

  /** `crc64`. */
  method Compute(start: bv64, s: seq<Byte>) returns (crc: bv64)
    ensures crc == Crc(start, s)
  {
    hide Next;
    crc := start;
    var j := 0;
    while j < |s|
      invariant j <= |s| && crc == Crc(start, s[..j])
    {
      assert s[..j + 1][..j] == s[..j];
      crc := Next(crc, s[j]);
      j := j + 1;
    }
    assert s[..j] == s;
  }

  function Rounds(c: bv64): bv64 {
    Round(Round(Round(Round(Round(Round(Round(Round(c))))))))
  }

  function Half(c: bv64): bv64 {
    c >> 1
  }

  predicate Odd(c: bv64) {
    c & 1 != 0
  }

  lemma HalfOfSum(x: bv64, y: bv64)
    ensures Half(Sum(x, y)) == Sum(Half(x), Half(y))
    ensures Odd(Sum(x, y)) <==> Odd(x) != Odd(y)
  {
  }

  lemma Commutes(a: bv64, b: bv64)
    ensures Sum(a, b) == Sum(b, a)
  {
  }

  lemma Associates(a: bv64, b: bv64, c: bv64)
    ensures Sum(Sum(a, b), c) == Sum(a, Sum(b, c))
  {
  }

  lemma Cancels(a: bv64)
    ensures Sum(a, a) == 0 && Sum(a, 0) == a && Sum(0, a) == a
  {
  }

  lemma Rearranged(a: bv64, b: bv64, c: bv64, d: bv64)
    ensures Sum(Sum(a, b), Sum(c, d)) == Sum(Sum(a, c), Sum(b, d))
  {
    hide Sum;
    Associates(a, b, Sum(c, d));
    Associates(b, c, d);
    Commutes(b, c);
    Associates(c, b, d);
    Associates(a, c, Sum(b, d));
  }

  lemma WhenEither(p: bool, q: bool, x: bv64)
    ensures When(p != q, x) == Sum(When(p, x), When(q, x))
  {
    hide Sum;
    Cancels(x);
    Cancels(0);
  }

  lemma RoundIs(c: bv64)
    ensures Round(c) == Sum(Half(c), When(Odd(c), POLYNOMIAL))
  {
  }

  lemma RoundIsLinear(x: bv64, y: bv64)
    ensures Round(Sum(x, y)) == Sum(Round(x), Round(y))
  {
    hide Round, Sum, Half, Odd, When;
    RoundIs(x);
    RoundIs(y);
    RoundIs(Sum(x, y));
    HalfOfSum(x, y);
    WhenEither(Odd(x), Odd(y), POLYNOMIAL);
    Rearranged(Half(x), Half(y), When(Odd(x), POLYNOMIAL), When(Odd(y), POLYNOMIAL));
  }

  lemma RoundsAreLinear(x: bv64, y: bv64)
    ensures Rounds(Sum(x, y)) == Sum(Rounds(x), Rounds(y))
  {
    hide Round, Sum;
    RoundIsLinear(x, y);
    var x1, y1 := Round(x), Round(y);
    RoundIsLinear(x1, y1);
    var x2, y2 := Round(x1), Round(y1);
    RoundIsLinear(x2, y2);
    var x3, y3 := Round(x2), Round(y2);
    RoundIsLinear(x3, y3);
    var x4, y4 := Round(x3), Round(y3);
    RoundIsLinear(x4, y4);
    var x5, y5 := Round(x4), Round(y4);
    RoundIsLinear(x5, y5);
    var x6, y6 := Round(x5), Round(y5);
    RoundIsLinear(x6, y6);
    RoundIsLinear(Round(x6), Round(y6));
  }

  /** The part above the low byte is only shifted. */
  function Rest(crc: bv64): bv64 {
    crc & 0xffffffffffffff00
  }

  lemma RestIsShifted(crc: bv64)
    ensures Rounds(Rest(crc)) == Shift(crc)
  {
  }

  lemma IndexWidened(crc: bv64, b: Byte)
    ensures Index(crc, b) as bv64 == Sum(crc & 255, b as bv64)
  {
    assert Low(crc) as bv64 == crc & 255;
  }

  lemma Regrouped(crc: bv64, x: bv64)
    ensures Sum(crc, x) == Sum(Sum(crc & 255, x), Rest(crc))
  {
  }

  lemma MixedIn(crc: bv64, b: Byte)
    ensures Sum(crc, b as bv64) == Sum(Index(crc, b) as bv64, Rest(crc))
  {
    hide Sum, Index, Rest;
    IndexWidened(crc, b);
    Regrouped(crc, b as bv64);
  }

  /** One table step is eight rounds of division of the crc with the byte mixed in. */
  lemma StepDivides(crc: bv64, b: Byte)
    ensures Next(crc, b) == Rounds(Sum(crc, b as bv64))
  {
    hide Entry, HighPart, LowPart, Round, Sum, Shift, Index, Rest;
    TableIsRight(Index(crc, b));
    MixedIn(crc, b);
    RoundsAreLinear(Index(crc, b) as bv64, Rest(crc));
    RestIsShifted(crc);
  }

  lemma {:induction false} CrcConcat(crc: bv64, s: seq<Byte>, t: seq<Byte>)
    ensures Crc(crc, s + t) == Crc(Crc(crc, s), t)
    decreases |t|
  {
    hide Next;
    if t == [] {
      assert s + t == s;
    } else {
      var init := t[..|t| - 1];
      assert (s + t)[..|s + t| - 1] == s + init;
      CrcConcat(crc, s, init);
    }
  }

  // ---------------------------------------------------------------- telling strings apart

  function Top(x: bv64): bv64 {
    x >> 56
  }

  /** The top bytes of the table are distinct. */
  lemma TopsAreDistinct(i: Byte, j: Byte)
    requires Top(Entry(i)) == Top(Entry(j))
    ensures i == j
  {
    hide Entry, Remainder;
    TableIsRight(i);
    TableIsRight(j);
    LinearTops(i, j);
  }

  function Bit(x: Byte, m: Byte, c: Byte): Byte {
    if x & m != 0 then c else 0
  }

  /** The top byte of an entry, as a sum over the bits of its index. */
  function TopByte(x: Byte): Byte {
    Bit(x, 1, 122) ^ Bit(x, 2, 245) ^ Bit(x, 4, 192) ^ Bit(x, 8, 171)
    ^ Bit(x, 16, 125) ^ Bit(x, 32, 250) ^ Bit(x, 64, 223) ^ Bit(x, 128, 149)
  }

  /** The index that has a given top byte. */
  function IndexOf(x: Byte): Byte {
    Bit(x, 1, 107) ^ Bit(x, 2, 214) ^ Bit(x, 4, 172) ^ Bit(x, 8, 51)
    ^ Bit(x, 16, 102) ^ Bit(x, 32, 167) ^ Bit(x, 64, 37) ^ Bit(x, 128, 33)
  }

  lemma TopIs(i: Byte)
    ensures Top(HighPart(i) ^ LowPart(i)) == TopByte(i) as bv64
  {
  }

  lemma IndexIsFound(i: Byte)
    ensures IndexOf(TopByte(i)) == i
  {
  }

  lemma Widened(a: Byte, b: Byte)
    requires a as bv64 == b as bv64
    ensures a == b
  {
  }

  lemma LinearTops(i: Byte, j: Byte)
    requires Top(HighPart(i) ^ LowPart(i)) == Top(HighPart(j) ^ LowPart(j))
    ensures i == j
  {
    hide Top, HighPart, LowPart, TopByte, IndexOf;
    TopIs(i);
    TopIs(j);
    Widened(TopByte(i), TopByte(j));
    IndexIsFound(i);
    IndexIsFound(j);
  }

  /** The top byte of the result is the table's. */
  lemma TopOfSum(x: bv64, crc: bv64)
    ensures Top(Sum(x, Shift(crc))) == Top(x)
  {
  }

  /** A step is injective in the crc, and in the byte; the index and the shifted crc can be read off. */
  lemma NextIsInjective(c: bv64, d: bv64, a: Byte, b: Byte)
    requires Next(c, a) == Next(d, b)
    ensures Index(c, a) == Index(d, b) && Shift(c) == Shift(d)
    ensures a == b ==> c == d
    ensures c == d ==> a == b
  {
    hide Entry, Top, Sum, Shift, Index;
    var i, j := Index(c, a), Index(d, b);
    TopOfSum(Entry(i), c);
    TopOfSum(Entry(j), d);
    TopsAreDistinct(i, j);
    SumIsInjective(Entry(i), Shift(c), Shift(d));
    SameBytes(c, d, a, b);
  }

  lemma SumIsInjective(x: bv64, y: bv64, z: bv64)
    requires Sum(x, y) == Sum(x, z)
    ensures y == z
  {
  }

  lemma SameBytes(c: bv64, d: bv64, a: Byte, b: Byte)
    requires Index(c, a) == Index(d, b) && Shift(c) == Shift(d)
    ensures a == b ==> c == d
    ensures c == d ==> a == b
  {
  }

  /** Different crcs stay different over the same bytes. */
  lemma {:induction false} CrcIsInjective(c: bv64, d: bv64, s: seq<Byte>)
    requires Crc(c, s) == Crc(d, s)
    ensures c == d
    decreases |s|
  {
    hide Next;
    if s != [] {
      var init, last := s[..|s| - 1], s[|s| - 1];
      NextIsInjective(Crc(c, init), Crc(d, init), last, last);
      CrcIsInjective(c, d, init);
    }
  }

  // ---------------------------------------------------------------- bursts of up to eight bytes

  /** The crc without its `m` lowest bytes. */
  function Drop(x: bv64, m: nat): bv64
    requires m <= 8
  {
    if m == 0 then x else Shift(Drop(x, m - 1))
  }

  lemma DropIs(x: bv64, m: nat)
    requires m <= 8
    ensures Drop(x, m) ==
      if m == 0 then x else if m == 1 then x >> 8 else if m == 2 then x >> 16 else if m == 3 then x >> 24
      else if m == 4 then x >> 32 else if m == 5 then x >> 40 else if m == 6 then x >> 48
          else if m == 7 then x >> 56 else 0
  {
    if m > 0 { DropIs(x, m - 1); }
  }

  lemma ShiftOfSum(x: bv64, y: bv64)
    ensures Shift(Sum(x, y)) == Sum(Shift(x), Shift(y))
  {
  }

  lemma {:induction false} DropOfSum(x: bv64, y: bv64, m: nat)
    requires m <= 8
    ensures Drop(Sum(x, y), m) == Sum(Drop(x, m), Drop(y, m))
    decreases m
  {
    hide Sum, Shift;
    if m > 0 {
      DropOfSum(x, y, m - 1);
      ShiftOfSum(Drop(x, m - 1), Drop(y, m - 1));
    }
  }

  lemma {:induction false} DropMore(x: bv64, m: nat)
    requires m < 8
    ensures Drop(Shift(x), m) == Drop(x, m + 1)
    decreases m
  {
    hide Shift;
    if m > 0 { DropMore(x, m - 1); }
  }

  /** What is left still shows the top byte. */
  lemma DroppedTop(x: bv64, y: bv64, m: nat)
    requires m < 8 && Drop(x, m) == Drop(y, m)
    ensures Top(x) == Top(y)
  {
    hide Shift;
    TopIsSeven(x, m);
    TopIsSeven(y, m);
  }

  lemma {:induction false} TopIsSeven(x: bv64, m: nat)
    requires m < 8
    ensures Drop(x, 7) == Top(x) && Drop(x, 7) == Drop(Drop(x, m), 7 - m)
    decreases m
  {
    DropIs(x, 7);
    DropTwice(x, m, 7 - m);
  }

  lemma {:induction false} DropTwice(x: bv64, m: nat, n: nat)
    requires m + n <= 8
    ensures Drop(Drop(x, m), n) == Drop(x, m + n)
    decreases n
  {
    hide Shift;
    if n > 0 { DropTwice(x, m, n - 1); }
  }

  /** The table indices used over a string. */
  function Indices(crc: bv64, s: seq<Byte>): seq<Byte>
    decreases |s|
  {
    if s == [] then []
    else
      var init := s[..|s| - 1];
      Indices(crc, init) + [Index(Crc(crc, init), s[|s| - 1])]
  }

  /** Working backwards, the top bytes give away the indices of up to eight steps. */
  lemma {:induction false} IndicesAreSeen(c: bv64, d: bv64, s: seq<Byte>, t: seq<Byte>, m: nat)
    requires |s| == |t| && |s| + m <= 8 && Drop(Crc(c, s), m) == Drop(Crc(d, t), m)
    ensures Indices(c, s) == Indices(d, t)
    decreases |s|
  {
    hide Drop, Entry, Sum, Shift, Index, Top;
    if s != [] {
      var s1, t1 := s[..|s| - 1], t[..|t| - 1];
      var x, y := Crc(c, s1), Crc(d, t1);
      var i, j := Index(x, s[|s| - 1]), Index(y, t[|t| - 1]);
      DroppedTop(Crc(c, s), Crc(d, t), m);
      TopOfSum(Entry(i), x);
      TopOfSum(Entry(j), y);
      TopsAreDistinct(i, j);
      DropOfSum(Entry(i), Shift(x), m);
      DropOfSum(Entry(j), Shift(y), m);
      SumIsInjective(Drop(Entry(i), m), Drop(Shift(x), m), Drop(Shift(y), m));
      DropMore(x, m);
      DropMore(y, m);
      IndicesAreSeen(c, d, s1, t1, m + 1);
    }
  }

  /** From one crc, the indices give away the bytes. */
  lemma {:induction false} BytesAreSeen(c: bv64, s: seq<Byte>, t: seq<Byte>)
    requires |s| == |t| && Indices(c, s) == Indices(c, t)
    ensures s == t
    decreases |s|
  {
    hide Index, Next;
    if s != [] {
      var s1, t1 := s[..|s| - 1], t[..|t| - 1];
      var a, b := Indices(c, s), Indices(c, t);
      assert a[..|a| - 1] == Indices(c, s1) && b[..|b| - 1] == Indices(c, t1);
      IndicesLength(c, s);
      IndicesLength(c, t);
      IndicesLength(c, s1);
      IndicesLength(c, t1);
      BytesAreSeen(c, s1, t1);
      assert a[|a| - 1] == b[|b| - 1];
      IndexIsInjective(Crc(c, s1), s[|s| - 1], t[|t| - 1]);
      assert s == s1 + [s[|s| - 1]] && t == t1 + [t[|t| - 1]];
    }
  }

  lemma {:induction false} IndicesLength(c: bv64, s: seq<Byte>)
    ensures |Indices(c, s)| == |s|
    decreases |s|
  {
    if s != [] { IndicesLength(c, s[..|s| - 1]); }
  }

  lemma IndexIsInjective(crc: bv64, a: Byte, b: Byte)
    requires Index(crc, a) == Index(crc, b)
    ensures a == b
  {
  }

  /** Two strings that differ only within eight consecutive bytes have different checksums. */
  lemma BurstIsDetected(c: bv64, before: seq<Byte>, s: seq<Byte>, t: seq<Byte>, after: seq<Byte>)
    requires |s| == |t| <= 8 && Crc(c, before + s + after) == Crc(c, before + t + after)
    ensures s == t
  {
    hide Crc, Indices, Index;
    CrcConcat(c, before + s, after);
    CrcConcat(c, before + t, after);
    CrcIsInjective(Crc(c, before + s), Crc(c, before + t), after);
    CrcConcat(c, before, s);
    CrcConcat(c, before, t);
    IndicesAreSeen(Crc(c, before), Crc(c, before), s, t, 0);
    BytesAreSeen(Crc(c, before), s, t);
  }
}
