/** `redisBitpos`: the position of the first bit with a given value, found a word at a time. */
module Bitpos {
  import opened Bitops

  // ---------------------------------------------------------------- what it means

  /** Bit `i` of a byte, the most significant first. */
  function Mask(i: nat): Byte
    requires i < 8
  {
    if i == 0 then 128 else if i == 1 then 64 else if i == 2 then 32 else if i == 3 then 16
    else if i == 4 then 8 else if i == 5 then 4 else if i == 6 then 2 else 1
  }

  predicate Has(b: Byte, mask: Byte) {
    b & mask != 0
  }

  /** Bit `k` of a string that is padded with zeros on the right. */
  predicate BitAt(s: seq<Byte>, k: nat) {
    k / 8 < |s| && Has(s[k / 8], Mask(k % 8))
  }

  /** `k` is the first position with value `bit`. */
  ghost predicate First(s: seq<Byte>, bit: bool, k: nat) {
    BitAt(s, k) == bit && forall i: nat :: i < k ==> BitAt(s, i) != bit
  }

  /** The byte a run without `bit` is made of. */
  function SkipByte(bit: bool): Byte {
    if bit then 0 else 255
  }

  /** A string of skipped bytes has no `bit`. */
  lemma SkippedBits(s: seq<Byte>, bit: bool, n: nat, k: nat)
    requires n <= |s| && (forall i :: 0 <= i < n ==> s[i] == SkipByte(bit)) && k < 8 * n
    ensures BitAt(s, k) != bit
  {
    hide Has, Mask, SkipByte;
    SkipByteBits(bit, k % 8);
  }

  lemma SkipByteBits(bit: bool, i: nat)
    requires i < 8
    ensures Has(SkipByte(bit), Mask(i)) <==> !bit
  {
  }

  // ---------------------------------------------------------------- words

  /** Eight bytes side by side, the first highest. */
  function Word(a: Byte, b: Byte, c: Byte, d: Byte, e: Byte, f: Byte, g: Byte, h: Byte): bv64 {
    (a as bv64 << 56) | (b as bv64 << 48) | (c as bv64 << 40) | (d as bv64 << 32)
    | (e as bv64 << 24) | (f as bv64 << 16) | (g as bv64 << 8) | h as bv64
  }

  const ALL_ONES: bv64 := 0xFFFF_FFFF_FFFF_FFFF

  function SkipWord(bit: bool): bv64 {
    if bit then 0 else ALL_ONES
  }

  lemma SkipWordBytes(bit: bool, a: Byte, b: Byte, c: Byte, d: Byte, e: Byte, f: Byte, g: Byte, h: Byte)
    ensures Word(a, b, c, d, e, f, g, h) == SkipWord(bit) <==>
      var x := SkipByte(bit); a == x && b == x && c == x && d == x && e == x && f == x && g == x && h == x
  {
  }

  predicate Meets(x: bv64, w: bv64) {
    x & w != 0
  }

  /** A mask moved to byte `j` of a word. */
  function Shifted(x: bv64, j: nat): bv64
    requires j < 8
  {
    if j == 0 then x << 56 else if j == 1 then x << 48 else if j == 2 then x << 40 else if j == 3 then x << 32
    else if j == 4 then x << 24 else if j == 5 then x << 16 else if j == 6 then x << 8 else x
  }

  /** The scanning bit after `k` steps. */
  function One(k: nat): bv64
    requires k <= 64
  {
    if k == 64 then 0 else Shifted(Wide(Mask(k % 8)), k / 8)
  }

  predicate Octal(n: nat) {
    n == 0 || n == 1 || n == 2 || n == 3 || n == 4 || n == 5 || n == 6 || n == 7
  }

  lemma OneMoves(k: nat)
    requires k < 64
    ensures One(k) != 0 && One(k) >> 1 == One(k + 1)
  {
    assert Octal(k / 8) && Octal(k % 8);
    if k % 8 == 7 {
      assert k < 63 ==> (k + 1) / 8 == k / 8 + 1 && (k + 1) % 8 == 0;
    } else {
      assert (k + 1) / 8 == k / 8 && (k + 1) % 8 == k % 8 + 1;
    }
  }

  /** The byte a word has at place `j`. */
  function Pick(j: nat, a: Byte, b: Byte, c: Byte, d: Byte, e: Byte, f: Byte, g: Byte, h: Byte): Byte
    requires j < 8
  {
    if j == 0 then a else if j == 1 then b else if j == 2 then c else if j == 3 then d
    else if j == 4 then e else if j == 5 then f else if j == 6 then g else h
  }

  function Wide(m: Byte): bv64 {
    m as bv64
  }

  lemma Place0(m: Byte, a: Byte, b: Byte, c: Byte, d: Byte, e: Byte, f: Byte, g: Byte, h: Byte)
    ensures Meets(Wide(m) << 56, Word(a, b, c, d, e, f, g, h)) <==> Has(a, m)
  {
  }

  lemma Place1(m: Byte, a: Byte, b: Byte, c: Byte, d: Byte, e: Byte, f: Byte, g: Byte, h: Byte)
    ensures Meets(Wide(m) << 48, Word(a, b, c, d, e, f, g, h)) <==> Has(b, m)
  {
  }

  lemma Place2(m: Byte, a: Byte, b: Byte, c: Byte, d: Byte, e: Byte, f: Byte, g: Byte, h: Byte)
    ensures Meets(Wide(m) << 40, Word(a, b, c, d, e, f, g, h)) <==> Has(c, m)
  {
  }

  lemma Place3(m: Byte, a: Byte, b: Byte, c: Byte, d: Byte, e: Byte, f: Byte, g: Byte, h: Byte)
    ensures Meets(Wide(m) << 32, Word(a, b, c, d, e, f, g, h)) <==> Has(d, m)
  {
  }

  lemma Place4(m: Byte, a: Byte, b: Byte, c: Byte, d: Byte, e: Byte, f: Byte, g: Byte, h: Byte)
    ensures Meets(Wide(m) << 24, Word(a, b, c, d, e, f, g, h)) <==> Has(e, m)
  {
  }

  lemma Place5(m: Byte, a: Byte, b: Byte, c: Byte, d: Byte, e: Byte, f: Byte, g: Byte, h: Byte)
    ensures Meets(Wide(m) << 16, Word(a, b, c, d, e, f, g, h)) <==> Has(f, m)
  {
  }

  lemma Place6(m: Byte, a: Byte, b: Byte, c: Byte, d: Byte, e: Byte, f: Byte, g: Byte, h: Byte)
    ensures Meets(Wide(m) << 8, Word(a, b, c, d, e, f, g, h)) <==> Has(g, m)
  {
  }

  lemma Place7(m: Byte, a: Byte, b: Byte, c: Byte, d: Byte, e: Byte, f: Byte, g: Byte, h: Byte)
    ensures Meets(Wide(m), Word(a, b, c, d, e, f, g, h)) <==> Has(h, m)
  {
  }

  lemma ShiftedBit(m: Byte, j: nat, a: Byte, b: Byte, c: Byte, d: Byte, e: Byte, f: Byte, g: Byte, h: Byte)
    requires j < 8
    ensures Meets(Shifted(Wide(m), j), Word(a, b, c, d, e, f, g, h)) <==> Has(Pick(j, a, b, c, d, e, f, g, h), m)
  {
    hide Meets, Has, Word, Wide;
    match j
    case 0 => Place0(m, a, b, c, d, e, f, g, h);
    case 1 => Place1(m, a, b, c, d, e, f, g, h);
    case 2 => Place2(m, a, b, c, d, e, f, g, h);
    case 3 => Place3(m, a, b, c, d, e, f, g, h);
    case 4 => Place4(m, a, b, c, d, e, f, g, h);
    case 5 => Place5(m, a, b, c, d, e, f, g, h);
    case 6 => Place6(m, a, b, c, d, e, f, g, h);
    case _ => Place7(m, a, b, c, d, e, f, g, h);
  }

  // ---------------------------------------------------------------- loading

  /** Byte `i` of a string that is padded with zeros on the right. */
  function Padded(s: seq<Byte>, i: nat): Byte {
    if i < |s| then s[i] else 0
  }

  /** The word made of the eight bytes from `i`. */
  function WordAt(s: seq<Byte>, i: nat): bv64 {
    Word(Padded(s, i), Padded(s, i + 1), Padded(s, i + 2), Padded(s, i + 3),
         Padded(s, i + 4), Padded(s, i + 5), Padded(s, i + 6), Padded(s, i + 7))
  }

  function Up(w: bv64): bv64 {
    w << 8
  }

  function OrByte(w: bv64, b: Byte): bv64 {
    w | b as bv64
  }

  /** Shifting `j` bytes in from the right. */
  function Loaded(s: seq<Byte>, i: nat, j: nat): bv64 {
    if j == 0 then 0 else OrByte(Up(Loaded(s, i, j - 1)), Padded(s, i + j - 1))
  }

  lemma LoadedIsWord(s: seq<Byte>, i: nat)
    ensures Loaded(s, i, 8) == WordAt(s, i)
  {
    hide Padded;
    var w1 := Loaded(s, i, 1);
    var w2 := Loaded(s, i, 2);
    var w3 := Loaded(s, i, 3);
    var w4 := Loaded(s, i, 4);
    var w5 := Loaded(s, i, 5);
    var w6 := Loaded(s, i, 6);
    var w7 := Loaded(s, i, 7);
  }

  /** The scanning bit finds the string's bits. */
  lemma ScanBit(s: seq<Byte>, i: nat, k: nat)
    requires k < 64
    ensures Meets(One(k), WordAt(s, i)) <==> BitAt(s, 8 * i + k)
  {
    hide Shifted, Word, Mask, Meets, Has, Wide, Padded, BitAt, Pick;
    ShiftedBit(Mask(k % 8), k / 8, Padded(s, i), Padded(s, i + 1), Padded(s, i + 2), Padded(s, i + 3),
               Padded(s, i + 4), Padded(s, i + 5), Padded(s, i + 6), Padded(s, i + 7));
    PickPadded(s, i, k / 8);
    assert (8 * i + k) / 8 == i + k / 8 && (8 * i + k) % 8 == k % 8;
    PaddedBit(s, 8 * i + k);
  }

  lemma PickPadded(s: seq<Byte>, i: nat, j: nat)
    requires j < 8
    ensures Pick(j, Padded(s, i), Padded(s, i + 1), Padded(s, i + 2), Padded(s, i + 3),
                 Padded(s, i + 4), Padded(s, i + 5), Padded(s, i + 6), Padded(s, i + 7)) == Padded(s, i + j)
  {
    hide Padded;
  }

  lemma PaddedBit(s: seq<Byte>, k: nat)
    ensures Has(Padded(s, k / 8), Mask(k % 8)) <==> BitAt(s, k)
  {
    hide Has, Mask;
    ZeroByte(Mask(k % 8));
  }

  lemma ZeroByte(m: Byte)
    ensures !Has(0, m)
  {
  }

  // ---------------------------------------------------------------- the routine

  /** The two skipping loops: bytes up to a multiple of eight, then whole words. */
  method Skip(s: array<Byte>, address: nat, bit: bool) returns (i: nat)
    ensures i <= s.Length && forall j :: 0 <= j < i ==> s[j] == SkipByte(bit)
    ensures s.Length - i < 8 || WordAt(s[..], i) != SkipWord(bit)
  {
    hide Word, SkipWord;
    i := 0;
    while (address + i) % 8 != 0 && i < s.Length
      invariant i <= s.Length && forall j :: 0 <= j < i ==> s[j] == SkipByte(bit)
      decreases s.Length - i
    {
      if s[i] != SkipByte(bit) { break; }
      i := i + 1;
    }
    while s.Length - i >= 8
      invariant i <= s.Length && forall j :: 0 <= j < i ==> s[j] == SkipByte(bit)
    {
      var word := Word(s[i], s[i + 1], s[i + 2], s[i + 3], s[i + 4], s[i + 5], s[i + 6], s[i + 7]);
      assert WordAt(s[..], i) == word;
      if word != SkipWord(bit) { break; }
      SkipWordBytes(bit, s[i], s[i + 1], s[i + 2], s[i + 3], s[i + 4], s[i + 5], s[i + 6], s[i + 7]);
      i := i + 8;
    }
  }

  /** Up to eight bytes are loaded, the first highest, padded with zeros. */
  method Load(s: array<Byte>, i: nat) returns (word: bv64)
    requires i <= s.Length
    ensures word == WordAt(s[..], i)
  {
    hide Word, WordAt, Up, OrByte;
    word := 0;
    var j := 0;
    while j < 8
      invariant j <= 8 && word == Loaded(s[..], i, j)
    {
      word := Up(word);
      if i + j < s.Length {
        word := OrByte(word, s[i + j]);
      } else {
        OrNothing(word);
      }
      j := j + 1;
    }
    LoadedIsWord(s[..], i);
  }

  lemma OrNothing(w: bv64)
    ensures OrByte(w, 0) == w
  {
  }

  /** When the word has no `bit`, no position from byte `i` on has. */
  lemma NothingLeft(s: seq<Byte>, i: nat, k: nat)
    requires i <= |s| && WordAt(s, i) == 0 && |s| - i < 8
    ensures !BitAt(s, 8 * i + k)
  {
    hide WordAt, One, Mask, Meets, Has;
    if k < 64 {
      ScanBit(s, i, k);
      ZeroWord(One(k));
    } else {
      assert (8 * i + k) / 8 >= |s|;
    }
  }

  lemma ZeroWord(x: bv64)
    ensures !Meets(x, 0)
  {
  }

  /** `redisBitpos` of a string whose first byte is at `address`: the first position with value `bit`, or -1
      when a set bit is looked for and there is none.  A clear bit is always found, at the latest behind
      the string, so the end of the routine is never reached. */
  method Bitpos(s: array<Byte>, address: nat, bit: bool) returns (pos: int)
    ensures pos >= -1
    ensures pos >= 0 ==> First(s[..], bit, pos)
    ensures pos == -1 ==> bit && forall k: nat :: !BitAt(s[..], k)
  {
    hide Word, WordAt, One, Mask, BitAt, SkipByte, SkipWord, Meets;
    var i := Skip(s, address, bit);
    var word := Load(s, i);
    if bit && word == 0 {
      NoSetBit(s[..], i);
      return -1;
    }
    var k := 0;
    var one := TopBit();
    BitIsThere(s[..], bit, i);
    while one != 0
      invariant k <= 64 && one == One(k)
      invariant forall m: nat :: m < k ==> Meets(One(m), WordAt(s[..], i)) != bit
      decreases 64 - k
    {
      LastOne(k);
      ScanBit(s[..], i, k);
      if Meets(one, word) == bit {
        Found(s[..], bit, i, k);
        return 8 * i + k;
      }
      OneMoves(k);
      one := one >> 1;
      k := k + 1;
    }
    LastOne(k);
    assert false;
    return 0;
  }

  /** A word with only the most significant bit set. */
  method TopBit() returns (one: bv64)
    ensures one == One(0)
  {
    one := ALL_ONES;
    one := one >> 1;
    one := !one;
  }

  lemma LastOne(k: nat)
    requires k <= 64
    ensures One(k) == 0 <==> k == 64
  {
    if k < 64 { OneMoves(k); }
  }

  /** Nothing was skipped but bytes without the bit, and nothing is left. */
  lemma NoSetBit(s: seq<Byte>, i: nat)
    requires i <= |s| && (forall j :: 0 <= j < i ==> s[j] == SkipByte(true)) && WordAt(s, i) == 0
    requires |s| - i < 8 || WordAt(s, i) != SkipWord(true)
    ensures forall k: nat :: !BitAt(s, k)
  {
    hide WordAt, One, Mask, BitAt;
    forall k: nat ensures !BitAt(s, k) {
      if k < 8 * i {
        SkippedBits(s, true, i, k);
      } else {
        NothingLeft(s, i, k - 8 * i);
      }
    }
  }

  lemma Found(s: seq<Byte>, bit: bool, i: nat, k: nat)
    requires i <= |s| && (forall j :: 0 <= j < i ==> s[j] == SkipByte(bit)) && k < 64
    requires forall m: nat :: m < k ==> Meets(One(m), WordAt(s, i)) != bit
    requires BitAt(s, 8 * i + k) == bit
    ensures First(s, bit, 8 * i + k)
  {
    hide WordAt, One, Mask, BitAt, SkipByte, Meets;
    forall p: nat | p < 8 * i + k ensures BitAt(s, p) != bit {
      if p < 8 * i {
        SkippedBits(s, bit, i, p);
      } else {
        ScanBit(s, i, p - 8 * i);
      }
    }
  }

  /** The word at which skipping stopped holds the bit, unless a set bit is looked for in a zero word. */
  lemma BitIsThere(s: seq<Byte>, bit: bool, i: nat)
    requires i <= |s| && (|s| - i < 8 || WordAt(s, i) != SkipWord(bit)) && !(bit && WordAt(s, i) == 0)
    ensures exists m: nat :: m < 64 && Meets(One(m), WordAt(s, i)) == bit
  {
    hide One, Mask, Meets, Has, Word, SkipWord, SkipByte;
    SkipFacts();
    var a, b, c, d := Padded(s, i), Padded(s, i + 1), Padded(s, i + 2), Padded(s, i + 3);
    var e, f, g, h := Padded(s, i + 4), Padded(s, i + 5), Padded(s, i + 6), Padded(s, i + 7);
    SkipWordBytes(bit, a, b, c, d, e, f, g, h);
    var j := SomeByte(bit, a, b, c, d, e, f, g, h);
    var n := SomeBit(bit, Pick(j, a, b, c, d, e, f, g, h));
    WordBit(8 * j + n, a, b, c, d, e, f, g, h);
    assert (8 * j + n) / 8 == j && (8 * j + n) % 8 == n;
    assert Meets(One(8 * j + n), WordAt(s, i)) == bit;
  }

  lemma SkipFacts()
    ensures SkipWord(true) == 0 && SkipByte(false) != 0
  {
  }

  lemma SomeByte(bit: bool, a: Byte, b: Byte, c: Byte, d: Byte, e: Byte, f: Byte, g: Byte, h: Byte) returns (j: nat)
    requires var x := SkipByte(bit); a != x || b != x || c != x || d != x || e != x || f != x || g != x || h != x
    ensures j < 8 && Pick(j, a, b, c, d, e, f, g, h) != SkipByte(bit)
  {
    var x := SkipByte(bit);
    j := if a != x then 0 else if b != x then 1 else if c != x then 2 else if d != x then 3
         else if e != x then 4 else if f != x then 5 else if g != x then 6 else 7;
  }

  lemma SomeBit(bit: bool, b: Byte) returns (n: nat)
    requires b != SkipByte(bit)
    ensures n < 8 && Has(b, Mask(n)) == bit
  {
    n := if (b & 128 != 0) == bit then 0 else if (b & 64 != 0) == bit then 1 else if (b & 32 != 0) == bit then 2
         else if (b & 16 != 0) == bit then 3 else if (b & 8 != 0) == bit then 4 else if (b & 4 != 0) == bit then 5
         else if (b & 2 != 0) == bit then 6 else 7;
  }

  lemma WordBit(k: nat, a: Byte, b: Byte, c: Byte, d: Byte, e: Byte, f: Byte, g: Byte, h: Byte)
    requires k < 64
    ensures Meets(One(k), Word(a, b, c, d, e, f, g, h)) <==> Has(Pick(k / 8, a, b, c, d, e, f, g, h), Mask(k % 8))
  {
    hide Word, Mask, Shifted, Meets, Has, Wide;
    ShiftedBit(Mask(k % 8), k / 8, a, b, c, d, e, f, g, h);
  }
}
