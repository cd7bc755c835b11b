/** The computation inside BITOP: a fast path over blocks of four words while every source has
    data, then byte by byte, with short sources padded with zeros. */
module Bitop {
  import opened Bitops
  import opened Bitpos

  datatype Op = And | Or | Xor | Not

  function Apply(op: Op, a: Byte, b: Byte): Byte {
    match op
    case And => a & b
    case Or => a | b
    case Xor => a ^ b
    case Not => a
  }

  function Flip(b: Byte): Byte {
    !b
  }

  /** Byte `j` of the first `n` sources combined. */
  function Combined(op: Op, srcs: seq<seq<Byte>>, j: nat, n: nat): Byte
    requires 1 <= n <= |srcs|
  {
    if n == 1 then (if op == Not then Flip(Padded(srcs[0], j)) else Padded(srcs[0], j))
    else Apply(op, Combined(op, srcs, j, n - 1), Padded(srcs[n - 1], j))
  }

  // ---------------------------------------------------------------- what it means, bit by bit

  /** How many of the first `n` sources have bit `k`. */
  function Holders(srcs: seq<seq<Byte>>, k: nat, n: nat): nat
    requires n <= |srcs|
  {
    if n == 0 then 0 else Holders(srcs, k, n - 1) + if BitAt(srcs[n - 1], k) then 1 else 0
  }

  predicate OneBit(m: Byte) {
    m == 128 || m == 64 || m == 32 || m == 16 || m == 8 || m == 4 || m == 2 || m == 1
  }

  lemma AndBit(a: Byte, b: Byte, m: Byte)
    requires OneBit(m)
    ensures Has(a & b, m) <==> Has(a, m) && Has(b, m)
  {
  }

  lemma OrBit(a: Byte, b: Byte, m: Byte)
    ensures Has(a | b, m) <==> Has(a, m) || Has(b, m)
  {
  }

  lemma XorBit(a: Byte, b: Byte, m: Byte)
    requires OneBit(m)
    ensures Has(a ^ b, m) <==> Has(a, m) != Has(b, m)
  {
  }

  lemma NotBit(a: Byte, m: Byte)
    requires OneBit(m)
    ensures Has(Flip(a), m) <==> !Has(a, m)
  {
  }

  lemma ApplyBits(op: Op, a: Byte, b: Byte, m: Byte)
    requires OneBit(m)
    ensures Has(Apply(op, a, b), m) <==>
      match op
      case And => Has(a, m) && Has(b, m)
      case Or => Has(a, m) || Has(b, m)
      case Xor => Has(a, m) != Has(b, m)
      case Not => Has(a, m)
  {
    hide Has, OneBit;
    AndBit(a, b, m);
    OrBit(a, b, m);
    XorBit(a, b, m);
  }

  /** A bit of the combination is set when all sources have it (AND), some source has it (OR), an odd number
      of sources have it (XOR), or the one source does not have it (NOT). */
  lemma {:induction false} CombinedBit(op: Op, srcs: seq<seq<Byte>>, k: nat, n: nat)
    requires 1 <= n <= |srcs| && (op == Not ==> n == 1)
    ensures Has(Combined(op, srcs, k / 8, n), Mask(k % 8)) <==>
      match op
      case And => Holders(srcs, k, n) == n
      case Or => Holders(srcs, k, n) > 0
      case Xor => Holders(srcs, k, n) % 2 == 1
      case Not => Holders(srcs, k, n) == 0
    ensures Holders(srcs, k, n) <= n
    decreases n
  {
    hide Has, Padded, Apply, BitAt, Flip;
    var m := Mask(k % 8);
    PaddedBit(srcs[n - 1], k);
    if n == 1 {
      NotBit(Padded(srcs[0], k / 8), m);
      assert Holders(srcs, k, 0) == 0;
    } else {
      CombinedBit(op, srcs, k, n - 1);
      ApplyBits(op, Combined(op, srcs, k / 8, n - 1), Padded(srcs[n - 1], k / 8), m);
    }
  }

  // ---------------------------------------------------------------- words

  function WordOp(op: Op, w: bv64, v: bv64): bv64 {
    match op
    case And => w & v
    case Or => w | v
    case Xor => w ^ v
    case Not => w
  }

  /** Byte `t` of a word. */
  function ByteOf(w: bv64, t: nat): Byte
    requires t < 8
  {
    if t == 0 then ((w >> 56) & 255) as Byte else if t == 1 then ((w >> 48) & 255) as Byte
    else if t == 2 then ((w >> 40) & 255) as Byte else if t == 3 then ((w >> 32) & 255) as Byte
    else if t == 4 then ((w >> 24) & 255) as Byte else if t == 5 then ((w >> 16) & 255) as Byte
    else if t == 6 then ((w >> 8) & 255) as Byte else (w & 255) as Byte
  }

  lemma ByteOfWord(t: nat, a: Byte, b: Byte, c: Byte, d: Byte, e: Byte, f: Byte, g: Byte, h: Byte)
    requires t < 8
    ensures ByteOf(Word(a, b, c, d, e, f, g, h), t) == Pick(t, a, b, c, d, e, f, g, h)
  {
  }

  // Word operations act on each byte.

  lemma AndWords(a: Byte, b: Byte, c: Byte, d: Byte, e: Byte, f: Byte, g: Byte, h: Byte,
                p: Byte, q: Byte, r: Byte, s: Byte, t: Byte, u: Byte, v: Byte, w: Byte)
    ensures WordOp(And, Word(a, b, c, d, e, f, g, h), Word(p, q, r, s, t, u, v, w))
         == Word(Apply(And, a, p), Apply(And, b, q), Apply(And, c, r), Apply(And, d, s),
                 Apply(And, e, t), Apply(And, f, u), Apply(And, g, v), Apply(And, h, w))
  {
  }

  lemma OrWords(a: Byte, b: Byte, c: Byte, d: Byte, e: Byte, f: Byte, g: Byte, h: Byte,
                p: Byte, q: Byte, r: Byte, s: Byte, t: Byte, u: Byte, v: Byte, w: Byte)
    ensures WordOp(Or, Word(a, b, c, d, e, f, g, h), Word(p, q, r, s, t, u, v, w))
         == Word(Apply(Or, a, p), Apply(Or, b, q), Apply(Or, c, r), Apply(Or, d, s),
                 Apply(Or, e, t), Apply(Or, f, u), Apply(Or, g, v), Apply(Or, h, w))
  {
  }

  lemma XorWords(a: Byte, b: Byte, c: Byte, d: Byte, e: Byte, f: Byte, g: Byte, h: Byte,
                p: Byte, q: Byte, r: Byte, s: Byte, t: Byte, u: Byte, v: Byte, w: Byte)
    ensures WordOp(Xor, Word(a, b, c, d, e, f, g, h), Word(p, q, r, s, t, u, v, w))
         == Word(Apply(Xor, a, p), Apply(Xor, b, q), Apply(Xor, c, r), Apply(Xor, d, s),
                 Apply(Xor, e, t), Apply(Xor, f, u), Apply(Xor, g, v), Apply(Xor, h, w))
  {
  }

  lemma KeptWord(a: Byte, b: Byte, c: Byte, d: Byte, e: Byte, f: Byte, g: Byte, h: Byte,
                p: Byte, q: Byte, r: Byte, s: Byte, t: Byte, u: Byte, v: Byte, w: Byte)
    ensures WordOp(Not, Word(a, b, c, d, e, f, g, h), Word(p, q, r, s, t, u, v, w))
         == Word(Apply(Not, a, p), Apply(Not, b, q), Apply(Not, c, r), Apply(Not, d, s),
                 Apply(Not, e, t), Apply(Not, f, u), Apply(Not, g, v), Apply(Not, h, w))
  {
  }

  lemma NotWord(a: Byte, b: Byte, c: Byte, d: Byte, e: Byte, f: Byte, g: Byte, h: Byte)
    ensures Invert(Word(a, b, c, d, e, f, g, h))
        == Word(Flip(a), Flip(b), Flip(c), Flip(d), Flip(e), Flip(f), Flip(g), Flip(h))
  {
    hide Word, WordOp, Apply, Invert, Flip;
    var w := Word(a, b, c, d, e, f, g, h);
    InvertIsXor(w);
    XorWords(a, b, c, d, e, f, g, h, 255, 255, 255, 255, 255, 255, 255, 255);
    FlipIsXor(a);
    FlipIsXor(b);
    FlipIsXor(c);
    FlipIsXor(d);
    FlipIsXor(e);
    FlipIsXor(f);
    FlipIsXor(g);
    FlipIsXor(h);
  }

  lemma InvertIsXor(w: bv64)
    ensures Invert(w) == WordOp(Xor, w, Word(255, 255, 255, 255, 255, 255, 255, 255))
  {
  }

  lemma FlipIsXor(b: Byte)
    ensures Flip(b) == Apply(Xor, b, 255)
  {
  }

  function Invert(w: bv64): bv64 {
    !w
  }

  lemma WordOpIsBytewise(op: Op, a: Byte, b: Byte, c: Byte, d: Byte, e: Byte, f: Byte, g: Byte, h: Byte,
                         p: Byte, q: Byte, r: Byte, s: Byte, t: Byte, u: Byte, v: Byte, w: Byte)
    ensures WordOp(op, Word(a, b, c, d, e, f, g, h), Word(p, q, r, s, t, u, v, w))
         == Word(Apply(op, a, p), Apply(op, b, q), Apply(op, c, r), Apply(op, d, s),
                 Apply(op, e, t), Apply(op, f, u), Apply(op, g, v), Apply(op, h, w))
  {
    hide Word, WordOp, Apply;
    match op
    case And => AndWords(a, b, c, d, e, f, g, h, p, q, r, s, t, u, v, w);
    case Or => OrWords(a, b, c, d, e, f, g, h, p, q, r, s, t, u, v, w);
    case Xor => XorWords(a, b, c, d, e, f, g, h, p, q, r, s, t, u, v, w);
    case Not => KeptWord(a, b, c, d, e, f, g, h, p, q, r, s, t, u, v, w);
  }

  // ---------------------------------------------------------------- the routine

  /** The word at byte `pos`. */
  function WordIn(s: seq<Byte>, pos: nat): bv64
    requires pos + 8 <= |s|
  {
    Word(s[pos], s[pos + 1], s[pos + 2], s[pos + 3], s[pos + 4], s[pos + 5], s[pos + 6], s[pos + 7])
  }

  /** The bytes of two words combined. */
  lemma CombinedWord(op: Op, x: seq<Byte>, y: seq<Byte>, pos: nat, t: nat)
    requires pos + 8 <= |x| && pos + 8 <= |y| && t < 8
    ensures ByteOf(WordOp(op, WordIn(x, pos), WordIn(y, pos)), t) == Apply(op, x[pos + t], y[pos + t])
  {
    hide ByteOf, Word, WordOp, Apply;
    WordOpIsBytewise(op, x[pos], x[pos + 1], x[pos + 2], x[pos + 3], x[pos + 4], x[pos + 5], x[pos + 6], x[pos + 7],
                     y[pos], y[pos + 1], y[pos + 2], y[pos + 3], y[pos + 4], y[pos + 5], y[pos + 6], y[pos + 7]);
    ByteOfWord(t, Apply(op, x[pos], y[pos]), Apply(op, x[pos + 1], y[pos + 1]), Apply(op, x[pos + 2], y[pos + 2]),
               Apply(op, x[pos + 3], y[pos + 3]), Apply(op, x[pos + 4], y[pos + 4]), Apply(op, x[pos + 5], y[pos + 5]),
               Apply(op, x[pos + 6], y[pos + 6]), Apply(op, x[pos + 7], y[pos + 7]));
  }

  lemma InvertedWord(x: seq<Byte>, pos: nat, t: nat)
    requires pos + 8 <= |x| && t < 8
    ensures ByteOf(Invert(WordIn(x, pos)), t) == Flip(x[pos + t])
  {
    hide ByteOf, Word, Invert, Flip;
    NotWord(x[pos], x[pos + 1], x[pos + 2], x[pos + 3], x[pos + 4], x[pos + 5], x[pos + 6], x[pos + 7]);
    ByteOfWord(t, Flip(x[pos]), Flip(x[pos + 1]), Flip(x[pos + 2]), Flip(x[pos + 3]),
               Flip(x[pos + 4]), Flip(x[pos + 5]), Flip(x[pos + 6]), Flip(x[pos + 7]));
  }

  /** A word is stored in place. */
  method StoreWord(res: array<Byte>, pos: nat, w: bv64)
    requires pos + 8 <= res.Length
    modifies res
    ensures forall i :: 0 <= i < res.Length ==> res[i] == if pos <= i < pos + 8 then ByteOf(w, i - pos) else old(res[i])
  {
    hide ByteOf;
    var t := 0;
    while t < 8
      invariant t <= 8
      invariant forall i :: 0 <= i < res.Length ==>
          res[i] == if pos <= i < pos + t then ByteOf(w, i - pos) else old(res[i])
    {
      res[pos + t] := ByteOf(w, t);
      t := t + 1;
    }
  }

  /** `lres[k] op= lp[i][k]`. */
  method CombineWord(op: Op, res: array<Byte>, src: seq<Byte>, pos: nat)
    requires pos + 8 <= res.Length && pos + 8 <= |src|
    modifies res
    ensures forall i :: 0 <= i < res.Length ==>
      res[i] == if pos <= i < pos + 8 then Apply(op, old(res[i]), src[i]) else old(res[i])
  {
    hide ByteOf, Word, WordOp, Apply;
    var w, v := WordIn(res[..], pos), WordIn(src, pos);
    forall t: nat | t < 8 ensures ByteOf(WordOp(op, w, v), t) == Apply(op, res[pos + t], src[pos + t]) {
      CombinedWord(op, res[..], src, pos, t);
    }
    StoreWord(res, pos, WordOp(op, w, v));
  }

  /** `lres[k] = ~lres[k]`. */
  method InvertWord(res: array<Byte>, pos: nat)
    requires pos + 8 <= res.Length
    modifies res
    ensures forall i :: 0 <= i < res.Length ==>
      res[i] == if pos <= i < pos + 8 then Flip(old(res[i])) else old(res[i])
  {
    hide ByteOf, Word, Invert, Flip;
    var w := Invert(WordIn(res[..], pos));
    forall t: nat | t < 8 ensures ByteOf(w, t) == Flip(res[pos + t]) {
      InvertedWord(res[..], pos, t);
    }
    StoreWord(res, pos, w);
  }

  /** Four words of one source are combined into the result. */
  method CombineBlock(op: Op, res: array<Byte>, src: seq<Byte>, pos: nat)
    requires pos + 32 <= res.Length && pos + 32 <= |src|
    modifies res
    ensures forall i :: 0 <= i < res.Length ==>
      res[i] == if pos <= i < pos + 32 then Apply(op, old(res[i]), src[i]) else old(res[i])
  {
    hide Apply;
    CombineWord(op, res, src, pos);
    CombineWord(op, res, src, pos + 8);
    CombineWord(op, res, src, pos + 16);
    CombineWord(op, res, src, pos + 24);
  }

  method InvertBlock(res: array<Byte>, pos: nat)
    requires pos + 32 <= res.Length
    modifies res
    ensures forall i :: 0 <= i < res.Length ==>
      res[i] == if pos <= i < pos + 32 then Flip(old(res[i])) else old(res[i])
  {
    hide Flip;
    InvertWord(res, pos);
    InvertWord(res, pos + 8);
    InvertWord(res, pos + 16);
    InvertWord(res, pos + 24);
  }

  /** The fast path, with the first source copied into the result up to the shortest length: afterwards
      every byte below `j` is combined. */
  method FastPath(op: Op, srcs: seq<seq<Byte>>, minlen: nat, res: array<Byte>) returns (j: nat)
    requires |srcs| >= 1 && (op == Not ==> |srcs| == 1) && minlen <= res.Length
    requires forall i :: 0 <= i < |srcs| ==> minlen <= |srcs[i]|
    requires forall i :: 0 <= i < minlen ==> res[i] == srcs[0][i]
    modifies res
    ensures j <= minlen && forall i: nat :: i < j ==> res[i] == Combined(op, srcs, i, |srcs|)
  {
    hide Apply, Combined, Flip;
    j := 0;
    while minlen - j >= 32
      invariant j <= minlen
      invariant forall i: nat :: i < j ==> res[i] == Combined(op, srcs, i, |srcs|)
      invariant forall i :: j <= i < minlen ==> res[i] == srcs[0][i]
    {
      j := FastBlock(op, srcs, minlen, res, j);
    }
  }

  /** One round of the fast path. */
  method FastBlock(op: Op, srcs: seq<seq<Byte>>, minlen: nat, res: array<Byte>, j: nat) returns (next: nat)
    requires |srcs| >= 1 && (op == Not ==> |srcs| == 1) && minlen <= res.Length && j + 32 <= minlen
    requires forall i :: 0 <= i < |srcs| ==> minlen <= |srcs[i]|
    requires forall i :: j <= i < j + 32 ==> res[i] == srcs[0][i]
    modifies res
    ensures next == j + 32
    ensures forall i: nat :: j <= i < next ==> res[i] == Combined(op, srcs, i, |srcs|)
    ensures forall i: nat :: i < res.Length && !(j <= i < next) ==> res[i] == old(res[i])
  {
    hide Apply, Combined, Flip;
    FirstCombined(op, srcs);
    if op == Not {
      InvertBlock(res, j);
    } else {
      var n := 1;
      while n < |srcs|
        invariant 1 <= n <= |srcs|
        invariant forall i: nat :: j <= i < j + 32 ==> res[i] == Combined(op, srcs, i, n)
        invariant forall i: nat :: i < res.Length && !(j <= i < j + 32) ==> res[i] == old(res[i])
      {
        CombineBlock(op, res, srcs[n], j);
        NextCombined(op, srcs, n);
        n := n + 1;
      }
    }
    next := j + 32;
  }

  lemma FirstCombined(op: Op, srcs: seq<seq<Byte>>)
    requires |srcs| >= 1
    ensures forall i: nat ::
      Combined(op, srcs, i, 1) == if op == Not then Flip(Padded(srcs[0], i)) else Padded(srcs[0], i)
  {
  }

  lemma NextCombined(op: Op, srcs: seq<seq<Byte>>, n: nat)
    requires 1 <= n < |srcs|
    ensures forall i: nat :: Combined(op, srcs, i, n + 1) == Apply(op, Combined(op, srcs, i, n), Padded(srcs[n], i))
  {
  }

  /** Byte `j` by the plain loop over the sources. */
  method SlowByte(op: Op, srcs: seq<seq<Byte>>, j: nat) returns (output: Byte)
    requires |srcs| >= 1 && (op == Not ==> |srcs| == 1)
    ensures output == Combined(op, srcs, j, |srcs|)
  {
    hide Combined, Apply, Flip;
    output := if |srcs[0]| <= j then 0 else srcs[0][j];
    FirstCombined(op, srcs);
    if op == Not { output := Flip(output); }
    var n := 1;
    while n < |srcs|
      invariant 1 <= n <= |srcs| && output == Combined(op, srcs, j, n)
    {
      var byte := if |srcs[n]| <= j then 0 else srcs[n][j];
      NextCombined(op, srcs, n);
      output := Apply(op, output, byte);
      n := n + 1;
    }
  }

  /** The shortest and the longest source. */
  method Lengths(srcs: seq<seq<Byte>>) returns (minlen: nat, maxlen: nat)
    ensures forall i :: 0 <= i < |srcs| ==> minlen <= |srcs[i]| <= maxlen
    ensures srcs != [] ==> (exists i :: 0 <= i < |srcs| && |srcs[i]| == maxlen)
  {
    minlen, maxlen := 0, 0;
    var n := 0;
    while n < |srcs|
      invariant n <= |srcs|
      invariant forall i :: 0 <= i < n ==> minlen <= |srcs[i]| <= maxlen
      invariant n == 0 ==> maxlen == 0
      invariant n > 0 ==> exists i :: 0 <= i < n && |srcs[i]| == maxlen
    {
      if |srcs[n]| > maxlen { maxlen := |srcs[n]|; }
      if n == 0 || |srcs[n]| < minlen { minlen := |srcs[n]|; }
      n := n + 1;
    }
  }

  /** The result of BITOP on the strings at its source keys; a missing key is the empty string.  It is as
      long as the longest source and every byte is the padded combination of all sources. */
  method Bitop(op: Op, srcs: seq<seq<Byte>>) returns (res: array<Byte>)
    requires |srcs| >= 1 && (op == Not ==> |srcs| == 1)
    ensures fresh(res)
    ensures forall i :: 0 <= i < |srcs| ==> |srcs[i]| <= res.Length
    ensures exists i :: 0 <= i < |srcs| && |srcs[i]| == res.Length
    ensures forall j: nat :: j < res.Length ==> res[j] == Combined(op, srcs, j, |srcs|)
  {
    hide Combined;
    var minlen, maxlen := Lengths(srcs);
    res := new Byte[maxlen](_ => 0);
    if maxlen == 0 { return; }
    var j := 0;
    if minlen > 0 && |srcs| <= 16 {
      forall i | 0 <= i < minlen { res[i] := srcs[0][i]; }
      j := FastPath(op, srcs, minlen, res);
    }
    while j < maxlen
      invariant j <= maxlen
      invariant forall i: nat :: i < j ==> res[i] == Combined(op, srcs, i, |srcs|)
    {
      var output := SlowByte(op, srcs, j);
      res[j] := output;
      j := j + 1;
    }
  }
}
