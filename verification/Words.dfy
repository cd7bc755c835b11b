/** Machine words (C's `unsigned long`) as sequences of bits, least significant bit first, with the C
    operators on them. Every operator keeps the width, so arithmetic wraps around as in C. */
module Words {

  const WIDTH: nat := 64

  type Bits = seq<bool>
  type Word = w: Bits | |w| == WIDTH witness Zeros(WIDTH)

  function Zeros(n: nat): Bits { seq(n, i => false) }

  function Ones(n: nat): Bits { seq(n, i => true) }

  function And(a: Bits, b: Bits): (r: Bits)
    requires |a| == |b|
    ensures |r| == |a|
  {
    seq(|a|, i requires 0 <= i < |a| => a[i] && b[i])
  }

  function Or(a: Bits, b: Bits): (r: Bits)
    requires |a| == |b|
    ensures |r| == |a|
  {
    seq(|a|, i requires 0 <= i < |a| => a[i] || b[i])
  }

  function Xor(a: Bits, b: Bits): (r: Bits)
    requires |a| == |b|
    ensures |r| == |a|
  {
    seq(|a|, i requires 0 <= i < |a| => a[i] != b[i])
  }

  function Not(a: Bits): (r: Bits)
    ensures |r| == |a|
  {
    seq(|a|, i requires 0 <= i < |a| => !a[i])
  }

  function ShiftLeft(a: Bits, s: nat): (r: Bits)
    ensures |r| == |a|
  {
    seq(|a|, i requires 0 <= i < |a| => i >= s && a[i - s])
  }

  function ShiftRight(a: Bits, s: nat): (r: Bits)
    ensures |r| == |a|
  {
    seq(|a|, i requires 0 <= i < |a| => i + s < |a| && a[i + s])
  }

  /** `a + 1`, by ripple carry. */
  function Inc(a: Bits): (r: Bits)
    ensures |r| == |a|
  {
    if a == [] then [] else if a[0] then [false] + Inc(a[1..]) else [true] + a[1..]
  }

  predicate IsZero(a: Bits) { forall i :: 0 <= i < |a| ==> !a[i] }

  /** The number the bits denote. */
  function Value(a: Bits): (n: nat)
    ensures n < Pow2(|a|)
  {
    if a == [] then 0 else (if a[0] then 1 else 0) + 2 * Value(a[1..])
  }

  /** The low `w` bits of a number. */
  function FromNat(n: nat, w: nat): (r: Bits)
    ensures |r| == w
    decreases w
  {
    if w == 0 then [] else [n % 2 == 1] + FromNat(n / 2, w - 1)
  }

  function Pow2(k: nat): (n: nat)
    ensures n > 0
  {
    if k == 0 then 1 else 2 * Pow2(k - 1)
  }

  lemma {:induction false} Pow2Monotone(j: nat, k: nat)
    requires j <= k
    ensures Pow2(j) <= Pow2(k)
    ensures j < k ==> Pow2(j) < Pow2(k)
  {
    if j < k {
      Pow2Monotone(j, k - 1);
    }
  }

  lemma {:induction false} ValueInjective(a: Bits, b: Bits)
    requires |a| == |b| && Value(a) == Value(b)
    ensures a == b
  {
    if a != [] {
      ValueInjective(a[1..], b[1..]);
      assert a == [a[0]] + a[1..] && b == [b[0]] + b[1..];
    }
  }

  // ---- Masks: the word `size - 1` for a size that is a power of two ----

  function Mask(k: nat, w: nat): (m: Bits)
    requires k <= w
    ensures |m| == w
  {
    Ones(k) + Zeros(w - k)
  }

  lemma {:induction false} MaskOfSize(k: nat, w: nat)
    requires k <= w
    ensures FromNat(Pow2(k) - 1, w) == Mask(k, w)
  {
    if w > 0 {
      if k == 0 {
        MaskOfSize(0, w - 1);
        assert Mask(0, w) == [false] + Mask(0, w - 1);
      } else {
        MaskOfSize(k - 1, w - 1);
        assert Mask(k, w) == [true] + Mask(k - 1, w - 1);
      }
    }
  }

  lemma {:induction false} ValueZeros(a: Bits)
    ensures Value(a) == 0 <==> IsZero(a)
  {
    if a != [] {
      ValueZeros(a[1..]);
      assert IsZero(a) <==> !a[0] && IsZero(a[1..]) by {
        if !a[0] && IsZero(a[1..]) {
          forall i | 0 <= i < |a| ensures !a[i] { if i > 0 { assert a[i] == a[1..][i - 1]; } }
        }
      }
    }
  }

  /** Masking with `size - 1` keeps the low bits, so its value is a bucket index. */
  lemma {:induction false} ValueMasked(h: Bits, k: nat)
    requires k <= |h|
    ensures Value(And(h, Mask(k, |h|))) == Value(h[..k]) < Pow2(k)
  {
    var r := And(h, Mask(k, |h|));
    if k == 0 {
      assert IsZero(r);
      ValueZeros(r);
    } else {
      ValueMasked(h[1..], k - 1);
      assert r[1..] == And(h[1..], Mask(k - 1, |h| - 1));
      assert h[..k][1..] == h[1..][..k - 1];
    }
  }
}
