/** `dictScan`: a stateless cursor that visits the buckets in reversed binary order, so that the part of
    the hash space already visited stays visited while the tables grow underneath it. */
module Scan {
  import opened Options
  import opened Words
  import opened Dict

  // ---- Reversed binary order ----

  function Reverse(w: Bits): (r: Bits)
    ensures |r| == |w|
  {
    seq(|w|, i requires 0 <= i < |w| => w[|w| - 1 - i])
  }

  predicate AllOnes(p: Bits) { forall i :: 0 <= i < |p| ==> p[i] }

  /** Bit 0 decides first: the order of the reversed words. */
  predicate Before(a: Bits, b: Bits)
    requires |a| == |b|
  {
    a != [] && (if a[0] == b[0] then Before(a[1..], b[1..]) else b[0])
  }

  /** The cursor arithmetic at the end of `dictScan`, on a table of two-to-the-`k` buckets. */
  function Advance(v: Word, k: nat): (r: Word)
    requires k <= WIDTH
  {
    Reverse(Inc(Reverse(Or(v, Not(Mask(k, WIDTH))))))
  }

  /** Successor in reversed binary order; all ones wraps around to all zeros. */
  function Next(p: Bits): (r: Bits)
    ensures |r| == |p|
  {
    if p == [] then [] else if AllOnes(p[1..]) then [!p[0]] + Zeros(|p| - 1) else [p[0]] + Next(p[1..])
  }

  lemma OnesCons(p: Bits)
    requires p != []
    ensures AllOnes(p) <==> p[0] && AllOnes(p[1..])
  {
    assert p == [p[0]] + p[1..];
  }

  lemma ZerosCons(n: nat)
    requires n > 0
    ensures Zeros(n) == [false] + Zeros(n - 1)
  {
  }

  lemma IncCons(a: Bits, b: Bits)
    requires a != []
    ensures Inc(a + b) == if a[0] then [false] + Inc(a[1..] + b) else [true] + (a[1..] + b)
    ensures Inc(a) == if a[0] then [false] + Inc(a[1..]) else [true] + a[1..]
  {
    assert (a + b)[1..] == a[1..] + b;
  }

  lemma {:induction false} IncAppend(a: Bits, b: Bits)
    ensures Inc(a + b) == if AllOnes(a) then Zeros(|a|) + Inc(b) else Inc(a) + b
  {
    hide Inc, AllOnes, Zeros;
    NoBits();
    if a == [] {
      assert a + b == b && Zeros(0) + Inc(b) == Inc(b);
    } else {
      IncAppend(a[1..], b);
      IncCons(a, b);
      OnesCons(a);
      if AllOnes(a) {
        ZerosCons(|a|);
        assert [false] + (Zeros(|a| - 1) + Inc(b)) == Zeros(|a|) + Inc(b);
      } else if a[0] {
        assert [false] + (Inc(a[1..]) + b) == Inc(a) + b;
      } else {
        assert [true] + (a[1..] + b) == Inc(a) + b;
      }
    }
  }

  lemma NoBits()
    ensures AllOnes([]) && Zeros(0) == [] && Inc([]) == []
  {
  }

  lemma {:induction false} IncOnes(a: Bits)
    requires AllOnes(a)
    ensures Inc(a) == Zeros(|a|)
  {
    IncAppend(a, []);
    assert a + [] == a && Zeros(|a|) + Inc([]) == Zeros(|a|);
  }

  lemma {:induction false} NextIsReversedInc(p: Bits)
    ensures Reverse(Inc(Reverse(p))) == Next(p)
  {
    if p != [] {
      var q := Reverse(p[1..]);
      assert Reverse(p) == q + [p[0]];
      assert AllOnes(q) <==> AllOnes(p[1..]) by {
        assert Reverse(q) == p[1..];
        assert AllOnes(p[1..]) ==> AllOnes(q);
        if AllOnes(q) { forall i | 0 <= i < |q| ensures p[1..][i] { assert p[1..][i] == q[|q| - 1 - i]; } }
      }
      IncAppend(q, [p[0]]);
      if AllOnes(q) {
        assert Inc([p[0]]) == [!p[0]];
        assert Reverse(Zeros(|q|) + [!p[0]]) == [!p[0]] + Zeros(|p| - 1);
      } else {
        NextIsReversedInc(p[1..]);
        assert Reverse(Inc(q) + [p[0]]) == [p[0]] + Reverse(Inc(q));
      }
    }
  }

  /** The masked part of the cursor steps to its successor, and the rest becomes zero. */
  lemma AdvanceIs(v: Word, k: nat)
    requires k <= WIDTH
    ensures Advance(v, k) == Next(v[..k]) + Zeros(WIDTH - k)
  {
    var p := v[..k];
    assert Or(v, Not(Mask(k, WIDTH))) == p + Ones(WIDTH - k);
    assert Reverse(p + Ones(WIDTH - k)) == Ones(WIDTH - k) + Reverse(p);
    IncAppend(Ones(WIDTH - k), Reverse(p));
    assert Reverse(Zeros(WIDTH - k) + Inc(Reverse(p))) == Reverse(Inc(Reverse(p))) + Zeros(WIDTH - k);
    NextIsReversedInc(p);
  }

  lemma {:induction false} BeforeAppend(a: Bits, b: Bits, x: Bits, y: Bits)
    requires |a| == |b| && |x| == |y|
    ensures Before(a + x, b + y) <==> Before(a, b) || (a == b && Before(x, y))
  {
    if a == [] {
      assert a + x == x && b + y == y;
    } else {
      BeforeAppend(a[1..], b[1..], x, y);
      assert (a + x)[1..] == a[1..] + x && (b + y)[1..] == b[1..] + y;
      assert a == b <==> a[0] == b[0] && a[1..] == b[1..] by {
        assert a == [a[0]] + a[1..] && b == [b[0]] + b[1..];
      }
    }
  }

  lemma {:induction false} BeforeOnes(a: Bits, b: Bits)
    requires |a| == |b| && AllOnes(b)
    ensures Before(a, b) || a == b
  {
    if a != [] {
      BeforeOnes(a[1..], b[1..]);
      assert a == [a[0]] + a[1..] && b == [b[0]] + b[1..];
    }
  }

  lemma {:induction false} NothingBeforeZeros(a: Bits, n: nat)
    requires |a| == n
    ensures !Before(a, Zeros(n))
  {
    if n > 0 {
      NothingBeforeZeros(a[1..], n - 1);
      assert Zeros(n)[1..] == Zeros(n - 1);
    }
  }

  lemma {:induction false} NotBeforeItself(a: Bits)
    ensures !Before(a, a)
  {
    if a != [] {
      NotBeforeItself(a[1..]);
    }
  }

  /** `Next` is the successor: nothing lies between. */
  lemma {:induction false} BeforeNext(a: Bits, p: Bits)
    requires |a| == |p| && !AllOnes(p)
    ensures Before(a, Next(p)) <==> Before(a, p) || a == p
  {
    if p != [] {
      assert a == p <==> a[0] == p[0] && a[1..] == p[1..] by {
        assert a == [a[0]] + a[1..] && p == [p[0]] + p[1..];
      }
      if AllOnes(p[1..]) {
        OnesCons(p);
        NothingBeforeZeros(a[1..], |p| - 1);
        BeforeOnes(a[1..], p[1..]);
      } else {
        BeforeNext(a[1..], p[1..]);
      }
    }
  }

  /** One call on a table of two-to-the-`k` buckets moves the cursor past exactly the current bucket. */
  lemma CursorPasses(h: Word, v: Word, k: nat)
    requires k <= WIDTH
    ensures var next := Advance(v, k);
            (IsZero(next) || Before(h, next)) ==> Before(h, v) || h[..k] == v[..k]
    ensures h[..k] == v[..k] ==> IsZero(Advance(v, k)) || Before(h, Advance(v, k))
  {
    var p := v[..k];
    AdvanceIs(v, k);
    assert h == h[..k] + h[k..] && v == p + v[k..];
    BeforeAppend(h[..k], p, h[k..], v[k..]);
    if AllOnes(p) {
      BeforeOnes(h[..k], p);
      NextOfOnes(p);
      assert Next(p) + Zeros(WIDTH - k) == Zeros(WIDTH);
    } else {
      NextNotZero(p);
      assert !IsZero(Advance(v, k)) by {
        assert !IsZero(Next(p));
        var i :| 0 <= i < k && Next(p)[i];
        assert Advance(v, k)[i];
      }
      BeforeAppend(h[..k], Next(p), h[k..], Zeros(WIDTH - k));
      NothingBeforeZeros(h[k..], WIDTH - k);
      BeforeNext(h[..k], p);
    }
  }

  lemma {:induction false} NextOfOnes(p: Bits)
    requires AllOnes(p)
    ensures Next(p) == Zeros(|p|)
  {}

  lemma {:induction false} NextNotZero(p: Bits)
    requires !AllOnes(p)
    ensures !IsZero(Next(p))
  {
    OnesCons(p);
    if AllOnes(p[1..]) {
      assert Next(p)[0];
    } else {
      NextNotZero(p[1..]);
      var i :| 0 <= i < |p| - 1 && Next(p[1..])[i];
      assert Next(p)[i + 1];
    }
  }

  // ---- The buckets of the larger table ----

  /** `v` after one round of the expansion loop: the bits above the smaller mask are incremented. */
  function ExpandRound(v: Word, k0: nat): (r: Word)
    requires k0 <= WIDTH
  {
    var m0 := Mask(k0, WIDTH);
    Or(And(Inc(Or(v, m0)), Not(m0)), And(v, m0))
  }

  lemma ExpandRoundIs(v: Word, k0: nat)
    requires k0 <= WIDTH
    ensures ExpandRound(v, k0) == v[..k0] + Inc(v[k0..])
  {
    var m0 := Mask(k0, WIDTH);
    assert Or(v, m0) == Ones(k0) + v[k0..];
    IncAppend(Ones(k0), v[k0..]);
    assert And(Zeros(k0) + Inc(v[k0..]), Not(m0)) == Zeros(k0) + Inc(v[k0..]);
    assert And(v, m0) == v[..k0] + Zeros(WIDTH - k0);
  }

  /** The loop goes on while some bit between the two masks is set. */
  predicate GoesOn(v: Word, k0: nat, k1: nat)
    requires k0 <= k1 <= WIDTH
  {
    !IsZero(And(v, Xor(Mask(k0, WIDTH), Mask(k1, WIDTH))))
  }

  lemma GoesOnIs(v: Word, k0: nat, k1: nat)
    requires k0 <= k1 <= WIDTH
    ensures GoesOn(v, k0, k1) <==> !IsZero(v[k0..k1])
  {
    var x := And(v, Xor(Mask(k0, WIDTH), Mask(k1, WIDTH)));
    assert forall i :: 0 <= i < WIDTH ==> x[i] == (v[i] && k0 <= i < k1);
    if !IsZero(x) {
      var i :| 0 <= i < WIDTH && x[i];
      assert v[k0..k1][i - k0];
    }
    if !IsZero(v[k0..k1]) {
      var i :| 0 <= i < k1 - k0 && v[k0..k1][i];
      assert x[i + k0];
    }
  }

  lemma {:induction false} ValueInc(a: Bits)
    ensures AllOnes(a) ==> Value(a) == Pow2(|a|) - 1
    ensures !AllOnes(a) ==> Value(Inc(a)) == Value(a) + 1
  {
    if a != [] {
      OnesCons(a);
      ValueInc(a[1..]);
      assert a[0] ==> Inc(a)[1..] == Inc(a[1..]);
      assert !a[0] ==> Inc(a)[1..] == a[1..];
    }
  }

  /** The bits between the masks run upward from those of the cursor until they wrap around. */
  lemma MidStep(v: Word, k0: nat, k1: nat)
    requires k0 <= k1 <= WIDTH
    ensures var v' := ExpandRound(v, k0);
            && v'[..k0] == v[..k0]
            && (GoesOn(v', k0, k1) ==> Value(v'[k0..k1]) == Value(v[k0..k1]) + 1)
            && (!GoesOn(v', k0, k1) ==> Value(v[k0..k1]) == Pow2(k1 - k0) - 1)
  {
    var v' := ExpandRound(v, k0);
    var mid, top := v[k0..k1], v[k1..];
    ExpandRoundIs(v, k0);
    GoesOnIs(v', k0, k1);
    assert v[k0..] == mid + top;
    IncAppend(mid, top);
    ValueInc(mid);
    if AllOnes(mid) {
      assert v'[k0..k1] == Zeros(k1 - k0);
    } else {
      assert v'[k0..k1] == Inc(mid);
      ValueZeros(Inc(mid));
    }
  }

  /** The entries of the larger table one call emits. */
  function EmitLarge(t: Table, v: Word, k0: nat): seq<Entry>
    requires SizedTable(t) && k0 <= t.k
    decreases Pow2(t.k - k0) - Value(v[k0..t.k])
  {
    MidStep(v, k0, t.k);
    var v' := ExpandRound(v, k0);
    t.buckets[Value(v[..t.k])] + (if GoesOn(v', k0, t.k) then EmitLarge(t, v', k0) else [])
  }

  /** Exactly the buckets whose bits between the masks are not below the cursor's are visited. */
  lemma {:induction false} EmitLargeCovers(hash: Hash, t: Table, v: Word, k0: nat, e: Entry)
    requires ValidTable(hash, t) && k0 <= t.k
    ensures var h := hash(e.key);
            e in EmitLarge(t, v, k0) <==>
            && e in t.buckets[BucketOf(h, t.k)]
            && h[..k0] == v[..k0]
            && Value(v[k0..t.k]) <= Value(h[k0..t.k])
    decreases Pow2(t.k - k0) - Value(v[k0..t.k])
  {
    var h := hash(e.key);
    var i := Value(v[..t.k]);
    var v' := ExpandRound(v, k0);
    MidStep(v, k0, t.k);
    assert e in t.buckets[i] <==> e in t.buckets[BucketOf(h, t.k)] && h[..t.k] == v[..t.k] by {
      if e in t.buckets[i] { ValueInjective(h[..t.k], v[..t.k]); }
    }
    assert h[..t.k] == h[..k0] + h[k0..t.k] && v[..t.k] == v[..k0] + v[k0..t.k];
    assert h[..t.k] == v[..t.k] <==> h[..k0] == v[..k0] && h[k0..t.k] == v[k0..t.k];
    if Value(h[k0..t.k]) == Value(v[k0..t.k]) { ValueInjective(h[k0..t.k], v[k0..t.k]); }
    if GoesOn(v', k0, t.k) {
      EmitLargeCovers(hash, t, v', k0, e);
    }
  }

  // ---- One call ----

  function Small(d: DictState): Table { if Size(d.ht0) > Size(d.ht1) then d.ht1 else d.ht0 }

  function Large(d: DictState): Table { if Size(d.ht0) > Size(d.ht1) then d.ht0 else d.ht1 }

  lemma SmallAndLarge(hash: Hash, d: DictState)
    requires Valid(hash, d) && Rehashing(d)
    ensures ValidTable(hash, Small(d)) && ValidTable(hash, Large(d)) && Small(d).k <= Large(d).k
    ensures Small(d).k == Large(d).k ==> d.ht0 == Small(d)
    ensures {Small(d), Large(d)} == {d.ht0, d.ht1}
  {
    if Large(d).k < Small(d).k { Pow2Monotone(Large(d).k, Small(d).k); }
    if d.ht0.k != d.ht1.k {
      Pow2Monotone(if d.ht0.k < d.ht1.k then d.ht0.k else d.ht1.k, if d.ht0.k < d.ht1.k then d.ht1.k else d.ht0.k);
    }
  }

  lemma NonEmptyHasTable(hash: Hash, d: DictState)
    requires Valid(hash, d) && Count(d) > 0
    ensures d.ht0.Table?
  {}

  /** `dictScan`: the next cursor, and the entries passed to the callback in order. */
  function ScanCall(hash: Hash, d: DictState, v: Word): (r: (Word, seq<Entry>))
    requires Valid(hash, d)
  {
    if Count(d) == 0 then (Zeros(WIDTH), [])
    else
      NonEmptyHasTable(hash, d);
      if !Rehashing(d) then (Advance(v, d.ht0.k), d.ht0.buckets[BucketOf(v, d.ht0.k)])
      else
        SmallAndLarge(hash, d);
        (Advance(v, Small(d).k),
         Small(d).buckets[BucketOf(v, Small(d).k)] + EmitLarge(Large(d), v, Small(d).k))
  }

  /** Ones below zeros. */
  predicate LowOnes(m: Bits) { m == [] || if m[0] then LowOnes(m[1..]) else IsZero(m) }

  /** The bits of the cursor between the two masks are of the form 0..01..1. */
  predicate Aligned(d: DictState, v: Word)
    requires Sized(d)
  {
    d.ht0.Table? && d.ht1.Table? && Small(d).k < Large(d).k ==> LowOnes(v[Small(d).k..Large(d).k])
  }

  /** Counting upward from such bits reaches everything that reversed order has not passed. */
  lemma {:induction false} LowOnesCover(x: Bits, m: Bits)
    requires |x| == |m| && LowOnes(m) && !Before(x, m)
    ensures Value(m) <= Value(x)
  {
    if m != [] {
      if m[0] {
        LowOnesCover(x[1..], m[1..]);
      } else {
        ValueZeros(m);
      }
    }
  }

  /** Bits that reversed order has not passed and counting upward from `m` does not reach. */
  function Missed(m: Bits): (x: Bits)
    requires !LowOnes(m)
    ensures |x| == |m| && !Before(x, m) && Value(x) < Value(m)
  {
    if m[0] then
      var x := [true] + Missed(m[1..]);
      assert x[1..] == Missed(m[1..]);
      x
    else
      var x := [true] + Zeros(|m| - 1);
      assert x[1..] == Zeros(|m| - 1);
      ValueZeros(m);
      ValueZeros(Zeros(|m| - 1));
      x
  }

  lemma FoundInChain(hash: Hash, d: DictState, key: Key)
    requires Valid(hash, d) && Lookup(hash, d, key).Some?
    ensures var e := Lookup(hash, d, key).value;
            && e.key == key && d.ht0.Table? && Count(d) > 0
            && (e in d.ht0.buckets[BucketOf(hash(key), d.ht0.k)]
                || (Rehashing(d) && e in d.ht1.buckets[BucketOf(hash(key), d.ht1.k)]))
  {
    FoundIsCounted(hash, d.ht0, key);
    FoundIsCounted(hash, d.ht1, key);
  }

  lemma MidNotBelow(h: Word, v: Word, k0: nat, k1: nat)
    requires k0 <= k1 <= WIDTH && h[..k0] == v[..k0] && !Before(h, v)
    requires k0 < k1 ==> LowOnes(v[k0..k1])
    ensures Value(v[k0..k1]) <= Value(h[k0..k1])
  {
    assert h == (h[..k0] + h[k0..k1]) + h[k1..] && v == (v[..k0] + v[k0..k1]) + v[k1..];
    BeforeAppend(h[..k0] + h[k0..k1], v[..k0] + v[k0..k1], h[k1..], v[k1..]);
    BeforeAppend(h[..k0], v[..k0], h[k0..k1], v[k0..k1]);
    if k0 < k1 {
      LowOnesCover(h[k0..k1], v[k0..k1]);
    }
  }

  /** A key the cursor passes in one call had been passed before, or is emitted by the call. */
  lemma CallCovers(hash: Hash, d: DictState, v: Word, key: Key)
    requires Valid(hash, d) && Lookup(hash, d, key).Some? && Aligned(d, v)
    ensures var (next, emitted) := ScanCall(hash, d, v);
            (IsZero(next) || Before(hash(key), next)) && !Before(hash(key), v)
            ==> Lookup(hash, d, key).value in emitted
  {
    hide FindIn, ValidTable, Advance, EmitLarge, Before;
    var h := hash(key);
    var e := Lookup(hash, d, key).value;
    FoundInChain(hash, d, key);
    if !Rehashing(d) {
      CursorPasses(h, v, d.ht0.k);
    } else {
      SmallAndLarge(hash, d);
      CursorPasses(h, v, Small(d).k);
      EmitLargeCovers(hash, Large(d), v, Small(d).k, e);
      if h[..Small(d).k] == v[..Small(d).k] && !Before(h, v) {
        MidNotBelow(h, v, Small(d).k, Large(d).k);
      }
    }
  }

  // ---- Whole scans ----

  /** Between two calls of a scan anything may happen to the dictionary. */
  datatype Event = Change(command: Command) | Call

  datatype ScanState = ScanState(d: DictState, v: Word, seen: set<Key>)

  function KeysOf(c: seq<Entry>): set<Key> { set e | e in c :: e.key }

  function Step(hash: Hash, s: ScanState, e: Event): (s': ScanState)
    requires Valid(hash, s.d)
    ensures Valid(hash, s'.d)
  {
    match e
    case Change(c) =>
      CommandEffect(hash, s.d, c);
      s.(d := Apply(hash, s.d, c).0)
    case Call =>
      var (next, emitted) := ScanCall(hash, s.d, s.v);
      s.(v := next, seen := s.seen + KeysOf(emitted))
  }

  function Steps(hash: Hash, s: ScanState, es: seq<Event>): (s': ScanState)
    requires Valid(hash, s.d)
    ensures Valid(hash, s'.d)
    decreases |es|
  {
    if es == [] then s else Steps(hash, Step(hash, s, es[0]), es[1..])
  }

  /** The key is in the dictionary in every state of the run. */
  ghost predicate PresentThroughout(hash: Hash, s: ScanState, es: seq<Event>, key: Key)
    requires Valid(hash, s.d)
    decreases |es|
  {
    && Lookup(hash, s.d, key).Some?
    && (es == [] || PresentThroughout(hash, Step(hash, s, es[0]), es[1..], key))
  }

  /** At every call made while two tables are in use, the cursor is aligned. */
  ghost predicate AlignedThroughout(hash: Hash, s: ScanState, es: seq<Event>)
    requires Valid(hash, s.d)
    decreases |es|
  {
    es == [] || ((es[0].Call? ==> Aligned(s.d, s.v)) && AlignedThroughout(hash, Step(hash, s, es[0]), es[1..]))
  }

  /** A scan that has been called and whose last call returned 0. */
  ghost predicate Completes(hash: Hash, s: ScanState, es: seq<Event>)
    requires Valid(hash, s.d)
  {
    es != [] && es[|es| - 1].Call? && IsZero(Steps(hash, s, es).v)
  }

  /** What one call covers, in terms of the run's state. */
  lemma StepCovers(hash: Hash, s: ScanState, e: Event, key: Key)
    requires Valid(hash, s.d) && Lookup(hash, s.d, key).Some? && (e.Call? ==> Aligned(s.d, s.v))
    requires Before(hash(key), s.v) ==> key in s.seen
    ensures var s' := Step(hash, s, e);
            && (Before(hash(key), s'.v) ==> key in s'.seen)
            && (e.Call? && IsZero(s'.v) ==> key in s'.seen)
  {
    hide ScanCall, Lookup, Valid, Aligned, Before;
    if e.Call? {
      CallCovers(hash, s.d, s.v, key);
      FoundKey(hash, s.d, key);
    }
  }

  lemma FoundKey(hash: Hash, d: DictState, key: Key)
    requires Valid(hash, d) && Lookup(hash, d, key).Some?
    ensures Lookup(hash, d, key).value.key == key
  {}

  lemma {:induction false} RunCovers(hash: Hash, s: ScanState, es: seq<Event>, key: Key)
    requires Valid(hash, s.d) && Completes(hash, s, es)
    requires PresentThroughout(hash, s, es, key) && AlignedThroughout(hash, s, es)
    requires Before(hash(key), s.v) ==> key in s.seen
    ensures key in Steps(hash, s, es).seen
    decreases |es|
  {
    hide Step, Valid, Lookup, Aligned, Before;
    StepCovers(hash, s, es[0], key);
    if |es| > 1 {
      assert es[1..][|es| - 2] == es[|es| - 1];
      RunCovers(hash, Step(hash, s, es[0]), es[1..], key);
    }
  }

  /** Completeness: a scan from cursor 0 until a call returns 0 emits every key that is in the dictionary
      throughout, whatever commands run between the calls, as long as the cursor is aligned at every call. */
  lemma ScanComplete(hash: Hash, d: DictState, es: seq<Event>, key: Key)
    requires Valid(hash, d)
    requires var s := ScanState(d, Zeros(WIDTH), {});
             Completes(hash, s, es) && PresentThroughout(hash, s, es, key) && AlignedThroughout(hash, s, es)
    ensures key in Steps(hash, ScanState(d, Zeros(WIDTH), {}), es).seen
  {
    NothingBeforeZeros(hash(key), WIDTH);
    RunCovers(hash, ScanState(d, Zeros(WIDTH), {}), es, key);
  }

  // ---- Tables that only grow ----

  predicate Growing(d: DictState) { Rehashing(d) && d.ht0.Table? && d.ht1.Table? ==> d.ht0.k <= d.ht1.k }

  /** At no time is a table being rehashed into a smaller one. */
  ghost predicate GrowOnly(hash: Hash, s: ScanState, es: seq<Event>)
    requires Valid(hash, s.d)
    decreases |es|
  {
    Growing(s.d) && (es == [] || GrowOnly(hash, Step(hash, s, es[0]), es[1..]))
  }

  /** The exponent of the smaller table of a growing dictionary. */
  function Exponent(d: DictState): (k: nat)
  { if d.ht0.Table? && d.ht0.k <= WIDTH then d.ht0.k else 0 }

  lemma ExpandGrows(d: DictState, size: nat)
    requires size < LONG_MAX && Growing(d) && Sized(d)
    ensures Exponent(d) <= Exponent(Expand(d, size))
  {}

  lemma ExpandIfNeededGrows(hash: Hash, d: DictState, canResize: bool)
    requires Used(d.ht0) * 2 < LONG_MAX && Growing(d) && Valid(hash, d)
    ensures Exponent(d) <= Exponent(ExpandIfNeeded(d, canResize)) && Growing(ExpandIfNeeded(d, canResize))
  {
    if !Rehashing(d) && d.ht0.Table? && Used(d.ht0) >= Size(d.ht0) {
      var k := NextPower(Used(d.ht0) * 2, INITIAL_EXPONENT);
      if k < d.ht0.k { Pow2Monotone(k, d.ht0.k); }
    }
  }

  /** Steps and additions never shrink: only `dictExpand` and `dictResize` can. */
  lemma AddGrows(hash: Hash, d: DictState, e: Entry, canResize: bool)
    requires Valid(hash, d) && Fits(d) && Growing(d)
    ensures var d' := Add(hash, d, e, canResize).0; Exponent(d) <= Exponent(d') && Growing(d')
  {
    hide FindIn, ValidTable, ExpandIfNeeded, MaybeStep;
    var d1 := MaybeStep(hash, d);
    ExpandIfNeededGrows(hash, d1, canResize);
  }

  lemma ReplaceGrows(hash: Hash, d: DictState, e: Entry, canResize: bool)
    requires Valid(hash, d) && Fits(d) && Growing(d)
    ensures var d' := Replace(hash, d, e, canResize).0; Exponent(d) <= Exponent(d') && Growing(d')
  {
    hide FindIn, ValidTable, Add, MaybeStep, Lookup;
    AddGrows(hash, d, e, canResize);
    AddEffect(hash, d, e, canResize);
  }

  lemma DeleteGrows(hash: Hash, d: DictState, key: Key)
    requires Valid(hash, d) && Growing(d)
    ensures var d' := Delete(hash, d, key).0; Exponent(d) <= Exponent(d') && Growing(d')
  {
    hide FindIn, ValidTable, MaybeStep, Lookup;
  }

  lemma CommandGrows(hash: Hash, d: DictState, c: Command)
    requires Valid(hash, d) && Growing(d)
    ensures Exponent(d) <= Exponent(Apply(hash, d, c).0)
    ensures !c.CmdExpand? && !c.CmdResize? ==> Growing(Apply(hash, d, c).0)
  {
    hide FindIn, ValidTable, Add, MaybeStep, Expand, Rehash, Lookup, Delete, Replace, Unlink, Overwrite;
    match c
    case CmdAdd(e, canResize) => if Fits(d) { AddGrows(hash, d, e, canResize); }
    case CmdReplace(e, canResize) => if Fits(d) { ReplaceGrows(hash, d, e, canResize); }
    case CmdDelete(key) => DeleteGrows(hash, d, key);
    case CmdExpand(size) => if size < LONG_MAX { ExpandGrows(d, size); }
    case CmdResize(canResize) => ExpandGrows(d, Minimal(Used(d.ht0)));
    case _ =>
  }

  /** In a growing run the cursor has no bits above the smaller mask. */
  lemma {:induction false} GrowOnlyAligned(hash: Hash, s: ScanState, es: seq<Event>)
    requires Valid(hash, s.d) && GrowOnly(hash, s, es) && IsZero(s.v[Exponent(s.d)..])
    ensures AlignedThroughout(hash, s, es)
    decreases |es|
  {
    if es != [] {
      var s' := Step(hash, s, es[0]);
      assert IsZero(s'.v[Exponent(s'.d)..]) by { StepKeepsZeros(hash, s, es[0]); }
      assert es[0].Call? ==> Aligned(s.d, s.v) by { ZerosAligned(hash, s.d, s.v); }
      GrowOnlyAligned(hash, s', es[1..]);
    }
  }

  lemma ZerosAligned(hash: Hash, d: DictState, v: Word)
    requires Valid(hash, d) && Growing(d) && IsZero(v[Exponent(d)..])
    ensures Aligned(d, v)
  {
    if Rehashing(d) && Small(d).k < Large(d).k {
      SmallAndLarge(hash, d);
      assert forall i :: Small(d).k <= i < Large(d).k ==> v[i] == v[Exponent(d)..][i - Exponent(d)];
      assert IsZero(v[Small(d).k..Large(d).k]);
    }
  }

  lemma StepKeepsZeros(hash: Hash, s: ScanState, e: Event)
    requires Valid(hash, s.d) && Growing(s.d) && IsZero(s.v[Exponent(s.d)..])
    ensures var s' := Step(hash, s, e); IsZero(s'.v[Exponent(s'.d)..])
  {
    var s' := Step(hash, s, e);
    match e
    case Change(c) =>
      CommandGrows(hash, s.d, c);
      assert forall i :: Exponent(s'.d) <= i < WIDTH ==> s.v[i] == s.v[Exponent(s.d)..][i - Exponent(s.d)];
    case Call =>
      if Count(s.d) > 0 {
        if Rehashing(s.d) { SmallAndLarge(hash, s.d); }
        var k := if Rehashing(s.d) then Small(s.d).k else s.d.ht0.k;
        AdvanceIs(s.v, k);
        assert k == Exponent(s.d);
        assert s'.v == Next(s.v[..k]) + Zeros(WIDTH - k);
        assert s'.v[k..] == Zeros(WIDTH - k);
      }
  }

  /** Completeness for growing tables: adds, deletes, rehash steps and growth by any factor may happen
      between the calls. */
  lemma ScanCompleteWhenGrowing(hash: Hash, d: DictState, es: seq<Event>, key: Key)
    requires Valid(hash, d)
    requires var s := ScanState(d, Zeros(WIDTH), {});
             Completes(hash, s, es) && PresentThroughout(hash, s, es, key) && GrowOnly(hash, s, es)
    ensures key in Steps(hash, ScanState(d, Zeros(WIDTH), {}), es).seen
  {
    hide Valid, Completes, PresentThroughout, GrowOnly, Steps, Aligned;
    GrowOnlyAligned(hash, ScanState(d, Zeros(WIDTH), {}), es);
    ScanComplete(hash, d, es, key);
  }

  // ---- A fixed size ----

  /** How many buckets of a table of two-to-the-`k` precede the cursor. */
  function Position(v: Word, k: nat): (n: nat)
    requires k <= WIDTH
    ensures n < Pow2(k)
  {
    Value(Reverse(v[..k]))
  }

  lemma AdvancePosition(v: Word, k: nat)
    requires k <= WIDTH
    ensures Position(Advance(v, k), k) == if Position(v, k) + 1 == Pow2(k) then 0 else Position(v, k) + 1
  {
    var p := v[..k];
    AdvanceIs(v, k);
    assert Advance(v, k)[..k] == Next(p);
    NextIsReversedInc(p);
    assert Reverse(Reverse(Inc(Reverse(p)))) == Inc(Reverse(p));
    ValueInc(Reverse(p));
    if AllOnes(Reverse(p)) {
      IncOnes(Reverse(p));
      ValueZeros(Zeros(k));
    }
  }

  lemma PositionZero(v: Word, k: nat)
    requires k <= WIDTH && IsZero(v[k..])
    ensures Position(v, k) == 0 <==> IsZero(v)
  {
    ValueZeros(Reverse(v[..k]));
    if IsZero(Reverse(v[..k])) {
      forall i | 0 <= i < WIDTH ensures !v[i] {
        if i < k { assert v[i] == Reverse(v[..k])[k - 1 - i]; } else { assert v[i] == v[k..][i - k]; }
      }
    }
  }

  function Calls(es: seq<Event>): nat { if es == [] then 0 else (if es[0].Call? then 1 else 0) + Calls(es[1..]) }

  /** Every call sees one table of two-to-the-`k` buckets that is not empty. */
  ghost predicate FixedSize(hash: Hash, s: ScanState, es: seq<Event>, k: nat)
    requires Valid(hash, s.d)
    decreases |es|
  {
    es == [] ||
    ((es[0].Call? ==> !Rehashing(s.d) && Count(s.d) > 0 && s.d.ht0.Table? && s.d.ht0.k == k)
     && FixedSize(hash, Step(hash, s, es[0]), es[1..], k))
  }

  lemma CallAdvances(hash: Hash, s: ScanState, k: nat)
    requires Valid(hash, s.d) && k <= WIDTH
    requires !Rehashing(s.d) && Count(s.d) > 0 && s.d.ht0.Table? && s.d.ht0.k == k
    ensures var v := Step(hash, s, Call).v;
            IsZero(v[k..]) && Position(v, k) == if Position(s.v, k) + 1 == Pow2(k) then 0 else Position(s.v, k) + 1
  {
    AdvanceIs(s.v, k);
    AdvancePosition(s.v, k);
    assert Advance(s.v, k)[k..] == Zeros(WIDTH - k);
  }

  lemma {:induction false} PositionAfter(hash: Hash, s: ScanState, es: seq<Event>, k: nat)
    requires Valid(hash, s.d) && FixedSize(hash, s, es, k) && k <= WIDTH && IsZero(s.v[k..])
    requires Position(s.v, k) + Calls(es) <= Pow2(k)
    ensures var v := Steps(hash, s, es).v;
            IsZero(v[k..]) &&
            Position(v, k) == if Position(s.v, k) + Calls(es) == Pow2(k) then 0 else Position(s.v, k) + Calls(es)
    decreases |es|
  {
    hide Step, Valid, Position;
    if es != [] {
      if es[0].Call? {
        CallAdvances(hash, s, k);
      } else {
        ChangeKeepsCursor(hash, s, es[0]);
      }
      PositionAfter(hash, Step(hash, s, es[0]), es[1..], k);
    }
  }

  lemma ChangeKeepsCursor(hash: Hash, s: ScanState, e: Event)
    requires Valid(hash, s.d) && e.Change?
    ensures Step(hash, s, e).v == s.v
  {}

  /** With the size fixed, the cursor is back at 0 at the `size`-th call and not before. */
  lemma ScanReturnsAfterSizeCalls(hash: Hash, d: DictState, es: seq<Event>, k: nat)
    requires Valid(hash, d) && k <= WIDTH && FixedSize(hash, ScanState(d, Zeros(WIDTH), {}), es, k)
    requires 0 < Calls(es) <= Pow2(k)
    ensures IsZero(Steps(hash, ScanState(d, Zeros(WIDTH), {}), es).v) <==> Calls(es) == Pow2(k)
  {
    hide Steps, FixedSize, Valid, Position, Pow2, Calls;
    var s := ScanState(d, Zeros(WIDTH), {});
    assert IsZero(s.v[k..]);
    PositionZero(s.v, k);
    PositionAfter(hash, s, es, k);
    PositionZero(Steps(hash, s, es).v, k);
  }

  // ---- Tables that shrink ----

  /** A call at cursor `v`, with tables of these two sizes in use, loses no key: whatever is stored, a key
      that is passed by the call and had not been passed before is emitted. */
  ghost predicate CallIsSafe(v: Word, k0: nat, k1: nat) {
    forall hash: Hash, d: DictState, key: Key ::
      (&& Valid(hash, d) && Rehashing(d) && Small(d).k == k0 && Large(d).k == k1
       && Lookup(hash, d, key).Some? && !Before(hash(key), v)
       && (IsZero(ScanCall(hash, d, v).0) || Before(hash(key), ScanCall(hash, d, v).0)))
      ==> Lookup(hash, d, key).value in ScanCall(hash, d, v).1
  }

  function ConstantHash(h: Word): Hash { _ => h }

  /** A dictionary being shrunk from two-to-the-`k1` to two-to-the-`k0` buckets that holds one entry, whose
      hash is `h`. */
  function Shrinking(h: Word, k0: nat, k1: nat): DictState
    requires INITIAL_EXPONENT <= k0 < k1 < WIDTH
  {
    DictState(Insert(ConstantHash(h), FreshTable(k1), Entry(0, 0)), FreshTable(k0), 0, 0)
  }

  lemma FreshIsEmpty(hash: Hash, k: nat)
    requires INITIAL_EXPONENT <= k < WIDTH
    ensures ValidTable(hash, FreshTable(k)) && forall key :: FindIn(hash, FreshTable(k), key).None?
  {
    TotalFresh(k);
  }

  lemma ShrinkingIsValid(h: Word, k0: nat, k1: nat)
    requires INITIAL_EXPONENT <= k0 < k1 < WIDTH
    ensures var d := Shrinking(h, k0, k1);
            && Valid(ConstantHash(h), d) && Rehashing(d) && Small(d) == d.ht1 && Large(d) == d.ht0
            && Lookup(ConstantHash(h), d, 0) == Some(Entry(0, 0))
            && d.ht0.k == k1 && d.ht1 == FreshTable(k0)
  {
    hide FindIn;
    var hash := ConstantHash(h);
    FreshIsEmpty(hash, k1);
    FreshIsEmpty(hash, k0);
    InsertKeeps(hash, FreshTable(k1), Entry(0, 0));
    Pow2Monotone(k0, k1);
  }

  /** Exactly when a shrinking table is harmless: the call loses no key if and only if the bits of the
      cursor between the two masks have the form 0..01..1. */
  lemma CallIsSafeIffAligned(v: Word, k0: nat, k1: nat)
    requires INITIAL_EXPONENT <= k0 < k1 < WIDTH
    ensures CallIsSafe(v, k0, k1) <==> LowOnes(v[k0..k1])
  {
    if LowOnes(v[k0..k1]) {
      forall hash: Hash, d: DictState, key: Key |
        && Valid(hash, d) && Rehashing(d) && Small(d).k == k0 && Large(d).k == k1
        && Lookup(hash, d, key).Some? && !Before(hash(key), v)
        && (IsZero(ScanCall(hash, d, v).0) || Before(hash(key), ScanCall(hash, d, v).0))
        ensures Lookup(hash, d, key).value in ScanCall(hash, d, v).1
      {
        CallCovers(hash, d, v, key);
      }
    } else {
      MisalignedLoses(v, k0, k1);
    }
  }

  /** A hash that a misaligned cursor passes over without visiting. */
  function LostHash(v: Word, k0: nat, k1: nat): (h: Word)
    requires k0 < k1 <= WIDTH && !LowOnes(v[k0..k1])
  {
    v[..k0] + Missed(v[k0..k1]) + v[k1..]
  }

  lemma LostHashIs(v: Word, k0: nat, k1: nat)
    requires k0 < k1 <= WIDTH && !LowOnes(v[k0..k1])
    ensures var h := LostHash(v, k0, k1);
            h[..k0] == v[..k0] && !Before(h, v) && Value(h[k0..k1]) < Value(v[k0..k1])
  {
    var x := Missed(v[k0..k1]);
    assert LostHash(v, k0, k1)[k0..k1] == x;
    assert v == (v[..k0] + v[k0..k1]) + v[k1..];
    BeforeAppend(v[..k0] + x, v[..k0] + v[k0..k1], v[k1..], v[k1..]);
    BeforeAppend(v[..k0], v[..k0], x, v[k0..k1]);
    NotBeforeItself(v[..k0]);
  }

  lemma MisalignedLoses(v: Word, k0: nat, k1: nat)
    requires INITIAL_EXPONENT <= k0 < k1 < WIDTH && !LowOnes(v[k0..k1])
    ensures !CallIsSafe(v, k0, k1)
  {
    hide Valid, Lookup, Before, EmitLarge, Advance, LostHash, Shrinking;
    var h := LostHash(v, k0, k1);
    var hash := ConstantHash(h);
    var d := Shrinking(h, k0, k1);
    LostHashIs(v, k0, k1);
    ShrinkingIsValid(h, k0, k1);
    LostIsNotEmitted(v, k0, k1);
    ValidImpliesSized(hash, d);
    var (next, emitted) := ScanCall(hash, d, v);
    assert Lookup(hash, d, 0).value !in emitted;
    assert hash(0) == h;
  }

  lemma LostIsNotEmitted(v: Word, k0: nat, k1: nat)
    requires INITIAL_EXPONENT <= k0 < k1 < WIDTH && !LowOnes(v[k0..k1])
    ensures var h := LostHash(v, k0, k1);
            var d := Shrinking(h, k0, k1);
            && Valid(ConstantHash(h), d)
            && Entry(0, 0) !in ScanCall(ConstantHash(h), d, v).1
            && (IsZero(ScanCall(ConstantHash(h), d, v).0) || Before(h, ScanCall(ConstantHash(h), d, v).0))
  {
    hide Before, EmitLarge, Advance, LostHash;
    var h := LostHash(v, k0, k1);
    LostHashIs(v, k0, k1);
    ShrinkingIsValid(h, k0, k1);
    EmitLargeCovers(ConstantHash(h), Shrinking(h, k0, k1).ht0, v, k0, Entry(0, 0));
    CursorPasses(h, v, k0);
    assert FreshTable(k0).buckets[BucketOf(v, k0)] == [];
  }

  // A whole scan that loses a key: 16 buckets are shrunk to 4 after the first call.

  function Low4(b0: bool, b1: bool, b2: bool, b3: bool): Word { [b0, b1, b2, b3] + Zeros(WIDTH - 4) }

  const LOST_HASH: Word := Low4(false, false, true, false) // 4
  const LOST_RUN: seq<Event> := [Call, Change(CmdResize(true)), Call, Call, Call, Call]

  function OneEntry(): DictState {
    DictState(Insert(ConstantHash(LOST_HASH), FreshTable(4), Entry(0, 0)), NoTable, -1, 0)
  }

  lemma OneEntryIsValid()
    ensures Valid(ConstantHash(LOST_HASH), OneEntry())
    ensures Lookup(ConstantHash(LOST_HASH), OneEntry(), 0) == Some(Entry(0, 0))
    ensures BucketOf(LOST_HASH, 4) == 4
    ensures Resize(OneEntry(), true) == Shrinking(LOST_HASH, 2, 4)
  {
    FreshIsEmpty(ConstantHash(LOST_HASH), 4);
    InsertKeeps(ConstantHash(LOST_HASH), FreshTable(4), Entry(0, 0));
    assert LOST_HASH[..4] == [false, false, true, false];
    assert Value([false, false, true, false]) == 4;
    assert NextPower(4, 2) == 2;
  }

  /** The first call visits bucket 0 of the table of 16 and returns cursor 8. */
  lemma FirstCall()
    requires Valid(ConstantHash(LOST_HASH), OneEntry())
    ensures ScanCall(ConstantHash(LOST_HASH), OneEntry(), Zeros(WIDTH)) == (Low4(false, false, false, true), [])
  {
    hide Valid, Lookup, Advance, Next, FindIn, ValidTable;
    OneEntryIsValid();
    var v := Zeros(WIDTH);
    assert v[..4] == [false, false, false, false];
    assert Value([false, false, false, false]) == 0;
    AdvanceIs(v, 4);
    FourBitStart();
  }

  lemma FourBitStart()
    ensures Next([false, false, false, false]) == [false, false, false, true]
  {
    TwoBitCycle();
    assert [false, false, false][1..] == [false, false] && !AllOnes([false, false]);
    assert Next([false, false, false]) == [false, false, true] && !AllOnes([false, false, false]);
    assert [false, false, false, false][1..] == [false, false, false];
  }

  lemma LostHashBits()
    ensures LOST_HASH[..2] == [false, false] && LOST_HASH[2..4] == [true, false]
    ensures Value([true, false]) == 1 && Value([false, true]) == 2
  {
    assert [true, false][1..] == [false] && [false, true][1..] == [true];
    assert Value([false]) == 0 && Value([true]) == 1;
  }

  lemma LaterEmitsNothing(v: Word)
    requires v[..2] != [false, false] || v[2..4] == [false, true]
    ensures EmitLarge(Shrinking(LOST_HASH, 2, 4).ht0, v, 2) == []
  {
    hide EmitLarge, Shrinking, Value;
    var t := Shrinking(LOST_HASH, 2, 4).ht0;
    ShrinkingIsValid(LOST_HASH, 2, 4);
    var emitted := EmitLarge(t, v, 2);
    LostHashBits();
    if emitted != [] {
      EmitLargeCovers(ConstantHash(LOST_HASH), t, v, 2, emitted[0]);
    }
  }

  /** A later call emits nothing and steps the two low bits. */
  lemma LaterCall(v: Word)
    requires v[..2] != [false, false] || v[2..4] == [false, true]
    ensures Valid(ConstantHash(LOST_HASH), Shrinking(LOST_HASH, 2, 4))
    ensures ScanCall(ConstantHash(LOST_HASH), Shrinking(LOST_HASH, 2, 4), v) == (Next(v[..2]) + Zeros(WIDTH - 2), [])
  {
    hide EmitLarge, Advance, Next, Valid, Shrinking, Lookup;
    var d := Shrinking(LOST_HASH, 2, 4);
    ShrinkingIsValid(LOST_HASH, 2, 4);
    FoundInChain(ConstantHash(LOST_HASH), d, 0);
    ValidImpliesSized(ConstantHash(LOST_HASH), d);
    AdvanceIs(v, 2);
    LaterEmitsNothing(v);
    assert FreshTable(2).buckets[BucketOf(v, 2)] == [];
    assert ScanCall(ConstantHash(LOST_HASH), d, v).1 == [] + EmitLarge(d.ht0, v, 2);
  }

  lemma TwoBitCycle()
    ensures Next([false, false]) == [false, true] && Next([false, true]) == [true, false]
    ensures Next([true, false]) == [true, true] && Next([true, true]) == [false, false]
  {
    assert Next([false]) == [true] && [false, false][1..] == [false] && !AllOnes([false]);
    assert [true, false][1..] == [false] && [false, true][1..] == [true] && [true, true][1..] == [true];
    assert AllOnes([true]);
  }

  /** Unfolds the first event of a run. */
  lemma OneRound(hash: Hash, s: ScanState, es: seq<Event>, s': ScanState, key: Key)
    requires Valid(hash, s.d) && es != [] && Step(hash, s, es[0]) == s'
    ensures Steps(hash, s, es) == Steps(hash, s', es[1..])
    ensures PresentThroughout(hash, s, es, key)
            <==> Lookup(hash, s.d, key).Some? && PresentThroughout(hash, s', es[1..], key)
  {}

  lemma LaterStep(v: Word, b0: bool, b1: bool)
    requires v[..2] == [b0, b1] && (b0 || b1 || v[2..4] == [false, true])
    ensures Valid(ConstantHash(LOST_HASH), Shrinking(LOST_HASH, 2, 4))
    ensures |Next([b0, b1])| == 2
    ensures Step(ConstantHash(LOST_HASH), ScanState(Shrinking(LOST_HASH, 2, 4), v, {}), Call)
            == ScanState(Shrinking(LOST_HASH, 2, 4), Low4(Next([b0, b1])[0], Next([b0, b1])[1], false, false), {})
  {
    hide Shrinking, Valid, ScanCall, Next;
    LaterCall(v);
    assert KeysOf([]) == {};
    assert Next([b0, b1]) + Zeros(WIDTH - 2) == Low4(Next([b0, b1])[0], Next([b0, b1])[1], false, false);
  }

  lemma FirstSteps()
    ensures var hash := ConstantHash(LOST_HASH);
            var s0 := ScanState(OneEntry(), Zeros(WIDTH), {});
            var s1 := ScanState(OneEntry(), Low4(false, false, false, true), {});
            && Valid(hash, OneEntry()) && Lookup(hash, OneEntry(), 0).Some?
            && Step(hash, s0, Call) == s1
            && Step(hash, s1, Change(CmdResize(true))) == s1.(d := Shrinking(LOST_HASH, 2, 4))
  {
    hide OneEntry, ScanCall, Valid, Lookup, Resize, Shrinking, Fits;
    OneEntryIsValid();
    OneEntryFits();
    FirstCall();
    assert KeysOf([]) == {};
  }

  /** A key that is in the dictionary throughout a scan may never be emitted: the cursors are 0, 8, 2, 1, 3
      and 0 again, and the table of 16 is shrunk after the first call. */
  lemma ShrinkingCanLoseKey()
    ensures var hash := ConstantHash(LOST_HASH);
            var s := ScanState(OneEntry(), Zeros(WIDTH), {});
            && Valid(hash, s.d)
            && Completes(hash, s, LOST_RUN) && PresentThroughout(hash, s, LOST_RUN, 0)
            && 0 !in Steps(hash, s, LOST_RUN).seen
  {
    hide Step, Valid, Lookup, Shrinking, OneEntry, Next;
    var hash := ConstantHash(LOST_HASH);
    var d := Shrinking(LOST_HASH, 2, 4);
    var v1 := Low4(false, false, false, true);
    var v2, v3, v4, v5 := Low4(false, true, false, false), Low4(true, false, false, false),
                          Low4(true, true, false, false), Zeros(WIDTH);
    FirstSteps();
    TwoBitCycle();
    ShrinkingIsValid(LOST_HASH, 2, 4);
    LaterStep(v1, false, false);
    LaterStep(v2, false, true);
    LaterStep(v3, true, false);
    LaterStep(v4, true, true);
    ZeroBits();
    var s0 := ScanState(OneEntry(), Zeros(WIDTH), {});
    OneRound(hash, s0, LOST_RUN, s0.(v := v1), 0);
    OneRound(hash, s0.(v := v1), LOST_RUN[1..], ScanState(d, v1, {}), 0);
    OneRound(hash, ScanState(d, v1, {}), LOST_RUN[2..], ScanState(d, v2, {}), 0);
    OneRound(hash, ScanState(d, v2, {}), LOST_RUN[3..], ScanState(d, v3, {}), 0);
    OneRound(hash, ScanState(d, v3, {}), LOST_RUN[4..], ScanState(d, v4, {}), 0);
    OneRound(hash, ScanState(d, v4, {}), LOST_RUN[5..], ScanState(d, v5, {}), 0);
  }

  lemma ZeroBits()
    ensures Low4(false, false, false, false) == Zeros(WIDTH)
  {}

  lemma OneEntryFits()
    ensures Fits(OneEntry())
  {}
}
