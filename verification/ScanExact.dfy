/** What a scan returns, exactly: entries of the dictionary and nothing else, none twice in one call. */
module ScanExact {
  import opened Options
  import opened Words
  import opened Dict
  import opened Scan

  // ---- One call ----

  /** A table holds an entry in its bucket exactly when a search for its key finds it. */
  lemma StoredIff(hash: Hash, t: Table, e: Entry)
    requires ValidTable(hash, t)
    ensures e in t.buckets[BucketOf(hash(e.key), t.k)] <==> FindIn(hash, t, e.key) == Some(e)
  {
    var c := ChainOf(hash, t, e.key);
    if e in c {
      var j :| 0 <= j < |c| && c[j] == e;
      IndexOfIs(c, e.key, j);
    }
  }

  /** The bucket at the cursor holds the entries stored whose hashes agree with it on the mask. */
  lemma BucketAt(hash: Hash, t: Table, v: Word, e: Entry)
    requires ValidTable(hash, t)
    ensures e in t.buckets[BucketOf(v, t.k)] <==>
            FindIn(hash, t, e.key) == Some(e) && hash(e.key)[..t.k] == v[..t.k]
  {
    StoredIff(hash, t, e);
    if e in t.buckets[BucketOf(v, t.k)] { ValueInjective(hash(e.key)[..t.k], v[..t.k]); }
  }

  /** The exponent of the table whose mask the cursor steps by. */
  function SmallExponent(d: DictState): nat
    requires d.ht0.Table? && (Rehashing(d) ==> d.ht1.Table?)
  {
    if Rehashing(d) then Small(d).k else d.ht0.k
  }

  /** The entry is in the dictionary, its hash agrees with the cursor on the smaller mask and, if the larger
      table holds it, its bits between the masks are not below the cursor's. */
  ghost predicate Due(hash: Hash, d: DictState, v: Word, e: Entry)
    requires Valid(hash, d)
  {
    && Lookup(hash, d, e.key) == Some(e)
    && d.ht0.Table? && hash(e.key)[..SmallExponent(d)] == v[..SmallExponent(d)]
    && (Rehashing(d) && FindIn(hash, Large(d), e.key) == Some(e) ==>
          (SmallAndLarge(hash, d);
           Value(v[Small(d).k..Large(d).k]) <= Value(hash(e.key)[Small(d).k..Large(d).k])))
  }

  lemma InOneTable(hash: Hash, d: DictState, e: Entry)
    requires Valid(hash, d) && Rehashing(d)
    ensures ValidTable(hash, Small(d)) && ValidTable(hash, Large(d))
    ensures FindIn(hash, Small(d), e.key).None? || FindIn(hash, Large(d), e.key).None?
    ensures Lookup(hash, d, e.key) == Some(e) <==>
            FindIn(hash, Small(d), e.key) == Some(e) || FindIn(hash, Large(d), e.key) == Some(e)
  {
    hide FindIn, ValidTable;
    SmallAndLarge(hash, d);
  }

  lemma NothingStored(hash: Hash, d: DictState, key: Key)
    requires Valid(hash, d) && Count(d) == 0
    ensures Lookup(hash, d, key).None?
  {
    FoundIsCounted(hash, d.ht0, key);
    FoundIsCounted(hash, d.ht1, key);
  }

  /** A call emits exactly the entries that are due: what it emits is stored, and its hash agrees with the
      cursor on the smaller mask. */
  lemma CallEmitsExactly(hash: Hash, d: DictState, v: Word, e: Entry)
    requires Valid(hash, d)
    ensures e in ScanCall(hash, d, v).1 <==> Due(hash, d, v, e)
  {
    hide FindIn, ValidTable, EmitLarge, Advance, BucketOf;
    if Count(d) == 0 {
      NothingStored(hash, d, e.key);
    } else if !Rehashing(d) {
      NonEmptyHasTable(hash, d);
      BucketAt(hash, d.ht0, v, e);
      assert FindIn(hash, d.ht1, e.key).None? by { NoTableFindsNothing(hash, d.ht1, e.key); }
    } else {
      InOneTable(hash, d, e);
      SmallAndLarge(hash, d);
      BucketAt(hash, Small(d), v, e);
      EmitLargeCovers(hash, Large(d), v, Small(d).k, e);
      StoredIff(hash, Large(d), e);
    }
  }

  lemma NoTableFindsNothing(hash: Hash, t: Table, key: Key)
    requires t.NoTable?
    ensures FindIn(hash, t, key).None?
  {
  }

  // ---- No entry twice ----

  lemma DistinctAppend(a: Chain, b: Chain)
    requires DistinctKeys(a) && DistinctKeys(b)
    requires forall x, y :: x in a && y in b ==> x.key != y.key
    ensures DistinctKeys(a + b)
  {
    forall i, j | 0 <= i < j < |a + b| ensures (a + b)[i].key != (a + b)[j].key {
      if i < |a| <= j { assert a[i] in a && b[j - |a|] in b; }
    }
  }

  lemma {:induction false} EmitLargeDistinct(hash: Hash, t: Table, v: Word, k0: nat)
    requires ValidTable(hash, t) && k0 <= t.k
    ensures DistinctKeys(EmitLarge(t, v, k0))
    decreases Pow2(t.k - k0) - Value(v[k0..t.k])
  {
    var v' := ExpandRound(v, k0);
    var here := t.buckets[BucketOf(v, t.k)];
    MidStep(v, k0, t.k);
    if GoesOn(v', k0, t.k) {
      var rest := EmitLarge(t, v', k0);
      EmitLargeDistinct(hash, t, v', k0);
      forall x, y | x in here && y in rest ensures x.key != y.key {
        EmitLargeCovers(hash, t, v', k0, y);
        BucketAt(hash, t, v, x);
        assert hash(x.key)[k0..t.k] == hash(x.key)[..t.k][k0..] == v[k0..t.k];
      }
      DistinctAppend(here, rest);
    } else {
      assert here + [] == here;
    }
  }

  /** No key is emitted twice by one call. */
  lemma CallEmitsOnce(hash: Hash, d: DictState, v: Word)
    requires Valid(hash, d)
    ensures DistinctKeys(ScanCall(hash, d, v).1)
  {
    hide FindIn, EmitLarge, Advance;
    if Count(d) > 0 {
      NonEmptyHasTable(hash, d);
      if Rehashing(d) {
        SmallAndLarge(hash, d);
        var here, rest := Small(d).buckets[BucketOf(v, Small(d).k)], EmitLarge(Large(d), v, Small(d).k);
        EmitLargeDistinct(hash, Large(d), v, Small(d).k);
        forall x, y | x in here && y in rest ensures x.key != y.key {
          BucketAt(hash, Small(d), v, x);
          EmitLargeCovers(hash, Large(d), v, Small(d).k, y);
          StoredIff(hash, Large(d), y);
          InOneTable(hash, d, x);
        }
        DistinctAppend(here, rest);
      }
    }
  }

  /** The keys that a call passes, beyond those passed before, are those that agree with the cursor on the
      smaller mask; and a scan of an empty dictionary ends. */
  lemma CallPasses(hash: Hash, d: DictState, v: Word, h: Word)
    requires Valid(hash, d)
    ensures var next := ScanCall(hash, d, v).0;
            if Count(d) == 0 then IsZero(next)
            else && d.ht0.Table?
                 && (IsZero(next) || Before(h, next) ==> Before(h, v) || h[..SmallExponent(d)] == v[..SmallExponent(d)])
                 && (h[..SmallExponent(d)] == v[..SmallExponent(d)] ==> IsZero(next) || Before(h, next))
  {
    hide FindIn, ValidTable, Advance, EmitLarge, Before;
    if Count(d) > 0 {
      NonEmptyHasTable(hash, d);
      if Rehashing(d) { SmallAndLarge(hash, d); }
      CursorPasses(h, v, SmallExponent(d));
    }
  }

  // ---- Whole scans ----

  /** Every key a scan returns was in the dictionary at the call that returned it. */
  lemma {:induction false} SeenWasThere(hash: Hash, s: ScanState, es: seq<Event>, key: Key) returns (i: nat)
    requires Valid(hash, s.d) && key in Steps(hash, s, es).seen && key !in s.seen
    ensures i < |es| && es[i].Call?
    ensures Lookup(hash, Steps(hash, s, es[..i]).d, key).Some?
    decreases |es|
  {
    hide Valid, Lookup, ScanCall;
    var s1 := Step(hash, s, es[0]);
    if key in s1.seen {
      i := 0;
      EmittedIsStored(hash, s.d, s.v, key);
      assert es[..0] == [];
    } else {
      var j := SeenWasThere(hash, s1, es[1..], key);
      i := j + 1;
      assert es[..i][1..] == es[1..][..j] && es[..i][0] == es[0];
    }
  }

  lemma EmittedIsStored(hash: Hash, d: DictState, v: Word, key: Key)
    requires Valid(hash, d) && key in KeysOf(ScanCall(hash, d, v).1)
    ensures Lookup(hash, d, key).Some?
  {
    hide Valid, Lookup, ScanCall;
    var e :| e in ScanCall(hash, d, v).1 && e.key == key;
    CallEmitsExactly(hash, d, v, e);
  }

  /** The key is not in the dictionary at any call. */
  ghost predicate AbsentAtCalls(hash: Hash, s: ScanState, es: seq<Event>, key: Key)
    requires Valid(hash, s.d)
  {
    forall i :: 0 <= i < |es| && es[i].Call? ==> Lookup(hash, Steps(hash, s, es[..i]).d, key).None?
  }

  /** A key that is absent whenever the scan is called is never returned. */
  lemma AbsentIsNeverSeen(hash: Hash, d: DictState, es: seq<Event>, key: Key)
    requires Valid(hash, d) && AbsentAtCalls(hash, ScanState(d, Zeros(WIDTH), {}), es, key)
    ensures key !in Steps(hash, ScanState(d, Zeros(WIDTH), {}), es).seen
  {
    hide Valid, Lookup, Steps;
    var s := ScanState(d, Zeros(WIDTH), {});
    if key in Steps(hash, s, es).seen {
      var i := SeenWasThere(hash, s, es, key);
    }
  }

  // ---- An undisturbed scan ----

  /** What `n` calls in a row emit. */
  function Output(hash: Hash, d: DictState, v: Word, n: nat): seq<Entry>
    requires Valid(hash, d)
    decreases n
  {
    if n == 0 then [] else ScanCall(hash, d, v).1 + Output(hash, d, ScanCall(hash, d, v).0, n - 1)
  }

  lemma {:induction false} DistinctCount(c: Chain, e: Entry)
    requires DistinctKeys(c)
    ensures multiset(c)[e] == if e in c then 1 else 0
  {
    if c != [] {
      assert c == [c[0]] + c[1..];
      DistinctCount(c[1..], e);
      assert e in c <==> e == c[0] || e in c[1..];
    }
  }

  lemma SamePosition(h: Word, v: Word, k: nat)
    requires k <= WIDTH
    ensures Position(h, k) == Position(v, k) <==> h[..k] == v[..k]
  {
    if Position(h, k) == Position(v, k) {
      ValueInjective(Reverse(h[..k]), Reverse(v[..k]));
      assert Reverse(Reverse(h[..k])) == h[..k] && Reverse(Reverse(v[..k])) == v[..k];
    }
  }

  lemma {:induction false} OutputCounts(hash: Hash, d: DictState, v: Word, n: nat, e: Entry)
    requires Valid(hash, d) && !Rehashing(d) && Count(d) > 0
    requires d.ht0.Table? && Position(v, d.ht0.k) + n <= Pow2(d.ht0.k)
    ensures multiset(Output(hash, d, v, n))[e]
         == if Lookup(hash, d, e.key) == Some(e)
               && Position(v, d.ht0.k) <= Position(hash(e.key), d.ht0.k) < Position(v, d.ht0.k) + n
            then 1 else 0
    decreases n
  {
    hide Position, FindIn, ValidTable, Advance;
    if n > 0 {
      var k := d.ht0.k;
      var (next, emitted) := ScanCall(hash, d, v);
      CallEmitsOnce(hash, d, v);
      CallEmitsExactly(hash, d, v, e);
      DistinctCount(emitted, e);
      SamePosition(hash(e.key), v, k);
      AdvancePosition(v, k);
      if n > 1 {
        OutputCounts(hash, d, next, n - 1, e);
      } else {
        assert Output(hash, d, next, 0) == [];
      }
    }
  }

  /** A scan of a dictionary that nobody changes and that is not being rehashed emits every entry exactly
      once, and nothing else. */
  lemma QuietScanIsExact(hash: Hash, d: DictState, e: Entry)
    requires Valid(hash, d) && !Rehashing(d) && Count(d) > 0
    ensures d.ht0.Table?
    ensures multiset(Output(hash, d, Zeros(WIDTH), Pow2(d.ht0.k)))[e]
         == if Lookup(hash, d, e.key) == Some(e) then 1 else 0
  {
    hide Output, Position, FindIn, ValidTable;
    NonEmptyHasTable(hash, d);
    PositionZero(Zeros(WIDTH), d.ht0.k);
    OutputCounts(hash, d, Zeros(WIDTH), Pow2(d.ht0.k), e);
  }
}
