/** Up to which size a dictionary works.

    `_dictKeyIndex` returns a bucket as an `int`, and `rehashidx` is one.  So an add is right for every
    table of at most 2^31 buckets and no larger one, a rehash of every table of at most 2^30 buckets and
    no larger one; and a dictionary of at most 2^29 entries never gets that large by itself. */
module DictSizes {
  import opened Options
  import opened Words
  import opened Dict

  /** No table has more than 2^30 buckets. */
  predicate Small(d: DictState) {
    (d.ht0.Table? ==> d.ht0.k <= 30) && (d.ht1.Table? ==> d.ht1.k <= 30)
  }

  lemma Powers()
    ensures Pow2(29) == 0x2000_0000 && Pow2(30) == 0x4000_0000 && Pow2(31) == 0x8000_0000
    ensures Pow2(32) == 0x1_0000_0000
  {
    assert Pow2(5) == 32 && Pow2(10) == 1024 by { assert Pow2(5) == 32; PowAdds(5, 5); }
    PowAdds(10, 10);
    PowAdds(20, 9);
    assert Pow2(9) == 512 by { assert Pow2(4) == 16; PowAdds(5, 4); }
  }

  // ---- Adding ----

  /** `e` is not there, and adding it addresses a table of two to the `k` buckets. */
  ghost predicate AddsTo(hash: Hash, d: DictState, e: Entry, canResize: bool, k: nat) {
    && Valid(hash, d) && Fits(d) && !MaybeWild(d) && Lookup(hash, d, e.key).None?
    && var t := Target(BeforeAdd(hash, d, canResize)); t.Table? && t.k == k
  }

  /** The entry is added, and nothing else changes. */
  ghost predicate Stores(hash: Hash, d: DictState, e: Entry, canResize: bool)
    requires Valid(hash, d) && Fits(d)
  {
    && !AddWild(hash, d, e.key, canResize) && Add(hash, d, e, canResize).1
    && Updates(hash, d, Add(hash, d, e, canResize).0, e.key, Some(e))
  }

  lemma SmallAdds(hash: Hash, d: DictState, e: Entry, canResize: bool, k: nat)
    requires AddsTo(hash, d, e, canResize, k) && k <= 31
    ensures Stores(hash, d, e, canResize)
  {
    hide BeforeAdd, Updates, Same, ValidTable, Add, MaybeWild;
    var d1 := BeforeAdd(hash, d, canResize);
    ValidImpliesSized(hash, d1);
    Powers();
    Pow2Monotone(k, 31);
    assert KeyIndex(hash, Target(d1), e.key) == BucketOf(hash(e.key), k);
    AddEffect(hash, d, e, canResize);
  }

  /** A word with its lowest `n` bits set. */
  function LowOnes(n: nat): Word
    requires n <= WIDTH
  {
    Ones(n) + Zeros(WIDTH - n)
  }

  lemma {:induction false} ValueLowOnes(n: nat, k: nat)
    requires n <= k
    ensures Value(Ones(n) + Zeros(k - n)) == Pow2(n) - 1
    decreases k
  {
    var w := Ones(n) + Zeros(k - n);
    if k > 0 {
      if n > 0 {
        assert w[1..] == Ones(n - 1) + Zeros(k - n);
        ValueLowOnes(n - 1, k - 1);
      } else {
        assert w[1..] == Ones(0) + Zeros(k - 1);
        ValueLowOnes(0, k - 1);
      }
    }
  }

  lemma BucketOfLowOnes(n: nat, k: nat)
    requires n <= k <= WIDTH
    ensures BucketOf(LowOnes(n), k) == Pow2(n) - 1
  {
    assert LowOnes(n)[..k] == Ones(n) + Zeros(k - n);
    ValueLowOnes(n, k);
  }

  function EmptyTable(k: nat): DictState { DictState(FreshTable(k), NoTable, -1, 0) }

  lemma EmptyTableIsValid(hash: Hash, k: nat)
    requires INITIAL_EXPONENT <= k < WIDTH
    ensures Valid(hash, EmptyTable(k)) && Fits(EmptyTable(k)) && !MaybeWild(EmptyTable(k))
    ensures forall key :: Lookup(hash, EmptyTable(k), key).None?
  {
    TotalFresh(k);
  }

  lemma EmptyTableStays(hash: Hash, k: nat, canResize: bool)
    requires INITIAL_EXPONENT <= k < WIDTH && Valid(hash, EmptyTable(k)) && Fits(EmptyTable(k))
    ensures BeforeAdd(hash, EmptyTable(k), canResize) == EmptyTable(k)
  {
    hide Valid;
    Pow2Monotone(INITIAL_EXPONENT, k);
  }

  /** A key whose 32-bit hash has all bits set is refused by an empty table of 2^32 buckets or more, as if it
      were there. */
  lemma AbsentKeyIsRefused(key: Key, val: int, k: nat, canResize: bool) returns (hash: Hash)
    requires 32 <= k < WIDTH
    ensures hash(key) == LowOnes(32)
    ensures AddsTo(hash, EmptyTable(k), Entry(key, val), canResize, k)
    ensures Add(hash, EmptyTable(k), Entry(key, val), canResize) == (EmptyTable(k), false)
  {
    hide Valid, BeforeAdd, MaybeWild, FreshTable;
    hash := x => LowOnes(32);
    EmptyTableIsValid(hash, k);
    EmptyTableStays(hash, k, canResize);
    BucketOfLowOnes(32, k);
    Powers();
    assert EmptyTable(k).ht0.k == k && SizedTable(EmptyTable(k).ht0) by { FreshIsSized(k); }
  }

  lemma FreshIsSized(k: nat)
    requires INITIAL_EXPONENT <= k < WIDTH
    ensures SizedTable(FreshTable(k)) && FreshTable(k).k == k
  {
  }

  /** Adding stores every absent key, whatever the hash function, the dictionary and the key, exactly when the
      table addressed has at most 2^31 buckets. */
  lemma AddIsRightIff(k: nat)
    requires INITIAL_EXPONENT <= k < WIDTH
    ensures (forall hash: Hash, d, e, canResize :: AddsTo(hash, d, e, canResize, k) ==> Stores(hash, d, e, canResize))
            <==> k <= 31
  {
    hide Stores, Valid, Fits, MaybeWild, BeforeAdd, Lookup, Target;
    if k <= 31 {
      forall hash: Hash, d, e, canResize | AddsTo(hash, d, e, canResize, k) ensures Stores(hash, d, e, canResize) {
        SmallAdds(hash, d, e, canResize, k);
      }
    } else {
      var hash := AbsentKeyIsRefused(0, 0, k, true);
      assert !Stores(hash, EmptyTable(k), Entry(0, 0), true) by { RefusedIsNotStored(hash, k); }
    }
  }

  lemma RefusedIsNotStored(hash: Hash, k: nat)
    requires AddsTo(hash, EmptyTable(k), Entry(0, 0), true, k)
    requires Add(hash, EmptyTable(k), Entry(0, 0), true) == (EmptyTable(k), false)
    ensures !Stores(hash, EmptyTable(k), Entry(0, 0), true)
  {
  }

  // ---- Rehashing ----

  lemma SmallSteps(hash: Hash, d: DictState)
    requires Valid(hash, d) && Rehashing(d) && d.ht0.k <= 30
    ensures !StepWild(d)
  {
    Powers();
    Pow2Monotone(d.ht0.k, 30);
    if d.ht0.used > 0 { SkipKeeps(hash, d); }
  }

  /** One entry, in bucket INT_MAX of a table that is being rehashed. */
  lemma LastIndex(k: nat) returns (hash: Hash, d: DictState)
    requires 31 <= k < WIDTH
    ensures Valid(hash, d) && Rehashing(d) && d.ht0.Table? && d.ht0.k == k && StepWild(d)
  {
    hide Insert;
    hash := x => LowOnes(31);
    var e := Entry(0, 0);
    EmptyTableIsValid(hash, k);
    EmptyTableIsValid(hash, 2);
    FreshIsSized(k);
    FreshIsSized(2);
    InsertKeeps(hash, FreshTable(k), e);
    var t := Insert(hash, FreshTable(k), e);
    BucketOfLowOnes(31, k);
    Powers();
    InsertedAt(hash, k, e);
    d := DictState(t, FreshTable(2), 0, 0);
    OnlyBucket(t.buckets, INT_MAX);
    FreshFindsNothing(hash, 2);
  }

  lemma FreshFindsNothing(hash: Hash, k: nat)
    requires INITIAL_EXPONENT <= k < WIDTH
    ensures SizedTable(FreshTable(k)) && forall key :: FindIn(hash, FreshTable(k), key).None?
  {
  }

  lemma InsertedAt(hash: Hash, k: nat, e: Entry)
    requires INITIAL_EXPONENT <= k < WIDTH
    ensures var t, i := Insert(hash, FreshTable(k), e), BucketOf(hash(e.key), k);
      && t.Table? && t.k == k && t.used == 1 && |t.buckets| == Pow2(k) && t.buckets[i] == [e]
      && forall j :: 0 <= j < |t.buckets| && j != i ==> t.buckets[j] == []
  {
  }

  lemma OnlyBucket(b: seq<Chain>, i: nat)
    requires i < |b| && b[i] != [] && forall j :: 0 <= j < |b| && j != i ==> b[j] == []
    ensures SkipEmpty(b, 0) == i
  {
  }

  /** A round of rehashing stays within the table and within the type of `rehashidx`, whatever is stored,
      exactly when the table that is emptied has at most 2^30 buckets. */
  lemma RehashIsRightIff(k: nat)
    requires INITIAL_EXPONENT <= k < WIDTH
    ensures (forall hash: Hash, d :: Valid(hash, d) && Rehashing(d) && d.ht0.Table? && d.ht0.k == k ==>
               !StepWild(d)) <==> k <= 30
  {
    hide StepWild, Valid;
    if k <= 30 {
      forall hash: Hash, d | Valid(hash, d) && Rehashing(d) && d.ht0.Table? && d.ht0.k == k ensures !StepWild(d) {
        SmallSteps(hash, d);
      }
    } else {
      var hash, d := LastIndex(k);
    }
  }

  // ---- Dictionaries that stay small ----

  /** Neither the command nor the number of entries before it asks for more than 2^30 buckets. */
  predicate SmallCommand(m: map<Key, int>, c: Command) {
    match c
    case CmdAdd(_, _) => |m| <= 0x2000_0000
    case CmdReplace(_, _) => |m| <= 0x2000_0000
    case CmdExpand(size) => size <= 0x4000_0000
    case CmdResize(_) => |m| <= 0x4000_0000
    case _ => true
  }

  predicate SmallRun(m: map<Key, int>, cs: seq<Command>)
    decreases |cs|
  {
    cs == [] || (SmallCommand(m, cs[0]) && SmallRun(ApplyMap(m, cs[0]).0, cs[1..]))
  }

  lemma SmallPower(size: nat)
    requires size <= 0x4000_0000
    ensures NextPower(size, INITIAL_EXPONENT) <= 30
  {
    Powers();
    var k := NextPower(size, INITIAL_EXPONENT);
    if k > 30 { Pow2Monotone(30, k - 1); }
  }

  lemma SmallExpand(d: DictState, size: nat)
    requires Small(d) && size <= 0x4000_0000
    ensures Small(Expand(d, size)) && Expand(d, size).iterators == d.iterators
  {
    SmallPower(size);
  }

  lemma StepStaysSmall(hash: Hash, d: DictState)
    requires Valid(hash, d) && Small(d)
    ensures Small(MaybeStep(hash, d)) && !MaybeWild(d)
  {
    hide StepWild, Rehash, Same;
    if Rehashing(d) { SmallSteps(hash, d); }
    MaybeStepSizes(hash, d);
  }

  lemma MaybeStepSizes(hash: Hash, d: DictState)
    requires Valid(hash, d)
    ensures var d' := MaybeStep(hash, d);
      SameSizes(d, d') || (Rehashing(d) && d.ht1.Table? && d'.ht0.Table? && d'.ht0.k == d.ht1.k && d'.ht1.NoTable?)
  {
  }

  lemma {:induction false} RehashStaysSmall(hash: Hash, d: DictState, n: nat)
    requires Valid(hash, d) && Small(d)
    ensures Small(Rehash(hash, d, n)) && !RehashWild(hash, d, n)
    decreases n
  {
    hide StepWild, RehashStep, Same;
    if n > 0 && Rehashing(d) {
      SmallSteps(hash, d);
      RoundStaysSmall(hash, d);
      RehashStaysSmall(hash, RehashStep(hash, d), n - 1);
    }
  }

  lemma RoundStaysSmall(hash: Hash, d: DictState)
    requires Valid(hash, d) && Small(d) && Rehashing(d)
    ensures Small(RehashStep(hash, d))
  {
  }

  lemma BeforeAddStaysSmall(hash: Hash, d: DictState, canResize: bool)
    requires Valid(hash, d) && Small(d) && Fits(d) && Count(d) <= 0x2000_0000
    ensures Small(BeforeAdd(hash, d, canResize))
  {
    hide MaybeStep, Expand, Valid;
    StepStaysSmall(hash, d);
    var d1 := MaybeStep(hash, d);
    assert Count(d1) == Count(d);
    SmallExpand(d1, 4);
    SmallExpand(d1, Used(d1.ht0) * 2);
  }

  lemma AddStaysSmall(hash: Hash, d: DictState, e: Entry, canResize: bool)
    requires Valid(hash, d) && Small(d) && Fits(d) && Count(d) <= 0x2000_0000
    ensures Small(Add(hash, d, e, canResize).0)
    ensures !AddWild(hash, d, e.key, canResize) && !Misread(hash, d, e.key, canResize)
  {
    hide BeforeAdd, MaybeWild, Same, ValidTable;
    StepStaysSmall(hash, d);
    BeforeAddStaysSmall(hash, d, canResize);
    var d1 := BeforeAdd(hash, d, canResize);
    ValidImpliesSized(hash, d1);
    Powers();
    Pow2Monotone(Target(d1).k, 31);
  }

  lemma ReplaceStaysSmall(hash: Hash, d: DictState, e: Entry, canResize: bool)
    requires Valid(hash, d) && Small(d) && Fits(d) && Count(d) <= 0x2000_0000
    ensures Small(Replace(hash, d, e, canResize).0) && !ReplaceWild(hash, d, e, canResize)
  {
    hide Add, MaybeStep, Valid, MaybeWild, AddWild, Misread, Overwrite, Lookup;
    AddStaysSmall(hash, d, e, canResize);
    AddEffect(hash, d, e, canResize);
    var d1 := Add(hash, d, e, canResize).0;
    StepStaysSmall(hash, d1);
    var d2 := MaybeStep(hash, d1);
    ValidImpliesSized(hash, d2);
    if Lookup(hash, d2, e.key).Some? { OverwriteKeepsSizes(hash, d2, e.key, e.val); }
  }

  lemma OverwriteKeepsSizes(hash: Hash, d: DictState, key: Key, val: int)
    requires Sized(d) && Lookup(hash, d, key).Some?
    ensures SameSizes(d, Overwrite(hash, d, key, val))
  {
  }

  lemma DeleteStaysSmall(hash: Hash, d: DictState, key: Key)
    requires Valid(hash, d) && Small(d)
    ensures Small(Delete(hash, d, key).0)
  {
    hide MaybeStep, ValidTable;
    StepStaysSmall(hash, d);
  }

  lemma CommandStaysSmall(hash: Hash, d: DictState, m: map<Key, int>, c: Command)
    requires Represents(hash, d, m) && Valid(hash, d) && Small(d) && SmallCommand(m, c)
    ensures Indexable(hash, d, c) && Small(Apply(hash, d, c).0)
  {
    hide Valid, Small, Represents, Add, Replace, Delete, Rehash, MaybeStep, Expand, AddWild, ReplaceWild, Misread,
         RehashWild, MaybeWild;
    CountIs(hash, d, m);
    StepStaysSmall(hash, d);
    match c
    case CmdAdd(e, canResize) => if Fits(d) { AddStaysSmall(hash, d, e, canResize); }
    case CmdReplace(e, canResize) => if Fits(d) { ReplaceStaysSmall(hash, d, e, canResize); }
    case CmdDelete(key) => DeleteStaysSmall(hash, d, key);
    case CmdFind(key) =>
    case CmdExpand(size) => SmallExpand(d, size);
    case CmdResize(canResize) => SmallExpand(d, Minimal(Used(d.ht0)));
    case CmdRehash(n) => RehashStaysSmall(hash, d, n);
    case CmdOpenIterator => SmallIgnoresIterators(d, d.iterators + 1);
    case CmdCloseIterator => if d.iterators > 0 { SmallIgnoresIterators(d, d.iterators - 1); }
  }

  lemma SmallIgnoresIterators(d: DictState, n: nat)
    requires Small(d)
    ensures Small(d.(iterators := n))
  {
  }

  lemma CountIs(hash: Hash, d: DictState, m: map<Key, int>)
    requires Represents(hash, d, m)
    ensures Count(d) == |m|
  {
  }

  /** From a dictionary without large tables, a run that adds to at most 2^29 entries and asks for at most
      2^30 buckets gives the answers of a finite map, represents it at the end, and has no large table. */
  lemma {:induction false} SmallRunRefines(hash: Hash, d: DictState, m: map<Key, int>, cs: seq<Command>)
    requires Represents(hash, d, m) && Valid(hash, d) && Small(d) && SmallRun(m, cs)
    ensures IndexableAll(hash, d, cs) && Small(Run(hash, d, cs).0)
    ensures Run(hash, d, cs).1 == RunMap(m, cs).1 && Represents(hash, Run(hash, d, cs).0, RunMap(m, cs).0)
    decreases |cs|
  {
    hide Apply, ApplyMap, Indexable, Represents, Valid, Small, SmallCommand;
    if cs != [] {
      CommandStaysSmall(hash, d, m, cs[0]);
      CommandRefines(hash, d, m, cs[0]);
      CommandEffect(hash, d, cs[0]);
      RepresentsSays(hash, Apply(hash, d, cs[0]).0, ApplyMap(m, cs[0]).0, 0);
      SmallRunRefines(hash, Apply(hash, d, cs[0]).0, ApplyMap(m, cs[0]).0, cs[1..]);
    }
    RunRefines(hash, d, m, cs);
  }

  // ---- Growing ----

  lemma NextPowerIsClose(size: nat)
    requires 4 < size < LONG_MAX
    ensures var k := NextPower(size, INITIAL_EXPONENT); size <= Pow2(k) < 2 * size
  {
    assert Pow2(INITIAL_EXPONENT) == 4;
  }

  /** A dictionary without a table gets one of four buckets; a full one starts to be rehashed into a table of at
      least twice and less than four times as many buckets as it has entries; any other is left alone. */
  lemma FullTableGrows(hash: Hash, d: DictState, canResize: bool)
    requires Valid(hash, d) && Used(d.ht0) * 2 < LONG_MAX
    ensures var d' := ExpandIfNeeded(d, canResize);
            if Rehashing(d) then d' == d
            else if d.ht0.NoTable? then d'.ht0.Table? && Size(d'.ht0) == 4 && Used(d'.ht0) == 0 && !Rehashing(d')
            else if Used(d.ht0) >= (if canResize then Size(d.ht0) else 6 * Size(d.ht0)) then
              && d' == d.(ht1 := d'.ht1, rehashidx := 0) && Used(d'.ht1) == 0
              && 2 * Used(d.ht0) <= Size(d'.ht1) < 4 * Used(d.ht0)
            else d' == d
  {
    if !Rehashing(d) {
      assert Pow2(2) == 4;
      if d.ht0.NoTable? {
        assert NextPower(4, INITIAL_EXPONENT) == 2;
      } else {
        Pow2Monotone(INITIAL_EXPONENT, d.ht0.k);
        assert Size(d.ht0) >= 4;
        Ratio(Used(d.ht0), Size(d.ht0));
        if Used(d.ht0) >= Size(d.ht0) { NextPowerIsClose(Used(d.ht0) * 2); }
      }
    }
  }

  lemma Ratio(used: nat, size: nat)
    requires size > 0
    ensures used / size > FORCE_RESIZE_RATIO <==> used >= 6 * size
  {
  }

  /** After an add a dictionary that is not being rehashed has at most as many entries as buckets if it may be
      resized, and at most six times as many otherwise. */
  lemma LoadIsBounded(hash: Hash, d: DictState, e: Entry, canResize: bool)
    requires Valid(hash, d) && Fits(d)
    ensures var d' := Add(hash, d, e, canResize).0;
            !Rehashing(d') ==> Used(d'.ht0) <= if canResize then Size(d'.ht0) else 6 * Size(d'.ht0)
  {
    hide Valid, MaybeStep, ExpandIfNeeded, Lookup, Same, NextPower, Insert;
    var d1 := MaybeStep(hash, d);
    StepFits(hash, d);
    FullTableGrows(hash, d1, canResize);
    var d2 := BeforeAdd(hash, d, canResize);
    ValidImpliesSized(hash, d2);
    InsertSizes(hash, d2.ht0, e);
  }

  lemma InsertSizes(hash: Hash, t: Table, e: Entry)
    requires SizedTable(t)
    ensures Size(Insert(hash, t, e)) == Size(t) && Used(Insert(hash, t, e)) == Used(t) + 1
  {
  }

  lemma StepFits(hash: Hash, d: DictState)
    requires Valid(hash, d) && Fits(d)
    ensures Valid(hash, MaybeStep(hash, d)) && Fits(MaybeStep(hash, d)) && Used(MaybeStep(hash, d).ht0) * 2 < LONG_MAX
  {
  }

  // ---- Rehashing comes to an end ----

  /** The index has moved on and the tables' sizes are the same. */
  predicate MovedOn(d: DictState, d': DictState) {
    Rehashing(d) && Rehashing(d') && d.rehashidx < d'.rehashidx && SameSizes(d, d')
  }

  /** A round empties a bucket and moves on, or finds the table empty and is the last. */
  lemma RoundMovesOn(hash: Hash, d: DictState)
    requires Valid(hash, d) && Rehashing(d)
    ensures if d.ht0.used == 0 then RehashStep(hash, d) == DictState(d.ht1, NoTable, -1, d.iterators)
            else MovedOn(d, RehashStep(hash, d))
  {
    hide Same, FindIn, ValidTable;
    if d.ht0.used > 0 { SkipKeeps(hash, d); }
  }

  /** As many rounds as there are buckets left, and one more, end the rehashing. */
  lemma {:induction false} RehashEnds(hash: Hash, d: DictState, n: nat)
    requires Valid(hash, d) && Rehashing(d) && d.ht0.Table? && n > Size(d.ht0) - d.rehashidx
    ensures !Rehashing(Rehash(hash, d, n))
    decreases n
  {
    hide Same, FindIn, ValidTable, RehashStep;
    RoundMovesOn(hash, d);
    RehashUnfolded(hash, d, n);
    var d1 := RehashStep(hash, d);
    if Rehashing(d1) {
      assert d1.rehashidx <= Size(d1.ht0) && Size(d1.ht0) == Size(d.ht0);
      RehashEnds(hash, d1, n - 1);
    }
  }

  lemma RehashUnfolded(hash: Hash, d: DictState, n: nat)
    requires Valid(hash, d) && Rehashing(d) && n > 0
    ensures Rehash(hash, d, n) == Rehash(hash, RehashStep(hash, d), n - 1)
    ensures !Rehashing(RehashStep(hash, d)) ==> Rehash(hash, d, n) == RehashStep(hash, d)
  {
  }

  /** A command that searches for a key moves a rehash on, or has ended it, unless an iterator is open; then it
      moves nothing. */
  lemma CommandMovesOn(hash: Hash, d: DictState, c: Command)
    requires Valid(hash, d) && Rehashing(d) && !Wild(hash, d, c) && Fits(d)
    requires c.CmdAdd? || c.CmdDelete? || c.CmdFind?
    ensures var d' := Apply(hash, d, c).0;
            if d.iterators > 0 then d'.rehashidx == d.rehashidx && SameSizes(d, d')
            else MovedOn(d, d') || d.ht0.used == 0
  {
    hide Same, FindIn, ValidTable, RehashStep, Lookup, Valid;
    StepIs(hash, d);
    RoundMovesOn(hash, d);
    match c
    case CmdAdd(e, canResize) => if Rehashing(MaybeStep(hash, d)) { AddMoves(hash, d, e, canResize); }
    case CmdDelete(key) => UnlinkSizes(hash, MaybeStep(hash, d), key);
    case CmdFind(key) =>
  }

  lemma StepIs(hash: Hash, d: DictState)
    requires Valid(hash, d) && Rehashing(d)
    ensures MaybeStep(hash, d) == (if d.iterators == 0 then RehashStep(hash, d) else d) && d.ht0.Table?
  {
    hide RehashStep;
    RehashUnfolded(hash, d, 1);
  }

  lemma AddMoves(hash: Hash, d: DictState, e: Entry, canResize: bool)
    requires Valid(hash, d) && Fits(d) && Rehashing(MaybeStep(hash, d))
    ensures var d1, d' := MaybeStep(hash, d), Add(hash, d, e, canResize).0;
            d'.rehashidx == d1.rehashidx && SameSizes(d1, d')
  {
    hide Same, FindIn, ValidTable, Lookup, MaybeStep;
  }

  lemma UnlinkSizes(hash: Hash, d: DictState, key: Key)
    requires Valid(hash, d)
    ensures Unlink(hash, d, key).rehashidx == d.rehashidx && SameSizes(d, Unlink(hash, d, key))
  {
    hide Same, ValidTable;
  }
}
