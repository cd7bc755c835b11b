/** Safe iterators: `dictNext` walks the two tables bucket by bucket while other commands run in between.
    Keys are unique, so a pointer to an entry is modelled by the entry's key.

    `dictNext` compares its index with the table's size cut to an `int`.  From 2^31 buckets on the cut size
    is not positive, and the walk over the table ends at once. */
module SafeIterator {
  import opened Options
  import opened Words
  import opened Dict
  import opened DictSizes

  /** `dictIterator`; `entry` and `next` are the pointers `entry` and `nextEntry`. */
  datatype Iter = Iter(table: nat, index: int, entry: Option<Key>, next: Option<Key>)

  const FRESH: Iter := Iter(0, -1, None, None)

  function TableAt(d: DictState, t: nat): Table { if t == 0 then d.ht0 else d.ht1 }

  function Bucket(d: DictState, t: nat, i: int): Chain {
    var ht := TableAt(d, t);
    if ht.Table? && 0 <= i < |ht.buckets| then ht.buckets[i] else []
  }

  /** The key after position `j` of a chain. */
  function KeyAt(c: Chain, j: nat): Option<Key> { if j < |c| then Some(c[j].key) else None }

  /** The loop of `dictNext` while `entry` is NULL: on from bucket `i` of table `t`. */
  function Seek(d: DictState, t: nat, i: nat): (r: (Iter, Option<Entry>))
    decreases 1 - t, Size(TableAt(d, t)) - i, 1
  {
    if i >= ToInt(Size(TableAt(d, t))) then
      if Rehashing(d) && t == 0 then Visit(d, 1, 0) else (Iter(t, i, None, None), None)
    else
      Visit(d, t, i)
  }

  /** Bucket `i`, and the ones after it; the first bucket of the second table is not compared with its size. */
  function Visit(d: DictState, t: nat, i: nat): (r: (Iter, Option<Entry>))
    decreases 1 - t, Size(TableAt(d, t)) - i, 0
  {
    var c := Bucket(d, t, i);
    if c != [] then (Iter(t, i, Some(c[0].key), KeyAt(c, 1)), Some(c[0]))
    else if i < Size(TableAt(d, t)) then Seek(d, t, i + 1)
    else (Iter(t, i, None, None), None)
  }

  /** The position the iterator may still have to visit: the saved `nextEntry` is in the current chain. */
  predicate IterValid(d: DictState, it: Iter) {
    && it.table <= 1 && it.index >= -1 && (it.table == 1 ==> Rehashing(d))
    && (it.entry.None? ==> it.next.None?) && (it.entry.Some? ==> it.index >= 0)
    && (it.next.Some? ==> it.index >= 0 && HasKey(Bucket(d, it.table, it.index), it.next.value))
  }

  /** `dictNext` on a safe iterator. */
  function NextEntry(d: DictState, it: Iter): (r: (DictState, Iter, Option<Entry>))
    requires IterValid(d, it)
  {
    var d' := if it.index == -1 && it.table == 0 then d.(iterators := d.iterators + 1) else d;
    if it.next.Some? then
      var c := Bucket(d, it.table, it.index);
      var j := IndexOf(c, it.next.value);
      (d', it.(entry := it.next, next := KeyAt(c, j + 1)), Some(c[j]))
    else
      var (it', e) := Seek(d, it.table, it.index + 1);
      (d', it', e)
  }

  // ---- What is still ahead of the iterator ----

  /** The key is stored at or beyond bucket `i` of table `t`. */
  predicate Beyond(hash: Hash, d: DictState, t: nat, i: int, key: Key)
    requires Sized(d)
  {
    if FindIn(hash, d.ht0, key).Some? then t == 0 && BucketOf(hash(key), d.ht0.k) >= i
    else FindIn(hash, d.ht1, key).Some? && (t == 0 || BucketOf(hash(key), d.ht1.k) >= i)
  }

  /** The key has yet to be returned. */
  predicate Ahead(hash: Hash, d: DictState, it: Iter, key: Key)
    requires Sized(d)
  {
    || Beyond(hash, d, it.table, it.index + 1, key)
    || (it.next.Some?
        && var c := Bucket(d, it.table, it.index);
           HasKey(c, key) && HasKey(c, it.next.value) && IndexOf(c, it.next.value) <= IndexOf(c, key))
  }

  /** A bucket holds exactly the keys that hash to it. */
  lemma BucketHolds(hash: Hash, d: DictState, t: nat, i: nat, key: Key)
    requires Valid(hash, d) && t <= 1 && TableAt(d, t).Table? && i < |TableAt(d, t).buckets|
    ensures HasKey(Bucket(d, t, i), key)
            <==> FindIn(hash, TableAt(d, t), key).Some? && BucketOf(hash(key), TableAt(d, t).k) == i
  {
    var c := Bucket(d, t, i);
    if HasKey(c, key) {
      assert c[IndexOf(c, key)] in c;
    }
  }

  lemma InOneTable(hash: Hash, d: DictState, key: Key)
    requires Valid(hash, d)
    ensures FindIn(hash, d.ht0, key).None? || FindIn(hash, d.ht1, key).None?
    ensures FindIn(hash, d.ht0, key).Some? ==> d.ht0.Table?
    ensures FindIn(hash, d.ht1, key).Some? ==> Rehashing(d)
  {}

  /** A size of at most 2^30 is not changed by the cut; a larger power of two is not positive after it. */
  lemma CutSize(k: nat)
    ensures k <= 30 ==> ToInt(Pow2(k)) == Pow2(k)
    ensures k > 30 ==> ToInt(Pow2(k)) <= 0
  {
    Powers();
    if k <= 30 {
      Pow2Monotone(k, 30);
    } else if k > 31 {
      PowAdds(32, k - 32);
      Multiple(Pow2(k - 32));
    }
  }

  lemma Multiple(n: nat)
    ensures ToInt(0x1_0000_0000 * n) == 0
  {
  }

  /** Whatever the sizes, the iterator is left at a bucket that exists or past the end. */
  lemma {:induction false} SeekIsValid(hash: Hash, d: DictState, t: nat, i: nat)
    requires Valid(hash, d) && t <= 1 && (t == 1 ==> Rehashing(d))
    ensures IterValid(d, Seek(d, t, i).0) && Seek(d, t, i).0.index >= 0
    decreases 1 - t, Size(TableAt(d, t)) - i, 1
  {
    if i >= ToInt(Size(TableAt(d, t))) {
      if Rehashing(d) && t == 0 { VisitIsValid(hash, d, 1, 0); }
    } else {
      VisitIsValid(hash, d, t, i);
    }
  }

  lemma {:induction false} VisitIsValid(hash: Hash, d: DictState, t: nat, i: nat)
    requires Valid(hash, d) && t <= 1 && (t == 1 ==> Rehashing(d))
    ensures IterValid(d, Visit(d, t, i).0) && Visit(d, t, i).0.index >= 0
    decreases 1 - t, Size(TableAt(d, t)) - i, 0
  {
    hide FindIn, Seek;
    var c := Bucket(d, t, i);
    if c != [] {
      assert DistinctKeys(c);
      if |c| > 1 { IndexOfIs(c, c[1].key, 1); }
    } else if i < Size(TableAt(d, t)) {
      SeekIsValid(hash, d, t, i + 1);
    }
  }

  /** Without large tables, `Seek` is the walk over all buckets from `i` on. */
  lemma SeekUncut(hash: Hash, d: DictState, t: nat, i: nat)
    requires Valid(hash, d) && Small(d) && t <= 1 && (t == 1 ==> Rehashing(d))
    ensures Seek(d, t, i)
            == if i >= Size(TableAt(d, t)) then
                 if Rehashing(d) && t == 0 then Seek(d, 1, 0) else (Iter(t, i, None, None), None)
               else
                 var c := Bucket(d, t, i);
                 if c == [] then Seek(d, t, i + 1) else (Iter(t, i, Some(c[0].key), KeyAt(c, 1)), Some(c[0]))
  {
    if d.ht0.Table? { CutSize(d.ht0.k); }
    if d.ht1.Table? { CutSize(d.ht1.k); }
    if Rehashing(d) { Pow2Monotone(0, d.ht1.k); }
  }

  /** `Seek` returns the first entry beyond its starting point, or nothing when there is none. */
  lemma {:induction false} SeekFinds(hash: Hash, d: DictState, t: nat, i: nat, key: Key)
    requires Valid(hash, d) && Small(d) && t <= 1 && (t == 1 ==> Rehashing(d))
    ensures var (it, e) := Seek(d, t, i);
            && IterValid(d, it) && it.index >= 0
            && (e.None? ==> !Beyond(hash, d, t, i, key))
            && (e.Some? ==> (Beyond(hash, d, t, i, key) <==> Ahead(hash, d, it, key) || key == e.value.key)
                            && !Ahead(hash, d, it, e.value.key))
    decreases 1 - t, Size(TableAt(d, t)) - i
  {
    hide FindIn, ValidTable, Seek;
    InOneTable(hash, d, key);
    SeekUncut(hash, d, t, i);
    if i >= Size(TableAt(d, t)) {
      if Rehashing(d) && t == 0 { SeekFinds(hash, d, 1, 0, key); }
    } else {
      BucketHolds(hash, d, t, i, key);
      if Bucket(d, t, i) == [] {
        SeekFinds(hash, d, t, i + 1, key);
      } else {
        SeekStops(hash, d, t, i, key);
      }
    }
  }

  lemma SeekStops(hash: Hash, d: DictState, t: nat, i: nat, key: Key)
    requires Valid(hash, d) && Small(d) && t <= 1 && (t == 1 ==> Rehashing(d))
    requires TableAt(d, t).Table? && i < |TableAt(d, t).buckets| && Bucket(d, t, i) != []
    ensures var (it, e) := Seek(d, t, i);
            && IterValid(d, it) && e.Some?
            && (Beyond(hash, d, t, i, key) <==> Ahead(hash, d, it, key) || key == e.value.key)
            && !Ahead(hash, d, it, e.value.key) && it.index >= 0
  {
    hide FindIn, Seek;
    var c := Bucket(d, t, i);
    SeekUncut(hash, d, t, i);
    assert DistinctKeys(c);
    BucketHolds(hash, d, t, i, key);
    BucketHolds(hash, d, t, i, c[0].key);
    InOneTable(hash, d, key);
    InOneTable(hash, d, c[0].key);
    IndexOfIs(c, c[0].key, 0);
    if |c| > 1 { IndexOfIs(c, c[1].key, 1); }
  }

  /** Without large tables, `dictNext` returns one key that was ahead and takes exactly that key off what is
      ahead; it returns NULL only when nothing is. */
  lemma NextReturnsOne(hash: Hash, d: DictState, it: Iter, key: Key)
    requires Valid(hash, d) && Small(d) && IterValid(d, it)
    ensures var (d', it', e) := NextEntry(d, it);
            && Valid(hash, d') && IterValid(d', it') && it'.index >= 0
            && (e.None? ==> !Ahead(hash, d, it, key))
            && (e.Some? ==> (Ahead(hash, d, it, key) <==> Ahead(hash, d', it', key) || key == e.value.key)
                            && !Ahead(hash, d', it', e.value.key))
  {
    hide Seek, FindIn, Valid, Beyond;
    ValidImpliesSized(hash, d);
    if it.next.Some? {
      StepInChain(hash, d, it, key);
    } else {
      SeekFinds(hash, d, it.table, it.index + 1, key);
      var (d', it', e) := NextEntry(d, it);
      SameButIterators(hash, d, d', it', key);
      ValidImpliesSized(hash, d');
      if e.Some? { SameButIterators(hash, d, d', it', e.value.key); }
    }
  }

  /** Whatever the sizes, `dictNext` changes only the iterator and the iterator count. */
  lemma NextIsValid(hash: Hash, d: DictState, it: Iter)
    requires Valid(hash, d) && IterValid(d, it)
    ensures var (d', it', e) := NextEntry(d, it);
            && Valid(hash, d') && IterValid(d', it') && d' == d.(iterators := d'.iterators)
            && (d.iterators > 0 || it == FRESH ==> d'.iterators > 0)
  {
    hide Seek, Valid, FindIn, Beyond;
    if it.next.Some? {
      StepInChain(hash, d, it, 0);
    } else {
      SeekIsValid(hash, d, it.table, it.index + 1);
      var (d', it', e) := NextEntry(d, it);
      SameButIterators(hash, d, d', it', 0);
    }
  }

  lemma SameButIterators(hash: Hash, d: DictState, d': DictState, it: Iter, key: Key)
    requires Valid(hash, d) && d' == d.(iterators := d'.iterators)
    ensures Valid(hash, d') && Ahead(hash, d', it, key) == Ahead(hash, d, it, key)
    ensures IterValid(d', it) == IterValid(d, it)
  {}

  lemma StepInChain(hash: Hash, d: DictState, it: Iter, key: Key)
    requires Valid(hash, d) && IterValid(d, it) && it.next.Some?
    ensures var (d', it', e) := NextEntry(d, it);
            && d' == d && IterValid(d, it') && e.Some?
            && (Ahead(hash, d, it, key) <==> Ahead(hash, d, it', key) || key == e.value.key)
            && !Ahead(hash, d, it', e.value.key)
  {
    hide FindIn;
    var c := Bucket(d, it.table, it.index);
    var j := IndexOf(c, it.next.value);
    assert DistinctKeys(c);
    BucketHolds(hash, d, it.table, it.index, key);
    BucketHolds(hash, d, it.table, it.index, c[j].key);
    InOneTable(hash, d, key);
    InOneTable(hash, d, c[j].key);
    if j + 1 < |c| { IndexOfIs(c, c[j + 1].key, j + 1); }
    if HasKey(c, key) { IndexOfIs(c, key, IndexOf(c, key)); }
  }

  // ---- What other commands may do meanwhile ----

  /** Anything but moving buckets by hand, closing an iterator, or deleting the entry that is next in the
      chain. In particular the entry just returned may be deleted. */
  predicate Allowed(it: Iter, c: Command) {
    && !c.CmdRehash? && !c.CmdCloseIterator?
    && (c.CmdDelete? ==> it.next != Some(c.key))
  }

  /** Keys that are in both chains are in the same order. */
  ghost predicate OrderKept(c: Chain, c': Chain) {
    forall a, b :: HasKey(c, a) && HasKey(c', a) && HasKey(c, b) && HasKey(c', b)
                   ==> (IndexOf(c, a) <= IndexOf(c, b) <==> IndexOf(c', a) <= IndexOf(c', b))
  }

  /** A table whose size and order of entries did not change. */
  ghost predicate TableKept(t: Table, t': Table) {
    t.Table? ==> t'.Table? && t'.k == t.k && |t'.buckets| == |t.buckets|
                 && forall i :: 0 <= i < |t.buckets| ==> OrderKept(t.buckets[i], t'.buckets[i])
  }

  /** Nothing moved: sizes and orders are kept, and a key that stays stays in its table. */
  ghost predicate Frozen(hash: Hash, d: DictState, d': DictState) {
    && Sized(d) && Sized(d')
    && TableKept(d.ht0, d'.ht0) && TableKept(d.ht1, d'.ht1) && (Rehashing(d) ==> Rehashing(d'))
    && (forall key :: FindIn(hash, d.ht0, key).Some? ==> FindIn(hash, d'.ht1, key).None?)
    && (forall key :: FindIn(hash, d.ht1, key).Some? ==> FindIn(hash, d'.ht0, key).None?)
  }

  lemma OrderSame(c: Chain)
    ensures OrderKept(c, c)
  {}

  lemma OrderInsert(c: Chain, e: Entry)
    requires DistinctKeys(c) && FindChain(c, e.key).None?
    ensures OrderKept(c, [e] + c)
  {
    forall a | HasKey(c, a) ensures IndexOf([e] + c, a) == IndexOf(c, a) + 1 {
      assert ([e] + c)[1..] == c;
    }
  }

  lemma OrderRemove(c: Chain, j: nat)
    requires j < |c| && DistinctKeys(c)
    ensures OrderKept(c, c[..j] + c[j + 1..])
  {
    var r := c[..j] + c[j + 1..];
    assert forall x :: 0 <= x < |r| ==> r[x] == if x < j then c[x] else c[x + 1];
    ChainRemove(c, j, c[j].key);
    forall a | HasKey(c, a) && HasKey(r, a)
      ensures IndexOf(r, a) == if IndexOf(c, a) < j then IndexOf(c, a) else IndexOf(c, a) - 1
    {
      ChainRemove(c, j, a);
      var i := IndexOf(c, a);
      assert i != j;
      IndexOfIs(r, a, if i < j then i else i - 1);
    }
  }

  lemma OrderSet(c: Chain, j: nat, val: int)
    requires j < |c| && DistinctKeys(c)
    ensures OrderKept(c, c[j := c[j].(val := val)])
  {
    var r := c[j := c[j].(val := val)];
    assert forall x :: 0 <= x < |c| ==> r[x].key == c[x].key;
    forall a | HasKey(c, a) ensures IndexOf(r, a) == IndexOf(c, a) {
      IndexOfIs(r, a, IndexOf(c, a));
    }
  }

  /** Replacing one chain by an equally ordered one keeps the table. */
  lemma BucketKept(t: Table, t': Table, i: nat, r: Chain)
    requires t.Table? && i < |t.buckets| && OrderKept(t.buckets[i], r)
    requires t'.Table? && t'.k == t.k && t'.buckets == t.buckets[i := r]
    ensures TableKept(t, t')
  {
    hide OrderKept;
    forall j | 0 <= j < |t.buckets| ensures OrderKept(t.buckets[j], t'.buckets[j]) { OrderSame(t.buckets[j]); }
  }

  lemma TableSame(t: Table)
    ensures TableKept(t, t)
  {}

  lemma UnlinkFrozen(hash: Hash, d: DictState, key: Key)
    requires Valid(hash, d)
    ensures Frozen(hash, d, Unlink(hash, d, key))
  {
    FoundIsCounted(hash, d.ht0, key);
    FoundIsCounted(hash, d.ht1, key);
    TableSame(d.ht0);
    TableSame(d.ht1);
    forall x ensures FindIn(hash, d.ht0, x).None? || FindIn(hash, d.ht1, x).None? { InOneTable(hash, d, x); }
    if FindIn(hash, d.ht0, key).Some? {
      RemoveFrozen(hash, d.ht0, key);
    } else if FindIn(hash, d.ht1, key).Some? {
      RemoveFrozen(hash, d.ht1, key);
    }
  }

  lemma RemoveFrozen(hash: Hash, t: Table, key: Key)
    requires ValidTable(hash, t) && FindIn(hash, t, key).Some? && t.used > 0
    ensures TableKept(t, RemoveFrom(hash, t, key))
    ensures Differs(hash, t, RemoveFrom(hash, t, key), key, None)
  {
    var i := BucketOf(hash(key), t.k);
    var c := t.buckets[i];
    var j := IndexOf(c, key);
    OrderRemove(c, j);
    BucketKept(t, RemoveFrom(hash, t, key), i, c[..j] + c[j + 1..]);
    RemoveKeeps(hash, t, i, j);
  }

  lemma OverwriteFrozen(hash: Hash, d: DictState, key: Key, val: int)
    requires Valid(hash, d) && Lookup(hash, d, key).Some?
    ensures Frozen(hash, d, Overwrite(hash, d, key, val))
  {
    hide TableKept, FindIn, ValidTable, FindChain;
    FoundIsCounted(hash, d.ht0, key);
    FoundIsCounted(hash, d.ht1, key);
    TableSame(d.ht0);
    TableSame(d.ht1);
    forall x ensures FindIn(hash, d.ht0, x).None? || FindIn(hash, d.ht1, x).None? { InOneTable(hash, d, x); }
    if FindIn(hash, d.ht0, key).Some? {
      SetFrozen(hash, d.ht0, key, val);
    } else {
      SetFrozen(hash, d.ht1, key, val);
    }
  }

  lemma SetFrozen(hash: Hash, t: Table, key: Key, val: int)
    requires ValidTable(hash, t) && FindIn(hash, t, key).Some?
    ensures TableKept(t, SetIn(hash, t, key, val))
    ensures Differs(hash, t, SetIn(hash, t, key, val), key, Some(Entry(key, val)))
  {
    var i := BucketOf(hash(key), t.k);
    var c := t.buckets[i];
    var j := IndexOf(c, key);
    OrderSet(c, j, val);
    BucketKept(t, SetIn(hash, t, key, val), i, c[j := c[j].(val := val)]);
    SetKeeps(hash, t, key, val);
  }

  lemma InsertFrozen(hash: Hash, t: Table, e: Entry)
    requires ValidTable(hash, t) && FindIn(hash, t, e.key).None?
    ensures TableKept(t, Insert(hash, t, e))
    ensures Differs(hash, t, Insert(hash, t, e), e.key, Some(e))
  {
    var i := BucketOf(hash(e.key), t.k);
    OrderInsert(t.buckets[i], e);
    BucketKept(t, Insert(hash, t, e), i, [e] + t.buckets[i]);
    InsertKeeps(hash, t, e);
  }

  /** A resize that starts meanwhile leaves the first table alone. */
  lemma ExpandFrozen(hash: Hash, d: DictState, size: nat)
    requires Valid(hash, d) && size < LONG_MAX
    ensures Frozen(hash, d, Expand(d, size))
  {
    TableSame(d.ht0);
    TableSame(d.ht1);
    ExpandKeeps(hash, d, size);
    forall x
      ensures FindIn(hash, d.ht0, x).Some? ==> FindIn(hash, Expand(d, size).ht1, x).None?
      ensures FindIn(hash, d.ht1, x).Some? ==> FindIn(hash, Expand(d, size).ht0, x).None?
    {
      InOneTable(hash, d, x);
      InOneTable(hash, Expand(d, size), x);
    }
  }

  lemma ExpandIfNeededFrozen(hash: Hash, d: DictState, canResize: bool)
    requires Valid(hash, d) && Used(d.ht0) * 2 < LONG_MAX
    ensures Frozen(hash, d, ExpandIfNeeded(d, canResize))
  {
    ExpandFrozen(hash, d, if d.ht0.NoTable? then 4 else Used(d.ht0) * 2);
    SameFrozen(hash, d);
  }

  lemma SameFrozen(hash: Hash, d: DictState)
    requires Valid(hash, d)
    ensures Frozen(hash, d, d)
  {
    TableSame(d.ht0);
    TableSame(d.ht1);
    forall x ensures FindIn(hash, d.ht0, x).None? || FindIn(hash, d.ht1, x).None? { InOneTable(hash, d, x); }
  }

  lemma InsertedFrozen(hash: Hash, d: DictState, e: Entry)
    requires Valid(hash, d) && d.ht0.Table? && Lookup(hash, d, e.key).None?
    ensures Frozen(hash, d, if Rehashing(d) then d.(ht1 := Insert(hash, d.ht1, e))
        else d.(ht0 := Insert(hash, d.ht0, e)))
  {
    hide TableKept, FindIn, ValidTable, FindChain, Insert;
    TableSame(d.ht0);
    TableSame(d.ht1);
    InsertFrozen(hash, if Rehashing(d) then d.ht1 else d.ht0, e);
    forall x ensures FindIn(hash, d.ht0, x).None? || FindIn(hash, d.ht1, x).None? { InOneTable(hash, d, x); }
  }

  // ---- Keys keep their place with respect to the iterator ----

  /** A key that survives a command that moves nothing is ahead after it exactly if it was ahead before. */
  lemma FrozenKeepsAhead(hash: Hash, d: DictState, d': DictState, it: Iter, key: Key)
    requires Valid(hash, d) && Valid(hash, d') && Frozen(hash, d, d') && IterValid(d, it)
    requires Lookup(hash, d, key).Some? && Lookup(hash, d', key).Some?
    requires it.next.Some? ==> Lookup(hash, d', it.next.value).Some?
    ensures IterValid(d', it)
    ensures Ahead(hash, d', it, key) <==> Ahead(hash, d, it, key)
  {
    hide FindIn, OrderKept;
    InOneTable(hash, d, key);
    InOneTable(hash, d', key);
    if it.next.Some? {
      var n := it.next.value;
      InOneTable(hash, d, n);
      InOneTable(hash, d', n);
      BucketHolds(hash, d, it.table, it.index, n);
      BucketHolds(hash, d', it.table, it.index, n);
      BucketHolds(hash, d, it.table, it.index, key);
      BucketHolds(hash, d', it.table, it.index, key);
      OrderKeptAt(Bucket(d, it.table, it.index), Bucket(d', it.table, it.index), n, key);
    }
  }

  lemma OrderKeptAt(c: Chain, c': Chain, a: Key, b: Key)
    requires OrderKept(c, c') && HasKey(c, a) && HasKey(c', a)
    ensures HasKey(c, b) && HasKey(c', b) ==> (IndexOf(c, a) <= IndexOf(c, b) <==> IndexOf(c', a) <= IndexOf(c', b))
  {}

  /** The place of a key with respect to the iterator did not change, nor did that of the next entry. */
  ghost predicate PlaceKept(hash: Hash, d: DictState, d': DictState, it: Iter, key: Key)
    requires Sized(d)
  {
    && Valid(hash, d') && IterValid(d', it) && d'.iterators > 0
    && Ahead(hash, d', it, key) == Ahead(hash, d, it, key)
  }

  lemma NextIsPresent(hash: Hash, d: DictState, it: Iter)
    requires Valid(hash, d) && IterValid(d, it) && it.next.Some?
    ensures Lookup(hash, d, it.next.value).Some?
  {
    BucketHolds(hash, d, it.table, it.index, it.next.value);
  }

  lemma AddKeepsPlace(hash: Hash, d: DictState, it: Iter, e: Entry, canResize: bool, key: Key)
    requires Valid(hash, d) && d.iterators > 0 && Fits(d) && IterValid(d, it) && Lookup(hash, d, key).Some?
    ensures PlaceKept(hash, d, Add(hash, d, e, canResize).0, it, key)
    ensures it.next.Some? ==> Lookup(hash, Add(hash, d, e, canResize).0, it.next.value).Some?
  {
    hide FindIn, ValidTable, Frozen, Lookup, ExpandIfNeeded, Ahead, IterValid;
    AddEffect(hash, d, e, canResize);
    var d1 := ExpandIfNeeded(d, canResize);
    if it.next.Some? { NextIsPresent(hash, d, it); }
    ExpandIfNeededKeeps(hash, d, canResize);
    ExpandIfNeededFrozen(hash, d, canResize);
    FrozenKeepsAhead(hash, d, d1, it, key);
    if Add(hash, d, e, canResize).1 {
      InsertedFrozen(hash, d1, e);
      FrozenKeepsAhead(hash, d1, Add(hash, d, e, canResize).0, it, key);
    }
  }

  lemma ReplaceKeepsPlace(hash: Hash, d: DictState, it: Iter, e: Entry, canResize: bool, key: Key)
    requires Valid(hash, d) && d.iterators > 0 && Fits(d) && IterValid(d, it) && Lookup(hash, d, key).Some?
    requires !Misread(hash, d, e.key, canResize)
    ensures PlaceKept(hash, d, Replace(hash, d, e, canResize).0, it, key)
  {
    hide FindIn, ValidTable, Frozen, Lookup, Add, Overwrite, Ahead, IterValid;
    AddKeepsPlace(hash, d, it, e, canResize, key);
    AddEffect(hash, d, e, canResize);
    ReplaceEffect(hash, d, e, canResize);
    var (d1, added) := Add(hash, d, e, canResize);
    if !added {
      OverwriteFrozen(hash, d1, e.key, e.val);
      if it.next.Some? { NextIsPresent(hash, d, it); }
      FrozenKeepsAhead(hash, d1, Overwrite(hash, d1, e.key, e.val), it, key);
      OverwriteIterators(hash, d1, e.key, e.val);
    }
  }

  lemma OverwriteIterators(hash: Hash, d: DictState, key: Key, val: int)
    requires Sized(d) && Lookup(hash, d, key).Some?
    ensures Overwrite(hash, d, key, val).iterators == d.iterators
  {}

  /** Any allowed command keeps the place of a key that is present before and after it. */
  lemma CommandKeepsPlace(hash: Hash, d: DictState, it: Iter, c: Command, key: Key)
    requires Valid(hash, d) && d.iterators > 0 && IterValid(d, it) && Allowed(it, c)
    requires Lookup(hash, d, key).Some?
    requires Valid(hash, Apply(hash, d, c).0) && Lookup(hash, Apply(hash, d, c).0, key).Some?
    ensures PlaceKept(hash, d, Apply(hash, d, c).0, it, key)
  {
    hide FindIn, ValidTable, Frozen, Unlink, Lookup, Expand, Add, Replace, Ahead, IterValid, Wild, Misread, ReplaceWild;
    CommandEffect(hash, d, c);
    if it.next.Some? { NextIsPresent(hash, d, it); }
    if Wild(hash, d, c) { return; }
    match c
    case CmdAdd(e, canResize) => if Fits(d) { AddKeepsPlace(hash, d, it, e, canResize, key); }
    case CmdReplace(e, canResize) =>
      if Fits(d) {
        NotMisread(hash, d, e, canResize);
        ReplaceKeepsPlace(hash, d, it, e, canResize, key);
      }
    case CmdDelete(k) => DeleteKeepsPlace(hash, d, it, k, key);
    case CmdExpand(size) => if size < LONG_MAX { ExpandKeepsPlace(hash, d, it, size, key); }
    case CmdResize(_) => ExpandKeepsPlace(hash, d, it, Minimal(Used(d.ht0)), key);
    case CmdFind(_) =>
    case CmdOpenIterator => SameButIterators(hash, d, Apply(hash, d, c).0, it, key);
  }

  lemma NotMisread(hash: Hash, d: DictState, e: Entry, canResize: bool)
    requires Valid(hash, d) && Fits(d) && !Wild(hash, d, CmdReplace(e, canResize))
    ensures !Misread(hash, d, e.key, canResize)
  {
    hide Misread;
    WildIfMisread(hash, d, e, canResize);
  }

  lemma ExpandKeepsPlace(hash: Hash, d: DictState, it: Iter, size: nat, key: Key)
    requires Valid(hash, d) && d.iterators > 0 && IterValid(d, it) && size < LONG_MAX && Lookup(hash, d, key).Some?
    ensures PlaceKept(hash, d, Expand(d, size), it, key)
  {
    hide FindIn, ValidTable, Frozen, Lookup, Ahead, IterValid;
    if it.next.Some? { NextIsPresent(hash, d, it); }
    ExpandKeeps(hash, d, size);
    ExpandFrozen(hash, d, size);
    FrozenKeepsAhead(hash, d, Expand(d, size), it, key);
  }

  lemma DeleteKeepsPlace(hash: Hash, d: DictState, it: Iter, k: Key, key: Key)
    requires Valid(hash, d) && d.iterators > 0 && IterValid(d, it) && it.next != Some(k)
    requires Lookup(hash, d, key).Some? && k != key
    ensures PlaceKept(hash, d, Delete(hash, d, k).0, it, key)
  {
    hide FindIn, ValidTable, Frozen, Lookup, Ahead, IterValid;
    if it.next.Some? { NextIsPresent(hash, d, it); }
    DeleteEffect(hash, d, k);
    if d.ht0.Table? {
      UnlinkFrozen(hash, d, k);
      FrozenKeepsAhead(hash, d, Delete(hash, d, k).0, it, key);
      UnlinkIterators(hash, d, k);
    }
  }

  lemma UnlinkIterators(hash: Hash, d: DictState, key: Key)
    requires Valid(hash, d)
    ensures Unlink(hash, d, key).iterators == d.iterators
  {}

  // ---- Whole iterations ----

  datatype Event = Change(command: Command) | Next

  /** The keys returned so far, and whether `dictNext` has returned NULL. */
  datatype IterState = IterState(d: DictState, it: Iter, out: seq<Key>, done: bool)

  /** The state right after the first `dictNext` and from then on. */
  ghost predicate Started(hash: Hash, s: IterState) {
    Valid(hash, s.d) && IterValid(s.d, s.it) && s.d.iterators > 0
  }

  function Step(hash: Hash, s: IterState, e: Event): IterState
    requires Valid(hash, s.d) && IterValid(s.d, s.it)
  {
    match e
    case Change(c) => s.(d := Apply(hash, s.d, c).0)
    case Next =>
      var (d, it, r) := NextEntry(s.d, s.it);
      IterState(d, it, if r.Some? then s.out + [r.value.key] else s.out, r.None?)
  }

  predicate MayHappen(s: IterState, e: Event) {
    e.Change? ==> Allowed(s.it, e.command)
  }

  lemma StepKeepsValid(hash: Hash, s: IterState, e: Event)
    requires Started(hash, s) && MayHappen(s, e)
    ensures Valid(hash, Step(hash, s, e).d)
  {
    hide Valid, IterValid, Apply, NextEntry, Ahead;
    match e
    case Change(c) => CommandEffect(hash, s.d, c);
    case Next => NextIsValid(hash, s.d, s.it);
  }

  /** The iterator stays in place over any step after which some key is still there. */
  lemma StepKeepsStarted(hash: Hash, s: IterState, e: Event, key: Key)
    requires Started(hash, s) && MayHappen(s, e) && Lookup(hash, s.d, key).Some?
    requires Valid(hash, Step(hash, s, e).d) && Lookup(hash, Step(hash, s, e).d, key).Some?
    ensures Started(hash, Step(hash, s, e))
  {
    hide Valid, IterValid, Apply, NextEntry, Ahead, Lookup;
    match e
    case Change(c) => CommandKeepsPlace(hash, s.d, s.it, c, key);
    case Next => NextIsValid(hash, s.d, s.it);
  }

  /** A run: allowed commands and calls of `dictNext` in any order, the key being present throughout. */
  ghost predicate Runs(hash: Hash, s: IterState, es: seq<Event>, key: Key)
    requires Started(hash, s) && Lookup(hash, s.d, key).Some?
    decreases |es|
  {
    es == [] || (&& MayHappen(s, es[0])
                 && (StepKeepsValid(hash, s, es[0]); Lookup(hash, Step(hash, s, es[0]).d, key).Some?)
                 && (StepKeepsStarted(hash, s, es[0], key); Runs(hash, Step(hash, s, es[0]), es[1..], key)))
  }

  ghost function Final(hash: Hash, s: IterState, es: seq<Event>, key: Key): IterState
    requires Started(hash, s) && Lookup(hash, s.d, key).Some? && Runs(hash, s, es, key)
    decreases |es|
  {
    if es == [] then s
    else
      StepKeepsValid(hash, s, es[0]);
      StepKeepsStarted(hash, s, es[0], key);
      Final(hash, Step(hash, s, es[0]), es[1..], key)
  }

  /** No table is large when `dictNext` is called. */
  ghost predicate SmallAll(hash: Hash, s: IterState, es: seq<Event>, key: Key)
    requires Started(hash, s) && Lookup(hash, s.d, key).Some? && Runs(hash, s, es, key)
    decreases |es|
  {
    es == [] || (&& (es[0].Next? ==> Small(s.d))
                 && (StepKeepsValid(hash, s, es[0]);
                     StepKeepsStarted(hash, s, es[0], key);
                     SmallAll(hash, Step(hash, s, es[0]), es[1..], key)))
  }

  function Times(out: seq<Key>, key: Key): nat { multiset(out)[key] }

  lemma NextStep(hash: Hash, s: IterState, key: Key)
    requires Valid(hash, s.d) && Small(s.d) && IterValid(s.d, s.it) && Lookup(hash, s.d, key).Some?
    requires Times(s.out, key) == if Ahead(hash, s.d, s.it, key) then 0 else 1
    requires s.d.iterators > 0 || s.it == FRESH
    ensures var s' := Step(hash, s, Next);
            && Started(hash, s') && Lookup(hash, s'.d, key).Some?
            && Times(s'.out, key) == (if Ahead(hash, s'.d, s'.it, key) then 0 else 1)
            && (s'.done ==> Times(s'.out, key) == 1)
  {
    hide Ahead, Valid, Lookup, IterValid;
    NextReturnsOne(hash, s.d, s.it, key);
    ValidImpliesSized(hash, s.d);
    var (d', it', e) := NextEntry(s.d, s.it);
    ValidImpliesSized(hash, d');
    IteratorsOnly(hash, s.d, s.it, key);
  }

  lemma IteratorsOnly(hash: Hash, d: DictState, it: Iter, key: Key)
    requires Valid(hash, d) && Small(d) && IterValid(d, it) && (d.iterators > 0 || it == FRESH)
    ensures var (d', it', e) := NextEntry(d, it);
            && d'.iterators > 0 && Sized(d') && Lookup(hash, d', key) == Lookup(hash, d, key)
            && (e.None? ==> Ahead(hash, d', it', key) ==> Ahead(hash, d, it, key))
  {
    var (d', it', e) := NextEntry(d, it);
    if e.None? { SeekEnds(hash, d, it.table, it.index + 1, key); SameButIterators(hash, d, d', it', key); }
  }

  lemma {:induction false} SeekEnds(hash: Hash, d: DictState, t: nat, i: nat, key: Key)
    requires Valid(hash, d) && Small(d) && t <= 1 && (t == 1 ==> Rehashing(d)) && Seek(d, t, i).1.None?
    ensures Ahead(hash, d, Seek(d, t, i).0, key) ==> Beyond(hash, d, t, i, key)
    decreases 1 - t, Size(TableAt(d, t)) - i
  {
    hide FindIn, ValidTable, Seek;
    SeekUncut(hash, d, t, i);
    if i >= Size(TableAt(d, t)) {
      if Rehashing(d) && t == 0 { SeekEnds(hash, d, 1, 0, key); }
    } else {
      SeekEnds(hash, d, t, i + 1, key);
    }
  }

  lemma {:induction false} RunKeepsTimes(hash: Hash, s: IterState, es: seq<Event>, key: Key)
    requires Started(hash, s) && Lookup(hash, s.d, key).Some? && Runs(hash, s, es, key) && SmallAll(hash, s, es, key)
    requires Times(s.out, key) == if Ahead(hash, s.d, s.it, key) then 0 else 1
    requires s.done ==> Times(s.out, key) == 1
    ensures var s' := Final(hash, s, es, key);
            Times(s'.out, key) <= 1 && (s'.done ==> Times(s'.out, key) == 1)
    decreases |es|
  {
    hide Ahead, Valid, Lookup, IterValid, Apply, NextEntry, Times, Small;
    if es != [] {
      StepKeepsValid(hash, s, es[0]);
      StepKeepsStarted(hash, s, es[0], key);
      match es[0] {
        case Change(c) => CommandKeepsPlace(hash, s.d, s.it, c, key);
        case Next => NextStep(hash, s, key);
      }
      RunKeepsTimes(hash, Step(hash, s, es[0]), es[1..], key);
    }
  }

  /** The state after the first `dictNext`. */
  function First(hash: Hash, d: DictState): IterState
    requires Valid(hash, d)
  {
    Step(hash, IterState(d, FRESH, [], false), Next)
  }

  lemma FirstIsStarted(hash: Hash, d: DictState, key: Key)
    requires Valid(hash, d)
    ensures Started(hash, First(hash, d)) && First(hash, d).d == d.(iterators := First(hash, d).d.iterators)
    ensures Sized(d) && Lookup(hash, First(hash, d).d, key) == Lookup(hash, d, key)
  {
    hide Valid, NextEntry, FindIn;
    NextIsValid(hash, d, FRESH);
    ValidImpliesSized(hash, d);
  }

  /** A run from the first `dictNext` on, the key being present throughout. */
  ghost predicate Iterates(hash: Hash, d: DictState, es: seq<Event>, key: Key) {
    && Valid(hash, d) && Lookup(hash, d, key).Some?
    && (FirstIsStarted(hash, d, key); Runs(hash, First(hash, d), es, key))
  }

  /** The key was returned at most once, and exactly once if the last `dictNext` returned NULL. */
  ghost predicate ReturnedOnce(hash: Hash, d: DictState, es: seq<Event>, key: Key)
    requires Iterates(hash, d, es, key)
  {
    FirstIsStarted(hash, d, key);
    var t := Final(hash, First(hash, d), es, key);
    Times(t.out, key) <= 1 && (t.done ==> Times(t.out, key) == 1)
  }

  /** From its first `dictNext` on, a safe iterator returns a key that stays in the dictionary at most once,
      and exactly once by the time it returns NULL, whatever allowed commands are interleaved, as long as
      every `dictNext` finds tables of at most 2^30 buckets. */
  lemma SafeIteration(hash: Hash, d: DictState, es: seq<Event>, key: Key)
    requires Iterates(hash, d, es, key) && Small(d)
    ensures Started(hash, First(hash, d)) && Lookup(hash, First(hash, d).d, key).Some?
    ensures SmallAll(hash, First(hash, d), es, key) ==> ReturnedOnce(hash, d, es, key)
  {
    hide Valid, Runs, Final, SmallAll, Small;
    ValidImpliesSized(hash, d);
    FirstIsStarted(hash, d, key);
    var s0 := IterState(d, FRESH, [], false);
    AllAhead(hash, d, key);
    NextStep(hash, s0, key);
    if SmallAll(hash, First(hash, d), es, key) { RunKeepsTimes(hash, First(hash, d), es, key); }
  }

  lemma AllAhead(hash: Hash, d: DictState, key: Key)
    requires Valid(hash, d) && Lookup(hash, d, key).Some?
    ensures IterValid(d, FRESH) && Ahead(hash, d, FRESH, key)
  {
  }

  // ---- Large tables ----

  /** The walk over the table meets nothing: it is large, or empty. */
  predicate Missed(t: Table) {
    t.Table? && |t.buckets| == Pow2(t.k) && (t.k > 30 || forall i :: 0 <= i < |t.buckets| ==> t.buckets[i] == [])
  }

  lemma {:induction false} SeekMisses(d: DictState, t: nat, i: nat)
    requires t <= 1 && (t == 0 ==> Missed(d.ht0)) && (t == 1 ==> Rehashing(d))
    requires Rehashing(d) ==> Missed(d.ht1) && (d.ht1.buckets != [] ==> d.ht1.buckets[0] == [])
    ensures Seek(d, t, i).1.None?
    decreases 1 - t, Size(TableAt(d, t)) - i
  {
    CutSize(TableAt(d, t).k);
    if i >= ToInt(Size(TableAt(d, t))) {
      if Rehashing(d) && t == 0 && d.ht1.buckets != [] { SeekMisses(d, 1, 1); }
    } else {
      SeekMisses(d, t, i + 1);
    }
  }

  /** With 2^31 buckets or more the first `dictNext` returns NULL, whatever the dictionary holds. */
  lemma LargeTableEndsAtOnce(hash: Hash, d: DictState)
    requires Valid(hash, d) && !Rehashing(d) && d.ht0.Table? && d.ht0.k > 30
    ensures NextEntry(d, FRESH).2.None?
  {
    SeekMisses(d, 0, 0);
  }

  predicate Exponents(d: DictState, k0: nat, k1: Option<nat>) {
    && d.ht0.Table? && d.ht0.k == k0
    && (if k1.Some? then d.ht1.Table? && d.ht1.k == k1.value else d.ht1.NoTable?)
  }

  /** The sizes do not change during the run. */
  ghost predicate SizesKept(hash: Hash, s: IterState, es: seq<Event>, key: Key, k0: nat, k1: Option<nat>)
    requires Started(hash, s) && Lookup(hash, s.d, key).Some? && Runs(hash, s, es, key)
    decreases |es|
  {
    && Exponents(s.d, k0, k1)
    && (es == [] || (StepKeepsValid(hash, s, es[0]);
                     StepKeepsStarted(hash, s, es[0], key);
                     SizesKept(hash, Step(hash, s, es[0]), es[1..], key, k0, k1)))
  }

  lemma {:induction false} SmallThroughout(hash: Hash, s: IterState, es: seq<Event>, key: Key, k0: nat, k1: Option<nat>)
    requires Started(hash, s) && Lookup(hash, s.d, key).Some? && Runs(hash, s, es, key)
    requires SizesKept(hash, s, es, key, k0, k1) && k0 <= 30 && (k1.Some? ==> k1.value <= 30)
    ensures SmallAll(hash, s, es, key)
    decreases |es|
  {
    hide Valid, IterValid, Lookup, Apply, NextEntry;
    if es != [] {
      StepKeepsValid(hash, s, es[0]);
      StepKeepsStarted(hash, s, es[0], key);
      SmallThroughout(hash, Step(hash, s, es[0]), es[1..], key, k0, k1);
    }
  }

  /** A run over tables of two to the `k0` and, while rehashing, two to the `k1` buckets. */
  ghost predicate IteratesOver(hash: Hash, d: DictState, es: seq<Event>, key: Key, k0: nat, k1: Option<nat>) {
    && Iterates(hash, d, es, key)
    && (FirstIsStarted(hash, d, key); SizesKept(hash, First(hash, d), es, key, k0, k1))
  }

  lemma SecondBucket(k: nat)
    requires 1 <= k <= WIDTH
    ensures BucketOf(LowOnes(1), k) == 1
  {
    BucketOfLowOnes(1, k);
    assert Pow2(1) == 2;
  }

  /** A table of two to the `k` buckets that holds only `e`, in bucket 1. */
  lemma OneEntry(hash: Hash, k: nat, e: Entry)
    requires INITIAL_EXPONENT <= k < WIDTH && hash(e.key) == LowOnes(1)
    ensures var t := Insert(hash, FreshTable(k), e);
      && ValidTable(hash, t) && t.k == k && FindIn(hash, t, e.key) == Some(e) && |t.buckets| == Pow2(k)
      && (forall x :: x != e.key ==> FindIn(hash, t, x).None?) && t.buckets != [] && t.buckets[0] == []
  {
    hide Insert, Value, ValidTable;
    EmptyTableIsValid(hash, k);
    FreshFindsNothing(hash, k);
    FreshIsValid(hash, k);
    InsertKeeps(hash, FreshTable(k), e);
    InsertedAt(hash, k, e);
    SecondBucket(k);
    Pow2Monotone(0, k);
  }

  lemma FreshIsValid(hash: Hash, k: nat)
    requires INITIAL_EXPONENT <= k < WIDTH
    ensures ValidTable(hash, FreshTable(k)) && FreshTable(k).k == k && Missed(FreshTable(k))
    ensures FreshTable(k).buckets != [] && FreshTable(k).buckets[0] == []
  {
    TotalFresh(k);
    Pow2Monotone(0, k);
  }

  /** Key 0 alone, in the large first table. */
  lemma LoneInFirst(k0: nat, k1: Option<nat>) returns (hash: Hash, d: DictState)
    requires 31 <= k0 < WIDTH && (k1.Some? ==> INITIAL_EXPONENT <= k1.value < WIDTH)
    ensures Valid(hash, d) && Exponents(d, k0, k1) && Lookup(hash, d, 0) == Some(Entry(0, 0))
    ensures NextEntry(d, FRESH).2.None?
  {
    hide Insert, FreshTable, Seek, FindIn, ValidTable, SizedTable, Pow2;
    hash := x => LowOnes(1);
    FreshIsSized(k0);
    OneEntry(hash, k0, Entry(0, 0));
    var t := Insert(hash, FreshTable(k0), Entry(0, 0));
    ValidIsSized(hash, t);
    if k1.Some? {
      FreshIsValid(hash, k1.value);
      FreshFindsNothing(hash, k1.value);
      d := DictState(t, FreshTable(k1.value), 0, 0);
    } else {
      d := DictState(t, NoTable, -1, 0);
      NothingInNoTable(hash, 0);
    }
    SeekMisses(d, 0, 0);
  }

  lemma NothingInNoTable(hash: Hash, key: Key)
    ensures FindIn(hash, NoTable, key).None?
  {
  }

  /** Key 0 alone, in bucket 1 of the large second table. */
  lemma LoneInSecond(k0: nat, k1: nat) returns (hash: Hash, d: DictState)
    requires INITIAL_EXPONENT <= k0 < WIDTH && 31 <= k1 < WIDTH
    ensures Valid(hash, d) && Exponents(d, k0, Some(k1)) && Lookup(hash, d, 0) == Some(Entry(0, 0))
    ensures NextEntry(d, FRESH).2.None?
  {
    hide Insert, FreshTable, Seek, FindIn, ValidTable, SizedTable, Pow2;
    hash := x => LowOnes(1);
    FreshIsSized(k1);
    OneEntry(hash, k1, Entry(0, 0));
    var t := Insert(hash, FreshTable(k1), Entry(0, 0));
    ValidIsSized(hash, t);
    FreshIsValid(hash, k0);
    FreshFindsNothing(hash, k0);
    d := DictState(FreshTable(k0), t, 0, 0);
    SeekMisses(d, 0, 0);
  }

  /** A dictionary of one key and 2^31 buckets: the first `dictNext` returns NULL. */
  lemma OneKeyIsMissed() returns (hash: Hash, d: DictState)
    ensures Valid(hash, d) && Exponents(d, 31, None) && Lookup(hash, d, 0) == Some(Entry(0, 0))
    ensures NextEntry(d, FRESH).2.None?
  {
    hash, d := LoneInFirst(31, None);
  }

  /** Iteration returns every key that stays exactly once, in every dictionary with these sizes and over every
      run that keeps them, exactly when both tables have at most 2^30 buckets. */
  lemma IterationIsExactIff(k0: nat, k1: Option<nat>)
    requires INITIAL_EXPONENT <= k0 < WIDTH && (k1.Some? ==> INITIAL_EXPONENT <= k1.value < WIDTH)
    ensures (forall hash: Hash, d, es, key :: IteratesOver(hash, d, es, key, k0, k1) ==> ReturnedOnce(hash, d, es, key))
            <==> k0 <= 30 && (k1.Some? ==> k1.value <= 30)
  {
    hide Iterates, ReturnedOnce, SizesKept, SmallAll;
    if k0 <= 30 && (k1.Some? ==> k1.value <= 30) {
      forall hash: Hash, d, es, key | IteratesOver(hash, d, es, key, k0, k1) ensures ReturnedOnce(hash, d, es, key) {
        IteratesOverSmall(hash, d, es, key, k0, k1);
      }
    } else {
      var hash, d;
      if k0 > 30 { hash, d := LoneInFirst(k0, k1); } else { hash, d := LoneInSecond(k0, k1.value); }
      LoneKeyIsMissed(hash, d, k0, k1);
    }
  }

  lemma IteratesOverSmall(hash: Hash, d: DictState, es: seq<Event>, key: Key, k0: nat, k1: Option<nat>)
    requires IteratesOver(hash, d, es, key, k0, k1) && k0 <= 30 && (k1.Some? ==> k1.value <= 30)
    ensures ReturnedOnce(hash, d, es, key)
  {
    hide Valid, First, Runs, SmallAll, Final, Lookup;
    FirstIsStarted(hash, d, key);
    assert Small(d) by { assert Exponents(First(hash, d).d, k0, k1); }
    SmallThroughout(hash, First(hash, d), es, key, k0, k1);
    SafeIteration(hash, d, es, key);
  }

  lemma LoneKeyIsMissed(hash: Hash, d: DictState, k0: nat, k1: Option<nat>)
    requires Valid(hash, d) && Exponents(d, k0, k1) && Lookup(hash, d, 0).Some? && NextEntry(d, FRESH).2.None?
    ensures IteratesOver(hash, d, [], 0, k0, k1) && !ReturnedOnce(hash, d, [], 0)
  {
    hide Valid, Lookup, NextEntry;
    FirstIsStarted(hash, d, 0);
  }

  // ---- What is returned is stored ----

  lemma InBucketIsStored(hash: Hash, d: DictState, t: nat, i: nat, e: Entry)
    requires Valid(hash, d) && e in Bucket(d, t, i) && (t != 0 ==> Rehashing(d))
    ensures Lookup(hash, d, e.key) == Some(e)
  {
    var c := Bucket(d, t, i);
    var j :| 0 <= j < |c| && c[j] == e;
    IndexOfIs(c, e.key, j);
  }

  lemma {:induction false} SeekReturnsStored(hash: Hash, d: DictState, t: nat, i: nat)
    requires Valid(hash, d) && t <= 1 && (t == 1 ==> Rehashing(d))
    ensures var e := Seek(d, t, i).1; e.Some? ==> Lookup(hash, d, e.value.key) == e
    decreases 1 - t, Size(TableAt(d, t)) - i, 1
  {
    hide Valid, Lookup, Bucket;
    if i >= ToInt(Size(TableAt(d, t))) {
      if Rehashing(d) && t == 0 { VisitReturnsStored(hash, d, 1, 0); }
    } else {
      VisitReturnsStored(hash, d, t, i);
    }
  }

  lemma {:induction false} VisitReturnsStored(hash: Hash, d: DictState, t: nat, i: nat)
    requires Valid(hash, d) && t <= 1 && (t == 1 ==> Rehashing(d))
    ensures var e := Visit(d, t, i).1; e.Some? ==> Lookup(hash, d, e.value.key) == e
    decreases 1 - t, Size(TableAt(d, t)) - i, 0
  {
    hide Valid, Lookup, Bucket;
    var c := Bucket(d, t, i);
    if c != [] {
      InBucketIsStored(hash, d, t, i, c[0]);
    } else if i < Size(TableAt(d, t)) {
      SeekReturnsStored(hash, d, t, i + 1);
    }
  }

  /** What `dictNext` returns is an entry of the dictionary, with its value; the dictionary is left as it is, except
      that the first call counts the iterator. */
  lemma NextReturnsStored(hash: Hash, d: DictState, it: Iter)
    requires Valid(hash, d) && IterValid(d, it)
    ensures var (d', it', e) := NextEntry(d, it);
            && (e.Some? ==> Lookup(hash, d, e.value.key) == e)
            && d' == d.(iterators := d.iterators + if it.index == -1 && it.table == 0 then 1 else 0)
  {
    hide Valid, Lookup, Bucket, Seek;
    if it.next.Some? {
      var c := Bucket(d, it.table, it.index);
      InBucketIsStored(hash, d, it.table, it.index, c[IndexOf(c, it.next.value)]);
    } else {
      SeekReturnsStored(hash, d, it.table, it.index + 1);
    }
  }

  /** Every key an iteration returns was in the dictionary at the call that returned it. */
  lemma {:induction false} ReturnedWasThere(hash: Hash, s: IterState, es: seq<Event>, key: Key, x: Key) returns (i: nat)
    requires Started(hash, s) && Lookup(hash, s.d, key).Some? && Runs(hash, s, es, key)
    requires x in Final(hash, s, es, key).out && x !in s.out
    ensures i < |es| && es[i].Next? && Runs(hash, s, es[..i], key)
    ensures var u := Final(hash, s, es[..i], key); Sized(u.d) && Lookup(hash, u.d, x).Some?
    decreases |es|
  {
    hide Valid, Lookup, IterValid, NextEntry, Apply;
    var e := es[0];
    StepKeepsValid(hash, s, e);
    StepKeepsStarted(hash, s, e, key);
    var s1 := Step(hash, s, e);
    if x in s1.out {
      i := 0;
      assert es[..0] == [];
      NextReturnsStored(hash, s.d, s.it);
      ValidImpliesSized(hash, s.d);
    } else {
      var k := ReturnedWasThere(hash, s1, es[1..], key, x);
      i := k + 1;
      assert es[..i][0] == e && es[..i][1..] == es[1..][..k];
    }
  }
}
