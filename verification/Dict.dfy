/** The dictionary of dict.c as a value: two chained hash tables of power-of-two size, of which the second
    is in use only while the first is being rehashed into it, one bucket at a time.

    Keys enter only through equality and their hash, so numbers stand for them; the hash function is a
    parameter (the source's hashes are 32-bit, that is words whose upper half is zero). A chain lists its
    entries in link order.

    The source keeps the bucket of a new key and `rehashidx` in an `int`. What that does to tables with
    more than 2^30 buckets is modelled: a command may misread an index as "the key exists", or leave the
    table, which C does not define (`Wild`). */
module Dict {
  import opened Options
  import opened Words

  type Key = int
  type Hash = Key -> Word
  datatype Entry = Entry(key: Key, val: int)
  type Chain = seq<Entry>

  /** `NoTable` is a `dictht` whose table is NULL; otherwise the size is two to the `k`. */
  datatype Table = NoTable | Table(k: nat, buckets: seq<Chain>, used: nat)

  datatype DictState = DictState(ht0: Table, ht1: Table, rehashidx: int, iterators: nat)

  const INITIAL_EXPONENT: nat := 2 // DICT_HT_INITIAL_SIZE is 4
  const FORCE_RESIZE_RATIO: nat := 5
  const LONG_MAX: nat := 0x7FFF_FFFF_FFFF_FFFF
  const MAX_TABLE: nat := 0x1000_0000_0000_0000 // the bytes of a larger table overflow an `unsigned long`
  const MAX_ENTRIES: nat := 0x0800_0000_0000_0000

  function Empty(): DictState { DictState(NoTable, NoTable, -1, 0) }

  predicate Rehashing(d: DictState) { d.rehashidx != -1 }

  function Used(t: Table): nat { if t.NoTable? then 0 else t.used }

  function Size(t: Table): nat { if t.NoTable? then 0 else |t.buckets| }

  /** `dictSize`. */
  function Count(d: DictState): nat { Used(d.ht0) + Used(d.ht1) }

  // ---- Chains and tables ----

  /** The position of a key in a chain, or the chain's length. */
  function IndexOf(c: Chain, key: Key): (i: nat)
    ensures i <= |c|
    ensures i < |c| ==> c[i].key == key
    ensures forall j :: 0 <= j < i ==> c[j].key != key
  {
    if c == [] then 0 else if c[0].key == key then 0 else 1 + IndexOf(c[1..], key)
  }

  predicate HasKey(c: Chain, key: Key) { IndexOf(c, key) < |c| }

  /** The first entry of a chain with the given key. */
  function FindChain(c: Chain, key: Key): Option<Entry> {
    if HasKey(c, key) then Some(c[IndexOf(c, key)]) else None
  }

  predicate DistinctKeys(c: Chain) { forall i, j :: 0 <= i < j < |c| ==> c[i].key != c[j].key }

  function Total(b: seq<Chain>): nat { if b == [] then 0 else |b[0]| + Total(b[1..]) }

  function BucketOf(h: Word, k: nat): (i: nat)
    requires k <= WIDTH
    ensures i < Pow2(k)
  {
    Value(h[..k])
  }

  predicate SizedTable(t: Table) {
    t.Table? && INITIAL_EXPONENT <= t.k < WIDTH && |t.buckets| == Pow2(t.k)
  }

  ghost predicate ValidTable(hash: Hash, t: Table) {
    && SizedTable(t)
    && t.used == Total(t.buckets)
    && (forall i, e :: 0 <= i < |t.buckets| && e in t.buckets[i] ==> BucketOf(hash(e.key), t.k) == i)
    && (forall i :: 0 <= i < |t.buckets| ==> DistinctKeys(t.buckets[i]))
  }

  /** The chain a key belongs to. */
  function ChainOf(hash: Hash, t: Table, key: Key): Chain
    requires t.Table? ==> SizedTable(t)
  {
    if t.NoTable? then [] else t.buckets[BucketOf(hash(key), t.k)]
  }

  /** The entry a search of one table finds. */
  function FindIn(hash: Hash, t: Table, key: Key): (r: Option<Entry>)
    requires t.Table? ==> SizedTable(t)
  {
    FindChain(ChainOf(hash, t, key), key)
  }

  predicate Sized(d: DictState) {
    && (d.ht0.Table? ==> SizedTable(d.ht0))
    && (d.ht1.Table? ==> SizedTable(d.ht1))
  }

  /** What every reachable dictionary satisfies. */
  ghost predicate Valid(hash: Hash, d: DictState) {
    && Sized(d)
    && (d.ht0.Table? ==> ValidTable(hash, d.ht0))
    && (d.ht1.Table? ==> ValidTable(hash, d.ht1))
    && (if Rehashing(d) then
          && d.ht0.Table? && d.ht1.Table?
          && 0 <= d.rehashidx <= |d.ht0.buckets|
          && (forall i :: 0 <= i < d.rehashidx ==> d.ht0.buckets[i] == [])
          && (forall key :: FindIn(hash, d.ht0, key).None? || FindIn(hash, d.ht1, key).None?)
        else
          d.ht1.NoTable?)
  }

  /** The entry `dictFind` reaches: the first table is searched before the second. */
  function Lookup(hash: Hash, d: DictState, key: Key): Option<Entry>
    requires Sized(d)
  {
    var r := FindIn(hash, d.ht0, key);
    if r.Some? then r else FindIn(hash, d.ht1, key)
  }

  // ---- Resizing ----

  /** The exponent of `_dictNextPower(size)`. */
  function NextPower(size: nat, from: nat): (k: nat)
    requires from <= 63 && size < LONG_MAX
    ensures from <= k <= 63 && size <= Pow2(k)
    ensures k == from || Pow2(k - 1) < size
    decreases 63 - from
  {
    if from == 63 then
      PowerOf63();
      from
    else if size <= Pow2(from) then from else NextPower(size, from + 1)
  }

  lemma PowerOf63()
    ensures Pow2(63) == LONG_MAX + 1
  {
    assert Pow2(3) == 8 && Pow2(6) == 64 && Pow2(7) == 128;
    PowAdds(7, 7);
    PowAdds(14, 7);
    assert Pow2(21) == 0x20_0000;
    PowAdds(21, 21);
    assert Pow2(42) == 0x400_0000_0000;
    PowAdds(42, 21);
  }

  lemma {:induction false} PowAdds(j: nat, k: nat)
    ensures Pow2(j + k) == Pow2(j) * Pow2(k)
  {
    if k > 0 {
      PowAdds(j, k - 1);
      assert Pow2(j) * (2 * Pow2(k - 1)) == 2 * (Pow2(j) * Pow2(k - 1));
    }
  }

  function FreshTable(k: nat): Table { Table(k, seq(Pow2(k), i => []), 0) }

  /** `dictExpand` asks for more buckets than there can be bytes for. */
  predicate TooLarge(d: DictState, size: nat) {
    !Rehashing(d) && Used(d.ht0) <= size && size > MAX_TABLE
  }

  /** `dictExpand`. */
  function Expand(d: DictState, size: nat): DictState
    requires size < LONG_MAX
  {
    if Rehashing(d) || Used(d.ht0) > size then d
    else
      var t := FreshTable(NextPower(size, INITIAL_EXPONENT));
      if d.ht0.NoTable? then d.(ht0 := t) else d.(ht1 := t, rehashidx := 0)
  }

  /** `_dictExpandIfNeeded`. */
  function ExpandIfNeeded(d: DictState, canResize: bool): DictState
    requires Used(d.ht0) * 2 < LONG_MAX
  {
    if Rehashing(d) then d
    else if d.ht0.NoTable? then
      Expand(d, 4)
    else if Used(d.ht0) >= Size(d.ht0) && Size(d.ht0) > 0
            && (canResize || Used(d.ht0) / Size(d.ht0) > FORCE_RESIZE_RATIO) then
      Expand(d, Used(d.ht0) * 2)
    else d
  }

  const INT_MAX: nat := 0x7FFF_FFFF

  /** An `unsigned long` assigned to an `int`. */
  function ToInt(n: nat): (i: int)
    ensures i <= INT_MAX && i <= n
    ensures n <= INT_MAX ==> i == n
  {
    var low := n % 0x1_0000_0000;
    if low <= INT_MAX then low else low - 0x1_0000_0000
  }

  /** The size `dictResize` asks for. */
  function Minimal(used: nat): (size: nat)
    ensures 4 <= size <= INT_MAX
  {
    var minimal := ToInt(used);
    if minimal < 4 then 4 else minimal
  }

  /** `dictResize`. */
  function Resize(d: DictState, canResize: bool): DictState {
    if !canResize || Rehashing(d) then d else Expand(d, Minimal(Used(d.ht0)))
  }

  /** `dictResize` asks for the smallest size that holds all entries exactly when their number fits an `int`;
      a larger dictionary, and one that may not be resized, is left as it is. */
  lemma ResizeIsMinimalIff(d: DictState)
    requires !Rehashing(d) && Used(d.ht0) < LONG_MAX
    ensures Resize(d, true) == Expand(d, if Used(d.ht0) < 4 then 4 else Used(d.ht0)) <==> Used(d.ht0) <= INT_MAX
    ensures Used(d.ht0) > INT_MAX ==> Resize(d, true) == d
    ensures Resize(d, false) == d
  {
  }

  // ---- Rehashing ----

  /** The loop that skips empty buckets. */
  function SkipEmpty(b: seq<Chain>, i: nat): (j: nat)
    requires i <= |b|
    ensures i <= j <= |b|
    ensures forall x :: i <= x < j ==> b[x] == []
    ensures j < |b| ==> b[j] != []
    decreases |b| - i
  {
    if i == |b| || b[i] != [] then i else SkipEmpty(b, i + 1)
  }

  /** Links an entry at the head of its chain. */
  function Insert(hash: Hash, t: Table, e: Entry): Table
    requires SizedTable(t)
  {
    var i := BucketOf(hash(e.key), t.k);
    t.(buckets := t.buckets[i := [e] + t.buckets[i]], used := t.used + 1)
  }

  /** Unlinks the entry at position `j` of bucket `i`. */
  function Remove(t: Table, i: nat, j: nat): Table
    requires t.Table? && i < |t.buckets| && j < |t.buckets[i]| && t.used > 0
  {
    var c := t.buckets[i];
    t.(buckets := t.buckets[i := c[..j] + c[j + 1..]], used := t.used - 1)
  }

  /** Bucket `rehashidx` exists and holds an entry. */
  predicate CanMove(d: DictState) {
    && Sized(d) && d.ht0.Table? && d.ht1.Table? && d.ht0.used > 0
    && 0 <= d.rehashidx < |d.ht0.buckets| && d.ht0.buckets[d.rehashidx] != []
  }

  /** Moves the head entry of bucket `rehashidx` to the second table. */
  function MoveHead(hash: Hash, d: DictState): DictState
    requires CanMove(d)
  {
    var e := d.ht0.buckets[d.rehashidx][0];
    d.(ht0 := Remove(d.ht0, d.rehashidx, 0), ht1 := Insert(hash, d.ht1, e))
  }

  /** Moves a whole bucket. */
  function MoveBucket(hash: Hash, d: DictState): (d': DictState)
    requires Valid(hash, d) && Rehashing(d) && d.rehashidx < |d.ht0.buckets|
    ensures Valid(hash, d') && Same(hash, d, d')
    ensures d'.rehashidx == d.rehashidx + 1 && d'.iterators == d.iterators
    ensures d'.ht0.k == d.ht0.k && d'.ht1.k == d.ht1.k
    decreases |d.ht0.buckets[d.rehashidx]|
  {
    var c := d.ht0.buckets[d.rehashidx];
    if c == [] then d.(rehashidx := d.rehashidx + 1)
    else
      TotalAtLeast(d.ht0.buckets, d.rehashidx);
      MoveHeadKeeps(hash, d);
      MoveBucket(hash, MoveHead(hash, d))
  }

  /** The second table takes the place of the first. */
  function Finish(d: DictState): DictState { d.(ht0 := d.ht1, ht1 := NoTable, rehashidx := -1) }

  /** One round of the loop of `dictRehash`. */
  function RehashStep(hash: Hash, d: DictState): (d': DictState)
    requires Valid(hash, d) && Rehashing(d)
    ensures Valid(hash, d') && Same(hash, d, d') && d'.iterators == d.iterators
    ensures if Rehashing(d') then d'.ht0.k == d.ht0.k && d'.ht1.k == d.ht1.k else d'.ht0.Table? && d'.ht0.k == d.ht1.k
  {
    if d.ht0.used == 0 then
      FinishKeeps(hash, d);
      Finish(d)
    else
      SkipKeeps(hash, d);
      MoveBucket(hash, d.(rehashidx := SkipEmpty(d.ht0.buckets, d.rehashidx)))
  }

  /** The round takes `rehashidx`, an `int`, past INT_MAX. */
  predicate StepWild(d: DictState) {
    && d.ht0.Table? && d.ht0.used > 0 && 0 <= d.rehashidx <= |d.ht0.buckets|
    && SkipEmpty(d.ht0.buckets, d.rehashidx) >= INT_MAX
  }

  predicate RehashWild(hash: Hash, d: DictState, n: nat)
    requires Valid(hash, d)
    decreases n
  {
    n > 0 && Rehashing(d) && (StepWild(d) || RehashWild(hash, RehashStep(hash, d), n - 1))
  }

  /** `dictRehash`: at most `n` rounds, none when not rehashing. */
  function Rehash(hash: Hash, d: DictState, n: nat): (d': DictState)
    requires Valid(hash, d)
    ensures Valid(hash, d') && Same(hash, d, d') && d'.iterators == d.iterators
    ensures SameSizes(d, d') || (Rehashing(d) && !Rehashing(d') && d'.ht0.Table? && d'.ht0.k == d.ht1.k)
    decreases n
  {
    if n == 0 || !Rehashing(d) then d else Rehash(hash, RehashStep(hash, d), n - 1)
  }

  predicate SameSizes(d: DictState, d': DictState) {
    && Rehashing(d') == Rehashing(d)
    && d'.ht0.Table? == d.ht0.Table? && (d.ht0.Table? ==> d'.ht0.k == d.ht0.k)
    && d'.ht1.Table? == d.ht1.Table? && (d.ht1.Table? ==> d'.ht1.k == d.ht1.k)
  }

  /** Two states hold the same entries. */
  ghost predicate Same(hash: Hash, d: DictState, d': DictState) {
    && Sized(d) && Sized(d')
    && (forall key :: Lookup(hash, d', key) == Lookup(hash, d, key))
    && Count(d') == Count(d)
  }

  // ---- Commands ----

  /** `_dictRehashStep`: no step while a safe iterator is open. */
  function MaybeStep(hash: Hash, d: DictState): (d': DictState)
    requires Valid(hash, d)
    ensures Valid(hash, d') && Same(hash, d, d') && d'.iterators == d.iterators
    ensures SameSizes(d, d') || (Rehashing(d) && !Rehashing(d') && d'.ht0.Table? && d'.ht0.k == d.ht1.k)
  {
    if d.iterators == 0 then Rehash(hash, d, 1) else d
  }

  predicate MaybeWild(d: DictState) { d.iterators == 0 && Rehashing(d) && StepWild(d) }

  /** An entry and its key take at least 32 bytes, so fewer than this many fit in the address space. */
  predicate Fits(d: DictState) { Count(d) < MAX_ENTRIES }

  /** The state in which `dictAddRaw` searches for the key. */
  function BeforeAdd(hash: Hash, d: DictState, canResize: bool): (d': DictState)
    requires Valid(hash, d) && Fits(d)
    ensures Valid(hash, d') && Same(hash, d, d') && d'.iterators == d.iterators && d'.ht0.Table?
  {
    var d1 := MaybeStep(hash, d);
    ExpandIfNeededKeeps(hash, d1, canResize);
    ExpandIfNeeded(d1, canResize)
  }

  /** The table new entries go to. */
  function Target(d: DictState): Table { if Rehashing(d) then d.ht1 else d.ht0 }

  /** The bucket of a key as `_dictKeyIndex` returns it. */
  function KeyIndex(hash: Hash, t: Table, key: Key): int
    requires SizedTable(t)
  {
    ToInt(BucketOf(hash(key), t.k))
  }

  /** The key is not there, but its bucket is returned as -1, which means that it is. */
  predicate Misread(hash: Hash, d: DictState, key: Key, canResize: bool)
    requires Valid(hash, d) && Fits(d)
  {
    var d1 := BeforeAdd(hash, d, canResize);
    Lookup(hash, d1, key).None? && KeyIndex(hash, Target(d1), key) == -1
  }

  /** The new entry would be linked outside the table, or the rehash step before it leaves the table. */
  predicate AddWild(hash: Hash, d: DictState, key: Key, canResize: bool)
    requires Valid(hash, d) && Fits(d)
  {
    var d1 := BeforeAdd(hash, d, canResize);
    var t := Target(d1);
    || MaybeWild(d)
    || (Lookup(hash, d1, key).None? && KeyIndex(hash, t, key) != -1
        && KeyIndex(hash, t, key) != BucketOf(hash(key), t.k))
  }

  /** `dictAdd`: new entries go to the second table while rehashing. */
  function Add(hash: Hash, d: DictState, e: Entry, canResize: bool): (r: (DictState, bool))
    requires Valid(hash, d) && Fits(d)
  {
    var d1 := BeforeAdd(hash, d, canResize);
    if Lookup(hash, d1, e.key).Some? || KeyIndex(hash, Target(d1), e.key) == -1 then (d1, false)
    else if Rehashing(d1) then (d1.(ht1 := Insert(hash, d1.ht1, e)), true)
    else (d1.(ht0 := Insert(hash, d1.ht0, e)), true)
  }

  /** Overwrites the value of the entry at position `j` of bucket `i`. */
  function SetAt(t: Table, i: nat, j: nat, val: int): Table
    requires t.Table? && i < |t.buckets| && j < |t.buckets[i]|
  {
    var c := t.buckets[i];
    t.(buckets := t.buckets[i := c[j := c[j].(val := val)]])
  }

  function SetIn(hash: Hash, t: Table, key: Key, val: int): Table
    requires SizedTable(t) && FindIn(hash, t, key).Some?
  {
    SetAt(t, BucketOf(hash(key), t.k), IndexOf(ChainOf(hash, t, key), key), val)
  }

  function RemoveFrom(hash: Hash, t: Table, key: Key): Table
    requires SizedTable(t) && FindIn(hash, t, key).Some? && t.used > 0
  {
    Remove(t, BucketOf(hash(key), t.k), IndexOf(ChainOf(hash, t, key), key))
  }

  /** Overwrites the value of the entry a search finds. */
  function Overwrite(hash: Hash, d: DictState, key: Key, val: int): DictState
    requires Sized(d) && Lookup(hash, d, key).Some?
  {
    if FindIn(hash, d.ht0, key).Some? then d.(ht0 := SetIn(hash, d.ht0, key, val))
    else d.(ht1 := SetIn(hash, d.ht1, key, val))
  }

  /** Unlinks the entry a search finds, if any. */
  function Unlink(hash: Hash, d: DictState, key: Key): DictState
    requires Valid(hash, d)
  {
    FoundIsCounted(hash, d.ht0, key);
    FoundIsCounted(hash, d.ht1, key);
    if FindIn(hash, d.ht0, key).Some? then d.(ht0 := RemoveFrom(hash, d.ht0, key))
    else if FindIn(hash, d.ht1, key).Some? then d.(ht1 := RemoveFrom(hash, d.ht1, key))
    else d
  }

  /** A refused key that is not there makes `dictReplace` follow a null pointer. */
  predicate ReplaceWild(hash: Hash, d: DictState, e: Entry, canResize: bool)
    requires Valid(hash, d) && Fits(d)
  {
    AddEffect(hash, d, e, canResize);
    || AddWild(hash, d, e.key, canResize) || Misread(hash, d, e.key, canResize)
    || (!Add(hash, d, e, canResize).1 && MaybeWild(Add(hash, d, e, canResize).0))
  }

  /** `dictReplace`: try to add; failing that, search again and overwrite. */
  function Replace(hash: Hash, d: DictState, e: Entry, canResize: bool): (r: (DictState, bool))
    requires Valid(hash, d) && Fits(d)
  {
    var (d1, added) := Add(hash, d, e, canResize);
    AddEffect(hash, d, e, canResize);
    if added then (d1, true)
    else
      var d2 := MaybeStep(hash, d1);
      (if Lookup(hash, d2, e.key).Some? then Overwrite(hash, d2, e.key, e.val) else d2, false)
  }

  /** `dictGenericDelete`. */
  function Delete(hash: Hash, d: DictState, key: Key): (r: (DictState, bool))
    requires Valid(hash, d)
  {
    if d.ht0.NoTable? then (d, false)
    else
      var d1 := MaybeStep(hash, d);
      (Unlink(hash, d1, key), Lookup(hash, d1, key).Some?)
  }

  /** `dictFind`, which may also move a bucket. */
  function Find(hash: Hash, d: DictState, key: Key): (r: (DictState, Option<Entry>))
    requires Valid(hash, d)
  {
    if d.ht0.NoTable? then (d, None)
    else
      var d1 := MaybeStep(hash, d);
      (d1, Lookup(hash, d1, key))
  }

  // ---- The dictionary behaves as a finite map ----

  datatype Command =
    | CmdAdd(entry: Entry, canResize: bool)
    | CmdReplace(entry: Entry, canResize: bool)
    | CmdDelete(key: Key)
    | CmdFind(key: Key)
    | CmdExpand(size: nat)
    | CmdResize(canResize: bool)
    | CmdRehash(n: nat)
    | CmdOpenIterator
    | CmdCloseIterator

  /** What the caller learns; `Aborted` is the allocator giving up, `Undefined` an access outside a table. */
  datatype Reply = Done | Answer(ok: bool) | Found(entry: Option<Entry>) | Aborted | Undefined

  /** The command leaves a table, takes `rehashidx` out of its type, or allocates a table that is too short
      because its size in bytes has overflown. */
  predicate Wild(hash: Hash, d: DictState, c: Command)
    requires Valid(hash, d)
  {
    match c
    case CmdAdd(e, canResize) => Fits(d) && AddWild(hash, d, e.key, canResize)
    case CmdReplace(e, canResize) => Fits(d) && ReplaceWild(hash, d, e, canResize)
    case CmdDelete(_) => d.ht0.Table? && MaybeWild(d)
    case CmdFind(_) => d.ht0.Table? && MaybeWild(d)
    case CmdRehash(n) => RehashWild(hash, d, n)
    case CmdExpand(size) => TooLarge(d, size) && size < LONG_MAX
    case _ => false
  }

  /** A table of LONG_MAX buckets cannot be allocated. */
  predicate Aborts(d: DictState, c: Command) {
    c.CmdExpand? && TooLarge(d, c.size) && c.size >= LONG_MAX
  }

  function Apply(hash: Hash, d: DictState, c: Command): (r: (DictState, Reply))
    requires Valid(hash, d)
  {
    if Wild(hash, d, c) then (d, Undefined)
    else match c
    case CmdAdd(e, canResize) =>
      if !Fits(d) then (d, Aborted) else var (d', ok) := Add(hash, d, e, canResize); (d', Answer(ok))
    case CmdReplace(e, canResize) =>
      if !Fits(d) then (d, Aborted) else var (d', ok) := Replace(hash, d, e, canResize); (d', Answer(ok))
    case CmdDelete(key) => var (d', ok) := Delete(hash, d, key); (d', Answer(ok))
    case CmdFind(key) => var (d', e) := Find(hash, d, key); (d', Found(e))
    case CmdExpand(size) =>
      if Aborts(d, c) then (d, Aborted) else if size >= LONG_MAX then (d, Done) else (Expand(d, size), Done)
    case CmdResize(canResize) => (Resize(d, canResize), Done)
    case CmdRehash(n) => (Rehash(hash, d, n), Done)
    case CmdOpenIterator => (d.(iterators := d.iterators + 1), Done)
    case CmdCloseIterator => (if d.iterators == 0 then d else d.(iterators := d.iterators - 1), Done)
  }

  /** The same commands on a finite map. */
  function ApplyMap(m: map<Key, int>, c: Command): (map<Key, int>, Reply) {
    match c
    case CmdAdd(e, _) =>
      if |m| >= MAX_ENTRIES then (m, Aborted)
      else if e.key in m then (m, Answer(false)) else (m[e.key := e.val], Answer(true))
    case CmdReplace(e, _) =>
      if |m| >= MAX_ENTRIES then (m, Aborted) else (m[e.key := e.val], Answer(e.key !in m))
    case CmdDelete(key) => (m - {key}, Answer(key in m))
    case CmdFind(key) => (m, Found(if key in m then Some(Entry(key, m[key])) else None))
    case CmdExpand(_) => (m, Done)
    case CmdResize(_) => (m, Done)
    case CmdRehash(_) => (m, Done)
    case CmdOpenIterator => (m, Done)
    case CmdCloseIterator => (m, Done)
  }

  ghost predicate Represents(hash: Hash, d: DictState, m: map<Key, int>) {
    && Valid(hash, d)
    && Count(d) == |m|
    && (forall key :: Lookup(hash, d, key) == if key in m then Some(Entry(key, m[key])) else None)
  }

  /** The effect of any command on the entries. */
  lemma CommandEffect(hash: Hash, d: DictState, c: Command)
    requires Valid(hash, d)
    ensures var (d', reply) := Apply(hash, d, c);
            if Wild(hash, d, c) then d' == d && reply == Undefined
            else match c
            case CmdAdd(e, canResize) =>
              if !Fits(d) then d' == d && reply == Aborted
              else if Lookup(hash, d, e.key).Some? || Misread(hash, d, e.key, canResize)
              then reply == Answer(false) && Valid(hash, d') && Same(hash, d, d')
              else reply == Answer(true) && Updates(hash, d, d', e.key, Some(e))
            case CmdReplace(e, _) =>
              if !Fits(d) then d' == d && reply == Aborted
              else reply == Answer(Lookup(hash, d, e.key).None?) && Updates(hash, d, d', e.key, Some(e))
            case CmdDelete(key) =>
              reply == Answer(Lookup(hash, d, key).Some?) && Updates(hash, d, d', key, None)
            case CmdFind(key) =>
              reply == Found(Lookup(hash, d, key)) && Valid(hash, d') && Same(hash, d, d')
            case _ => Valid(hash, d') && Same(hash, d, d') && reply == (if Aborts(d, c) then Aborted else Done)
  {
    hide FindIn, ValidTable, SizedTable, Add, Replace, Delete, Rehash, MaybeStep, Pow2, AddWild, ReplaceWild, MaybeWild,
         RehashWild, Misread;
    match c
    case CmdAdd(e, canResize) => if Fits(d) { AddEffect(hash, d, e, canResize); }
    case CmdReplace(e, canResize) =>
      if Fits(d) && !Wild(hash, d, c) {
        WildIfMisread(hash, d, e, canResize);
        ReplaceEffect(hash, d, e, canResize);
      }
    case CmdDelete(key) => DeleteEffect(hash, d, key);
    case CmdFind(key) => FindEffect(hash, d, key);
    case CmdExpand(size) => if size < LONG_MAX { ExpandKeeps(hash, d, size); }
    case CmdResize(canResize) => ResizeKeeps(hash, d, canResize);
    case CmdRehash(n) =>
    case CmdOpenIterator =>
    case CmdCloseIterator =>
  }

  lemma WildIfMisread(hash: Hash, d: DictState, e: Entry, canResize: bool)
    requires Valid(hash, d) && Fits(d)
    ensures Misread(hash, d, e.key, canResize) ==> ReplaceWild(hash, d, e, canResize)
  {}

  lemma ValidImpliesSized(hash: Hash, d: DictState)
    ensures Valid(hash, d) ==> Sized(d)
  {}

  lemma RepresentsSays(hash: Hash, d: DictState, m: map<Key, int>, key: Key)
    requires Represents(hash, d, m)
    ensures Valid(hash, d) && Sized(d) && (Fits(d) <==> |m| < MAX_ENTRIES)
    ensures Lookup(hash, d, key) == if key in m then Some(Entry(key, m[key])) else None
  {
    hide Lookup, Valid, Count;
    ValidImpliesSized(hash, d);
  }

  lemma SameRepresents(hash: Hash, d: DictState, d': DictState, m: map<Key, int>)
    requires Represents(hash, d, m) && Valid(hash, d') && Sized(d) && Sized(d') && Same(hash, d, d')
    ensures Represents(hash, d', m)
  {
    hide Valid, Lookup, Count;
  }

  lemma StoreRepresents(hash: Hash, d: DictState, d': DictState, m: map<Key, int>, e: Entry)
    requires Represents(hash, d, m) && Sized(d) && Updates(hash, d, d', e.key, Some(e))
    ensures Represents(hash, d', m[e.key := e.val])
  {
    hide Valid, Lookup, Count;
  }

  lemma RemoveRepresents(hash: Hash, d: DictState, d': DictState, m: map<Key, int>, key: Key)
    requires Represents(hash, d, m) && Sized(d) && Updates(hash, d, d', key, None)
    ensures Represents(hash, d', m - {key})
  {
    hide Valid, Lookup, Count;
    assert key !in m ==> m - {key} == m;
  }

  /** The command stays inside the tables and reads every index as what it is. */
  ghost predicate Indexable(hash: Hash, d: DictState, c: Command)
    requires Valid(hash, d)
  {
    && !Wild(hash, d, c) && !Aborts(d, c)
    && (c.CmdAdd? && Fits(d) ==> !Misread(hash, d, c.entry.key, c.canResize))
  }

  /** A command answers as the map does exactly when it is `Indexable`; then the dictionary represents the
      changed map. */
  lemma CommandRefines(hash: Hash, d: DictState, m: map<Key, int>, c: Command)
    requires Represents(hash, d, m)
    ensures Valid(hash, d)
    ensures Indexable(hash, d, c) ==> Represents(hash, Apply(hash, d, c).0, ApplyMap(m, c).0)
    ensures Apply(hash, d, c).1 == ApplyMap(m, c).1 <==> Indexable(hash, d, c)
  {
    hide Apply, Lookup, Count, Valid, Pow2, Same, Updates, Represents, Fits, Sized, Wild, Misread;
    RepresentsSays(hash, d, m, if c.CmdAdd? || c.CmdReplace? then c.entry.key
        else if c.CmdDelete? || c.CmdFind? then c.key else 0);
    CommandEffect(hash, d, c);
    var d' := Apply(hash, d, c).0;
    ValidImpliesSized(hash, d');
    if Indexable(hash, d, c) {
      match c
      case CmdAdd(e, _) =>
        if Fits(d) {
          if e.key in m { SameRepresents(hash, d, d', m); } else { StoreRepresents(hash, d, d', m, e); }
        }
      case CmdReplace(e, _) => if Fits(d) { StoreRepresents(hash, d, d', m, e); }
      case CmdDelete(key) => RemoveRepresents(hash, d, d', m, key);
      case _ => SameRepresents(hash, d, d', m);
    } else {
      if c.CmdAdd? && Fits(d) { MisreadIsAbsent(hash, d, c.entry.key, c.canResize); }
      MapIsDefined(m, c);
    }
  }

  lemma MisreadIsAbsent(hash: Hash, d: DictState, key: Key, canResize: bool)
    requires Valid(hash, d) && Fits(d)
    ensures Sized(d) && (Misread(hash, d, key, canResize) ==> Lookup(hash, d, key).None?)
  {
    var d1 := BeforeAdd(hash, d, canResize);
    assert Lookup(hash, d1, key) == Lookup(hash, d, key);
  }

  lemma MapIsDefined(m: map<Key, int>, c: Command)
    ensures ApplyMap(m, c).1 != Undefined
  {}

  function Run(hash: Hash, d: DictState, cs: seq<Command>): (r: (DictState, seq<Reply>))
    requires Valid(hash, d)
    ensures Valid(hash, r.0) && |r.1| == |cs|
    decreases |cs|
  {
    if cs == [] then (d, [])
    else
      var (d', reply) := Apply(hash, d, cs[0]);
      CommandEffect(hash, d, cs[0]);
      var (d'', replies) := Run(hash, d', cs[1..]);
      (d'', [reply] + replies)
  }

  function RunMap(m: map<Key, int>, cs: seq<Command>): (r: (map<Key, int>, seq<Reply>))
    ensures |r.1| == |cs|
    decreases |cs|
  {
    if cs == [] then (m, [])
    else
      var (m', reply) := ApplyMap(m, cs[0]);
      var (m'', replies) := RunMap(m', cs[1..]);
      (m'', [reply] + replies)
  }

  /** Every command of the run is `Indexable` when its turn comes. */
  ghost predicate IndexableAll(hash: Hash, d: DictState, cs: seq<Command>)
    requires Valid(hash, d)
    decreases |cs|
  {
    cs == [] || (Indexable(hash, d, cs[0])
                 && (CommandEffect(hash, d, cs[0]); IndexableAll(hash, Apply(hash, d, cs[0]).0, cs[1..])))
  }

  /** Refinement: over every sequence of commands the dictionary gives the answers of a finite map exactly
      when every command is `Indexable`, and then it ends up representing the map. */
  lemma {:induction false} RunRefines(hash: Hash, d: DictState, m: map<Key, int>, cs: seq<Command>)
    requires Represents(hash, d, m)
    ensures Valid(hash, d)
    ensures IndexableAll(hash, d, cs) ==> Represents(hash, Run(hash, d, cs).0, RunMap(m, cs).0)
    ensures Run(hash, d, cs).1 == RunMap(m, cs).1 <==> IndexableAll(hash, d, cs)
    decreases |cs|
  {
    hide Apply, ApplyMap, Indexable, Represents, Valid;
    RepresentsSays(hash, d, m, 0);
    if cs != [] {
      CommandRefines(hash, d, m, cs[0]);
      CommandEffect(hash, d, cs[0]);
      var (d', reply) := Apply(hash, d, cs[0]);
      var (m', answer) := ApplyMap(m, cs[0]);
      var r, q := Run(hash, d', cs[1..]).1, RunMap(m', cs[1..]).1;
      assert ([reply] + r)[0] == reply && ([reply] + r)[1..] == r;
      assert ([answer] + q)[0] == answer && ([answer] + q)[1..] == q;
      if Indexable(hash, d, cs[0]) {
        RunRefines(hash, d', m', cs[1..]);
      }
    }
  }

  // ---- Why each of these keeps the entries ----

  lemma {:induction false} TotalUpdate(b: seq<Chain>, i: nat, c: Chain)
    requires i < |b|
    ensures Total(b[i := c]) == Total(b) - |b[i]| + |c|
  {
    if i == 0 {
      assert b[0 := c][1..] == b[1..];
    } else {
      TotalUpdate(b[1..], i - 1, c);
      assert b[i := c][1..] == b[1..][i - 1 := c];
    }
  }

  lemma {:induction false} TotalAtLeast(b: seq<Chain>, i: nat)
    requires i < |b|
    ensures Total(b) >= |b[i]|
  {
    if i > 0 {
      TotalAtLeast(b[1..], i - 1);
    }
  }

  lemma {:induction false} TotalZero(b: seq<Chain>)
    requires forall i :: 0 <= i < |b| ==> b[i] == []
    ensures Total(b) == 0
  {
    if b != [] {
      TotalZero(b[1..]);
    }
  }

  lemma FinishKeeps(hash: Hash, d: DictState)
    requires Valid(hash, d) && Rehashing(d) && d.ht0.used == 0
    ensures Valid(hash, Finish(d)) && Same(hash, d, Finish(d))
  {
    forall key ensures FindIn(hash, d.ht0, key).None? {
      TotalAtLeast(d.ht0.buckets, BucketOf(hash(key), d.ht0.k));
    }
  }

  /** While entries remain, a non-empty bucket lies ahead: the skip loop never leaves the table. */
  lemma SkipStopsInBounds(b: seq<Chain>, i: nat)
    requires i <= |b| && Total(b) > 0
    requires forall x :: 0 <= x < i ==> b[x] == []
    ensures SkipEmpty(b, i) < |b|
  {
    if SkipEmpty(b, i) == |b| {
      TotalZero(b);
    }
  }

  lemma SkipKeeps(hash: Hash, d: DictState)
    requires Valid(hash, d) && Rehashing(d) && d.ht0.used > 0
    ensures var i := SkipEmpty(d.ht0.buckets, d.rehashidx);
            i < |d.ht0.buckets| && Valid(hash, d.(rehashidx := i)) && Same(hash, d, d.(rehashidx := i))
  {
    SkipStopsInBounds(d.ht0.buckets, d.rehashidx);
  }

  lemma IndexOfIs(c: Chain, key: Key, j: nat)
    requires j < |c| && c[j].key == key && DistinctKeys(c)
    ensures IndexOf(c, key) == j
  {}

  /** Unlinking one entry takes its key out of the chain and leaves the others. */
  lemma ChainRemove(c: Chain, j: nat, key: Key)
    requires j < |c| && DistinctKeys(c)
    ensures var r := c[..j] + c[j + 1..];
            && DistinctKeys(r)
            && FindChain(r, key) == if key == c[j].key then None else FindChain(c, key)
  {
    var r := c[..j] + c[j + 1..];
    assert forall x :: 0 <= x < |r| ==> r[x] == if x < j then c[x] else c[x + 1];
    if key != c[j].key && HasKey(c, key) {
      var i := IndexOf(c, key);
      IndexOfIs(r, key, if i < j then i else i - 1);
    }
  }

  lemma ChainInsert(c: Chain, e: Entry, key: Key)
    requires DistinctKeys(c) && FindChain(c, e.key).None?
    ensures var r := [e] + c;
            && DistinctKeys(r)
            && FindChain(r, key) == if key == e.key then Some(e) else FindChain(c, key)
  {
    var r := [e] + c;
    assert forall x :: 0 <= x < |r| ==> r[x] == if x == 0 then e else c[x - 1];
    if key != e.key && HasKey(c, key) {
      IndexOfIs(r, key, IndexOf(c, key) + 1);
    }
  }

  lemma ChainSet(c: Chain, j: nat, val: int, key: Key)
    requires j < |c| && DistinctKeys(c)
    ensures var r := c[j := c[j].(val := val)];
            && DistinctKeys(r)
            && FindChain(r, key) == if key == c[j].key then Some(Entry(key, val)) else FindChain(c, key)
  {
    var r := c[j := c[j].(val := val)];
    assert forall x :: 0 <= x < |c| ==> r[x].key == c[x].key;
    IndexOfIs(c, c[j].key, j);
    if HasKey(c, key) {
      IndexOfIs(r, key, IndexOf(c, key));
    }
  }

  /** `t'` differs from `t` at one key. */
  ghost predicate Differs(hash: Hash, t: Table, t': Table, key: Key, now: Option<Entry>) {
    && ValidTable(hash, t) && ValidTable(hash, t')
    && (forall x :: FindIn(hash, t', x) == if x == key then now else FindIn(hash, t, x))
    && t'.used == t.used + (if now.Some? then 1 else 0) - (if FindIn(hash, t, key).Some? then 1 else 0)
  }

  /** Replacing one chain by a chain that differs at one key of that bucket. */
  lemma BucketChange(hash: Hash, t: Table, i: nat, r: Chain, key: Key, now: Option<Entry>)
    requires ValidTable(hash, t) && i < |t.buckets| && BucketOf(hash(key), t.k) == i
    requires DistinctKeys(r) && forall e :: e in r ==> BucketOf(hash(e.key), t.k) == i
    requires forall x :: FindChain(r, x) == if x == key then now else FindChain(t.buckets[i], x)
    requires |r| == |t.buckets[i]| + (if now.Some? then 1 else 0)
                    - (if FindChain(t.buckets[i], key).Some? then 1 else 0)
    ensures t.used + |r| >= |t.buckets[i]|
    ensures Differs(hash, t, t.(buckets := t.buckets[i := r], used := t.used + |r| - |t.buckets[i]|), key, now)
  {
    hide FindChain, BucketOf, DistinctKeys;
    TotalUpdate(t.buckets, i, r);
    TotalAtLeast(t.buckets, i);
    BucketChangeValid(hash, t, i, r);
  }

  lemma BucketChangeValid(hash: Hash, t: Table, i: nat, r: Chain)
    requires ValidTable(hash, t) && i < |t.buckets| && t.used + |r| >= |t.buckets[i]|
    requires DistinctKeys(r) && forall e :: e in r ==> BucketOf(hash(e.key), t.k) == i
    ensures ValidTable(hash, t.(buckets := t.buckets[i := r], used := t.used + |r| - |t.buckets[i]|))
  {
    hide BucketOf, DistinctKeys;
    TotalUpdate(t.buckets, i, r);
  }

  lemma RemoveKeeps(hash: Hash, t: Table, i: nat, j: nat)
    requires ValidTable(hash, t) && i < |t.buckets| && j < |t.buckets[i]| && t.used > 0
    ensures Differs(hash, t, Remove(t, i, j), t.buckets[i][j].key, None)
  {
    var c := t.buckets[i];
    var r := c[..j] + c[j + 1..];
    assert c[j] in c;
    IndexOfIs(c, c[j].key, j);
    forall x ensures FindChain(r, x) == if x == c[j].key then None else FindChain(c, x) {
      ChainRemove(c, j, x);
    }
    ChainRemove(c, j, 0);
    BucketChange(hash, t, i, r, c[j].key, None);
  }

  lemma InsertKeeps(hash: Hash, t: Table, e: Entry)
    requires ValidTable(hash, t) && FindIn(hash, t, e.key).None?
    ensures Differs(hash, t, Insert(hash, t, e), e.key, Some(e))
  {
    var i := BucketOf(hash(e.key), t.k);
    var c := t.buckets[i];
    forall x ensures FindChain([e] + c, x) == if x == e.key then Some(e) else FindChain(c, x) {
      ChainInsert(c, e, x);
    }
    ChainInsert(c, e, 0);
    BucketChange(hash, t, i, [e] + c, e.key, Some(e));
  }

  lemma SetKeeps(hash: Hash, t: Table, key: Key, val: int)
    requires ValidTable(hash, t) && FindIn(hash, t, key).Some?
    ensures Differs(hash, t, SetIn(hash, t, key, val), key, Some(Entry(key, val)))
  {
    var i := BucketOf(hash(key), t.k);
    var c := t.buckets[i];
    var j := IndexOf(c, key);
    var r := c[j := c[j].(val := val)];
    forall e | e in r ensures BucketOf(hash(e.key), t.k) == i {
      var x :| 0 <= x < |r| && r[x] == e;
      assert c[x] in c;
    }
    forall x ensures FindChain(r, x) == if x == key then Some(Entry(key, val)) else FindChain(c, x) {
      ChainSet(c, j, val, x);
    }
    ChainSet(c, j, val, 0);
    BucketChange(hash, t, i, r, key, Some(Entry(key, val)));
  }

  lemma MoveHeadKeeps(hash: Hash, d: DictState)
    requires Valid(hash, d) && Rehashing(d) && CanMove(d)
    ensures var e, d' := d.ht0.buckets[d.rehashidx][0], MoveHead(hash, d);
            && Valid(hash, d') && Same(hash, d, d')
            && FindIn(hash, d.ht0, e.key) == Some(e) && FindIn(hash, d'.ht0, e.key).None?
            && FindIn(hash, d'.ht1, e.key) == Some(e)
            && d'.ht0.used == d.ht0.used - 1 && d'.ht1.used == d.ht1.used + 1
  {
    hide FindIn, ValidTable, SizedTable, Insert;
    var e := d.ht0.buckets[d.rehashidx][0];
    HeadIsFound(hash, d.ht0, d.rehashidx);
    RemoveKeeps(hash, d.ht0, d.rehashidx, 0);
    InsertKeeps(hash, d.ht1, e);
    ValidIsSized(hash, Remove(d.ht0, d.rehashidx, 0));
    ValidIsSized(hash, Insert(hash, d.ht1, e));
  }

  lemma HeadIsFound(hash: Hash, t: Table, i: nat)
    requires ValidTable(hash, t) && t.Table? && i < |t.buckets| && t.buckets[i] != []
    ensures SizedTable(t) && FindIn(hash, t, t.buckets[i][0].key) == Some(t.buckets[i][0])
  {
    var c := t.buckets[i];
    assert c[0] in t.buckets[i];
    IndexOfIs(c, c[0].key, 0);
  }

  lemma {:induction false} TotalFresh(k: nat)
    ensures Total(FreshTable(k).buckets) == 0
  {
    TotalZero(FreshTable(k).buckets);
  }

  lemma ExpandKeeps(hash: Hash, d: DictState, size: nat)
    requires Valid(hash, d) && size < LONG_MAX
    ensures Valid(hash, Expand(d, size)) && Same(hash, d, Expand(d, size))
    ensures d.ht0.NoTable? && !Rehashing(d) ==> Expand(d, size).ht0.Table?
  {
    TotalFresh(NextPower(size, INITIAL_EXPONENT));
  }

  /** An accepted expansion allocates the smallest power of two that is at least 4 and at least `size`, as the
      first table or, to be filled by rehashing, as the second. */
  lemma ExpandSize(d: DictState, size: nat)
    requires size < LONG_MAX && !Rehashing(d) && Used(d.ht0) <= size
    ensures var d' := Expand(d, size);
            && (d.ht0.NoTable? ==> d' == d.(ht0 := d'.ht0) && NewTable(d'.ht0, size))
            && (d.ht0.Table? ==> d' == d.(ht1 := d'.ht1, rehashidx := 0) && NewTable(d'.ht1, size))
  {
    Pow2Monotone(INITIAL_EXPONENT, NextPower(size, INITIAL_EXPONENT));
  }

  predicate NewTable(t: Table, size: nat) {
    && t.Table? && t.used == 0 && (forall i :: 0 <= i < |t.buckets| ==> t.buckets[i] == [])
    && |t.buckets| == Pow2(t.k) && size <= Pow2(t.k) && 4 <= Pow2(t.k)
    && (Pow2(t.k) == 4 || (t.k > 0 && Pow2(t.k - 1) < size))
  }

  lemma ResizeKeeps(hash: Hash, d: DictState, canResize: bool)
    requires Valid(hash, d)
    ensures Valid(hash, Resize(d, canResize)) && Same(hash, d, Resize(d, canResize))
  {
    ExpandKeeps(hash, d, Minimal(Used(d.ht0)));
  }

  lemma ExpandIfNeededKeeps(hash: Hash, d: DictState, canResize: bool)
    requires Valid(hash, d) && Used(d.ht0) * 2 < LONG_MAX
    ensures var d' := ExpandIfNeeded(d, canResize);
            Valid(hash, d') && Same(hash, d, d') && d'.ht0.Table? && d'.iterators == d.iterators
  {
    if !Rehashing(d) {
      if d.ht0.NoTable? {
          ExpandKeeps(hash, d, 4);
      } else {
        ExpandKeeps(hash, d, Used(d.ht0) * 2);
      }
    }
  }

  lemma FoundIsCounted(hash: Hash, t: Table, key: Key)
    requires t.Table? ==> ValidTable(hash, t)
    ensures FindIn(hash, t, key).Some? ==> t.Table? && t.used > 0
  {
    if FindIn(hash, t, key).Some? {
      TotalAtLeast(t.buckets, BucketOf(hash(key), t.k));
    }
  }

  /** What a command does to the entries, in terms of lookups alone. */
  ghost predicate Updates(hash: Hash, d: DictState, d': DictState, key: Key, now: Option<Entry>) {
    && Valid(hash, d) && Valid(hash, d')
    && (forall x :: Lookup(hash, d', x) == if x == key then now else Lookup(hash, d, x))
    && Count(d') == Count(d) + (if now.Some? then 1 else 0) - (if Lookup(hash, d, key).Some? then 1 else 0)
  }

  lemma ValidIsSized(hash: Hash, t: Table)
    ensures ValidTable(hash, t) ==> SizedTable(t)
  {}

  lemma ChangeFirst(hash: Hash, d: DictState, t: Table, key: Key, now: Option<Entry>)
    requires Valid(hash, d) && Differs(hash, d.ht0, t, key, now) && FindIn(hash, d.ht1, key).None?
    requires Rehashing(d) ==> d.rehashidx <= |t.buckets| && forall i :: 0 <= i < d.rehashidx ==> t.buckets[i] == []
    ensures Updates(hash, d, d.(ht0 := t), key, now)
  {
    hide FindIn, ValidTable, SizedTable;
    var d' := d.(ht0 := t);
    ValidIsSized(hash, d.ht0);
    ValidIsSized(hash, d.ht1);
    ValidIsSized(hash, t);
    assert forall x :: Lookup(hash, d', x) == if x == key then now else Lookup(hash, d, x);
    assert Valid(hash, d');
  }

  lemma ChangeSecond(hash: Hash, d: DictState, t: Table, key: Key, now: Option<Entry>)
    requires Valid(hash, d) && Rehashing(d) && Differs(hash, d.ht1, t, key, now) && FindIn(hash, d.ht0, key).None?
    ensures Updates(hash, d, d.(ht1 := t), key, now)
  {
    hide FindIn, ValidTable, SizedTable;
    var d' := d.(ht1 := t);
    ValidIsSized(hash, d.ht0);
    ValidIsSized(hash, d.ht1);
    ValidIsSized(hash, t);
    assert forall x :: Lookup(hash, d', x) == if x == key then now else Lookup(hash, d, x);
    assert Valid(hash, d');
  }

  /** `Updates` after a step that kept the entries. */
  lemma UpdatesAfter(hash: Hash, d: DictState, d1: DictState, d2: DictState, key: Key, now: Option<Entry>)
    requires Valid(hash, d) && Same(hash, d, d1) && Updates(hash, d1, d2, key, now)
    ensures Updates(hash, d, d2, key, now)
  {
    assert Lookup(hash, d1, key) == Lookup(hash, d, key);
  }

  lemma AddEffect(hash: Hash, d: DictState, e: Entry, canResize: bool)
    requires Valid(hash, d) && Fits(d)
    ensures var (d', ok) := Add(hash, d, e, canResize);
            && ok == (Lookup(hash, d, e.key).None? && !Misread(hash, d, e.key, canResize))
            && (if ok then Updates(hash, d, d', e.key, Some(e)) else Valid(hash, d') && Same(hash, d, d'))
            && d'.ht0.Table?
  {
    hide FindIn, ValidTable, SizedTable, BeforeAdd, Insert;
    var d1 := BeforeAdd(hash, d, canResize);
    ValidIsSized(hash, d1.ht0);
    ValidIsSized(hash, d1.ht1);
    assert Lookup(hash, d1, e.key) == Lookup(hash, d, e.key);
    if Add(hash, d, e, canResize).1 {
      if Rehashing(d1) {
        InsertKeeps(hash, d1.ht1, e);
        ChangeSecond(hash, d1, Insert(hash, d1.ht1, e), e.key, Some(e));
      } else {
        InsertKeeps(hash, d1.ht0, e);
        ChangeFirst(hash, d1, Insert(hash, d1.ht0, e), e.key, Some(e));
      }
      UpdatesAfter(hash, d, d1, Add(hash, d, e, canResize).0, e.key, Some(e));
    }
  }

  /** A new entry is put into the second table while rehashing, and into the first otherwise. */
  lemma AddLands(hash: Hash, d: DictState, e: Entry, canResize: bool)
    requires Valid(hash, d) && Fits(d) && Add(hash, d, e, canResize).1
    ensures var d' := Add(hash, d, e, canResize).0;
            && Sized(d')
            && FindIn(hash, d'.ht0, e.key) == (if Rehashing(d') then None else Some(e))
            && FindIn(hash, d'.ht1, e.key) == (if Rehashing(d') then Some(e) else None)
  {
    hide ValidTable, BeforeAdd;
    AddEffect(hash, d, e, canResize);
    var d1 := BeforeAdd(hash, d, canResize);
    ValidImpliesSized(hash, d1);
    ValidImpliesSized(hash, Add(hash, d, e, canResize).0);
    assert Lookup(hash, d1, e.key).None?;
  }

  lemma OverwriteEffect(hash: Hash, d: DictState, key: Key, val: int)
    requires Valid(hash, d) && Lookup(hash, d, key).Some?
    ensures Updates(hash, d, Overwrite(hash, d, key, val), key, Some(Entry(key, val)))
  {
    hide FindIn, ValidTable, SizedTable;
    ValidIsSized(hash, d.ht0);
    ValidIsSized(hash, d.ht1);
    FoundIsCounted(hash, d.ht0, key);
    FoundIsCounted(hash, d.ht1, key);
    if FindIn(hash, d.ht0, key).Some? {
      SetKeeps(hash, d.ht0, key, val);
      EmptyBucketsStay(hash, d, key);
      ChangeFirst(hash, d, SetIn(hash, d.ht0, key, val), key, Some(Entry(key, val)));
    } else {
      SetKeeps(hash, d.ht1, key, val);
      ChangeSecond(hash, d, SetIn(hash, d.ht1, key, val), key, Some(Entry(key, val)));
    }
  }

  /** A key found in the first table lies at or beyond `rehashidx`, and not in the second. */
  lemma EmptyBucketsStay(hash: Hash, d: DictState, key: Key)
    requires Valid(hash, d) && FindIn(hash, d.ht0, key).Some?
    ensures Rehashing(d) ==> d.rehashidx <= BucketOf(hash(key), d.ht0.k)
    ensures FindIn(hash, d.ht1, key).None?
  {}

  lemma ReplaceEffect(hash: Hash, d: DictState, e: Entry, canResize: bool)
    requires Valid(hash, d) && Fits(d) && !Misread(hash, d, e.key, canResize)
    ensures var (d', ok) := Replace(hash, d, e, canResize);
            ok == Lookup(hash, d, e.key).None? && Updates(hash, d, d', e.key, Some(e))
  {
    AddEffect(hash, d, e, canResize);
    var (d1, added) := Add(hash, d, e, canResize);
    if !added {
      var d2 := MaybeStep(hash, d1);
      assert Lookup(hash, d2, e.key) == Lookup(hash, d1, e.key) == Lookup(hash, d, e.key);
      OverwriteEffect(hash, d2, e.key, e.val);
      UpdatesAfter(hash, d1, d2, Overwrite(hash, d2, e.key, e.val), e.key, Some(e));
      UpdatesAfter(hash, d, d1, Overwrite(hash, d2, e.key, e.val), e.key, Some(e));
    }
  }

  lemma UnlinkEffect(hash: Hash, d: DictState, key: Key)
    requires Valid(hash, d)
    ensures Updates(hash, d, Unlink(hash, d, key), key, None)
  {
    FoundIsCounted(hash, d.ht0, key);
    FoundIsCounted(hash, d.ht1, key);
    if FindIn(hash, d.ht0, key).Some? {
      RemoveKeeps(hash, d.ht0, BucketOf(hash(key), d.ht0.k), IndexOf(ChainOf(hash, d.ht0, key), key));
      EmptyBucketsStay(hash, d, key);
      ChangeFirst(hash, d, RemoveFrom(hash, d.ht0, key), key, None);
    } else if FindIn(hash, d.ht1, key).Some? {
      RemoveKeeps(hash, d.ht1, BucketOf(hash(key), d.ht1.k), IndexOf(ChainOf(hash, d.ht1, key), key));
      ChangeSecond(hash, d, RemoveFrom(hash, d.ht1, key), key, None);
    }
  }

  lemma FindEffect(hash: Hash, d: DictState, key: Key)
    requires Valid(hash, d)
    ensures var (d', r) := Find(hash, d, key);
            r == Lookup(hash, d, key) && Valid(hash, d') && Same(hash, d, d')
  {}

  lemma DeleteEffect(hash: Hash, d: DictState, key: Key)
    requires Valid(hash, d)
    ensures var (d', ok) := Delete(hash, d, key);
            ok == Lookup(hash, d, key).Some? && Updates(hash, d, d', key, None)
  {
    if d.ht0.Table? {
      var d1 := MaybeStep(hash, d);
      assert Lookup(hash, d1, key) == Lookup(hash, d, key);
      UnlinkEffect(hash, d1, key);
      UpdatesAfter(hash, d, d1, Unlink(hash, d1, key), key, None);
    }
  }
}
