/** dict.c as it updates its tables in place. Every method is proved to make the step that the module
    `Dict` (or `Scan`) defines on values, for which the properties are proved. */
module RedisDict {
  import opened Options
  import opened Words
  import opened Dict
  import Scan
  import SI = SafeIterator

  /** Walks a chain from its head. */
  method Walk(c: Chain, key: Key) returns (j: nat)
    ensures j == IndexOf(c, key)
  {
    j := 0;
    while j < |c|
      invariant 0 <= j <= |c| && IndexOf(c, key) == j + IndexOf(c[j..], key)
    {
      if c[j].key == key { return; }
      assert c[j..][1..] == c[j + 1..];
      j := j + 1;
    }
  }

  lemma NextPowerRound(size: nat, k: nat)
    requires k <= 63 && size < LONG_MAX
    ensures Pow2(k) <= LONG_MAX + 1
    ensures size <= Pow2(k) ==> NextPower(size, k) == k
    ensures size > Pow2(k) ==> k < 63 && NextPower(size, k) == NextPower(size, k + 1)
  {
    PowerOf63();
    Pow2Monotone(k, 63);
  }

  /** `_dictNextPower`: the smallest power of two that is at least `size` and at least 4; a size of LONG_MAX
      or more yields LONG_MAX, which is not a power of two. */
  method DictNextPower(size: nat) returns (i: nat, ghost k: nat)
    ensures size >= LONG_MAX ==> i == LONG_MAX
    ensures size < LONG_MAX ==> k == NextPower(size, INITIAL_EXPONENT) && i == Pow2(k)
  {
    i, k := 4, INITIAL_EXPONENT;
    if size >= LONG_MAX { return LONG_MAX, 0; }
    while i < size
      invariant INITIAL_EXPONENT <= k <= 63 && i == Pow2(k)
      invariant NextPower(size, INITIAL_EXPONENT) == NextPower(size, k)
      decreases 63 - k
    {
      NextPowerRound(size, k);
      i, k := i * 2, k + 1;
    }
    NextPowerRound(size, k);
  }

  // ---- `rev`: reversing a word by swapping ever smaller blocks ----

  predicate BlockSize(b: int) { b == 64 || b == 32 || b == 16 || b == 8 || b == 4 || b == 2 || b == 1 }

  /** Where bit `i` comes from once the blocks of `b` bits have been reversed. */
  function Origin(i: int, b: int): int
    requires b > 0
  {
    (64 / b - 1 - i / b) * b + i % b
  }

  /** Swapping neighbouring blocks of `b` bits refines the reversal of blocks of `2 * b`, and the mask
      follows suit. */
  predicate SwapRefines(i: int, b: int)
    requires b > 0
  {
    && 0 <= Origin(i, b) < 64
    && (if (i / b) % 2 == 0 then i + b < 64 && Origin(i + b, 2 * b) == Origin(i, b)
        else i >= b && Origin(i - b, 2 * b) == Origin(i, b))
    && ((i / b) % 2 == 0) == (((i / (2 * b)) % 2 == 0) != (i >= b && ((i - b) / (2 * b)) % 2 == 0))
  }

  lemma Swap32(i: int)
    requires 0 <= i < 64
    ensures SwapRefines(i, 32)
  {
    var q, t, r := i / 64, (i / 32) % 2, i % 32;
    assert i == 64 * q + 32 * t + r && i / 32 == 2 * q + t;
    if t == 0 {
      assert i % 64 == r && (i + 32) / 64 == q && (i + 32) % 64 == 32 + r;
    } else {
      assert i % 64 == 32 + r && (i - 32) / 64 == q && (i - 32) % 64 == r;
    }
  }

  lemma Swap16(i: int)
    requires 0 <= i < 64
    ensures SwapRefines(i, 16)
  {
    var q, t, r := i / 32, (i / 16) % 2, i % 16;
    assert i == 32 * q + 16 * t + r && i / 16 == 2 * q + t;
    if t == 0 {
      assert i % 32 == r && (i + 16) / 32 == q && (i + 16) % 32 == 16 + r;
      assert i >= 16 ==> (i - 16) / 32 == q - 1;
    } else {
      assert i % 32 == 16 + r && (i - 16) / 32 == q && (i - 16) % 32 == r;
    }
  }

  lemma Swap8(i: int)
    requires 0 <= i < 64
    ensures SwapRefines(i, 8)
  {
    var q, t, r := i / 16, (i / 8) % 2, i % 8;
    assert i == 16 * q + 8 * t + r && i / 8 == 2 * q + t;
    if t == 0 {
      assert i % 16 == r && (i + 8) / 16 == q && (i + 8) % 16 == 8 + r;
      assert i >= 8 ==> (i - 8) / 16 == q - 1;
    } else {
      assert i % 16 == 8 + r && (i - 8) / 16 == q && (i - 8) % 16 == r;
    }
  }

  lemma Swap4(i: int)
    requires 0 <= i < 64
    ensures SwapRefines(i, 4)
  {
    var q, t, r := i / 8, (i / 4) % 2, i % 4;
    assert i == 8 * q + 4 * t + r && i / 4 == 2 * q + t;
    if t == 0 {
      assert i % 8 == r && (i + 4) / 8 == q && (i + 4) % 8 == 4 + r;
      assert i >= 4 ==> (i - 4) / 8 == q - 1;
    } else {
      assert i % 8 == 4 + r && (i - 4) / 8 == q && (i - 4) % 8 == r;
    }
  }

  lemma Swap2(i: int)
    requires 0 <= i < 64
    ensures SwapRefines(i, 2)
  {
    var q, t, r := i / 4, (i / 2) % 2, i % 2;
    assert i == 4 * q + 2 * t + r && i / 2 == 2 * q + t;
    if t == 0 {
      assert i % 4 == r && (i + 2) / 4 == q && (i + 2) % 4 == 2 + r;
      assert i >= 2 ==> (i - 2) / 4 == q - 1;
    } else {
      assert i % 4 == 2 + r && (i - 2) / 4 == q && (i - 2) % 4 == r;
    }
  }

  lemma Swap1(i: int)
    requires 0 <= i < 64
    ensures SwapRefines(i, 1)
  {
    var q, t, r := i / 2, (i / 1) % 2, i % 1;
    assert i == 2 * q + 1 * t + r && i / 1 == 2 * q + t;
    if t == 0 {
      assert i % 2 == r && (i + 1) / 2 == q && (i + 1) % 2 == 1 + r;
      assert i >= 1 ==> (i - 1) / 2 == q - 1;
    } else {
      assert i % 2 == 1 + r && (i - 1) / 2 == q && (i - 1) % 2 == r;
    }
  }

  lemma Swap(i: int, b: int)
    requires 0 <= i < 64 && BlockSize(b) && b < 64
    ensures SwapRefines(i, b)
  {
    hide SwapRefines;
    Swap32(i); Swap16(i); Swap8(i); Swap4(i); Swap2(i); Swap1(i);
  }

  /** `r` is `v` with its blocks of `b` bits reversed, and `mask` selects every other block. */
  ghost predicate Reversed(v: Word, r: Word, mask: Word, b: int) {
    && BlockSize(b)
    && (forall i {:trigger r[i]} :: 0 <= i < WIDTH ==> 0 <= Origin(i, b) < WIDTH && r[i] == v[Origin(i, b)])
    && (forall i {:trigger mask[i]} :: 0 <= i < WIDTH ==> mask[i] == ((i / b) % 2 == 0))
  }

  lemma RevRound(v: Word, r: Word, mask: Word, s: int)
    requires BlockSize(s) && s < 64 && Reversed(v, r, mask, 2 * s)
    ensures var mask' := Xor(mask, ShiftLeft(mask, s));
            Reversed(v, Or(And(ShiftRight(r, s), mask'), And(ShiftLeft(r, s), Not(mask'))), mask', s)
  {
    var mask' := Xor(mask, ShiftLeft(mask, s));
    var r' := Or(And(ShiftRight(r, s), mask'), And(ShiftLeft(r, s), Not(mask')));
    forall i | 0 <= i < WIDTH
      ensures mask'[i] == ((i / s) % 2 == 0)
      ensures 0 <= Origin(i, s) < WIDTH && r'[i] == v[Origin(i, s)]
    {
      hide Origin;
      Swap(i, s);
      assert mask'[i] == (mask[i] != (i >= s && mask[i - s]));
    }
  }

  /** `rev`. */
  method Rev(v: Word) returns (r: Word)
    ensures r == Scan.Reverse(v)
  {
    r := v;
    var mask: Word := Ones(WIDTH);
    var s := WIDTH / 2;
    ghost var b := WIDTH;
    assert forall i :: 0 <= i < WIDTH ==> Origin(i, 64) == i;
    while s > 0
      invariant Reversed(v, r, mask, b) && s == b / 2
      decreases s
    {
      RevRound(v, r, mask, s);
      mask := Xor(mask, ShiftLeft(mask, s));
      r := Or(And(ShiftRight(r, s), mask), And(ShiftLeft(r, s), Not(mask)));
      b, s := s, s / 2;
    }
  }

  ghost function Log2(n: nat): nat { if n <= 1 then 0 else 1 + Log2(n / 2) }

  lemma {:induction false} Log2OfPow2(k: nat)
    ensures Log2(Pow2(k)) == k
  {
    if k > 0 {
      Log2OfPow2(k - 1);
    }
  }

  /** `struct dictht`; a NULL table is an array of length 0. */
  class HashTable {
    var table: array<Chain>
    var size: nat
    var sizemask: Word
    var used: nat

    ghost predicate Shape()
      reads this
    {
      && table.Length == size
      && if size == 0 then used == 0
         else INITIAL_EXPONENT <= Log2(size) < WIDTH && size == Pow2(Log2(size)) && sizemask == Mask(Log2(size), WIDTH)
    }

    ghost function Model(): (t: Table)
      reads this, table
    {
      if size == 0 then NoTable else Table(Log2(size), table[..], used)
    }

    /** `_dictReset`. */
    constructor ()
      ensures Shape() && Model() == NoTable && fresh(table)
    {
      table := new Chain[0];
      size, sizemask, used := 0, Zeros(WIDTH), 0;
    }

    /** The zeroed table `dictExpand` allocates. */
    constructor Allocate(realsize: nat, ghost k: nat)
      requires INITIAL_EXPONENT <= k < WIDTH && realsize == Pow2(k)
      ensures Shape() && Model() == FreshTable(k) && fresh(table)
    {
      MaskOfSize(k, WIDTH);
      Log2OfPow2(k);
      table := new Chain[realsize](i => []);
      size, sizemask, used := realsize, FromNat(realsize - 1, WIDTH), 0;
      new;
      assert table[..] == FreshTable(k).buckets;
    }

    /** `hash & sizemask` as an index. */
    method Index(h: Word) returns (i: nat)
      requires Shape() && size > 0
      ensures i == BucketOf(h, Model().k) && i < table.Length
    {
      ValueMasked(h, Log2(size));
      i := Value(And(h, sizemask));
    }

    /** Links an entry at the head of chain `i`, its own. */
    method Link(i: nat, ghost hash: Hash, e: Entry)
      requires Shape() && size > 0 && i == BucketOf(hash(e.key), Model().k)
      modifies this`used, table
      ensures Shape() && Model() == Insert(hash, old(Model()), e)
    {
      table[i] := [e] + table[i];
      used := used + 1;
    }

    /** Unlinks the entry at position `j` of chain `i`. */
    method Drop(i: nat, j: nat)
      requires Shape() && size > 0 && i < table.Length && j < |table[i]| && used > 0
      modifies this`used, table
      ensures Shape() && Model() == Remove(old(Model()), i, j)
    {
      table[i] := table[i][..j] + table[i][j + 1..];
      used := used - 1;
    }

    /** Stores a value in the entry at position `j` of chain `i`. */
    method Put(i: nat, j: nat, val: int)
      requires Shape() && size > 0 && i < table.Length && j < |table[i]|
      modifies table
      ensures Shape() && Model() == SetAt(old(Model()), i, j, val)
    {
      table[i] := table[i][j := table[i][j].(val := val)];
    }
  }

  class RedisDict {
    const hash: Hash
    var ht0: HashTable
    var ht1: HashTable
    var rehashidx: int
    var iterators: nat

    ghost predicate Shape()
      reads this, ht0, ht1
    {
      ht0 != ht1 && ht0.table != ht1.table && ht0.Shape() && ht1.Shape()
    }

    ghost function Model(): (d: DictState)
      reads this, ht0, ht1, ht0.table, ht1.table
    {
      DictState(ht0.Model(), ht1.Model(), rehashidx, iterators)
    }

    ghost predicate Inv()
      reads this, ht0, ht1, ht0.table, ht1.table
    {
      Shape() && Valid(hash, Model())
    }

    /** Objects of the dictionary are those it had or new ones. */
    twostate predicate Grown()
      reads this, ht0, ht1
    {
      && ((ht0 == old(ht0) && ht0.table == old(ht0.table)) || (ht0 == old(ht1) && ht0.table == old(ht1.table))
          || (fresh(ht0) && fresh(ht0.table)))
      && ((ht1 == old(ht1) && ht1.table == old(ht1.table)) || (fresh(ht1) && fresh(ht1.table)))
    }

    /** `dictCreate`. */
    constructor (hash: Hash)
      ensures this.hash == hash && Inv() && Model() == Empty()
      ensures fresh(ht0) && fresh(ht1) && fresh(ht0.table) && fresh(ht1.table)
    {
      this.hash := hash;
      ht0 := new HashTable();
      ht1 := new HashTable();
      rehashidx, iterators := -1, 0;
    }

    /** `dictExpand`. */
    method Expand(size: nat) returns (ok: bool)
      requires Inv() && !TooLarge(Model(), size)
      modifies this
      ensures Inv() && Grown()
      ensures Model() == if size >= LONG_MAX then old(Model()) else Dict.Expand(old(Model()), size)
      ensures ok == !(Rehashing(old(Model())) || Used(old(Model()).ht0) > size)
    {
      hide Valid, NextPower, FreshTable, Same;
      if size < LONG_MAX { ExpandKeeps(hash, Model(), size); }
      var realsize, k := DictNextPower(size);
      if rehashidx != -1 || ht0.used > size {
        return false;
      }
      var n := new HashTable.Allocate(realsize, k);
      if ht0.size == 0 {
        ht0 := n;
      } else {
        ht1, rehashidx := n, 0;
      }
      ok := true;
    }

    /** `_dictExpandIfNeeded`. */
    method ExpandIfNeeded(canResize: bool)
      requires Inv() && Used(Model().ht0) * 2 <= MAX_TABLE
      modifies this
      ensures Inv() && Model() == Dict.ExpandIfNeeded(old(Model()), canResize) && Grown()
    {
      hide Valid, Dict.Expand, Same;
      if rehashidx != -1 { return; }
      if ht0.size == 0 {
        var _ := Expand(4);
      } else if ht0.used >= ht0.size && (canResize || ht0.used / ht0.size > FORCE_RESIZE_RATIO) {
        var _ := Expand(ht0.used * 2);
      }
    }

    /** `dictResize`. */
    method Resize(canResize: bool)
      requires Inv()
      modifies this
      ensures Inv() && Model() == Dict.Resize(old(Model()), canResize) && Grown()
    {
      hide Valid, Dict.Expand, Same;
      if !canResize || rehashidx != -1 { return; }
      var minimal := ToInt(ht0.used);
      if minimal < 4 { minimal := 4; }
      var _ := Expand(minimal);
    }

    /** Moves the chain of bucket `rehashidx` to the second table, entry by entry. */
    method MoveBucket()
      requires Inv() && Rehashing(Model()) && rehashidx < ht0.size
      modifies this`rehashidx, ht0`used, ht1`used, ht0.table, ht1.table
      ensures Inv() && Model() == Dict.MoveBucket(hash, old(Model()))
    {
      hide Valid, Same, Dict.MoveBucket, MoveHead, CanMove, Insert, Mask, Pow2, Log2;
      ghost var d := Model();
      ghost var s := d;
      RehashingTables(hash, d);
      var de := ht0.table[rehashidx];
      assert ht0.table[..][rehashidx := de] == ht0.table[..];
      while de != []
        invariant Shape() && ht1.size > 0 && 0 <= rehashidx < ht0.size
        invariant Valid(hash, s) && Rehashing(s)
        invariant s == Model().(ht0 := Table(Log2(ht0.size), ht0.table[..][rehashidx := de], ht0.used))
        invariant Dict.MoveBucket(hash, s) == Dict.MoveBucket(hash, d)
        decreases |de|
        modifies ht0`used, ht1`used, ht1.table
      {
        MoveRound(hash, s);
        s := MoveHead(hash, s);
        var h := ht1.Index(hash(de[0].key));
        ht1.Link(h, hash, de[0]);
        ht0.used := ht0.used - 1;
        assert ht0.table[..][rehashidx := de][rehashidx := de[1..]] == ht0.table[..][rehashidx := de[1..]];
        de := de[1..];
      }
      MoveRound(hash, s);
      ht0.table[rehashidx] := [];
      assert ht0.table[..] == s.ht0.buckets;
      rehashidx := rehashidx + 1;
    }

    /** One round of `dictRehash`, which keeps `rehashidx` within its type. */
    method RehashRound() returns (more: bool)
      requires Inv() && Rehashing(Model()) && !StepWild(Model())
      modifies this, ht0, ht1, ht0.table, ht1.table
      ensures Inv() && Model() == RehashStep(hash, old(Model())) && more == Rehashing(Model()) && Grown()
    {
      hide Valid, Same, Dict.MoveBucket, Pow2, Mask, Log2;
      ghost var d := Model();
      RehashingTables(hash, d);
      if ht0.used == 0 {
        FinishKeeps(hash, d);
        var none := new HashTable();
        ht0, ht1, rehashidx := ht1, none, -1;
        return false;
      }
      SkipKeeps(hash, d);
      while ht0.table[rehashidx] == []
        invariant Shape() && d.rehashidx <= rehashidx <= SkipEmpty(d.ht0.buckets, d.rehashidx) < ht0.size
        invariant Model() == d.(rehashidx := rehashidx)
        decreases ht0.size - rehashidx
        modifies this`rehashidx
      {
        rehashidx := rehashidx + 1;
      }
      SkipIs(d.ht0.buckets, d.rehashidx, rehashidx);
      MoveBucket();
      more := true;
    }

    /** `dictRehash`: returns whether entries remain to be moved. */
    method Rehash(n: nat) returns (more: bool)
      requires Inv() && !RehashWild(hash, Model(), n)
      modifies this, ht0, ht1, ht0.table, ht1.table
      ensures Inv() && Model() == Dict.Rehash(hash, old(Model()), n) && Grown()
      ensures more == Rehashing(Model())
    {
      hide Valid, Same, SameSizes, RehashStep, Dict.Rehash, Pow2, Mask, Log2, StepWild, RehashWild;
      more := rehashidx != -1;
      var left := n;
      while more && left > 0
        invariant Inv() && 0 <= left <= n && more == Rehashing(Model()) && Grown()
        invariant Dict.Rehash(hash, Model(), left) == Dict.Rehash(hash, old(Model()), n)
        invariant !RehashWild(hash, Model(), left)
        decreases left
      {
        RehashUnfolds(hash, Model(), left);
        WildUnfolds(hash, Model(), left);
        more := RehashRound();
        left := left - 1;
      }
      RehashUnfolds(hash, Model(), left);
    }

    /** `_dictRehashStep`, as the commands call it. */
    method Step()
      requires Inv() && !MaybeWild(Model())
      modifies this, ht0, ht1, ht0.table, ht1.table
      ensures Inv() && Model() == MaybeStep(hash, old(Model())) && Grown()
    {
      hide Valid, Dict.Rehash, Same, SameSizes, StepWild;
      RehashUnfolds(hash, Model(), 1);
      WildUnfolds(hash, Model(), 1);
      if rehashidx != -1 && iterators == 0 {
        var _ := Rehash(1);
      }
    }

    /** Searches the tables in turn; `t` is the last table searched, `i` its bucket and `j` the position. */
    method Search(key: Key) returns (found: Option<Entry>, t: nat, i: nat, j: nat)
      requires Inv() && ht0.size > 0
      ensures found == Lookup(hash, Model(), key)
      ensures t == if FindIn(hash, Model().ht0, key).Some? || rehashidx == -1 then 0 else 1
      ensures var h := if t == 0 then ht0 else ht1;
              && h.size > 0 && i < h.table.Length && i == BucketOf(hash(key), h.Model().k)
                  && j == IndexOf(h.table[i], key)
              && (found.Some? ==> j < |h.table[i]| && FindIn(hash, h.Model(), key).Some?)
    {
      t := 0;
      i := ht0.Index(hash(key));
      j := Walk(ht0.table[i], key);
      if j < |ht0.table[i]| { return Some(ht0.table[i][j]), 0, i, j; }
      if rehashidx == -1 { return None, 0, i, j; }
      i := ht1.Index(hash(key));
      j := Walk(ht1.table[i], key);
      return if j < |ht1.table[i]| then Some(ht1.table[i][j]) else None, 1, i, j;
    }

    /** `dictFind`. */
    method Find(key: Key) returns (r: Option<Entry>)
      requires Inv() && !Wild(hash, Model(), CmdFind(key))
      modifies this, ht0, ht1, ht0.table, ht1.table
      ensures Inv() && (Model(), r) == Dict.Find(hash, old(Model()), key) && Grown()
    {
      hide MaybeStep, Lookup, Same, Valid, StepWild;
      if ht0.size == 0 { return None; }
      Step();
      var found, _, _, _ := Search(key);
      r := found;
    }

    /** `_dictKeyIndex`: the bucket a new key goes to, cut to an `int`, or -1 when the key exists. */
    method KeyIndex(key: Key, canResize: bool) returns (i: int)
      requires Inv() && Used(Model().ht0) * 2 <= MAX_TABLE
      modifies this
      ensures Inv() && Model() == Dict.ExpandIfNeeded(old(Model()), canResize) && Grown() && ht0.size > 0
      ensures SizedTable(Target(Model()))
      ensures i == if Lookup(hash, Model(), key).Some? then -1 else Dict.KeyIndex(hash, Target(Model()), key)
    {
      hide Dict.ExpandIfNeeded, Same, Pow2, Mask;
      ExpandIfNeededKeeps(hash, Model(), canResize);
      ExpandIfNeeded(canResize);
      var found, _, b, _ := Search(key);
      i := if found.Some? then -1 else ToInt(b);
      FoundIsCounted(hash, Model().ht0, key);
    }

    /** `dictAdd` by way of `dictAddRaw`. */
    method Add(e: Entry, canResize: bool) returns (ok: bool)
      requires Inv() && Fits(Model()) && !AddWild(hash, Model(), e.key, canResize)
      modifies this, ht0, ht1, ht0.table, ht1.table
      ensures Inv() && (Model(), ok) == Dict.Add(hash, old(Model()), e, canResize) && Grown()
      ensures ht0.size > 0
    {
      hide Valid, MaybeStep, Dict.ExpandIfNeeded, Lookup, Same, SameSizes, Pow2, Mask, Log2, Insert, StepWild,
           SizedTable;
      AddEffect(hash, Model(), e, canResize);
      StepCounts(hash, Model());
      Step();
      var index := KeyIndex(e.key, canResize);
      if index == -1 { return false; }
      RehashingModel(hash, Model());
      if rehashidx != -1 {
        ht1.Link(index, hash, e);
      } else {
        ht0.Link(index, hash, e);
      }
      ok := true;
    }

    /** Stores a value in the entry `Search` found. */
    method Store(key: Key, val: int)
      requires Inv() && ht0.size > 0 && Lookup(hash, Model(), key).Some?
      modifies ht0.table, ht1.table
      ensures Inv() && Model() == Overwrite(hash, old(Model()), key, val)
    {
      hide Valid, Same, Pow2, Mask, Log2, FindIn, SetAt;
      OverwriteEffect(hash, Model(), key, val);
      var _, t, i, j := Search(key);
      if t == 0 {
        ht0.Put(i, j, val);
      } else {
        ht1.Put(i, j, val);
      }
    }

    /** `dictReplace`. */
    method Replace(e: Entry, canResize: bool) returns (added: bool)
      requires Inv() && Fits(Model()) && !ReplaceWild(hash, Model(), e, canResize)
      modifies this, ht0, ht1, ht0.table, ht1.table
      ensures Inv() && (Model(), added) == Dict.Replace(hash, old(Model()), e, canResize) && Grown()
    {
      hide Valid, MaybeStep, Dict.Add, Lookup, Same, Pow2, Mask, Log2, Overwrite, AddWild, Misread, MaybeWild;
      ReplaceFinds(hash, Model(), e, canResize);
      added := Add(e, canResize);
      if !added {
        Step();
        Store(e.key, e.val);
      }
    }

    /** `dictGenericDelete`. */
    method Delete(key: Key) returns (ok: bool)
      requires Inv() && !Wild(hash, Model(), CmdDelete(key))
      modifies this, ht0, ht1, ht0.table, ht1.table
      ensures Inv() && (Model(), ok) == Dict.Delete(hash, old(Model()), key) && Grown()
    {
      hide Valid, MaybeStep, Same, Lookup, StepWild;
      if ht0.size == 0 { return false; }
      Step();
      ok := Unchain(key);
    }

    /** Unlinks the entry `Search` finds. */
    method Unchain(key: Key) returns (ok: bool)
      requires Inv() && ht0.size > 0
      modifies ht0`used, ht1`used, ht0.table, ht1.table
      ensures Inv() && Model() == Unlink(hash, old(Model()), key) && ok == Lookup(hash, old(Model()), key).Some?
    {
      hide Valid, Same, Pow2, Mask, Log2, FindIn, Remove;
      UnlinkEffect(hash, Model(), key);
      BothCounted(hash, Model(), key);
      var found, t, i, j := Search(key);
      if found.None? { return false; }
      if t == 0 {
        ht0.Drop(i, j);
      } else {
        ht1.Drop(i, j);
      }
      ok := true;
    }
  }

  /** The larger table's part of a scan call: `v` runs over the expansions of the cursor. */
  method EmitExpansions(t: HashTable, v0: Word, m0: Word, ghost k0: nat) returns (v: Word, emitted: seq<Entry>)
    requires t.Shape() && t.size > 0 && k0 <= t.Model().k && m0 == Mask(k0, WIDTH)
    ensures emitted == Scan.EmitLarge(t.Model(), v0, k0) && v[..k0] == v0[..k0]
  {
    hide Pow2, Scan.ExpandRound, Scan.GoesOn;
    ghost var k1 := t.Model().k;
    var m1 := t.sizemask;
    v, emitted := v0, [];
    var more := true;
    while more
      invariant v[..k0] == v0[..k0]
      invariant emitted + (if more then Scan.EmitLarge(t.Model(), v, k0) else []) == Scan.EmitLarge(t.Model(), v0, k0)
      decreases more, Pow2(k1 - k0) - Value(v[k0..k1])
    {
      var i := t.Index(v);
      EmitUnfolds(t.Model(), v, k0);
      Scan.MidStep(v, k0, k1);
      emitted := emitted + t.table[i];
      v, more := NextExpansion(v, m0, m1, k0, k1);
    }
  }

  method NextExpansion(v: Word, m0: Word, m1: Word, ghost k0: nat, ghost k1: nat) returns (v': Word, more: bool)
    requires k0 <= k1 <= WIDTH && m0 == Mask(k0, WIDTH) && m1 == Mask(k1, WIDTH)
    ensures v' == Scan.ExpandRound(v, k0) && more == Scan.GoesOn(v', k0, k1)
  {
    v' := Or(And(Inc(Or(v, m0)), Not(m0)), And(v, m0));
    more := !IsZero(And(v', Xor(m0, m1)));
  }

  lemma EmitUnfolds(t: Table, v: Word, k0: nat)
    requires SizedTable(t) && k0 <= t.k
    ensures var v' := Scan.ExpandRound(v, k0);
            Scan.EmitLarge(t, v, k0)
            == t.buckets[BucketOf(v, t.k)] + (if Scan.GoesOn(v', k0, t.k) then Scan.EmitLarge(t, v', k0) else [])
  {}

  /** `dictScan`. */
  method DictScan(d: RedisDict, v0: Word) returns (v: Word, emitted: seq<Entry>)
    requires d.Inv()
    ensures (v, emitted) == Scan.ScanCall(d.hash, d.Model(), v0)
  {
    hide Scan.EmitLarge, Scan.Advance, Pow2, Same, FindIn, ValidTable;
    emitted := [];
    if d.ht0.used + d.ht1.used == 0 { return Zeros(WIDTH), []; }
    v := v0;
    var m0: Word;
    ghost var k0: nat;
    Scan.NonEmptyHasTable(d.hash, d.Model());
    if d.rehashidx == -1 {
      m0, k0 := d.ht0.sizemask, d.ht0.Model().k;
      var i := d.ht0.Index(v);
      emitted := d.ht0.table[i];
    } else {
      Scan.SmallAndLarge(d.hash, d.Model());
      var t0, t1 := d.ht0, d.ht1;
      if t0.size > t1.size { t0, t1 := d.ht1, d.ht0; }
      m0, k0 := t0.sizemask, t0.Model().k;
      var i := t0.Index(v);
      emitted := t0.table[i];
      var more;
      v, more := EmitExpansions(t1, v, m0, k0);
      emitted := emitted + more;
    }
    v := ReverseIncrement(v, m0, k0);
    Scan.AdvanceIs(v0, k0);
  }

  /** The end of `dictScan`: only the masked bits matter. */
  method ReverseIncrement(v: Word, m0: Word, ghost k0: nat) returns (r: Word)
    requires k0 <= WIDTH && m0 == Mask(k0, WIDTH)
    ensures r == Scan.Next(v[..k0]) + Zeros(WIDTH - k0)
  {
    Scan.AdvanceIs(v, k0);
    r := Or(v, Not(m0));
    r := Rev(r);
    r := Inc(r);
    r := Rev(r);
  }

  /** In `dictReplace`, a key that could not be added is found by the second search. */
  lemma ReplaceFinds(hash: Hash, d: DictState, e: Entry, canResize: bool)
    requires Valid(hash, d) && Fits(d) && !Misread(hash, d, e.key, canResize)
    ensures var (d1, added) := Dict.Add(hash, d, e, canResize);
            Valid(hash, d1) && (!added ==> Lookup(hash, MaybeStep(hash, d1), e.key).Some?)
  {
    AddEffect(hash, d, e, canResize);
    var (d1, added) := Dict.Add(hash, d, e, canResize);
    assert Lookup(hash, MaybeStep(hash, d1), e.key) == Lookup(hash, d1, e.key);
    if !added { assert Lookup(hash, d1, e.key) == Lookup(hash, d, e.key); }
  }

  lemma BothCounted(hash: Hash, d: DictState, key: Key)
    requires Valid(hash, d)
    ensures FindIn(hash, d.ht0, key).Some? ==> d.ht0.Table? && d.ht0.used > 0
    ensures FindIn(hash, d.ht1, key).Some? ==> d.ht1.Table? && d.ht1.used > 0
  {
    FoundIsCounted(hash, d.ht0, key);
    FoundIsCounted(hash, d.ht1, key);
  }

  lemma StepCounts(hash: Hash, d: DictState)
    requires Valid(hash, d)
    ensures Count(MaybeStep(hash, d)) == Count(d)
  {}

  lemma RehashingModel(hash: Hash, d: DictState)
    requires Valid(hash, d)
    ensures Rehashing(d) ==> d.ht0.Table? && d.ht1.Table?
  {}

  lemma RehashUnfolds(hash: Hash, d: DictState, n: nat)
    requires Valid(hash, d)
    ensures Dict.Rehash(hash, d, n)
            == if n == 0 || !Rehashing(d) then d else Dict.Rehash(hash, RehashStep(hash, d), n - 1)
  {}

  lemma WildUnfolds(hash: Hash, d: DictState, n: nat)
    requires Valid(hash, d)
    ensures RehashWild(hash, d, n)
            <==> n > 0 && Rehashing(d) && (StepWild(d) || RehashWild(hash, RehashStep(hash, d), n - 1))
    ensures !RehashWild(hash, d, 0)
  {}

  lemma SkipIs(b: seq<Chain>, i: nat, j: nat)
    requires i <= j < |b| && j <= SkipEmpty(b, i) && b[j] != []
    ensures j == SkipEmpty(b, i)
  {}

  lemma RehashingTables(hash: Hash, d: DictState)
    requires Valid(hash, d) && Rehashing(d)
    ensures d.ht0.Table? && d.ht1.Table? && 0 <= d.rehashidx <= |d.ht0.buckets|
  {}

  /** One entry of the bucket being moved, or the end of the bucket. */
  lemma MoveRound(hash: Hash, s: DictState)
    requires Valid(hash, s) && Rehashing(s) && s.rehashidx < |s.ht0.buckets|
    ensures s.ht0.Table? && s.ht1.Table? && 0 <= s.rehashidx
    ensures var c := s.ht0.buckets[s.rehashidx];
            if c == [] then Dict.MoveBucket(hash, s) == s.(rehashidx := s.rehashidx + 1)
            else && CanMove(s) && Valid(hash, MoveHead(hash, s)) && s.ht0.used > 0
                 && MoveHead(hash, s) == s.(ht0 := Table(s.ht0.k, s.ht0.buckets[s.rehashidx := c[1..]], s.ht0.used - 1),
                                           ht1 := Insert(hash, s.ht1, c[0]))
                 && Dict.MoveBucket(hash, s) == Dict.MoveBucket(hash, MoveHead(hash, s))
  {
    hide Valid;
    RehashingTables(hash, s);
    if s.ht0.buckets[s.rehashidx] != [] {
      CanMoveHere(hash, s);
      MoveHeadKeeps(hash, s);
      assert [] + s.ht0.buckets[s.rehashidx][1..] == s.ht0.buckets[s.rehashidx][1..];
    }
  }

  lemma CanMoveHere(hash: Hash, s: DictState)
    requires Valid(hash, s) && Rehashing(s) && s.rehashidx < |s.ht0.buckets| && s.ht0.buckets[s.rehashidx] != []
    ensures CanMove(s)
  {
    TotalAtLeast(s.ht0.buckets, s.rehashidx);
  }

  lemma IteratorsAreFree(hash: Hash, d: DictState, n: nat)
    requires Valid(hash, d)
    ensures Valid(hash, d.(iterators := n))
  {}

  lemma SeekUnfolds(d: DictState, t: nat, i: nat)
    ensures SI.Seek(d, t, i)
            == if i >= ToInt(Size(SI.TableAt(d, t))) then
                 if Rehashing(d) && t == 0 then SI.Visit(d, 1, 0) else (SI.Iter(t, i, None, None), None)
               else SI.Visit(d, t, i)
  {}

  lemma VisitUnfolds(d: DictState, t: nat, i: nat)
    ensures SI.Visit(d, t, i)
            == var c := SI.Bucket(d, t, i);
               if c != [] then (SI.Iter(t, i, Some(c[0].key), SI.KeyAt(c, 1)), Some(c[0]))
               else if i < Size(SI.TableAt(d, t)) then SI.Seek(d, t, i + 1)
               else (SI.Iter(t, i, None, None), None)
  {}

  lemma {:induction false} SeekIgnoresIterators(d: DictState, n: nat, t: nat, i: nat)
    ensures SI.Seek(d.(iterators := n), t, i) == SI.Seek(d, t, i)
    decreases 1 - t, Size(SI.TableAt(d, t)) - i, 1
  {
    if i >= ToInt(Size(SI.TableAt(d, t))) {
      if Rehashing(d) && t == 0 { VisitIgnoresIterators(d, n, 1, 0); }
    } else {
      VisitIgnoresIterators(d, n, t, i);
    }
  }

  lemma {:induction false} VisitIgnoresIterators(d: DictState, n: nat, t: nat, i: nat)
    ensures SI.Visit(d.(iterators := n), t, i) == SI.Visit(d, t, i)
    decreases 1 - t, Size(SI.TableAt(d, t)) - i, 0
  {
    if SI.Bucket(d, t, i) == [] && i < Size(SI.TableAt(d, t)) { SeekIgnoresIterators(d, n, t, i + 1); }
  }

  lemma FirstIndex(c: Chain)
    requires c != []
    ensures IndexOf(c, c[0].key) == 0
  {}

  /** `dictIterator`, safe. A pointer to an entry is modelled by the entry's key. */
  class DictIterator {
    const d: RedisDict
    var table: nat
    var index: int
    var entry: Option<Key>
    var nextEntry: Option<Key>

    ghost function Model(): SI.Iter
      reads this
    {
      SI.Iter(table, index, entry, nextEntry)
    }

    /** `dictGetSafeIterator`. */
    constructor (d: RedisDict)
      ensures this.d == d && Model() == SI.FRESH
    {
      this.d := d;
      table, index, entry, nextEntry := 0, -1, None, None;
    }

    /** The chain at the iterator's bucket. */
    method Current() returns (c: Chain)
      requires d.Inv() && table <= 1 && 0 <= index < (if table == 0 then d.ht0 else d.ht1).size
      ensures c == SI.Bucket(d.Model(), table, index)
    {
      c := if table == 0 then d.ht0.table[index] else d.ht1.table[index];
    }

    /** Returns the entry with the given key and saves the pointer to the one after it. */
    method Visit(key: Key) returns (r: Option<Entry>)
      requires d.Inv() && table <= 1 && 0 <= index < (if table == 0 then d.ht0 else d.ht1).size
      requires HasKey(SI.Bucket(d.Model(), table, index), key)
      modifies this`entry, this`nextEntry
      ensures var c := SI.Bucket(d.Model(), table, index);
              var j := IndexOf(c, key);
              r == Some(c[j]) && entry == Some(key) && nextEntry == SI.KeyAt(c, j + 1)
    {
      var c := Current();
      var j := Walk(c, key);
      entry := Some(key);
      nextEntry := if j + 1 < |c| then Some(c[j + 1].key) else None;
      r := Some(c[j]);
    }

    /** The table the iterator is in. */
    function Table(): HashTable
      reads this, d
    {
      if table == 0 then d.ht0 else d.ht1
    }

    /** One round of the loop, up to the bucket it looks at; `ends` when there is none left. */
    method Advance() returns (ends: bool)
      requires d.Inv() && table <= 1 && index >= -1 && (table == 1 ==> d.rehashidx != -1)
      modifies this`table, this`index
      ensures table <= 1 && old(table) <= table && index >= 0 && (table == 1 ==> d.rehashidx != -1)
      ensures table == old(table) ==> index == old(index) + 1
      ensures if ends then SI.Seek(d.Model(), old(table), old(index) + 1) == (SI.Iter(table, index, None, None), None)
              else index < Table().size
                   && SI.Seek(d.Model(), old(table), old(index) + 1) == SI.Visit(d.Model(), table, index)
    {
      hide Valid, Same, Pow2, Mask, Log2, SI.Seek, SI.Visit;
      SeekUnfolds(d.Model(), table, index + 1);
      RehashingModel(d.hash, d.Model());
      SizesAre();
      index := index + 1;
      ends := false;
      if index >= ToInt(Table().size) {
        if d.rehashidx != -1 && table == 0 {
          table, index := 1, 0;
        } else {
          ends := true;
        }
      }
    }

    lemma SizesAre()
      requires d.Inv()
      ensures Size(SI.TableAt(d.Model(), 0)) == d.ht0.size && Size(SI.TableAt(d.Model(), 1)) == d.ht1.size
      ensures Rehashing(d.Model()) ==> d.ht1.size > 0
    {
    }

    /** The loop of `dictNext` while `entry` is NULL. */
    method Seek() returns (r: Option<Entry>)
      requires d.Inv() && table <= 1 && index >= -1 && (table == 1 ==> d.rehashidx != -1)
      modifies this
      ensures (Model(), r) == SI.Seek(d.Model(), old(table), old(index) + 1)
    {
      hide Valid, Same, Pow2, Mask, Log2, SI.Seek, SI.Visit, RedisDict.Inv;
      ghost var m := d.Model();
      entry, nextEntry := None, None;
      while true
        invariant entry == None && nextEntry == None && table <= 1 && index >= -1 && (table == 1 ==> d.rehashidx != -1)
        invariant SI.Seek(m, table, index + 1) == SI.Seek(m, old(table), old(index) + 1)
        decreases 1 - table, Table().size - index
      {
        var ends := Advance();
        if ends { return None; }
        VisitUnfolds(m, table, index);
        SizesAre();
        var c := Current();
        if c != [] {
          FirstIndex(c);
          r := Visit(c[0].key);
          return;
        }
      }
    }

    /** `dictNext`. */
    method Next() returns (r: Option<Entry>)
      requires d.Inv() && SI.IterValid(d.Model(), Model())
      modifies this, d`iterators
      ensures d.Inv() && (d.Model(), Model(), r) == SI.NextEntry(old(d.Model()), old(Model()))
    {
      hide Valid, Same, Pow2, Mask, Log2, SI.Seek;
      if entry.Some? && nextEntry.Some? {
        r := Visit(nextEntry.value);
      } else {
        ghost var m := d.Model();
        IteratorsAreFree(d.hash, m, d.iterators + 1);
        SeekIgnoresIterators(m, d.iterators + 1, table, index + 1);
        if entry.None? && index == -1 && table == 0 {
          d.iterators := d.iterators + 1;
        }
        r := Seek();
      }
    }
  }
}
