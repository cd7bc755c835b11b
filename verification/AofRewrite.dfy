/** The dataset, what commands do to it, and the commands `rewriteAppendOnlyFile` emits to rebuild it. */
module AofRewrite {
  import opened AofLog

  /** A score is the text it is logged as. */
  datatype Value =
    | Str(s: Bytes)
    | List(items: seq<Bytes>)
    | Set(members: set<Bytes>)
    | Hash(fields: map<Bytes, Bytes>)
    | ZSet(scores: map<Bytes, Bytes>)
  type Db = map<Bytes, Value>

  /** The databases, and the one the client reading the log has selected. */
  datatype Replica = Replica(dbs: seq<Db>, selected: nat)

  /** The effect of any command that the rewrite does not emit is a parameter: some function of all databases
      and the number of the selected one (FLUSHALL and MOVE change others than that one). */
  type Effect = (seq<Db>, nat, Command) -> seq<Db>

  const SELECT: Bytes := [83, 69, 76, 69, 67, 84]
  const SET: Bytes := [83, 69, 84]
  const RPUSH: Bytes := [82, 80, 85, 83, 72]
  const SADD: Bytes := [83, 65, 68, 68]
  const HMSET: Bytes := [72, 77, 83, 69, 84]
  const ZADD: Bytes := [90, 65, 68, 68]

  predicate Named(argv: Command, name: Bytes) { argv != [] && LowerCase(argv[0]) == LowerCase(name) }

  function SetOf(s: seq<Bytes>): set<Bytes> { set x | x in s }

  /** Assigns fields pairwise; a field without a value is dropped. */
  function Assign(m: map<Bytes, Bytes>, fv: seq<Bytes>): map<Bytes, Bytes>
    decreases |fv|
  {
    if |fv| < 2 then m else Assign(m[fv[0] := fv[1]], fv[2..])
  }

  /** The same with every score before its member. */
  function Rank(m: map<Bytes, Bytes>, sm: seq<Bytes>): map<Bytes, Bytes>
    decreases |sm|
  {
    if |sm| < 2 then m else Rank(m[sm[1] := sm[0]], sm[2..])
  }

  /** The commands a rewrite emits, apart from SELECT. */
  predicate Emitted(argv: Command) {
    || (Named(argv, SET) && |argv| == 3)
    || (Named(argv, RPUSH) && |argv| >= 3)
    || (Named(argv, SADD) && |argv| >= 3)
    || (Named(argv, HMSET) && |argv| >= 4 && |argv| % 2 == 0)
    || (Named(argv, ZADD) && |argv| >= 4 && |argv| % 2 == 0)
  }

  /** Such a command on one database. */
  function ExecIn(db: Db, argv: Command): Db {
    if Named(argv, SET) && |argv| == 3 then db[argv[1] := Str(argv[2])]
    else if Named(argv, RPUSH) && |argv| >= 3 then
      if argv[1] !in db then db[argv[1] := List(argv[2..])]
      else if db[argv[1]].List? then db[argv[1] := List(db[argv[1]].items + argv[2..])]
      else db
    else if Named(argv, SADD) && |argv| >= 3 then
      if argv[1] !in db then db[argv[1] := Set(SetOf(argv[2..]))]
      else if db[argv[1]].Set? then db[argv[1] := Set(db[argv[1]].members + SetOf(argv[2..]))]
      else db
    else if Named(argv, HMSET) && |argv| >= 4 && |argv| % 2 == 0 then
      if argv[1] !in db then db[argv[1] := Hash(Assign(map[], argv[2..]))]
      else if db[argv[1]].Hash? then db[argv[1] := Hash(Assign(db[argv[1]].fields, argv[2..]))]
      else db
    else if Named(argv, ZADD) && |argv| >= 4 && |argv| % 2 == 0 then
      if argv[1] !in db then db[argv[1] := ZSet(Rank(map[], argv[2..]))]
      else if db[argv[1]].ZSet? then db[argv[1] := ZSet(Rank(db[argv[1]].scores, argv[2..]))]
      else db
    else db
  }

  /** A command other than SELECT, with database `j` selected; the number of databases is fixed. */
  function ExecOn(other: Effect, dbs: seq<Db>, j: nat, argv: Command): (r: seq<Db>)
    requires j < |dbs|
    ensures |r| == |dbs|
  {
    if Emitted(argv) then dbs[j := ExecIn(dbs[j], argv)]
    else
      var r := other(dbs, j, argv);
      if |r| == |dbs| then r else dbs
  }

  /** A command read from the log. */
  function Exec(other: Effect, r: Replica, argv: Command): Replica {
    if Named(argv, SELECT) then
      if |argv| == 2 && 0 <= ParseNumber(argv[1]) < |r.dbs| then r.(selected := ParseNumber(argv[1])) else r
    else if r.selected < |r.dbs| then
      r.(dbs := ExecOn(other, r.dbs, r.selected, argv))
    else r
  }

  function Replay(other: Effect, r: Replica, log: seq<Command>): Replica
    decreases |log|
  {
    if log == [] then r else Replay(other, Exec(other, r, log[0]), log[1..])
  }

  lemma {:induction false} ReplayAppend(other: Effect, r: Replica, a: seq<Command>, b: seq<Command>)
    ensures Replay(other, r, a + b) == Replay(other, Replay(other, r, a), b)
    decreases |a|
  {
    if a == [] {
      assert a + b == b;
    } else {
      ReplayAppend(other, Exec(other, r, a[0]), a[1..], b);
      assert (a + b)[1..] == a[1..] + b;
    }
  }

  // ---- The commands of a rewrite ----

  const ITEMS_PER_CMD: nat := 64 // REDIS_AOF_REWRITE_ITEMS_PER_CMD

  /** An object as the rewrite meets it: the elements in the order the iterators visit them. */
  datatype Object =
    | OStr(s: Bytes)
    | OList(items: seq<Bytes>)
    | OSet(elems: seq<Bytes>)
    | OHash(pairs: seq<Bytes>)
    | OZSet(ranked: seq<Bytes>)

  function Meaning(o: Object): Value {
    match o
    case OStr(s) => Str(s)
    case OList(items) => List(items)
    case OSet(elems) => Set(SetOf(elems))
    case OHash(pairs) => Hash(Assign(map[], pairs))
    case OZSet(ranked) => ZSet(Rank(map[], ranked))
  }

  /** Redis never stores an empty aggregate; fields and values, and scores and members, come in pairs. */
  predicate WellFormed(o: Object) {
    match o
    case OStr(_) => true
    case OList(items) => items != []
    case OSet(elems) => elems != []
    case OHash(pairs) => pairs != [] && |pairs| % 2 == 0
    case OZSet(ranked) => ranked != [] && |ranked| % 2 == 0
  }

  function Min(a: nat, b: nat): nat { if a < b then a else b }

  /** Commands of at most `per` elements each. */
  function Batches(name: Bytes, key: Bytes, elems: seq<Bytes>, per: nat): seq<Command>
    requires per > 0
    decreases |elems|
  {
    if elems == [] then []
    else var n := Min(per, |elems|); [[name, key] + elems[..n]] + Batches(name, key, elems[n..], per)
  }

  function RewriteObject(key: Bytes, o: Object): seq<Command> {
    match o
    case OStr(s) => [[SET, key, s]]
    case OList(items) => Batches(RPUSH, key, items, ITEMS_PER_CMD)
    case OSet(elems) => Batches(SADD, key, elems, ITEMS_PER_CMD)
    case OHash(pairs) => Batches(HMSET, key, pairs, 2 * ITEMS_PER_CMD)
    case OZSet(ranked) => Batches(ZADD, key, ranked, 2 * ITEMS_PER_CMD)
  }

  /** One database as the safe iterator visits it. */
  type Listing = seq<(Bytes, Object)>

  function RewriteDb(l: Listing): seq<Command> {
    if l == [] then [] else RewriteObject(l[0].0, l[0].1) + RewriteDb(l[1..])
  }

  /** The databases from number `j` on; empty ones are skipped. */
  function RewriteFrom(ls: seq<Listing>, j: nat): seq<Command>
    decreases |ls| - j
  {
    if j >= |ls| then []
    else (if ls[j] == [] then [] else [[SELECT, Decimal(j)]] + RewriteDb(ls[j])) + RewriteFrom(ls, j + 1)
  }

  function DescribedOnto(db: Db, l: Listing): Db
    decreases |l|
  {
    if l == [] then db else DescribedOnto(db[l[0].0 := Meaning(l[0].1)], l[1..])
  }

  /** The database a listing describes. */
  function Described(l: Listing): Db { DescribedOnto(map[], l) }

  /** Each key is listed once, with an object that may be stored. */
  predicate Listed(l: Listing) {
    && (forall i :: 0 <= i < |l| ==> WellFormed(l[i].1))
    && (forall i, j :: 0 <= i < j < |l| ==> l[i].0 != l[j].0)
  }

  // ---- Replaying the rewrite rebuilds the dataset ----

  /** The names are told apart by case-insensitive comparison. */
  lemma NamesDiffer()
    ensures !Named([RPUSH], SET) && !Named([SADD], SET) && !Named([SADD], RPUSH)
    ensures !Named([HMSET], SET) && !Named([HMSET], RPUSH) && !Named([HMSET], SADD)
    ensures !Named([ZADD], SET) && !Named([ZADD], RPUSH) && !Named([ZADD], SADD) && !Named([ZADD], HMSET)
    ensures !Named([SET], SELECT) && !Named([RPUSH], SELECT) && !Named([SADD], SELECT) && !Named([HMSET], SELECT)
    ensures !Named([ZADD], SELECT)
  {
    assert |LowerCase(ZADD)| == 4 && LowerCase(ZADD)[0] == 122 && LowerCase(SADD)[0] == 115;
    assert |LowerCase(SET)| == 3 && |LowerCase(RPUSH)| == 5 && |LowerCase(SADD)| == 4 && |LowerCase(HMSET)| == 5;
    assert |LowerCase(SELECT)| == 6;
    assert LowerCase(HMSET)[0] == 104 && LowerCase(RPUSH)[0] == 114;
  }

  /** What a batch adds to the value under its key. */
  function Extend(v: Value, elems: seq<Bytes>): Value {
    match v
    case List(items) => List(items + elems)
    case Set(members) => Set(members + SetOf(elems))
    case Hash(fields) => Hash(Assign(fields, elems))
    case ZSet(scores) => ZSet(Rank(scores, elems))
    case Str(_) => v
  }

  function Blank(name: Bytes): Value {
    if name == RPUSH then List([]) else if name == SADD then Set({}) else if name == HMSET then Hash(map[])
    else ZSet(map[])
  }

  predicate SameKind(v: Value, w: Value) {
    (v.List? && w.List?) || (v.Set? && w.Set?) || (v.Hash? && w.Hash?) || (v.ZSet? && w.ZSet?)
  }

  predicate BatchName(name: Bytes, per: nat) {
    || (name == RPUSH && per == ITEMS_PER_CMD)
    || (name == SADD && per == ITEMS_PER_CMD)
    || (name == HMSET && per == 2 * ITEMS_PER_CMD)
    || (name == ZADD && per == 2 * ITEMS_PER_CMD)
  }

  predicate InPairs(name: Bytes) { name == HMSET || name == ZADD }

  function Current(db: Db, name: Bytes, key: Bytes): Value { if key in db then db[key] else Blank(name) }

  lemma BatchExec(db: Db, name: Bytes, key: Bytes, elems: seq<Bytes>, per: nat)
    requires BatchName(name, per) && elems != [] && (InPairs(name) ==> |elems| % 2 == 0)
    requires SameKind(Current(db, name, key), Blank(name))
    ensures ExecIn(db, [name, key] + elems) == db[key := Extend(Current(db, name, key), elems)]
    ensures Emitted([name, key] + elems) && !Named([name, key] + elems, SELECT)
  {
    var argv := [name, key] + elems;
    NamesDiffer();
    assert argv[0] == name && argv[1] == key && argv[2..] == elems;
    assert [] + elems == elems && {} + SetOf(elems) == SetOf(elems);
  }

  lemma {:induction false} AssignAppend(m: map<Bytes, Bytes>, a: seq<Bytes>, b: seq<Bytes>)
    requires |a| % 2 == 0
    ensures Assign(m, a + b) == Assign(Assign(m, a), b)
    decreases |a|
  {
    if a == [] {
      assert a + b == b;
    } else {
      AssignAppend(m[a[0] := a[1]], a[2..], b);
      assert (a + b)[2..] == a[2..] + b;
    }
  }

  lemma {:induction false} RankAppend(m: map<Bytes, Bytes>, a: seq<Bytes>, b: seq<Bytes>)
    requires |a| % 2 == 0
    ensures Rank(m, a + b) == Rank(Rank(m, a), b)
    decreases |a|
  {
    if a == [] {
      assert a + b == b;
    } else {
      RankAppend(m[a[1] := a[0]], a[2..], b);
      assert (a + b)[2..] == a[2..] + b;
    }
  }

  lemma ExtendAppend(v: Value, a: seq<Bytes>, b: seq<Bytes>)
    requires v.Hash? || v.ZSet? ==> |a| % 2 == 0
    ensures Extend(Extend(v, a), b) == Extend(v, a + b)
  {
    match v
    case List(items) => assert items + a + b == items + (a + b);
    case Set(members) => assert members + SetOf(a) + SetOf(b) == members + SetOf(a + b);
    case Hash(fields) => AssignAppend(fields, a, b);
    case ZSet(scores) => RankAppend(scores, a, b);
    case Str(_) =>
  }

  /** Commands on one database. */
  function ReplayIn(db: Db, log: seq<Command>): Db
    decreases |log|
  {
    if log == [] then db else ReplayIn(ExecIn(db, log[0]), log[1..])
  }

  predicate AllEmitted(log: seq<Command>) {
    forall i :: 0 <= i < |log| ==> Emitted(log[i]) && !Named(log[i], SELECT)
  }

  lemma {:induction false} ReplayStaysIn(other: Effect, r: Replica, log: seq<Command>)
    requires r.selected < |r.dbs| && AllEmitted(log)
    ensures Replay(other, r, log) == r.(dbs := r.dbs[r.selected := ReplayIn(r.dbs[r.selected], log)])
    decreases |log|
  {
    if log == [] {
      assert r.dbs[r.selected := r.dbs[r.selected]] == r.dbs;
    } else {
      var r' := Exec(other, r, log[0]);
      ReplayStaysIn(other, r', log[1..]);
      var db := ReplayIn(r'.dbs[r.selected], log[1..]);
      assert r'.dbs[r.selected := db] == r.dbs[r.selected := db];
    }
  }

  lemma BatchesUnfold(db: Db, name: Bytes, key: Bytes, elems: seq<Bytes>, per: nat)
    requires per > 0
    ensures ReplayIn(db, Batches(name, key, elems, per))
            == if elems == [] then db
               else var n := Min(per, |elems|);
                    ReplayIn(ExecIn(db, [name, key] + elems[..n]), Batches(name, key, elems[n..], per))
  {
    hide ExecIn;
    if elems != [] {
      var n := Min(per, |elems|);
      assert Batches(name, key, elems, per)[1..] == Batches(name, key, elems[n..], per);
    }
  }

  lemma ExtendKind(v: Value, w: Value, elems: seq<Bytes>)
    requires SameKind(v, w)
    ensures SameKind(Extend(v, elems), w) && (v.Hash? <==> w.Hash?) && (v.ZSet? <==> w.ZSet?)
  {}

  lemma {:induction false} BatchesEmitted(name: Bytes, key: Bytes, elems: seq<Bytes>, per: nat)
    requires BatchName(name, per) && (InPairs(name) ==> |elems| % 2 == 0)
    ensures AllEmitted(Batches(name, key, elems, per))
    decreases |elems|
  {
    hide Named, Emitted, ExecIn, Extend;
    if elems != [] {
      var n := Min(per, |elems|);
      BatchExec(map[], name, key, elems[..n], per);
      BatchesEmitted(name, key, elems[n..], per);
    }
  }

  /** However the elements are split into batches, replaying the batches adds all of them. */
  lemma {:induction false} BatchesReplay(db: Db, name: Bytes, key: Bytes, elems: seq<Bytes>, per: nat)
    requires BatchName(name, per) && (InPairs(name) ==> |elems| % 2 == 0)
    requires SameKind(Current(db, name, key), Blank(name))
    ensures ReplayIn(db, Batches(name, key, elems, per))
            == if elems == [] then db else db[key := Extend(Current(db, name, key), elems)]
    decreases |elems|
  {
    hide ExecIn, Named, Extend, ReplayIn, Emitted, Batches;
    BatchesUnfold(db, name, key, elems, per);
    if elems != [] {
      var n := Min(per, |elems|);
      var v := Current(db, name, key);
      var db' := db[key := Extend(v, elems[..n])];
      BatchExec(db, name, key, elems[..n], per);
      ExtendKind(v, Blank(name), elems[..n]);
      BatchesReplay(db', name, key, elems[n..], per);
      ExtendAppend(v, elems[..n], elems[n..]);
      assert elems[..n] + elems[n..] == elems;
      assert elems[n..] == [] ==> elems[..n] == elems;
    }
  }

  lemma ObjectReplay(db: Db, key: Bytes, o: Object)
    requires key !in db && WellFormed(o)
    ensures AllEmitted(RewriteObject(key, o))
    ensures ReplayIn(db, RewriteObject(key, o)) == db[key := Meaning(o)]
  {
    NamesDiffer();
    match o
    case OStr(s) =>
      assert ReplayIn(db, [[SET, key, s]]) == ExecIn(db, [SET, key, s]);
    case OList(items) =>
      BatchesEmitted(RPUSH, key, items, ITEMS_PER_CMD);
      BatchesReplay(db, RPUSH, key, items, ITEMS_PER_CMD);
      assert [] + items == items;
    case OSet(elems) =>
      BatchesEmitted(SADD, key, elems, ITEMS_PER_CMD);
      BatchesReplay(db, SADD, key, elems, ITEMS_PER_CMD);
      assert {} + SetOf(elems) == SetOf(elems);
    case OHash(pairs) =>
      BatchesEmitted(HMSET, key, pairs, 2 * ITEMS_PER_CMD);
      BatchesReplay(db, HMSET, key, pairs, 2 * ITEMS_PER_CMD);
    case OZSet(ranked) =>
      BatchesEmitted(ZADD, key, ranked, 2 * ITEMS_PER_CMD);
      BatchesReplay(db, ZADD, key, ranked, 2 * ITEMS_PER_CMD);
  }

  lemma {:induction false} ReplayInAppend(db: Db, a: seq<Command>, b: seq<Command>)
    ensures ReplayIn(db, a + b) == ReplayIn(ReplayIn(db, a), b)
    decreases |a|
  {
    if a == [] {
      assert a + b == b;
    } else {
      ReplayInAppend(ExecIn(db, a[0]), a[1..], b);
      assert (a + b)[1..] == a[1..] + b;
    }
  }

  lemma {:induction false} DbReplay(db: Db, l: Listing)
    requires Listed(l) && forall i :: 0 <= i < |l| ==> l[i].0 !in db
    ensures AllEmitted(RewriteDb(l))
    ensures ReplayIn(db, RewriteDb(l)) == DescribedOnto(db, l)
    decreases |l|
  {
    if l != [] {
      var (key, o) := l[0];
      ObjectReplay(db, key, o);
      ReplayInAppend(db, RewriteObject(key, o), RewriteDb(l[1..]));
      DbReplay(db[key := Meaning(o)], l[1..]);
    }
  }

  /** The databases below `j` are as described, and the others are still empty. */
  predicate Rebuilt(dbs: seq<Db>, ls: seq<Listing>, j: nat) {
    |dbs| == |ls| && forall i :: 0 <= i < |dbs| ==> dbs[i] == if i < j then Described(ls[i]) else map[]
  }

  lemma SelectExec(other: Effect, r: Replica, j: nat)
    requires j < |r.dbs|
    ensures Exec(other, r, [SELECT, Decimal(j)]) == r.(selected := j)
  {
    DecimalParses(j, []);
    assert Decimal(j) + [] == Decimal(j);
  }

  lemma {:induction false} RewriteReplay(other: Effect, r: Replica, ls: seq<Listing>, j: nat)
    requires Rebuilt(r.dbs, ls, j) && j <= |ls|
    requires forall i :: 0 <= i < |ls| ==> Listed(ls[i])
    ensures Rebuilt(Replay(other, r, RewriteFrom(ls, j)).dbs, ls, |ls|)
    decreases |ls| - j
  {
    hide Rebuilt, Replay, RewriteDb, Listed, Decimal;
    if j < |ls| {
      if ls[j] == [] {
        assert [] + RewriteFrom(ls, j + 1) == RewriteFrom(ls, j + 1);
        SkipsEmpty(r.dbs, ls, j);
        RewriteReplay(other, r, ls, j + 1);
      } else {
        var first := [[SELECT, Decimal(j)]] + RewriteDb(ls[j]);
        OneRebuilt(other, r, ls, j);
        ReplayAppend(other, r, first, RewriteFrom(ls, j + 1));
        RewriteReplay(other, Replay(other, r, first), ls, j + 1);
      }
    } else {
      assert Replay(other, r, []) == r by { NothingReplayed(other, r); }
    }
  }

  lemma NothingReplayed(other: Effect, r: Replica)
    ensures Replay(other, r, []) == r
  {
  }

  lemma SkipsEmpty(dbs: seq<Db>, ls: seq<Listing>, j: nat)
    requires Rebuilt(dbs, ls, j) && j < |ls| && ls[j] == []
    ensures Rebuilt(dbs, ls, j + 1)
  {
  }

  /** Replaying the commands of database `j` rebuilds it. */
  lemma OneRebuilt(other: Effect, r: Replica, ls: seq<Listing>, j: nat)
    requires Rebuilt(r.dbs, ls, j) && j < |ls| && Listed(ls[j])
    ensures Rebuilt(Replay(other, r, [[SELECT, Decimal(j)]] + RewriteDb(ls[j])).dbs, ls, j + 1)
  {
    hide RewriteDb, Listed, Decimal, Exec, ReplayIn, DescribedOnto;
    var r1 := r.(selected := j);
    SelectExec(other, r, j);
    DbReplay(map[], ls[j]);
    ReplayStaysIn(other, r1, RewriteDb(ls[j]));
    assert ([[SELECT, Decimal(j)]] + RewriteDb(ls[j]))[1..] == RewriteDb(ls[j]);
  }

  function EmptyReplica(n: nat): Replica { Replica(seq(n, i => map[]), 0) }

  /** Replaying the rewritten file from scratch rebuilds every database, whatever the iteration orders and
      whatever the number of elements per command. */
  lemma RewriteRebuilds(other: Effect, ls: seq<Listing>)
    requires forall i :: 0 <= i < |ls| ==> Listed(ls[i])
    ensures var r := Replay(other, EmptyReplica(|ls|), RewriteFrom(ls, 0));
            |r.dbs| == |ls| && forall i :: 0 <= i < |ls| ==> r.dbs[i] == Described(ls[i])
  {
    RewriteReplay(other, EmptyReplica(|ls|), ls, 0);
  }

  // ---- The loops that write the rewritten file ----

  lemma {:induction false} PrintAppend(a: seq<Command>, b: seq<Command>)
    ensures Print(a + b) == Print(a) + Print(b)
  {
    hide PrintCommand;
    if a == [] {
      assert a + b == b;
    } else {
      PrintAppend(a[1..], b);
      assert (a + b)[1..] == a[1..] + b;
      assert PrintCommand(a[0]) + (Print(a[1..]) + Print(b)) == Print(a) + Print(b);
    }
  }

  /** What remains to be written when `pending` elements complete the current command. */
  function Remaining(name: Bytes, key: Bytes, elems: seq<Bytes>, pending: nat, per: nat): Bytes
    requires per > 0 && pending <= |elems|
  {
    PrintArgs(elems[..pending]) + Print(Batches(name, key, elems[pending..], per))
  }

  /** Starting a command: the count, the name and the key. */
  lemma RemainingStarts(name: Bytes, key: Bytes, elems: seq<Bytes>, per: nat)
    requires per > 0 && elems != []
    ensures var n := Min(per, |elems|);
            Remaining(name, key, elems, 0, per)
            == PrintCount(STAR, 2 + n) + PrintArg(name) + PrintArg(key) + Remaining(name, key, elems, n, per)
  {
    hide PrintArg, PrintCount, Print, PrintArgs;
    var n := Min(per, |elems|);
    var argv := [name, key] + elems[..n];
    var more := Batches(name, key, elems[n..], per);
    assert elems[..0] == [] && elems[0..] == elems;
    assert Batches(name, key, elems, per) == [argv] + more;
    PrintFirst(argv, more);
    PrintHead(name, key, elems[..n]);
    assert PrintArgs([]) == [] by { NoArgs(); }
    var x, y, z := PrintCount(STAR, 2 + n) + PrintArg(name) + PrintArg(key), PrintArgs(elems[..n]), Print(more);
    assert PrintCount(STAR, |argv|) + (PrintArg(name) + (PrintArg(key) + y)) == x + y;
    assert x + y + z == x + (y + z);
    assert [] + (x + y + z) == x + y + z;
  }

  lemma PrintFirst(argv: Command, more: seq<Command>)
    ensures Print([argv] + more) == PrintCount(STAR, |argv|) + PrintArgs(argv) + Print(more)
  {
    hide PrintArg, PrintCount, PrintArgs;
    assert ([argv] + more)[1..] == more;
  }

  lemma PrintHead(name: Bytes, key: Bytes, rest: seq<Bytes>)
    ensures PrintArgs([name, key] + rest) == PrintArg(name) + (PrintArg(key) + PrintArgs(rest))
  {
    hide PrintArg;
    var argv := [name, key] + rest;
    assert argv[1..] == [key] + rest && ([key] + rest)[1..] == rest;
  }

  /** Writing one element of the current command. */
  lemma RemainingStep(name: Bytes, key: Bytes, elems: seq<Bytes>, pending: nat, per: nat)
    requires per > 0 && 0 < pending <= |elems|
    ensures Remaining(name, key, elems, pending, per)
            == PrintArg(elems[0]) + Remaining(name, key, elems[1..], pending - 1, per)
  {
    assert elems[..pending][1..] == elems[1..][..pending - 1];
    assert elems[pending..] == elems[1..][pending - 1..];
  }

  lemma RemainingAll(name: Bytes, key: Bytes, elems: seq<Bytes>, per: nat)
    requires per > 0
    ensures Remaining(name, key, elems, 0, per) == Print(Batches(name, key, elems, per))
    ensures Remaining(name, key, [], 0, per) == []
  {
    assert elems[..0] == [] && elems[0..] == elems;
  }

  /** The loop of `rewriteListObject`, `rewriteSetObject`, `rewriteHashObject` and `rewriteSortedSetObject`: a
      new command is begun whenever `count` is 0; an item is one bulk string, or two for a hash or sorted set. */
  method RewriteItems(out0: Bytes, name: Bytes, key: Bytes, elems: seq<Bytes>, paired: bool) returns (out: Bytes)
    requires paired ==> |elems| % 2 == 0
    ensures out == out0 + Print(Batches(name, key, elems, if paired then 2 * ITEMS_PER_CMD else ITEMS_PER_CMD))
  {
    hide PrintArg, PrintCount, Batches, Remaining;
    var width := if paired then 2 else 1;
    ghost var per := width * ITEMS_PER_CMD;
    out := out0;
    var count, items, i := 0, |elems| / width, 0;
    ghost var pending := 0;
    RemainingAll(name, key, elems, per);
    assert elems[0..] == elems;
    while items > 0
      invariant 0 <= i <= |elems| && |elems| - i == items * width && 0 <= count < ITEMS_PER_CMD
      invariant pending == if count == 0 then 0 else Min(per - count * width, |elems| - i)
      invariant out + Remaining(name, key, elems[i..], pending, per) == out0 + Remaining(name, key, elems, 0, per)
    {
      if count == 0 {
        var cmdItems := if items > ITEMS_PER_CMD then ITEMS_PER_CMD else items;
        RemainingStarts(name, key, elems[i..], per);
        out := out + PrintCount(STAR, 2 + cmdItems * width);
        out := out + PrintArg(name);
        out := out + PrintArg(key);
        pending := cmdItems * width;
      }
      RemainingStep(name, key, elems[i..], pending, per);
      assert elems[i..][1..] == elems[i + 1..];
      out := out + PrintArg(elems[i]);
      if paired {
        RemainingStep(name, key, elems[i + 1..], pending - 1, per);
        assert elems[i + 1..][1..] == elems[i + 2..];
        out := out + PrintArg(elems[i + 1]);
      }
      i, pending := i + width, pending - width;
      count := if count + 1 == ITEMS_PER_CMD then 0 else count + 1;
      items := items - 1;
    }
    assert elems[i..] == [];
  }

  /** The body of `rewriteAppendOnlyFile` for one key. */
  method RewriteEntry(out0: Bytes, key: Bytes, o: Object) returns (out: Bytes)
    requires WellFormed(o)
    ensures out == out0 + Print(RewriteObject(key, o))
  {
    hide Batches, PrintCommand;
    match o
    case OStr(s) =>
      out := CatCommand(out0, [SET, key, s]);
      assert Print([[SET, key, s]]) == PrintCommand([SET, key, s]) + Print([]);
    case OList(items) => out := RewriteItems(out0, RPUSH, key, items, false);
    case OSet(elems) => out := RewriteItems(out0, SADD, key, elems, false);
    case OHash(pairs) => out := RewriteItems(out0, HMSET, key, pairs, true);
    case OZSet(ranked) => out := RewriteItems(out0, ZADD, key, ranked, true);
  }

  lemma {:induction false} RewriteDbSnoc(l: Listing, e: (Bytes, Object))
    ensures RewriteDb(l + [e]) == RewriteDb(l) + RewriteObject(e.0, e.1)
  {
    hide RewriteObject;
    if l == [] {
      assert l + [e] == [e] && [e][1..] == [];
      assert RewriteObject(e.0, e.1) + [] == [] + RewriteObject(e.0, e.1);
    } else {
      RewriteDbSnoc(l[1..], e);
      assert (l + [e])[1..] == l[1..] + [e];
    }
  }

  /** The loop over one database. */
  method RewriteEntries(out0: Bytes, l: Listing) returns (out: Bytes)
    requires Listed(l)
    ensures out == out0 + Print(RewriteDb(l))
  {
    hide RewriteObject, RewriteDb, Print, WellFormed;
    out := out0;
    RewriteNothing(l);
    for i := 0 to |l|
      invariant out == out0 + Print(RewriteDb(l[..i]))
    {
      out := RewriteEntry(out, l[i].0, l[i].1);
      RewriteDbSnoc(l[..i], l[i]);
      PrintAppend(RewriteDb(l[..i]), RewriteObject(l[i].0, l[i].1));
      assert l[..i] + [l[i]] == l[..i + 1];
    }
    assert l[..|l|] == l;
  }

  lemma RewriteNothing(l: Listing)
    ensures RewriteDb(l[..0]) == [] && Print([]) == []
  {}

  /** `rewriteAppendOnlyFile`: the loop over the databases. */
  method RewriteAppendOnlyFile(ls: seq<Listing>) returns (out: Bytes)
    requires forall i :: 0 <= i < |ls| ==> Listed(ls[i])
    ensures out == Print(RewriteFrom(ls, 0))
  {
    hide RewriteDb, PrintCommand, Listed;
    out := [];
    assert [] + Print(RewriteFrom(ls, 0)) == Print(RewriteFrom(ls, 0));
    for j := 0 to |ls|
      invariant out + Print(RewriteFrom(ls, j)) == Print(RewriteFrom(ls, 0))
    {
      RewriteFromUnfolds(ls, j);
      if ls[j] != [] {
        out := CatCommand(out, [SELECT, Decimal(j)]);
        out := RewriteEntries(out, ls[j]);
      }
    }
    assert Print(RewriteFrom(ls, |ls|)) == [] && out + [] == out;
  }

  lemma RewriteFromUnfolds(ls: seq<Listing>, j: nat)
    requires j < |ls|
    ensures Print(RewriteFrom(ls, j))
            == (if ls[j] == [] then [] else PrintCommand([SELECT, Decimal(j)]) + Print(RewriteDb(ls[j])))
               + Print(RewriteFrom(ls, j + 1))
  {
    hide RewriteDb, PrintCommand;
    if ls[j] == [] {
      assert [] + RewriteFrom(ls, j + 1) == RewriteFrom(ls, j + 1);
    } else {
      var first := [[SELECT, Decimal(j)]] + RewriteDb(ls[j]);
      assert first[1..] == RewriteDb(ls[j]);
      PrintAppend(first, RewriteFrom(ls, j + 1));
    }
  }

  // ---- The size of the commands ----

  /** The elements of the commands, one after the other. */
  function Elements(cs: seq<Command>): seq<Bytes> {
    if cs == [] then [] else (if |cs[0]| >= 2 then cs[0][2..] else []) + Elements(cs[1..])
  }

  /** A full command holds `per` elements, and the last one what is left. */
  predicate Packed(name: Bytes, key: Bytes, cs: seq<Command>, per: nat) {
    forall i :: 0 <= i < |cs| ==>
      && 2 < |cs[i]| <= 2 + per && cs[i][0] == name && cs[i][1] == key
      && (i < |cs| - 1 ==> |cs[i]| == 2 + per)
  }

  /** The batches hold exactly the elements, in order, and all but the last are full. */
  lemma {:induction false} BatchesArePacked(name: Bytes, key: Bytes, elems: seq<Bytes>, per: nat)
    requires per > 0
    ensures Packed(name, key, Batches(name, key, elems, per), per) && Elements(Batches(name, key, elems, per)) == elems
    decreases |elems|
  {
    if elems != [] {
      var n := Min(per, |elems|);
      var first, rest := [name, key] + elems[..n], Batches(name, key, elems[n..], per);
      BatchesArePacked(name, key, elems[n..], per);
      var cs := Batches(name, key, elems, per);
      assert cs[0] == first && cs[1..] == rest && first[2..] == elems[..n];
      assert elems == elems[..n] + elems[n..];
      forall i | 0 <= i < |cs|
        ensures 2 < |cs[i]| <= 2 + per && cs[i][0] == name && cs[i][1] == key
        ensures i < |cs| - 1 ==> |cs[i]| == 2 + per
      {
        if i > 0 { assert cs[i] == rest[i - 1]; }
      }
    }
  }

  predicate Packs(name: Bytes, key: Bytes, cs: seq<Command>, per: nat, elems: seq<Bytes>) {
    Packed(name, key, cs, per) && Elements(cs) == elems
  }

  /** Lists and sets are rewritten in commands of up to 64 elements, hashes and sorted sets of up to 64 pairs. */
  lemma RewriteIsPacked(key: Bytes, o: Object)
    ensures match o
            case OStr(s) => RewriteObject(key, o) == [[SET, key, s]]
            case OList(items) => Packs(RPUSH, key, RewriteObject(key, o), 64, items)
            case OSet(elems) => Packs(SADD, key, RewriteObject(key, o), 64, elems)
            case OHash(pairs) => Packs(HMSET, key, RewriteObject(key, o), 128, pairs)
            case OZSet(ranked) => Packs(ZADD, key, RewriteObject(key, o), 128, ranked)
  {
    hide Packed;
    match o
    case OStr(s) =>
    case OList(items) => BatchesArePacked(RPUSH, key, items, 64);
    case OSet(elems) => BatchesArePacked(SADD, key, elems, 64);
    case OHash(pairs) => BatchesArePacked(HMSET, key, pairs, 128);
    case OZSet(ranked) => BatchesArePacked(ZADD, key, ranked, 128);
  }

  /** How the rewrite of one string is logged: SELECT 0, then SET k v. */
  lemma FormatOfSet()
    ensures Print(RewriteFrom([[([107], OStr([118]))]], 0))
         == [42, 50, 13, 10, 36, 54, 13, 10, 83, 69, 76, 69, 67, 84, 13, 10, 36, 49, 13, 10, 48, 13, 10]
            + [42, 51, 13, 10, 36, 51, 13, 10, 83, 69, 84, 13, 10]
            + [36, 49, 13, 10, 107, 13, 10, 36, 49, 13, 10, 118, 13, 10]
  {
    hide PrintCommand;
    var l: Listing := [([107], OStr([118]))];
    var select, put: Command := [SELECT, [48]], [SET, [107], [118]];
    assert l[1..] == [];
    assert RewriteDb([]) == [] && RewriteDb(l) == [put] + [] == [put];
    assert RewriteFrom([l], 1) == [];
    assert RewriteFrom([l], 0) == [select] + [put] + [] == [select, put];
    PrintOne(put);
    assert [select, put][1..] == [put];
    assert Print([select, put]) == PrintCommand(select) + PrintCommand(put);
    PrintSelect();
    PrintSet();
  }

  lemma PrintSelect()
    ensures PrintCommand([SELECT, [48]])
         == [42, 50, 13, 10, 36, 54, 13, 10, 83, 69, 76, 69, 67, 84, 13, 10, 36, 49, 13, 10, 48, 13, 10]
  {
    PrintTwo(SELECT, [48]);
    assert PrintArg(SELECT) == [36, 54, 13, 10, 83, 69, 76, 69, 67, 84, 13, 10];
    assert PrintArg([48]) == [36, 49, 13, 10, 48, 13, 10];
  }

  lemma PrintSet()
    ensures PrintCommand([SET, [107], [118]])
         == [42, 51, 13, 10, 36, 51, 13, 10, 83, 69, 84, 13, 10]
            + [36, 49, 13, 10, 107, 13, 10, 36, 49, 13, 10, 118, 13, 10]
  {
    PrintThree(SET, [107], [118]);
    assert PrintArg(SET) == [36, 51, 13, 10, 83, 69, 84, 13, 10];
    assert PrintArg([107]) == [36, 49, 13, 10, 107, 13, 10];
    assert PrintArg([118]) == [36, 49, 13, 10, 118, 13, 10];
  }

  lemma PrintOne(c: Command)
    ensures Print([c]) == PrintCommand(c)
  {
    hide PrintCommand;
    assert Print([c]) == PrintCommand(c) + [];
  }

  lemma PrintTwo(a: Bytes, b: Bytes)
    ensures PrintCommand([a, b]) == [42, 50, 13, 10] + PrintArg(a) + PrintArg(b)
  {
    hide PrintArg;
    assert [a, b][1..] == [b] && [b][1..] == [];
    assert PrintArgs([b]) == PrintArg(b) + [];
  }

  lemma PrintThree(a: Bytes, b: Bytes, c: Bytes)
    ensures PrintCommand([a, b, c]) == [42, 51, 13, 10] + PrintArg(a) + PrintArg(b) + PrintArg(c)
  {
    hide PrintArg;
    assert [a, b, c][1..] == [b, c] && [b, c][1..] == [c] && [c][1..] == [];
    assert PrintArgs([c]) == PrintArg(c) + [];
    assert PrintArgs([b, c]) == PrintArg(b) + PrintArg(c);
  }
}
