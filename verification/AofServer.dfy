/** The append-only-file protocol: the log is buffered, flushed with writes that may fail, and replaced by
    the output of a rewriting child plus the changes made since the fork. */
module AofServer {
  import opened Options
  import opened AofLog
  import opened AofRewrite

  datatype Phase = Off | Waiting | On

  /** `child` is the temporary file of a running rewrite as it will be when the child succeeds; `diff` is the
      rewrite buffer; `size` is `aof_current_size`. */
  datatype Server = Server(dbs: seq<Db>, phase: Phase, file: Bytes, size: nat, buf: Bytes, selectedDb: int,
                           child: Option<Bytes>, diff: Bytes, scheduled: bool, writeOk: bool)

  // ---- Feeding ----

  function SelectFor(db: nat, selectedDb: int): seq<Command> {
    if db == selectedDb then [] else [[SELECT, Decimal(db)]]
  }

  /** The commands `feedAppendOnlyFile` logs for one command executed on database `db`. */
  function Logged(db: nat, selectedDb: int, argv: Command): seq<Command> { SelectFor(db, selectedDb) + [argv] }

  /** `feedAppendOnlyFile`. */
  function Feed(s: Server, db: nat, argv: Command): Server {
    var bytes := Print(Logged(db, s.selectedDb, argv));
    s.(selectedDb := db,
       buf := if s.phase == On then s.buf + bytes else s.buf,
       diff := if s.child.Some? then s.diff + bytes else s.diff)
  }

  /** A client's write: the command runs, and is fed unless the append-only file is off. */
  function Write(other: Effect, s: Server, db: nat, argv: Command): Server
    requires db < |s.dbs|
  {
    var s' := s.(dbs := ExecOn(other, s.dbs, db, argv));
    if s.phase == Off then s' else Feed(s', db, argv)
  }

  // ---- Flushing ----

  /** What happens to a flush: not attempted, failed, cut short after `n` bytes with or without being undone,
      or complete. */
  datatype WriteOutcome = Postponed | Failed | Short(n: nat, truncated: bool) | Full

  /** `ftruncate`, which also extends. */
  function Truncate(b: Bytes, n: nat): Bytes { if n <= |b| then b[..n] else b + seq(n - |b|, i => 0) }

  /** `flushAppendOnlyFile` when the policy is not `always`. */
  function Flush(s: Server, w: WriteOutcome): Server {
    if s.buf == [] then s
    else match w
      case Postponed => s
      case Failed => s.(writeOk := false)
      case Short(n, truncated) =>
        var n := Min(n, |s.buf| - 1);
        if truncated then s.(file := Truncate(s.file + s.buf[..n], s.size), writeOk := false)
        else s.(file := s.file + s.buf[..n], size := s.size + n, buf := s.buf[n..], writeOk := false)
      case Full => s.(file := s.file + s.buf, size := s.size + |s.buf|, buf := [], writeOk := true)
  }

  /** Conservation: whatever a flush does, the bytes of the file and of the buffer together are unchanged,
      and the recorded size stays that of the file. */
  lemma FlushConserves(s: Server, w: WriteOutcome)
    requires s.size == |s.file|
    ensures var s' := Flush(s, w); s'.file + s'.buf == s.file + s.buf && s'.size == |s'.file|
  {
    if s.buf != [] && w.Short? {
      var n := Min(w.n, |s.buf| - 1);
      assert s.buf == s.buf[..n] + s.buf[n..];
      assert (s.file + s.buf[..n])[..|s.file|] == s.file;
    }
  }

  /** The bytes that the writes of a run append to the log. */
  function Appended(selectedDb: int, es: seq<Event>): Bytes
    decreases |es|
  {
    if es == [] then []
    else if es[0].EvWrite? then Print(Logged(es[0].db, selectedDb, es[0].argv)) + Appended(es[0].db, es[1..])
    else Appended(selectedDb, es[1..])
  }

  /** Conservation over runs: across writes and any pattern of postponed, failed, short and undone flushes,
      the file followed by the buffer is always the whole appended log. */
  lemma {:induction false} FlushRunConserves(other: Effect, s: Server, es: seq<Event>)
    requires Runs(other, s, es) && s.phase == On && s.size == |s.file|
    requires forall i :: 0 <= i < |es| ==> es[i].EvWrite? || es[i].EvFlush?
    ensures var s' := Final(other, s, es);
            s'.file + s'.buf == s.file + s.buf + Appended(s.selectedDb, es) && s'.size == |s'.file|
    decreases |es|
  {
    hide Print, Step, Enabled;
    if es != [] {
      StepAppends(other, s, es[0]);
      FlushRunConserves(other, Step(other, s, es[0]), es[1..]);
    }
  }

  lemma StepAppends(other: Effect, s: Server, e: Event)
    requires Enabled(s, e) && (e.EvWrite? || e.EvFlush?) && s.phase == On && s.size == |s.file|
    ensures var s' := Step(other, s, e);
            && s'.phase == On && s'.size == |s'.file|
            && s'.selectedDb == (if e.EvWrite? then e.db else s.selectedDb)
            && s'.file + s'.buf
               == s.file + s.buf + (if e.EvWrite? then Print(Logged(e.db, s.selectedDb, e.argv)) else [])
  {
    hide Print;
    if e.EvFlush? { FlushConserves(s, e.w); }
  }

  // ---- Rewriting ----

  /** How `backgroundRewriteDoneHandler` may end. */
  datatype RewriteOutcome = ChildFailed | OpenFailed | WriteFailed | RenameFailed | Swapped

  /** `rewriteAppendOnlyFileBackground`, given the order in which the child's iterators will visit the data. */
  function Fork(s: Server, ls: seq<Listing>, forked: bool): Server {
    if s.child.Some? || !forked then s
    else s.(child := Some(Print(RewriteFrom(ls, 0))), selectedDb := -1, scheduled := false)
  }

  /** `backgroundRewriteDoneHandler`. */
  function Done(s: Server, o: RewriteOutcome): Server
    requires s.child.Some?
  {
    var s1 := if o != Swapped then s
              else if s.phase == Off then s.(file := s.child.value + s.diff)
              else s.(file := s.child.value + s.diff, size := |s.child.value + s.diff|, buf := [], selectedDb := -1,
                      phase := On);
    s1.(child := None, diff := [], scheduled := s1.scheduled || s1.phase == Waiting)
  }

  /** `stopAppendOnly`: flush, close, and kill a running child. */
  function Stop(s: Server, w: WriteOutcome): Server {
    Flush(s, w).(phase := Off, selectedDb := -1, child := None, diff := if s.child.Some? then [] else s.diff)
  }

  /** `startAppendOnly`: refused when the file cannot be opened, a rewrite is running or the fork fails. */
  function Start(s: Server, ls: seq<Listing>, opens: bool, forked: bool): Server {
    if opens && s.child.None? && forked then Fork(s, ls, true).(phase := Waiting) else s
  }

  // ---- Runs ----

  datatype Event =
    | EvWrite(db: nat, argv: Command)
    | EvFlush(w: WriteOutcome)
    | EvFork(ls: seq<Listing>, forked: bool)
    | EvDone(o: RewriteOutcome)
    | EvStop(w: WriteOutcome)
    | EvStart(ls: seq<Listing>, opens: bool, forked: bool)

  predicate SmallString(b: Bytes) { |b| < 0x8000_0000_0000_0000 }

  predicate SmallAll(s: seq<Bytes>) { forall i :: 0 <= i < |s| ==> SmallString(s[i]) }

  predicate SmallObject(o: Object) {
    match o
    case OStr(s) => SmallString(s)
    case OList(items) => SmallAll(items)
    case OSet(elems) => SmallAll(elems)
    case OHash(pairs) => SmallAll(pairs)
    case OZSet(ranked) => SmallAll(ranked)
  }

  /** The listing visits each key of the database once. */
  predicate ListingOf(l: Listing, db: Db) {
    Listed(l) && Described(l) == db && forall i :: 0 <= i < |l| ==> SmallString(l[i].0) && SmallObject(l[i].1)
  }

  predicate ListingsOf(ls: seq<Listing>, dbs: seq<Db>) {
    |ls| == |dbs| && forall i :: 0 <= i < |dbs| ==> ListingOf(ls[i], dbs[i])
  }

  // ---- Every database can be listed ----

  /** What a key may hold: no empty aggregate, and strings of a length that can be logged. */
  ghost predicate Storable(v: Value) {
    match v
    case Str(s) => SmallString(s)
    case List(items) => items != [] && SmallAll(items)
    case Set(members) => members != {} && forall x :: x in members ==> SmallString(x)
    case Hash(fields) => fields != map[] && forall f :: f in fields ==> SmallString(f) && SmallString(fields[f])
    case ZSet(scores) => scores != map[] && forall x :: x in scores ==> SmallString(x) && SmallString(scores[x])
  }

  lemma {:induction false} ListMembers(m: set<Bytes>) returns (s: seq<Bytes>)
    ensures SetOf(s) == m && |s| == |m|
    decreases |m|
  {
    s := [];
    if m != {} {
      var x :| x in m;
      var rest := ListMembers(m - {x});
      s := rest + [x];
      assert SetOf(s) == SetOf(rest) + {x};
    }
  }

  lemma {:induction false} ListFields(m: map<Bytes, Bytes>) returns (s: seq<Bytes>)
    requires forall f :: f in m ==> SmallString(f) && SmallString(m[f])
    ensures Assign(map[], s) == m && |s| == 2 * |m| && SmallAll(s)
    decreases |m|
  {
    hide Assign, SmallString;
    s := [];
    if m.Keys != {} {
      var f :| f in m.Keys;
      var less := m - {f};
      assert less.Keys == m.Keys - {f} && |m| == |m.Keys| && |less| == |less.Keys|;
      var rest := ListFields(less);
      s := rest + [f, m[f]];
      AssignAppend(map[], rest, [f, m[f]]);
      AssignPair(less, f, m[f]);
      assert less[f := m[f]] == m;
    } else {
      assert m == map[];
      AssignNothing();
    }
  }

  lemma AssignPair(m: map<Bytes, Bytes>, f: Bytes, v: Bytes)
    ensures Assign(m, [f, v]) == m[f := v]
  {
    assert [f, v][2..] == [];
  }

  lemma AssignNothing()
    ensures Assign(map[], []) == map[]
  {
  }

  lemma {:induction false} ListScores(m: map<Bytes, Bytes>) returns (s: seq<Bytes>)
    requires forall x :: x in m ==> SmallString(x) && SmallString(m[x])
    ensures Rank(map[], s) == m && |s| == 2 * |m| && SmallAll(s)
    decreases |m|
  {
    hide Rank, SmallString;
    s := [];
    if m.Keys != {} {
      var x :| x in m.Keys;
      var less := m - {x};
      assert less.Keys == m.Keys - {x} && |m| == |m.Keys| && |less| == |less.Keys|;
      var rest := ListScores(less);
      s := rest + [m[x], x];
      RankAppend(map[], rest, [m[x], x]);
      RankPair(less, x, m[x]);
      assert less[x := m[x]] == m;
    } else {
      assert m == map[];
      RankNothing();
    }
  }

  lemma RankPair(m: map<Bytes, Bytes>, x: Bytes, score: Bytes)
    ensures Rank(m, [score, x]) == m[x := score]
  {
    assert [score, x][2..] == [];
  }

  lemma RankNothing()
    ensures Rank(map[], []) == map[]
  {
  }

  lemma ObjectFor(v: Value) returns (o: Object)
    requires Storable(v)
    ensures WellFormed(o) && Meaning(o) == v && SmallObject(o)
  {
    match v
    case Str(s) => o := OStr(s);
    case List(items) => o := OList(items);
    case Set(members) =>
      var s := ListMembers(members);
      forall i | 0 <= i < |s| ensures SmallString(s[i]) { assert s[i] in SetOf(s); }
      o := OSet(s);
    case Hash(fields) =>
      var s := ListFields(fields);
      assert Assign(map[], []) == map[];
      o := OHash(s);
    case ZSet(scores) =>
      var s := ListScores(scores);
      assert Rank(map[], []) == map[];
      o := OZSet(s);
  }

  lemma {:induction false} DescribedSnoc(db: Db, l: Listing, e: (Bytes, Object))
    ensures DescribedOnto(db, l + [e]) == DescribedOnto(db, l)[e.0 := Meaning(e.1)]
    decreases |l|
  {
    if l == [] {
      assert l + [e] == [e] && [e][1..] == [];
    } else {
      DescribedSnoc(db[l[0].0 := Meaning(l[0].1)], l[1..], e);
      assert (l + [e])[1..] == l[1..] + [e];
    }
  }

  lemma {:induction false} DescribedHas(db: Db, l: Listing)
    ensures forall k :: k in db ==> k in DescribedOnto(db, l)
    ensures forall i :: 0 <= i < |l| ==> l[i].0 in DescribedOnto(db, l)
    decreases |l|
  {
    if l != [] {
      DescribedHas(db[l[0].0 := Meaning(l[0].1)], l[1..]);
      forall i | 0 <= i < |l| ensures l[i].0 in DescribedOnto(db, l) {
        if i > 0 { assert l[i] == l[1..][i - 1]; }
      }
    }
  }

  /** The order in which a rewrite visits the data is any listing of it; every database that can be stored
      has one. */
  lemma {:induction false} AnyDatabaseIsListed(db: Db) returns (l: Listing)
    requires forall k :: k in db ==> SmallString(k) && Storable(db[k])
    ensures ListingOf(l, db)
    decreases |db|
  {
    hide Meaning, Storable, WellFormed, SmallObject;
    l := [];
    if db.Keys != {} {
      var k :| k in db.Keys;
      var less := db - {k};
      assert less.Keys == db.Keys - {k};
      var rest := AnyDatabaseIsListed(less);
      var o := ObjectFor(db[k]);
      l := rest + [(k, o)];
      DescribedSnoc(map[], rest, (k, o));
      DescribedHas(map[], rest);
      assert less[k := db[k]] == db;
    } else {
      assert db == map[];
    }
  }

  /** What the server can do in a state. A write is never SELECT, which changes no data; the rewrite starts
      from the data at the time of the fork. */
  predicate Enabled(s: Server, e: Event) {
    match e
    case EvWrite(db, argv) => db < |s.dbs| && Loggable(argv) && !Named(argv, SELECT)
    case EvFlush(w) => s.phase == Off ==> w == Postponed || w == Failed
    case EvFork(ls, _) => ListingsOf(ls, s.dbs)
    case EvDone(_) => s.child.Some?
    case EvStop(_) => s.phase != Off
    case EvStart(ls, _, _) => s.phase == Off && ListingsOf(ls, s.dbs)
  }

  function Step(other: Effect, s: Server, e: Event): Server
    requires Enabled(s, e)
  {
    match e
    case EvWrite(db, argv) => Write(other, s, db, argv)
    case EvFlush(w) => Flush(s, w)
    case EvFork(ls, forked) => Fork(s, ls, forked)
    case EvDone(o) => Done(s, o)
    case EvStop(w) => Stop(s, w)
    case EvStart(ls, opens, forked) => Start(s, ls, opens, forked)
  }

  predicate Runs(other: Effect, s: Server, es: seq<Event>)
    decreases |es|
  {
    es == [] || (Enabled(s, es[0]) && Runs(other, Step(other, s, es[0]), es[1..]))
  }

  function Final(other: Effect, s: Server, es: seq<Event>): Server
    requires Runs(other, s, es)
    decreases |es|
  {
    if es == [] then s else Final(other, Step(other, s, es[0]), es[1..])
  }

  // ---- What is true in every reachable state ----

  /** Replaying this log from scratch gives the data, and leaves the tracked database selected. */
  predicate LogOf(other: Effect, log: seq<Command>, dbs: seq<Db>, selectedDb: int) {
    var r := Replay(other, EmptyReplica(|dbs|), log);
    r.dbs == dbs && (selectedDb != -1 ==> r.selected == selectedDb)
  }

  /** Loading the bytes gives the data. */
  predicate Restores(other: Effect, b: Bytes, dbs: seq<Db>, selectedDb: int) {
    Load(b).Commands? && LogOf(other, Load(b).log, dbs, selectedDb)
  }

  predicate Inv(other: Effect, s: Server) {
    && 0 < |s.dbs| < 0x8000_0000 && -1 <= s.selectedDb < |s.dbs|
    && (s.phase == On ==> s.size == |s.file| && Restores(other, s.file + s.buf, s.dbs, s.selectedDb))
    && (s.phase != Off && s.child.Some? ==> Restores(other, s.child.value + s.diff, s.dbs, s.selectedDb))
    && (s.child.None? ==> s.diff == [])
    && (s.phase == Off ==> s.diff == [])
  }

  /** Logging one executed command keeps a log the log of the data. */
  lemma LogGrows(other: Effect, log: seq<Command>, dbs: seq<Db>, selectedDb: int, db: nat, argv: Command)
    requires LogOf(other, log, dbs, selectedDb) && |dbs| < 0x8000_0000
    requires db < |dbs| && !Named(argv, SELECT)
    ensures LogOf(other, log + Logged(db, selectedDb, argv), ExecOn(other, dbs, db, argv), db)
  {
    hide ExecOn, Named;
    var r := Replay(other, EmptyReplica(|dbs|), log);
    var more := Logged(db, selectedDb, argv);
    ReplayAppend(other, EmptyReplica(|dbs|), log, more);
    if db == selectedDb {
      assert more == [argv];
      ReplayOne(other, r, argv);
    } else {
      assert more == [[SELECT, Decimal(db)], argv];
      ReplayTwo(other, r, [SELECT, Decimal(db)], argv);
      SelectExec(other, r, db);
    }
  }

  lemma ReplayOne(other: Effect, r: Replica, a: Command)
    ensures Replay(other, r, [a]) == Exec(other, r, a)
  {}

  lemma ReplayTwo(other: Effect, r: Replica, a: Command, b: Command)
    ensures Replay(other, r, [a, b]) == Exec(other, Exec(other, r, a), b)
  {
    assert [a, b][1..] == [b];
    ReplayOne(other, Exec(other, r, a), b);
  }

  lemma SelectLoggable(db: nat)
    requires db < 0x8000_0000
    ensures Loggable([SELECT, Decimal(db)])
  {
    ShortDecimal(db);
  }

  lemma RestoresMore(other: Effect, b: Bytes, s: Server, db: nat, argv: Command)
    requires Restores(other, b, s.dbs, s.selectedDb) && |s.dbs| < 0x8000_0000
    requires db < |s.dbs| && Loggable(argv) && !Named(argv, SELECT)
    ensures Restores(other, b + Print(Logged(db, s.selectedDb, argv)), ExecOn(other, s.dbs, db, argv), db)
  {
    hide LogOf, ExecOn, Print, Load;
    var more := Logged(db, s.selectedDb, argv);
    LogGrows(other, Load(b).log, s.dbs, s.selectedDb, db, argv);
    SelectLoggable(db);
    LoadPrinted(more);
    LoadAppend(b, Print(more));
  }

  lemma RestoresUnselected(other: Effect, b: Bytes, dbs: seq<Db>, selectedDb: int)
    requires Restores(other, b, dbs, selectedDb)
    ensures Restores(other, b, dbs, -1)
  {
  }

  lemma WriteKeepsInv(other: Effect, s: Server, db: nat, argv: Command)
    requires Inv(other, s) && Enabled(s, EvWrite(db, argv))
    ensures Inv(other, Write(other, s, db, argv))
  {
    hide Restores, ExecOn, Print, Loggable;
    if s.phase != Off {
      var bytes := Print(Logged(db, s.selectedDb, argv));
      if s.phase == On {
        RestoresMore(other, s.file + s.buf, s, db, argv);
        assert s.file + s.buf + bytes == s.file + (s.buf + bytes);
      }
      if s.child.Some? {
        RestoresMore(other, s.child.value + s.diff, s, db, argv);
        assert s.child.value + s.diff + bytes == s.child.value + (s.diff + bytes);
      }
    }
  }

  lemma {:induction false} BatchesLoggable(name: Bytes, key: Bytes, elems: seq<Bytes>, per: nat)
    requires 0 < per <= 128 && SmallString(name) && SmallString(key) && SmallAll(elems)
    ensures LoggableAll(Batches(name, key, elems, per))
    decreases |elems|
  {
    if elems != [] {
      var n := Min(per, |elems|);
      BatchesLoggable(name, key, elems[n..], per);
      var argv := [name, key] + elems[..n];
      assert Loggable(argv);
    }
  }

  lemma {:induction false} DbLoggable(l: Listing)
    requires forall i :: 0 <= i < |l| ==> SmallString(l[i].0) && SmallObject(l[i].1)
    ensures LoggableAll(RewriteDb(l))
  {
    if l != [] {
      var (key, o) := l[0];
      assert SmallString(key) && SmallObject(o);
      match o {
        case OStr(s) => assert Loggable([SET, key, s]);
        case OList(items) => BatchesLoggable(RPUSH, key, items, ITEMS_PER_CMD);
        case OSet(elems) => BatchesLoggable(SADD, key, elems, ITEMS_PER_CMD);
        case OHash(pairs) => BatchesLoggable(HMSET, key, pairs, 2 * ITEMS_PER_CMD);
        case OZSet(ranked) => BatchesLoggable(ZADD, key, ranked, 2 * ITEMS_PER_CMD);
      }
      DbLoggable(l[1..]);
    }
  }

  lemma {:induction false} RewriteLoggable(ls: seq<Listing>, dbs: seq<Db>, j: nat)
    requires ListingsOf(ls, dbs) && |ls| < 0x8000_0000 && j <= |ls|
    ensures LoggableAll(RewriteFrom(ls, j))
    decreases |ls| - j
  {
    hide Loggable, LoggableAll, RewriteDb;
    NothingLoggable();
    if j < |ls| {
      RewriteLoggable(ls, dbs, j + 1);
      assert ListingOf(ls[j], dbs[j]);
      DbLoggable(ls[j]);
      SelectIsLoggable(j);
      var head := if ls[j] == [] then [] else [[SELECT, Decimal(j)]] + RewriteDb(ls[j]);
      LoggableAppend([[SELECT, Decimal(j)]], RewriteDb(ls[j]));
      LoggableAppend(head, RewriteFrom(ls, j + 1));
    }
  }

  lemma LoggableAppend(a: seq<Command>, b: seq<Command>)
    requires LoggableAll(a) && LoggableAll(b)
    ensures LoggableAll(a + b)
  {
    hide Loggable;
  }

  lemma NothingLoggable()
    ensures LoggableAll([])
  {
  }

  lemma SelectIsLoggable(j: nat)
    requires j < 0x8000_0000
    ensures LoggableAll([[SELECT, Decimal(j)]])
  {
    hide Loggable;
    SelectLoggable(j);
  }

  lemma RewriteRestores(other: Effect, ls: seq<Listing>, dbs: seq<Db>)
    requires ListingsOf(ls, dbs) && |dbs| < 0x8000_0000
    ensures Restores(other, Print(RewriteFrom(ls, 0)) + [], dbs, -1)
  {
    var log := RewriteFrom(ls, 0);
    forall i | 0 <= i < |ls| ensures Listed(ls[i]) { assert ListingOf(ls[i], dbs[i]); }
    RewriteRebuilds(other, ls);
    RewriteLoggable(ls, dbs, 0);
    var r := Replay(other, EmptyReplica(|ls|), log);
    forall i | 0 <= i < |ls| ensures r.dbs[i] == dbs[i] { assert ListingOf(ls[i], dbs[i]); }
    assert Print(log) + [] == Print(log);
    LoadPrinted(log);
  }

  lemma ForkKeepsInv(other: Effect, s: Server, ls: seq<Listing>, forked: bool)
    requires Inv(other, s) && ListingsOf(ls, s.dbs)
    ensures Inv(other, Fork(s, ls, forked))
    ensures s.child.None? && forked ==> Restores(other, Fork(s, ls, forked).child.value + [], s.dbs, -1)
  {
    hide Restores, Print, RewriteFrom, ListingsOf;
    if s.child.None? && forked {
      RewriteRestores(other, ls, s.dbs);
      if s.phase == On { RestoresUnselected(other, s.file + s.buf, s.dbs, s.selectedDb); }
    }
  }

  /** Every event keeps the invariant: in particular the swap at the end of a rewrite, and every way a
      rewrite, a flush or a write can fail. */
  lemma StepKeepsInv(other: Effect, s: Server, e: Event)
    requires Inv(other, s) && Enabled(s, e)
    ensures Inv(other, Step(other, s, e))
  {
    hide Restores, Print, Write, Fork, ListingsOf, Loggable, Named;
    match e
    case EvWrite(db, argv) => WriteKeepsInv(other, s, db, argv);
    case EvFlush(w) => if s.phase == On { FlushConserves(s, w); }
    case EvFork(ls, forked) => ForkKeepsInv(other, s, ls, forked);
    case EvDone(o) => DoneKeepsInv(other, s, o);
    case EvStop(w) =>
    case EvStart(ls, opens, forked) => StartKeepsInv(other, s, ls, opens, forked);
  }

  lemma DoneKeepsInv(other: Effect, s: Server, o: RewriteOutcome)
    requires Inv(other, s) && s.child.Some?
    ensures Inv(other, Done(s, o))
  {
    hide Restores;
    if o == Swapped && s.phase != Off {
      var file := s.child.value + s.diff;
      RestoresUnselected(other, file, s.dbs, s.selectedDb);
      assert file + [] == file;
    }
  }

  lemma StartKeepsInv(other: Effect, s: Server, ls: seq<Listing>, opens: bool, forked: bool)
    requires Inv(other, s) && s.phase == Off && ListingsOf(ls, s.dbs)
    ensures Inv(other, Start(s, ls, opens, forked))
  {
    hide Restores, Print, RewriteFrom;
    ForkKeepsInv(other, s, ls, true);
  }

  lemma {:induction false} RunKeepsInv(other: Effect, s: Server, es: seq<Event>)
    requires Inv(other, s) && Runs(other, s, es)
    ensures Inv(other, Final(other, s, es))
    decreases |es|
  {
    hide Inv, Step, Enabled;
    if es != [] {
      StepKeepsInv(other, s, es[0]);
      RunKeepsInv(other, Step(other, s, es[0]), es[1..]);
    }
  }

  /** A server started with the append-only file off, or on with a file that it has loaded. */
  predicate Initial(other: Effect, s: Server) {
    && 0 < |s.dbs| < 0x8000_0000 && s.selectedDb == -1 && s.child.None? && s.diff == [] && s.phase != Waiting
    && (s.phase == On ==> s.size == |s.file| && s.buf == [] && Restores(other, s.file, s.dbs, -1))
  }

  lemma InitialInv(other: Effect, s: Server)
    requires Initial(other, s)
    ensures Inv(other, s)
  {
    hide Restores;
    assert s.file + [] == s.file;
  }

  /** An empty file and no data are such a start. */
  lemma EmptyIsInitial(other: Effect, s: Server)
    requires 0 < |s.dbs| < 0x8000_0000 && s.selectedDb == -1 && s.child.None? && s.diff == [] && s.phase == On
    requires s.file == [] && s.size == 0 && s.buf == [] && forall i :: 0 <= i < |s.dbs| ==> s.dbs[i] == map[]
    ensures Initial(other, s)
  {
    assert EmptyReplica(|s.dbs|).dbs == s.dbs;
  }

  /** In every reachable state with the append-only file on, loading the file followed by the buffer and
      executing what was loaded gives exactly the live data. */
  lemma LoadGivesLiveData(other: Effect, s: Server, es: seq<Event>)
    requires Initial(other, s) && Runs(other, s, es) && Final(other, s, es).phase == On
    ensures var s' := Final(other, s, es);
            && Load(s'.file + s'.buf).Commands?
            && Replay(other, EmptyReplica(|s'.dbs|), Load(s'.file + s'.buf).log).dbs == s'.dbs
            && s'.size == |s'.file|
  {
    hide Runs, Final, Initial;
    InitialInv(other, s);
    RunKeepsInv(other, s, es);
  }

  /** While a rewrite serves an enabled or starting append-only file, the rewritten file followed by the
      rewrite buffer would also give the live data. */
  lemma RewriteGivesLiveData(other: Effect, s: Server, es: seq<Event>)
    requires Initial(other, s) && Runs(other, s, es)
    requires Final(other, s, es).phase != Off && Final(other, s, es).child.Some?
    ensures var s' := Final(other, s, es);
            && Load(s'.child.value + s'.diff).Commands?
            && Replay(other, EmptyReplica(|s'.dbs|), Load(s'.child.value + s'.diff).log).dbs == s'.dbs
  {
    hide Runs, Final, Initial;
    InitialInv(other, s);
    RunKeepsInv(other, s, es);
  }

  /** After a crash that loses the buffer, the loader either rejects the file as cut inside a command, or
      replays the log up to some earlier command. */
  lemma CrashKeepsPrefix(other: Effect, s: Server, es: seq<Event>)
    requires Initial(other, s) && Runs(other, s, es) && Final(other, s, es).phase == On
    ensures var s' := Final(other, s, es);
            && Load(s'.file + s'.buf).Commands?
            && (Load(s'.file).Commands? ==> Load(s'.file).log <= Load(s'.file + s'.buf).log)
  {
    hide Runs, Final, Initial;
    InitialInv(other, s);
    RunKeepsInv(other, s, es);
    var s' := Final(other, s, es);
    if Load(s'.file).Commands? { LoadAppend(s'.file, s'.buf); }
  }
}
