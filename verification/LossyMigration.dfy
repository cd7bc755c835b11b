/** Live migration when the connections MIGRATE uses may break.

    A broken connection can leave a key at both nodes, or a RESTORE on its way that arrives after
    the source went on serving the key; the retry of MIGRATE does not help, as the target then
    refuses the key.  The source's copy hides the other ones.  So commands still act on one map, as
    long as no command deletes a key of which there is another copy and the target serves no command
    with a key that is still at the source, and only then.  One-key commands never meet the second case. */
module LossyMigration {
  import opened Options
  import opened Slots
  import opened Cluster
  import opened Routing
  import opened Migration

  /** What the two nodes hold together: where both have a key, the source's value counts. */
  function Held(s: State): Db {
    s.dst + s.src
  }

  predicate OnItsWay(s: State, k: Key) {
    exists q :: q in s.late && q.key == k
  }

  /** There is a copy of the key that clients do not see: at the target behind the source's, or on its way. */
  predicate Copied(s: State, k: Key) {
    (k in s.src && k in s.dst) || OnItsWay(s, k)
  }

  /** The command deletes no key of which there is another copy. */
  predicate Harmless(s: State, c: Command) {
    forall k :: k in KeySet(c) && k in Held(s) && k !in Execute(Held(s), c) ==> !Copied(s, k)
  }

  /** No key is still at the source. */
  predicate Gone(src: Db, keys: seq<Key>) {
    forall i :: 0 <= i < |keys| ==> keys[i] !in src
  }

  /** A restored key has the source's value as long as MIGRATE waits; a query on its way is about a key
      that some node has. */
  predicate LossyInv(s: State) {
    && AttemptOk(s) && ClientsOk(s)
    && (Flight(s).Some? ==> Flight(s).value in s.dst && s.dst[Flight(s).value] == s.migrate.value.value)
    && (forall q :: q in s.late ==> q.key in Held(s))
  }

  // ---------------------------------------------------------------- single steps

  /** A one-key request the target serves names a key the source does not have. */
  lemma TargetServesOne(x: Setup, s: State, c: Command, f: Flags)
    requires Open(x) && LossyInv(s) && Enabled(x, s, AtTarget(c, f)) && RouteAt(x, s, AtTarget(c, f)) == Serve
    requires !SeveralKeys(c.keys)
    ensures Gone(s.src, c.keys)
  {
    hide WellFormed, TargetView;
    TargetViewIs(x, s.closed);
    forall i | 0 <= i < |c.keys| ensures c.keys[i] !in s.src {
      assert SlotOf(x.hash, c.keys[0]) == x.slot;
      if !s.closed {
        assert Lacks(s, c.keys);
        var j :| 0 <= j < |c.keys| && c.keys[j] !in s.src;
        assert c.keys[i] == c.keys[0] && c.keys[j] == c.keys[0];
      }
    }
  }

  /** At the target the command acts as on the whole. */
  predicate TargetActs(src: Db, dst: Db, c: Command) {
    Answer(dst, c) == Answer(dst + src, c) && Execute(dst, c) + src == Execute(dst + src, c)
  }

  lemma KeySetGone(src: Db, c: Command)
    requires Gone(src, c.keys)
    ensures KeySet(c) !! src.Keys
  {
  }

  /** Gives the keys a value. */
  function Write(keys: seq<Key>, v: Value): Command {
    Command(keys, db => map k | k in keys :: v, db => 0)
  }

  /** Every command with these keys acts rightly at the target exactly when no key is still at the source. */
  lemma TargetActsIff(src: Db, dst: Db, keys: seq<Key>)
    ensures (forall c: Command :: c.keys == keys ==> TargetActs(src, dst, c)) <==> Gone(src, keys)
  {
    hide TargetActs;
    if Gone(src, keys) {
      forall c: Command | c.keys == keys ensures TargetActs(src, dst, c) {
        KeySetGone(src, c);
        ActsOnOther(dst, src, c);
        assert TargetActs(src, dst, c) by { ShowActs(src, dst, c); }
      }
    } else {
      var i :| 0 <= i < |keys| && keys[i] in src;
      WriteIsLost(src, dst, keys, keys[i], src[keys[i]] + 1);
    }
  }

  lemma ShowActs(src: Db, dst: Db, c: Command)
    requires Answer(dst + src, c) == Answer(dst, c) && Execute(dst + src, c) == Execute(dst, c) + src
    ensures TargetActs(src, dst, c)
  {
  }

  /** A write at the target to a key the source still has is not seen. */
  lemma WriteIsLost(src: Db, dst: Db, keys: seq<Key>, k: Key, v: Value)
    requires k in keys && k in src && v != src[k]
    ensures (Execute(dst, Write(keys, v)) + src)[k] == src[k] && Execute(dst + src, Write(keys, v))[k] == v
    ensures !TargetActs(src, dst, Write(keys, v))
  {
    assert k in KeySet(Write(keys, v));
  }

  /** At the source a command changes the whole as it should exactly when it deletes no key that the target
      has, too. */
  lemma SourceActsIff(src: Db, dst: Db, c: Command)
    requires KeySet(c) <= src.Keys
    ensures Answer(dst + src, c) == Answer(src, c)
    ensures dst + Execute(src, c) == Execute(dst + src, c) <==>
      forall k :: k in KeySet(c) && k in dst ==> k in Execute(src, c)
    ensures forall k :: k in KeySet(c) ==> (k in Execute(src, c) <==> k in Execute(dst + src, c))
  {
    assert Restrict(dst + src, KeySet(c)) == Restrict(src, KeySet(c));
    var whole, parts := Execute(dst + src, c), dst + Execute(src, c);
    if k :| k in KeySet(c) && k in dst && k !in Execute(src, c) {
      assert k in parts && k !in whole;
    } else {
      forall k ensures (k in parts <==> k in whole) && (k in parts ==> parts[k] == whole[k]) {
        if k in KeySet(c) { assert k in src; }
      }
    }
  }

  lemma SourceStep(x: Setup, s: State, c: Command, f: Flags)
    requires Open(x) && LossyInv(s) && Enabled(x, s, AtSource(c, f)) && Harmless(s, c)
    requires RouteAt(x, s, AtSource(c, f)) == Serve
    ensures var (t, r) := Step(x, s, AtSource(c, f));
      && LossyInv(t) && t.src.Keys <= s.src.Keys
      && r == Some(Answer(Held(s), c)) && Held(t) == Execute(Held(s), c)
  {
    hide Open, RouteAt, Lacks, Execute, Answer;
    SourceServes(x, s, c, f);
    SourceActsIff(s.src, s.dst, c);
    NoNewKeys(s.src, c);
    var t := s.(src := Execute(s.src, c));
    FewerKeysLack(s, t);
    assert Held(t) == Execute(Held(s), c);
    forall q | q in t.late ensures q.key in Held(t) {
      assert OnItsWay(s, q.key);
      if q.key !in KeySet(c) { OthersKept(Held(s), c, q.key); }
    }
    if s.src == map[] { assert t.src == map[]; }
  }

  lemma OthersKept(db: Db, c: Command, k: Key)
    requires k !in KeySet(c) && k in db
    ensures k in Execute(db, c) && Execute(db, c)[k] == db[k]
  {
  }

  lemma TargetStep(x: Setup, s: State, c: Command, f: Flags)
    requires Open(x) && LossyInv(s) && Enabled(x, s, AtTarget(c, f)) && Harmless(s, c) && Gone(s.src, c.keys)
    requires RouteAt(x, s, AtTarget(c, f)) == Serve
    ensures var (t, r) := Step(x, s, AtTarget(c, f));
      && LossyInv(t) && t.src.Keys <= s.src.Keys
      && r == Some(Answer(Held(s), c)) && Held(t) == Execute(Held(s), c)
  {
    hide Open, RouteAt, Lacks, Execute, Answer;
    KeySetGone(s.src, c);
    ActsOnOther(s.dst, s.src, c);
    var t := s.(dst := Execute(s.dst, c));
    FewerKeysLack(s, t);
    forall q | q in t.late ensures q.key in Held(t) {
      assert OnItsWay(s, q.key);
      if q.key !in KeySet(c) { OthersKept(Held(s), c, q.key); }
    }
    if Flight(s).Some? { OthersKept(s.dst, c, Flight(s).value); }
  }

  lemma RestoreStep(x: Setup, s: State)
    requires Open(x) && LossyInv(s) && Enabled(x, s, Restore)
    ensures var t := Step(x, s, Restore).0; LossyInv(t) && t.src == s.src && Held(t) == Held(s)
  {
    hide Open, Lacks;
    FewerKeysLack(s, Step(x, s, Restore).0);
  }

  lemma ReplyStep(x: Setup, s: State)
    requires Open(x) && LossyInv(s) && Enabled(x, s, Reply)
    ensures var t := Step(x, s, Reply).0; LossyInv(t) && t.src.Keys <= s.src.Keys && Held(t) == Held(s)
  {
    hide Open, Lacks;
    var t := Step(x, s, Reply).0;
    FewerKeysLack(s, t);
    assert Held(t) == Held(s);
  }

  lemma LateStep(x: Setup, s: State, q: Query)
    requires Open(x) && LossyInv(s) && Enabled(x, s, LateRestore(q))
    ensures var t := Step(x, s, LateRestore(q)).0; LossyInv(t) && t.src == s.src && Held(t) == Held(s)
  {
    hide Open, Lacks;
    var t := Step(x, s, LateRestore(q)).0;
    FewerKeysLack(s, t);
    assert q.key in Held(s);
    assert Held(t) == Held(s);
    forall r | r in t.late ensures r.key in Held(t) {
      assert r in s.late;
    }
  }

  lemma BreakStep(x: Setup, s: State, timedOut: bool, written: bool)
    requires Open(x) && LossyInv(s) && Enabled(x, s, Break(timedOut, written))
    ensures var t := Step(x, s, Break(timedOut, written)).0; LossyInv(t) && t.src == s.src && t.dst == s.dst
  {
    hide Open, Lacks;
    FewerKeysLack(s, Step(x, s, Break(timedOut, written)).0);
  }

  /** Nothing that MIGRATE does, and nothing that goes wrong with it, changes what the nodes hold together. */
  lemma MigrateStep(x: Setup, s: State, e: Event)
    requires Open(x) && LossyInv(s) && Enabled(x, s, e) && !e.AtSource? && !e.AtTarget?
    ensures var t := Step(x, s, e).0;
      LossyInv(t) && t.src.Keys <= s.src.Keys && Held(t) == Held(s)
  {
    hide Open, Lacks, Broken, Restored;
    match e
    case Restore => RestoreStep(x, s);
    case Reply => ReplyStep(x, s);
    case LateRestore(q) => LateStep(x, s, q);
    case Break(timedOut, written) => BreakStep(x, s, timedOut, written);
    case Migrate(k) => FewerKeysLack(s, Step(x, s, e).0);
    case Release => FewerKeysLack(s, Step(x, s, e).0);
    case Close => FewerKeysLack(s, Step(x, s, e).0);
  }

  /** A command that the target serves has no key that is still at the source. */
  predicate Clear(s: State, e: Event) {
    e.AtTarget? ==> Gone(s.src, e.c.keys)
  }

  /** If the event serves a command, the command is clear and deletes no copied key. */
  ghost predicate Careful(x: Setup, s: State, e: Event)
    requires Open(x) && Enabled(x, s, e)
  {
    ServedBy(x, s, e).Some? ==> Clear(s, e) && Harmless(s, ServedBy(x, s, e).value)
  }

  /** A command with one key is always clear. */
  lemma OneKeyIsClear(x: Setup, s: State, e: Event)
    requires Open(x) && LossyInv(s) && Enabled(x, s, e) && ServedBy(x, s, e).Some?
    requires (e.AtSource? || e.AtTarget?) && !SeveralKeys(e.c.keys)
    ensures Clear(s, e)
  {
    hide LossyInv, Gone, RouteOf, Open;
    if e.AtTarget? { TargetServesOne(x, s, e.c, e.f); }
  }

  /** One step: a served command acts on the whole, anything else leaves the whole alone. */
  lemma LossyStep(x: Setup, s: State, e: Event)
    requires Open(x) && LossyInv(s) && Enabled(x, s, e) && Careful(x, s, e)
    ensures var (t, r) := Step(x, s, e);
      && LossyInv(t) && t.src.Keys <= s.src.Keys
      && match ServedBy(x, s, e)
         case Some(c) => r == Some(Answer(Held(s), c)) && Held(t) == Execute(Held(s), c)
         case None => r == None && Held(t) == Held(s)
  {
    hide Open, RouteOf, TargetView, SourceView, WellFormed, Lacks, Harmless, Gone, Execute, Answer;
    match e
    case AtSource(c, f) =>
      if RouteAt(x, s, e) == Serve {
        SourceStep(x, s, c, f);
      } else if RouteAt(x, s, e).Ask? {
        AskNamesMissing(x, s, c, f);
        FewerKeysLack(s, Step(x, s, e).0);
      }
    case AtTarget(c, f) => if RouteAt(x, s, e) == Serve { TargetStep(x, s, c, f); }
    case _ => MigrateStep(x, s, e);
  }

  // ---------------------------------------------------------------- runs

  ghost predicate CarefulAll(x: Setup, s: State, es: seq<Event>)
    requires Open(x) && Runs(x, s, es)
    decreases |es|
  {
    es == [] || (Careful(x, s, es[0]) && CarefulAll(x, Step(x, s, es[0]).0, es[1..]))
  }

  /** Over any run in which connections break, queries arrive late and MIGRATEs are repeated, but no command
      deletes a key of which there is another copy, or is served by the target with a key that is still at
      the source, commands are answered and executed as on one map, and the source gains no key. */
  lemma {:induction false} LossyMigrationIsTransparent(x: Setup, s: State, es: seq<Event>)
    requires Open(x) && LossyInv(s) && Runs(x, s, es) && CarefulAll(x, s, es)
    ensures var t := Final(x, s, es);
      && LossyInv(t)
      && Replies(x, s, es) == AnswerAll(Held(s), Served(x, s, es))
      && Held(t) == ExecuteAll(Held(s), Served(x, s, es))
      && t.src.Keys <= s.src.Keys
      && (t.closed || t.released ==> t.src == map[])
    decreases |es|
  {
    hide Open, Step, Enabled, ServedBy, Execute, Answer, Held, Careful;
    if es != [] {
      var e := es[0];
      LossyStep(x, s, e);
      var t := Step(x, s, e).0;
      LossyMigrationIsTransparent(x, t, es[1..]);
      var rest := Served(x, t, es[1..]);
      if ServedBy(x, s, e).Some? {
        var cs := [ServedBy(x, s, e).value] + rest;
        assert cs[1..] == rest;
      }
    }
  }

  /** A key at both nodes and a key at the target only: the source sends a client that names both to the
      target, which writes to its own copy of the first, and the nodes' value of it stays what it was. */
  lemma StaleCopyIsServed(x: Setup, k: Key, m: Key, v: Value) returns (s: State, c: Command)
    requires Open(x) && k != m && SlotOf(x.hash, k) == SlotOf(x.hash, m) == x.slot
    ensures LossyInv(s) && c.keys == [k, m] && k in s.src
    ensures var look := AtSource(c, Flags(false, false));
      && Enabled(x, s, look) && RouteAt(x, s, look) == Ask(x.target.self)
      && var t := Step(x, s, look).0;
         var ask := AtTarget(c, Flags(true, false));
         && Enabled(x, t, ask) && ServedBy(x, t, ask) == Some(c)
         && Held(Step(x, t, ask).0) == Held(s)[m := v + 1] != Execute(Held(s), c)
  {
    hide Open, RouteAt, Execute, Write;
    s := State(map[k := v], map[k := v, m := v], None, multiset{}, {}, false, false);
    c := Write([k, m], v + 1);
    WriteBoth(k, m, v);
    SentToTarget(x, s, c, k, m);
    var t := s.(asked := {[k, m]});
    assert s.asked + {c.keys} == t.asked;
    ServedAtTarget(x, t, c, k, m);
    WriteIsLost(s.src, s.dst, [k, m], k, v + 1);
    assert Held(t.(dst := Execute(s.dst, c))) == Held(s)[m := v + 1];
  }

  lemma WriteBoth(k: Key, m: Key, v: Value)
    requires k != m
    ensures Write([k, m], v + 1).keys == [k, m]
    ensures Execute(map[k := v, m := v], Write([k, m], v + 1)) == map[k := v + 1, m := v + 1]
  {
    assert KeySet(Write([k, m], v + 1)) == {k, m};
  }

  lemma SentToTarget(x: Setup, s: State, c: Command, k: Key, m: Key)
    requires Open(x) && s.migrate.None? && !s.released && m !in s.src
    requires c.keys == [k, m] && SlotOf(x.hash, k) == SlotOf(x.hash, m) == x.slot
    ensures Enabled(x, s, AtSource(c, Flags(false, false)))
    ensures RouteAt(x, s, AtSource(c, Flags(false, false))) == Ask(x.target.self)
  {
    hide WellFormed;
    assert Missing(c.keys, s.src.Keys) by { assert c.keys[1] == m; }
  }

  lemma ServedAtTarget(x: Setup, s: State, c: Command, k: Key, m: Key)
    requires Open(x) && !s.closed && k in s.dst && m in s.dst && c.keys in s.asked
    requires c.keys == [k, m] && SlotOf(x.hash, k) == SlotOf(x.hash, m) == x.slot
    ensures Enabled(x, s, AtTarget(c, Flags(true, false)))
    ensures RouteAt(x, s, AtTarget(c, Flags(true, false))) == Serve
  {
    hide WellFormed;
  }

  // ---------------------------------------------------------------- which deletions are safe

  /** No client sends anything. */
  predicate Silent(es: seq<Event>) {
    forall i :: 0 <= i < |es| ==> !es[i].AtSource? && !es[i].AtTarget?
  }

  lemma {:induction false} SilentRun(x: Setup, s: State, es: seq<Event>)
    requires Open(x) && LossyInv(s) && Runs(x, s, es) && Silent(es)
    ensures Held(Final(x, s, es)) == Held(s)
    decreases |es|
  {
    hide Open, Step, Enabled, Held, LossyInv;
    if es != [] {
      MigrateStep(x, s, es[0]);
      SilentRun(x, Step(x, s, es[0]).0, es[1..]);
    }
  }

  /** A served command leaves a state from which, whatever MIGRATE and the network do before the next
      command, the nodes hold what the one map holds after the command, exactly when the command deletes
      no key of which there is another copy. */
  lemma DeletionSafeIff(x: Setup, s: State, e: Event)
    requires Open(x) && LossyInv(s) && Enabled(x, s, e) && ServedBy(x, s, e).Some?
    requires (e.AtSource? || e.AtTarget?) && Clear(s, e)
    ensures (forall es :: Runs(x, Step(x, s, e).0, es) && Silent(es) ==>
               Held(Final(x, Step(x, s, e).0, es)) == Execute(Held(s), e.c))
            <==> Harmless(s, e.c)
  {
    hide Open, Step, Enabled, Held, Execute, Harmless, Runs, Final, Silent, LossyInv, RouteOf;
    var t := Step(x, s, e).0;
    if Harmless(s, e.c) {
      LossyStep(x, s, e);
      forall es | Runs(x, t, es) && Silent(es) ensures Held(Final(x, t, es)) == Execute(Held(s), e.c) {
        SilentRun(x, t, es);
      }
    } else {
      var es := BringBack(x, s, e);
    }
  }

  /** After a command deleted a key of which there is another copy, the key is still there, or comes back. */
  lemma BringBack(x: Setup, s: State, e: Event) returns (es: seq<Event>)
    requires Open(x) && LossyInv(s) && Enabled(x, s, e) && ServedBy(x, s, e).Some?
    requires (e.AtSource? || e.AtTarget?) && Clear(s, e) && !Harmless(s, e.c)
    ensures Runs(x, Step(x, s, e).0, es) && Silent(es)
    ensures Held(Final(x, Step(x, s, e).0, es)) != Execute(Held(s), e.c)
  {
    hide Open, RouteOf, Execute, LossyInv;
    var c, t := e.c, Step(x, s, e).0;
    var k :| k in KeySet(c) && k in Held(s) && k !in Execute(Held(s), c) && Copied(s, k);
    DeletedWhere(x, s, e, k);
    if k in t.dst {
      es := [];
      assert k in Held(Final(x, t, es));
    } else {
      var q :| q in s.late && q.key == k;
      es := [LateRestore(q)];
      assert es[1..] == [];
      var u := Step(x, t, es[0]).0;
      assert k in u.dst && Runs(x, u, []) && Final(x, u, []) == u;
      assert Final(x, t, es) == u;
      assert k in Held(u);
    }
  }

  /** The key is gone from where it was served; it is at the target if it was there behind the source's copy. */
  lemma DeletedWhere(x: Setup, s: State, e: Event, k: Key)
    requires Open(x) && LossyInv(s) && Enabled(x, s, e) && ServedBy(x, s, e).Some?
    requires (e.AtSource? || e.AtTarget?) && Clear(s, e)
    requires k in KeySet(e.c) && k in Held(s) && k !in Execute(Held(s), e.c) && Copied(s, k)
    ensures var t := Step(x, s, e).0; t.late == s.late && (k in t.dst || OnItsWay(s, k))
  {
    hide Open, RouteOf, Execute;
    if e.AtSource? {
      SourceServes(x, s, e.c, e.f);
    }
  }

  // ---------------------------------------------------------------- the retry, and a key that comes back

  /** MIGRATE's second try after a lost reply: the target refuses the key it has just restored, MIGRATE ends
      with an error, and the key stays at both nodes. */
  lemma RetryIsRefused(x: Setup, s: State, k: Key, written: bool)
    requires Open(x) && LossyInv(s) && Enabled(x, s, Migrate(k)) && k !in s.dst
    ensures var es := [Migrate(k), Restore, Break(false, written), Restore, Reply];
      && Runs(x, s, es)
      && Final(x, s, es) == s.(dst := s.dst[k := s.src[k]])
      && Copied(Final(x, s, es), k)
  {
    hide Open, LossyInv;
    var a := Step(x, s, Migrate(k)).0;
    var b := Step(x, a, Restore).0;
    var c := Step(x, b, Break(false, written)).0;
    var d := Step(x, c, Restore).0;
    var e := Step(x, d, Reply).0;
    Precede(x, d, Reply, []);
    Precede(x, c, Restore, [Reply]);
    Precede(x, b, Break(false, written), [Restore, Reply]);
    Precede(x, a, Restore, [Break(false, written), Restore, Reply]);
    Precede(x, s, Migrate(k), [Restore, Break(false, written), Restore, Reply]);
    assert e == s.(dst := s.dst[k := s.src[k]]);
  }

  /** A run that starts with `e`. */
  lemma Precede(x: Setup, s: State, e: Event, es: seq<Event>)
    requires Open(x) && Enabled(x, s, e) && Runs(x, Step(x, s, e).0, es)
    ensures var (t, r) := Step(x, s, e);
      && Runs(x, s, [e] + es) && Final(x, s, [e] + es) == Final(x, t, es)
      && Replies(x, s, [e] + es) == (if r.Some? then [r.value] else []) + Replies(x, t, es)
      && Served(x, s, [e] + es) == (match ServedBy(x, s, e) case Some(c) => [c] case None => []) + Served(x, t, es)
  {
    hide Open, Step, Enabled, ServedBy;
    assert ([e] + es)[0] == e && ([e] + es)[1..] == es;
  }

  function Del(k: Key): Command {
    Command([k], db => map[], db => if k in db then 1 else 0)
  }

  lemma OneKeyAtSource(x: Setup, s: State, c: Command, k: Key)
    requires Open(x) && s.migrate.None? && !s.released && c.keys == [k] && SlotOf(x.hash, k) == x.slot
    ensures Enabled(x, s, AtSource(c, Flags(false, false)))
    ensures RouteAt(x, s, AtSource(c, Flags(false, false)))
         == if k in s.src then Serve else Ask(x.target.self)
  {
    hide WellFormed;
    assert Missing(c.keys, s.src.Keys) <==> k !in s.src by { assert c.keys[0] == k; }
  }

  lemma OneKeyAtTarget(x: Setup, s: State, c: Command, k: Key)
    requires Open(x) && !s.closed && c.keys == [k] && SlotOf(x.hash, k) == x.slot && [k] in s.asked
    ensures Enabled(x, s, AtTarget(c, Flags(true, false)))
    ensures RouteAt(x, s, AtTarget(c, Flags(true, false))) == Serve
  {
    hide WellFormed;
  }

  /** The key is deleted at the source; a client that looks for it is sent to the target and finds it. */
  lemma ClientsFindIt(x: Setup, both: State, k: Key, v: Value) returns (es: seq<Event>)
    requires Open(x) && SlotOf(x.hash, k) == x.slot
    requires both == State(map[k := v], map[k := v], None, multiset{}, {}, false, false)
    ensures Runs(x, both, es) && Served(x, both, es) == [Del(k), Exists(k)] && Replies(x, both, es) == [1, 1]
  {
    hide Open, RouteAt, Step;
    var del, look := AtSource(Del(k), Flags(false, false)), AtSource(Exists(k), Flags(false, false));
    var ask := AtTarget(Exists(k), Flags(true, false));
    var gone := both.(src := map[]);
    var told := gone.(asked := {[k]});
    OneKeyAtSource(x, both, Del(k), k);
    OneKeyAtSource(x, gone, Exists(k), k);
    OneKeyAtTarget(x, told, Exists(k), k);
    ClientSteps(x, both, gone, told, k, v);
    es := [del] + ([look] + ([ask] + []));
    Precede(x, told, ask, []);
    Precede(x, gone, look, [ask] + []);
    Precede(x, both, del, [look] + ([ask] + []));
  }

  /** A key held at both nodes after a lost reply, deleted at the source: a client that looks for it is sent
      to the target and finds it there, though on one map it would be gone. */
  lemma DeletedKeyComesBack(x: Setup, k: Key, v: Value) returns (s: State, es: seq<Event>)
    requires Open(x) && SlotOf(x.hash, k) == x.slot
    ensures LossyInv(s) && Runs(x, s, es) && Held(s) == map[k := v]
    ensures Served(x, s, es) == [Del(k), Exists(k)]
    ensures Replies(x, s, es) == [1, 1] && AnswerAll(Held(s), [Del(k), Exists(k)]) == [1, 0]
  {
    hide Open, Step, Enabled, Runs, Served, Replies, AnswerAll, Del, Exists, Final;
    s := State(map[k := v], map[], None, multiset{}, {}, false, false);
    LoseReply(x, s, k, v);
    es := ClientsFindIt(x, s.(dst := map[k := v]), k, v);
    var a := Step(x, s, Migrate(k)).0;
    var b := Step(x, a, Restore).0;
    Precede(x, b, Break(true, true), es);
    es := [Break(true, true)] + es;
    Precede(x, a, Restore, es);
    es := [Restore] + es;
    Precede(x, s, Migrate(k), es);
    es := [Migrate(k)] + es;
    OneMapAnswers(k, v);
  }

  lemma LoseReply(x: Setup, s: State, k: Key, v: Value)
    requires Open(x) && s == State(map[k := v], map[], None, multiset{}, {}, false, false)
    ensures Enabled(x, s, Migrate(k))
    ensures var a := Step(x, s, Migrate(k)).0;
      && Enabled(x, a, Restore)
      && var b := Step(x, a, Restore).0;
         && Enabled(x, b, Break(true, true)) && Step(x, b, Break(true, true)).0 == s.(dst := map[k := v])
         && Step(x, s, Migrate(k)).1 == Step(x, a, Restore).1 == Step(x, b, Break(true, true)).1 == None
  {
    hide Open;
    assert Restored(map[], k, v) == map[k := v];
  }

  lemma ClientSteps(x: Setup, both: State, gone: State, told: State, k: Key, v: Value)
    requires Open(x) && both == State(map[k := v], map[k := v], None, multiset{}, {}, false, false)
    requires gone == both.(src := map[]) && told == gone.(asked := {[k]})
    requires var del := AtSource(Del(k), Flags(false, false)); Enabled(x, both, del) && RouteAt(x, both, del) == Serve
    requires var look := AtSource(Exists(k), Flags(false, false));
      Enabled(x, gone, look) && RouteAt(x, gone, look) == Ask(x.target.self)
    requires var ask := AtTarget(Exists(k), Flags(true, false)); Enabled(x, told, ask) && RouteAt(x, told, ask) == Serve
    ensures Step(x, both, AtSource(Del(k), Flags(false, false))) == (gone, Some(1))
    ensures Step(x, gone, AtSource(Exists(k), Flags(false, false))) == (told, None)
    ensures Step(x, told, AtTarget(Exists(k), Flags(true, false))).1 == Some(1)
  {
    hide Open, RouteAt;
    var db := map[k := v];
    assert KeySet(Del(k)) == {k} && KeySet(Exists(k)) == {k};
    assert Restrict(db, {k}) == db;
    assert Execute(db, Del(k)) == map[];
    assert gone.asked + {[k]} == {[k]};
  }

  lemma OneMapAnswers(k: Key, v: Value)
    ensures AnswerAll(map[k := v], [Del(k), Exists(k)]) == [1, 0]
  {
    var db := map[k := v];
    assert KeySet(Del(k)) == {k} && KeySet(Exists(k)) == {k};
    assert Restrict(db, {k}) == db;
    assert Execute(db, Del(k)) == map[];
    assert [Del(k), Exists(k)][1..] == [Exists(k)];
    assert Restrict(map[], {k}) == map[];
    assert AnswerAll(map[], [Exists(k)]) == [0];
  }
}
