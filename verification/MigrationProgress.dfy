/** Migration gets somewhere: a MIGRATE whose connection holds moves its key, and key by key the whole slot can be
    handed over. */
module MigrationProgress {
  import opened Options
  import opened Slots
  import opened Cluster
  import opened Routing
  import opened Migration
  import opened LossyMigration

  /** A MIGRATE that is answered moves exactly its key, with its value, from the source to the target. */
  lemma MigrateMovesKey(x: Setup, s: State, k: Key)
    requires Open(x) && Inv(s) && s.migrate.None? && k in s.src
    ensures var es := [Migrate(k), Restore, Reply];
      Runs(x, s, es) && Final(x, s, es) == s.(src := s.src - {k}, dst := s.dst[k := s.src[k]])
  {
    hide Open, Inv;
    assert k !in s.dst by { NotAtTarget(s, k); }
    var a := Step(x, s, Migrate(k)).0;
    var b := Step(x, a, Restore).0;
    Precede(x, b, Reply, []);
    Precede(x, a, Restore, [Reply]);
    Precede(x, s, Migrate(k), [Restore, Reply]);
    assert [Migrate(k)] + [Restore, Reply] == [Migrate(k), Restore, Reply];
  }

  lemma NotAtTarget(s: State, k: Key)
    requires Inv(s) && s.migrate.None? && k in s.src
    ensures k !in s.dst
  {
  }

  lemma MovedKeepsInv(x: Setup, s: State, k: Key)
    requires Open(x) && Inv(s) && s.migrate.None? && k in s.src
    ensures Inv(s.(src := s.src - {k}, dst := s.dst[k := s.src[k]]))
  {
    hide Open, Lacks;
    var t := s.(src := s.src - {k}, dst := s.dst[k := s.src[k]]);
    FewerKeysLack(s, t);
  }

  /** One run after the other. */
  lemma {:induction false} RunsAppend(x: Setup, s: State, a: seq<Event>, b: seq<Event>)
    requires Open(x) && Runs(x, s, a) && Runs(x, Final(x, s, a), b)
    ensures Runs(x, s, a + b) && Final(x, s, a + b) == Final(x, Final(x, s, a), b)
    decreases |a|
  {
    hide Open, Step, Enabled;
    if a == [] {
      assert [] + b == b;
    } else {
      RunsAppend(x, Step(x, s, a[0]).0, a[1..], b);
      assert (a + b)[0] == a[0] && (a + b)[1..] == a[1..] + b;
    }
  }

  /** Without any command of a client, the source can be emptied, and both nodes told of the new owner: the target
      then holds all there was, and the source nothing. */
  lemma {:induction false} MigrationCompletes(x: Setup, s: State) returns (es: seq<Event>)
    requires Open(x) && Inv(s) && s.migrate.None? && !s.closed
    ensures Runs(x, s, es) && Reliable(es) && Silent(es)
    ensures Final(x, s, es) == s.(src := map[], dst := s.dst + s.src, released := true, closed := true)
    decreases |s.src|
  {
    hide Open, Runs, Final, Inv, Step, Enabled, Reliable, Silent;
    if s.src.Keys == {} {
      assert s.src == map[];
      es := [Close, Release];
      CloseAndRelease(x, s);
      QuietPair();
      assert s.dst + s.src == s.dst;
    } else {
      HasMember(s.src.Keys);
      var k :| k in s.src.Keys;
      var t := s.(src := s.src - {k}, dst := s.dst[k := s.src[k]]);
      MigrateMovesKey(x, s, k);
      MovedKeepsInv(x, s, k);
      FewerKeys(s.src, k);
      var rest := MigrationCompletes(x, t);
      RunsAppend(x, s, [Migrate(k), Restore, Reply], rest);
      es := [Migrate(k), Restore, Reply] + rest;
      QuietMove(k, rest);
      MovedWhole(s.dst, s.src, k);
    }
  }

  lemma QuietPair()
    ensures Reliable([Close, Release]) && Silent([Close, Release])
  {
  }

  lemma QuietMove(k: Key, rest: seq<Event>)
    requires Reliable(rest) && Silent(rest)
    ensures Reliable([Migrate(k), Restore, Reply] + rest) && Silent([Migrate(k), Restore, Reply] + rest)
  {
  }

  lemma MovedWhole(dst: Db, src: Db, k: Key)
    requires k in src
    ensures dst[k := src[k]] + (src - {k}) == dst + src
  {
  }

  lemma FewerKeys(m: Db, k: Key)
    requires k in m
    ensures |m - {k}| < |m|
  {
    assert (m - {k}).Keys == m.Keys - {k};
    assert |m - {k}| == |(m - {k}).Keys| && |m| == |m.Keys|;
  }

  lemma CloseAndRelease(x: Setup, s: State)
    requires Open(x) && s.migrate.None? && !s.closed && s.src == map[]
    ensures Runs(x, s, [Close, Release])
    ensures Final(x, s, [Close, Release]) == s.(released := true, closed := true)
  {
    hide Open;
    var a := Step(x, s, Close).0;
    Precede(x, a, Release, []);
    Precede(x, s, Close, [Release]);
    assert [Close] + [Release] == [Close, Release];
  }

  /** A broken connection touches no key. MIGRATE gives up after a timeout or on its second try, and otherwise tries
      the same key and value again; a query that was sent and not answered may still arrive. */
  lemma BreakMeans(x: Setup, s: State, timedOut: bool, written: bool)
    requires Open(x) && Enabled(x, s, Break(timedOut, written))
    ensures var a, t := s.migrate.value, Step(x, s, Break(timedOut, written)).0;
      && t == s.(migrate := t.migrate, late := t.late)
      && (t.migrate.None? <==> timedOut || a.retried)
      && (t.migrate.Some? ==> t.migrate.value == Attempt(a.key, a.value, true, None))
      && t.late == (if written && a.answer.None? then s.late + multiset{Query(a.key, a.value)} else s.late)
  {
    hide Open;
  }

  /** No MIGRATE outlives two broken connections. */
  lemma TwoBreaksEnd(x: Setup, s: State, t1: bool, w1: bool, t2: bool, w2: bool)
    requires Open(x) && Enabled(x, s, Break(t1, w1))
    ensures var t := Step(x, s, Break(t1, w1)).0;
      Enabled(x, t, Break(t2, w2)) ==> Step(x, t, Break(t2, w2)).0.migrate.None?
  {
    hide Open, Step;
    BreakMeans(x, s, t1, w1);
    var t := Step(x, s, Break(t1, w1)).0;
    if Enabled(x, t, Break(t2, w2)) { BreakMeans(x, t, t2, w2); }
  }
}
