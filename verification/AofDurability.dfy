/** When the data is in the file: after a complete flush, after a rewrite has been swapped in, and after the
    append-only file was turned off or on. */
module AofDurability {
  import opened Options
  import opened AofLog
  import opened AofRewrite
  import opened AofServer

  /** Loading the file alone and executing what was loaded gives the data. */
  predicate Durable(other: Effect, file: Bytes, dbs: seq<Db>) {
    Load(file).Commands? && Replay(other, EmptyReplica(|dbs|), Load(file).log).dbs == dbs
  }

  lemma RestoresIsDurable(other: Effect, file: Bytes, dbs: seq<Db>, selectedDb: int)
    requires Restores(other, file, dbs, selectedDb)
    ensures Durable(other, file, dbs)
  {
  }

  // ---- Flushing ----

  /** How many bytes of the buffer a flush moves to the file. */
  function BytesMoved(buf: Bytes, w: WriteOutcome): (n: nat)
    ensures n <= |buf|
  {
    match w
    case Postponed => 0
    case Failed => 0
    case Short(n, truncated) => if truncated || buf == [] then 0 else Min(n, |buf| - 1)
    case Full => |buf|
  }

  /** A flush moves so many first bytes of the buffer to the end of the file and changes nothing else: none if it
      is postponed, fails or is undone, `n` if it is cut short after `n` bytes, and all if it is complete. The
      last write's success is noted. */
  lemma FlushMovesPrefix(s: Server, w: WriteOutcome)
    requires s.size == |s.file|
    ensures var t, n := Flush(s, w), BytesMoved(s.buf, w);
            && t.file == s.file + s.buf[..n] && t.buf == s.buf[n..]
            && t == s.(file := t.file, size := |t.file|, buf := t.buf, writeOk := t.writeOk)
            && (s.buf != [] && w != Postponed ==> t.writeOk == w.Full?)
            && (s.buf == [] || w == Postponed ==> t.writeOk == s.writeOk)
  {
    assert s.buf[..|s.buf|] == s.buf && s.buf[|s.buf|..] == [];
    assert s.file + s.buf[..0] == s.file && s.buf[0..] == s.buf;
    if s.buf != [] && w.Short? {
      var n := Min(w.n, |s.buf| - 1);
      assert (s.file + s.buf[..n])[..|s.file|] == s.file;
    }
  }

  /** In every reachable state with the file on, a complete flush empties the buffer and makes the data durable. */
  lemma CompleteFlushIsDurable(other: Effect, s: Server, es: seq<Event>)
    requires Initial(other, s) && Runs(other, s, es) && Final(other, s, es).phase == On
    ensures var s' := Final(other, s, es);
            var t := Flush(s', Full);
            && t.buf == [] && t.dbs == s'.dbs && t.phase == On && t.size == |t.file|
            && Durable(other, t.file, s'.dbs)
  {
    hide Runs, Final, Initial, Restores;
    InitialInv(other, s);
    RunKeepsInv(other, s, es);
    var s' := Final(other, s, es);
    FlushMovesPrefix(s', Full);
    assert s'.buf[..|s'.buf|] == s'.buf;
    RestoresIsDurable(other, s'.file + s'.buf, s'.dbs, s'.selectedDb);
  }

  /** A complete flush on the way out makes the data durable, too. */
  lemma StopIsDurable(other: Effect, s: Server, es: seq<Event>)
    requires Initial(other, s) && Runs(other, s, es) && Final(other, s, es).phase == On
    ensures var s' := Final(other, s, es);
            var t := Stop(s', Full);
            && t.phase == Off && t.child.None? && t.diff == [] && t.dbs == s'.dbs
            && Durable(other, t.file, s'.dbs)
  {
    hide Runs, Final, Initial, Restores, Flush;
    CompleteFlushIsDurable(other, s, es);
    InitialInv(other, s);
    RunKeepsInv(other, s, es);
  }

  // ---- Rewriting ----

  /** When a rewrite that serves an enabled or starting file is swapped in, the file is on and holds the data. */
  lemma SwapIsDurable(other: Effect, s: Server, es: seq<Event>)
    requires Initial(other, s) && Runs(other, s, es)
    requires Final(other, s, es).phase != Off && Final(other, s, es).child.Some?
    ensures var s' := Final(other, s, es);
            var t := Done(s', Swapped);
            && t.phase == On && t.buf == [] && t.child.None? && t.diff == [] && t.dbs == s'.dbs && t.size == |t.file|
            && t.scheduled == s'.scheduled
            && Durable(other, t.file, s'.dbs)
  {
    hide Runs, Final, Initial, Restores;
    InitialInv(other, s);
    RunKeepsInv(other, s, es);
    var s' := Final(other, s, es);
    RestoresIsDurable(other, s'.child.value + s'.diff, s'.dbs, s'.selectedDb);
  }

  /** A rewrite that does not succeed, for whatever reason, leaves the file, the buffer and the data alone; if
      the file was waiting for it, another one is scheduled. */
  lemma FailedRewriteIsHarmless(s: Server, o: RewriteOutcome)
    requires s.child.Some? && o != Swapped
    ensures var t := Done(s, o);
            && t == s.(child := None, diff := [], scheduled := t.scheduled)
            && (t.scheduled <==> s.scheduled || s.phase == Waiting)
  {
  }

  /** Turning the file on either changes nothing, or leaves a rewrite of the data running for which the file
      waits. */
  lemma StartWaitsForRewrite(other: Effect, s: Server, es: seq<Event>, ls: seq<Listing>, opens: bool, forked: bool)
    requires Initial(other, s) && Runs(other, s, es) && Final(other, s, es).phase == Off
    requires ListingsOf(ls, Final(other, s, es).dbs)
    ensures var s' := Final(other, s, es);
            var t := Start(s', ls, opens, forked);
            if opens && forked && s'.child.None?
            then t.phase == Waiting && t.child.Some? && !t.scheduled && Durable(other, t.child.value + t.diff, s'.dbs)
                 && t.dbs == s'.dbs && t.file == s'.file && t.buf == s'.buf && t.size == s'.size
            else t == s'
  {
    hide Runs, Final, Initial, Restores, ListingsOf, Print, RewriteFrom;
    InitialInv(other, s);
    RunKeepsInv(other, s, es);
    var s' := Final(other, s, es);
    ForkKeepsInv(other, s', ls, true);
    if s'.child.None? { RestoresIsDurable(other, Fork(s', ls, true).child.value + [], s'.dbs, -1); }
  }

  /** While the file is off nothing is logged, so a rewrite that is swapped in holds the data as it was at the
      fork, whatever was written since. */
  lemma OffRewriteIsSnapshot(other: Effect, s: Server, ls: seq<Listing>, es: seq<Event>)
    requires s.phase == Off && s.child.None? && s.diff == [] && 0 < |s.dbs| < 0x8000_0000 && ListingsOf(ls, s.dbs)
    requires Runs(other, Fork(s, ls, true), es) && forall i :: 0 <= i < |es| ==> es[i].EvWrite? || es[i].EvFlush?
    ensures var t := Final(other, Fork(s, ls, true), es);
            t.child.Some? && Done(t, Swapped).phase == Off && Durable(other, Done(t, Swapped).file, s.dbs)
  {
    hide Runs, Final, ListingsOf, Print, RewriteFrom, Restores;
    OffLogsNothing(other, Fork(s, ls, true), es);
    RewriteRestores(other, ls, s.dbs);
    RestoresIsDurable(other, Print(RewriteFrom(ls, 0)) + [], s.dbs, -1);
  }

  lemma {:induction false} OffLogsNothing(other: Effect, s: Server, es: seq<Event>)
    requires s.phase == Off && Runs(other, s, es)
    requires forall i :: 0 <= i < |es| ==> es[i].EvWrite? || es[i].EvFlush?
    ensures var t := Final(other, s, es); t.phase == Off && t.child == s.child && t.diff == s.diff
    decreases |es|
  {
    hide Print, ExecOn;
    if es != [] { OffLogsNothing(other, Step(other, s, es[0]), es[1..]); }
  }

  /** A fork is refused while a child runs; otherwise the child starts from the data and the next command is
      logged with its database. */
  lemma ForkIsOne(s: Server, ls: seq<Listing>, forked: bool)
    ensures var t := Fork(s, ls, forked);
            && t == s.(child := t.child, selectedDb := t.selectedDb, scheduled := t.scheduled)
            && (s.child.Some? || !forked ==> t == s)
            && (s.child.None? && forked ==> t.child.Some? && t.selectedDb == -1 && !t.scheduled)
  {
  }

  // ---- The data ----

  /** The data after the writes of a run. */
  function Written(other: Effect, dbs: seq<Db>, es: seq<Event>): seq<Db>
    decreases |es|
  {
    if es == [] then dbs
    else if es[0].EvWrite? && es[0].db < |dbs| then
      Written(other, ExecOn(other, dbs, es[0].db, es[0].argv), es[1..])
    else Written(other, dbs, es[1..])
  }

  /** Only writes change the data, whatever happens to the file. */
  lemma {:induction false} DataIsWritten(other: Effect, s: Server, es: seq<Event>)
    requires Runs(other, s, es)
    ensures Final(other, s, es).dbs == Written(other, s.dbs, es)
    decreases |es|
  {
    hide Print, ExecOn, RewriteFrom;
    if es != [] { DataIsWritten(other, Step(other, s, es[0]), es[1..]); }
  }

  /** Whenever a run ends with a complete flush and the file on, the file holds what the run wrote. */
  lemma WritesAreDurable(other: Effect, s: Server, es: seq<Event>)
    requires Initial(other, s) && Runs(other, s, es) && Final(other, s, es).phase == On
    ensures Durable(other, Flush(Final(other, s, es), Full).file, Written(other, s.dbs, es))
  {
    hide Runs, Final, Initial, Durable, Flush, Written;
    CompleteFlushIsDurable(other, s, es);
    DataIsWritten(other, s, es);
  }
}
