/** The server's append-only-file state as aof.c updates it in place. System calls are parameters: what
    write(2), ftruncate(2), open(2), rename(2) and fork(2) return. */
module AofFile {
  import opened Options
  import opened AofLog
  import opened AofRewrite
  import opened AofServer

  const BLOCK_SIZE: nat := 10 * 1024 * 1024 // AOF_RW_BUF_BLOCK_SIZE

  /** `aofrwblock`: the used part of its buffer. */
  datatype Block = Block(used: nat, free: nat, data: Bytes)

  /** The rewrite buffer: a list of blocks of which only the last has room. */
  class RewriteBuffer {
    var blocks: seq<Block>

    predicate Valid()
      reads this
    {
      && (forall i :: 0 <= i < |blocks| ==>
          blocks[i].used == |blocks[i].data| && blocks[i].used + blocks[i].free == BLOCK_SIZE)
      && (forall i :: 0 <= i < |blocks| - 1 ==> blocks[i].free == 0)
    }

    static function Join(bs: seq<Block>): Bytes { if bs == [] then [] else Join(bs[..|bs| - 1]) + bs[|bs| - 1].data }

    function Contents(): Bytes
      reads this
    {
      Join(blocks)
    }

    /** `aofRewriteBufferReset`. */
    constructor ()
      ensures Valid() && Contents() == []
    {
      blocks := [];
    }

    static lemma {:induction false} JoinLength(bs: seq<Block>)
      requires forall i :: 0 <= i < |bs| ==> bs[i].used == |bs[i].data| && bs[i].used + bs[i].free == BLOCK_SIZE
      requires forall i :: 0 <= i < |bs| ==> bs[i].free == 0
      ensures |Join(bs)| == |bs| * BLOCK_SIZE
    {
      if bs != [] {
        var init, last := bs[..|bs| - 1], bs[|bs| - 1];
        JoinLength(init);
        assert |last.data| == BLOCK_SIZE && Join(bs) == Join(init) + last.data;
        assert |init| * BLOCK_SIZE + BLOCK_SIZE == |bs| * BLOCK_SIZE;
      }
    }

    /** `aofRewriteBufferSize`, computed from the number of blocks and the last block. */
    method Size() returns (n: nat)
      requires Valid()
      ensures n == |Contents()|
    {
      if blocks == [] { return 0; }
      var full := blocks[..|blocks| - 1];
      JoinLength(full);
      n := (|blocks| - 1) * BLOCK_SIZE + blocks[|blocks| - 1].used;
    }

    /** `aofRewriteBufferAppend`: fills the last block, then allocates more. */
    method Append(s: Bytes)
      requires Valid()
      modifies this
      ensures Valid() && Contents() == old(Contents()) + s
    {
      hide Join;
      var rest := s;
      assert Contents() + s == old(Contents()) + s;
      while rest != []
        invariant Valid() && Contents() + rest == old(Contents()) + s
        decreases |rest|, if blocks == [] || blocks[|blocks| - 1].free == 0 then 1 else 0
      {
        if blocks != [] {
          var last := blocks[|blocks| - 1];
          var n := Min(last.free, |rest|);
          if n > 0 {
            FillLast(rest[..n]);
            assert rest == rest[..n] + rest[n..];
            rest := rest[n..];
          }
        }
        if rest != [] { AddBlock(); }
      }
    }

    /** A new, empty block behind full ones. */
    method AddBlock()
      requires Valid() && (blocks == [] || blocks[|blocks| - 1].free == 0)
      modifies this
      ensures Valid() && Contents() == old(Contents()) && blocks != [] && blocks[|blocks| - 1].free == BLOCK_SIZE
    {
      var more := Block(0, BLOCK_SIZE, []);
      assert (blocks + [more])[..|blocks|] == blocks;
      blocks := blocks + [more];
    }

    /** Copies bytes into the free part of the last block. */
    method FillLast(s: Bytes)
      requires Valid() && blocks != [] && |s| <= blocks[|blocks| - 1].free
      modifies this
      ensures Valid() && Contents() == old(Contents()) + s && |blocks| == |old(blocks)|
      ensures blocks[|blocks| - 1].free == old(blocks[|blocks| - 1].free) - |s|
    {
      var i := |blocks| - 1;
      var last := blocks[i];
      var filled := Block(last.used + |s|, last.free - |s|, last.data + s);
      assert blocks[i := filled][..i] == blocks[..i];
      assert Join(blocks[..i]) + (last.data + s) == Join(blocks[..i]) + last.data + s;
      blocks := blocks[i := filled];
    }

    /** `aofRewriteBufferWrite`: one write per non-empty block; a short write is an error. `written` says how
        many bytes the i-th write would take. */
    method WriteTo(fd: Bytes, written: nat -> nat) returns (ok: bool, fd': Bytes)
      requires Valid()
      ensures ok <==> forall i :: 0 <= i < |blocks| ==> written(i) >= blocks[i].used
      ensures ok ==> fd' == fd + Contents()
    {
      fd' := fd;
      for i := 0 to |blocks|
        invariant fd' == fd + Join(blocks[..i])
        invariant forall j :: 0 <= j < i ==> written(j) >= blocks[j].used
      {
        var b := blocks[i];
        if b.used > 0 {
          if written(i) < b.used { return false, fd' + b.data[..written(i)]; }
          fd' := fd' + b.data;
        }
        assert blocks[..i + 1][..i] == blocks[..i];
      }
      assert blocks[..|blocks|] == blocks;
      ok := true;
    }
  }

  /** The `fsync` policies. */
  datatype Policy = Always | EverySec | No

  class AppendOnlyFile {
    var dbs: seq<Db>
    var phase: Phase
    var file: Bytes            // what the file behind `aof_fd` (or, while off, under `aof_filename`) holds
    var size: nat
    var buf: Bytes
    var selectedDb: int
    var child: Option<Bytes>
    const diff: RewriteBuffer
    var scheduled: bool
    var writeOk: bool
    var postponedStart: nat
    var delayedFsync: nat

    ghost predicate Valid()
      reads this, diff
    {
      diff.Valid()
    }

    ghost function Model(): Server
      reads this, diff
    {
      Server(dbs, phase, file, size, buf, selectedDb, child, diff.Contents(), scheduled, writeOk)
    }

    /** A started server that has loaded the file, if it is on. */
    constructor (dbs: seq<Db>, on: bool, file: Bytes)
      ensures Valid() && fresh(diff)
      ensures Model() == Server(dbs, if on then On else Off, file, if on then |file| else 0, [], -1, None, [], false,
                                true)
    {
      this.dbs, phase, this.file, buf := dbs, if on then On else Off, file, [];
      size := if on then |file| else 0;
      selectedDb, child, scheduled, writeOk := -1, None, false, true;
      postponedStart, delayedFsync := 0, 0;
      diff := new RewriteBuffer();
    }

    /** `feedAppendOnlyFile`. */
    method FeedAppendOnlyFile(db: nat, argv: Command)
      requires Valid()
      modifies this, diff
      ensures Valid() && Model() == Feed(old(Model()), db, argv)
    {
      hide PrintCommand, Print, Logged, Decimal, RewriteBuffer.Join, RewriteBuffer.Valid;
      var bytes := [];
      if db != selectedDb {
        bytes := CatCommand(bytes, [SELECT, Decimal(db)]);
        selectedDb := db;
      }
      bytes := CatCommand(bytes, argv);
      PrintLogged(db, old(selectedDb), argv);
      if phase == On {
        buf := buf + bytes;
      }
      if child.Some? {
        diff.Append(bytes);
      }
    }

    /** A write command of a client: executed, then propagated. */
    method Call(other: Effect, db: nat, argv: Command)
      requires Valid() && db < |dbs|
      modifies this, diff
      ensures Valid() && Model() == Write(other, old(Model()), db, argv)
    {
      dbs := ExecOn(other, dbs, db, argv);
      if phase != Off {
        FeedAppendOnlyFile(db, argv);
      }
    }

    /** Under EverySec a flush waits for a running fsync, but never for two seconds. */
    method Postpones(force: bool, policy: Policy, syncInProgress: bool, now: nat) returns (waits: bool)
      requires now > 0
      modifies this`postponedStart, this`delayedFsync
      ensures waits <==> policy == EverySec && !force && syncInProgress
                         && (old(postponedStart) == 0 || now - old(postponedStart) < 2)
      ensures if waits then 0 < postponedStart && now - postponedStart < 2 else postponedStart == 0
    {
      waits := false;
      if policy == EverySec && !force && syncInProgress {
        if postponedStart == 0 {
          postponedStart := now;
          return true;
        } else if now - postponedStart < 2 {
          return true;
        }
        delayedFsync := delayedFsync + 1;
      }
      postponedStart := 0;
    }

    /** A failed (`n` is -1) or short write. */
    method WriteFell(n: int, truncates: bool, policy: Policy) returns (ghost w: WriteOutcome, exits: bool)
      requires Valid() && buf != [] && -1 <= n < |buf|
      modifies this`file, this`size, this`buf, this`writeOk
      ensures Valid() && exits == (policy == Always)
      ensures w == if n == -1 then Failed else Short(n, truncates)
      ensures !exits ==> Model() == Flush(old(Model()), w)
    {
      hide RewriteBuffer.Join, RewriteBuffer.Valid;
      w, exits := if n == -1 then Failed else Short(n, truncates), policy == Always;
      assert buf[0..] == buf;
      var kept := n;
      if n != -1 {
        file := file + buf[..n];
        if truncates {
          file := Truncate(file, size);
          kept := -1;
        }
      }
      if exits { return; }
      writeOk := false;
      if kept > 0 {
        size := size + kept;
        buf := buf[kept..];
      }
    }

    /** `flushAppendOnlyFile`. `nwritten` is what write(2) returns (-1 is an error) and `truncates` whether
        ftruncate(2) succeeds. `exits` tells that the server gives up, which only the policy Always does. */
    method FlushAppendOnlyFile(force: bool, policy: Policy, syncInProgress: bool, now: nat, nwritten: int,
        truncates: bool)
      returns (ghost w: WriteOutcome, exits: bool)
      requires Valid() && -1 <= nwritten <= |buf| && now > 0
      modifies this
      ensures Valid()
      ensures !exits ==> Model() == Flush(old(Model()), w)
      ensures exits <==> policy == Always && old(buf) != [] && nwritten != |old(buf)|
      ensures old(buf) != [] && !exits ==>
                (w == Postponed <==> policy == EverySec && !force && syncInProgress
                                     && (old(postponedStart) == 0 || now - old(postponedStart) < 2))
      ensures old(buf) != [] && w == Postponed && !exits ==> 0 < postponedStart && now - postponedStart < 2
      ensures old(buf) != [] && w != Postponed && !exits ==>
                w == (if nwritten == |old(buf)| then Full else if nwritten == -1 then Failed
                    else Short(nwritten, truncates))
    {
      hide RewriteBuffer.Join, RewriteBuffer.Valid, Truncate;
      exits, w := false, Postponed;
      if |buf| == 0 { return; }
      var waits := Postpones(force, policy, syncInProgress, now);
      if waits { return; }
      if nwritten != |buf| {
        w, exits := WriteFell(nwritten, truncates, policy);
        return;
      }
      w := Full;
      file, writeOk := file + buf, true;
      size := size + |buf|;
      buf := [];
    }

    /** `rewriteAppendOnlyFileBackground`: `ls` is the order in which the child's iterators visit the data. */
    method RewriteAppendOnlyFileBackground(ls: seq<Listing>, forks: bool) returns (ok: bool)
      requires Valid() && ListingsOf(ls, dbs)
      modifies this
      ensures Valid() && Model() == Fork(old(Model()), ls, forks) && ok == (old(child).None? && forks)
    {
      if child.Some? { return false; }
      if !forks { return false; }
      var temp := RewriteAppendOnlyFile(ls);
      scheduled, child, selectedDb := false, Some(temp), -1;
      ok := true;
    }

    /** `backgroundRewriteDoneHandler`. */
    method BackgroundRewriteDone(exitOk: bool, opens: bool, written: nat -> nat, renames: bool)
        returns (ghost o: RewriteOutcome)
      requires Valid() && child.Some?
      modifies this, diff
      ensures Valid() && Model() == Done(old(Model()), o)
      ensures o == Swapped <==> exitOk && opens && renames
                                && forall i :: 0 <= i < |old(diff.blocks)| ==> written(i) >= old(diff.blocks)[i].used
    {
      hide RewriteBuffer.Join;
      JoinNone();
      o := ChildFailed;
      if exitOk {
        o := OpenFailed;
        if opens {
          var ok, newFile := diff.WriteTo(child.value, written);
          o := if ok then RenameFailed else WriteFailed;
          if ok && renames {
            o := Swapped;
            file := newFile;
            if phase != Off {
              selectedDb, size, buf := -1, |newFile|, [];
            }
            if phase == Waiting { phase := On; }
          }
        }
      }
      diff.blocks := [];
      child := None;
      if phase == Waiting { scheduled := true; }
    }

    /** `stopAppendOnly`. */
    method StopAppendOnly(policy: Policy, syncInProgress: bool, now: nat, nwritten: int, truncates: bool)
      returns (ghost w: WriteOutcome, exits: bool)
      requires Valid() && phase != Off && -1 <= nwritten <= |buf| && now > 0
      modifies this, diff
      ensures Valid()
      ensures !exits ==> Model() == Stop(old(Model()), w)
      ensures exits <==> policy == Always && old(buf) != [] && nwritten != |old(buf)|
      ensures old(buf) != [] && !exits ==>
                w == (if nwritten == |old(buf)| then Full else if nwritten == -1 then Failed
                    else Short(nwritten, truncates))
    {
      hide RewriteBuffer.Join, Truncate;
      JoinNone();
      w, exits := FlushAppendOnlyFile(true, policy, syncInProgress, now, nwritten, truncates);
      selectedDb, phase := -1, Off;
      if child.Some? {
        diff.blocks := [];
        child := None;
      }
    }

    /** `startAppendOnly`; `opens` and `forks` are what the system calls do. */
    method StartAppendOnly(ls: seq<Listing>, opens: bool, forks: bool) returns (ok: bool)
      requires Valid() && phase == Off && ListingsOf(ls, dbs)
      modifies this
      ensures Valid() && ok == (opens && old(child).None? && forks)
      ensures Model() == Start(old(Model()), ls, opens, forks)
    {
      if !opens { return false; }
      ok := RewriteAppendOnlyFileBackground(ls, forks);
      if ok { phase := Waiting; }
    }
  }

  lemma PrintLogged(db: nat, selectedDb: int, argv: Command)
    ensures Print(Logged(db, selectedDb, argv))
            == (if db == selectedDb then [] else PrintCommand([SELECT, Decimal(db)])) + PrintCommand(argv)
  {
    hide PrintCommand;
    assert Print([argv]) == PrintCommand(argv) + [];
    PrintAppend(SelectFor(db, selectedDb), [argv]);
    if db != selectedDb {
      var sel: seq<Command> := [[SELECT, Decimal(db)]];
      assert Print(sel) == PrintCommand(sel[0]) + [];
    }
  }

  lemma JoinNone()
    ensures RewriteBuffer.Join([]) == []
  {
  }
}
