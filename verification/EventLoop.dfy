/** The event loop over an event port as the source keeps it, with its fixed-size pending arrays. */
module EventLoop {
  import opened EventPort

  class EventLoop {
    const masks: array<Mask>
    var maxfd: int
    const pendingFds: array<int>
    const pendingMasks: array<Mask>
    var npending: nat
    /** The port's associations, which live in the kernel. */
    var kernel: map<int, Mask>

    ghost predicate Valid()
      reads this, masks, pendingFds, pendingMasks
    {
      && masks != pendingMasks
      && pendingFds.Length == pendingMasks.Length == MAX_EVENT_BATCHSZ
      && npending <= MAX_EVENT_BATCHSZ
      && Exclusive(Model())
    }

    ghost function Model(): State
      reads this, masks, pendingFds, pendingMasks
    {
      State(masks[..], Entries(), kernel, maxfd)
    }

    ghost function Entries(): seq<Pending>
      reads this, pendingFds, pendingMasks
    {
      EntriesOf(pendingFds[..], pendingMasks[..], npending)
    }

    /** `aeCreateEventLoop` with `aeApiCreate`. */
    constructor (setsize: nat)
      ensures Valid() && fresh(masks) && fresh(pendingFds) && fresh(pendingMasks)
      ensures Model() == State(seq(setsize, _ => NONE), [], map[], -1)
    {
      masks := new Mask[setsize](_ => NONE);
      maxfd := -1;
      pendingFds := new int[MAX_EVENT_BATCHSZ](_ => -1);
      pendingMasks := new Mask[MAX_EVENT_BATCHSZ](_ => NONE);
      npending := 0;
      kernel := map[];
      new;
      FreshIsExclusive(setsize);
      assert masks[..] == seq(setsize, _ => NONE);
    }

    /** `aeApiLookupPending`. */
    method LookupPending(fd: int) returns (i: int)
      requires npending <= pendingFds.Length == pendingMasks.Length
      ensures i == Lookup(Entries(), fd)
    {
      var n := 0;
      while n < npending
        invariant n <= npending && Lookup(Entries(), fd) == LookupFrom(Entries(), fd, n)
      {
        if pendingFds[n] == fd { return n; }
        n := n + 1;
      }
      return -1;
    }

    /** `aeApiAddEvent`. */
    method ApiAddEvent(fd: nat, mask: Mask, ok: bool) returns (added: bool)
      requires Valid() && fd < masks.Length
      modifies this`kernel, pendingMasks
      ensures (Model(), added) == AddEvent(old(Model()), fd, mask, ok)
    {
      hide Exclusive, Lookup;
      var full := Join(mask, masks[fd]);
      var i := LookupPending(fd);
      if i != -1 {
        pendingMasks[i] := Join(pendingMasks[i], full);
        EntryChanged(old(pendingFds[..]), old(pendingMasks[..]), npending, i, old(pendingFds[i]), pendingMasks[i]);
        assert pendingFds[..] == old(pendingFds[..])[i := old(pendingFds[i])];
        return true;
      }
      if ok { kernel := kernel[fd := full]; }
      return ok;
    }

    /** `aeCreateFileEvent`; the loop stays valid unless nothing is registered where nothing was. */
    method CreateFileEvent(fd: nat, mask: Mask, ok: bool) returns (created: bool)
      requires Valid()
      modifies this`kernel, this`maxfd, masks, pendingMasks
      ensures Model() == Create(old(Model()), fd, mask, ok)
      ensures Valid() <==> !(ok && fd < masks.Length && mask == NONE && old(masks[..])[fd] == NONE)
    {
      hide Exclusive, AddEvent;
      CreateKeepsIff(Model(), fd, mask, ok);
      if fd >= masks.Length { return false; }
      created := ApiAddEvent(fd, mask, ok);
      if !created { return; }
      masks[fd] := Join(masks[fd], mask);
      if fd > maxfd { maxfd := fd; }
    }

    /** `aeApiDelEvent`; the loop's own mask is already updated. */
    method ApiDelEvent(fd: nat, mask: Mask)
      requires masks != pendingMasks && fd < masks.Length && npending <= pendingFds.Length == pendingMasks.Length
      modifies this`kernel, pendingFds, pendingMasks
      ensures Model() == DelEvent(old(Model()), fd, mask)
    {
      hide Lookup;
      var i := LookupPending(fd);
      if i != -1 {
        pendingMasks[i] := Without(pendingMasks[i], mask);
        if pendingMasks[i] == NONE { pendingFds[i] := -1; }
        EntryChanged(old(pendingFds[..]), old(pendingMasks[..]), npending, i, pendingFds[i], pendingMasks[i]);
        assert pendingFds[..] == old(pendingFds[..])[i := pendingFds[i]];
        return;
      }
      if masks[fd] == NONE {
        kernel := kernel - {fd};
      } else {
        kernel := kernel[fd := masks[fd]];
      }
    }

    /** `aeDeleteFileEvent`. */
    method DeleteFileEvent(fd: nat, mask: Mask)
      requires Valid()
      modifies this`kernel, this`maxfd, masks, pendingFds, pendingMasks
      ensures Valid() && Model() == Delete(old(Model()), fd, mask)
    {
      hide Exclusive, DelEvent;
      DeleteKeeps(Model(), fd, mask);
      if fd >= masks.Length || masks[fd] == NONE { return; }
      masks[fd] := Without(masks[fd], mask);
      if fd == maxfd && masks[fd] == NONE {
        var j := maxfd - 1;
        while j >= 0
          invariant -1 <= j < fd && Greatest(masks[..], fd) == Greatest(masks[..], j + 1)
        {
          if masks[j] != NONE { break; }
          j := j - 1;
        }
        maxfd := j;
      }
      ApiDelEvent(fd, mask);
    }

    /** The first half of `aeApiPoll`: pending descriptors are associated with the port again. */
    method Reassociate()
      requires Valid()
      modifies this`kernel, this`npending, pendingFds, pendingMasks
      ensures npending == 0 && masks[..] == old(masks[..]) && maxfd == old(maxfd)
      ensures kernel == Associated(old(kernel), old(Entries()), old(npending))
    {
      ghost var p := Entries();
      var i := 0;
      while i < npending
        invariant i <= npending == |p| && npending == old(npending)
        invariant forall k :: i <= k < npending ==> pendingFds[k] == p[k].fd && pendingMasks[k] == p[k].mask
        invariant kernel == Associated(old(kernel), p, i)
      {
        if pendingFds[i] != -1 {
          kernel := kernel[pendingFds[i] := pendingMasks[i]];
          pendingMasks[i], pendingFds[i] := NONE, -1;
        }
        i := i + 1;
      }
      npending := 0;
    }

    /** `aeApiPoll`, when the kernel returns the descriptors `fds`. */
    method ApiPoll(fds: seq<int>)
      requires Valid() && Batch(Associated(kernel, Entries(), npending), fds)
      modifies this`kernel, this`npending, pendingFds, pendingMasks
      ensures Valid() && Model() == Poll(old(Model()), fds)
    {
      hide Exclusive, Associated;
      PollKeeps(Model(), fds);
      Reassociate();
      ghost var k := kernel;
      npending := |fds|;
      var i := 0;
      while i < |fds|
        invariant i <= |fds| && npending == |fds| && kernel == k
        invariant forall j :: 0 <= j < i ==> pendingFds[j] == fds[j] && pendingMasks[j] == k[fds[j]]
      {
        pendingFds[i], pendingMasks[i] := fds[i], kernel[fds[i]];
        i := i + 1;
      }
      kernel := kernel - (set i | 0 <= i < |fds| :: fds[i]);
      assert Entries() == Returned(k, fds);
    }
  }

  ghost function EntriesOf(fds: seq<int>, masks: seq<Mask>, n: nat): (p: seq<Pending>)
    ensures n <= |fds| == |masks| ==> |p| == n && forall i :: 0 <= i < n ==> p[i] == Pending(fds[i], masks[i])
  {
    if n <= |fds| == |masks| then seq(n, i requires 0 <= i < n => Pending(fds[i], masks[i])) else []
  }

  lemma EntryChanged(fds: seq<int>, masks: seq<Mask>, n: nat, i: nat, fd: int, mask: Mask)
    requires i < n <= |fds| == |masks|
    ensures EntriesOf(fds[i := fd], masks[i := mask], n) == EntriesOf(fds, masks, n)[i := Pending(fd, mask)]
  {
  }
}
