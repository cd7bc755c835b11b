/** Event-port bookkeeping: a descriptor the event loop listens on is either associated with the
    port in the kernel, or was returned by the last poll and waits to be associated again. */
module EventPort {
  /** The events listened for on one descriptor. */
  datatype Mask = Mask(readable: bool, writable: bool)

  const NONE := Mask(false, false)

  const MAX_EVENT_BATCHSZ := 512

  function Join(a: Mask, b: Mask): Mask {
    Mask(a.readable || b.readable, a.writable || b.writable)
  }

  function Without(a: Mask, b: Mask): Mask {
    Mask(a.readable && !b.readable, a.writable && !b.writable)
  }

  /** A descriptor returned by the last poll; `fd` is -1 once it has been deleted. */
  datatype Pending = Pending(fd: int, mask: Mask)

  /** The masks registered with the event loop, the pending entries, the kernel's associations, and the
      greatest registered descriptor. */
  datatype State = State(masks: seq<Mask>, pending: seq<Pending>, kernel: map<int, Mask>, maxfd: int)

  // ---------------------------------------------------------------- operations

  /** `aeApiLookupPending`. */
  function Lookup(p: seq<Pending>, fd: int): (i: int)
    ensures -1 <= i < |p| && (i >= 0 ==> p[i].fd == fd)
    ensures i == -1 ==> forall k :: 0 <= k < |p| ==> p[k].fd != fd
  {
    LookupFrom(p, fd, 0)
  }

  function LookupFrom(p: seq<Pending>, fd: int, from: nat): (i: int)
    requires from <= |p|
    ensures i == -1 || from <= i < |p|
    ensures i >= 0 ==> p[i].fd == fd && forall k :: from <= k < i ==> p[k].fd != fd
    ensures i == -1 ==> forall k :: from <= k < |p| ==> p[k].fd != fd
    decreases |p| - from
  {
    if from == |p| then -1 else if p[from].fd == fd then from else LookupFrom(p, fd, from + 1)
  }

  /** `aeApiAddEvent`; `ok` says whether the kernel accepts an association it is asked for. */
  function AddEvent(s: State, fd: nat, mask: Mask, ok: bool): (State, bool)
    requires fd < |s.masks|
  {
    var full := Join(mask, s.masks[fd]);
    var i := Lookup(s.pending, fd);
    if i >= 0 then (s.(pending := s.pending[i := Pending(fd, Join(s.pending[i].mask, full))]), true)
    else if ok then (s.(kernel := s.kernel[fd := full]), true)
    else (s, false)
  }

  /** `aeCreateFileEvent`. */
  function Create(s: State, fd: nat, mask: Mask, ok: bool): State {
    if fd >= |s.masks| then s
    else
      var (t, added) := AddEvent(s, fd, mask, ok);
      if !added then t
      else t.(masks := t.masks[fd := Join(t.masks[fd], mask)], maxfd := if fd > t.maxfd then fd else t.maxfd)
  }

  /** `aeApiDelEvent`, after the loop's own mask was updated. */
  function DelEvent(s: State, fd: nat, mask: Mask): State
    requires fd < |s.masks|
  {
    var i := Lookup(s.pending, fd);
    if i >= 0 then
      var left := Without(s.pending[i].mask, mask);
      s.(pending := s.pending[i := Pending(if left == NONE then -1 else fd, left)])
    else if s.masks[fd] == NONE then s.(kernel := s.kernel - {fd})
    else s.(kernel := s.kernel[fd := s.masks[fd]])
  }

  /** The greatest registered descriptor below `n`, or -1. */
  function Greatest(masks: seq<Mask>, n: nat): (j: int)
    requires n <= |masks|
    ensures -1 <= j < n && (j >= 0 ==> masks[j] != NONE)
    ensures forall k :: j < k < n ==> masks[k] == NONE
  {
    if n == 0 then -1 else if masks[n - 1] != NONE then n - 1 else Greatest(masks, n - 1)
  }

  /** `aeDeleteFileEvent`. */
  function Delete(s: State, fd: nat, mask: Mask): State {
    if fd >= |s.masks| || s.masks[fd] == NONE then s
    else
      var masks := s.masks[fd := Without(s.masks[fd], mask)];
      var maxfd := if fd == s.maxfd && masks[fd] == NONE then Greatest(masks, fd) else s.maxfd;
      DelEvent(s.(masks := masks, maxfd := maxfd), fd, mask)
  }

  /** The first `n` pending entries are associated with the port again. */
  function Associated(kernel: map<int, Mask>, p: seq<Pending>, n: nat): map<int, Mask>
    requires n <= |p|
  {
    if n == 0 then kernel
    else
      var k := Associated(kernel, p, n - 1);
      if p[n - 1].fd == -1 then k else k[p[n - 1].fd := p[n - 1].mask]
  }

  function Returned(kernel: map<int, Mask>, fds: seq<int>): seq<Pending>
    requires forall i :: 0 <= i < |fds| ==> fds[i] in kernel
  {
    seq(|fds|, i requires 0 <= i < |fds| => Pending(fds[i], kernel[fds[i]]))
  }

  /** What `port_getn` may return: associated descriptors, each once, at most a batch of them. */
  predicate Batch(kernel: map<int, Mask>, fds: seq<int>) {
    && |fds| <= MAX_EVENT_BATCHSZ
    && (forall i :: 0 <= i < |fds| ==> fds[i] in kernel)
    && (forall i, j :: 0 <= i < j < |fds| ==> fds[i] != fds[j])
  }

  /** `aeApiPoll`: pending descriptors are associated again; the descriptors the kernel then returns lose
      their association and become pending with the mask they had. */
  function Poll(s: State, fds: seq<int>): State
    requires Batch(Associated(s.kernel, s.pending, |s.pending|), fds)
  {
    var kernel := Associated(s.kernel, s.pending, |s.pending|);
    s.(kernel := kernel - (set i | 0 <= i < |fds| :: fds[i]), pending := Returned(kernel, fds))
  }

  // ---------------------------------------------------------------- exclusivity

  /** Pending entries are deleted ones, or registered descriptors with their registered masks, each once. */
  predicate PendingOk(s: State) {
    && (forall i :: 0 <= i < |s.pending| && s.pending[i].fd != -1 ==>
          0 <= s.pending[i].fd < |s.masks| && s.pending[i].mask == s.masks[s.pending[i].fd] != NONE)
    && (forall i, j :: 0 <= i < j < |s.pending| && s.pending[i].fd != -1 ==> s.pending[i].fd != s.pending[j].fd)
  }

  predicate IsPending(s: State, fd: int) {
    exists i :: 0 <= i < |s.pending| && s.pending[i].fd == fd
  }

  /** Associations are those of registered descriptors that are not pending, with their registered masks. */
  predicate KernelOk(s: State) {
    && (forall fd :: fd in s.kernel ==> 0 <= fd < |s.masks| && s.kernel[fd] == s.masks[fd] != NONE && !IsPending(s, fd))
    && (forall fd :: 0 <= fd < |s.masks| && s.masks[fd] != NONE ==> fd in s.kernel || IsPending(s, fd))
  }

  /** Each registered descriptor is in exactly one place, with exactly its mask; an unregistered one is in
      neither; and the greatest registered descriptor is known. */
  predicate Exclusive(s: State) {
    PendingOk(s) && KernelOk(s) && s.maxfd == Greatest(s.masks, |s.masks|)
  }

  lemma LookupIsPending(s: State, fd: int)
    ensures Lookup(s.pending, fd) >= 0 <==> IsPending(s, fd)
  {
    if Lookup(s.pending, fd) >= 0 {
      assert s.pending[Lookup(s.pending, fd)].fd == fd;
    }
  }

  lemma {:induction false} GreatestUnique(masks: seq<Mask>, n: nat, j: int)
    requires n <= |masks| && -1 <= j < n && (j >= 0 ==> masks[j] != NONE) && forall k :: j < k < n ==> masks[k] == NONE
    ensures Greatest(masks, n) == j
  {
    var _ := Greatest(masks, n);
  }

  // ---------------------------------------------------------------- steps

  lemma PendingChange(s: State, t: State, i: nat)
    requires PendingOk(s) && i < |s.pending| == |t.pending| && t.pending == s.pending[i := t.pending[i]]
    requires s.pending[i].fd != -1 && (t.pending[i].fd == s.pending[i].fd || t.pending[i].fd == -1)
    ensures forall fd :: fd != s.pending[i].fd && fd != -1 ==> (IsPending(t, fd) <==> IsPending(s, fd))
    ensures IsPending(t, s.pending[i].fd) <==> t.pending[i].fd != -1
  {
    var f := s.pending[i].fd;
    forall fd | fd != f && fd != -1 ensures IsPending(t, fd) <==> IsPending(s, fd) {
      if IsPending(s, fd) {
        var k :| 0 <= k < |s.pending| && s.pending[k].fd == fd;
        assert t.pending[k].fd == fd;
      }
      if IsPending(t, fd) {
        var k :| 0 <= k < |t.pending| && t.pending[k].fd == fd;
        assert s.pending[k].fd == fd;
      }
    }
    if t.pending[i].fd != -1 {
      assert t.pending[i].fd == f;
    }
  }

  lemma MasksGreatest(s: State, t: State, fd: nat)
    requires fd < |s.masks| == |t.masks| && s.maxfd == Greatest(s.masks, |s.masks|)
    requires t.masks == s.masks[fd := t.masks[fd]] && t.masks[fd] != NONE
    requires t.maxfd == if fd > s.maxfd then fd as int else s.maxfd
    ensures t.maxfd == Greatest(t.masks, |t.masks|)
  {
    GreatestUnique(t.masks, |t.masks|, t.maxfd);
  }

  /** Registering keeps every descriptor in exactly one place, unless it registers nothing on a descriptor
      that has nothing registered. */
  lemma CreateKeeps(s: State, fd: nat, mask: Mask, ok: bool)
    requires Exclusive(s) && !(fd < |s.masks| && mask == NONE && s.masks[fd] == NONE)
    ensures Exclusive(Create(s, fd, mask, ok))
  {
    hide Greatest, Lookup;
    if fd < |s.masks| && AddEvent(s, fd, mask, ok).1 {
      var t := Create(s, fd, mask, ok);
      MasksGreatest(s, t, fd);
      var i := Lookup(s.pending, fd);
      LookupIsPending(s, fd);
      if i >= 0 {
        PendingChange(s, t, i);
      }
      CreateKeepsKernel(s, fd, mask, ok);
    }
  }

  lemma CreateKeepsKernel(s: State, fd: nat, mask: Mask, ok: bool)
    requires Exclusive(s) && fd < |s.masks| && !(mask == NONE && s.masks[fd] == NONE) && AddEvent(s, fd, mask, ok).1
    ensures PendingOk(Create(s, fd, mask, ok)) && KernelOk(Create(s, fd, mask, ok))
  {
    hide Greatest, Lookup, IsPending;
    var t := Create(s, fd, mask, ok);
    var i := Lookup(s.pending, fd);
    LookupIsPending(s, fd);
    if i >= 0 {
      PendingChange(s, t, i);
    } else {
      SamePending(s, t);
      NotListed(s, fd);
    }
  }

  lemma SamePending(s: State, t: State)
    requires t.pending == s.pending
    ensures forall fd :: IsPending(t, fd) <==> IsPending(s, fd)
  {
  }

  lemma NotListed(s: State, fd: int)
    requires !IsPending(s, fd)
    ensures forall i :: 0 <= i < |s.pending| ==> s.pending[i].fd != fd
  {
  }

  /** Registering nothing on an unregistered descriptor is the one way to break it: the kernel then has an
      association for a descriptor that nothing is registered on. */
  lemma CreateKeepsIff(s: State, fd: nat, mask: Mask, ok: bool)
    requires Exclusive(s)
    ensures Exclusive(Create(s, fd, mask, ok)) <==> !(fd < |s.masks| && mask == NONE && s.masks[fd] == NONE && ok)
  {
    if !(fd < |s.masks| && mask == NONE && s.masks[fd] == NONE) {
      CreateKeeps(s, fd, mask, ok);
    } else {
      hide Greatest, Lookup;
      LookupIsPending(s, fd);
      assert !IsPending(s, fd);
      if ok {
        var t := Create(s, fd, mask, ok);
        assert fd in t.kernel && t.masks[fd] == NONE;
      } else {
        assert Create(s, fd, mask, ok) == s;
      }
    }
  }

  /** Unregistering keeps every descriptor in exactly one place; a descriptor that is not pending is
      associated, so that dissociating it does not fail. */
  lemma DeleteKeeps(s: State, fd: nat, mask: Mask)
    requires Exclusive(s)
    ensures Exclusive(Delete(s, fd, mask))
    ensures fd < |s.masks| && s.masks[fd] != NONE && Lookup(s.pending, fd) == -1 ==> fd in s.kernel
  {
    hide Lookup;
    if fd < |s.masks| && s.masks[fd] != NONE {
      LookupIsPending(s, fd);
      var t := Delete(s, fd, mask);
      DeleteKeepsKernel(s, fd, mask);
      var masks := s.masks[fd := Without(s.masks[fd], mask)];
      GreatestUnique(masks, |masks|, t.maxfd);
    }
  }

  lemma DeleteKeepsKernel(s: State, fd: nat, mask: Mask)
    requires Exclusive(s) && fd < |s.masks| && s.masks[fd] != NONE
    ensures PendingOk(Delete(s, fd, mask)) && KernelOk(Delete(s, fd, mask))
    ensures Delete(s, fd, mask).masks == s.masks[fd := Without(s.masks[fd], mask)]
  {
    hide Greatest, Lookup, IsPending;
    var t := Delete(s, fd, mask);
    var i := Lookup(s.pending, fd);
    LookupIsPending(s, fd);
    if i >= 0 {
      PendingChange(s, t, i);
    } else {
      SamePending(s, t);
      NotListed(s, fd);
    }
  }

  /** After associating the pending entries, exactly the registered descriptors are associated. */
  lemma {:induction false} AssociatedIs(s: State, n: nat)
    requires PendingOk(s) && n <= |s.pending|
    ensures var k := Associated(s.kernel, s.pending, n);
      forall fd :: fd in k <==> fd in s.kernel || exists i :: 0 <= i < n && s.pending[i].fd == fd && fd != -1
    ensures var k := Associated(s.kernel, s.pending, n);
      forall fd :: fd in k ==>
          k[fd] == if exists i :: 0 <= i < n && s.pending[i].fd == fd && fd != -1 then s.masks[fd] else s.kernel[fd]
    decreases n
  {
    if n > 0 { AssociatedIs(s, n - 1); }
  }

  lemma AllAssociated(s: State)
    requires PendingOk(s) && KernelOk(s)
    ensures var k := Associated(s.kernel, s.pending, |s.pending|);
      forall fd :: fd in k <==> 0 <= fd < |s.masks| && s.masks[fd] != NONE
    ensures var k := Associated(s.kernel, s.pending, |s.pending|);
      forall fd :: fd in k ==> 0 <= fd < |s.masks| && k[fd] == s.masks[fd]
  {
    AssociatedIs(s, |s.pending|);
    var k := Associated(s.kernel, s.pending, |s.pending|);
    forall fd ensures fd in k <==> 0 <= fd < |s.masks| && s.masks[fd] != NONE {
      if 0 <= fd < |s.masks| && s.masks[fd] != NONE && fd !in s.kernel {
        assert IsPending(s, fd);
      }
    }
  }

  /** A poll moves every pending descriptor back to the kernel and the returned ones out of it. */
  lemma PollKeeps(s: State, fds: seq<int>)
    requires Exclusive(s) && Batch(Associated(s.kernel, s.pending, |s.pending|), fds)
    ensures Exclusive(Poll(s, fds))
  {
    hide Greatest, Associated;
    AllAssociated(s);
    var t := Poll(s, fds);
    forall fd ensures IsPending(t, fd) <==> exists i :: 0 <= i < |fds| && fds[i] == fd {
      if IsPending(t, fd) {
        var i :| 0 <= i < |t.pending| && t.pending[i].fd == fd;
        assert fds[i] == fd;
      }
      if exists i :: 0 <= i < |fds| && fds[i] == fd {
        var i :| 0 <= i < |fds| && fds[i] == fd;
        assert t.pending[i].fd == fd;
      }
    }
  }

  // ---------------------------------------------------------------- runs

  datatype Event =
    | Register(fd: nat, mask: Mask, ok: bool)
    | Unregister(fd: nat, mask: Mask)
    | Wait(fds: seq<int>)

  predicate Enabled(s: State, e: Event) {
    match e
    case Register(fd, mask, _) => !(fd < |s.masks| && mask == NONE && s.masks[fd] == NONE)
    case Unregister(_, _) => true
    case Wait(fds) => Batch(Associated(s.kernel, s.pending, |s.pending|), fds)
  }

  function Step(s: State, e: Event): State
    requires Enabled(s, e)
  {
    match e
    case Register(fd, mask, ok) => Create(s, fd, mask, ok)
    case Unregister(fd, mask) => Delete(s, fd, mask)
    case Wait(fds) => Poll(s, fds)
  }

  predicate Runs(s: State, es: seq<Event>)
    decreases |es|
  {
    es == [] || (Enabled(s, es[0]) && Runs(Step(s, es[0]), es[1..]))
  }

  function Final(s: State, es: seq<Event>): State
    requires Runs(s, es)
    decreases |es|
  {
    if es == [] then s else Final(Step(s, es[0]), es[1..])
  }

  /** Event-port exclusivity, over every run: a registered descriptor is in the kernel or pending, never
      both, with exactly the mask registered; an unregistered one is in neither. */
  lemma {:induction false} RunKeepsExclusive(s: State, es: seq<Event>)
    requires Exclusive(s) && Runs(s, es)
    ensures var t := Final(s, es);
      && Exclusive(t)
      && forall fd :: 0 <= fd < |t.masks| ==>
           if t.masks[fd] == NONE then fd !in t.kernel && !IsPending(t, fd)
           else (fd in t.kernel) != IsPending(t, fd) && (fd in t.kernel ==> t.kernel[fd] == t.masks[fd])
    decreases |es|
  {
    hide Create, Delete, Poll, Greatest, Associated;
    if es != [] {
      match es[0] {
        case Register(fd, mask, ok) => CreateKeeps(s, fd, mask, ok);
        case Unregister(fd, mask) => DeleteKeeps(s, fd, mask);
        case Wait(fds) => PollKeeps(s, fds);
      }
      RunKeepsExclusive(Step(s, es[0]), es[1..]);
    }
  }

  /** An event loop with nothing registered. */
  lemma FreshIsExclusive(size: nat)
    ensures Exclusive(State(seq(size, _ => NONE), [], map[], -1))
  {
    GreatestUnique(seq(size, _ => NONE), size, -1);
  }

  // ---------------------------------------------------------------- which events are listened for

  datatype Kind = Readable | Writable

  predicate Has(m: Mask, x: Kind) {
    match x
    case Readable => m.readable
    case Writable => m.writable
  }

  /** The kernel association or a pending entry of the descriptor has the event. */
  predicate Listens(s: State, fd: int, x: Kind) {
    || (fd in s.kernel && Has(s.kernel[fd], x))
    || exists i :: 0 <= i < |s.pending| && s.pending[i].fd == fd != -1 && Has(s.pending[i].mask, x)
  }

  lemma ListensIff(s: State, fd: int, x: Kind)
    requires Exclusive(s)
    ensures Listens(s, fd, x) <==> 0 <= fd < |s.masks| && Has(s.masks[fd], x)
  {
    hide Greatest;
    if 0 <= fd < |s.masks| && Has(s.masks[fd], x) && fd !in s.kernel {
      assert IsPending(s, fd);
    }
  }

  /** The registration goes through: the descriptor fits, and it is pending or the kernel associates it. */
  predicate Accepted(s: State, fd: nat, ok: bool) {
    fd < |s.masks| && (IsPending(s, fd) || ok)
  }

  /** After a registration exactly the old events and, if it goes through, the new ones are listened for. */
  lemma RegisterListens(s: State, fd: nat, mask: Mask, ok: bool, g: int, x: Kind)
    requires Exclusive(s) && Enabled(s, Register(fd, mask, ok))
    ensures var t := Create(s, fd, mask, ok);
      Listens(t, g, x) <==> Listens(s, g, x) || (Accepted(s, fd, ok) && g == fd && Has(mask, x))
  {
    hide Greatest, Listens, Exclusive, Lookup;
    CreateKeeps(s, fd, mask, ok);
    ListensIff(s, g, x);
    ListensIff(Create(s, fd, mask, ok), g, x);
    LookupIsPending(s, fd);
  }

  /** After a removal exactly the old events that were not removed are listened for. */
  lemma UnregisterListens(s: State, fd: nat, mask: Mask, g: int, x: Kind)
    requires Exclusive(s)
    ensures Listens(Delete(s, fd, mask), g, x) <==> Listens(s, g, x) && !(g == fd && Has(mask, x))
  {
    hide Greatest, Listens, Exclusive, Lookup;
    DeleteKeeps(s, fd, mask);
    ListensIff(s, g, x);
    ListensIff(Delete(s, fd, mask), g, x);
    if fd < |s.masks| && s.masks[fd] != NONE { DeleteMasks(s, fd, mask); }
  }

  lemma DeleteMasks(s: State, fd: nat, mask: Mask)
    requires Exclusive(s) && fd < |s.masks| && s.masks[fd] != NONE
    ensures Delete(s, fd, mask).masks == s.masks[fd := Without(s.masks[fd], mask)]
  {
    hide Greatest, Lookup, Exclusive;
    DeleteKeepsKernel(s, fd, mask);
  }

  /** A poll leaves the events listened for alone; the descriptors it returned, and no others, are then pending. */
  lemma PollListens(s: State, fds: seq<int>, g: int, x: Kind)
    requires Exclusive(s) && Batch(Associated(s.kernel, s.pending, |s.pending|), fds)
    ensures var t := Poll(s, fds);
      && (Listens(t, g, x) <==> Listens(s, g, x))
      && (IsPending(t, g) <==> g in fds)
  {
    hide Greatest, Listens, Exclusive, Associated;
    PollKeeps(s, fds);
    ListensIff(s, g, x);
    var t := Poll(s, fds);
    ListensIff(t, g, x);
    if g in fds {
      var i :| 0 <= i < |fds| && fds[i] == g;
      assert t.pending[i].fd == g;
    }
    if IsPending(t, g) {
      var i :| 0 <= i < |t.pending| && t.pending[i].fd == g;
      assert fds[i] == g;
    }
  }

  /** The events registered by a run and not removed again. */
  predicate Wanted(s: State, es: seq<Event>, g: int, x: Kind)
    requires Runs(s, es)
    decreases |es|
  {
    if es == [] then Listens(s, g, x)
    else
      var n := |es| - 1;
      RunsPrefix(s, es, n);
      var before := Wanted(s, es[..n], g, x);
      match es[n]
      case Register(fd, mask, ok) => before || (Accepted(Final(s, es[..n]), fd, ok) && g == fd && Has(mask, x))
      case Unregister(fd, mask) => before && !(g == fd && Has(mask, x))
      case Wait(_) => before
  }

  lemma {:induction false} RunsPrefix(s: State, es: seq<Event>, n: nat)
    requires Runs(s, es) && n < |es|
    ensures Runs(s, es[..n]) && Enabled(Final(s, es[..n]), es[n])
    ensures n == |es| - 1 ==> Final(s, es) == Step(Final(s, es[..n]), es[n])
    decreases n
  {
    hide Enabled, Step;
    if n > 0 {
      RunsPrefix(Step(s, es[0]), es[1..], n - 1);
      assert es[..n][1..] == es[1..][..n - 1] && es[..n][0] == es[0];
    }
  }

  /** After any run exactly the events that were registered and not removed since are listened for. */
  lemma {:induction false} RunListens(s: State, es: seq<Event>, g: int, x: Kind)
    requires Exclusive(s) && Runs(s, es)
    ensures Listens(Final(s, es), g, x) <==> Wanted(s, es, g, x)
    decreases |es|
  {
    hide Greatest, Listens, Exclusive, Create, Delete, Poll, Batch, Accepted, Associated;
    if es != [] {
      var n := |es| - 1;
      RunsPrefix(s, es, n);
      RunListens(s, es[..n], g, x);
      RunKeepsExclusive(s, es[..n]);
      var u := Final(s, es[..n]);
      match es[n]
      case Register(fd, mask, ok) => RegisterListens(u, fd, mask, ok, g, x);
      case Unregister(fd, mask) => UnregisterListens(u, fd, mask, g, x);
      case Wait(fds) => PollListens(u, fds, g, x);
    }
  }
}
