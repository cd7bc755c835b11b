/** Why votes are given: every vote of a run answers a request that the voter had reason to grant, so every
    promotion has a majority of electors behind it that had seen the old master fail. */
module Ballots {
  import opened Options
  import opened Slots
  import opened Cluster
  import opened NodeRuns
  import opened ClusterNet
  import opened EpochBound
  import opened Election

  // ---------------------------------------------------------------- one request

  predicate ServesSlot(v: View) {
    v.self in v.nodes && v.nodes[v.self].master && exists j :: 0 <= j < SlotCount(v) && v.table.owner[j] == Some(v.self)
  }

  /** This node knows the sender as a replica of a node that it knows, too. */
  predicate KnowsMaster(v: View, sender: Name) {
    && sender in v.nodes && !v.nodes[sender].master
    && v.nodes[sender].slaveof.Some? && v.nodes[sender].slaveof.value in v.nodes
  }

  /** What this node knows of the sender's master. */
  function MasterOf(v: View, sender: Name): Node
    requires KnowsMaster(v, sender)
  {
    v.nodes[v.nodes[sender].slaveof.value]
  }

  /** A slot the request claims has an owner with a greater epoch. */
  predicate ClaimsNewer(v: View, h: Header) {
    exists j :: 0 <= j < SlotCount(v) && j < |h.slots| && h.slots[j] && v.table.owner[j].Some?
                && v.table.owner[j].value in v.nodes && v.nodes[v.table.owner[j].value].configEpoch > h.configEpoch
  }

  /** A voter serves slots, has not reached a later epoch than the request's nor voted in the request's, has not
      voted for a replica of the same master lately, sees that master failing (unless the vote is forced), and
      knows no claimed slot under a greater epoch. */
  predicate Justified(v: View, h: Header, force: bool, now: int, timeout: nat) {
    && ServesSlot(v)
    && v.currentEpoch <= h.currentEpoch && v.lastVoteEpoch < h.currentEpoch
    && KnowsMaster(v, h.sender)
    && (force || MasterOf(v, h.sender).failed)
    && MasterOf(v, h.sender).votedTime + 2 * timeout <= now
    && !ClaimsNewer(v, h)
  }

  lemma ServesIff(v: View)
    requires Sound(v) && WellFormed(v)
    ensures ServesSlot(v) <==> Me(v).master && SlotsOf(v, v.self).count != 0
  {
    hide Shape, Agrees;
    CountIsZero(v.table, v.self);
  }

  lemma NewerIff(v: View, h: Header)
    requires WellFormed(v) && h.sender in v.nodes && |h.slots| == SlotCount(v)
    ensures ClaimsNewer(v, h) <==> !(EpochsKeepShape(v, h); ClaimIsCurrent(ReceiveEpochs(v, h), h))
  {
    EpochsKeepShape(v, h);
    var w := ReceiveEpochs(v, h);
    forall j | 0 <= j < SlotCount(v) && v.table.owner[j].Some?
      ensures v.table.owner[j].value in v.nodes
      ensures v.nodes[v.table.owner[j].value].configEpoch > h.configEpoch
              <==> w.nodes[v.table.owner[j].value].configEpoch > h.configEpoch
    {
    }
  }

  /** A vote is given exactly when it is justified. */
  lemma VoteIffJustified(v: View, h: Header, force: bool, now: int, timeout: nat)
    requires Sound(v) && WellFormed(v) && Bounded(v) && h.sender in v.nodes && |h.slots| == SlotCount(v)
    ensures ReceiveRequest(v, h, force, now, timeout).1 <==> Justified(v, h, force, now, timeout)
  {
    hide ServesSlot, ClaimsNewer, ClaimIsCurrent, Shape, Agrees;
    ServesIff(v);
    NewerIff(v, h);
    EpochsKeepShape(v, h);
    KnownNames(v, h.sender);
  }

  /** What a request does to the voter: it takes note of the epochs and, if it votes, of the epoch it voted in
      and of when it voted for a replica of that master. */
  lemma VoteIsNoted(v: View, h: Header, force: bool, now: int, timeout: nat)
    requires Sound(v) && WellFormed(v) && Bounded(v) && h.sender in v.nodes && |h.slots| == SlotCount(v)
    ensures var (w, granted) := ReceiveRequest(v, h, force, now, timeout);
      && w.nodes.Keys == v.nodes.Keys && w.currentEpoch == Max(v.currentEpoch, h.currentEpoch)
      && w == v.(nodes := w.nodes, currentEpoch := w.currentEpoch, lastVoteEpoch := w.lastVoteEpoch)
      && w.lastVoteEpoch == (if granted then h.currentEpoch else v.lastVoteEpoch)
      && forall n :: n in v.nodes ==>
           w.nodes[n] == v.nodes[n].(
             configEpoch := if n == h.sender then Max(v.nodes[n].configEpoch, h.configEpoch)
                            else v.nodes[n].configEpoch,
             votedTime := if granted && v.nodes[h.sender].slaveof == Some(n) then now else v.nodes[n].votedTime)
  {
    hide ClaimIsCurrent, Shape, Agrees;
  }

  // ---------------------------------------------------------------- runs

  /** The step delivers a request to the voter, which had reason to grant it. */
  predicate Reason(s: System, st: Step, vt: Vote) {
    && st.Deliver? && st.m.body.RequestBody? && st.m.to == vt.voter && vt.voter in s.nodes
    && st.m.h.sender == vt.candidate && st.m.h.currentEpoch == vt.epoch
    && Justified(s.nodes[vt.voter], st.m.h, st.m.body.force, st.now, st.timeout)
  }

  lemma NewVoteHasReason(s: System, size: nat, st: Step, vt: Vote)
    requires SystemOk(s, size) && BoundedSystem(s) && StepEnabled(s, st)
    requires vt in Next(s, size, st).votes && vt !in s.votes
    ensures Reason(s, st, vt)
  {
    hide Sound, WellFormed, Bounded, BoundedSystem, SystemOk, Justified, Apply, ReceiveRequest, BuildHeader, Counts,
         HandleFailover, FailoverBranch;
    assert st.Deliver?;
    var m := st.m;
    var v := s.nodes[m.to];
    DeliveryEnabled(s, size, m, st.now, st.timeout);
    HasBound(s, m.to);
    assert m.body.RequestBody? && Heard(v, m.h) && ReceiveRequest(v, m.h, m.body.force, st.now, st.timeout).1;
    VoteIffJustified(v, m.h, m.body.force, st.now, st.timeout);
    var granted, h := RequestStep(s, size, m, m.body.force, st.now, st.timeout);
  }

  /** The vote was given at step `i` of the run, with reason. */
  ghost predicate GivenAt(s: System, size: nat, sts: seq<Step>, i: nat, vt: Vote)
    requires SystemOk(s, size)
  {
    i < |sts| && Steps(s, size, sts[..i]) && Reason(Reached(s, size, sts[..i]), sts[i], vt)
  }

  /** Every vote of a run answers a request that its voter had reason to grant when it was delivered. */
  lemma {:induction false} VoteHasReason(s: System, size: nat, sts: seq<Step>, vt: Vote) returns (i: nat)
    requires SystemOk(s, size) && BoundedSystem(s) && Steps(s, size, sts)
    requires vt in Reached(s, size, sts).votes && vt !in s.votes
    ensures GivenAt(s, size, sts, i, vt)
    decreases |sts|
  {
    hide SystemOk, BoundedSystem, Next, StepEnabled, Reason;
    var t := Next(s, size, sts[0]);
    if vt in t.votes {
      i := 0;
      NewVoteHasReason(s, size, sts[0], vt);
      assert sts[..0] == [];
    } else {
      StepOk(s, size, sts[0]);
      StepBounded(s, size, sts[0]);
      var k := VoteHasReason(t, size, sts[1..], vt);
      i := k + 1;
      assert sts[..i][0] == sts[0] && sts[..i][1..] == sts[1..][..k];
    }
  }

  /** Elector `x` saw the candidate's master failing when it voted. */
  ghost predicate SawFailure(s: System, size: nat, sts: seq<Step>, x: Name, p: Promotion)
    requires SystemOk(s, size)
  {
    exists i: nat ::
                && GivenAt(s, size, sts, i, Vote(x, p.epoch, p.replica))
                && var v := Reached(s, size, sts[..i]).nodes[x];
                   KnowsMaster(v, p.replica) && MasterOf(v, p.replica).failed
  }

  predicate IsRequestOf(m: Message, p: Promotion) {
    m.body.RequestBody? && m.h.sender == p.replica && m.h.currentEpoch == p.epoch
  }

  /** No request of this election that was delivered is forced. */
  predicate Unforced(sts: seq<Step>, p: Promotion) {
    forall i :: 0 <= i < |sts| && sts[i].Deliver? && IsRequestOf(sts[i].m, p) ==> !sts[i].m.body.force
  }

  lemma UnforcedSawFailure(s: System, size: nat, sts: seq<Step>, x: Name, p: Promotion, i: nat)
    requires SystemOk(s, size) && Unforced(sts, p) && GivenAt(s, size, sts, i, Vote(x, p.epoch, p.replica))
    ensures SawFailure(s, size, sts, x, p)
  {
    hide SystemOk, Steps, Reached, ClaimsNewer, ServesSlot;
    var v := Reached(s, size, sts[..i]).nodes[x];
    assert KnowsMaster(v, p.replica) && MasterOf(v, p.replica).failed;
  }

  /** A promotion whose requests were not forced has a majority of electors that each had the old master flagged
      as failing when it voted. */
  lemma PromotionHasFailedMaster(s: System, size: nat, sts: seq<Step>, electorate: nat -> set<Name>, p: Promotion)
      returns (q: set<Name>)
    requires SystemOk(s, size) && BoundedSystem(s) && NoElections(s)
    requires Steps(s, size, sts) && InTimeAll(s, size, sts) && AgreedAll(s, size, sts, electorate)
    requires p in Reached(s, size, sts).promotions && Unforced(sts, p)
    ensures Quorum(q, electorate(p.epoch)) && forall x :: x in q ==> SawFailure(s, size, sts, x, p)
  {
    hide SystemOk, BoundedSystem, Steps, Reached, InTimeAll, AgreedAll, SawFailure, Unforced, Quorum, GivenAt;
    StartInv(s, electorate);
    RunKeepsInv(s, size, sts, electorate);
    q := Backers(Reached(s, size, sts), electorate, p);
    forall x | x in q ensures SawFailure(s, size, sts, x, p) {
      var i := VoteHasReason(s, size, sts, Vote(x, p.epoch, p.replica));
      UnforcedSawFailure(s, size, sts, x, p, i);
    }
  }

  lemma StartInv(s: System, electorate: nat -> set<Name>)
    requires NoElections(s)
    ensures Inv(s, electorate)
  {
  }

  lemma Backers(s: System, electorate: nat -> set<Name>, p: Promotion) returns (q: set<Name>)
    requires Inv(s, electorate) && p in s.promotions
    ensures Quorum(q, electorate(p.epoch))
    ensures forall x :: x in q ==> Vote(x, p.epoch, p.replica) in s.votes
  {
    assert PromotionOk(s, p, electorate);
    q :| Quorum(q, electorate(p.epoch)) && VotedFor(s, q, p);
  }

  /** A candidate that claims a slot which an elector knows under a greater epoch gets no vote from it: no vote is
      recorded and no ACK sent. */
  lemma StaleClaimGetsNoVote(s: System, size: nat, m: Message, now: int, timeout: nat)
    requires SystemOk(s, size) && BoundedSystem(s) && m in s.net && m.to in s.nodes && m.body.RequestBody?
    requires ClaimsNewer(s.nodes[m.to], m.h)
    ensures var t := Receive(s, size, m, now, timeout);
      t.votes == s.votes && t.net == s.net - multiset{m}
  {
    hide Sound, WellFormed, Bounded, BoundedSystem, SystemOk, Apply, ReceiveRequest, BuildHeader, ClaimsNewer,
         ServesSlot;
    DeliveryEnabled(s, size, m, now, timeout);
    HasBound(s, m.to);
    if Heard(s.nodes[m.to], m.h) { VoteIffJustified(s.nodes[m.to], m.h, m.body.force, now, timeout); }
  }

  // ---------------------------------------------------------------- votes are spaced

  /** The event makes this node vote for a replica of `n`. */
  ghost predicate VotesFor(v: View, e: Event, n: Name)
    requires WellFormed(v) && Enabled(v, e)
  {
    && e.VoteRequest? && e.h.sender in v.nodes && v.nodes[e.h.sender].slaveof == Some(n)
    && ReceiveRequest(v, e.h, e.force, e.now, e.timeout).1
  }

  lemma VotedTimeKept(v: View, e: Event, n: Name)
    requires Sound(v) && WellFormed(v) && Enabled(v, e) && n in v.nodes && e != ForgetNode(n)
    ensures n in Apply(v, e).nodes
    ensures Apply(v, e).nodes[n].votedTime == if VotesFor(v, e, n) then e.now else v.nodes[n].votedTime
  {
    hide Sound, WellFormed, ReceivePing, ReceiveUpdate, ReceiveRequest, HandleFailover, AckCounts, SetSlotNode,
         AddSlotHere, DelSlotHere, Replicated, Forget, Learn, Serving;
    match e
    case Ping(h) => if Heard(v, h) { PingKeepsTimes(v, h, n); }
    case Update(h, m, epoch, claimed) => if Heard(v, h) { UpdateKeepsTimes(v, h, m, epoch, claimed, n); }
    case VoteRequest(h, force, now, timeout) => if Heard(v, h) { RequestKeepsTimes(v, h, force, now, timeout, n); }
    case VoteAck(h) =>
    case Tick(c) => FailoverKeepsTimes(v, c, n);
    case _ => AdminKeepsTimes(v, e, n);
  }

  lemma ClaimKeepsTimes(v: View, m: Name, epoch: nat, claimed: Bitmap, n: Name)
    requires WellFormed(v) && m in v.nodes && |claimed| == SlotCount(v) && n in v.nodes
    ensures var w := UpdateSlots(v, m, epoch, claimed); n in w.nodes && w.nodes[n].votedTime == v.nodes[n].votedTime
  {
    hide Shape, RebindAll, TakenMask, Loses;
  }

  lemma RequestKeepsTimes(v: View, h: Header, force: bool, now: int, timeout: nat, n: Name)
    requires WellFormed(v) && h.sender in v.nodes && |h.slots| == SlotCount(v) && n in v.nodes
    ensures var (w, granted) := ReceiveRequest(v, h, force, now, timeout);
      && n in w.nodes
      && w.nodes[n].votedTime == if granted && v.nodes[h.sender].slaveof == Some(n) then now else v.nodes[n].votedTime
  {
    hide Shape, ClaimIsCurrent;
  }

  lemma RoleKeepsTimes(v: View, h: Header, n: Name)
    requires WellFormed(v) && h.sender in v.nodes && n in v.nodes
    ensures n in ReceiveRole(v, h).nodes && ReceiveRole(v, h).nodes[n].votedTime == v.nodes[n].votedTime
  {
    hide WellFormed, DelNodeSlots;
  }

  lemma EpochsKeepTimes(v: View, h: Header, n: Name)
    requires h.sender in v.nodes && n in v.nodes
    ensures n in ReceiveEpochs(v, h).nodes && ReceiveEpochs(v, h).nodes[n].votedTime == v.nodes[n].votedTime
  {
  }

  lemma CollisionKeepsTimes(v: View, h: Header, n: Name)
    requires v.self in v.nodes && h.sender in v.nodes && n in v.nodes
    ensures n in ResolveCollision(v, h).nodes && ResolveCollision(v, h).nodes[n].votedTime == v.nodes[n].votedTime
  {
  }

  lemma PingKeepsTimes(v: View, h: Header, n: Name)
    requires Sound(v) && WellFormed(v) && h.sender in v.nodes && h.sender != v.self && |h.slots| == SlotCount(v)
    requires n in v.nodes
    ensures n in ReceivePing(v, h).nodes && ReceivePing(v, h).nodes[n].votedTime == v.nodes[n].votedTime
  {
    hide WellFormed, Sound, UpdateSlots, ClaimsDiffer, ReceiveRole, ReceiveEpochs, ResolveCollision;
    EpochsSound(v, h);
    EpochsKeepTimes(v, h, n);
    var e := ReceiveEpochs(v, h);
    SoundIsWellFormed(e);
    RoleSound(e, h);
    RoleKeepsTimes(e, h, n);
    var w := ReceiveRole(e, h);
    SoundIsWellFormed(w);
    ClaimKeepsTimes(w, h.sender, h.configEpoch, h.slots, n);
    ClaimKeepsShape(w, h);
    CollisionKeepsTimes(ReceiveClaim(w, h), h, n);
  }

  lemma UpdateKeepsTimes(v: View, h: Header, m: Name, epoch: nat, claimed: Bitmap, n: Name)
    requires Sound(v) && WellFormed(v) && h.sender in v.nodes && |claimed| == SlotCount(v) && n in v.nodes
    ensures var w := ReceiveUpdate(v, h, m, epoch, claimed);
      n in w.nodes && w.nodes[n].votedTime == v.nodes[n].votedTime
  {
    hide WellFormed, Sound, UpdateSlots;
    EpochsSound(v, h);
    var w := ReceiveEpochs(v, h);
    SoundIsWellFormed(w);
    if m in w.nodes && w.nodes[m].configEpoch < epoch {
      ReportKeepsShape(w, m, epoch);
      ClaimKeepsTimes(SetNode(w, m, Reported(w.nodes[m], epoch)), m, epoch, claimed, n);
    }
  }

  lemma FailoverKeepsTimes(v: View, c: Clock, n: Name)
    requires WellFormed(v) && n in v.nodes
    ensures n in HandleFailover(v, c).nodes && HandleFailover(v, c).nodes[n].votedTime == v.nodes[n].votedTime
  {
    hide Shape, RebindAll, FailoverBranch;
  }

  lemma AssignKeepsTimes(v: View, j: nat, m: Name, keys: nat, n: Name)
    requires WellFormed(v) && j < SlotCount(v) && n in v.nodes
    ensures var w := SetSlotNode(v, j, m, keys); n in w.nodes && w.nodes[n].votedTime == v.nodes[n].votedTime
  {
    hide Shape, Rebind, MaxEpoch;
  }

  lemma ReplicateKeepsTimes(v: View, m: Name, keys: nat, n: Name)
    requires WellFormed(v) && n in v.nodes
    ensures var w := Replicated(v, m, keys); n in w.nodes && w.nodes[n].votedTime == v.nodes[n].votedTime
  {
    hide Shape;
  }

  lemma AdminKeepsTimes(v: View, e: Event, n: Name)
    requires WellFormed(v) && Enabled(v, e) && Local(e) && n in v.nodes && e != ForgetNode(n)
    ensures n in Apply(v, e).nodes && Apply(v, e).nodes[n].votedTime == v.nodes[n].votedTime
  {
    hide WellFormed, Shape, SetSlotNode, Replicated, AddSlot, DelSlot, DelAll, Serving;
    match e
    case AssignSlot(j, m, keys) => AssignKeepsTimes(v, j, m, keys, n);
    case Replicate(m, keys) => ReplicateKeepsTimes(v, m, keys, n);
    case _ =>
  }

  /** The clock does not fall below `since`, and `n` is not forgotten. */
  predicate From(es: seq<Event>, since: int, n: Name) {
    forall i :: 0 <= i < |es| ==> (es[i].VoteRequest? ==> es[i].now >= since) && es[i] != ForgetNode(n)
  }

  /** Once a node has voted for a replica of `n` at time `since`, every later vote it gives to a replica of `n` is
      at least twice the node timeout later, whatever happens in between. */
  lemma {:induction false} VotesAreSpaced(v: View, es: seq<Event>, n: Name, since: int, e: Event)
    requires Sound(v) && n in v.nodes && v.nodes[n].votedTime >= since
    requires Runs(v, es) && From(es + [e], since, n)
    requires var w := Final(v, es); WellFormed(w) && Bounded(w) && Sound(w) && Enabled(w, e) && VotesFor(w, e, n)
    ensures e.now - since >= 2 * e.timeout
    decreases |es|
  {
    hide Sound, WellFormed, Apply, ReceiveRequest, Bounded;
    assert (es + [e])[|es|] == e;
    if es == [] {
      VoteIffJustified(v, e.h, e.force, e.now, e.timeout);
    } else {
      assert (es + [e])[0] == es[0] && (es + [e])[1..] == es[1..] + [e];
      SoundIsWellFormed(v);
      EventSound(v, es[0]);
      VotedTimeKept(v, es[0], n);
      VotesAreSpaced(Apply(v, es[0]), es[1..], n, since, e);
    }
  }
}
