/** Failover goes through: a replica that asks for votes and has a majority of masters with reason to vote for it is
    promoted, by a run of the cluster in which their packets arrive. */
module Failover {
  import opened Options
  import opened Slots
  import opened Cluster
  import opened NodeRuns
  import opened ClusterNet
  import opened EpochBound
  import opened Succession
  import opened Packets
  import opened Ballots

  // ---------------------------------------------------------------- single steps

  /** Starting an election sends a request with the new epoch to every known node. */
  lemma ElectionIsAnnounced(s: System, size: nat, n: Name, c: Clock)
    requires SystemOk(s, size) && n in s.nodes && WellFormed(s.nodes[n]) && FailoverBranch(s.nodes[n], c) == Request
    ensures var v, t := s.nodes[n], Expire(s, size, n, c);
      && t.nodes == s.nodes[n := HandleFailover(v, c)] && WellFormed(t.nodes[n])
      && BuildHeader(t.nodes[n]).sender == n && BuildHeader(t.nodes[n]).currentEpoch == v.currentEpoch + 1
      && forall q :: q in v.nodes && q != n ==>
           Message(q, BuildHeader(t.nodes[n]), RequestBody(c.manualSet)) in t.net
  {
    hide Sound, WellFormed, SystemOk, BuildHeader, HandleFailover, FailoverBranch;
    NodeIsSound(s, size, n);
    var v, t := s.nodes[n], Expire(s, size, n, c);
    BranchChanges(v, c);
    var w := HandleFailover(v, c);
    FailoverSound(v, c);
    SoundIsWellFormed(w);
    HeaderSize(w);
    forall q | q in v.nodes && q != n ensures Message(q, BuildHeader(w), RequestBody(c.manualSet)) in t.net {
      assert Message(q, BuildHeader(w), RequestBody(c.manualSet)) in Requests(w, c.manualSet);
    }
  }

  /** A request that the receiver has reason to grant is granted: the vote is recorded and an ACK with the
      request's epoch is on its way. */
  lemma VoteIsSent(s: System, size: nat, m: Message, now: int, timeout: nat) returns (ack: Message)
    requires SystemOk(s, size) && BoundedSystem(s) && m in s.net && m.to in s.nodes && m.body.RequestBody?
    requires Justified(s.nodes[m.to], m.h, m.body.force, now, timeout)
    ensures var t := Receive(s, size, m, now, timeout);
      && t.nodes.Keys == s.nodes.Keys && (forall k :: k in s.nodes && k != m.to ==> t.nodes[k] == s.nodes[k])
      && t.net == s.net - multiset{m} + multiset{ack}
      && Vote(m.to, m.h.currentEpoch, m.h.sender) in t.votes
      && ack.to == m.h.sender && ack.body == AckBody && ack.h.sender == m.to && ack.h.currentEpoch == m.h.currentEpoch
  {
    hide Sound, WellFormed, Bounded, BoundedSystem, SystemOk, ReceiveRequest, BuildHeader, Justified, Apply;
    DeliveryEnabled(s, size, m, now, timeout);
    HasBound(s, m.to);
    var v, e := s.nodes[m.to], EventOf(m, now, timeout);
    assert Heard(v, m.h) by { JustifiedIsHeard(v, m.h, m.body.force, now, timeout); }
    VoteIffJustified(v, m.h, m.body.force, now, timeout);
    EventSound(v, e);
    var w := Apply(v, e);
    SoundIsWellFormed(w);
    HeaderSize(w);
    VoteEpoch(v, m.h, m.body.force, now, timeout);
    ack := Message(m.h.sender, BuildHeader(w), AckBody);
  }

  lemma JustifiedIsHeard(v: View, h: Header, force: bool, now: int, timeout: nat)
    requires Justified(v, h, force, now, timeout)
    ensures Heard(v, h) && v.currentEpoch <= h.currentEpoch
  {
  }

  lemma VoteEpoch(v: View, h: Header, force: bool, now: int, timeout: nat)
    requires Sound(v) && WellFormed(v) && Bounded(v) && Enabled(v, VoteRequest(h, force, now, timeout))
    requires Justified(v, h, force, now, timeout)
    ensures Apply(v, VoteRequest(h, force, now, timeout)).currentEpoch == h.currentEpoch
    ensures Apply(v, VoteRequest(h, force, now, timeout)).self == v.self
  {
    hide Sound, WellFormed, Bounded, ReceiveRequest, ServesSlot, ClaimsNewer;
    VoteIsNoted(v, h, force, now, timeout);
  }

  /** The node knows the other one as a master that owns a slot. */
  predicate Sees(v: View, q: Name) {
    q in v.nodes && v.nodes[q].master && exists j :: 0 <= j < SlotCount(v) && v.table.owner[j] == Some(q)
  }

  /** An ACK of the election's epoch from a master that the candidate sees is counted. */
  lemma AckArrives(s: System, size: nat, m: Message, now: int, timeout: nat)
    requires SystemOk(s, size) && m in s.net && m.to in s.nodes && m.body == AckBody
    requires Sees(s.nodes[m.to], m.h.sender) && m.h.currentEpoch >= s.nodes[m.to].authEpoch
    ensures var t := Receive(s, size, m, now, timeout);
      && t.nodes.Keys == s.nodes.Keys && (forall k :: k in s.nodes && k != m.to ==> t.nodes[k] == s.nodes[k])
      && t.net == s.net - multiset{m}
      && CountedUp(s.nodes[m.to], t.nodes[m.to], 1)
  {
    hide Sound, WellFormed, SystemOk, ReceiveAck, CountedUp, Counts;
    DeliveryEnabled(s, size, m, now, timeout);
    AckCountsUp(s.nodes[m.to], m.h);
  }

  // ---------------------------------------------------------------- all the votes

  lemma StepThen(s: System, size: nat, st: Step, rest: seq<Step>)
    requires SystemOk(s, size) && StepEnabled(s, st)
    requires SystemOk(Next(s, size, st), size) && Steps(Next(s, size, st), size, rest)
    ensures Steps(s, size, [st] + rest) && Reached(s, size, [st] + rest) == Reached(Next(s, size, st), size, rest)
  {
    hide SystemOk, StepEnabled, Next;
    assert ([st] + rest)[0] == st && ([st] + rest)[1..] == rest;
  }

  predicate Distinct(qs: seq<Name>) {
    forall i, j :: 0 <= i < j < |qs| ==> qs[i] != qs[j]
  }

  /** The candidate's request is on its way to `q`, which will have reason to grant it. */
  predicate WillVote(s: System, q: Name, h: Header, force: bool, now: int, timeout: nat) {
    && q in s.nodes && q != h.sender && Message(q, h, RequestBody(force)) in s.net
    && Justified(s.nodes[q], h, force, now, timeout)
  }

  /** The request to `q` arrives there, and the ACK at the candidate. */
  lemma OneVote(s: System, size: nat, q: Name, h: Header, force: bool, now: int, timeout: nat)
      returns (sts: seq<Step>, t: System)
    requires SystemOk(s, size) && BoundedSystem(s) && h.sender in s.nodes && WillVote(s, q, h, force, now, timeout)
    requires Sees(s.nodes[h.sender], q) && s.nodes[h.sender].authEpoch <= h.currentEpoch
    ensures |sts| == 2 && Steps(s, size, sts) && t == Reached(s, size, sts) && SystemOk(t, size) && BoundedSystem(t)
    ensures t.nodes.Keys == s.nodes.Keys && CountedUp(s.nodes[h.sender], t.nodes[h.sender], 1)
    ensures forall k :: k in s.nodes && k != q && k != h.sender ==> t.nodes[k] == s.nodes[k]
    ensures t.net == s.net - multiset{Message(q, h, RequestBody(force))}
  {
    hide SystemOk, BoundedSystem, Receive, Justified, CountedUp, Sees, Steps, Reached;
    var m := Message(q, h, RequestBody(force));
    var ack := VoteIsSent(s, size, m, now, timeout);
    var first, second := Deliver(m, now, timeout), Deliver(ack, now, timeout);
    StepOk(s, size, first);
    StepBounded(s, size, first);
    var u := Next(s, size, first);
    AckArrives(u, size, ack, now, timeout);
    StepOk(u, size, second);
    StepBounded(u, size, second);
    t := Next(u, size, second);
    NoSteps(t, size);
    StepThen(u, size, second, []);
    StepThen(s, size, first, [second] + []);
    sts := [first] + ([second] + []);
    assert t.net == s.net - multiset{m} + multiset{ack} - multiset{ack};
  }

  lemma NoSteps(s: System, size: nat)
    requires SystemOk(s, size)
    ensures Steps(s, size, []) && Reached(s, size, []) == s
  {
  }

  lemma StillSees(v: View, w: View, q: Name, k: nat)
    requires Sees(v, q) && CountedUp(v, w, k)
    ensures Sees(w, q)
  {
  }

  lemma {:induction false} VotesComeIn(s: System, size: nat, qs: seq<Name>, h: Header, force: bool, now: int,
      timeout: nat) returns (sts: seq<Step>)
    requires SystemOk(s, size) && BoundedSystem(s) && h.sender in s.nodes && Distinct(qs)
    requires forall i :: 0 <= i < |qs| ==>
      WillVote(s, qs[i], h, force, now, timeout) && Sees(s.nodes[h.sender], qs[i])
    requires s.nodes[h.sender].authEpoch <= h.currentEpoch
    ensures Steps(s, size, sts)
    ensures var t := Reached(s, size, sts);
      && SystemOk(t, size) && BoundedSystem(t)
      && h.sender in t.nodes && CountedUp(s.nodes[h.sender], t.nodes[h.sender], |qs|)
    decreases |qs|
  {
    hide SystemOk, BoundedSystem, Justified, CountedUp, Sees, Steps, Reached;
    var n := h.sender;
    if qs == [] {
      sts := [];
      NoSteps(s, size);
      NothingCounted(s.nodes[n]);
    } else {
      var first, t := OneVote(s, size, qs[0], h, force, now, timeout);
      forall i | 0 <= i < |qs[1..]|
        ensures WillVote(t, qs[1..][i], h, force, now, timeout) && Sees(t.nodes[n], qs[1..][i])
      {
        var q := qs[i + 1];
        assert q == qs[1..][i] && q != qs[0];
        assert WillVote(s, q, h, force, now, timeout);
        assert Message(q, h, RequestBody(force)) != Message(qs[0], h, RequestBody(force));
        StillSees(s.nodes[n], t.nodes[n], q, 1);
      }
      SameElection(s.nodes[n], t.nodes[n], 1);
      var rest := VotesComeIn(t, size, qs[1..], h, force, now, timeout);
      RunThen(s, size, first, rest);
      sts := first + rest;
      CountsAdd(s.nodes[n], t.nodes[n], Reached(t, size, rest).nodes[n], 1, |qs[1..]|);
    }
  }

  lemma SameElection(v: View, w: View, k: nat)
    requires CountedUp(v, w, k)
    ensures w.authEpoch == v.authEpoch
  {
  }

  lemma {:induction false} RunThen(s: System, size: nat, sts: seq<Step>, rest: seq<Step>)
    requires SystemOk(s, size) && Steps(s, size, sts)
    requires SystemOk(Reached(s, size, sts), size) && Steps(Reached(s, size, sts), size, rest)
    ensures Steps(s, size, sts + rest) && Reached(s, size, sts + rest) == Reached(Reached(s, size, sts), size, rest)
    decreases |sts|
  {
    hide SystemOk, StepEnabled, Next;
    if sts == [] {
      assert [] + rest == rest;
    } else {
      StepOk(s, size, sts[0]);
      RunThen(Next(s, size, sts[0]), size, sts[1..], rest);
      assert (sts + rest)[0] == sts[0] && (sts + rest)[1..] == sts[1..] + rest;
    }
  }

  // ---------------------------------------------------------------- the whole failover

  /** The candidate's view once it has asked for votes. */
  ghost function Asking(s: System, size: nat, n: Name, c: Clock): (w: View)
    requires SystemOk(s, size) && n in s.nodes
    ensures WellFormed(w)
  {
    NodeIsSound(s, size, n);
    FailoverSound(s.nodes[n], c);
    SoundIsWellFormed(HandleFailover(s.nodes[n], c));
    HandleFailover(s.nodes[n], c)
  }

  /** Masters that the candidate sees, more than half of the cluster's, each of which has reason to grant the
      request the candidate is about to send. */
  ghost predicate Majority(s: System, size: nat, n: Name, c: Clock, qs: seq<Name>, now: int, timeout: nat)
    requires SystemOk(s, size) && n in s.nodes
  {
    && Distinct(qs) && 2 * |qs| > s.nodes[n].size
    && forall i :: 0 <= i < |qs| ==>
         && qs[i] in s.nodes && qs[i] != n && Sees(s.nodes[n], qs[i])
         && Justified(s.nodes[qs[i]], BuildHeader(Asking(s, size, n, c)), c.manualSet, now, timeout)
  }

  /** The timer after the votes have arrived: still a reason to act, and in time. */
  ghost predicate InWindow(s: System, size: nat, n: Name, c: Clock, later: Clock)
    requires SystemOk(s, size) && n in s.nodes
  {
    var w := Asking(s, size, n, c);
    MayAct(w, later) && w.authTime <= later.now <= w.authTime + Lifetime(later)
  }

  ghost predicate Asks(s: System, size: nat, n: Name, c: Clock)
    requires SystemOk(s, size) && n in s.nodes
  {
    NodeIsSound(s, size, n);
    FailoverBranch(s.nodes[n], c) == Request && s.nodes[n].authCount == 0
  }

  /** A replica that asks for votes, of whose masters a majority has reason to vote for it, can be promoted: there is
      a run at whose end it is a master with the election's epoch and owns its old master's slots. */
  lemma FailoverHappens(s: System, size: nat, n: Name, c: Clock, qs: seq<Name>, now: int, timeout: nat, later: Clock)
      returns (sts: seq<Step>)
    requires SystemOk(s, size) && BoundedSystem(s) && n in s.nodes && Asks(s, size, n, c)
    requires Majority(s, size, n, c, qs, now, timeout) && InWindow(s, size, n, c, later)
    ensures Steps(s, size, sts)
    ensures var v, t := s.nodes[n], Reached(s, size, sts);
      && Promotion(n, v.currentEpoch + 1) in t.promotions
      && n in t.nodes && n in t.nodes[n].nodes && SlotCount(t.nodes[n]) == SlotCount(v)
      && t.nodes[n].nodes[n].master && t.nodes[n].nodes[n].configEpoch == v.currentEpoch + 1
      && v.self in v.nodes
      && forall j :: 0 <= j < SlotCount(v) && IsMasters(v, j) ==> t.nodes[n].table.owner[j] == Some(n)
  {
    hide SystemOk, BoundedSystem, Justified, CountedUp, Sees, Steps, Reached, Sound, WellFormed, BuildHeader, Receive,
         Expire, FailoverBranch, HandleFailover, MayAct, TakeOver;
    NodeIsSound(s, size, n);
    var v := s.nodes[n];
    var first, last := Timer(n, c), Timer(n, later);
    ElectionIsAnnounced(s, size, n, c);
    StepOk(s, size, first);
    StepBounded(s, size, first);
    var t := Next(s, size, first);
    var w, h := t.nodes[n], BuildHeader(t.nodes[n]);
    AskingKeeps(s, size, n, c);
    forall i | 0 <= i < |qs| ensures WillVote(t, qs[i], h, c.manualSet, now, timeout) && Sees(w, qs[i]) {
      SeenIsKnown(v, qs[i]);
      SeesSame(v, w, qs[i]);
    }
    var mid := VotesComeIn(t, size, qs, h, c.manualSet, now, timeout);
    var u := Reached(t, size, mid);
    WinnerAtLast(u, size, n, w, |qs|, later);
    StepOk(u, size, last);
    NoSteps(Next(u, size, last), size);
    StepThen(u, size, last, []);
    RunThen(t, size, mid, [last] + []);
    StepThen(s, size, first, mid + ([last] + []));
    sts := [first] + (mid + ([last] + []));
  }

  lemma SeenIsKnown(v: View, q: Name)
    requires Sees(v, q)
    ensures q in v.nodes
  {
  }

  lemma SeesSame(v: View, w: View, q: Name)
    requires Sees(v, q) && w.nodes == v.nodes && w.table == v.table
    ensures Sees(w, q)
  {
  }

  lemma AskingKeeps(s: System, size: nat, n: Name, c: Clock)
    requires SystemOk(s, size) && n in s.nodes && Asks(s, size, n, c)
    ensures var v, w := s.nodes[n], Asking(s, size, n, c);
      && w.nodes == v.nodes && w.table == v.table && w.self == v.self == n && w.size == v.size && w.authSent
      && w.authCount == 0 && w.authEpoch == w.currentEpoch == v.currentEpoch + 1
      && v.self in v.nodes && !v.nodes[n].master
  {
    hide SystemOk, Sound, HandleFailover, FailoverBranch;
    NodeIsSound(s, size, n);
    BranchChanges(s.nodes[n], c);
    BranchMeans(s.nodes[n], c);
  }

  /** The candidate's last timer. */
  lemma WinnerAtLast(u: System, size: nat, n: Name, w: View, k: nat, c: Clock)
    requires SystemOk(u, size) && n in u.nodes && WellFormed(w) && CountedUp(w, u.nodes[n], k) && w.authCount == 0
    requires w.authSent && 2 * k > w.size && MayAct(w, c) && w.authTime <= c.now <= w.authTime + Lifetime(c)
    requires w.self == n
    ensures var t := Next(u, size, Timer(n, c));
      && Promotion(n, w.authEpoch) in t.promotions
      && n in t.nodes && n in t.nodes[n].nodes && SlotCount(t.nodes[n]) == SlotCount(w)
      && t.nodes[n].nodes[n].master && t.nodes[n].nodes[n].configEpoch == w.authEpoch
      && forall j :: 0 <= j < SlotCount(w) && IsMasters(w, j) ==> t.nodes[n].table.owner[j] == Some(n)
  {
    hide SystemOk, Sound, Shape, Agrees, FailoverBranch, TakeOver;
    NodeIsSound(u, size, n);
    var v := u.nodes[n];
    assert MayAct(v, c) by { MayActSame(w, v, k, c); }
    BranchMeans(v, c);
    PromotionTakesOver(v);
  }

  lemma MayActSame(v: View, w: View, k: nat, c: Clock)
    requires WellFormed(v) && WellFormed(w) && CountedUp(v, w, k) && MayAct(v, c)
    ensures MayAct(w, c)
  {
    hide Shape;
  }
}
