/** Election safety: no two different replicas are ever promoted in the same epoch.

    The assumptions are the ones the protocol rests on: votes are not forgotten by a restart,
    an ACK of an old election does not arrive once the next one has been scheduled, and the
    candidates of an epoch agree on which masters serve slots. */
module Election {
  import opened Slots
  import opened Cluster
  import opened NodeRuns
  import opened ClusterNet
  import opened EpochBound

  /** The fields an election lives in. */
  datatype Ballot = Ballot(lastVoteEpoch: nat, authEpoch: nat, authCount: nat, authSent: bool)

  function BallotOf(v: View): Ballot {
    Ballot(v.lastVoteEpoch, v.authEpoch, v.authCount, v.authSent)
  }

  // ---------------------------------------------------------------- what one event does to a ballot

  lemma PingKeepsBallot(v: View, h: Header)
    requires Sound(v) && WellFormed(v) && h.sender in v.nodes && h.sender != v.self && |h.slots| == SlotCount(v)
    ensures BallotOf(ReceivePing(v, h)) == BallotOf(v)
  {
    hide WellFormed, Sound, ReceiveRole, UpdateSlots, ClaimsDiffer;
    EpochsSound(v, h);
    var e := ReceiveEpochs(v, h);
    SoundIsWellFormed(e);
    RoleSound(e, h);
    RoleKeepsEpochs(e, h);
    var w := ReceiveRole(e, h);
    SoundIsWellFormed(w);
    ClaimKeepsEpochs(w, h.sender, h.configEpoch, h.slots);
  }

  lemma UpdateKeepsBallot(v: View, h: Header, n: Name, epoch: nat, claimed: Bitmap)
    requires Sound(v) && WellFormed(v) && h.sender in v.nodes && |claimed| == SlotCount(v)
    ensures BallotOf(ReceiveUpdate(v, h, n, epoch, claimed)) == BallotOf(v)
  {
    hide WellFormed, Sound, UpdateSlots;
    EpochsSound(v, h);
    var w := ReceiveEpochs(v, h);
    SoundIsWellFormed(w);
    if n in w.nodes && w.nodes[n].configEpoch < epoch {
      SetNodeKeepsShape(w, n, Reported(w.nodes[n], epoch)) by { KnownNames(w, n); KnownNames(w, w.self); }
      ClaimKeepsEpochs(SetNode(w, n, Reported(w.nodes[n], epoch)), n, epoch, claimed);
    }
  }

  lemma AdminKeepsBallot(v: View, e: Event)
    requires WellFormed(v) && Enabled(v, e) && Local(e)
    ensures BallotOf(Apply(v, e)) == BallotOf(v)
  {
    hide Shape, Rebind, AddSlot, DelSlot, DelAll, Serving, MaxEpoch;
  }

  /** A granted vote is for the request's own epoch, and that epoch is greater than every epoch this
      node voted in before. */
  lemma GrantedVoteIsNewer(v: View, h: Header, force: bool, now: int, timeout: nat)
    requires WellFormed(v) && Bounded(v) && h.sender in v.nodes && |h.slots| == SlotCount(v)
    ensures var (w, granted) := ReceiveRequest(v, h, force, now, timeout);
      && BallotOf(w) == BallotOf(v).(lastVoteEpoch := w.lastVoteEpoch)
      && (granted ==> v.lastVoteEpoch < w.lastVoteEpoch == w.currentEpoch == h.currentEpoch)
      && (!granted ==> w.lastVoteEpoch == v.lastVoteEpoch)
  {
    hide Shape, ClaimIsCurrent;
  }

  /** A counted ACK comes from a master serving slots and is not older than the election. */
  lemma AckEffect(v: View, h: Header)
    requires WellFormed(v) && h.sender in v.nodes
    ensures BallotOf(ReceiveAck(v, h)) == BallotOf(v).(authCount := v.authCount + if Counts(v, h) then 1 else 0)
    ensures Counts(v, h) ==> h.sender in Serving(v) && h.currentEpoch >= v.authEpoch
  {
    hide Shape;
  }

  lemma FailoverEffect(v: View, c: Clock)
    requires WellFormed(v)
    ensures var b, w := BallotOf(v), HandleFailover(v, c);
      match FailoverBranch(v, c)
      case Schedule => BallotOf(w) == b.(authCount := 0, authSent := false)
      case Request => !b.authSent && BallotOf(w) == b.(authEpoch := v.currentEpoch + 1, authSent := true)
                      && w.currentEpoch == w.authEpoch
      case Promote => b.authSent && b.authCount >= v.size / 2 + 1 && BallotOf(w) == b
      case _ => BallotOf(w) == b
  {
    hide Shape, RebindAll;
  }

  // ---------------------------------------------------------------- the invariant

  /** More than half of the electorate. */
  predicate Quorum(q: set<Name>, electorate: set<Name>) {
    q <= electorate && 2 * |q| > |electorate|
  }

  predicate VoteOk(s: System, vt: Vote) {
    && vt.voter in s.nodes && vt.candidate in s.nodes
    && vt.epoch <= s.nodes[vt.voter].lastVoteEpoch
    && vt.epoch <= s.nodes[vt.candidate].authEpoch
  }

  predicate OneVote(s: System) {
    forall a, b :: a in s.votes && b in s.votes && a.voter == b.voter && a.epoch == b.epoch ==> a == b
  }

  /** A request carries at most its sender's election epoch.  An ACK in flight stands for one vote,
      and that vote has not been counted in the candidate's election. */
  predicate PacketOk(s: System, m: Message)
    requires s.counted.Keys == s.nodes.Keys
  {
    && (m.body.RequestBody? ==> m.h.sender in s.nodes && m.h.currentEpoch <= s.nodes[m.h.sender].authEpoch)
    && (m.body.AckBody? ==>
          && m.to in s.nodes
          && Vote(m.h.sender, m.h.currentEpoch, m.to) in s.votes
          && s.net[m] == 1
          && (m.h.currentEpoch == s.nodes[m.to].authEpoch ==> m.h.sender !in s.counted[m.to]))
  }

  predicate SameAck(a: Message, b: Message) {
    a.body.AckBody? && b.body.AckBody? && a.to == b.to && a.h.sender == b.h.sender
        && a.h.currentEpoch == b.h.currentEpoch
  }

  predicate OneAck(s: System) {
    forall a, b {:trigger SameAck(a, b)} :: a in s.net && b in s.net && SameAck(a, b) ==> a == b
  }

  /** A candidate's count is the number of members of the electorate that voted for it in its election. */
  predicate CandidateOk(s: System, c: Name, electorate: nat -> set<Name>)
    requires s.counted.Keys == s.nodes.Keys && c in s.nodes
  {
    var v := s.nodes[c];
    && v.authCount == |s.counted[c]|
    && (!v.authSent ==> s.counted[c] == {})
    && (forall x :: x in s.counted[c] ==> Vote(x, v.authEpoch, c) in s.votes && x in electorate(v.authEpoch))
  }

  predicate VotedFor(s: System, q: set<Name>, p: Promotion) {
    forall x :: x in q ==> Vote(x, p.epoch, p.replica) in s.votes
  }

  ghost predicate PromotionOk(s: System, p: Promotion, electorate: nat -> set<Name>) {
    exists q :: Quorum(q, electorate(p.epoch)) && VotedFor(s, q, p)
  }

  ghost predicate Inv(s: System, electorate: nat -> set<Name>) {
    && s.counted.Keys == s.nodes.Keys
    && OneVote(s)
    && OneAck(s)
    && (forall vt {:trigger VoteOk(s, vt)} :: vt in s.votes ==> VoteOk(s, vt))
    && (forall m {:trigger PacketOk(s, m)} :: m in s.net ==> PacketOk(s, m))
    && (forall c {:trigger CandidateOk(s, c, electorate)} :: c in s.nodes ==> CandidateOk(s, c, electorate))
    && (forall p {:trigger PromotionOk(s, p, electorate)} :: p in s.promotions ==> PromotionOk(s, p, electorate))
  }

  /** Two majorities of one electorate share a member. */
  lemma QuorumsMeet(a: set<Name>, b: set<Name>, electorate: set<Name>)
    requires Quorum(a, electorate) && Quorum(b, electorate)
    ensures exists x :: x in a && x in b
  {
    if a !! b {
      assert |a + b| == |a| + |b|;
      SubsetSize(a + b, electorate);
    }
  }

  lemma {:induction false} SubsetSize(a: set<Name>, b: set<Name>)
    requires a <= b
    ensures |a| <= |b|
  {
    if a != {} {
      var x :| x in a;
      SubsetSize(a - {x}, b - {x});
    }
  }

  /** What the invariant is for: two replicas are never promoted in one epoch. */
  lemma PromotionsAreUnique(s: System, electorate: nat -> set<Name>, p: Promotion, r: Promotion)
    requires Inv(s, electorate) && p in s.promotions && r in s.promotions && p.epoch == r.epoch
    ensures p.replica == r.replica
  {
    assert PromotionOk(s, p, electorate) && PromotionOk(s, r, electorate);
    var a :| Quorum(a, electorate(p.epoch)) && VotedFor(s, a, p);
    var b :| Quorum(b, electorate(r.epoch)) && VotedFor(s, b, r);
    QuorumsMeet(a, b, electorate(p.epoch));
    var x :| x in a && x in b;
    assert Vote(x, p.epoch, p.replica) in s.votes && Vote(x, r.epoch, r.replica) in s.votes;
  }

  // ---------------------------------------------------------------- kinds of steps

  /** Every node but `n` keeps its ballot. */
  predicate OthersKeep(s: System, t: System, n: Name) {
    && t.nodes.Keys == s.nodes.Keys == t.counted.Keys == s.counted.Keys
    && n in s.nodes
    && (forall k :: k in s.nodes && k != n ==>
        BallotOf(t.nodes[k]) == BallotOf(s.nodes[k]) && t.counted[k] == s.counted[k])
  }

  /** No vote packet appears. */
  ghost predicate NoNewVotes(s: System, t: System) {
    forall m: Message :: m.body.RequestBody? || m.body.AckBody? ==> t.net[m] <= s.net[m]
  }

  /** Nothing about elections changes, except that vote packets may disappear. */
  ghost predicate Calm(s: System, t: System, n: Name) {
    && s.counted.Keys == s.nodes.Keys
    && OthersKeep(s, t, n) && NoNewVotes(s, t)
    && BallotOf(t.nodes[n]) == BallotOf(s.nodes[n])
    && t.counted[n] == s.counted[n] && t.votes == s.votes && t.promotions == s.promotions
  }

  lemma CalmKeepsInv(s: System, t: System, n: Name, electorate: nat -> set<Name>)
    requires Inv(s, electorate) && Calm(s, t, n)
    ensures Inv(t, electorate)
  {
    forall vt | vt in t.votes ensures VoteOk(t, vt) {
      assert VoteOk(s, vt);
      assert BallotOf(t.nodes[vt.voter]) == BallotOf(s.nodes[vt.voter]);
      assert BallotOf(t.nodes[vt.candidate]) == BallotOf(s.nodes[vt.candidate]);
    }
    forall m | m in t.net ensures PacketOk(t, m) {
      if m.body.RequestBody? || m.body.AckBody? {
        assert m in s.net && PacketOk(s, m);
        if m.body.RequestBody? { assert BallotOf(t.nodes[m.h.sender]) == BallotOf(s.nodes[m.h.sender]); }
      }
    }
    forall c | c in t.nodes ensures CandidateOk(t, c, electorate) {
      assert CandidateOk(s, c, electorate);
      assert BallotOf(t.nodes[c]) == BallotOf(s.nodes[c]);
    }
    PromotionsStay(s, t, electorate);
  }

  lemma PromotionsStay(s: System, t: System, electorate: nat -> set<Name>)
    requires Inv(s, electorate) && s.votes <= t.votes
    ensures forall p :: p in s.promotions ==> PromotionOk(t, p, electorate)
  {
    forall p | p in s.promotions ensures PromotionOk(t, p, electorate) {
      assert PromotionOk(s, p, electorate);
      var q :| Quorum(q, electorate(p.epoch)) && VotedFor(s, q, p);
      assert VotedFor(t, q, p);
    }
  }

  /** Node `x` votes for `c` in an epoch it has not voted in, and its ACK sets out. */
  ghost predicate Granted(s: System, t: System, x: Name, c: Name, ack: Message) {
    && s.counted.Keys == s.nodes.Keys
    && OthersKeep(s, t, x) && t.counted[x] == s.counted[x] && t.promotions == s.promotions
    && ack.body.AckBody? && ack.to == c && ack.h.sender == x
    && c in s.nodes && ack.h.currentEpoch <= s.nodes[c].authEpoch
    && s.nodes[x].lastVoteEpoch < ack.h.currentEpoch == t.nodes[x].lastVoteEpoch
    && BallotOf(t.nodes[x]) == BallotOf(s.nodes[x]).(lastVoteEpoch := t.nodes[x].lastVoteEpoch)
    && t.votes == s.votes + {Vote(x, ack.h.currentEpoch, c)}
    && (forall m: Message :: m.body.RequestBody? || m.body.AckBody? ==>
        t.net[m] <= s.net[m] + if m == ack then 1 else 0)
  }

  lemma GrantKeepsInv(s: System, t: System, x: Name, c: Name, ack: Message, electorate: nat -> set<Name>)
    requires Inv(s, electorate) && Granted(s, t, x, c, ack)
    ensures Inv(t, electorate)
  {
    NewVoteIsUnique(s, x, ack.h.currentEpoch, electorate);
    forall vt | vt in t.votes ensures VoteOk(t, vt) {
      assert vt in s.votes ==> VoteOk(s, vt);
      assert BallotOf(t.nodes[vt.candidate]).authEpoch == BallotOf(s.nodes[vt.candidate]).authEpoch;
      assert vt.voter != x ==> BallotOf(t.nodes[vt.voter]) == BallotOf(s.nodes[vt.voter]);
    }
    GrantKeepsPackets(s, t, x, c, ack, electorate);
    forall k | k in t.nodes ensures CandidateOk(t, k, electorate) {
      assert CandidateOk(s, k, electorate);
      assert k != x ==> BallotOf(t.nodes[k]) == BallotOf(s.nodes[k]);
    }
    PromotionsStay(s, t, electorate);
  }

  /** The voter has no vote, and no ACK in flight, of an epoch after its last vote. */
  lemma NewVoteIsUnique(s: System, x: Name, e: nat, electorate: nat -> set<Name>)
    requires Inv(s, electorate) && x in s.nodes && s.nodes[x].lastVoteEpoch < e
    ensures forall vt :: vt in s.votes && vt.voter == x ==> vt.epoch != e
    ensures forall m :: m in s.net && m.body.AckBody? && m.h.sender == x ==> m.h.currentEpoch != e
    ensures forall c :: c in s.nodes && s.nodes[c].authEpoch == e ==> x !in s.counted[c]
  {
    forall vt | vt in s.votes && vt.voter == x ensures vt.epoch != e {
      assert VoteOk(s, vt);
    }
    forall m | m in s.net && m.body.AckBody? && m.h.sender == x ensures m.h.currentEpoch != e {
      assert PacketOk(s, m);
      assert VoteOk(s, Vote(x, m.h.currentEpoch, m.to));
    }
    forall c | c in s.nodes && s.nodes[c].authEpoch == e ensures x !in s.counted[c] {
      assert CandidateOk(s, c, electorate);
    }
  }

  lemma GrantKeepsPackets(s: System, t: System, x: Name, c: Name, ack: Message, electorate: nat -> set<Name>)
    requires Inv(s, electorate) && Granted(s, t, x, c, ack)
    ensures OneAck(t) && forall m {:trigger PacketOk(t, m)} :: m in t.net ==> PacketOk(t, m)
  {
    NewVoteIsUnique(s, x, ack.h.currentEpoch, electorate);
    forall m | m in t.net ensures PacketOk(t, m) {
      if m.body.RequestBody? || m.body.AckBody? {
        if m in s.net {
          assert PacketOk(s, m);
          assert m != ack;
        }
        assert m.body.RequestBody? ==>
            BallotOf(t.nodes[m.h.sender]).authEpoch == BallotOf(s.nodes[m.h.sender]).authEpoch;
        assert m.body.AckBody? ==> BallotOf(t.nodes[m.to]).authEpoch == BallotOf(s.nodes[m.to]).authEpoch;
      }
    }
    forall a, b | a in t.net && b in t.net && SameAck(a, b) ensures a == b {
      assert a in s.net || a == ack;
      assert b in s.net || b == ack;
    }
  }

  /** Candidate `c`, whose election is under way, counts the vote an ACK brings. */
  ghost predicate Counted(s: System, t: System, c: Name, m: Message, electorate: nat -> set<Name>) {
    && s.counted.Keys == s.nodes.Keys
    && OthersKeep(s, t, c) && t.votes == s.votes && t.promotions == s.promotions
    && m in s.net && m.body.AckBody? && m.to == c
    && s.nodes[c].authSent && m.h.currentEpoch >= s.nodes[c].authEpoch
    && m.h.sender in electorate(s.nodes[c].authEpoch)
    && t.net == s.net - multiset{m}
    && BallotOf(t.nodes[c]) == BallotOf(s.nodes[c]).(authCount := s.nodes[c].authCount + 1)
    && t.counted[c] == s.counted[c] + {m.h.sender}
  }

  /** A counted ACK carries exactly the election's epoch, and its vote had not been counted. */
  lemma CountedVoteIsNew(s: System, t: System, c: Name, m: Message, electorate: nat -> set<Name>)
    requires Inv(s, electorate) && Counted(s, t, c, m, electorate)
    ensures m.h.currentEpoch == s.nodes[c].authEpoch && m.h.sender !in s.counted[c]
    ensures Vote(m.h.sender, s.nodes[c].authEpoch, c) in s.votes
  {
    assert PacketOk(s, m);
    assert VoteOk(s, Vote(m.h.sender, m.h.currentEpoch, c));
  }

  lemma CountKeepsPackets(s: System, t: System, c: Name, m: Message, electorate: nat -> set<Name>)
    requires Inv(s, electorate) && Counted(s, t, c, m, electorate)
    ensures OneAck(t) && forall a {:trigger PacketOk(t, a)} :: a in t.net ==> PacketOk(t, a)
  {
    CountedVoteIsNew(s, t, c, m, electorate);
    assert PacketOk(s, m);
    forall a | a in t.net ensures PacketOk(t, a) {
      assert a in s.net && PacketOk(s, a);
      assert a.body.RequestBody? && a.h.sender != c ==> BallotOf(t.nodes[a.h.sender]) == BallotOf(s.nodes[a.h.sender]);
      assert SameAck(a, m) ==> a == m;
    }
  }

  lemma CountKeepsInv(s: System, t: System, c: Name, m: Message, electorate: nat -> set<Name>)
    requires Inv(s, electorate) && Counted(s, t, c, m, electorate)
    ensures Inv(t, electorate)
  {
    CountedVoteIsNew(s, t, c, m, electorate);
    CountKeepsPackets(s, t, c, m, electorate);
    forall vt | vt in t.votes ensures VoteOk(t, vt) {
      assert VoteOk(s, vt);
      assert vt.voter != c ==> BallotOf(t.nodes[vt.voter]) == BallotOf(s.nodes[vt.voter]);
      assert vt.candidate != c ==> BallotOf(t.nodes[vt.candidate]) == BallotOf(s.nodes[vt.candidate]);
    }
    forall k | k in t.nodes ensures CandidateOk(t, k, electorate) {
      assert CandidateOk(s, k, electorate);
      assert k != c ==> BallotOf(t.nodes[k]) == BallotOf(s.nodes[k]);
    }
    PromotionsStay(s, t, electorate);
  }

  /** Candidate `c` schedules an election: its count is zeroed. */
  ghost predicate Scheduled(s: System, t: System, c: Name) {
    && s.counted.Keys == s.nodes.Keys
    && OthersKeep(s, t, c) && NoNewVotes(s, t) && t.votes == s.votes && t.promotions == s.promotions
    && BallotOf(t.nodes[c]) == BallotOf(s.nodes[c]).(authCount := 0, authSent := false)
    && t.counted[c] == {}
  }

  lemma ScheduleKeepsInv(s: System, t: System, c: Name, electorate: nat -> set<Name>)
    requires Inv(s, electorate) && Scheduled(s, t, c)
    ensures Inv(t, electorate)
  {
    forall vt | vt in t.votes ensures VoteOk(t, vt) {
      assert VoteOk(s, vt);
      assert vt.voter != c ==> BallotOf(t.nodes[vt.voter]) == BallotOf(s.nodes[vt.voter]);
      assert vt.candidate != c ==> BallotOf(t.nodes[vt.candidate]) == BallotOf(s.nodes[vt.candidate]);
    }
    forall a | a in t.net ensures PacketOk(t, a) {
      if a.body.RequestBody? || a.body.AckBody? {
        assert a in s.net && PacketOk(s, a);
        assert a.body.RequestBody? && a.h.sender != c ==>
            BallotOf(t.nodes[a.h.sender]) == BallotOf(s.nodes[a.h.sender]);
      }
    }
    forall k | k in t.nodes ensures CandidateOk(t, k, electorate) {
      assert CandidateOk(s, k, electorate);
      assert k != c ==> BallotOf(t.nodes[k]) == BallotOf(s.nodes[k]);
    }
    PromotionsStay(s, t, electorate);
  }

  /** Candidate `c` starts the election it scheduled, in a new epoch. */
  ghost predicate Started(s: System, t: System, c: Name) {
    && s.counted.Keys == s.nodes.Keys
    && OthersKeep(s, t, c) && t.votes == s.votes && t.promotions == s.promotions
    && !s.nodes[c].authSent && s.nodes[c].authEpoch < t.nodes[c].authEpoch
    && BallotOf(t.nodes[c]) == BallotOf(s.nodes[c]).(authEpoch := t.nodes[c].authEpoch, authSent := true)
    && t.counted[c] == s.counted[c]
    && (forall m: Message :: m.body.AckBody? ==> t.net[m] <= s.net[m])
    && (forall m: Message :: m.body.RequestBody? && m in t.net ==>
          m in s.net || (m.h.sender == c && m.h.currentEpoch == t.nodes[c].authEpoch))
  }

  lemma StartKeepsInv(s: System, t: System, c: Name, electorate: nat -> set<Name>)
    requires Inv(s, electorate) && Started(s, t, c)
    ensures Inv(t, electorate)
  {
    assert CandidateOk(s, c, electorate);
    forall vt | vt in t.votes ensures VoteOk(t, vt) {
      assert VoteOk(s, vt);
      assert vt.voter != c ==> BallotOf(t.nodes[vt.voter]) == BallotOf(s.nodes[vt.voter]);
      assert vt.candidate != c ==> BallotOf(t.nodes[vt.candidate]) == BallotOf(s.nodes[vt.candidate]);
    }
    forall a | a in t.net ensures PacketOk(t, a) {
      if a.body.RequestBody? || a.body.AckBody? {
        assert a in s.net ==> PacketOk(s, a);
        assert a.body.RequestBody? && a.h.sender != c ==>
            BallotOf(t.nodes[a.h.sender]) == BallotOf(s.nodes[a.h.sender]);
      }
    }
    forall k | k in t.nodes ensures CandidateOk(t, k, electorate) {
      assert CandidateOk(s, k, electorate);
      assert k != c ==> BallotOf(t.nodes[k]) == BallotOf(s.nodes[k]);
    }
    PromotionsStay(s, t, electorate);
  }

  /** Candidate `c` has a majority and is promoted. */
  ghost predicate Won(s: System, t: System, c: Name, electorate: nat -> set<Name>) {
    && s.counted.Keys == s.nodes.Keys && c in s.nodes
    && Calm(s, t.(promotions := s.promotions), c)
    && t.promotions == s.promotions + {Promotion(c, s.nodes[c].authEpoch)}
    && 2 * s.nodes[c].authCount > |electorate(s.nodes[c].authEpoch)|
  }

  lemma WinKeepsInv(s: System, t: System, c: Name, electorate: nat -> set<Name>)
    requires Inv(s, electorate) && Won(s, t, c, electorate)
    ensures Inv(t, electorate)
  {
    var u := t.(promotions := s.promotions);
    CalmKeepsInv(s, u, c, electorate);
    assert CandidateOk(s, c, electorate);
    var p := Promotion(c, s.nodes[c].authEpoch);
    assert Quorum(s.counted[c], electorate(p.epoch)) && VotedFor(u, s.counted[c], p);
    SameButPromotions(u, t, electorate, p);
  }

  lemma SameButPromotions(u: System, t: System, electorate: nat -> set<Name>, p: Promotion)
    requires Inv(u, electorate) && t == u.(promotions := u.promotions + {p}) && PromotionOk(u, p, electorate)
    ensures Inv(t, electorate)
  {
    hide Quorum;
    forall vt | vt in t.votes ensures VoteOk(t, vt) { assert VoteOk(u, vt); }
    forall m | m in t.net ensures PacketOk(t, m) { assert PacketOk(u, m); }
    forall c | c in t.nodes ensures CandidateOk(t, c, electorate) { assert CandidateOk(u, c, electorate); }
    forall r | r in t.promotions ensures PromotionOk(t, r, electorate) {
      assert PromotionOk(u, r, electorate);
      var q :| Quorum(q, electorate(r.epoch)) && VotedFor(u, q, r);
      assert VotedFor(t, q, r);
    }
  }

  // ---------------------------------------------------------------- runs

  /** The step delivers an ACK that its candidate counts. */
  ghost predicate CountsAck(s: System, size: nat, st: Step)
    requires SystemOk(s, size) && StepEnabled(s, st)
  {
    && st.Deliver? && st.m.body.AckBody?
    && (DeliveryEnabled(s, size, st.m, st.now, st.timeout);
        Heard(s.nodes[st.m.to], st.m.h) && Counts(s.nodes[st.m.to], st.m.h))
  }

  /** An ACK is counted only while the candidate's election is under way. */
  ghost predicate InTime(s: System, size: nat, st: Step)
    requires SystemOk(s, size) && StepEnabled(s, st)
  {
    CountsAck(s, size, st) ==> s.nodes[st.m.to].authSent
  }

  /** The masters a candidate sees serving slots when it counts a vote belong to the epoch's electorate, and
      it wins only against a cluster size that covers the electorate. */
  ghost predicate Agreed(s: System, size: nat, st: Step, electorate: nat -> set<Name>)
    requires SystemOk(s, size) && StepEnabled(s, st)
  {
    match st
    case Deliver(m, now, timeout) =>
      CountsAck(s, size, st) ==>
        (DeliveryEnabled(s, size, m, now, timeout); Serving(s.nodes[m.to]) <= electorate(s.nodes[m.to].authEpoch))
    case Timer(n, c) =>
      NodeIsSound(s, size, n);
      var v := s.nodes[n];
      FailoverBranch(v, c) == Promote ==> v.size >= |electorate(v.authEpoch)|
    case _ => true
  }

  /** The assumptions on one step. */
  ghost predicate Assumed(s: System, size: nat, st: Step, electorate: nat -> set<Name>)
    requires SystemOk(s, size) && StepEnabled(s, st)
  {
    InTime(s, size, st) && Agreed(s, size, st, electorate)
  }

  lemma DeliverKeepsInv(s: System, size: nat, m: Message, now: int, timeout: nat, electorate: nat -> set<Name>)
    requires SystemOk(s, size) && BoundedSystem(s) && Inv(s, electorate)
    requires StepEnabled(s, Deliver(m, now, timeout)) && Assumed(s, size, Deliver(m, now, timeout), electorate)
    ensures Inv(Receive(s, size, m, now, timeout), electorate)
  {
    hide Sound, WellFormed, ReceivePing, ReceiveUpdate, ReceiveRequest, ReceiveAck, Counts, Serving, BuildHeader,
         Bounded, BoundedSystem, Inv, SystemOk;
    DeliveryEnabled(s, size, m, now, timeout);
    var v, t := s.nodes[m.to], Receive(s, size, m, now, timeout);
    CountedKeys(s, size);
    if !Heard(v, m.h) {
      CalmKeepsInv(s, t, m.to, electorate);
    } else {
      match m.body
      case PingBody =>
        PingKeepsBallot(v, m.h);
        CalmKeepsInv(s, t, m.to, electorate);
      case UpdateBody(about, epoch, claimed) =>
        UpdateKeepsBallot(v, m.h, about, epoch, claimed);
        CalmKeepsInv(s, t, m.to, electorate);
      case RequestBody(force) => RequestKeepsInv(s, size, m, force, now, timeout, electorate);
      case AckBody => AckKeepsInv(s, size, m, now, timeout, electorate);
    }
  }

  /** A vote request delivered, seen as one of the kinds of steps. */
  lemma RequestStep(s: System, size: nat, m: Message, force: bool, now: int, timeout: nat)
      returns (granted: bool, h: Header)
    requires SystemOk(s, size) && BoundedSystem(s)
    requires m in s.net && m.to in s.nodes && m.body == RequestBody(force) && Heard(s.nodes[m.to], m.h)
    ensures s.counted.Keys == s.nodes.Keys
    ensures var v, t := s.nodes[m.to], Receive(s, size, m, now, timeout);
      && t.nodes.Keys == s.nodes.Keys && t.nodes == s.nodes[m.to := t.nodes[m.to]]
      && t.counted == s.counted && t.promotions == s.promotions
      && if !granted
         then BallotOf(t.nodes[m.to]) == BallotOf(v) && t.net == s.net - multiset{m} && t.votes == s.votes
         else
           var e := m.h.currentEpoch;
           && v.lastVoteEpoch < e && BallotOf(t.nodes[m.to]) == BallotOf(v).(lastVoteEpoch := e)
           && t.votes == s.votes + {Vote(m.to, e, m.h.sender)}
           && h.sender == m.to && h.currentEpoch == e
           && t.net == s.net - multiset{m} + multiset{Message(m.h.sender, h, AckBody)}
  {
    hide Sound, WellFormed, ReceiveRequest, Bounded, BoundedSystem, BuildHeader, SystemOk;
    DeliveryEnabled(s, size, m, now, timeout);
    CountedKeys(s, size);
    HasBound(s, m.to);
    var v := s.nodes[m.to];
    GrantedVoteIsNewer(v, m.h, force, now, timeout);
    var w := ReceiveRequest(v, m.h, force, now, timeout).0;
    granted := ReceiveRequest(v, m.h, force, now, timeout).1;
    EventSound(v, EventOf(m, now, timeout));
    SoundIsWellFormed(w);
    HeaderSize(w);
    h := BuildHeader(w);
    EventKeepsSize(v, EventOf(m, now, timeout));
  }

  lemma RequestKeepsInv(s: System, size: nat, m: Message, force: bool, now: int, timeout: nat,
      electorate: nat -> set<Name>)
    requires SystemOk(s, size) && BoundedSystem(s) && Inv(s, electorate)
    requires m in s.net && m.to in s.nodes && m.body == RequestBody(force) && Heard(s.nodes[m.to], m.h)
    ensures Inv(Receive(s, size, m, now, timeout), electorate)
  {
    hide BoundedSystem, Inv, SystemOk, Receive;
    var t := Receive(s, size, m, now, timeout);
    var granted, h := RequestStep(s, size, m, force, now, timeout);
    RequestIsCurrent(s, m, electorate);
    if !granted {
      CalmKeepsInv(s, t, m.to, electorate);
    } else {
      GrantKeepsInv(s, t, m.to, m.h.sender, Message(m.h.sender, h, AckBody), electorate);
    }
  }

  lemma RequestIsCurrent(s: System, m: Message, electorate: nat -> set<Name>)
    requires Inv(s, electorate) && m in s.net && m.body.RequestBody?
    ensures m.h.sender in s.nodes && m.h.currentEpoch <= s.nodes[m.h.sender].authEpoch
  {
    assert PacketOk(s, m);
  }

  lemma AckKeepsInv(s: System, size: nat, m: Message, now: int, timeout: nat, electorate: nat -> set<Name>)
    requires SystemOk(s, size) && BoundedSystem(s) && Inv(s, electorate)
    requires m in s.net && m.to in s.nodes && m.body == AckBody && Heard(s.nodes[m.to], m.h)
    requires StepEnabled(s, Deliver(m, now, timeout)) && Assumed(s, size, Deliver(m, now, timeout), electorate)
    ensures Inv(Receive(s, size, m, now, timeout), electorate)
  {
    hide Sound, WellFormed, ReceiveAck, Counts, Serving, Bounded, BoundedSystem, Inv, SystemOk;
    DeliveryEnabled(s, size, m, now, timeout);
    var v, t := s.nodes[m.to], Receive(s, size, m, now, timeout);
    CountedKeys(s, size);
    AckEffect(v, m.h);
    if Counts(v, m.h) {
      CountKeepsInv(s, t, m.to, m, electorate);
    } else {
      CalmKeepsInv(s, t, m.to, electorate);
    }
  }

  lemma ExpireKeepsInv(s: System, size: nat, n: Name, c: Clock, electorate: nat -> set<Name>)
    requires SystemOk(s, size) && BoundedSystem(s) && Inv(s, electorate)
    requires StepEnabled(s, Timer(n, c)) && Assumed(s, size, Timer(n, c), electorate)
    ensures Inv(Expire(s, size, n, c), electorate)
  {
    hide Sound, WellFormed, HandleFailover, FailoverBranch, Requests, Bounded, BoundedSystem, Inv, SystemOk;
    NodeIsSound(s, size, n);
    var v, t := s.nodes[n], Expire(s, size, n, c);
    CountedKeys(s, size);
    FailoverEffect(v, c);
    match FailoverBranch(v, c)
    case Schedule => ScheduleKeepsInv(s, t, n, electorate);
    case Request =>
      FailoverSound(v, c);
      var w := HandleFailover(v, c);
      SoundIsWellFormed(w);
      FailoverKeepsSize(v, c);
      HasBound(s, n);
      RequestsOk(w, c.manualSet);
      assert v.authEpoch <= v.currentEpoch by { BoundsElection(v); }
      StartKeepsInv(s, t, n, electorate);
    case Promote => WinKeepsInv(s, t, n, electorate);
    case _ => CalmKeepsInv(s, t, n, electorate);
  }

  lemma BoundsElection(v: View)
    requires Bounded(v)
    ensures v.authEpoch <= v.currentEpoch
  {
  }

  lemma StepKeepsInv(s: System, size: nat, st: Step, electorate: nat -> set<Name>)
    requires SystemOk(s, size) && BoundedSystem(s) && Inv(s, electorate)
    requires StepEnabled(s, st) && Assumed(s, size, st, electorate)
    ensures Inv(Next(s, size, st), electorate)
  {
    hide Sound, WellFormed, Apply, Enabled, BuildHeader, Bounded, BoundedSystem, Inv, SystemOk, Receive, Expire,
        Assumed;
    CountedKeys(s, size);
    var t := Next(s, size, st);
    match st
    case SendPing(from, to) => CalmKeepsInv(s, t, from, electorate);
    case SendUpdate(from, to, about) => CalmKeepsInv(s, t, from, electorate);
    case Deliver(m, now, timeout) => DeliverKeepsInv(s, size, m, now, timeout, electorate);
    case Lose(m) => LoseKeepsInv(s, m, electorate);
    case Timer(n, c) => ExpireKeepsInv(s, size, n, c, electorate);
    case Admin(n, e) =>
      NodeIsSound(s, size, n);
      AdminKeepsBallot(s.nodes[n], e);
      CalmKeepsInv(s, t, n, electorate);
  }

  lemma LoseKeepsInv(s: System, m: Message, electorate: nat -> set<Name>)
    requires Inv(s, electorate)
    ensures Inv(s.(net := s.net - multiset{m}), electorate)
  {
    var t := s.(net := s.net - multiset{m});
    forall vt | vt in t.votes ensures VoteOk(t, vt) { assert VoteOk(s, vt); }
    forall a | a in t.net ensures PacketOk(t, a) { assert PacketOk(s, a); }
    forall c | c in t.nodes ensures CandidateOk(t, c, electorate) { assert CandidateOk(s, c, electorate); }
    PromotionsStay(s, t, electorate);
  }

  ghost predicate InTimeAll(s: System, size: nat, sts: seq<Step>)
    requires SystemOk(s, size) && Steps(s, size, sts)
    decreases |sts|
  {
    sts == [] || (InTime(s, size, sts[0])
                  && (StepOk(s, size, sts[0]); InTimeAll(Next(s, size, sts[0]), size, sts[1..])))
  }

  ghost predicate AgreedAll(s: System, size: nat, sts: seq<Step>, electorate: nat -> set<Name>)
    requires SystemOk(s, size) && Steps(s, size, sts)
    decreases |sts|
  {
    sts == [] || (Agreed(s, size, sts[0], electorate)
                  && (StepOk(s, size, sts[0]); AgreedAll(Next(s, size, sts[0]), size, sts[1..], electorate)))
  }

  /** No election has been held, and no vote packet is in flight. */
  predicate NoElections(s: System) {
    && s.counted.Keys == s.nodes.Keys
    && s.votes == {} && s.promotions == {}
    && (forall n :: n in s.nodes ==> s.counted[n] == {} && s.nodes[n].authCount == 0)
    && (forall m :: m in s.net ==> !m.body.RequestBody? && !m.body.AckBody?)
  }

  lemma {:induction false} RunKeepsInv(s: System, size: nat, sts: seq<Step>, electorate: nat -> set<Name>)
    requires SystemOk(s, size) && BoundedSystem(s) && Inv(s, electorate)
    requires Steps(s, size, sts) && InTimeAll(s, size, sts) && AgreedAll(s, size, sts, electorate)
    ensures Inv(Reached(s, size, sts), electorate)
    decreases |sts|
  {
    hide SystemOk, Next, StepEnabled, BoundedSystem, Inv, InTime, Agreed;
    if sts != [] {
      StepOk(s, size, sts[0]);
      StepBounded(s, size, sts[0]);
      StepKeepsInv(s, size, sts[0], electorate);
      RunKeepsInv(Next(s, size, sts[0]), size, sts[1..], electorate);
    }
  }

  /** Election safety: from any start without elections, over any run that meets the assumptions, two
      promotions in one epoch are promotions of one replica. */
  lemma ElectionSafety(s: System, size: nat, sts: seq<Step>, electorate: nat -> set<Name>, p: Promotion, r: Promotion)
    requires SystemOk(s, size) && BoundedSystem(s) && NoElections(s)
    requires Steps(s, size, sts) && InTimeAll(s, size, sts) && AgreedAll(s, size, sts, electorate)
    requires p in Reached(s, size, sts).promotions && r in Reached(s, size, sts).promotions && p.epoch == r.epoch
    ensures p.replica == r.replica
  {
    assert Inv(s, electorate);
    RunKeepsInv(s, size, sts, electorate);
    PromotionsAreUnique(Reached(s, size, sts), electorate, p, r);
  }
}
