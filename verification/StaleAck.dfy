/** Why election safety needs ACKs not to outlive their election.

    `clusterHandleSlaveFailover` zeroes the vote count when it schedules an election, but the
    election only gets its own epoch when it starts.  An ACK of the previous election that
    arrives in between passes the epoch test and is counted for the new one. */
module StaleAck {
  import opened Options
  import opened Slots
  import opened Cluster
  import opened NodeRuns
  import opened ClusterNet
  import opened EpochBound
  import opened Election

  /** No two replicas are promoted in one epoch. */
  predicate UniquePromotions(s: System) {
    forall p, r :: p in s.promotions && r in s.promotions && p.epoch == r.epoch ==> p.replica == r.replica
  }

  /** A run from a start without elections, whose candidates agree on the electorate; ACKs are counted in
      time, or also (`late`) before the candidate has started the election it scheduled. */
  ghost predicate Admissible(s: System, size: nat, sts: seq<Step>, electorate: nat -> set<Name>, late: bool) {
    && SystemOk(s, size) && BoundedSystem(s) && NoElections(s) && Steps(s, size, sts)
    && AgreedAll(s, size, sts, electorate)
    && (late || InTimeAll(s, size, sts))
  }

  /** Every admissible run promotes at most one replica in an epoch. */
  ghost predicate Safe(late: bool) {
    forall s, size, sts, electorate ::
      Admissible(s, size, sts, electorate, late) ==> UniquePromotions(Reached(s, size, sts))
  }

  /** With the other assumptions kept, election safety holds exactly when no ACK is counted between the
      scheduling and the start of an election. */
  lemma SafeIffInTime(late: bool)
    ensures Safe(late) <==> !late
  {
    hide SystemOk, BoundedSystem, NoElections, Steps, Reached, AgreedAll, InTimeAll;
    if late {
      var s, sts := StaleAckBreaksSafety();
      assert Admissible(s, 1, sts, Only, late);
      assert !UniquePromotions(Reached(s, 1, sts));
    } else {
      forall s, size, sts, electorate | Admissible(s, size, sts, electorate, late)
        ensures UniquePromotions(Reached(s, size, sts))
      {
        var t := Reached(s, size, sts);
        forall p, r | p in t.promotions && r in t.promotions && p.epoch == r.epoch ensures p.replica == r.replica {
          ElectionSafety(s, size, sts, electorate, p, r);
        }
      }
    }
  }

  /** An ACK counted between scheduling and starting is still in the count when the election starts, in
      an epoch greater than the one its sender voted in. */
  lemma StaleVoteIsKept(v: View, h: Header, c: Clock)
    requires WellFormed(v) && Bounded(v) && h.sender in v.nodes && Counts(v, h) && !v.authSent
    requires h.currentEpoch == v.authEpoch
    requires WellFormed(ReceiveAck(v, h)) && FailoverBranch(ReceiveAck(v, h), c) == Request
    ensures var w := HandleFailover(ReceiveAck(v, h), c);
      w.authSent && w.authEpoch > h.currentEpoch && w.authCount == v.authCount + 1
  {
    hide Shape;
    AckEffect(v, h);
    FailoverEffect(ReceiveAck(v, h), c);
  }

  // ---------------------------------------------------------------- a run that promotes two replicas

  /** Master 1 serves the only slot; nodes 2 and 3 replicate it. */
  function Peers(voted: int): map<Name, Node> {
    map[1 := Node(0, true, None, false, voted), 2 := Node(0, false, Some(1), false, 0),
        3 := Node(0, false, Some(1), false, 0)]
  }

  function OneSlot(): Table {
    Table([Some(1)], map[1 := SlotSet([true], 1), 2 := SlotSet([false], 0), 3 := SlotSet([false], 0)])
  }

  function At(self: Name, epoch: nat, lastVote: nat, voted: int, time: int, auth: nat, count: nat, sent: bool): View {
    View(self, Peers(voted), OneSlot(), [None], [None], epoch, lastVote, time, auth, count, sent, 1)
  }

  lemma AtIsSound(self: Name, epoch: nat, lastVote: nat, voted: int, time: int, auth: nat, count: nat, sent: bool)
    requires 1 <= self <= 3
    ensures var v := At(self, epoch, lastVote, voted, time, auth, count, sent);
      Sound(v) && WellFormed(v) && SlotCount(v) == 1 && v.self == self
  {
    assert [true][..0] == [] && [false][..0] == [];
    assert Count([true]) == 1 && Count([false]) == 0;
    var v := At(self, epoch, lastVote, voted, time, auth, count, sent);
    assert Shape(v.table);
    assert SetAgrees(v.table.owner, 1, v.table.sets[1]);
    assert SetAgrees(v.table.owner, 2, v.table.sets[2]);
    assert SetAgrees(v.table.owner, 3, v.table.sets[3]);
  }

  /** What node `self` sends at `epoch`. */
  function HeaderAt(self: Name, epoch: nat): Header {
    Header(self, epoch, 0, [true], if self == 1 then None else Some(1))
  }

  lemma HeaderIs(self: Name, epoch: nat, lastVote: nat, voted: int, time: int, auth: nat, count: nat, sent: bool)
    requires 1 <= self <= 3
    requires WellFormed(At(self, epoch, lastVote, voted, time, auth, count, sent))
    ensures BuildHeader(At(self, epoch, lastVote, voted, time, auth, count, sent)) == HeaderAt(self, epoch)
  {
  }

  /** Replica `self` asks for votes. */
  lemma AskIs(self: Name, epoch: nat, time: int, auth: nat, count: nat, now: int)
    requires 2 <= self <= 3 && 0 <= now - time <= 2000
    requires WellFormed(At(self, epoch, 0, 0, time, auth, count, false))
    ensures var v, c := At(self, epoch, 0, 0, time, auth, count, false), Clock(now, 1000, true, true, true, 0, 0);
      && FailoverBranch(v, c) == Request
      && HandleFailover(v, c) == At(self, epoch + 1, 0, 0, time, epoch + 1, count, true)
  {
  }

  lemma EpochsAre(self: Name, epoch: nat, lastVote: nat, voted: int, time: int, auth: nat, count: nat, sent: bool,
      c: Name, e: nat)
    requires 1 <= c <= 3
    ensures ReceiveEpochs(At(self, epoch, lastVote, voted, time, auth, count, sent), HeaderAt(c, e))
         == At(self, Max(epoch, e), lastVote, voted, time, auth, count, sent)
  {
    assert Peers(voted)[c := Peers(voted)[c].(configEpoch := 0)] == Peers(voted);
  }

  /** Master 1 votes for replica `c`. */
  lemma VoteIs(c: Name, epoch: nat, lastVote: nat, voted: int, now: int)
    requires 2 <= c <= 3 && lastVote <= epoch && now - voted >= 2000
    requires WellFormed(At(1, epoch, lastVote, voted, 0, 0, 0, false))
    ensures var v := At(1, epoch, lastVote, voted, 0, 0, 0, false);
      ReceiveRequest(v, HeaderAt(c, epoch + 1), true, now, 1000)
      == (At(1, epoch + 1, epoch + 1, now, 0, 0, 0, false), true)
  {
    hide WellFormed, Grants, CastVote, ReceiveEpochs, Peers;
    EpochsAre(1, epoch, lastVote, voted, 0, 0, 0, false, c, epoch + 1);
    AtIsSound(1, epoch + 1, lastVote, voted, 0, 0, 0, false);
    GrantIs(c, epoch + 1, lastVote, voted, now);
    CastIs(c, epoch + 1, lastVote, voted, now);
  }

  lemma GrantIs(c: Name, epoch: nat, lastVote: nat, voted: int, now: int)
    requires 2 <= c <= 3 && lastVote < epoch && now - voted >= 2000
    requires WellFormed(At(1, epoch, lastVote, voted, 0, 0, 0, false))
    ensures Grants(At(1, epoch, lastVote, voted, 0, 0, 0, false), HeaderAt(c, epoch), true, now, 1000)
  {
    hide WellFormed;
  }

  lemma CastIs(c: Name, epoch: nat, lastVote: nat, voted: int, now: int)
    requires 2 <= c <= 3
    ensures CastVote(At(1, epoch, lastVote, voted, 0, 0, 0, false), HeaderAt(c, epoch), now)
         == At(1, epoch, epoch, now, 0, 0, 0, false)
  {
    assert Peers(voted)[1 := Peers(voted)[1].(votedTime := now)] == Peers(now);
  }

  /** A replica counts master 1's ACK. */
  lemma TallyIs(self: Name, epoch: nat, time: int, auth: nat, count: nat, sent: bool, e: nat)
    requires 2 <= self <= 3 && auth <= e <= epoch
    requires WellFormed(At(self, epoch, 0, 0, time, auth, count, sent))
    ensures var v := At(self, epoch, 0, 0, time, auth, count, sent);
      Counts(v, HeaderAt(1, e)) && ReceiveAck(v, HeaderAt(1, e)) == At(self, epoch, 0, 0, time, auth, count + 1, sent)
  {
    EpochsAre(self, epoch, 0, 0, time, auth, count, sent, 1, e);
  }

  /** Master 1 is the whole electorate. */
  function Only(epoch: nat): set<Name> {
    {1}
  }

  /** A run from `s` ends with these views, with at least these packets in flight and these promotions made. */
  ghost predicate Leads(s: System, sts: seq<Step>, nodes: map<Name, View>, flying: set<Message>, won: set<Promotion>) {
    && SystemOk(s, 1) && Steps(s, 1, sts) && AgreedAll(s, 1, sts, Only)
    && var t := Reached(s, 1, sts);
       SystemOk(t, 1) && t.nodes == nodes && won <= t.promotions && forall m :: m in flying ==> m in t.net
  }

  lemma {:induction false} Extend(s: System, sts: seq<Step>, st: Step)
    requires SystemOk(s, 1) && Steps(s, 1, sts) && AgreedAll(s, 1, sts, Only)
    requires SystemOk(Reached(s, 1, sts), 1) && StepEnabled(Reached(s, 1, sts), st)
    requires Agreed(Reached(s, 1, sts), 1, st, Only)
    ensures Steps(s, 1, sts + [st]) && Reached(s, 1, sts + [st]) == Next(Reached(s, 1, sts), 1, st)
    ensures AgreedAll(s, 1, sts + [st], Only)
    decreases |sts|
  {
    hide SystemOk, StepEnabled, Next, Agreed;
    if sts == [] {
      StepOk(s, 1, st);
      assert (sts + [st])[1..] == [];
    } else {
      StepOk(s, 1, sts[0]);
      Extend(Next(s, 1, sts[0]), sts[1..], st);
      assert (sts + [st])[1..] == sts[1..] + [st];
    }
  }

  /** A failover timer of node `n` expires. */
  lemma Ticks(s: System, sts: seq<Step>, nodes: map<Name, View>, flying: set<Message>, won: set<Promotion>, n: Name,
      c: Clock)
    requires Leads(s, sts, nodes, flying, won) && n in nodes && nodes[n].size >= 1
    ensures WellFormed(nodes[n])
    ensures var v := nodes[n]; var w := HandleFailover(v, c);
      && WellFormed(w)
      && Leads(s, sts + [Timer(n, c)], nodes[n := w],
               flying + (if FailoverBranch(v, c) == Request then Requests(w, c.manualSet) else {}),
               won + (if FailoverBranch(v, c) == Promote then {Promotion(n, v.authEpoch)} else {}))
  {
    hide SystemOk, WellFormed, Sound, HandleFailover, FailoverBranch, Requests, Steps, Reached;
    var t := Reached(s, 1, sts);
    Extend(s, sts, Timer(n, c));
    NodeIsSound(t, 1, n);
    FailoverSound(nodes[n], c);
    SoundIsWellFormed(HandleFailover(nodes[n], c));
    StepOk(t, 1, Timer(n, c));
  }

  /** A vote request reaches its node. */
  lemma RequestArrives(s: System, sts: seq<Step>, nodes: map<Name, View>, flying: set<Message>, won: set<Promotion>,
      m: Message, now: int)
    requires Leads(s, sts, nodes, flying, won) && m in flying && m.to in nodes && m.body == RequestBody(true)
    requires m.h.sender in nodes[m.to].nodes && |m.h.slots| == SlotCount(nodes[m.to])
    ensures WellFormed(nodes[m.to])
    ensures var (w, granted) := ReceiveRequest(nodes[m.to], m.h, true, now, 1000);
      && WellFormed(w)
      && Leads(s, sts + [Deliver(m, now, 1000)], nodes[m.to := w],
               flying - {m} + (if granted then {Message(m.h.sender, BuildHeader(w), AckBody)} else {}), won)
  {
    hide SystemOk, WellFormed, Sound, ReceiveRequest, BuildHeader, Steps, Reached;
    var t, st := Reached(s, 1, sts), Deliver(m, now, 1000);
    Extend(s, sts, st);
    DeliveryEnabled(t, 1, m, now, 1000);
    var e := EventOf(m, now, 1000);
    EventSound(nodes[m.to], e);
    SoundIsWellFormed(Apply(nodes[m.to], e));
    StepOk(t, 1, st);
  }

  /** An ACK reaches its candidate. */
  lemma AckArrives(s: System, sts: seq<Step>, nodes: map<Name, View>, flying: set<Message>, won: set<Promotion>,
      m: Message, now: int)
    requires Leads(s, sts, nodes, flying, won) && m in flying && m.to in nodes && m.body == AckBody
    requires m.h.sender in nodes[m.to].nodes && WellFormed(nodes[m.to]) && Serving(nodes[m.to]) <= {1}
    ensures Leads(s, sts + [Deliver(m, now, 1000)], nodes[m.to := ReceiveAck(nodes[m.to], m.h)], flying - {m}, won)
  {
    hide SystemOk, WellFormed, Sound, ReceiveAck, Counts, Steps, Reached;
    var t, st := Reached(s, 1, sts), Deliver(m, now, 1000);
    Extend(s, sts, st);
    DeliveryEnabled(t, 1, m, now, 1000);
    StepOk(t, 1, st);
  }

  function Trio(f: View, a: View, b: View): map<Name, View> {
    map[1 := f, 2 := a, 3 := b]
  }

  /** Replica `n` at rest at `epoch`, or holding election `auth`. */
  function Replica(n: Name, epoch: nat, time: int, auth: nat, count: nat, sent: bool): View {
    At(n, epoch, 0, 0, time, auth, count, sent)
  }

  function Master(epoch: nat, lastVote: nat, voted: int): View {
    At(1, epoch, lastVote, voted, 0, 0, 0, false)
  }

  function Now(now: int): Clock {
    Clock(now, 1000, true, true, true, 0, 0)
  }

  function Ask(n: Name, to: Name, epoch: nat): Message {
    Message(to, HeaderAt(n, epoch), RequestBody(true))
  }

  function Ack(n: Name, epoch: nat): Message {
    Message(n, HeaderAt(1, epoch), AckBody)
  }

  function Start(): System {
    System(Trio(Master(0, 0, 0), Replica(2, 0, 0, 0, 0, false), Replica(3, 0, 0, 0, 0, false)),
           multiset{}, {}, map[1 := {}, 2 := {}, 3 := {}], {})
  }

  lemma StartIsOk()
    ensures SystemOk(Start(), 1)
  {
    hide Sound, SlotCount;
    AtIsSound(1, 0, 0, 0, 0, 0, 0, false);
    AtIsSound(2, 0, 0, 0, 0, 0, 0, false);
    AtIsSound(3, 0, 0, 0, 0, 0, 0, false);
    var s := Start();
    assert NodeOk(1, s.nodes[1], 1) && NodeOk(2, s.nodes[2], 1) && NodeOk(3, s.nodes[3], 1);
  }

  lemma StartIsQuiet()
    ensures BoundedSystem(Start()) && NoElections(Start())
  {
    var s := Start();
    assert Bounded(s.nodes[1]) && Bounded(s.nodes[2]) && Bounded(s.nodes[3]);
  }

  lemma StartLeads()
    ensures Leads(Start(), [], Start().nodes, {}, {})
  {
    hide SystemOk, Start;
    StartIsOk();
    assert Steps(Start(), 1, []) && Reached(Start(), 1, []) == Start();
  }

  /** Replica `n` (2 or 3) asks for votes in a new epoch. */
  lemma Asks(sts: seq<Step>, nodes: map<Name, View>, flying: set<Message>, won: set<Promotion>,
             n: Name, epoch: nat, time: int, auth: nat, count: nat, now: int)
    requires Leads(Start(), sts, nodes, flying, won) && 2 <= n <= 3 && 0 <= now - time <= 2000
    requires n in nodes && nodes[n] == Replica(n, epoch, time, auth, count, false)
    ensures Leads(Start(), sts + [Timer(n, Now(now))], nodes[n := Replica(n, epoch + 1, time, epoch + 1, count, true)],
                  flying + {Ask(n, 1, epoch + 1), Ask(n, 5 - n, epoch + 1)}, won)
  {
    hide WellFormed, Sound, HandleFailover, FailoverBranch, Start, Reached, Steps, SystemOk;
    AtIsSound(n, epoch, 0, 0, time, auth, count, false);
    AskIs(n, epoch, time, auth, count, now);
    Ticks(Start(), sts, nodes, flying, won, n, Now(now));
    var w := Replica(n, epoch + 1, time, epoch + 1, count, true);
    HeaderIs(n, epoch + 1, 0, 0, time, epoch + 1, count, true);
    assert Ask(n, 1, epoch + 1) in Requests(w, true) && Ask(n, 5 - n, epoch + 1) in Requests(w, true);
  }

  /** Master 1 votes for replica `n`. */
  lemma Votes(sts: seq<Step>, nodes: map<Name, View>, flying: set<Message>, won: set<Promotion>,
              n: Name, epoch: nat, lastVote: nat, voted: int, now: int)
    requires Leads(Start(), sts, nodes, flying, won) && 2 <= n <= 3 && lastVote <= epoch && now - voted >= 2000
    requires 1 in nodes && nodes[1] == Master(epoch, lastVote, voted) && Ask(n, 1, epoch + 1) in flying
    ensures Leads(Start(), sts + [Deliver(Ask(n, 1, epoch + 1), now, 1000)],
                  nodes[1 := Master(epoch + 1, epoch + 1, now)],
                  flying - {Ask(n, 1, epoch + 1)} + {Ack(n, epoch + 1)}, won)
  {
    hide WellFormed, Sound, ReceiveRequest, BuildHeader, Start, Leads;
    AtIsSound(1, epoch, lastVote, voted, 0, 0, 0, false);
    VoteIs(n, epoch, lastVote, voted, now);
    RequestArrives(Start(), sts, nodes, flying, won, Ask(n, 1, epoch + 1), now);
    AtIsSound(1, epoch + 1, epoch + 1, now, 0, 0, 0, false);
    HeaderIs(1, epoch + 1, epoch + 1, now, 0, 0, 0, false);
  }

  /** Replica `n` counts master 1's ACK of epoch `e`. */
  lemma Tallies(sts: seq<Step>, nodes: map<Name, View>, flying: set<Message>, won: set<Promotion>,
                n: Name, epoch: nat, time: int, auth: nat, count: nat, sent: bool, e: nat)
    requires Leads(Start(), sts, nodes, flying, won) && 2 <= n <= 3 && auth <= e <= epoch
    requires n in nodes && nodes[n] == Replica(n, epoch, time, auth, count, sent) && Ack(n, e) in flying
    ensures Leads(Start(), sts + [Deliver(Ack(n, e), 0, 1000)],
                  nodes[n := Replica(n, epoch, time, auth, count + 1, sent)],
                  flying - {Ack(n, e)}, won)
  {
    hide WellFormed, Sound, ReceiveAck, Start, Leads;
    AtIsSound(n, epoch, 0, 0, time, auth, count, sent);
    TallyIs(n, epoch, time, auth, count, sent, e);
    AckArrives(Start(), sts, nodes, flying, won, Ack(n, e), 0);
  }

  /** Replica `n` has the one vote a cluster of one master takes. */
  lemma Wins(sts: seq<Step>, nodes: map<Name, View>, flying: set<Message>, won: set<Promotion>,
             n: Name, epoch: nat, time: int, auth: nat, now: int) returns (w: View)
    requires Leads(Start(), sts, nodes, flying, won) && 2 <= n <= 3 && 0 <= now - time <= 2000
    requires n in nodes && nodes[n] == Replica(n, epoch, time, auth, 1, true)
    ensures Leads(Start(), sts + [Timer(n, Now(now))], nodes[n := w], flying, won + {Promotion(n, auth)})
  {
    hide WellFormed, Sound, HandleFailover, Start, Leads;
    AtIsSound(n, epoch, 0, 0, time, auth, 1, true);
    assert FailoverBranch(Replica(n, epoch, time, auth, 1, true), Now(now)) == Promote;
    Ticks(Start(), sts, nodes, flying, won, n, Now(now));
    w := HandleFailover(nodes[n], Now(now));
    assert flying + {} == flying;
  }

  /** Replica `n` schedules a new election long after the last one. */
  lemma Schedules(sts: seq<Step>, nodes: map<Name, View>, flying: set<Message>, won: set<Promotion>,
                  n: Name, epoch: nat, time: int, auth: nat, count: nat, sent: bool, now: int)
    requires Leads(Start(), sts, nodes, flying, won) && 2 <= n <= 3 && now - time > 4000
    requires n in nodes && nodes[n] == Replica(n, epoch, time, auth, count, sent)
    ensures Leads(Start(), sts + [Timer(n, Now(now))], nodes[n := Replica(n, epoch, now, auth, 0, false)], flying, won)
  {
    hide WellFormed, Sound, Start, Leads;
    AtIsSound(n, epoch, 0, 0, time, auth, count, sent);
    assert FailoverBranch(Replica(n, epoch, time, auth, count, sent), Now(now)) == Schedule;
    Ticks(Start(), sts, nodes, flying, won, n, Now(now));
    assert flying + {} == flying && won + {} == won;
  }

  /** Replica 3 hears of epoch 1 from replica 2's request, and does not vote. */
  lemma Hears(sts: seq<Step>, nodes: map<Name, View>, flying: set<Message>, won: set<Promotion>)
    requires Leads(Start(), sts, nodes, flying, won) && Ask(2, 3, 1) in flying
    requires 3 in nodes && nodes[3] == Replica(3, 0, 0, 0, 0, false)
    ensures Leads(Start(), sts + [Deliver(Ask(2, 3, 1), 0, 1000)], nodes[3 := Replica(3, 1, 0, 0, 0, false)],
                  flying - {Ask(2, 3, 1)}, won)
  {
    hide WellFormed, Sound, Start, Leads, ReceiveEpochs, ClaimIsCurrent;
    AtIsSound(3, 0, 0, 0, 0, 0, 0, false);
    EpochsAre(3, 0, 0, 0, 0, 0, 0, false, 2, 1);
    RequestArrives(Start(), sts, nodes, flying, won, Ask(2, 3, 1), 0);
    assert flying - {Ask(2, 3, 1)} + {} == flying - {Ask(2, 3, 1)};
  }

  /** A run in which every assumption but one is met, with master 1 as the electorate: an ACK arrives after
      its candidate scheduled another election.  Replicas 2 and 3 are both promoted in epoch 2. */
  lemma StaleAckBreaksSafety() returns (s: System, sts: seq<Step>)
    ensures SystemOk(s, 1) && BoundedSystem(s) && NoElections(s) && Steps(s, 1, sts) && AgreedAll(s, 1, sts, Only)
    ensures Promotion(2, 2) in Reached(s, 1, sts).promotions && Promotion(3, 2) in Reached(s, 1, sts).promotions
  {
    hide Start, At, Replica, Master, HeaderAt;
    s := Start();
    StartIsOk();
    StartIsQuiet();
    sts := FirstElections();
    var nodes, flying, won := SecondReplicaWins(sts);
    sts := sts + [Deliver(Ack(3, 2), 0, 1000)] + [Timer(3, Now(1500))];
    Schedules(sts, nodes, flying, won, 2, 1, 0, 1, 0, true, 10000);
    sts := sts + [Timer(2, Now(10000))];
    nodes := nodes[2 := Replica(2, 1, 10000, 1, 0, false)];
    Tallies(sts, nodes, flying, won, 2, 1, 10000, 1, 0, false, 1);
    sts := sts + [Deliver(Ack(2, 1), 0, 1000)];
    nodes := nodes[2 := Replica(2, 1, 10000, 1, 1, false)];
    Asks(sts, nodes, flying - {Ack(2, 1)}, won, 2, 1, 10000, 1, 1, 10000);
    sts := sts + [Timer(2, Now(10000))];
    nodes := nodes[2 := Replica(2, 2, 10000, 2, 1, true)];
    var w := Wins(sts, nodes, flying - {Ack(2, 1)} + {Ask(2, 1, 2), Ask(2, 3, 2)}, won, 2, 2, 10000, 2, 10000);
    sts := sts + [Timer(2, Now(10000))];
  }

  /** Replicas 2 and 3 hold elections 1 and 2; master 1 votes in both. */
  lemma FirstElections() returns (sts: seq<Step>)
    ensures Leads(Start(), sts, Trio(Master(2, 2, 6000), Replica(2, 1, 0, 1, 0, true), Replica(3, 2, 0, 2, 0, true)),
                  {Ack(2, 1), Ack(3, 2)}, {})
  {
    hide Leads, At, HeaderAt;
    sts := FirstVote();
    var f, a, b := Master(1, 1, 3000), Replica(2, 1, 0, 1, 0, true), Replica(3, 0, 0, 0, 0, false);
    var flying := {Ask(2, 3, 1), Ack(2, 1)};
    Hears(sts, Trio(f, a, b), flying, {});
    sts := sts + [Deliver(Ask(2, 3, 1), 0, 1000)];
    assert Trio(f, a, b)[3 := Replica(3, 1, 0, 0, 0, false)] == Trio(f, a, Replica(3, 1, 0, 0, 0, false));
    sts := SecondElection(sts, flying - {Ask(2, 3, 1)});
  }

  /** Replica 2 asks and master 1 votes for it; the ACK stays on its way. */
  lemma FirstVote() returns (sts: seq<Step>)
    ensures Leads(Start(), sts, Trio(Master(1, 1, 3000), Replica(2, 1, 0, 1, 0, true), Replica(3, 0, 0, 0, 0, false)),
                  {Ask(2, 3, 1), Ack(2, 1)}, {})
  {
    hide Leads, At, HeaderAt;
    StartLeads();
    var f, a, b := Master(0, 0, 0), Replica(2, 0, 0, 0, 0, false), Replica(3, 0, 0, 0, 0, false);
    Asks([], Trio(f, a, b), {}, {}, 2, 0, 0, 0, 0, 1000);
    sts := [] + [Timer(2, Now(1000))];
    a := Replica(2, 1, 0, 1, 0, true);
    var flying := {} + {Ask(2, 1, 1), Ask(2, 3, 1)};
    assert Trio(f, Replica(2, 0, 0, 0, 0, false), b)[2 := a] == Trio(f, a, b);
    Votes(sts, Trio(f, a, b), flying, {}, 2, 0, 0, 0, 3000);
    sts := sts + [Deliver(Ask(2, 1, 1), 3000, 1000)];
    assert Trio(f, a, b)[1 := Master(1, 1, 3000)] == Trio(Master(1, 1, 3000), a, b);
    FewerFlying(sts, Trio(Master(1, 1, 3000), a, b), flying - {Ask(2, 1, 1)} + {Ack(2, 1)}, {},
                {Ask(2, 3, 1), Ack(2, 1)});
  }

  lemma SecondElection(before: seq<Step>, flying: set<Message>) returns (sts: seq<Step>)
    requires Leads(Start(), before, Trio(Master(1, 1, 3000), Replica(2, 1, 0, 1, 0, true),
                                         Replica(3, 1, 0, 0, 0, false)), flying, {})
    requires Ack(2, 1) in flying
    ensures Leads(Start(), sts, Trio(Master(2, 2, 6000), Replica(2, 1, 0, 1, 0, true), Replica(3, 2, 0, 2, 0, true)),
                  {Ack(2, 1), Ack(3, 2)}, {})
  {
    hide Leads, At, HeaderAt;
    var f, a := Master(1, 1, 3000), Replica(2, 1, 0, 1, 0, true);
    Asks(before, Trio(f, a, Replica(3, 1, 0, 0, 0, false)), flying, {}, 3, 1, 0, 0, 0, 1000);
    sts := before + [Timer(3, Now(1000))];
    var b := Replica(3, 2, 0, 2, 0, true);
    var flying1 := flying + {Ask(3, 1, 2), Ask(3, 2, 2)};
    assert Trio(f, a, Replica(3, 1, 0, 0, 0, false))[3 := b] == Trio(f, a, b);
    Votes(sts, Trio(f, a, b), flying1, {}, 3, 1, 1, 3000, 6000);
    sts := sts + [Deliver(Ask(3, 1, 2), 6000, 1000)];
    assert Trio(f, a, b)[1 := Master(2, 2, 6000)] == Trio(Master(2, 2, 6000), a, b);
    FewerFlying(sts, Trio(Master(2, 2, 6000), a, b), flying1 - {Ask(3, 1, 2)} + {Ack(3, 2)}, {},
                {Ack(2, 1), Ack(3, 2)});
  }

  lemma FewerFlying(sts: seq<Step>, nodes: map<Name, View>, flying: set<Message>, won: set<Promotion>,
      some: set<Message>)
    requires Leads(Start(), sts, nodes, flying, won) && some <= flying
    ensures Leads(Start(), sts, nodes, some, won)
  {
    hide SystemOk, Steps, Reached, Start;
  }

  /** Replica 3 wins election 2, with master 1's vote. */
  lemma SecondReplicaWins(sts: seq<Step>) returns (nodes: map<Name, View>, flying: set<Message>, won: set<Promotion>)
    requires Leads(Start(), sts, Trio(Master(2, 2, 6000), Replica(2, 1, 0, 1, 0, true), Replica(3, 2, 0, 2, 0, true)),
                   {Ack(2, 1), Ack(3, 2)}, {})
    ensures 2 in nodes && nodes[2] == Replica(2, 1, 0, 1, 0, true) && Ack(2, 1) in flying && Promotion(3, 2) in won
    ensures Leads(Start(), sts + [Deliver(Ack(3, 2), 0, 1000)] + [Timer(3, Now(1500))], nodes, flying, won)
  {
    hide Leads, At, HeaderAt;
    nodes := Trio(Master(2, 2, 6000), Replica(2, 1, 0, 1, 0, true), Replica(3, 2, 0, 2, 0, true));
    flying := {Ack(2, 1), Ack(3, 2)};
    Tallies(sts, nodes, flying, {}, 3, 2, 0, 2, 0, true, 2);
    nodes := nodes[3 := Replica(3, 2, 0, 2, 1, true)];
    flying := flying - {Ack(3, 2)};
    var w := Wins(sts + [Deliver(Ack(3, 2), 0, 1000)], nodes, flying, {}, 3, 2, 0, 2, 1500);
    nodes, won := nodes[3 := w], {} + {Promotion(3, 2)};
  }
}
