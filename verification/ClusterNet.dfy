/** Redis Cluster as a message-passing system: every node runs the handlers of its own view,
    and packets may be delayed, reordered or lost, but are not duplicated. */
module ClusterNet {
  import opened Slots
  import opened Cluster
  import opened NodeRuns

  datatype Body =
    | PingBody
    | UpdateBody(about: Name, epoch: nat, claimed: Bitmap)
    | RequestBody(force: bool)
    | AckBody

  datatype Message = Message(to: Name, h: Header, body: Body)

  /** `voter` granted its vote of `epoch` to `candidate`. */
  datatype Vote = Vote(voter: Name, epoch: nat, candidate: Name)

  /** `replica` turned itself into a master with config epoch `epoch`. */
  datatype Promotion = Promotion(replica: Name, epoch: nat)

  /** The nodes' views and the packets in flight; then three history variables: the votes granted,
      whose votes each candidate has counted since its count was last zeroed, and the promotions. */
  datatype System = System(nodes: map<Name, View>, net: multiset<Message>,
                           votes: set<Vote>, counted: map<Name, set<Name>>, promotions: set<Promotion>)

  datatype Step =
    | SendPing(from: Name, to: Name)
    | SendUpdate(from: Name, to: Name, about: Name)
    | Deliver(m: Message, now: int, timeout: nat)
    | Lose(m: Message)
    | Timer(n: Name, c: Clock)
    | Admin(n: Name, e: Event)

  /** The event a packet is for the node it reaches. */
  function EventOf(m: Message, now: int, timeout: nat): Event {
    match m.body
    case PingBody => Ping(m.h)
    case UpdateBody(about, epoch, claimed) => Update(m.h, about, epoch, claimed)
    case RequestBody(force) => VoteRequest(m.h, force, now, timeout)
    case AckBody => VoteAck(m.h)
  }

  predicate Local(e: Event) {
    !e.Ping? && !e.Update? && !e.VoteRequest? && !e.VoteAck? && !e.Tick?
  }

  // ---------------------------------------------------------------- shape

  predicate NodeOk(n: Name, v: View, size: nat) {
    Sound(v) && v.self == n && SlotCount(v) == size
  }

  predicate MessageOk(m: Message, size: nat) {
    && m.h.sender != m.to
    && |m.h.slots| == size
    && (m.body.UpdateBody? ==> |m.body.claimed| == size)
  }

  /** All nodes agree on the number of slots, and packets are well formed. */
  predicate SystemOk(s: System, size: nat) {
    && s.counted.Keys == s.nodes.Keys
    && (forall n {:trigger NodeOk(n, s.nodes[n], size)} :: n in s.nodes ==> NodeOk(n, s.nodes[n], size))
    && (forall m {:trigger MessageOk(m, size)} :: m in s.net ==> MessageOk(m, size) && m.h.sender in s.nodes)
  }

  predicate StepEnabled(s: System, st: Step) {
    match st
    case SendPing(from, to) => from in s.nodes && from != to
    case SendUpdate(from, to, about) => from in s.nodes && from != to && about in s.nodes[from].nodes
    case Deliver(m, _, _) => m in s.net && m.to in s.nodes
    case Lose(m) => m in s.net
    case Timer(n, _) => n in s.nodes
    case Admin(n, e) => n in s.nodes && Local(e) && Enabled(s.nodes[n], e)
  }

  // ---------------------------------------------------------------- steps

  function Post(s: System, m: Message): System {
    s.(net := s.net + multiset{m})
  }

  function PingFrom(v: View, to: Name): Message
    requires WellFormed(v)
  {
    Message(to, BuildHeader(v), PingBody)
  }

  /** `clusterSendUpdate`: what this node has for node `about`. */
  function UpdateFrom(v: View, to: Name, about: Name): Message
    requires WellFormed(v) && about in v.nodes
  {
    Message(to, BuildHeader(v), UpdateBody(about, v.nodes[about].configEpoch, SlotsOf(v, about).bits))
  }

  /** `clusterRequestFailoverAuth` goes to every known node. */
  function Requests(v: View, force: bool): set<Message>
    requires WellFormed(v)
  {
    set n | n in v.nodes && n != v.self :: Message(n, BuildHeader(v), RequestBody(force))
  }

  ghost function Receive(s: System, size: nat, m: Message, now: int, timeout: nat): System
    requires SystemOk(s, size) && m in s.net && m.to in s.nodes
  {
    var v := s.nodes[m.to];
    DeliveryEnabled(s, size, m, now, timeout);
    var w := Apply(v, EventOf(m, now, timeout));
    var t := s.(nodes := s.nodes[m.to := w], net := s.net - multiset{m});
    if !Heard(v, m.h) then t
    else match m.body
      case RequestBody(force) =>
        if ReceiveRequest(v, m.h, force, now, timeout).1
        then EventSound(v, EventOf(m, now, timeout));
             Post(t, Message(m.h.sender, BuildHeader(w), AckBody)).(
                 votes := t.votes + {Vote(m.to, w.currentEpoch, m.h.sender)})
        else t
      case AckBody =>
        if Counts(v, m.h) then t.(counted := t.counted[m.to := t.counted[m.to] + {m.h.sender}]) else t
      case _ => t
  }

  /** The test an ACK undergoes, after its epochs were received. */
  predicate Counts(v: View, h: Header)
    requires WellFormed(v) && h.sender in v.nodes
  {
    AckCounts(ReceiveEpochs(v, h), h)
  }

  /** `clusterHandleSlaveFailover` runs at node `n`. */
  ghost function Expire(s: System, size: nat, n: Name, c: Clock): System
    requires SystemOk(s, size) && n in s.nodes
  {
    NodeIsSound(s, size, n);
    var v := s.nodes[n];
    FailoverSound(v, c);
    var w := HandleFailover(v, c);
    var t := s.(nodes := s.nodes[n := w]);
    match FailoverBranch(v, c)
    case Schedule => t.(counted := t.counted[n := {}])
    case Request => SoundIsWellFormed(w); t.(net := t.net + multiset(Requests(w, c.manualSet)))
    case Promote => t.(promotions := t.promotions + {Promotion(n, v.authEpoch)})
    case _ => t
  }

  function Gossip(s: System, size: nat, from: Name, to: Name): System
    requires SystemOk(s, size) && from in s.nodes
  {
    NodeIsSound(s, size, from);
    Post(s, PingFrom(s.nodes[from], to))
  }

  function Report(s: System, size: nat, from: Name, to: Name, about: Name): System
    requires SystemOk(s, size) && from in s.nodes && about in s.nodes[from].nodes
  {
    NodeIsSound(s, size, from);
    Post(s, UpdateFrom(s.nodes[from], to, about))
  }

  ghost function Operate(s: System, size: nat, n: Name, e: Event): System
    requires SystemOk(s, size) && n in s.nodes && Enabled(s.nodes[n], e)
  {
    NodeIsSound(s, size, n);
    s.(nodes := s.nodes[n := Apply(s.nodes[n], e)])
  }

  ghost function Next(s: System, size: nat, st: Step): System
    requires SystemOk(s, size) && StepEnabled(s, st)
  {
    match st
    case SendPing(from, to) => Gossip(s, size, from, to)
    case SendUpdate(from, to, about) => Report(s, size, from, to, about)
    case Deliver(m, now, timeout) => Receive(s, size, m, now, timeout)
    case Lose(m) => s.(net := s.net - multiset{m})
    case Timer(n, c) => Expire(s, size, n, c)
    case Admin(n, e) => Operate(s, size, n, e)
  }

  lemma NodeIsSound(s: System, size: nat, n: Name)
    requires SystemOk(s, size) && n in s.nodes
    ensures Sound(s.nodes[n]) && WellFormed(s.nodes[n]) && s.nodes[n].self == n && SlotCount(s.nodes[n]) == size
  {
    hide Sound;
    assert NodeOk(n, s.nodes[n], size);
    SoundIsWellFormed(s.nodes[n]);
  }

  lemma DeliveryEnabled(s: System, size: nat, m: Message, now: int, timeout: nat)
    requires SystemOk(s, size) && m in s.net && m.to in s.nodes
    ensures var v := s.nodes[m.to];
      Sound(v) && WellFormed(v) && v.self == m.to && SlotCount(v) == size && Enabled(v, EventOf(m, now, timeout))
  {
    hide Sound, WellFormed;
    NodeIsSound(s, size, m.to);
    assert MessageOk(m, size);
  }

  // ---------------------------------------------------------------- the shape is kept

  lemma HeaderSize(v: View)
    requires WellFormed(v)
    ensures |BuildHeader(v).slots| == SlotCount(v) && BuildHeader(v).sender == v.self
    ensures BuildHeader(v).currentEpoch == v.currentEpoch
  {
    BitmapSize(v.table, CurrentMaster(v));
  }

  /** Node `n` moves to `w`. */
  lemma NodeMoves(s: System, size: nat, n: Name, w: View)
    requires SystemOk(s, size) && n in s.nodes && NodeOk(n, w, size)
    ensures SystemOk(s.(nodes := s.nodes[n := w]), size)
  {
    hide NodeOk, MessageOk;
    var t := s.(nodes := s.nodes[n := w]);
    forall k | k in t.nodes ensures NodeOk(k, t.nodes[k], size) {
      assert k != n ==> NodeOk(k, s.nodes[k], size);
    }
    forall m | m in t.net ensures MessageOk(m, size) && m.h.sender in t.nodes {
      assert MessageOk(m, size);
    }
  }

  lemma NetMoves(s: System, size: nat, net: multiset<Message>)
    requires SystemOk(s, size)
    requires forall m :: m in net ==> m in s.net || (MessageOk(m, size) && m.h.sender in s.nodes)
    ensures SystemOk(s.(net := net), size)
  {
    hide NodeOk, MessageOk;
    var t := s.(net := net);
    forall k | k in t.nodes ensures NodeOk(k, t.nodes[k], size) {
      assert NodeOk(k, s.nodes[k], size);
    }
    forall m | m in t.net ensures MessageOk(m, size) && m.h.sender in t.nodes {
      if m in s.net { assert MessageOk(m, size); }
    }
  }

  lemma HistoryMoves(s: System, size: nat, votes: set<Vote>, counted: map<Name, set<Name>>, promotions: set<Promotion>)
    requires SystemOk(s, size) && counted.Keys == s.counted.Keys
    ensures SystemOk(s.(votes := votes, counted := counted, promotions := promotions), size)
  {
    hide NodeOk, MessageOk;
    var t := s.(votes := votes, counted := counted, promotions := promotions);
    forall k | k in t.nodes ensures NodeOk(k, t.nodes[k], size) {
      assert NodeOk(k, s.nodes[k], size);
    }
    forall m | m in t.net ensures MessageOk(m, size) && m.h.sender in t.nodes {
      assert MessageOk(m, size);
    }
  }

  lemma ApplyOk(s: System, size: nat, n: Name, e: Event)
    requires SystemOk(s, size) && n in s.nodes && Enabled(s.nodes[n], e)
    ensures var v := s.nodes[n];
      && Sound(v) && WellFormed(v) && NodeOk(n, Apply(v, e), size)
      && SystemOk(s.(nodes := s.nodes[n := Apply(v, e)]), size)
  {
    hide Sound, WellFormed, Apply, Enabled, SystemOk;
    NodeIsSound(s, size, n);
    EventSound(s.nodes[n], e);
    EventKeepsSize(s.nodes[n], e);
    NodeMoves(s, size, n, Apply(s.nodes[n], e));
  }

  lemma ReceiveOk(s: System, size: nat, m: Message, now: int, timeout: nat)
    requires SystemOk(s, size) && m in s.net && m.to in s.nodes
    ensures SystemOk(Receive(s, size, m, now, timeout), size)
  {
    hide Sound, WellFormed, Apply, Enabled, Heard, Counts, ReceiveRequest, BuildHeader;
    var e := EventOf(m, now, timeout);
    DeliveryEnabled(s, size, m, now, timeout);
    ApplyOk(s, size, m.to, e);
    var w := Apply(s.nodes[m.to], e);
    var t := s.(nodes := s.nodes[m.to := w], net := s.net - multiset{m});
    NetMoves(s.(nodes := s.nodes[m.to := w]), size, s.net - multiset{m});
    SoundIsWellFormed(w);
    HeaderSize(w);
    assert MessageOk(m, size);
    var ack := Message(m.h.sender, BuildHeader(w), AckBody);
    NetMoves(t, size, t.net + multiset{ack});
    var r := Receive(s, size, m, now, timeout);
    HistoryMoves(t, size, r.votes, r.counted, r.promotions);
    HistoryMoves(Post(t, ack), size, r.votes, r.counted, r.promotions);
  }

  lemma ExpireOk(s: System, size: nat, n: Name, c: Clock)
    requires SystemOk(s, size) && n in s.nodes
    ensures SystemOk(Expire(s, size, n, c), size)
  {
    hide Sound, WellFormed, HandleFailover, FailoverBranch, SystemOk, Requests, MessageOk, SlotCount;
    NodeIsSound(s, size, n);
    var v := s.nodes[n];
    ApplyOk(s, size, n, Tick(c));
    var w := HandleFailover(v, c);
    assert w == Apply(v, Tick(c));
    SoundIsWellFormed(w);
    RequestsOk(w, c.manualSet);
    var t := s.(nodes := s.nodes[n := w]);
    var r := Expire(s, size, n, c);
    NetMoves(t, size, t.net + multiset(Requests(w, c.manualSet)));
    CountedKeys(s, size);
    HistoryMoves(t, size, r.votes, r.counted, r.promotions);
  }

  lemma RequestsOk(v: View, force: bool)
    requires WellFormed(v)
    ensures forall m :: m in Requests(v, force) ==>
      && MessageOk(m, SlotCount(v)) && m.body.RequestBody?
      && m.h.sender == v.self && m.h.currentEpoch == v.currentEpoch
  {
    hide WellFormed, BuildHeader;
    HeaderSize(v);
  }

  lemma CountedKeys(s: System, size: nat)
    requires SystemOk(s, size)
    ensures s.counted.Keys == s.nodes.Keys
  {
  }

  lemma StepOk(s: System, size: nat, st: Step)
    requires SystemOk(s, size) && StepEnabled(s, st)
    ensures SystemOk(Next(s, size, st), size)
  {
    hide Sound, WellFormed, Apply, Enabled, Receive, Expire, BuildHeader, SystemOk;
    match st
    case SendPing(from, to) =>
      NodeIsSound(s, size, from);
      HeaderSize(s.nodes[from]);
      NetMoves(s, size, s.net + multiset{PingFrom(s.nodes[from], to)});
    case SendUpdate(from, to, about) =>
      NodeIsSound(s, size, from);
      HeaderSize(s.nodes[from]);
      KnownNames(s.nodes[from], about);
      BitmapSize(s.nodes[from].table, about);
      NetMoves(s, size, s.net + multiset{UpdateFrom(s.nodes[from], to, about)});
    case Deliver(m, now, timeout) => ReceiveOk(s, size, m, now, timeout);
    case Lose(m) => NetMoves(s, size, s.net - multiset{m});
    case Timer(n, c) => ExpireOk(s, size, n, c);
    case Admin(n, e) => ApplyOk(s, size, n, e);
  }

  /** The steps of a run are enabled one after the other. */
  ghost predicate Steps(s: System, size: nat, sts: seq<Step>)
    requires SystemOk(s, size)
    decreases |sts|
  {
    sts == [] || (StepEnabled(s, sts[0]) && (StepOk(s, size, sts[0]); Steps(Next(s, size, sts[0]), size, sts[1..])))
  }

  ghost function Reached(s: System, size: nat, sts: seq<Step>): System
    requires SystemOk(s, size) && Steps(s, size, sts)
    decreases |sts|
  {
    if sts == [] then s else StepOk(s, size, sts[0]); Reached(Next(s, size, sts[0]), size, sts[1..])
  }
}
