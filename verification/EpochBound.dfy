/** The cluster-wide epoch bound: no config epoch a node stores or sends is ever greater than
    the current epoch it stores or sends. */
module EpochBound {
  import opened Options
  import opened Slots
  import opened Cluster
  import opened NodeRuns
  import opened ClusterNet

  /** Every config epoch this node knows, its last vote and its election are at most its current epoch. */
  predicate Bounded(v: View) {
    && v.authEpoch <= v.currentEpoch
    && v.lastVoteEpoch <= v.currentEpoch
    && forall n :: n in v.nodes ==> v.nodes[n].configEpoch <= v.currentEpoch
  }

  predicate HonestHeader(h: Header) {
    h.configEpoch <= h.currentEpoch
  }

  /** An event whose packet, if it is one, obeys the bound. */
  predicate Honest(e: Event) {
    match e
    case Ping(h) => HonestHeader(h)
    case Update(h, _, epoch, _) => HonestHeader(h) && epoch <= h.currentEpoch
    case VoteRequest(h, _, _, _) => HonestHeader(h)
    case VoteAck(h) => HonestHeader(h)
    case _ => true
  }

  /** The bound holds and the current epoch has not gone back. */
  predicate Advances(v: View, w: View) {
    Bounded(w) && v.currentEpoch <= w.currentEpoch
  }

  /** With the bound, the greatest epoch a node knows is its current epoch. */
  lemma MaxEpochIsCurrent(v: View)
    requires Bounded(v)
    ensures MaxEpoch(v) == v.currentEpoch
  {
  }

  /** A self-assigned epoch is greater than every epoch the node knows. */
  lemma BumpIsNew(v: View)
    requires Bounded(v) && v.self in v.nodes
    ensures var w := BumpEpoch(v);
      && Advances(v, w)
      && forall n :: n in v.nodes ==> v.nodes[n].configEpoch < w.nodes[w.self].configEpoch
  {
  }

  lemma EpochsAdvance(v: View, h: Header)
    requires Bounded(v) && h.sender in v.nodes && HonestHeader(h)
    ensures Advances(v, ReceiveEpochs(v, h)) && ReceiveEpochs(v, h).currentEpoch >= h.currentEpoch
  {
  }

  /** Roles and slot claims do not touch epochs. */
  predicate SameEpochs(v: View, w: View) {
    && w.currentEpoch == v.currentEpoch && w.lastVoteEpoch == v.lastVoteEpoch
    && w.authEpoch == v.authEpoch && w.authCount == v.authCount && w.authSent == v.authSent
    && w.nodes.Keys == v.nodes.Keys
    && forall n :: n in v.nodes ==> w.nodes[n].configEpoch == v.nodes[n].configEpoch
  }

  lemma RoleKeepsEpochs(v: View, h: Header)
    requires WellFormed(v) && h.sender in v.nodes
    ensures SameEpochs(v, ReceiveRole(v, h))
  {
    hide Shape, DelNodeSlots;
  }

  lemma ClaimKeepsEpochs(v: View, n: Name, epoch: nat, claimed: Bitmap)
    requires WellFormed(v) && n in v.nodes && |claimed| == SlotCount(v)
    ensures SameEpochs(v, UpdateSlots(v, n, epoch, claimed))
  {
    hide Shape, RebindAll, TakenMask, Loses;
  }

  lemma SameEpochsBounded(v: View, w: View)
    requires Bounded(v) && SameEpochs(v, w)
    ensures Bounded(w) && w.currentEpoch == v.currentEpoch
  {
  }

  lemma ClaimBounded(v: View, h: Header)
    requires Sound(v) && WellFormed(v) && Bounded(v) && h.sender in v.nodes && |h.slots| == SlotCount(v)
    ensures var u := ReceiveClaim(v, h);
      Bounded(u) && u.currentEpoch == v.currentEpoch && u.self in u.nodes
  {
    hide WellFormed, Sound, UpdateSlots, ClaimsDiffer, Bounded, SameEpochs;
    SoundIsWellFormed(v);
    ClaimKeepsEpochs(v, h.sender, h.configEpoch, h.slots);
    UpdateSlotsSound(v, h.sender, h.configEpoch, h.slots);
    SameEpochsBounded(v, UpdateSlots(v, h.sender, h.configEpoch, h.slots));
  }

  lemma PingAdvances(v: View, h: Header)
    requires Sound(v) && Bounded(v) && HonestHeader(h)
    requires WellFormed(v) && h.sender in v.nodes && h.sender != v.self && |h.slots| == SlotCount(v)
    ensures Advances(v, ReceivePing(v, h))
  {
    hide WellFormed, Sound, ReceiveEpochs, ReceiveRole, ReceiveClaim, BumpEpoch, Bounded, SameEpochs;
    EpochsSound(v, h);
    EpochsAdvance(v, h);
    var e := ReceiveEpochs(v, h);
    SoundIsWellFormed(e);
    RoleSound(e, h);
    RoleKeepsEpochs(e, h);
    var w := ReceiveRole(e, h);
    SameEpochsBounded(e, w);
    SoundIsWellFormed(w);
    ClaimBounded(w, h);
    BumpIsNew(ReceiveClaim(w, h));
  }

  lemma ReportBounded(v: View, n: Name, epoch: nat)
    requires Bounded(v) && n in v.nodes && epoch <= v.currentEpoch
    ensures Bounded(SetNode(v, n, Reported(v.nodes[n], epoch)))
  {
  }

  lemma UpdateAdvances(v: View, h: Header, n: Name, epoch: nat, claimed: Bitmap)
    requires Sound(v) && Bounded(v) && HonestHeader(h) && epoch <= h.currentEpoch
    requires WellFormed(v) && h.sender in v.nodes && |claimed| == SlotCount(v)
    ensures Advances(v, ReceiveUpdate(v, h, n, epoch, claimed))
  {
    hide WellFormed, Sound, ReceiveEpochs, UpdateSlots, Bounded, SameEpochs, Reported;
    EpochsSound(v, h);
    EpochsAdvance(v, h);
    var w := ReceiveEpochs(v, h);
    SoundIsWellFormed(w);
    if n in w.nodes && w.nodes[n].configEpoch < epoch {
      var u := SetNode(w, n, Reported(w.nodes[n], epoch));
      ReportKeepsShape(w, n, epoch);
      ReportBounded(w, n, epoch);
      ClaimKeepsEpochs(u, n, epoch, claimed);
      SameEpochsBounded(u, UpdateSlots(u, n, epoch, claimed));
    }
  }

  lemma ReportKeepsShape(v: View, n: Name, epoch: nat)
    requires WellFormed(v) && n in v.nodes
    ensures var u := SetNode(v, n, Reported(v.nodes[n], epoch)); WellFormed(u) && SameFrame(v, u)
  {
    hide WellFormed;
    KnownNames(v, n);
    SetNodeKeepsShape(v, n, Reported(v.nodes[n], epoch));
  }

  lemma VotesAdvance(v: View, h: Header, force: bool, now: int, timeout: nat)
    requires Sound(v) && Bounded(v) && HonestHeader(h)
    requires WellFormed(v) && h.sender in v.nodes && |h.slots| == SlotCount(v)
    ensures Advances(v, ReceiveRequest(v, h, force, now, timeout).0)
  {
    hide WellFormed, Sound, ReceiveEpochs, ClaimIsCurrent;
    EpochsSound(v, h);
    EpochsAdvance(v, h);
    SoundIsWellFormed(ReceiveEpochs(v, h));
    KnownNames(ReceiveEpochs(v, h), h.sender);
  }

  lemma FailoverAdvances(v: View, c: Clock)
    requires WellFormed(v) && Bounded(v)
    ensures Advances(v, HandleFailover(v, c))
  {
    hide Shape, RebindAll, FailoverBranch;
    if FailoverBranch(v, c) == Promote {
      PromoteOnlyReplicas(v, c);
    }
  }

  lemma PromoteOnlyReplicas(v: View, c: Clock)
    requires WellFormed(v) && FailoverBranch(v, c) == Promote
    ensures !Me(v).master && v.authSent && v.authCount >= v.size / 2 + 1
  {
  }

  lemma AdminAdvances(v: View, e: Event)
    requires Sound(v) && WellFormed(v) && Bounded(v) && Enabled(v, e) && Local(e)
    ensures Advances(v, Apply(v, e))
  {
    hide Sound, Shape, Rebind, AddSlot, DelSlot, DelAll, Serving, MaxEpoch, BumpEpoch;
    match e
    case AssignSlot(j, n, keys) =>
      var w := if keys == 0 then v.(migrating := v.migrating[j := None]) else v;
      BumpIsNew(w);
    case _ =>
  }

  /** Every event that carries an honest packet keeps the bound. */
  lemma EventAdvances(v: View, e: Event)
    requires Sound(v) && WellFormed(v) && Bounded(v) && Enabled(v, e) && Honest(e)
    ensures Advances(v, Apply(v, e))
  {
    hide Sound, WellFormed, Bounded, HonestHeader, ReceivePing, ReceiveUpdate, ReceiveRequest, ReceiveAck,
         HandleFailover, SetSlotNode, AddSlotHere, DelSlotHere, SetMaster, Forget, Learn, Serving, Me;
    match e
    case Ping(h) => if Heard(v, h) { PingAdvances(v, h); }
    case Update(h, n, epoch, claimed) => if Heard(v, h) { UpdateAdvances(v, h, n, epoch, claimed); }
    case VoteRequest(h, force, now, timeout) => if Heard(v, h) { VotesAdvance(v, h, force, now, timeout); }
    case VoteAck(h) => if Heard(v, h) { AckAdvances(v, h); }
    case Tick(c) => FailoverAdvances(v, c);
    case _ => AdminAdvances(v, e);
  }

  lemma AckAdvances(v: View, h: Header)
    requires Sound(v) && Bounded(v) && HonestHeader(h)
    requires WellFormed(v) && h.sender in v.nodes
    ensures Advances(v, ReceiveAck(v, h))
  {
    hide WellFormed, Sound, ReceiveEpochs, AckCounts;
    EpochsSound(v, h);
    EpochsAdvance(v, h);
    SoundIsWellFormed(ReceiveEpochs(v, h));
  }

  // ---------------------------------------------------------------- the whole cluster

  predicate HonestMessage(m: Message) {
    HonestHeader(m.h) && (m.body.UpdateBody? ==> m.body.epoch <= m.h.currentEpoch)
  }

  predicate BoundedSystem(s: System) {
    && (forall n {:trigger Bounded(s.nodes[n])} :: n in s.nodes ==> Bounded(s.nodes[n]))
    && (forall m {:trigger HonestMessage(m)} :: m in s.net ==> HonestMessage(m))
  }

  lemma HeaderHonest(v: View)
    requires WellFormed(v) && Bounded(v)
    ensures HonestHeader(BuildHeader(v))
  {
  }

  /** Node `n` moves to `w` and the network becomes `net`. */
  lemma BoundMoves(s: System, t: System, n: Name, w: View)
    requires BoundedSystem(s) && n in s.nodes && Bounded(w)
    requires t.nodes == s.nodes[n := w]
    requires forall m :: m in t.net ==> m in s.net || HonestMessage(m)
    ensures BoundedSystem(t)
  {
    hide Bounded, HonestMessage;
    forall k | k in t.nodes ensures Bounded(t.nodes[k]) {
      assert k != n ==> Bounded(s.nodes[k]);
    }
    forall m | m in t.net ensures HonestMessage(m) {
      if m in s.net { assert HonestMessage(m); }
    }
  }

  lemma ReceiveBounded(s: System, size: nat, m: Message, now: int, timeout: nat)
    requires SystemOk(s, size) && BoundedSystem(s) && m in s.net && m.to in s.nodes
    ensures BoundedSystem(Receive(s, size, m, now, timeout))
  {
    hide Sound, WellFormed, Apply, Enabled, Counts, ReceiveRequest, BuildHeader, SystemOk, BoundedSystem;
    var v, e := s.nodes[m.to], EventOf(m, now, timeout);
    DeliveryEnabled(s, size, m, now, timeout);
    ApplyOk(s, size, m.to, e);
    var w := Apply(v, e);
    HasBound(s, m.to);
    IsHonest(s, m);
    EventAdvances(v, e);
    SoundIsWellFormed(w);
    HeaderHonest(w);
    BoundMoves(s, Receive(s, size, m, now, timeout), m.to, w);
  }

  lemma HasBound(s: System, n: Name)
    requires BoundedSystem(s) && n in s.nodes
    ensures Bounded(s.nodes[n])
  {
  }

  lemma IsHonest(s: System, m: Message)
    requires BoundedSystem(s) && m in s.net
    ensures HonestMessage(m)
  {
  }

  lemma RequestsHonest(v: View, force: bool)
    requires WellFormed(v) && Bounded(v)
    ensures forall m :: m in Requests(v, force) ==> HonestMessage(m)
  {
    hide WellFormed, Bounded, BuildHeader;
    HeaderHonest(v);
  }

  /** What a failover timer does to the system, apart from the histories. */
  lemma ExpireShape(s: System, size: nat, n: Name, c: Clock)
    requires SystemOk(s, size) && n in s.nodes && WellFormed(s.nodes[n])
    ensures var w, t := HandleFailover(s.nodes[n], c), Expire(s, size, n, c);
      && WellFormed(w) && t.nodes == s.nodes[n := w]
      && forall m :: m in t.net ==> m in s.net || m in Requests(w, c.manualSet)
  {
    hide Sound, WellFormed, HandleFailover, FailoverBranch, Requests, SystemOk, Apply, Enabled, Agrees, Shape;
    NodeIsSound(s, size, n);
    FailoverSound(s.nodes[n], c);
    var w, t := HandleFailover(s.nodes[n], c), Expire(s, size, n, c);
    SoundIsWellFormed(w);
    if FailoverBranch(s.nodes[n], c) == Request {
      assert t.net == s.net + multiset(Requests(w, c.manualSet));
    } else {
      assert t.net == s.net;
    }
  }

  lemma ExpireBounded(s: System, size: nat, n: Name, c: Clock)
    requires SystemOk(s, size) && BoundedSystem(s) && n in s.nodes
    ensures BoundedSystem(Expire(s, size, n, c))
  {
    hide Sound, WellFormed, HandleFailover, Expire, Requests, SystemOk, BoundedSystem, Bounded, HonestMessage;
    NodeIsSound(s, size, n);
    HasBound(s, n);
    FailoverAdvances(s.nodes[n], c);
    var w := HandleFailover(s.nodes[n], c);
    ExpireShape(s, size, n, c);
    RequestsHonest(w, c.manualSet);
    BoundMoves(s, Expire(s, size, n, c), n, w);
  }

  lemma StepBounded(s: System, size: nat, st: Step)
    requires SystemOk(s, size) && BoundedSystem(s) && StepEnabled(s, st)
    ensures BoundedSystem(Next(s, size, st))
  {
    hide Sound, WellFormed, Apply, Enabled, Receive, Expire, BuildHeader, SystemOk, BoundedSystem;
    var t := Next(s, size, st);
    match st
    case SendPing(from, to) =>
      NodeIsSound(s, size, from);
      HasBound(s, from);
      HeaderHonest(s.nodes[from]);
      BoundMoves(s, t, from, s.nodes[from]);
    case SendUpdate(from, to, about) =>
      NodeIsSound(s, size, from);
      HasBound(s, from);
      HeaderHonest(s.nodes[from]);
      HeaderSize(s.nodes[from]);
      assert s.nodes[from].nodes[about].configEpoch <= s.nodes[from].currentEpoch;
      BoundMoves(s, t, from, s.nodes[from]);
    case Deliver(m, now, timeout) => ReceiveBounded(s, size, m, now, timeout);
    case Lose(m) => LoseBounded(s, m);
    case Timer(n, c) => ExpireBounded(s, size, n, c);
    case Admin(n, e) =>
      NodeIsSound(s, size, n);
      HasBound(s, n);
      EventAdvances(s.nodes[n], e);
      BoundMoves(s, t, n, Apply(s.nodes[n], e));
  }

  lemma LoseBounded(s: System, m: Message)
    requires BoundedSystem(s)
    ensures BoundedSystem(s.(net := s.net - multiset{m}))
  {
  }

  /** The epoch bound, in every state of every run: each config epoch a node stores is at most the
      current epoch it stores, and the same holds of every packet in flight; so the greatest epoch a
      node knows is its current epoch. */
  lemma {:induction false} RunKeepsEpochBound(s: System, size: nat, sts: seq<Step>)
    requires SystemOk(s, size) && BoundedSystem(s) && Steps(s, size, sts)
    ensures var t := Reached(s, size, sts);
      && BoundedSystem(t)
      && (forall a, b :: a in t.nodes && b in t.nodes[a].nodes ==>
          t.nodes[a].nodes[b].configEpoch <= t.nodes[a].currentEpoch)
      && (forall a :: a in t.nodes ==> MaxEpoch(t.nodes[a]) == t.nodes[a].currentEpoch)
      && (forall m :: m in t.net ==> m.h.configEpoch <= m.h.currentEpoch)
    decreases |sts|
  {
    hide SystemOk, Next, StepEnabled, BoundedSystem, MaxEpoch;
    if sts == [] {
      forall a | a in s.nodes ensures Bounded(s.nodes[a]) && MaxEpoch(s.nodes[a]) == s.nodes[a].currentEpoch {
        HasBound(s, a);
        MaxEpochIsCurrent(s.nodes[a]);
      }
      forall m | m in s.net ensures HonestMessage(m) {
        IsHonest(s, m);
      }
    } else {
      StepOk(s, size, sts[0]);
      StepBounded(s, size, sts[0]);
      RunKeepsEpochBound(Next(s, size, sts[0]), size, sts[1..]);
    }
  }

  // ---------------------------------------------------------------- how fast epochs grow

  /** The current epoch the event's packet carries. */
  function Carried(e: Event): nat {
    match e
    case Ping(h) => h.currentEpoch
    case Update(h, _, _, _) => h.currentEpoch
    case VoteRequest(h, _, _, _) => h.currentEpoch
    case VoteAck(h) => h.currentEpoch
    case _ => 0
  }

  lemma PingGrows(v: View, h: Header)
    requires Sound(v) && WellFormed(v) && h.sender in v.nodes && h.sender != v.self && |h.slots| == SlotCount(v)
    ensures ReceivePing(v, h).currentEpoch <= Max(v.currentEpoch, h.currentEpoch) + 1
  {
    hide WellFormed, Sound, ReceiveRole, UpdateSlots, ClaimsDiffer, SameEpochs;
    EpochsSound(v, h);
    var e := ReceiveEpochs(v, h);
    SoundIsWellFormed(e);
    RoleSound(e, h);
    RoleKeepsEpochs(e, h);
    var w := ReceiveRole(e, h);
    SoundIsWellFormed(w);
    ClaimKeepsEpochs(w, h.sender, h.configEpoch, h.slots);
    SameCurrent(e, w);
    SameCurrent(w, UpdateSlots(w, h.sender, h.configEpoch, h.slots));
  }

  lemma SameCurrent(v: View, w: View)
    requires SameEpochs(v, w)
    ensures v.currentEpoch == w.currentEpoch
  {
  }

  lemma UpdateGrows(v: View, h: Header, n: Name, epoch: nat, claimed: Bitmap)
    requires Sound(v) && WellFormed(v) && h.sender in v.nodes && |claimed| == SlotCount(v)
    ensures ReceiveUpdate(v, h, n, epoch, claimed).currentEpoch == Max(v.currentEpoch, h.currentEpoch)
  {
    hide WellFormed, Sound, UpdateSlots, SameEpochs, Reported;
    EpochsSound(v, h);
    var w := ReceiveEpochs(v, h);
    SoundIsWellFormed(w);
    if n in w.nodes && w.nodes[n].configEpoch < epoch {
      var u := SetNode(w, n, Reported(w.nodes[n], epoch));
      ReportKeepsShape(w, n, epoch);
      ClaimKeepsEpochs(u, n, epoch, claimed);
      SameCurrent(u, UpdateSlots(u, n, epoch, claimed));
    }
  }

  lemma FailoverGrows(v: View, c: Clock)
    requires WellFormed(v)
    ensures HandleFailover(v, c).currentEpoch <= v.currentEpoch + 1
  {
    hide Shape, RebindAll, FailoverBranch;
  }

  /** One event raises a node's current epoch to at most one more than the greatest one at hand. */
  lemma EventGrows(v: View, e: Event)
    requires Sound(v) && WellFormed(v) && Enabled(v, e)
    ensures Apply(v, e).currentEpoch <= Max(v.currentEpoch, Carried(e)) + 1
  {
    hide Sound, Shape, ReceivePing, ReceiveUpdate, HandleFailover, Rebind, AddSlot, DelSlot, DelAll, Serving,
         MaxEpoch, AckCounts, Grants;
    match e
    case Ping(h) => if Heard(v, h) { PingGrows(v, h); }
    case Update(h, n, epoch, claimed) => if Heard(v, h) { UpdateGrows(v, h, n, epoch, claimed); }
    case Tick(c) => FailoverGrows(v, c);
    case _ =>
  }

  /** No node and no packet has a current epoch above `top`. */
  predicate Below(s: System, top: nat) {
    && (forall n :: n in s.nodes ==> s.nodes[n].currentEpoch <= top)
    && (forall m :: m in s.net ==> m.h.currentEpoch <= top)
  }

  lemma BelowMoves(s: System, t: System, n: Name, w: View, top: nat)
    requires Below(s, top) && n in s.nodes && WellFormed(w) && w.currentEpoch <= top + 1
    requires t.nodes == s.nodes[n := w]
    requires forall m :: m in t.net ==> m in s.net || m.h == BuildHeader(w)
    ensures Below(t, top + 1)
  {
    hide WellFormed;
  }

  lemma ReceiveGrows(s: System, size: nat, m: Message, now: int, timeout: nat, top: nat)
    requires SystemOk(s, size) && m in s.net && m.to in s.nodes && Below(s, top)
    ensures Below(Receive(s, size, m, now, timeout), top + 1)
  {
    hide Sound, WellFormed, Apply, Enabled, BuildHeader, SystemOk, ReceiveRequest, Counts;
    var v, e := s.nodes[m.to], EventOf(m, now, timeout);
    DeliveryEnabled(s, size, m, now, timeout);
    ApplyOk(s, size, m.to, e);
    SoundIsWellFormed(Apply(v, e));
    EventGrows(v, e);
    BelowMoves(s, Receive(s, size, m, now, timeout), m.to, Apply(v, e), top);
  }

  lemma ExpireGrows(s: System, size: nat, n: Name, c: Clock, top: nat)
    requires SystemOk(s, size) && n in s.nodes && Below(s, top)
    ensures Below(Expire(s, size, n, c), top + 1)
  {
    hide Sound, WellFormed, Expire, BuildHeader, SystemOk, HandleFailover;
    NodeIsSound(s, size, n);
    FailoverGrows(s.nodes[n], c);
    ExpireShape(s, size, n, c);
    BelowMoves(s, Expire(s, size, n, c), n, HandleFailover(s.nodes[n], c), top);
  }

  lemma StepGrows(s: System, size: nat, st: Step, top: nat)
    requires SystemOk(s, size) && StepEnabled(s, st) && Below(s, top)
    ensures Below(Next(s, size, st), top + 1)
  {
    hide Sound, WellFormed, Apply, Enabled, BuildHeader, SystemOk, Receive, Expire;
    var t := Next(s, size, st);
    match st
    case SendPing(from, to) =>
      NodeIsSound(s, size, from);
      BelowMoves(s, t, from, s.nodes[from], top);
    case SendUpdate(from, to, about) =>
      NodeIsSound(s, size, from);
      BelowMoves(s, t, from, s.nodes[from], top);
    case Deliver(m, now, timeout) => ReceiveGrows(s, size, m, now, timeout, top);
    case Lose(m) =>
    case Timer(n, c) => ExpireGrows(s, size, n, c, top);
    case Admin(n, e) =>
      NodeIsSound(s, size, n);
      ApplyOk(s, size, n, e);
      SoundIsWellFormed(Apply(s.nodes[n], e));
      EventGrows(s.nodes[n], e);
      BelowMoves(s, t, n, Apply(s.nodes[n], e), top);
  }

  /** Epochs grow by at most one a step: in a run whose length and first epochs add up to less than 2^64, no
      epoch leaves the 64 bits the source keeps it in. */
  lemma {:induction false} EpochsGrowSlowly(s: System, size: nat, sts: seq<Step>, top: nat)
    requires SystemOk(s, size) && BoundedSystem(s) && Steps(s, size, sts) && Below(s, top)
    ensures var t := Reached(s, size, sts);
      && Below(t, top + |sts|)
      && forall a, b :: a in t.nodes && b in t.nodes[a].nodes ==> t.nodes[a].nodes[b].configEpoch <= top + |sts|
    decreases |sts|
  {
    hide SystemOk, Next, StepEnabled, BoundedSystem, MaxEpoch;
    if sts != [] {
      StepOk(s, size, sts[0]);
      StepBounded(s, size, sts[0]);
      StepGrows(s, size, sts[0], top);
      EpochsGrowSlowly(Next(s, size, sts[0]), size, sts[1..], top + 1);
    }
    RunKeepsEpochBound(s, size, sts);
  }
}
