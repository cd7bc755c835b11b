/** Epoch-collision repair.  While nodes' own config epochs change only through the collision handler, a
    node with `k` higher-named peers gives itself a new epoch at most 2^k - 1 times, whatever else
    happens, however the pings are scheduled and however late they arrive. */
module Collision {
  import opened Options
  import Words
  import opened Slots
  import opened Cluster
  import opened NodeRuns
  import opened ClusterNet
  import opened EpochBound

  /** A node's own config epoch. */
  function Own(s: System, i: Name): nat
    requires i in s.nodes && i in s.nodes[i].nodes
  {
    s.nodes[i].nodes[i].configEpoch
  }

  ghost function OwnEpochs(s: System, size: nat): map<Name, nat>
    requires SystemOk(s, size)
  {
    map i | i in s.nodes :: OwnIsKnown(s, size, i); Own(s, i)
  }

  lemma OwnIsKnown(s: System, size: nat, i: Name)
    requires SystemOk(s, size) && i in s.nodes
    ensures i in s.nodes[i].nodes
  {
    hide SystemOk, Sound;
    NodeIsSound(s, size, i);
  }

  /** The step delivers a ping, or changes no node's own epoch. */
  ghost predicate RepairsOnly(s: System, size: nat, st: Step)
    requires SystemOk(s, size) && StepEnabled(s, st)
  {
    || (st.Deliver? && st.m.body.PingBody?)
    || (StepOk(s, size, st); OwnEpochs(Next(s, size, st), size) == OwnEpochs(s, size))
  }

  // ---------------------------------------------------------------- one ping

  predicate MasterIsNobodysReplica(v: View) {
    v.self in v.nodes && (Me(v).master ==> Me(v).slaveof.None?)
  }

  /** A ping changes the receiver's own epoch only when a higher-named master announces that very
      epoch; the new epoch is greater. */
  lemma PingMoves(v: View, h: Header)
    requires Sound(v) && WellFormed(v) && Bounded(v) && HonestHeader(h)
    requires h.sender in v.nodes && h.sender != v.self && |h.slots| == SlotCount(v)
    ensures var w := ReceivePing(v, h);
      && w.self == v.self && w.self in w.nodes
      && (MasterIsNobodysReplica(v) ==> MasterIsNobodysReplica(w))
      && (Me(w).configEpoch == Me(v).configEpoch
          || (h.slaveof.None? && h.sender > v.self && h.configEpoch == Me(v).configEpoch < Me(w).configEpoch))
  {
    hide WellFormed, Sound, DelNodeSlots, UpdateSlots, ClaimsDiffer, Bounded, HonestHeader;
    EpochsSound(v, h);
    var e := ReceiveEpochs(v, h);
    SoundIsWellFormed(v);
    SoundIsWellFormed(e);
    RoleSound(e, h);
    var w := ReceiveRole(e, h);
    SoundIsWellFormed(w);
    EpochsAdvance(v, h);
    RoleKeepsSelf(e, h);
    ClaimKeepsRoles(w, h.sender, h.configEpoch, h.slots);
    CollisionMoves(w, h);
    assert Bounded(w) by { RoleKeepsEpochs(e, h); SameEpochsBounded(e, w); }
    BoundsOwn(w);
  }

  lemma BoundsOwn(v: View)
    requires Bounded(v) && v.self in v.nodes
    ensures Me(v).configEpoch <= v.currentEpoch
  {
  }

  lemma RoleKeepsSelf(v: View, h: Header)
    requires WellFormed(v) && h.sender in v.nodes && h.sender != v.self
    ensures var w := ReceiveRole(v, h);
      && w.self == v.self && w.self in w.nodes && Me(w) == Me(v) && h.sender in w.nodes
      && (h.slaveof.Some? ==> !w.nodes[h.sender].master)
  {
    hide WellFormed, DelNodeSlots;
    KnownNames(v, h.sender);
  }

  /** A claim of another node changes at most this node's own role, and only to replica. */
  lemma ClaimKeepsRoles(v: View, n: Name, epoch: nat, claimed: Bitmap)
    requires WellFormed(v) && n in v.nodes && n != v.self && |claimed| == SlotCount(v)
    ensures var w := UpdateSlots(v, n, epoch, claimed);
      && w.self == v.self && w.self in w.nodes && n in w.nodes && w.nodes[n] == v.nodes[n]
      && w.currentEpoch == v.currentEpoch && Me(w).configEpoch == Me(v).configEpoch
      && (Me(w) == Me(v) || !Me(w).master)
  {
    hide Shape, RebindAll, TakenMask, Loses;
  }

  lemma CollisionMoves(v: View, h: Header)
    requires WellFormed(v) && h.sender in v.nodes && h.sender != v.self && |h.slots| == SlotCount(v)
    ensures var w := ReceiveClaim(v, h);
      w.self in w.nodes && h.sender in w.nodes &&
      var x := ResolveCollision(w, h);
      && x.self == v.self && x.self in x.nodes && (Me(x).master ==> Me(x).slaveof == Me(v).slaveof && Me(v).master)
      && (Me(x).configEpoch == Me(v).configEpoch
          || (v.nodes[h.sender].master && h.sender > v.self && h.configEpoch == Me(v).configEpoch
              && Me(x).configEpoch == v.currentEpoch + 1))
  {
    hide WellFormed, UpdateSlots, ClaimsDiffer;
    KnownNames(v, h.sender);
    ClaimKeepsRoles(v, h.sender, h.configEpoch, h.slots);
  }

  // ---------------------------------------------------------------- counting

  function Higher(names: set<Name>, i: Name): set<Name> {
    set j | j in names && j > i
  }

  /** The epochs ever held by nodes with a higher name than `i`. */
  function Above(held: map<Name, set<nat>>, i: Name): set<nat> {
    set j, x | j in held && j > i && x in held[j] :: x
  }

  /** Every epoch a node left behind was held by a higher-named node. */
  predicate Charged(held: map<Name, set<nat>>, own: map<Name, nat>) {
    own.Keys == held.Keys && forall i :: i in held ==> held[i] - {own[i]} <= Above(held, i)
  }

  lemma {:induction false} LeastOf(s: set<Name>) returns (m: Name)
    requires s != {}
    ensures m in s && forall x :: x in s ==> m <= x
  {
    m :| m in s;
    var rest := s - {m};
    assert forall x :: x in s ==> x == m || x in rest;
    if rest != {} {
      var r := LeastOf(rest);
      if r < m { m := r; }
    }
  }

  lemma {:induction false} UnionSize(a: set<nat>, b: set<nat>, c: set<nat>)
    requires c <= a + b
    ensures |c| <= |a| + |b|
  {
    Subset(c, a + b);
    assert a + b == a + (b - a);
    assert |a + (b - a)| == |a| + |b - a|;
    Subset(b - a, b);
  }

  lemma {:induction false} Subset(a: set<nat>, b: set<nat>)
    requires a <= b
    ensures |a| <= |b|
  {
    if a != {} {
      var x :| x in a;
      Subset(a - {x}, b - {x});
    }
  }

  /** With `k` higher-named peers, at most 2^k epochs were held, and at most 2^k - 1 above. */
  lemma {:induction false} HeldBound(held: map<Name, set<nat>>, own: map<Name, nat>, i: Name)
    requires Charged(held, own) && i in held
    ensures |Above(held, i)| <= Words.Pow2(|Higher(held.Keys, i)|) - 1
    ensures |held[i]| <= Words.Pow2(|Higher(held.Keys, i)|)
    decreases |Higher(held.Keys, i)|
  {
    var up := Higher(held.Keys, i);
    if up == {} {
      forall j | j in held ensures j <= i {
        assert j > i ==> j in up;
      }
      assert Above(held, i) == {};
    } else {
      var m := LeastOf(up);
      assert Higher(held.Keys, m) == up - {m};
      HeldBound(held, own, m);
      forall x | x in Above(held, i) ensures x in held[m] + Above(held, m) {
        var j :| j in held && j > i && x in held[j];
        assert j in up;
      }
      UnionSize(held[m], Above(held, m), Above(held, i));
      assert |up| == |up - {m}| + 1;
    }
    UnionSize({own[i]}, Above(held, i), held[i]);
  }

  // ---------------------------------------------------------------- runs

  /** A ping announcing a master carries an epoch its sender has held. */
  predicate Announces(m: Message, held: map<Name, set<nat>>) {
    m.body.PingBody? && m.h.slaveof.None? ==> m.h.sender in held && m.h.configEpoch in held[m.h.sender]
  }

  predicate NodeHolds(s: System, held: map<Name, set<nat>>, i: Name)
    requires i in s.nodes && i in held
  {
    && MasterIsNobodysReplica(s.nodes[i]) && s.nodes[i].self == i
    && Own(s, i) in held[i]
    && (forall x :: x in held[i] ==> x <= Own(s, i))
    && held[i] - {Own(s, i)} <= Above(held, i)
  }

  /** `held` says which epochs each node has held since the start. */
  predicate Holds(s: System, held: map<Name, set<nat>>) {
    && held.Keys == s.nodes.Keys
    && (forall i {:trigger NodeHolds(s, held, i)} :: i in s.nodes ==> NodeHolds(s, held, i))
    && (forall m {:trigger Announces(m, held)} :: m in s.net ==> Announces(m, held))
  }

  /** Node `i` has now held its present epoch, too. */
  function Noted(s: System, held: map<Name, set<nat>>, i: Name): map<Name, set<nat>>
    requires i in held && i in s.nodes && i in s.nodes[i].nodes
  {
    held[i := held[i] + {Own(s, i)}]
  }

  lemma AboveGrows(held: map<Name, set<nat>>, more: map<Name, set<nat>>, i: Name)
    requires held.Keys == more.Keys && forall j :: j in held ==> held[j] <= more[j]
    ensures Above(held, i) <= Above(more, i)
  {
  }

  /** Only node `i` may have moved, and it moved past every epoch it held, away from an epoch a
      higher-named node held. */
  lemma NodeMovesHolds(s: System, t: System, held: map<Name, set<nat>>, i: Name)
    requires Holds(s, held) && i in s.nodes && t.nodes.Keys == s.nodes.Keys
    requires forall j :: j in s.nodes && j != i ==> t.nodes[j] == s.nodes[j]
    requires MasterIsNobodysReplica(t.nodes[i]) && t.nodes[i].self == i && i in s.nodes[i].nodes
    requires Own(t, i) == Own(s, i) || (Own(t, i) > Own(s, i) && Own(s, i) in Above(held, i))
    requires forall m :: m in t.net ==> m in s.net
    ensures Holds(t, Noted(t, held, i))
    ensures |Noted(t, held, i)[i]| == |held[i]| + if Own(t, i) == Own(s, i) then 0 else 1
  {
    var more := Noted(t, held, i);
    assert NodeHolds(s, held, i);
    if Own(t, i) == Own(s, i) {
      assert held[i] + {Own(t, i)} == held[i];
    }
    forall j | j in t.nodes ensures NodeHolds(t, more, j) {
      hide Above;
      assert NodeHolds(s, held, j);
      AboveGrows(held, more, j);
    }
    forall m | m in t.net ensures Announces(m, more) {
      assert Announces(m, held);
    }
  }

  // ---------------------------------------------------------------- other steps

  lemma FailoverKeepsMaster(v: View, c: Clock)
    requires WellFormed(v) && MasterIsNobodysReplica(v)
    ensures MasterIsNobodysReplica(HandleFailover(v, c))
  {
    hide Shape, RebindAll, FailoverBranch;
  }

  lemma VotesKeepMaster(v: View, e: Event)
    requires WellFormed(v) && Enabled(v, e) && (e.VoteRequest? || e.VoteAck?) && MasterIsNobodysReplica(v)
    ensures MasterIsNobodysReplica(Apply(v, e))
  {
    hide Shape, Grants, AckCounts;
  }

  lemma RestKeepsMaster(v: View, e: Event)
    requires WellFormed(v) && Enabled(v, e) && !e.Ping? && !e.Update? && MasterIsNobodysReplica(v)
    ensures MasterIsNobodysReplica(Apply(v, e))
  {
    hide Shape, HandleFailover, ReceiveRequest, ReceiveAck, Rebind, AddSlot, DelSlot, DelAll, Serving, MaxEpoch;
    match e
    case Tick(c) => FailoverKeepsMaster(v, c);
    case VoteRequest(_, _, _, _) => VotesKeepMaster(v, e);
    case VoteAck(_) => VotesKeepMaster(v, e);
    case _ =>
  }

  lemma UpdateKeepsMaster(v: View, h: Header, n: Name, epoch: nat, claimed: Bitmap)
    requires Sound(v) && WellFormed(v) && h.sender in v.nodes && |claimed| == SlotCount(v) && MasterIsNobodysReplica(v)
    ensures MasterIsNobodysReplica(ReceiveUpdate(v, h, n, epoch, claimed))
  {
    hide WellFormed, Sound, UpdateSlots;
    SoundIsWellFormed(v);
    EpochsSound(v, h);
    var w := ReceiveEpochs(v, h);
    SoundIsWellFormed(w);
    if n in w.nodes && w.nodes[n].configEpoch < epoch {
      ReportKeepsShape(w, n, epoch);
      var u := SetNode(w, n, Reported(w.nodes[n], epoch));
      if n == u.self { assert UpdateSlots(u, n, epoch, claimed) == u by { ClaimOfSelf(u, epoch, claimed); } }
      else { ClaimKeepsRoles(u, n, epoch, claimed); }
    }
  }

  lemma ClaimOfSelf(v: View, epoch: nat, claimed: Bitmap)
    requires WellFormed(v) && v.self in v.nodes && |claimed| == SlotCount(v)
    ensures UpdateSlots(v, v.self, epoch, claimed) == v
  {
  }

  lemma EventKeepsMaster(v: View, e: Event)
    requires Sound(v) && WellFormed(v) && Enabled(v, e) && !e.Ping? && MasterIsNobodysReplica(v)
    ensures MasterIsNobodysReplica(Apply(v, e))
  {
    hide WellFormed, Sound, MasterIsNobodysReplica, ReceiveUpdate;
    if e.Update? {
      if Heard(v, e.h) { UpdateKeepsMaster(v, e.h, e.about, e.epoch, e.claimed); }
    } else {
      RestKeepsMaster(v, e);
    }
  }

  /** In a step that delivers no ping, every node keeps the rule that a master replicates nobody. */
  lemma StepKeepsMasters(s: System, size: nat, st: Step, i: Name)
    requires SystemOk(s, size) && StepEnabled(s, st) && !(st.Deliver? && st.m.body.PingBody?) && i in s.nodes
    requires MasterIsNobodysReplica(s.nodes[i])
    ensures var t := Next(s, size, st); i in t.nodes && MasterIsNobodysReplica(t.nodes[i])
  {
    hide SystemOk, WellFormed, Sound, Apply, MasterIsNobodysReplica, HandleFailover, FailoverBranch, BuildHeader,
         Enabled, Requests, Counts, ReceiveRequest;
    NodeIsSound(s, size, i);
    match st
    case Deliver(m, now, timeout) =>
      DeliveryEnabled(s, size, m, now, timeout);
      if i == m.to { EventKeepsMaster(s.nodes[i], EventOf(m, now, timeout)); }
    case Timer(n, c) =>
      if i == n {
        assert Enabled(s.nodes[i], Tick(c)) by { TickEnabled(s.nodes[i], c); }
        EventKeepsMaster(s.nodes[i], Tick(c));
        assert Apply(s.nodes[i], Tick(c)) == HandleFailover(s.nodes[i], c) by { TickIs(s.nodes[i], c); }
      }
    case Admin(n, e) => if i == n { EventKeepsMaster(s.nodes[i], e); }
    case _ =>
  }

  lemma TickEnabled(v: View, c: Clock)
    ensures Enabled(v, Tick(c))
  {
  }

  lemma TickIs(v: View, c: Clock)
    requires WellFormed(v) && Enabled(v, Tick(c))
    ensures Apply(v, Tick(c)) == HandleFailover(v, c)
  {
  }

  /** Only a send adds a ping to the network, and it carries the sender's epoch when the sender is a master. */
  lemma NewPings(s: System, size: nat, st: Step, held: map<Name, set<nat>>, m: Message)
    requires SystemOk(s, size) && Holds(s, held) && StepEnabled(s, st) && m in Next(s, size, st).net
    ensures Announces(m, held)
  {
    hide SystemOk, Sound, Apply, HandleFailover, FailoverBranch, Enabled, Counts, ReceiveRequest,
         MasterIsNobodysReplica;
    if m in s.net {
      assert Announces(m, held);
    } else if st.SendPing? {
      NodeIsSound(s, size, st.from);
      assert NodeHolds(s, held, st.from);
      MasterAnnounces(s, size, st.from, held);
    }
  }

  lemma MasterAnnounces(s: System, size: nat, i: Name, held: map<Name, set<nat>>)
    requires SystemOk(s, size) && i in s.nodes && i in held && NodeHolds(s, held, i) && WellFormed(s.nodes[i])
    ensures var h := BuildHeader(s.nodes[i]); h.sender == i && (h.slaveof.None? ==> h.configEpoch in held[i])
  {
    hide SystemOk, Shape;
  }

  /** A step that changes no own epoch. */
  lemma OtherHolds(s: System, size: nat, held: map<Name, set<nat>>, st: Step)
    requires SystemOk(s, size) && Holds(s, held) && StepEnabled(s, st) && !(st.Deliver? && st.m.body.PingBody?)
    requires SystemOk(Next(s, size, st), size) && OwnEpochs(Next(s, size, st), size) == OwnEpochs(s, size)
    ensures Holds(Next(s, size, st), held)
  {
    hide SystemOk, Next, StepEnabled, Above, Announces, MasterIsNobodysReplica;
    var t := Next(s, size, st);
    assert t.nodes.Keys == OwnEpochs(t, size).Keys && s.nodes.Keys == OwnEpochs(s, size).Keys;
    forall j | j in t.nodes ensures NodeHolds(t, held, j) {
      assert NodeHolds(s, held, j);
      OwnIsKnown(t, size, j);
      OwnIsKnown(s, size, j);
      assert OwnEpochs(t, size)[j] == OwnEpochs(s, size)[j];
      StepKeepsMasters(s, size, st, j);
      NodeIsSound(t, size, j);
    }
    forall m | m in t.net ensures Announces(m, held) {
      NewPings(s, size, st, held, m);
    }
  }

  lemma DeliverHolds(s: System, size: nat, held: map<Name, set<nat>>, m: Message, now: int, timeout: nat)
    requires SystemOk(s, size) && BoundedSystem(s) && Holds(s, held)
    requires m in s.net && m.to in s.nodes && m.body.PingBody?
    ensures var t, i := Receive(s, size, m, now, timeout), m.to;
      && i in t.nodes && i in t.nodes[i].nodes && i in s.nodes[i].nodes
      && Holds(t, Noted(t, held, i))
      && |Noted(t, held, i)[i]| == |held[i]| + if Own(t, i) == Own(s, i) then 0 else 1
  {
    hide SystemOk, Sound, WellFormed, ReceivePing, Bounded, BoundedSystem;
    var t, i, v := Receive(s, size, m, now, timeout), m.to, s.nodes[m.to];
    DeliveryEnabled(s, size, m, now, timeout);
    SoundIsWellFormed(v);
    assert NodeHolds(s, held, i);
    if Heard(v, m.h) {
      HasBound(s, i);
      IsHonest(s, m);
      PingMoves(v, m.h);
      assert Announces(m, held);
    }
    NodeMovesHolds(s, t, held, i);
  }

  /** How often node `i` gives itself a new epoch in a run. */
  ghost function Bumps(s: System, size: nat, sts: seq<Step>, i: Name): nat
    requires SystemOk(s, size) && Steps(s, size, sts) && i in s.nodes
    decreases |sts|
  {
    if sts == [] then 0
    else
      StepOk(s, size, sts[0]);
      var t := Next(s, size, sts[0]);
      NextKeepsNodes(s, size, sts[0]);
      OwnIsKnown(s, size, i);
      OwnIsKnown(t, size, i);
      (if Own(t, i) == Own(s, i) then 0 else 1) + Bumps(t, size, sts[1..], i)
  }

  lemma NextKeepsNodes(s: System, size: nat, st: Step)
    requires SystemOk(s, size) && StepEnabled(s, st)
    ensures Next(s, size, st).nodes.Keys == s.nodes.Keys
  {
    hide SystemOk, WellFormed, Sound, Apply, HandleFailover, FailoverBranch, BuildHeader, Requests, Enabled, Counts,
        ReceiveRequest;
  }

  /** One step: who holds what, and how much more. */
  lemma StepHolds(s: System, size: nat, held: map<Name, set<nat>>, st: Step, i: Name)
      returns (more: map<Name, set<nat>>)
    requires SystemOk(s, size) && BoundedSystem(s) && Holds(s, held) && StepEnabled(s, st) && RepairsOnly(s, size, st)
    requires i in s.nodes
    ensures var t := Next(s, size, st);
      && i in t.nodes && i in t.nodes[i].nodes && i in s.nodes[i].nodes && i in held && i in more
      && Holds(t, more)
      && |more[i]| == |held[i]| + if Own(t, i) == Own(s, i) then 0 else 1
  {
    hide SystemOk, WellFormed, Sound, Receive, BoundedSystem, NodeHolds, Announces, BuildHeader;
    OwnIsKnown(s, size, i);
    StepOk(s, size, st);
    more := held;
    if st.Deliver? && st.m.body.PingBody? {
      DeliverHolds(s, size, held, st.m, st.now, st.timeout);
      var t := Receive(s, size, st.m, st.now, st.timeout);
      more := Noted(t, held, st.m.to);
      if i != st.m.to {
        OthersStay(s, size, st.m, st.now, st.timeout, i);
      }
    } else {
      OtherHolds(s, size, held, st);
      SameOwn(s, Next(s, size, st), size, i);
    }
  }

  lemma SameOwn(s: System, t: System, size: nat, i: Name)
    requires SystemOk(s, size) && SystemOk(t, size) && OwnEpochs(t, size) == OwnEpochs(s, size) && i in s.nodes
    ensures i in t.nodes && i in t.nodes[i].nodes && i in s.nodes[i].nodes && Own(t, i) == Own(s, i)
  {
    hide SystemOk;
    assert i in OwnEpochs(s, size);
    OwnIsKnown(s, size, i);
    OwnIsKnown(t, size, i);
    assert OwnEpochs(t, size)[i] == OwnEpochs(s, size)[i];
  }

  lemma OthersStay(s: System, size: nat, m: Message, now: int, timeout: nat, i: Name)
    requires SystemOk(s, size) && m in s.net && m.to in s.nodes && i in s.nodes && i != m.to
    ensures i in Receive(s, size, m, now, timeout).nodes && Receive(s, size, m, now, timeout).nodes[i] == s.nodes[i]
  {
    hide SystemOk, WellFormed, Sound, Apply, BuildHeader, Enabled, Counts, ReceiveRequest;
  }

  ghost predicate RepairsOnlyAll(s: System, size: nat, sts: seq<Step>)
    requires SystemOk(s, size) && Steps(s, size, sts)
    decreases |sts|
  {
    sts == [] || (RepairsOnly(s, size, sts[0])
                  && (StepOk(s, size, sts[0]); RepairsOnlyAll(Next(s, size, sts[0]), size, sts[1..])))
  }

  lemma {:induction false} RunHolds(s: System, size: nat, held: map<Name, set<nat>>, sts: seq<Step>, i: Name)
    requires SystemOk(s, size) && BoundedSystem(s) && Holds(s, held) && Steps(s, size, sts) && i in s.nodes && i in held
    requires RepairsOnlyAll(s, size, sts)
    ensures |held[i]| + Bumps(s, size, sts, i) <= Words.Pow2(|Higher(s.nodes.Keys, i)|)
    decreases |sts|
  {
    hide SystemOk, Next, StepEnabled, BoundedSystem, NodeHolds, Announces, RepairsOnly;
    if sts == [] {
      HoldsIsCharged(s, size, held);
      HeldBound(held, OwnEpochs(s, size), i);
    } else {
      StepOk(s, size, sts[0]);
      StepBounded(s, size, sts[0]);
      NextKeepsNodes(s, size, sts[0]);
      var more := StepHolds(s, size, held, sts[0], i);
      RunHolds(Next(s, size, sts[0]), size, more, sts[1..], i);
    }
  }

  lemma HoldsIsCharged(s: System, size: nat, held: map<Name, set<nat>>)
    requires SystemOk(s, size) && Holds(s, held)
    ensures Charged(held, OwnEpochs(s, size))
  {
    hide SystemOk;
    forall i | i in held ensures held[i] - {OwnEpochs(s, size)[i]} <= Above(held, i) {
      assert NodeHolds(s, held, i);
    }
  }

  // ---------------------------------------------------------------- which steps change no own epoch

  /** Everything but a ping, a report about this node itself, a promotion, and the end of an import. */
  ghost predicate Ordinary(v: View, e: Event)
    requires WellFormed(v) && Enabled(v, e)
  {
    match e
    case Ping(_) => false
    case Update(_, about, _, _) => about != v.self
    case Tick(c) => FailoverBranch(v, c) != Promote
    case AssignSlot(j, n, _) => !(n == v.self && v.importing[j].Some?)
    case _ => true
  }

  lemma UpdateKeepsOwn(v: View, h: Header, n: Name, epoch: nat, claimed: Bitmap)
    requires Sound(v) && WellFormed(v) && h.sender in v.nodes && h.sender != v.self && |claimed| == SlotCount(v)
    requires n != v.self
    ensures var w := ReceiveUpdate(v, h, n, epoch, claimed);
      w.self == v.self && w.self in w.nodes && Me(w).configEpoch == Me(v).configEpoch
  {
    hide WellFormed, Sound, UpdateSlots;
    SoundIsWellFormed(v);
    EpochsSound(v, h);
    var w := ReceiveEpochs(v, h);
    SoundIsWellFormed(w);
    if n in w.nodes && w.nodes[n].configEpoch < epoch {
      ReportKeepsShape(w, n, epoch);
      ClaimKeepsRoles(SetNode(w, n, Reported(w.nodes[n], epoch)), n, epoch, claimed);
    }
  }

  lemma OrdinaryKeepsOwn(v: View, e: Event)
    requires Sound(v) && WellFormed(v) && Enabled(v, e) && Ordinary(v, e)
    ensures var w := Apply(v, e); w.self == v.self && w.self in w.nodes && Me(w).configEpoch == Me(v).configEpoch
  {
    hide Sound, Shape, ReceiveUpdate, ClaimIsCurrent, RebindAll, Rebind, AddSlot, DelSlot, DelAll, Serving, MaxEpoch,
         AckCounts, FailoverBranch;
    if e.Update? && Heard(v, e.h) {
      UpdateKeepsOwn(v, e.h, e.about, e.epoch, e.claimed);
    }
  }

  /** A step made of sends, losses and ordinary events at the nodes. */
  ghost predicate OrdinaryStep(s: System, size: nat, st: Step)
    requires SystemOk(s, size) && StepEnabled(s, st)
  {
    match st
    case Deliver(m, now, timeout) =>
      DeliveryEnabled(s, size, m, now, timeout);
      m.body.PingBody? || Ordinary(s.nodes[m.to], EventOf(m, now, timeout))
    case Timer(n, c) => NodeIsSound(s, size, n); Ordinary(s.nodes[n], Tick(c))
    case Admin(n, e) => NodeIsSound(s, size, n); Ordinary(s.nodes[n], e)
    case _ => true
  }

  lemma OrdinaryStepAt(s: System, size: nat, st: Step, i: Name)
    requires SystemOk(s, size) && StepEnabled(s, st) && OrdinaryStep(s, size, st) && i in s.nodes
    requires !(st.Deliver? && st.m.body.PingBody?)
    ensures var t := Next(s, size, st);
      && i in t.nodes && i in s.nodes[i].nodes && i in t.nodes[i].nodes
      && t.nodes[i].nodes[i].configEpoch == s.nodes[i].nodes[i].configEpoch
  {
    hide SystemOk, WellFormed, Sound, Apply, HandleFailover, FailoverBranch, BuildHeader, Enabled, Ordinary,
         Requests, Counts, ReceiveRequest;
    NodeIsSound(s, size, i);
    OwnIsKnown(s, size, i);
    match st
    case Deliver(m, now, timeout) =>
      DeliveryEnabled(s, size, m, now, timeout);
      if i == m.to { OrdinaryKeepsOwn(s.nodes[i], EventOf(m, now, timeout)); }
    case Timer(n, c) =>
      if i == n {
        TickEnabled(s.nodes[i], c);
        OrdinaryKeepsOwn(s.nodes[i], Tick(c));
        TickIs(s.nodes[i], c);
      }
    case Admin(n, e) => if i == n { OrdinaryKeepsOwn(s.nodes[i], e); }
    case _ =>
  }

  /** Votes, UPDATEs about other nodes, learned and forgotten nodes, and slot commands that end no import are
      among the steps of `RepairIsBounded`. */
  lemma OrdinaryStepsRepairOnly(s: System, size: nat, st: Step)
    requires SystemOk(s, size) && StepEnabled(s, st) && OrdinaryStep(s, size, st)
    ensures RepairsOnly(s, size, st)
  {
    hide SystemOk, Next, OrdinaryStep, StepEnabled;
    if !(st.Deliver? && st.m.body.PingBody?) {
      StepOk(s, size, st);
      var t := Next(s, size, st);
      NextKeepsNodes(s, size, st);
      forall i | i in s.nodes ensures OwnEpochs(t, size)[i] == OwnEpochs(s, size)[i] {
        OrdinaryStepAt(s, size, st, i);
      }
      assert OwnEpochs(t, size) == OwnEpochs(s, size);
    }
  }

  /** A start in which every announcement in flight is up to date. */
  predicate Settled(s: System) {
    && (forall i :: i in s.nodes ==> MasterIsNobodysReplica(s.nodes[i]) && s.nodes[i].self == i)
    && (forall m :: m in s.net && m.body.PingBody? && m.h.slaveof.None? ==>
          m.h.sender in s.nodes && m.h.configEpoch == Own(s, m.h.sender))
  }

  /** Collision repair terminates: a node with `k` higher-named peers bumps at most 2^k - 1 times in any
      run whose other steps change no own epoch; in particular the highest name never moves. */
  lemma RepairIsBounded(s: System, size: nat, sts: seq<Step>, i: Name)
    requires SystemOk(s, size) && BoundedSystem(s) && Settled(s) && Steps(s, size, sts) && i in s.nodes
    requires RepairsOnlyAll(s, size, sts)
    ensures Bumps(s, size, sts, i) <= Words.Pow2(|Higher(s.nodes.Keys, i)|) - 1
    ensures (forall j :: j in s.nodes ==> j <= i) ==> Bumps(s, size, sts, i) == 0
  {
    hide SystemOk, BoundedSystem, Steps, Bumps, RepairsOnlyAll;
    var held := map j | j in s.nodes :: {Own(s, j)};
    forall j | j in s.nodes ensures NodeHolds(s, held, j) {
    }
    forall m | m in s.net ensures Announces(m, held) {
    }
    RunHolds(s, size, held, sts, i);
    if forall j :: j in s.nodes ==> j <= i {
      assert Higher(s.nodes.Keys, i) == {};
    }
  }

  // ---------------------------------------------------------------- when there is nothing to repair

  /** `v` is a master, `h` another master's ping, and `v` has heard no later epoch of its sender. */
  predicate UpToDate(v: View, h: Header)
    requires v.self in v.nodes
  {
    && Me(v).master && h.slaveof.None? && h.sender in v.nodes && h.sender != v.self
    && v.nodes[h.sender].configEpoch <= h.configEpoch
  }

  /** A claim under an epoch not above its own takes nothing from a master, which stays one. */
  lemma EqualClaimKeepsNodes(v: View, n: Name, epoch: nat, claimed: Bitmap)
    requires WellFormed(v) && n in v.nodes && |claimed| == SlotCount(v) && Me(v).master && epoch <= Me(v).configEpoch
    ensures UpdateSlots(v, n, epoch, claimed).nodes == v.nodes
  {
    hide Shape, RebindAll;
    if n != v.self {
      var mask := TakenMask(v, n, epoch, claimed);
      assert !Loses(v, mask);
    }
  }

  /** Such a ping makes a master move exactly when it comes from a higher name with the same epoch. */
  lemma RepairsIffEqual(v: View, h: Header)
    requires Sound(v) && WellFormed(v) && Bounded(v) && HonestHeader(h) && UpToDate(v, h) && |h.slots| == SlotCount(v)
    ensures var w := ReceivePing(v, h);
      && w.self == v.self && w.self in w.nodes
      && (Me(w).configEpoch != Me(v).configEpoch <==> h.configEpoch == Me(v).configEpoch && h.sender > v.self)
  {
    hide Sound, Bounded, HonestHeader, WellFormed, ReceivePing;
    SoundIsWellFormed(v);
    PingMoves(v, h);
    if h.configEpoch == Me(v).configEpoch && h.sender > v.self {
      EqualPingMoves(v, h);
    }
  }

  lemma EqualPingMoves(v: View, h: Header)
    requires Sound(v) && WellFormed(v) && Bounded(v) && HonestHeader(h) && UpToDate(v, h) && |h.slots| == SlotCount(v)
    requires h.configEpoch == Me(v).configEpoch && h.sender > v.self
    ensures var w := ReceivePing(v, h);
      w.self == v.self && w.self in w.nodes && Me(w).configEpoch != Me(v).configEpoch
  {
    hide Sound, Bounded, HonestHeader, Shape, WellFormed, UpdateSlots, ClaimsDiffer;
    KnownNames(v, h.sender);
    EpochsAdvance(v, h);
    BoundsOwn(ReceiveEpochs(v, h));
    EpochsKeepShape(v, h);
    RoleKeepsShape(ReceiveEpochs(v, h), h);
    var w := ReceiveRole(ReceiveEpochs(v, h), h);
    assert w.nodes[h.sender].configEpoch == h.configEpoch && w.nodes[h.sender].master;
    EqualClaimKeepsNodes(w, h.sender, h.configEpoch, h.slots);
    ClaimKeepsEpochs(w, h.sender, h.configEpoch, h.slots);
    ClaimKeepsShape(w, h);
  }

  predicate IsMaster(s: System, i: Name) {
    i in s.nodes && i in s.nodes[i].nodes && s.nodes[i].nodes[i].master
  }

  /** Masters replicate nobody; each knows all the others, and no later epoch of them than their own. */
  ghost predicate Acquainted(s: System) {
    forall i, j :: IsMaster(s, i) && IsMaster(s, j) && i != j ==>
      && s.nodes[j].nodes[j].slaveof.None?
      && j in s.nodes[i].nodes && s.nodes[i].nodes[j].configEpoch <= Own(s, j)
  }

  /** A fresh ping of master `j` does not change master `i`'s epoch. */
  ghost predicate Undisturbed(s: System, size: nat, i: Name, j: Name)
    requires SystemOk(s, size) && Acquainted(s) && IsMaster(s, i) && IsMaster(s, j) && i != j
  {
    FreshPing(s, size, i, j);
    var w := ReceivePing(s.nodes[i], BuildHeader(s.nodes[j]));
    i in w.nodes && w.nodes[i].configEpoch == Own(s, i)
  }

  lemma FreshPing(s: System, size: nat, i: Name, j: Name)
    requires SystemOk(s, size) && Acquainted(s) && IsMaster(s, i) && IsMaster(s, j) && i != j
    ensures var v, w := s.nodes[i], s.nodes[j];
      && Sound(v) && WellFormed(v) && WellFormed(w) && v.self == i && w.self == j
      && var h := BuildHeader(w);
         && h.sender == j && h.configEpoch == Own(s, j) && |h.slots| == SlotCount(v) && UpToDate(v, h)
  {
    hide SystemOk, Sound, Shape;
    NodeIsSound(s, size, i);
    NodeIsSound(s, size, j);
    HeaderSize(s.nodes[j]);
  }

  lemma UndisturbedIff(s: System, size: nat, i: Name, j: Name)
    requires SystemOk(s, size) && BoundedSystem(s) && Acquainted(s) && IsMaster(s, i) && IsMaster(s, j) && i != j
    ensures Undisturbed(s, size, i, j) <==> !(Own(s, i) == Own(s, j) && i < j)
  {
    hide SystemOk, Sound, ReceivePing, BoundedSystem, WellFormed, BuildHeader;
    FreshPing(s, size, i, j);
    HasBound(s, i);
    HasBound(s, j);
    HeaderHonest(s.nodes[j]);
    RepairsIffEqual(s.nodes[i], BuildHeader(s.nodes[j]));
  }

  /** No fresh ping between masters moves an epoch exactly when the masters' epochs are pairwise distinct. */
  lemma QuietIffDistinct(s: System, size: nat)
    requires SystemOk(s, size) && BoundedSystem(s) && Acquainted(s)
    ensures (forall i, j :: IsMaster(s, i) && IsMaster(s, j) && i != j ==> Undisturbed(s, size, i, j))
            <==> (forall i, j :: IsMaster(s, i) && IsMaster(s, j) && i != j ==> Own(s, i) != Own(s, j))
  {
    hide SystemOk, BoundedSystem, Acquainted, Undisturbed;
    forall i, j | IsMaster(s, i) && IsMaster(s, j) && i != j
      ensures Undisturbed(s, size, i, j) <==> !(Own(s, i) == Own(s, j) && i < j)
    {
      UndisturbedIff(s, size, i, j);
    }
    if forall i, j :: IsMaster(s, i) && IsMaster(s, j) && i != j ==> Undisturbed(s, size, i, j) {
      forall i, j | IsMaster(s, i) && IsMaster(s, j) && i != j ensures Own(s, i) != Own(s, j) {
        assert Undisturbed(s, size, i, j) && Undisturbed(s, size, j, i);
      }
    }
  }
}
