/** Whether a replica can own slots.

    `clusterSetMaster` asserts that this node has no slots.  CLUSTER ADDSLOTS and CLUSTER SETSLOT NODE
    do not refuse a replica, so the assertion can fail and stop the server.  It never fails as
    long as no such command hands a replica a slot, and only then. */
module ReplicaSlots {
  import opened Options
  import opened Slots
  import opened Cluster
  import opened NodeRuns

  /** A replica owns no slot. */
  predicate Slotless(v: View)
    requires v.self in v.nodes
  {
    Me(v).master || OwnsNone(v)
  }

  predicate OwnsNone(v: View) {
    forall j :: 0 <= j < SlotCount(v) ==> v.table.owner[j] != Some(v.self)
  }

  /** A command that is accepted and makes this node, a replica, the owner of a slot. */
  predicate HandsToReplica(v: View, e: Event)
    requires WellFormed(v) && Enabled(v, e)
  {
    && !Me(v).master
    && match e
       case AddSlots(j) => v.table.owner[j].None?
       case AssignSlot(_, n, _) => n == v.self
       case _ => false
  }

  /** The event stops the server at the assertion in `clusterSetMaster`. */
  predicate Stops(v: View, e: Event)
    requires WellFormed(v) && Enabled(v, e)
  {
    match e
    case Ping(h) => Heard(v, h) && PingStops(v, h)
    case Update(h, n, epoch, claimed) => Heard(v, h) && UpdateStops(v, h, n, epoch, claimed)
    case Replicate(n, keys) => MayReplicate(v, n, keys) && SlotsOf(v, v.self).count != 0
    case _ => false
  }

  // ---------------------------------------------------------------- what keeps a replica without slots

  /** Nobody hands this node a slot, and it does not turn into a replica that has one. */
  predicate GainsNone(v: View, w: View) {
    && v.self in v.nodes && w.self == v.self && w.self in w.nodes && SlotCount(w) == SlotCount(v)
    && (forall j :: 0 <= j < SlotCount(v) && w.table.owner[j] == Some(v.self) ==> v.table.owner[j] == Some(v.self))
    && (Me(w).master || !Me(v).master || OwnsNone(w))
  }

  lemma GainsNoneKeeps(v: View, w: View)
    requires GainsNone(v, w) && Slotless(v)
    ensures w.self in w.nodes && Slotless(w)
  {
  }

  lemma EpochsGain(v: View, h: Header)
    requires WellFormed(v) && h.sender in v.nodes
    ensures GainsNone(v, ReceiveEpochs(v, h))
  {
    hide Shape;
  }

  lemma RoleGain(v: View, h: Header)
    requires Sound(v) && WellFormed(v) && h.sender in v.nodes && h.sender != v.self
    ensures GainsNone(v, ReceiveRole(v, h))
  {
    hide Shape, Agrees, DelNodeSlots, WellFormed;
    SoundIsWellFormed(v);
    KnownNames(v, h.sender);
    RoleKeepsShape(v, h);
    DelNodeSlotsAgrees(v.table, h.sender);
  }

  /** A claim by another node takes slots from this node only. */
  lemma TakeSlotsGain(v: View, n: Name, epoch: nat, claimed: Bitmap)
    requires Sound(v) && WellFormed(v) && n in v.nodes && n != v.self && |claimed| == SlotCount(v)
    ensures var w := TakeSlots(v, n, epoch, claimed);
      Sound(w) && WellFormed(w) && GainsNone(v, w) && w.nodes == v.nodes
  {
    hide Shape, Agrees, RebindAll, WellFormed, Taken;
    SoundIsWellFormed(v);
    KnownNames(v, n);
    var mask := TakenMask(v, n, epoch, claimed);
    RebindAllAgrees(v.table, n, mask, SlotCount(v));
    SetTableSound(v, RebindAll(v.table, n, mask, SlotCount(v)));
    SoundIsWellFormed(TakeSlots(v, n, epoch, claimed));
  }

  lemma CountsNone(v: View)
    requires Sound(v) && WellFormed(v)
    ensures v.self in v.table.sets && (SlotsOf(v, v.self).count == 0 <==> OwnsNone(v))
  {
    hide Agrees;
    SoundIsWellFormed(v);
    CountIsZero(v.table, v.self);
  }

  lemma ClaimGain(v: View, n: Name, epoch: nat, claimed: Bitmap)
    requires Sound(v) && WellFormed(v) && n in v.nodes && |claimed| == SlotCount(v)
    ensures GainsNone(v, UpdateSlots(v, n, epoch, claimed))
    ensures Slotless(v) ==> !ClaimStops(v, n, epoch, claimed)
  {
    hide Shape, Agrees, WellFormed, Sound, TakeSlots, Loses;
    SoundIsWellFormed(v);
    KnownNames(v, v.self);
    if n != v.self {
      TakeSlotsGain(v, n, epoch, claimed);
      var w := TakeSlots(v, n, epoch, claimed);
      CountsNone(w);
    }
  }

  /** The epochs and the role in a packet hand this node no slot. */
  lemma NotedGain(v: View, h: Header)
    requires Sound(v) && WellFormed(v) && h.sender in v.nodes && h.sender != v.self && Slotless(v)
    ensures WellFormed(ReceiveEpochs(v, h)) && h.sender in ReceiveEpochs(v, h).nodes
    ensures var w := ReceiveRole(ReceiveEpochs(v, h), h);
      && Sound(w) && WellFormed(w) && w.self == v.self && SlotCount(w) == SlotCount(v)
      && w.self in w.nodes && h.sender in w.nodes && Slotless(w)
  {
    hide WellFormed, Sound, ReceiveEpochs, ReceiveRole, Slotless, GainsNone;
    EpochsSound(v, h);
    EpochsGain(v, h);
    var e := ReceiveEpochs(v, h);
    SoundIsWellFormed(e);
    GainsNoneKeeps(v, e);
    RoleSound(e, h);
    RoleGain(e, h);
    SoundIsWellFormed(ReceiveRole(e, h));
    GainsNoneKeeps(e, ReceiveRole(e, h));
  }

  lemma ReceivedClaimGain(v: View, h: Header)
    requires Sound(v) && WellFormed(v) && h.sender in v.nodes && h.sender != v.self && |h.slots| == SlotCount(v)
    requires v.self in v.nodes && Slotless(v)
    ensures var w := ReceiveClaim(v, h); w.self in w.nodes && h.sender in w.nodes && Slotless(w)
    ensures !PingClaimStops(v, h)
  {
    hide WellFormed, Sound, UpdateSlots, ClaimStops, ClaimsDiffer, Slotless, GainsNone;
    ClaimGain(v, h.sender, h.configEpoch, h.slots);
    GainsNoneKeeps(v, UpdateSlots(v, h.sender, h.configEpoch, h.slots));
    ClaimKeepsShape(v, h);
  }

  lemma PingGain(v: View, h: Header)
    requires Sound(v) && WellFormed(v) && h.sender in v.nodes && h.sender != v.self && |h.slots| == SlotCount(v)
    requires Slotless(v)
    ensures var w := ReceivePing(v, h); w.self in w.nodes && Slotless(w)
    ensures !PingStops(v, h)
  {
    hide WellFormed, Sound, ReceiveEpochs, ReceiveRole, ReceiveClaim, PingClaimStops, ResolveCollision, Slotless;
    NotedGain(v, h);
    var w := ReceiveRole(ReceiveEpochs(v, h), h);
    ReceivedClaimGain(w, h);
    CollisionGain(ReceiveClaim(w, h), h);
  }

  lemma CollisionGain(v: View, h: Header)
    requires v.self in v.nodes && h.sender in v.nodes && Slotless(v)
    ensures var w := ResolveCollision(v, h); w.self in w.nodes && Slotless(w)
  {
  }

  lemma UpdateGain(v: View, h: Header, n: Name, epoch: nat, claimed: Bitmap)
    requires Sound(v) && WellFormed(v) && h.sender in v.nodes && |claimed| == SlotCount(v) && Slotless(v)
    ensures var w := ReceiveUpdate(v, h, n, epoch, claimed); w.self in w.nodes && Slotless(w)
    ensures !UpdateStops(v, h, n, epoch, claimed)
  {
    hide WellFormed, Sound, ReceiveEpochs, UpdateSlots, ClaimStops, Slotless, GainsNone, Reported;
    EpochsSound(v, h);
    EpochsGain(v, h);
    var w := ReceiveEpochs(v, h);
    SoundIsWellFormed(w);
    GainsNoneKeeps(v, w);
    if n in w.nodes && w.nodes[n].configEpoch < epoch {
      ReportedClaimGain(w, n, epoch, claimed);
    }
  }

  lemma ReportedClaimGain(v: View, n: Name, epoch: nat, claimed: Bitmap)
    requires Sound(v) && WellFormed(v) && n in v.nodes && |claimed| == SlotCount(v) && v.self in v.nodes && Slotless(v)
    ensures var u := SetNode(v, n, Reported(v.nodes[n], epoch));
      && WellFormed(u) && !ClaimStops(u, n, epoch, claimed)
      && var w := UpdateSlots(u, n, epoch, claimed); w.self in w.nodes && Slotless(w)
  {
    hide WellFormed, Sound, UpdateSlots, ClaimStops, Slotless, GainsNone, Reported;
    var u := SetNode(v, n, Reported(v.nodes[n], epoch));
    ReportGain(v, n, epoch);
    SoundIsWellFormed(u);
    GainsNoneKeeps(v, u);
    ClaimGain(u, n, epoch, claimed);
    GainsNoneKeeps(u, UpdateSlots(u, n, epoch, claimed));
  }

  lemma ReportGain(v: View, n: Name, epoch: nat)
    requires Sound(v) && WellFormed(v) && n in v.nodes
    ensures var u := SetNode(v, n, Reported(v.nodes[n], epoch));
      Sound(u) && SameFrame(v, u) && GainsNone(v, u)
  {
    hide Agrees, WellFormed;
    KnownNames(v, n);
    KnownNames(v, v.self);
    SetNodeSound(v, n, Reported(v.nodes[n], epoch));
  }

  lemma RequestGain(v: View, h: Header, force: bool, now: int, timeout: nat)
    requires WellFormed(v) && h.sender in v.nodes && |h.slots| == SlotCount(v)
    ensures GainsNone(v, ReceiveRequest(v, h, force, now, timeout).0)
  {
    hide Shape, ClaimIsCurrent;
  }

  lemma FailoverGain(v: View, c: Clock)
    requires WellFormed(v) && Slotless(v)
    ensures var w := HandleFailover(v, c); w.self in w.nodes && Slotless(w)
  {
    hide Shape, RebindAll;
  }

  lemma PacketKeepsSlotless(v: View, e: Event)
    requires Sound(v) && WellFormed(v) && Slotless(v) && Enabled(v, e) && FromOutside(e)
    ensures var w := Apply(v, e); w.self in w.nodes && Slotless(w)
    ensures !Stops(v, e)
  {
    hide WellFormed, Sound, Slotless, ReceivePing, PingStops, ReceiveUpdate, UpdateStops, ReceiveRequest,
         HandleFailover, ReceiveEpochs, AckCounts, GainsNone;
    SoundIsWellFormed(v);
    match e
    case Ping(h) => if Heard(v, h) { PingGain(v, h); }
    case Update(h, n, epoch, claimed) => if Heard(v, h) { UpdateGain(v, h, n, epoch, claimed); }
    case VoteRequest(h, force, now, timeout) =>
      if Heard(v, h) {
        RequestGain(v, h, force, now, timeout);
        GainsNoneKeeps(v, ReceiveRequest(v, h, force, now, timeout).0);
      }
    case VoteAck(h) =>
      if Heard(v, h) {
        AckGain(v, h);
        GainsNoneKeeps(v, ReceiveAck(v, h));
      }
    case Tick(c) => FailoverGain(v, c);
  }

  lemma AckGain(v: View, h: Header)
    requires WellFormed(v) && h.sender in v.nodes
    ensures GainsNone(v, ReceiveAck(v, h))
  {
    hide Shape, AckCounts;
  }

  /** SETSLOT NODE: slot `j` is the only one whose owner changes. */
  lemma AssignGives(v: View, j: nat, n: Name, keys: nat)
    requires Sound(v) && WellFormed(v) && j < SlotCount(v)
    ensures var w := SetSlotNode(v, j, n, keys);
      && w.self == v.self && w.self in w.nodes && Me(w).master == Me(v).master && SlotCount(w) == SlotCount(v)
      && w.table.owner == if n !in v.nodes || (v.table.owner[j] == Some(v.self) && n != v.self && keys != 0)
                          then v.table.owner else v.table.owner[j := Some(n)]
  {
    hide Agrees, Shape, Closed, WellFormed;
    SoundIsWellFormed(v);
    CloseSound(v, j, n, keys);
    if n in v.nodes {
      KnownNames(v, n);
      RebindAgrees(v.table, n, j);
    }
  }

  lemma AddSlotsGives(v: View, j: nat)
    requires Sound(v) && WellFormed(v) && j < SlotCount(v)
    ensures var w := AddSlotHere(v, j);
      && w.self == v.self && w.nodes == v.nodes && v.self in v.nodes && SlotCount(w) == SlotCount(v)
      && w.table.owner == if v.table.owner[j].Some? then v.table.owner else v.table.owner[j := Some(v.self)]
  {
    hide Agrees, Shape, AddSlot, WellFormed;
    SoundIsWellFormed(v);
    KnownNames(v, v.self);
    AddSlotAgrees(v.table, v.self, j);
  }

  lemma DelSlotsGain(v: View, j: nat)
    requires Sound(v) && WellFormed(v) && j < SlotCount(v)
    ensures GainsNone(v, DelSlotHere(v, j))
  {
    hide Agrees, Shape, DelSlot, WellFormed;
    SoundIsWellFormed(v);
    DelSlotAgrees(v.table, j);
  }

  lemma ForgetGain(v: View, n: Name)
    requires Sound(v) && WellFormed(v) && n in v.nodes && n != v.self
    ensures GainsNone(v, Forget(v, n))
  {
    hide Agrees, Shape, DelAll, WellFormed;
    SoundIsWellFormed(v);
    DelAllAgrees(v.table, OwnedBy(v.table, n), SlotCount(v));
  }

  lemma ReplicatedGain(v: View, n: Name, keys: nat)
    requires Sound(v) && WellFormed(v)
    ensures GainsNone(v, Replicated(v, n, keys))
  {
    hide Agrees, Shape, Sound;
    CountsNone(v);
  }

  /** Commands that neither give nor take slots. */
  lemma OtherCommandGain(v: View, e: Event)
    requires WellFormed(v) && Enabled(v, e) && !FromOutside(e)
    requires !e.AssignSlot? && !e.AddSlots? && !e.DelSlots? && !e.Replicate? && !e.ForgetNode?
    ensures GainsNone(v, Apply(v, e))
  {
    hide Shape, Serving;
  }

  /** A command keeps a replica without slots exactly when it does not hand it one. */
  lemma AdminKeepsSlotless(v: View, e: Event)
    requires Sound(v) && WellFormed(v) && Slotless(v) && Enabled(v, e) && !FromOutside(e)
    ensures var w := Apply(v, e); w.self in w.nodes && (Slotless(w) <==> !HandsToReplica(v, e))
    ensures !Stops(v, e)
  {
    hide Sound, WellFormed, SetSlotNode, AddSlotHere, DelSlotHere, Forget, Replicated, GainsNone, MayForget,
         SetSlotMigrating, SetSlotImporting, SetSlotStable, Learn, Serving;
    SoundIsWellFormed(v);
    var w := Apply(v, e);
    match e
    case AssignSlot(j, n, keys) =>
      AssignGives(v, j, n, keys);
      assert n == v.self ==> w.table.owner[j] == Some(v.self);
    case AddSlots(j) =>
      AddSlotsGives(v, j);
      assert v.table.owner[j].None? ==> w.table.owner[j] == Some(v.self);
    case DelSlots(j) => DelSlotsGain(v, j); GainsNoneKeeps(v, w);
    case Replicate(n, keys) => CountsNone(v); ReplicatedGain(v, n, keys); GainsNoneKeeps(v, w);
    case ForgetNode(n) =>
      if MayForget(v, n) {
        MayForgetOther(v, n);
        ForgetGain(v, n);
        GainsNoneKeeps(v, w);
      }
    case _ => OtherCommandGain(v, e); GainsNoneKeeps(v, w);
  }

  lemma MayForgetOther(v: View, n: Name)
    requires WellFormed(v) && MayForget(v, n)
    ensures n in v.nodes && n != v.self
  {
  }

  /** What keeps a replica without slots, for every event; and while it has none, nothing stops the server. */
  lemma SlotlessIff(v: View, e: Event)
    requires Sound(v) && WellFormed(v) && Slotless(v) && Enabled(v, e)
    ensures var w := Apply(v, e); w.self in w.nodes && (Slotless(w) <==> !HandsToReplica(v, e))
    ensures !Stops(v, e)
  {
    hide Sound, WellFormed, Slotless, Apply, Enabled, Stops;
    if FromOutside(e) { PacketKeepsSlotless(v, e); } else { AdminKeepsSlotless(v, e); }
  }

  // ---------------------------------------------------------------- runs

  /** No command of the run hands this node a slot while it is a replica. */
  ghost predicate HandsNone(v: View, es: seq<Event>)
    requires Sound(v) && Runs(v, es)
    decreases |es|
  {
    es == [] || (EventSound(v, es[0]); !HandsToReplica(v, es[0]) && HandsNone(Apply(v, es[0]), es[1..]))
  }

  /** No event of the run stops the server. */
  ghost predicate NeverStops(v: View, es: seq<Event>)
    requires Sound(v) && Runs(v, es)
    decreases |es|
  {
    es == [] || (EventSound(v, es[0]); !Stops(v, es[0]) && NeverStops(Apply(v, es[0]), es[1..]))
  }

  /** Over any run in which no command hands a replica a slot, the assertion in `clusterSetMaster` never
      fails, and a replica owns no slot. */
  lemma {:induction false} RunNeverStops(v: View, es: seq<Event>)
    requires Sound(v) && Runs(v, es) && v.self in v.nodes && Slotless(v) && HandsNone(v, es)
    ensures NeverStops(v, es)
    ensures var w := Final(v, es); w.self in w.nodes && Slotless(w)
    decreases |es|
  {
    hide Sound, Slotless, Apply, Enabled, Stops, HandsToReplica;
    if es != [] {
      EventSound(v, es[0]);
      SlotlessIff(v, es[0]);
      RunNeverStops(Apply(v, es[0]), es[1..]);
    }
  }

  lemma {:induction false} FreshName(ns: set<Name>) returns (n: Name)
    ensures forall m :: m in ns ==> m < n
  {
    n := 0;
    if ns != {} {
      var m :| m in ns;
      var rest := ns - {m};
      n := FreshName(rest);
      if n <= m { n := m + 1; }
      assert forall k :: k in ns ==> k == m || k in rest;
    }
  }

  /** A node just met is a master without a master of its own; nothing else changes. */
  lemma Meets(v: View, n: Name)
    requires WellFormed(v) && v.self in v.nodes && n !in v.nodes && !Slotless(v)
    ensures Enabled(v, LearnNode(n, true)) && !HandsToReplica(v, LearnNode(n, true))
    ensures var w := Apply(v, LearnNode(n, true));
      && w.self in w.nodes && !Me(w).master && !OwnsNone(w)
      && n in w.nodes && n != w.self && w.nodes[n].slaveof.None?
  {
    hide WellFormed, Empty;
  }

  lemma FollowStops(v: View, n: Name)
    requires WellFormed(v) && v.self in v.table.sets && !Me(v).master && SlotsOf(v, v.self).count != 0
    requires n in v.nodes && n != v.self && v.nodes[n].slaveof.None?
    ensures Enabled(v, Replicate(n, 0)) && Stops(v, Replicate(n, 0)) && !HandsToReplica(v, Replicate(n, 0))
  {
    hide WellFormed;
  }

  /** A run of one event that stops the server. */
  lemma StopsAtOnce(v: View, e: Event)
    requires Sound(v) && WellFormed(v) && Enabled(v, e) && Stops(v, e)
    ensures Runs(v, [e]) && !NeverStops(v, [e]) && (!HandsToReplica(v, e) ==> HandsNone(v, [e]))
  {
    hide Sound, WellFormed, Enabled, Apply, Stops, HandsToReplica;
    EventSound(v, e);
    assert [e][0] == e && [e][1..] == [];
    assert Runs(Apply(v, e), []) && HandsNone(Apply(v, e), []);
  }

  /** A run that starts with `e`. */
  lemma StopsLater(v: View, e: Event, es: seq<Event>)
    requires Sound(v) && WellFormed(v) && Enabled(v, e) && Sound(Apply(v, e)) && Runs(Apply(v, e), es)
    requires !NeverStops(Apply(v, e), es)
    ensures Runs(v, [e] + es) && !NeverStops(v, [e] + es)
    ensures !HandsToReplica(v, e) && HandsNone(Apply(v, e), es) ==> HandsNone(v, [e] + es)
  {
    hide Sound, WellFormed, Enabled, Apply, Stops, HandsToReplica;
    assert ([e] + es)[0] == e && ([e] + es)[1..] == es;
  }

  /** A replica that owns a slot is stopped by CLUSTER REPLICATE of a master it has just met. */
  lemma ReplicateStops(v: View) returns (es: seq<Event>)
    requires Sound(v) && v.self in v.nodes && !Slotless(v)
    ensures Runs(v, es) && HandsNone(v, es) && !NeverStops(v, es)
  {
    hide WellFormed, Sound, Apply, Stops, Runs, HandsNone, NeverStops, Slotless, OwnsNone, Enabled, HandsToReplica;
    SoundIsWellFormed(v);
    var n := FreshName(v.nodes.Keys);
    var meet, follow := LearnNode(n, true), Replicate(n, 0);
    Meets(v, n);
    EventSound(v, meet);
    var w := Apply(v, meet);
    SoundIsWellFormed(w);
    CountsNone(w);
    FollowStops(w, n);
    StopsAtOnce(w, follow);
    StopsLater(v, meet, [follow]);
    es := [meet] + [follow];
  }

  /** When a slot command is safe: no later event stops the server, as long as no later command hands a
      replica a slot, exactly when the command itself does not hand one to this node, a replica. */
  lemma CommandSafeIff(v: View, e: Event)
    requires Sound(v) && WellFormed(v) && Slotless(v) && Enabled(v, e)
    ensures Sound(Apply(v, e))
    ensures (forall es :: Runs(Apply(v, e), es) && HandsNone(Apply(v, e), es) ==> NeverStops(Apply(v, e), es))
            <==> !HandsToReplica(v, e)
  {
    hide Sound, WellFormed, Slotless, Apply, Enabled, Stops, HandsToReplica, Runs, HandsNone, NeverStops;
    EventSound(v, e);
    SlotlessIff(v, e);
    var w := Apply(v, e);
    if HandsToReplica(v, e) {
      var es := ReplicateStops(w);
    } else {
      forall es | Runs(w, es) && HandsNone(w, es) ensures NeverStops(w, es) {
        RunNeverStops(w, es);
      }
    }
  }

  // ---------------------------------------------------------------- a claim that stops the server

  /** Node 2 replicates node 1, which serves slot 0; nobody serves slot 1. */
  function Follower(): View {
    View(2, map[1 := Node(0, true, None, false, 0), 2 := Node(0, false, Some(1), false, 0),
                3 := Node(1, true, None, false, 0)],
         Table([Some(1), None], map[1 := SlotSet([true, false], 1), 2 := SlotSet([false, false], 0),
                                    3 := SlotSet([false, false], 0)]),
         [None, None], [None, None], 1, 0, 0, 0, 0, false, 2)
  }

  /** The same after CLUSTER ADDSLOTS 1. */
  function FollowerWithSlot(): View {
    Follower().(table := Table([Some(1), Some(2)], map[1 := SlotSet([true, false], 1), 2 := SlotSet([false, true], 1),
                                                       3 := SlotSet([false, false], 0)]))
  }

  lemma FollowerIsSound()
    ensures Sound(Follower()) && Slotless(Follower())
  {
    var v := Follower();
    assert [true, false][..1] == [true] && [false, false][..1] == [false] && [true][..0] == [] && [false][..0] == [];
    assert Count([true, false]) == 1 && Count([false, false]) == 0;
    assert SetAgrees(v.table.owner, 1, v.table.sets[1]);
    assert SetAgrees(v.table.owner, 2, v.table.sets[2]);
    assert SetAgrees(v.table.owner, 3, v.table.sets[3]);
  }

  lemma AddSlotsToFollower()
    requires WellFormed(Follower())
    ensures Apply(Follower(), AddSlots(1)) == FollowerWithSlot()
  {
    var v := Follower();
    assert v.table.owner[1 := Some(2)] == [Some(1), Some(2)];
    assert SetBit(v.table.sets[2], 1) == SlotSet([false, true], 1) by {
      assert [false, false][1 := true] == [false, true];
    }
    assert v.importing[1 := None] == v.importing;
    assert Apply(v, AddSlots(1)).table.sets == FollowerWithSlot().table.sets;
  }

  /** Node 3 claims slot 0 under a newer epoch. */
  function Usurper(): Header {
    Header(3, 1, 1, [true, false], None)
  }

  lemma ClaimOfLastSlotStops()
    requires WellFormed(FollowerWithSlot())
    ensures Stops(FollowerWithSlot(), Ping(Usurper()))
  {
    var v, h := FollowerWithSlot(), Usurper();
    EpochsKeepShape(v, h);
    assert ReceiveEpochs(v, h).nodes == v.nodes;
    assert ReceiveEpochs(v, h) == v && ReceiveRole(v, h) == v;
    var mask := TakenMask(v, 3, 1, h.slots);
    assert mask == [true, false];
    assert mask[0] && v.table.owner[0] == Some(CurrentMaster(v));
    var t := RebindAll(v.table, 3, mask, 2);
    assert t == RebindAll(v.table, 3, mask, 1) == Rebind(v.table, 3, 0);
    assert t.sets[1].count == 0 && t.sets[2].count == 1;
  }

  /** CLUSTER ADDSLOTS is accepted by a replica; a claim that takes its master's last slot then stops it. */
  lemma AddSlotsThenClaimStops() returns (v: View, es: seq<Event>)
    ensures Sound(v) && v.self in v.nodes && Slotless(v) && Runs(v, es) && !NeverStops(v, es)
    ensures es == [AddSlots(1), Ping(Usurper())]
  {
    hide Sound, WellFormed, Slotless, Follower, FollowerWithSlot, Apply, Stops, Runs, NeverStops, HandsNone;
    v, es := Follower(), [AddSlots(1), Ping(Usurper())];
    FollowerIsSound();
    SoundIsWellFormed(v);
    AddSlotsToFollower();
    assert SlotCount(v) == 2 && SlotCount(FollowerWithSlot()) == 2 && v.self == 2 && FollowerWithSlot().self == 2 by {
      FollowerSize();
    }
    EventSound(v, es[0]);
    var w := FollowerWithSlot();
    SoundIsWellFormed(w);
    ClaimOfLastSlotStops();
    StopsAtOnce(w, es[1]);
    StopsLater(v, es[0], [es[1]]);
    assert [es[0]] + [es[1]] == es;
  }

  lemma FollowerSize()
    ensures SlotCount(Follower()) == SlotCount(FollowerWithSlot()) == 2
    ensures Follower().self == FollowerWithSlot().self == 2
  {
  }
}
