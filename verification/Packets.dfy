/** What a node learns from a packet, and what it does not touch. */
module Packets {
  import opened Options
  import opened Slots
  import opened Cluster
  import opened NodeRuns
  import opened Claims
  import opened ClusterNet
  import opened EpochBound
  import opened Succession

  // ---------------------------------------------------------------- headers

  /** A packet says who sends it, whom the sender replicates, and the epoch and slots of the master it serves. */
  lemma HeaderSays(v: View)
    requires Sound(v) && WellFormed(v)
    ensures var h := BuildHeader(v);
      var m := if Me(v).master then v.self else Me(v).slaveof.value;
      && h.sender == v.self && h.currentEpoch == v.currentEpoch && h.slaveof == Me(v).slaveof
      && m in v.nodes && h.configEpoch == v.nodes[m].configEpoch
      && |h.slots| == SlotCount(v)
      && forall j :: 0 <= j < SlotCount(v) ==> (h.slots[j] <==> v.table.owner[j] == Some(m))
  {
    hide Agrees, Shape;
    BitsAreOwners(v.table, CurrentMaster(v));
  }

  // ---------------------------------------------------------------- pings

  /** What is known of the sender after its packet: role, master and config epoch. */
  function Learnt(v: View, h: Header): Node
    requires h.sender in v.nodes
  {
    var x := v.nodes[h.sender];
    var y := x.(configEpoch := Max(x.configEpoch, h.configEpoch), master := h.slaveof.None?);
    match h.slaveof
    case None => if x.master then y else y.(slaveof := None)
    case Some(m) => if m in v.nodes then y.(slaveof := h.slaveof) else y
  }

  lemma RoleLearnt(v: View, h: Header)
    requires Sound(v) && WellFormed(v) && h.sender in v.nodes && h.sender != v.self
    ensures var e := ReceiveEpochs(v, h);
      && WellFormed(e)
      && var w := ReceiveRole(e, h);
         && w == v.(nodes := v.nodes[h.sender := Learnt(v, h)], currentEpoch := Max(v.currentEpoch, h.currentEpoch),
                    table := w.table)
         && (h.slaveof.None? || !v.nodes[h.sender].master ==> w.table == v.table)
         && |w.table.owner| == SlotCount(v)
         && (h.slaveof.Some? && v.nodes[h.sender].master ==>
               forall j :: 0 <= j < SlotCount(v) ==>
                 w.table.owner[j] == if v.table.owner[j] == Some(h.sender) then None else v.table.owner[j])
  {
    hide Sound, WellFormed, Agrees, Shape, DelNodeSlots, ReceiveRole;
    EpochsSound(v, h);
    SoundIsWellFormed(v);
    var e := ReceiveEpochs(v, h);
    SoundIsWellFormed(e);
    DelNodeSlotsAgrees(v.table, h.sender);
    RoleIs(e, h);
  }

  lemma RoleIs(v: View, h: Header)
    requires WellFormed(v) && h.sender in v.nodes
    ensures Shape(v.table) && h.sender in v.table.sets
    ensures var x := v.nodes[h.sender];
      var y := x.(master := h.slaveof.None?,
                  slaveof := if h.slaveof.None? then if x.master then x.slaveof else None
                             else if h.slaveof.value in v.nodes then h.slaveof else x.slaveof);
      ReceiveRole(v, h)
      == v.(nodes := v.nodes[h.sender := y],
            table := if h.slaveof.Some? && x.master then DelNodeSlots(v.table, h.sender) else v.table)
  {
    hide Shape, DelNodeSlots;
    var x := v.nodes[h.sender];
    assert v.nodes[h.sender := x] == v.nodes;
  }

  /** A replica's ping: it is known as a replica of its master, loses the slots it was known to own as a master,
      and nothing else changes. */
  lemma ReplicaPing(v: View, h: Header)
    requires Sound(v) && WellFormed(v) && h.sender in v.nodes && h.sender != v.self && |h.slots| == SlotCount(v)
    requires h.slaveof.Some?
    ensures var w := ReceivePing(v, h);
      && w == v.(nodes := v.nodes[h.sender := Learnt(v, h)], currentEpoch := Max(v.currentEpoch, h.currentEpoch),
                 table := w.table)
      && |w.table.owner| == SlotCount(v)
      && forall j :: 0 <= j < SlotCount(v) ==>
           w.table.owner[j] == if v.nodes[h.sender].master && v.table.owner[j] == Some(h.sender) then None
                               else v.table.owner[j]
  {
    hide Sound, WellFormed, UpdateSlots, ClaimsDiffer, ReceiveRole, ReceiveEpochs;
    RoleLearnt(v, h);
  }

  /** A master's ping: it is known as a master; the other nodes and, unless its epoch collides or its claim
      demotes this node, this one stay as they were. Which slots it gets, `Succession.PingRebinds` says. */
  lemma MasterPing(v: View, h: Header, n: Name)
    requires Sound(v) && WellFormed(v) && h.sender in v.nodes && h.sender != v.self && |h.slots| == SlotCount(v)
    requires h.slaveof.None? && n in v.nodes
    ensures var w := ReceivePing(v, h);
      && n in w.nodes
      && (n == h.sender ==> w.nodes[n] == Learnt(v, h))
      && (n != h.sender && n != v.self ==> w.nodes[n] == v.nodes[n])
      && (n == v.self ==>
            var x, y := v.nodes[n], w.nodes[n];
            && y == x.(configEpoch := y.configEpoch, master := y.master, slaveof := y.slaveof)
            && ((y.master == x.master && y.slaveof == x.slaveof) || (!y.master && y.slaveof == Some(h.sender)))
            && (|| y.configEpoch == x.configEpoch
                || (y.master && y.configEpoch == Max(v.currentEpoch, h.currentEpoch) + 1)))
  {
    hide Sound, WellFormed, ReceiveClaim, ReceiveRole, ReceiveEpochs, ResolveCollision, Learnt;
    RoleLearnt(v, h);
    var e := ReceiveEpochs(v, h);
    EpochsSound(v, h);
    RoleSound(e, h);
    var u := ReceiveRole(e, h);
    SoundIsWellFormed(u);
    ClaimTouchesSelf(u, h);
    CollisionTouchesSelf(ReceiveClaim(u, h), h);
  }

  lemma ClaimTouchesSelf(v: View, h: Header)
    requires Sound(v) && WellFormed(v) && h.sender in v.nodes && h.sender != v.self && |h.slots| == SlotCount(v)
    ensures var w := ReceiveClaim(v, h);
      && w.nodes.Keys == v.nodes.Keys && w.self == v.self && w.currentEpoch == v.currentEpoch
      && (forall n :: n in v.nodes && n != v.self ==> w.nodes[n] == v.nodes[n])
      && (Me(w) == Me(v) || Me(w) == Me(v).(master := false, slaveof := Some(h.sender)))
  {
    hide Sound, UpdateSlots, ClaimsDiffer, LostLast, Shape;
    DemotedIffLostLast(v, h.sender, h.configEpoch, h.slots);
  }

  lemma CollisionTouchesSelf(v: View, h: Header)
    requires v.self in v.nodes && h.sender in v.nodes
    ensures var w := ResolveCollision(v, h);
      && w.nodes.Keys == v.nodes.Keys
      && (forall n :: n in v.nodes && n != v.self ==> w.nodes[n] == v.nodes[n])
      && (w == v || (Me(v).master && w.nodes[v.self] == Me(v).(configEpoch := v.currentEpoch + 1)))
  {
  }

  // ---------------------------------------------------------------- updates

  /** The config epoch known of a node once the packet's own epochs are noted. */
  function NotedEpoch(v: View, h: Header, n: Name): nat
    requires n in v.nodes
  {
    if n == h.sender then Max(v.nodes[n].configEpoch, h.configEpoch) else v.nodes[n].configEpoch
  }

  /** Slot `j` is taken by a report about `n`: claimed, not imported, and unassigned or owned under a smaller
      epoch. */
  predicate TakenByReport(v: View, h: Header, epoch: nat, claimed: Bitmap, j: nat) {
    && j < |claimed| && claimed[j] && j < |v.importing| && v.importing[j].None?
    && j < SlotCount(v)
    && (v.table.owner[j].Some? ==>
          v.table.owner[j].value in v.nodes && NotedEpoch(v, h, v.table.owner[j].value) < epoch)
  }

  /** An UPDATE that reports no newer epoch only has its sender's epochs noted. */
  lemma OldUpdate(v: View, h: Header, n: Name, epoch: nat, claimed: Bitmap)
    requires WellFormed(v) && h.sender in v.nodes && |claimed| == SlotCount(v)
    requires n !in v.nodes || NotedEpoch(v, h, n) >= epoch
    ensures ReceiveUpdate(v, h, n, epoch, claimed)
         == v.(nodes := v.nodes[h.sender := v.nodes[h.sender].(configEpoch := NotedEpoch(v, h, h.sender))],
               currentEpoch := Max(v.currentEpoch, h.currentEpoch))
  {
    hide UpdateSlots;
  }

  /** An UPDATE about another node with a newer epoch: that node is known as a master with this epoch and owns the
      slots the report takes; the other slots keep their owners. */
  lemma NewUpdate(v: View, h: Header, n: Name, epoch: nat, claimed: Bitmap)
    requires Sound(v) && WellFormed(v) && h.sender in v.nodes && |claimed| == SlotCount(v)
    requires n in v.nodes && n != v.self && NotedEpoch(v, h, n) < epoch
    ensures var w := ReceiveUpdate(v, h, n, epoch, claimed);
      && n in w.nodes && w.nodes[n].master && w.nodes[n].configEpoch == epoch
      && (!v.nodes[n].master ==> w.nodes[n].slaveof.None?)
      && |w.table.owner| == SlotCount(v)
      && forall j :: 0 <= j < SlotCount(v) ==>
           w.table.owner[j] == if TakenByReport(v, h, epoch, claimed, j) then Some(n) else v.table.owner[j]
  {
    hide Sound, UpdateSlots, Agrees, Shape, LostLast;
    EpochsSound(v, h);
    var e := ReceiveEpochs(v, h);
    SoundIsWellFormed(e);
    ReportKeepsShape(e, n, epoch);
    var u := SetNode(e, n, Reported(e.nodes[n], epoch));
    ReportSound(e, n, epoch);
    ClaimRebinds(u, n, epoch, claimed);
    DemotedIffLostLast(u, n, epoch, claimed);
    forall j | 0 <= j < SlotCount(v) && v.table.owner[j] != Some(n)
      ensures Taken(u, n, epoch, claimed, j) <==> TakenByReport(v, h, epoch, claimed, j)
    {
      OwnerIsKnown(v, j);
    }
  }

  lemma OwnerIsKnown(v: View, j: nat)
    requires WellFormed(v) && j < SlotCount(v)
    ensures v.table.owner[j].Some? ==> v.table.owner[j].value in v.nodes
  {
  }

  lemma ReportSound(v: View, n: Name, epoch: nat)
    requires Sound(v) && n in v.nodes
    ensures Sound(SetNode(v, n, Reported(v.nodes[n], epoch)))
  {
    hide WellFormed, Agrees;
    SoundIsWellFormed(v);
    KnownNames(v, n);
    KnownNames(v, v.self);
    SetNodeSound(v, n, Reported(v.nodes[n], epoch));
  }

  /** An UPDATE about this node itself, with a newer epoch, makes it a master with that epoch and moves no slot. */
  lemma UpdateAboutSelf(v: View, h: Header, epoch: nat, claimed: Bitmap)
    requires WellFormed(v) && h.sender in v.nodes && |claimed| == SlotCount(v) && h.sender != v.self
    requires Me(v).configEpoch < epoch
    ensures var w := ReceiveUpdate(v, h, v.self, epoch, claimed);
      && w.table == v.table && w.self in w.nodes && Me(w).master && Me(w).configEpoch == epoch
      && (!Me(v).master ==> Me(w).slaveof.None?)
  {
    hide Shape, TakeSlots;
  }

  // ---------------------------------------------------------------- acknowledgements

  /** The sender is known as a master that owns a slot, and has reached the election's epoch. */
  predicate Elector(v: View, h: Header) {
    && h.sender in v.nodes && v.nodes[h.sender].master && h.currentEpoch >= v.authEpoch
    && exists j :: 0 <= j < SlotCount(v) && v.table.owner[j] == Some(h.sender)
  }

  /** An ACK is counted exactly when it comes from an elector; besides, its epochs are noted. */
  lemma AckIsCounted(v: View, h: Header)
    requires Sound(v) && WellFormed(v) && h.sender in v.nodes
    ensures ReceiveAck(v, h)
         == v.(nodes := v.nodes[h.sender := v.nodes[h.sender].(configEpoch := NotedEpoch(v, h, h.sender))],
               currentEpoch := Max(v.currentEpoch, h.currentEpoch),
               authCount := v.authCount + if Elector(v, h) then 1 else 0)
  {
    hide Agrees, Shape, Sound;
    SoundIsWellFormed(v);
    CountIsZero(v.table, h.sender);
    EpochsKeepShape(v, h);
    NotNegative(v.table, h.sender);
  }

  lemma NotNegative(t: Table, n: Name)
    requires Agrees(t) && n in t.sets
    ensures t.sets[n].count >= 0
  {
    assert SetAgrees(t.owner, n, t.sets[n]);
  }

  /** The senders are known. */
  predicate AllKnown(v: View, hs: seq<Header>) {
    forall i :: 0 <= i < |hs| ==> hs[i].sender in v.nodes
  }

  predicate AllElectors(v: View, hs: seq<Header>) {
    forall i :: 0 <= i < |hs| ==> Elector(v, hs[i])
  }

  lemma AckKeepsKnown(v: View, hs: seq<Header>)
    requires Sound(v) && AllKnown(v, hs) && hs != []
    ensures WellFormed(v) && hs[0].sender in v.nodes
    ensures Sound(ReceiveAck(v, hs[0])) && AllKnown(ReceiveAck(v, hs[0]), hs[1..])
  {
    hide Sound, WellFormed, AckCounts;
    SoundIsWellFormed(v);
    AckSound(v, hs[0]);
  }

  /** The view after these ACKs. */
  ghost function AfterAcks(v: View, hs: seq<Header>): View
    requires Sound(v) && AllKnown(v, hs)
    decreases |hs|
  {
    if hs == [] then v
    else
      AckKeepsKnown(v, hs);
      AfterAcks(ReceiveAck(v, hs[0]), hs[1..])
  }

  /** `k` votes have been counted; besides, only epochs may have changed. */
  predicate CountedUp(v: View, w: View, k: nat) {
    && w.nodes.Keys == v.nodes.Keys
    && (forall n :: n in v.nodes ==> w.nodes[n] == v.nodes[n].(configEpoch := w.nodes[n].configEpoch))
    && w == v.(nodes := w.nodes, currentEpoch := w.currentEpoch, authCount := v.authCount + k)
  }

  lemma {:induction false} AcksAddUp(v: View, hs: seq<Header>)
    requires Sound(v) && AllElectors(v, hs)
    ensures AllKnown(v, hs) && Sound(AfterAcks(v, hs)) && CountedUp(v, AfterAcks(v, hs), |hs|)
    decreases |hs|
  {
    hide Sound, WellFormed, ReceiveAck, AllElectors, AllKnown, CountedUp;
    ElectorsAreKnown(v, hs);
    if hs == [] {
      NothingCounted(v);
    } else {
      AckKeepsKnown(v, hs);
      var w := ReceiveAck(v, hs[0]);
      OneCounted(v, hs);
      AcksAddUp(w, hs[1..]);
      CountsAdd(v, w, AfterAcks(w, hs[1..]), 1, |hs[1..]|);
    }
  }

  lemma ElectorsAreKnown(v: View, hs: seq<Header>)
    requires AllElectors(v, hs)
    ensures AllKnown(v, hs)
  {
  }

  lemma OneCounted(v: View, hs: seq<Header>)
    requires Sound(v) && WellFormed(v) && AllElectors(v, hs) && hs != [] && hs[0].sender in v.nodes
    ensures CountedUp(v, ReceiveAck(v, hs[0]), 1) && AllElectors(ReceiveAck(v, hs[0]), hs[1..])
  {
    hide Sound, WellFormed, ReceiveAck, Elector, CountedUp;
    var w := ReceiveAck(v, hs[0]);
    AckCountsUp(v, hs[0]);
    forall i | 0 <= i < |hs[1..]| ensures Elector(w, hs[1..][i]) {
      StillElector(v, w, hs[i + 1]);
    }
  }

  lemma NothingCounted(v: View)
    ensures CountedUp(v, v, 0)
  {
  }

  lemma AckCountsUp(v: View, h: Header)
    requires Sound(v) && WellFormed(v) && Elector(v, h)
    ensures h.sender in v.nodes && CountedUp(v, ReceiveAck(v, h), 1)
  {
    hide Sound, WellFormed, ReceiveAck;
    AckIsCounted(v, h);
  }

  lemma CountsAdd(v: View, w: View, u: View, a: nat, b: nat)
    requires CountedUp(v, w, a) && CountedUp(w, u, b)
    ensures CountedUp(v, u, a + b)
  {
  }

  lemma StillElector(v: View, w: View, h: Header)
    requires Elector(v, h) && CountedUp(v, w, 1)
    ensures h.sender in w.nodes && Elector(w, h)
  {
  }

  /** A replica with a reason to replace its master, whose election is under way, is promoted by its timer once
      more than half of the masters have sent it their ACKs. */
  lemma MajorityWins(v: View, hs: seq<Header>, c: Clock)
    requires Sound(v) && AllElectors(v, hs) && AllKnown(v, hs)
    requires WellFormed(v) && MayAct(v, c) && v.authSent && v.authTime <= c.now <= v.authTime + Lifetime(c)
    requires 2 * (v.authCount + |hs|) > v.size
    ensures var w := AfterAcks(v, hs);
      && WellFormed(w) && FailoverBranch(w, c) == Promote
      && Me(HandleFailover(w, c)).master && Me(HandleFailover(w, c)).configEpoch == v.authEpoch
  {
    hide Agrees, Shape, AfterAcks, FailoverBranch, TakeOver, Elector;
    AcksAddUp(v, hs);
    var w := AfterAcks(v, hs);
    SoundIsWellFormed(w);
    BranchMeans(w, c);
    PromotionTakesOver(w);
  }
}
