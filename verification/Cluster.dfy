/** One cluster node's view of the cluster, and what each handler does to it.

    A view holds what `server.cluster` holds: the table of known nodes, the slot table, the
    open migrations, the epochs and the state of a failover election. */
module Cluster {
  import opened Options
  import opened Slots

  /** What a node knows about a node, apart from its slots. */
  datatype Node = Node(configEpoch: nat, master: bool, slaveof: Option<Name>, failed: bool, votedTime: int)

  datatype View = View(self: Name, nodes: map<Name, Node>, table: Table,
                       migrating: seq<Option<Name>>, importing: seq<Option<Name>>,
                       currentEpoch: nat, lastVoteEpoch: nat,
                       authTime: int, authEpoch: nat, authCount: nat, authSent: bool, size: nat)

  /** What every packet on the bus carries. */
  datatype Header = Header(sender: Name, currentEpoch: nat, configEpoch: nat,
                           slots: Bitmap, slaveof: Option<Name>)

  function Max(a: nat, b: nat): nat {
    if a < b then b else a
  }

  function Me(v: View): Node
    requires v.self in v.nodes
  {
    v.nodes[v.self]
  }

  function SetNode(v: View, n: Name, x: Node): View {
    v.(nodes := v.nodes[n := x])
  }

  /** The slots in one node's bitmap, and how many. */
  function SlotsOf(v: View, n: Name): SlotSet
    requires n in v.table.sets
  {
    v.table.sets[n]
  }

  function SlotCount(v: View): nat {
    |v.table.owner|
  }

  /** Every name stored in a view is known, and every per-slot array has one entry a slot. */
  predicate WellFormed(v: View) {
    && v.self in v.nodes
    && v.nodes.Keys == v.table.sets.Keys
    && Shape(v.table)
    && |v.migrating| == |v.importing| == SlotCount(v)
    && (forall n :: n in v.nodes && v.nodes[n].slaveof.Some? ==> v.nodes[n].slaveof.value in v.nodes)
    && (Me(v).master || Me(v).slaveof.Some?)
  }

  /** The node whose slots this node serves: itself, or the master it replicates. */
  function CurrentMaster(v: View): Name
    requires WellFormed(v)
  {
    if Me(v).master then v.self else Me(v).slaveof.value
  }

  /** `clusterBuildMessageHdr`: a replica announces its master's slots and config epoch. */
  function BuildHeader(v: View): Header
    requires WellFormed(v)
  {
    var m := CurrentMaster(v);
    Header(v.self, v.currentEpoch, v.nodes[m].configEpoch, SlotsOf(v, m).bits, Me(v).slaveof)
  }

  // ---------------------------------------------------------------- roles

  /** `clusterSetNodeAsMaster`. */
  function SetNodeAsMaster(v: View, n: Name): View
    requires n in v.nodes
  {
    if v.nodes[n].master then v else SetNode(v, n, v.nodes[n].(master := true, slaveof := None))
  }

  function NoneOpen(size: nat): seq<Option<Name>> {
    seq(size, _ => None)
  }

  /** `clusterSetMaster`, when its assertion holds: this node becomes a replica of `n`; a demoted master
      closes its migrations. */
  function SetMaster(v: View, n: Name): View
    requires v.self in v.nodes
  {
    var w := if Me(v).master
             then v.(migrating := NoneOpen(SlotCount(v)), importing := NoneOpen(SlotCount(v)))
             else v;
    SetNode(w, v.self, Me(v).(master := false, slaveof := Some(n)))
  }

  // ---------------------------------------------------------------- claims

  /** Slot `j` is rebound by a claim: claimed, not already the claimer's, not being imported,
      and unassigned or owned by a node with a smaller config epoch. */
  predicate Taken(v: View, n: Name, epoch: nat, claimed: Bitmap, j: nat)
    requires WellFormed(v) && |claimed| == SlotCount(v) && j < SlotCount(v)
  {
    && claimed[j]
    && v.table.owner[j] != Some(n)
    && v.importing[j].None?
    && (v.table.owner[j].None? || v.nodes[v.table.owner[j].value].configEpoch < epoch)
  }

  function TakenMask(v: View, n: Name, epoch: nat, claimed: Bitmap): Bitmap
    requires WellFormed(v) && |claimed| == SlotCount(v)
  {
    seq(SlotCount(v), j requires 0 <= j < SlotCount(v) => Taken(v, n, epoch, claimed, j))
  }

  /** The loop of `clusterUpdateSlotsConfigWith`: the taken slots are rebound. */
  function TakeSlots(v: View, n: Name, epoch: nat, claimed: Bitmap): View
    requires WellFormed(v) && n in v.nodes && |claimed| == SlotCount(v)
  {
    v.(table := RebindAll(v.table, n, TakenMask(v, n, epoch, claimed), SlotCount(v)))
  }

  /** A slot of this node, or of the master it replicates, was taken, and that was the last one. */
  predicate Dethroned(v: View, n: Name, epoch: nat, claimed: Bitmap)
    requires WellFormed(v) && n in v.nodes && |claimed| == SlotCount(v)
  {
    && n != v.self && Loses(v, TakenMask(v, n, epoch, claimed))
    && SlotsOf(TakeSlots(v, n, epoch, claimed), CurrentMaster(v)).count == 0
  }

  /** `clusterUpdateSlotsConfigWith`: the taken slots are rebound; a node whose slots (or whose
      master's slots) were all taken becomes a replica of the claimer, unless the assertion in
      `clusterSetMaster`, that this node has no slots, stops it (`ClaimStops`). */
  function UpdateSlots(v: View, n: Name, epoch: nat, claimed: Bitmap): View
    requires WellFormed(v) && n in v.nodes && |claimed| == SlotCount(v)
  {
    if n == v.self then v
    else
      var w := TakeSlots(v, n, epoch, claimed);
      if Dethroned(v, n, epoch, claimed) && SlotsOf(w, v.self).count == 0 then SetMaster(w, n) else w
  }

  predicate ClaimStops(v: View, n: Name, epoch: nat, claimed: Bitmap)
    requires WellFormed(v) && n in v.nodes && |claimed| == SlotCount(v)
  {
    Dethroned(v, n, epoch, claimed) && SlotsOf(TakeSlots(v, n, epoch, claimed), v.self).count != 0
  }

  /** Some slot of this node, or of the master it replicates, is in `mask`. */
  predicate Loses(v: View, mask: Bitmap)
    requires WellFormed(v) && |mask| == SlotCount(v)
  {
    exists j :: 0 <= j < |mask| && mask[j] && v.table.owner[j] == Some(CurrentMaster(v))
  }

  // ---------------------------------------------------------------- packets

  /** The start of `clusterProcessPacket`: both epochs only move forward. */
  function ReceiveEpochs(v: View, h: Header): View
    requires h.sender in v.nodes
  {
    var x := v.nodes[h.sender];
    SetNode(v, h.sender, x.(configEpoch := Max(x.configEpoch, h.configEpoch)))
      .(currentEpoch := Max(v.currentEpoch, h.currentEpoch))
  }

  /** A packet that names no master comes from a master; one that does comes from a replica. */
  function ReceiveRole(v: View, h: Header): View
    requires WellFormed(v) && h.sender in v.nodes
  {
    if h.slaveof.None? then SetNodeAsMaster(v, h.sender)
    else
      var w := if v.nodes[h.sender].master
               then SetNode(v, h.sender, v.nodes[h.sender].(master := false)).(table := DelNodeSlots(v.table, h.sender))
               else v;
      if h.slaveof.value in w.nodes
      then SetNode(w, h.sender, w.nodes[h.sender].(slaveof := h.slaveof))
      else w
  }

  /** The sender's claimed slots differ from what this node has for the sender, or for its master. */
  predicate ClaimsDiffer(v: View, h: Header)
    requires WellFormed(v) && h.sender in v.nodes
  {
    var x := v.nodes[h.sender];
    && (x.master || x.slaveof.Some?)
    && SlotsOf(v, if x.master then h.sender else x.slaveof.value).bits != h.slots
  }

  function ReceiveClaim(v: View, h: Header): View
    requires WellFormed(v) && h.sender in v.nodes && |h.slots| == SlotCount(v)
  {
    if v.nodes[h.sender].master && ClaimsDiffer(v, h)
    then UpdateSlots(v, h.sender, h.configEpoch, h.slots)
    else v
  }

  predicate PingClaimStops(v: View, h: Header)
    requires WellFormed(v) && h.sender in v.nodes && |h.slots| == SlotCount(v)
  {
    v.nodes[h.sender].master && ClaimsDiffer(v, h) && ClaimStops(v, h.sender, h.configEpoch, h.slots)
  }

  /** `clusterHandleConfigEpochCollision`, with the test its caller makes. */
  function ResolveCollision(v: View, h: Header): View
    requires v.self in v.nodes && h.sender in v.nodes
  {
    if && Me(v).master && v.nodes[h.sender].master
       && h.configEpoch == Me(v).configEpoch
       && v.nodes[h.sender].configEpoch == Me(v).configEpoch
       && h.sender > v.self
    then BumpEpoch(v)
    else v
  }

  /** A node gives itself a config epoch greater than the current epoch. */
  function BumpEpoch(v: View): View
    requires v.self in v.nodes
  {
    SetNode(v, v.self, Me(v).(configEpoch := v.currentEpoch + 1)).(currentEpoch := v.currentEpoch + 1)
  }

  /** PING, PONG or MEET from a known node. */
  function ReceivePing(v: View, h: Header): View
    requires WellFormed(v) && h.sender in v.nodes && h.sender != v.self && |h.slots| == SlotCount(v)
  {
    EpochsKeepShape(v, h);
    RoleKeepsShape(ReceiveEpochs(v, h), h);
    var w := ReceiveRole(ReceiveEpochs(v, h), h);
    ClaimKeepsShape(w, h);
    ResolveCollision(ReceiveClaim(w, h), h)
  }

  /** The assertion in `clusterSetMaster` fails while a ping is processed. */
  predicate PingStops(v: View, h: Header)
    requires WellFormed(v) && h.sender in v.nodes && h.sender != v.self && |h.slots| == SlotCount(v)
  {
    EpochsKeepShape(v, h);
    RoleKeepsShape(ReceiveEpochs(v, h), h);
    PingClaimStops(ReceiveRole(ReceiveEpochs(v, h), h), h)
  }

  /** A reported node is a master with the reported epoch. */
  function Reported(x: Node, epoch: nat): Node {
    x.(configEpoch := epoch, master := true, slaveof := if x.master then x.slaveof else None)
  }

  /** UPDATE: somebody reports the slots and config epoch of node `n`. */
  function ReceiveUpdate(v: View, h: Header, n: Name, epoch: nat, claimed: Bitmap): View
    requires WellFormed(v) && h.sender in v.nodes && |claimed| == SlotCount(v)
  {
    var w := ReceiveEpochs(v, h);
    EpochsKeepShape(v, h);
    if n !in w.nodes || w.nodes[n].configEpoch >= epoch then w
    else
      SetNodeKeepsShape(w, n, Reported(w.nodes[n], epoch));
      UpdateSlots(SetNode(w, n, Reported(w.nodes[n], epoch)), n, epoch, claimed)
  }

  predicate UpdateStops(v: View, h: Header, n: Name, epoch: nat, claimed: Bitmap)
    requires WellFormed(v) && h.sender in v.nodes && |claimed| == SlotCount(v)
  {
    var w := ReceiveEpochs(v, h);
    EpochsKeepShape(v, h);
    && n in w.nodes && w.nodes[n].configEpoch < epoch
    && (SetNodeKeepsShape(w, n, Reported(w.nodes[n], epoch));
        ClaimStops(SetNode(w, n, Reported(w.nodes[n], epoch)), n, epoch, claimed))
  }

  // ---------------------------------------------------------------- elections

  /** Every slot the requester claims is unassigned, or its owner's epoch is not greater. */
  predicate ClaimIsCurrent(v: View, h: Header)
    requires WellFormed(v) && |h.slots| == SlotCount(v)
  {
    forall j :: 0 <= j < SlotCount(v) && h.slots[j] && v.table.owner[j].Some? ==>
      v.nodes[v.table.owner[j].value].configEpoch <= h.configEpoch
  }

  /** `clusterSendFailoverAuthIfNeeded`: whether this node votes for the sender. */
  predicate Grants(v: View, h: Header, force: bool, now: int, timeout: nat)
    requires WellFormed(v) && h.sender in v.nodes && |h.slots| == SlotCount(v)
  {
    var x := v.nodes[h.sender];
    && Me(v).master && SlotsOf(v, v.self).count != 0
    && h.currentEpoch >= v.currentEpoch
    && v.lastVoteEpoch != v.currentEpoch
    && !x.master && x.slaveof.Some?
    && (v.nodes[x.slaveof.value].failed || force)
    && now - v.nodes[x.slaveof.value].votedTime >= 2 * timeout
    && ClaimIsCurrent(v, h)
  }

  function CastVote(v: View, h: Header, now: int): View
    requires h.sender in v.nodes && v.nodes[h.sender].slaveof.Some?
    requires v.nodes[h.sender].slaveof.value in v.nodes
  {
    var m := v.nodes[h.sender].slaveof.value;
    SetNode(v, m, v.nodes[m].(votedTime := now)).(lastVoteEpoch := v.currentEpoch)
  }

  /** FAILOVER_AUTH_REQUEST from a known node: the new view, and whether an ACK is sent. */
  function ReceiveRequest(v: View, h: Header, force: bool, now: int, timeout: nat): (View, bool)
    requires WellFormed(v) && h.sender in v.nodes && |h.slots| == SlotCount(v)
  {
    var w := ReceiveEpochs(v, h);
    if Grants(w, h, force, now, timeout) then (CastVote(w, h, now), true) else (w, false)
  }

  /** An ACK counts when its sender is a master serving slots that has reached the election's epoch. */
  predicate AckCounts(v: View, h: Header)
    requires WellFormed(v) && h.sender in v.nodes
  {
    v.nodes[h.sender].master && SlotsOf(v, h.sender).count > 0 && h.currentEpoch >= v.authEpoch
  }

  /** FAILOVER_AUTH_ACK from a known node. */
  function ReceiveAck(v: View, h: Header): View
    requires WellFormed(v) && h.sender in v.nodes
  {
    var w := ReceiveEpochs(v, h);
    if AckCounts(w, h) then w.(authCount := w.authCount + 1) else w
  }

  /** What `clusterHandleSlaveFailover` reads from outside the cluster state: the clock, the node
      timeout, whether a manual failover is set up and may start, whether the data is recent
      enough, and the delays it draws. */
  datatype Clock = Clock(now: int, timeout: nat, manualSet: bool, manualReady: bool, dataRecent: bool,
                         delay: nat, addedDelay: nat)

  datatype FailoverAction = Idle | Schedule | Postpone | Request | Promote

  function AuthTimeout(c: Clock): nat {
    Max(2 * c.timeout, 2000)
  }

  /** Which of its branches `clusterHandleSlaveFailover` takes. */
  function FailoverBranch(v: View, c: Clock): FailoverAction
    requires WellFormed(v)
  {
    var manual := c.manualSet && c.manualReady;
    var age := c.now - v.authTime;
    if Me(v).master || (!v.nodes[CurrentMaster(v)].failed && !manual)
       || SlotsOf(v, CurrentMaster(v)).count == 0 then Idle
    else if !c.dataRecent && !manual then Idle
    else if age > 2 * AuthTimeout(c) then Schedule
    else if c.now < Delayed(v, c).authTime || age > AuthTimeout(c) then Postpone
    else if !v.authSent then Request
    else if v.authCount >= v.size / 2 + 1 then Promote
    else Postpone
  }

  /** Better placed replicas have shown up since the election was scheduled. */
  function Delayed(v: View, c: Clock): View {
    if !v.authSent && !c.manualSet then v.(authTime := v.authTime + c.addedDelay) else v
  }

  /** The vote count is zeroed here, but the election keeps its old epoch until it starts. */
  function ScheduleElection(v: View, c: Clock): View {
    v.(authTime := if c.manualSet then c.now else c.now + c.delay, authCount := 0, authSent := false)
  }

  function StartElection(v: View): View {
    v.(currentEpoch := v.currentEpoch + 1, authEpoch := v.currentEpoch + 1, authSent := true)
  }

  /** The replica turns master, takes over its old master's slots, and takes the election's epoch. */
  function TakeOver(v: View): View
    requires WellFormed(v) && !Me(v).master
  {
    var w := SetNodeAsMaster(v, v.self);
    SetNode(w, v.self, Me(w).(configEpoch := v.authEpoch))
      .(table := RebindAll(v.table, v.self, SlotsOf(v, CurrentMaster(v)).bits, SlotCount(v)))
  }

  /** `clusterHandleSlaveFailover`. */
  function HandleFailover(v: View, c: Clock): View
    requires WellFormed(v)
  {
    match FailoverBranch(v, c)
    case Idle => v
    case Postpone => Delayed(v, c)
    case Schedule => ScheduleElection(v, c)
    case Request => StartElection(Delayed(v, c))
    case Promote => TakeOver(v)
  }

  // ---------------------------------------------------------------- administration

  /** `clusterGetMaxEpoch`. */
  ghost function MaxEpoch(v: View): (m: nat)
    ensures m >= v.currentEpoch
    ensures forall n :: n in v.nodes ==> v.nodes[n].configEpoch <= m
    ensures m == v.currentEpoch || exists n :: n in v.nodes && v.nodes[n].configEpoch == m
  {
    Max(v.currentEpoch, MaxConfigEpoch(v.nodes))
  }

  ghost function MaxConfigEpoch(nodes: map<Name, Node>): (m: nat)
    ensures forall n :: n in nodes ==> nodes[n].configEpoch <= m
    ensures m == 0 || exists n :: n in nodes && nodes[n].configEpoch == m
  {
    if nodes == map[] then 0
    else
      var n :| n in nodes;
      var rest := nodes - {n};
      assert forall m :: m in nodes && m != n ==> m in rest && rest[m] == nodes[m];
      Max(nodes[n].configEpoch, MaxConfigEpoch(rest))
  }

  /** Assigning slot `j` to `n` ends its migration when no keys are left here; assigning an imported
      slot to this node ends the import under an epoch that is new to this node. */
  ghost function Closed(v: View, j: nat, n: Name, keys: nat): View
    requires WellFormed(v) && j < SlotCount(v)
  {
    var w := if keys == 0 then v.(migrating := v.migrating[j := None]) else v;
    if n == v.self && w.importing[j].Some?
    then (if Me(w).configEpoch == 0 || Me(w).configEpoch != MaxEpoch(w) then BumpEpoch(w) else w)
         .(importing := w.importing[j := None])
    else w
  }

  /** CLUSTER SETSLOT j NODE n, when this node holds `keys` keys in the slot. */
  ghost function SetSlotNode(v: View, j: nat, n: Name, keys: nat): View
    requires WellFormed(v) && j < SlotCount(v)
  {
    if n !in v.nodes || (v.table.owner[j] == Some(v.self) && n != v.self && keys != 0) then v
    else
      var u := Closed(v, j, n, keys);
      u.(table := Rebind(v.table, n, j))
  }

  function SetSlotMigrating(v: View, j: nat, n: Name): View
    requires WellFormed(v) && j < SlotCount(v)
  {
    if v.table.owner[j] != Some(v.self) || n !in v.nodes then v else v.(migrating := v.migrating[j := Some(n)])
  }

  function SetSlotImporting(v: View, j: nat, n: Name): View
    requires WellFormed(v) && j < SlotCount(v)
  {
    if v.table.owner[j] == Some(v.self) || n !in v.nodes then v else v.(importing := v.importing[j := Some(n)])
  }

  function SetSlotStable(v: View, j: nat): View
    requires WellFormed(v) && j < SlotCount(v)
  {
    v.(migrating := v.migrating[j := None], importing := v.importing[j := None])
  }

  /** CLUSTER ADDSLOTS, for one slot. */
  function AddSlotHere(v: View, j: nat): View
    requires WellFormed(v) && j < SlotCount(v)
  {
    if v.table.owner[j].Some? then v
    else v.(table := AddSlot(v.table, v.self, j), importing := v.importing[j := None])
  }

  /** CLUSTER DELSLOTS, for one slot. */
  function DelSlotHere(v: View, j: nat): View
    requires WellFormed(v) && j < SlotCount(v)
  {
    if v.table.owner[j].None? then v
    else v.(table := DelSlot(v.table, j), importing := v.importing[j := None])
  }

  /** CLUSTER REPLICATE n, when this node holds `keys` keys: whether it gets to `clusterSetMaster`. */
  predicate MayReplicate(v: View, n: Name, keys: nat)
    requires WellFormed(v)
  {
    && n in v.nodes && n != v.self && v.nodes[n].slaveof.None?
    && (Me(v).master ==> SlotsOf(v, v.self).count == 0 && keys == 0)
  }

  /** A replica with slots fails the assertion in `clusterSetMaster`. */
  function Replicated(v: View, n: Name, keys: nat): View
    requires WellFormed(v)
  {
    if MayReplicate(v, n, keys) && SlotsOf(v, v.self).count == 0 then SetMaster(v, n) else v
  }

  /** CLUSTER FORGET refuses this node and its master. */
  predicate MayForget(v: View, n: Name)
    requires WellFormed(v)
  {
    n in v.nodes && n != v.self && !(!Me(v).master && Me(v).slaveof == Some(n))
  }

  /** `clusterDelNode`: migrations from or to the node are cancelled and its slots unassigned. */
  function Forget(v: View, n: Name): View
    requires WellFormed(v) && n in v.nodes
  {
    var t := DelAll(v.table, OwnedBy(v.table, n), SlotCount(v));
    v.(table := t.(sets := t.sets - {n}), nodes := v.nodes - {n},
       importing := Cancel(v.importing, n), migrating := Cancel(v.migrating, n))
  }

  function Cancel(open: seq<Option<Name>>, n: Name): seq<Option<Name>> {
    seq(|open|, j requires 0 <= j < |open| => if open[j] == Some(n) then None else open[j])
  }

  /** A handshake completed: a node becomes known, with no slots and epoch 0. */
  function Learn(v: View, n: Name, master: bool): View {
    if n in v.nodes then v
    else v.(nodes := v.nodes[n := Node(0, master, None, false, 0)],
            table := v.table.(sets := v.table.sets[n := Empty(SlotCount(v))]))
  }

  /** The masters serving at least one slot. */
  function Serving(v: View): set<Name>
    requires WellFormed(v)
  {
    set n | n in v.nodes && v.nodes[n].master && SlotsOf(v, n).count != 0
  }

  // ---------------------------------------------------------------- the shape is kept

  /** Same node, same known nodes, same number of slots. */
  predicate SameFrame(v: View, w: View) {
    w.self == v.self && w.nodes.Keys == v.nodes.Keys && SlotCount(w) == SlotCount(v)
  }

  lemma SetNodeKeepsShape(v: View, n: Name, x: Node)
    requires WellFormed(v) && n in v.nodes
    requires x.slaveof.Some? ==> x.slaveof.value in v.nodes
    requires n == v.self ==> x.master || x.slaveof.Some?
    ensures WellFormed(SetNode(v, n, x)) && SameFrame(v, SetNode(v, n, x))
  {
    hide Shape;
  }

  lemma SetTableKeepsShape(v: View, t: Table)
    requires WellFormed(v) && Shape(t) && t.sets.Keys == v.table.sets.Keys && |t.owner| == SlotCount(v)
    ensures WellFormed(v.(table := t)) && SameFrame(v, v.(table := t))
  {
    hide Shape;
  }

  lemma KnownNames(v: View, n: Name)
    requires WellFormed(v) && n in v.nodes
    ensures n in v.table.sets && Shape(v.table) && v.self in v.nodes && (Me(v).master || Me(v).slaveof.Some?)
    ensures v.nodes[n].slaveof.Some? ==> v.nodes[n].slaveof.value in v.nodes
  {
  }

  lemma EpochsKeepShape(v: View, h: Header)
    requires WellFormed(v) && h.sender in v.nodes
    ensures WellFormed(ReceiveEpochs(v, h)) && SameFrame(v, ReceiveEpochs(v, h))
  {
    hide Shape;
  }

  lemma RoleKeepsShape(v: View, h: Header)
    requires WellFormed(v) && h.sender in v.nodes && h.sender != v.self
    ensures var w := ReceiveRole(v, h);
      WellFormed(w) && SameFrame(v, w) && Me(w) == Me(v)
  {
    hide WellFormed, Shape, DelNodeSlots;
    var s := h.sender;
    KnownNames(v, s);
    var x := v.nodes[s];
    SetNodeKeepsShape(v, s, x.(master := true, slaveof := None));
    if h.slaveof.Some? {
      var u := SetNode(v, s, x.(master := false));
      SetNodeKeepsShape(v, s, x.(master := false));
      SetTableKeepsShape(u, DelNodeSlots(v.table, s));
      var w := if x.master then u.(table := DelNodeSlots(v.table, s)) else v;
      if h.slaveof.value in w.nodes {
        SetNodeKeepsShape(w, s, w.nodes[s].(slaveof := h.slaveof));
      }
    }
  }

  lemma ClaimKeepsShape(v: View, h: Header)
    requires WellFormed(v) && h.sender in v.nodes && |h.slots| == SlotCount(v)
    ensures var w := ReceiveClaim(v, h);
      w.self == v.self && w.nodes.Keys == v.nodes.Keys && w.self in w.nodes
  {
    hide Shape;
  }
}
