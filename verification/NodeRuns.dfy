/** Every run of one cluster node, whatever messages reach it and whatever commands its
    administrator sends, keeps the slot table and the bitmaps in agreement. */
module NodeRuns {
  import opened Options
  import opened Slots
  import opened Cluster

  /** What can happen to a node.  `Failing` stands for the failure detector, `Recount` for the
      recomputation of the cluster size. */
  datatype Event =
    | Ping(h: Header)
    | Update(h: Header, about: Name, epoch: nat, claimed: Bitmap)
    | VoteRequest(h: Header, force: bool, now: int, timeout: nat)
    | VoteAck(h: Header)
    | Tick(c: Clock)
    | AssignSlot(j: nat, n: Name, keys: nat)
    | OpenMigrating(j: nat, n: Name)
    | OpenImporting(j: nat, n: Name)
    | CloseSlot(j: nat)
    | AddSlots(j: nat)
    | DelSlots(j: nat)
    | Replicate(n: Name, keys: nat)
    | ForgetNode(n: Name)
    | LearnNode(n: Name, master: bool)
    | Failing(n: Name, failed: bool)
    | Recount

  /** A packet from a node this one does not know is dropped. */
  predicate Heard(v: View, h: Header) {
    h.sender in v.nodes
  }

  /** Packets have the format's bitmap size and do not come from the node itself; a node that CLUSTER FORGET
      removes is replicated by no other known node (the replica's pointer would be left dangling). */
  predicate Enabled(v: View, e: Event) {
    match e
    case Ping(h) => h.sender != v.self && |h.slots| == SlotCount(v)
    case Update(h, _, _, claimed) => h.sender != v.self && |claimed| == SlotCount(v)
    case VoteRequest(h, _, _, _) => h.sender != v.self && |h.slots| == SlotCount(v)
    case VoteAck(h) => h.sender != v.self
    case AssignSlot(j, _, _) => j < SlotCount(v)
    case AddSlots(j) => j < SlotCount(v)
    case OpenMigrating(j, _) => j < SlotCount(v)
    case OpenImporting(j, _) => j < SlotCount(v)
    case CloseSlot(j) => j < SlotCount(v)
    case DelSlots(j) => j < SlotCount(v)
    case ForgetNode(n) => WellFormed(v) && MayForget(v, n) ==> Unreplicated(v, n)
    case _ => true
  }

  /** No other known node replicates `n`. */
  predicate Unreplicated(v: View, n: Name) {
    forall m :: m in v.nodes && m != n ==> v.nodes[m].slaveof != Some(n)
  }

  ghost function Apply(v: View, e: Event): View
    requires WellFormed(v) && Enabled(v, e)
  {
    match e
    case Ping(h) => if Heard(v, h) then ReceivePing(v, h) else v
    case Update(h, n, epoch, claimed) => if Heard(v, h) then ReceiveUpdate(v, h, n, epoch, claimed) else v
    case VoteRequest(h, force, now, timeout) => if Heard(v, h) then ReceiveRequest(v, h, force, now, timeout).0 else v
    case VoteAck(h) => if Heard(v, h) then ReceiveAck(v, h) else v
    case Tick(c) => HandleFailover(v, c)
    case AssignSlot(j, n, keys) => SetSlotNode(v, j, n, keys)
    case OpenMigrating(j, n) => SetSlotMigrating(v, j, n)
    case OpenImporting(j, n) => SetSlotImporting(v, j, n)
    case CloseSlot(j) => SetSlotStable(v, j)
    case AddSlots(j) => AddSlotHere(v, j)
    case DelSlots(j) => DelSlotHere(v, j)
    case Replicate(n, keys) => Replicated(v, n, keys)
    case ForgetNode(n) => if MayForget(v, n) then Forget(v, n) else v
    case LearnNode(n, master) => Learn(v, n, master)
    case Failing(n, failed) => if n in v.nodes then SetNode(v, n, v.nodes[n].(failed := failed)) else v
    case Recount => v.(size := |Serving(v)|)
  }

  /** The two slot representations agree. */
  predicate Sound(v: View) {
    WellFormed(v) && Agrees(v.table)
  }

  // ---------------------------------------------------------------- building blocks

  /** Changing a node's record keeps a view sound. */
  lemma SetNodeSound(v: View, n: Name, x: Node)
    requires Sound(v) && n in v.nodes
    requires x.slaveof.Some? ==> x.slaveof.value in v.nodes
    requires n == v.self ==> x.master || x.slaveof.Some?
    ensures Sound(SetNode(v, n, x)) && SameFrame(v, SetNode(v, n, x))
  {
    hide WellFormed, Agrees;
    KnownNames(v, v.self) by { SoundIsWellFormed(v); }
    SetNodeKeepsShape(v, n, x);
  }

  lemma SoundIsWellFormed(v: View)
    requires Sound(v)
    ensures WellFormed(v) && Agrees(v.table) && v.self in v.nodes
  {
  }

  /** Rebinding slots keeps a view sound. */
  lemma SetTableSound(v: View, t: Table)
    requires Sound(v) && Agrees(t) && t.sets.Keys == v.table.sets.Keys && |t.owner| == SlotCount(v)
    ensures Sound(v.(table := t)) && SameFrame(v, v.(table := t))
  {
    hide WellFormed, Agrees;
    SoundIsWellFormed(v);
    AgreesIsShape(t);
    SetTableKeepsShape(v, t);
    KnownNames(v, v.self);
  }

  /** In a sound view, a node's count is zero exactly when the table gives it nothing. */
  lemma CountIsZero(t: Table, n: Name)
    requires Agrees(t) && n in t.sets
    ensures t.sets[n].count == 0 <==> forall j :: 0 <= j < |t.owner| ==> t.owner[j] != Some(n)
  {
    assert SetAgrees(t.owner, n, t.sets[n]);
    CountZeroIffEmpty(t.sets[n].bits);
  }

  // ---------------------------------------------------------------- packets

  lemma EpochsSound(v: View, h: Header)
    requires Sound(v) && h.sender in v.nodes
    ensures Sound(ReceiveEpochs(v, h)) && SameFrame(v, ReceiveEpochs(v, h))
    ensures ReceiveEpochs(v, h).table == v.table
  {
    hide WellFormed, Agrees;
    SoundIsWellFormed(v);
    KnownNames(v, h.sender);
    KnownNames(v, v.self);
    var x := v.nodes[h.sender];
    SetNodeSound(v, h.sender, x.(configEpoch := Max(x.configEpoch, h.configEpoch)));
    CurrentEpochSound(SetNode(v, h.sender, x.(configEpoch := Max(x.configEpoch, h.configEpoch))),
                      Max(v.currentEpoch, h.currentEpoch));
  }

  lemma CurrentEpochSound(v: View, e: nat)
    requires Sound(v)
    ensures Sound(v.(currentEpoch := e))
  {
    hide Agrees, Shape;
  }

  lemma RoleSound(v: View, h: Header)
    requires Sound(v) && h.sender in v.nodes && h.sender != v.self
    ensures Sound(ReceiveRole(v, h)) && SameFrame(v, ReceiveRole(v, h))
  {
    hide Shape, Agrees, DelNodeSlots, WellFormed;
    SoundIsWellFormed(v);
    var s := h.sender;
    KnownNames(v, s);
    KnownNames(v, v.self);
    var x := v.nodes[s];
    SetNodeSound(v, s, x.(master := true, slaveof := None));
    if h.slaveof.Some? {
      var u := SetNode(v, s, x.(master := false));
      SetNodeSound(v, s, x.(master := false));
      DelNodeSlotsAgrees(v.table, s);
      SetTableSound(u, DelNodeSlots(v.table, s));
      var w := if x.master then u.(table := DelNodeSlots(v.table, s)) else v;
      if h.slaveof.value in w.nodes {
        SetNodeSound(w, s, w.nodes[s].(slaveof := h.slaveof));
      }
    }
  }

  lemma SetMasterSound(v: View, n: Name)
    requires Sound(v) && n in v.nodes
    ensures Sound(SetMaster(v, n)) && SameFrame(v, SetMaster(v, n))
  {
    hide Shape, Agrees;
  }

  /** A claim keeps the view sound, whatever this node's role. */
  lemma UpdateSlotsSound(v: View, n: Name, epoch: nat, claimed: Bitmap)
    requires Sound(v) && n in v.nodes && |claimed| == SlotCount(v)
    ensures Sound(UpdateSlots(v, n, epoch, claimed)) && SameFrame(v, UpdateSlots(v, n, epoch, claimed))
  {
    hide Shape, Agrees, RebindAll, WellFormed, Taken, Loses;
    SoundIsWellFormed(v);
    KnownNames(v, n);
    KnownNames(v, v.self);
    if n != v.self {
      var mask := TakenMask(v, n, epoch, claimed);
      var t := RebindAll(v.table, n, mask, SlotCount(v));
      RebindAllAgrees(v.table, n, mask, SlotCount(v));
      SetTableSound(v, t);
      SetMasterSound(v.(table := t), n);
    }
  }

  lemma CollisionSound(v: View, h: Header)
    requires Sound(v) && h.sender in v.nodes
    ensures Sound(ResolveCollision(v, h)) && SameFrame(v, ResolveCollision(v, h))
  {
    hide WellFormed, Agrees;
    SoundIsWellFormed(v);
    BumpSound(v);
  }

  lemma BumpSound(v: View)
    requires Sound(v)
    ensures v.self in v.nodes && Sound(BumpEpoch(v)) && SameFrame(v, BumpEpoch(v)) && BumpEpoch(v).table == v.table
    ensures Me(BumpEpoch(v)).master == Me(v).master
  {
    hide WellFormed, Agrees;
    SoundIsWellFormed(v);
    KnownNames(v, v.self);
    var x := Me(v).(configEpoch := v.currentEpoch + 1);
    SetNodeSound(v, v.self, x);
    CurrentEpochSound(SetNode(v, v.self, x), v.currentEpoch + 1);
  }

  lemma PingSound(v: View, h: Header)
    requires Sound(v) && h.sender in v.nodes && h.sender != v.self && |h.slots| == SlotCount(v)
    ensures Sound(ReceivePing(v, h))
  {
    hide WellFormed, Agrees, ReceiveEpochs, ReceiveRole, UpdateSlots, ClaimsDiffer, ResolveCollision, Shape, Sound;
    SoundIsWellFormed(v);
    EpochsSound(v, h);
    var e := ReceiveEpochs(v, h);
    RoleSound(e, h);
    SoundIsWellFormed(e);
    var w := ReceiveRole(e, h);
    SoundIsWellFormed(w);
    UpdateSlotsSound(w, h.sender, h.configEpoch, h.slots);
    CollisionSound(ReceiveClaim(w, h), h);
  }

  lemma UpdateSound(v: View, h: Header, n: Name, epoch: nat, claimed: Bitmap)
    requires Sound(v) && h.sender in v.nodes && |claimed| == SlotCount(v)
    ensures Sound(ReceiveUpdate(v, h, n, epoch, claimed))
  {
    hide WellFormed, Agrees, ReceiveEpochs, UpdateSlots, Shape;
    SoundIsWellFormed(v);
    EpochsSound(v, h);
    var w := ReceiveEpochs(v, h);
    SoundIsWellFormed(w);
    if n in w.nodes && w.nodes[n].configEpoch < epoch {
      KnownNames(w, n);
      KnownNames(w, w.self);
      SetNodeSound(w, n, Reported(w.nodes[n], epoch));
      UpdateSlotsSound(SetNode(w, n, Reported(w.nodes[n], epoch)), n, epoch, claimed);
    }
  }

  /** The election fields and the cluster size are no part of the slot state. */
  lemma ElectionFieldsSound(v: View, time: int, epoch: nat, count: nat, sent: bool, size: nat, vote: nat)
    requires Sound(v)
    ensures Sound(v.(authTime := time, authEpoch := epoch, authCount := count, authSent := sent, size := size,
                     lastVoteEpoch := vote))
  {
    hide Agrees, Shape;
  }

  lemma RequestSound(v: View, h: Header, force: bool, now: int, timeout: nat)
    requires Sound(v) && h.sender in v.nodes && |h.slots| == SlotCount(v)
    ensures Sound(ReceiveRequest(v, h, force, now, timeout).0)
  {
    hide Agrees, Shape, ReceiveEpochs, ClaimIsCurrent, WellFormed;
    SoundIsWellFormed(v);
    EpochsSound(v, h);
    var w := ReceiveEpochs(v, h);
    KnownNames(w, h.sender);
    if Grants(w, h, force, now, timeout) {
      var m := w.nodes[h.sender].slaveof.value;
      KnownNames(w, m);
      KnownNames(w, w.self);
      var u := SetNode(w, m, w.nodes[m].(votedTime := now));
      SetNodeSound(w, m, w.nodes[m].(votedTime := now));
      ElectionFieldsSound(u, u.authTime, u.authEpoch, u.authCount, u.authSent, u.size, w.currentEpoch);
    }
  }

  lemma AckSound(v: View, h: Header)
    requires Sound(v) && h.sender in v.nodes
    ensures Sound(ReceiveAck(v, h))
  {
    hide Agrees, Shape, ReceiveEpochs, WellFormed, AckCounts, Sound;
    SoundIsWellFormed(v);
    EpochsSound(v, h);
    var w := ReceiveEpochs(v, h);
    ElectionFieldsSound(w, w.authTime, w.authEpoch, w.authCount + 1, w.authSent, w.size, w.lastVoteEpoch);
  }

  // ---------------------------------------------------------------- failover

  lemma TakeOverSound(v: View)
    requires Sound(v) && v.self in v.nodes && !Me(v).master
    ensures Sound(TakeOver(v))
  {
    hide Shape, Agrees, RebindAll, WellFormed;
    SoundIsWellFormed(v);
    KnownNames(v, v.self);
    var m := CurrentMaster(v);
    KnownNames(v, m);
    var bits := SlotsOf(v, m).bits;
    BitmapSize(v.table, m);
    var x := Me(v).(master := true, slaveof := None);
    var w := SetNode(v, v.self, x);
    SetNodeSound(v, v.self, x);
    SetNodeSound(w, v.self, x.(configEpoch := v.authEpoch));
    RebindAllAgrees(v.table, v.self, bits, SlotCount(v));
    SetTableSound(SetNode(w, v.self, x.(configEpoch := v.authEpoch)), RebindAll(v.table, v.self, bits, SlotCount(v)));
  }

  lemma BitmapSize(t: Table, n: Name)
    requires Shape(t) && n in t.sets
    ensures |t.sets[n].bits| == |t.owner|
  {
  }

  lemma FailoverSound(v: View, c: Clock)
    requires Sound(v)
    ensures WellFormed(v) && Sound(HandleFailover(v, c))
  {
    hide Shape, Agrees, WellFormed, TakeOver, Sound;
    SoundIsWellFormed(v);
    if FailoverBranch(v, c) == Promote {
      TakeOverSound(v);
    } else {
      var w := HandleFailover(v, c);
      ElectionFieldsSound(v, w.authTime, w.authEpoch, w.authCount, w.authSent, w.size, w.lastVoteEpoch);
      CurrentEpochSound(v.(authTime := w.authTime, authEpoch := w.authEpoch, authCount := w.authCount,
          authSent := w.authSent),
                        w.currentEpoch);
    }
  }

  // ---------------------------------------------------------------- administration

  /** Opening and closing migrations is no part of the slot state. */
  lemma MigrationFieldsSound(v: View, migrating: seq<Option<Name>>, importing: seq<Option<Name>>)
    requires Sound(v) && |migrating| == |importing| == SlotCount(v)
    ensures Sound(v.(migrating := migrating, importing := importing))
  {
    hide Agrees, Shape;
  }

  /** The bump and the two resets that precede the rebinding. */
  lemma CloseSound(v: View, j: nat, n: Name, keys: nat)
    requires Sound(v) && v.self in v.nodes && j < SlotCount(v)
    ensures WellFormed(v)
    ensures var u := Closed(v, j, n, keys);
      Sound(u) && SameFrame(v, u) && u.table == v.table && u.self in u.nodes && Me(u).master == Me(v).master
  {
    hide Agrees, Shape, MaxEpoch, Sound;
    SoundIsWellFormed(v);
    var w := if keys == 0 then v.(migrating := v.migrating[j := None]) else v;
    MigrationFieldsSound(v, w.migrating, w.importing);
    BumpSound(w);
    var b := if Me(w).configEpoch == 0 || Me(w).configEpoch != MaxEpoch(w) then BumpEpoch(w) else w;
    MigrationFieldsSound(b, b.migrating, w.importing[j := None]);
  }

  lemma AssignSound(v: View, j: nat, n: Name, keys: nat)
    requires Sound(v) && v.self in v.nodes && j < SlotCount(v)
    ensures WellFormed(v) && Sound(SetSlotNode(v, j, n, keys))
  {
    hide Agrees, Shape, Closed, WellFormed;
    SoundIsWellFormed(v);
    CloseSound(v, j, n, keys);
    if n in v.nodes {
      KnownNames(v, n);
      var u := Closed(v, j, n, keys);
      RebindAgrees(u.table, n, j);
      SetTableSound(u, Rebind(u.table, n, j));
    }
  }

  lemma AddSlotSound(v: View, j: nat)
    requires Sound(v) && v.self in v.nodes && j < SlotCount(v)
    ensures WellFormed(v) && Sound(AddSlotHere(v, j))
  {
    hide Agrees, Shape, AddSlot;
    SoundIsWellFormed(v);
    if v.table.owner[j].None? {
      AddSlotAgrees(v.table, v.self, j);
      AddSlotKeys(v.table, v.self, j);
      SetTableSound(v, AddSlot(v.table, v.self, j));
      MigrationFieldsSound(v.(table := AddSlot(v.table, v.self, j)), v.migrating, v.importing[j := None]);
    }
  }

  lemma AddSlotKeys(t: Table, n: Name, j: nat)
    requires Shape(t) && n in t.sets && j < |t.owner|
    ensures AddSlot(t, n, j).sets.Keys == t.sets.Keys && |AddSlot(t, n, j).owner| == |t.owner|
  {
  }

  lemma DelSlotSound(v: View, j: nat)
    requires Sound(v) && j < SlotCount(v)
    ensures WellFormed(v) && Sound(DelSlotHere(v, j))
  {
    hide Agrees, Shape, DelSlot;
    SoundIsWellFormed(v);
    if v.table.owner[j].Some? {
      DelSlotAgrees(v.table, j);
      SetTableSound(v, DelSlot(v.table, j));
      MigrationFieldsSound(v.(table := DelSlot(v.table, j)), v.migrating, v.importing[j := None]);
    }
  }

  lemma ReplicateSound(v: View, n: Name, keys: nat)
    requires Sound(v)
    ensures WellFormed(v) && Sound(Replicated(v, n, keys))
  {
    hide Agrees, Shape, WellFormed, SetMaster;
    SoundIsWellFormed(v);
    if MayReplicate(v, n, keys) { SetMasterSound(v, n); }
  }

  /** Removing a node always keeps the slot table in agreement; every name stored in the view stays known
      exactly when no other node replicates the removed one. */
  lemma ForgetSound(v: View, n: Name)
    requires Sound(v) && n in v.nodes && n != v.self
    ensures WellFormed(v) && Agrees(Forget(v, n).table)
    ensures Sound(Forget(v, n)) <==> Unreplicated(v, n)
  {
    hide Agrees, Shape, DelAll;
    SoundIsWellFormed(v);
    var t := DelAll(v.table, OwnedBy(v.table, n), SlotCount(v));
    DelAllAgrees(v.table, OwnedBy(v.table, n), SlotCount(v));
    DropAgrees(t, n);
    AgreesIsShape(t.(sets := t.sets - {n}));
    if !Unreplicated(v, n) {
      var m :| m in v.nodes && m != n && v.nodes[m].slaveof == Some(n);
      var w := Forget(v, n);
      assert m in w.nodes && w.nodes[m].slaveof.value !in w.nodes;
    }
  }

  lemma LearnSound(v: View, n: Name, master: bool)
    requires Sound(v)
    ensures Sound(Learn(v, n, master))
  {
    hide Agrees, Shape, Empty;
    if n !in v.nodes {
      LearnAgrees(v.table, n);
      var t := v.table.(sets := v.table.sets[n := Empty(SlotCount(v))]);
      AgreesIsShape(t);
      LearnKeepsShape(v, n, Node(0, master, None, false, 0), t);
    }
  }

  lemma LearnKeepsShape(v: View, n: Name, x: Node, t: Table)
    requires WellFormed(v) && n !in v.nodes && x.slaveof.None? && Shape(t)
    requires t.sets.Keys == v.table.sets.Keys + {n} && t.owner == v.table.owner
    ensures WellFormed(v.(nodes := v.nodes[n := x], table := t))
    ensures Me(v.(nodes := v.nodes[n := x], table := t)) == Me(v)
  {
    hide Shape;
  }

  // ---------------------------------------------------------------- runs

  predicate FromOutside(e: Event) {
    e.Ping? || e.Update? || e.VoteRequest? || e.VoteAck? || e.Tick?
  }

  lemma PacketSound(v: View, e: Event)
    requires Sound(v) && Enabled(v, e) && FromOutside(e)
    ensures WellFormed(v) && Sound(Apply(v, e))
  {
    hide Sound, WellFormed, ReceivePing, ReceiveUpdate, ReceiveRequest, ReceiveAck, HandleFailover;
    SoundIsWellFormed(v);
    match e
    case Ping(h) => if Heard(v, h) { PingSound(v, h); }
    case Update(h, n, epoch, claimed) => if Heard(v, h) { UpdateSound(v, h, n, epoch, claimed); }
    case VoteRequest(h, force, now, timeout) => if Heard(v, h) { RequestSound(v, h, force, now, timeout); }
    case VoteAck(h) => if Heard(v, h) { AckSound(v, h); }
    case Tick(c) => FailoverSound(v, c);
  }

  lemma FailingSound(v: View, n: Name, failed: bool)
    requires Sound(v) && n in v.nodes
    ensures Sound(SetNode(v, n, v.nodes[n].(failed := failed)))
  {
    hide Agrees, WellFormed;
    SoundIsWellFormed(v);
    KnownNames(v, n);
    KnownNames(v, v.self);
    SetNodeSound(v, n, v.nodes[n].(failed := failed));
  }

  lemma ForgetKeepsSound(v: View, n: Name)
    requires Sound(v) && WellFormed(v) && Enabled(v, ForgetNode(n)) && MayForget(v, n)
    ensures Sound(Forget(v, n))
  {
    hide Agrees, Shape, Forget;
    ForgetSound(v, n);
  }

  lemma AdminSound(v: View, e: Event)
    requires Sound(v) && Enabled(v, e) && !FromOutside(e)
    ensures WellFormed(v) && Sound(Apply(v, e))
  {
    hide Sound, WellFormed, SetSlotNode, AddSlotHere, DelSlotHere, SetMaster, Forget, Learn, Serving,
         SetSlotMigrating, SetSlotImporting, SetSlotStable, Replicated, Agrees, Shape, Me, MayForget, Unreplicated;
    SoundIsWellFormed(v);
    match e
    case AssignSlot(j, n, keys) => AssignSound(v, j, n, keys);
    case OpenMigrating(j, n) => OpenSound(v, j, n);
    case OpenImporting(j, n) => OpenSound(v, j, n);
    case CloseSlot(j) => OpenSound(v, j, v.self);
    case AddSlots(j) => AddSlotSound(v, j);
    case DelSlots(j) => DelSlotSound(v, j);
    case Replicate(n, keys) => ReplicateSound(v, n, keys);
    case ForgetNode(n) => if MayForget(v, n) { ForgetKeepsSound(v, n); }
    case LearnNode(n, master) => LearnSound(v, n, master);
    case Failing(n, failed) => if n in v.nodes { FailingSound(v, n, failed); }
    case Recount => ElectionFieldsSound(v, v.authTime, v.authEpoch, v.authCount, v.authSent, |Serving(v)|,
        v.lastVoteEpoch);
  }

  lemma EventSound(v: View, e: Event)
    requires Sound(v) && Enabled(v, e)
    ensures WellFormed(v) && Sound(Apply(v, e))
  {
    hide Sound, WellFormed, Apply, Enabled;
    if FromOutside(e) { PacketSound(v, e); } else { AdminSound(v, e); }
  }

  lemma OpenSound(v: View, j: nat, n: Name)
    requires Sound(v) && j < SlotCount(v)
    ensures WellFormed(v) && Sound(SetSlotMigrating(v, j, n)) && Sound(SetSlotImporting(v, j, n))
        && Sound(SetSlotStable(v, j))
  {
    hide Agrees, Shape;
  }

  /** The events of a run are enabled one after the other. */
  ghost predicate Runs(v: View, es: seq<Event>)
    requires Sound(v)
    decreases |es|
  {
    es == [] || (Enabled(v, es[0]) && (EventSound(v, es[0]); Runs(Apply(v, es[0]), es[1..])))
  }

  ghost function Final(v: View, es: seq<Event>): View
    requires Sound(v) && Runs(v, es)
    decreases |es|
  {
    if es == [] then v else EventSound(v, es[0]); Final(Apply(v, es[0]), es[1..])
  }

  /** Slot representation agreement: after any run, `slots[j] == n` exactly when bit `j` is set in
      `n`'s bitmap, and every count is its bitmap's population, whatever the node's role. */
  lemma {:induction false} RunKeepsAgreement(v: View, es: seq<Event>)
    requires Sound(v) && Runs(v, es)
    ensures var w := Final(v, es);
      && WellFormed(w)
      && (forall n, j :: n in w.nodes && 0 <= j < SlotCount(w) ==>
            (SlotsOf(w, n).bits[j] <==> w.table.owner[j] == Some(n)))
      && (forall n :: n in w.nodes ==> SlotsOf(w, n).count == Count(SlotsOf(w, n).bits))
    decreases |es|
  {
    hide Apply, Enabled;
    if es != [] {
      EventSound(v, es[0]);
      RunKeepsAgreement(Apply(v, es[0]), es[1..]);
    } else {
      SoundSays(v);
    }
  }

  lemma SoundSays(v: View)
    requires Sound(v)
    ensures forall n, j :: n in v.nodes && 0 <= j < SlotCount(v) ==>
      (SlotsOf(v, n).bits[j] <==> v.table.owner[j] == Some(n))
    ensures forall n :: n in v.nodes ==> SlotsOf(v, n).count == Count(SlotsOf(v, n).bits)
  {
    forall n | n in v.nodes ensures SetAgrees(v.table.owner, n, v.table.sets[n]) {
    }
  }

  // ---------------------------------------------------------------- the number of slots

  lemma PingKeepsSize(v: View, h: Header)
    requires Sound(v) && WellFormed(v) && h.sender in v.nodes && h.sender != v.self && |h.slots| == SlotCount(v)
    ensures SameFrame(v, ReceivePing(v, h))
  {
    hide WellFormed, Agrees, ReceiveEpochs, ReceiveRole, UpdateSlots, ClaimsDiffer, ResolveCollision, Shape, Sound;
    EpochsSound(v, h);
    var e := ReceiveEpochs(v, h);
    SoundIsWellFormed(e);
    RoleSound(e, h);
    var w := ReceiveRole(e, h);
    SoundIsWellFormed(w);
    UpdateSlotsSound(w, h.sender, h.configEpoch, h.slots);
    CollisionSound(ReceiveClaim(w, h), h);
  }

  lemma UpdateKeepsSize(v: View, h: Header, n: Name, epoch: nat, claimed: Bitmap)
    requires Sound(v) && WellFormed(v) && h.sender in v.nodes && |claimed| == SlotCount(v)
    ensures SameFrame(v, ReceiveUpdate(v, h, n, epoch, claimed))
  {
    hide Agrees, ReceiveEpochs, UpdateSlots, Shape;
    EpochsSound(v, h);
    var w := ReceiveEpochs(v, h);
    if n in w.nodes && w.nodes[n].configEpoch < epoch {
      SetNodeSound(w, n, Reported(w.nodes[n], epoch));
      UpdateSlotsSound(SetNode(w, n, Reported(w.nodes[n], epoch)), n, epoch, claimed);
    }
  }

  lemma VotesKeepSize(v: View, h: Header, force: bool, now: int, timeout: nat)
    requires WellFormed(v) && h.sender in v.nodes && |h.slots| == SlotCount(v)
    ensures SameFrame(v, ReceiveRequest(v, h, force, now, timeout).0)
  {
    hide Shape, ClaimIsCurrent;
  }

  lemma FailoverKeepsSize(v: View, c: Clock)
    requires WellFormed(v)
    ensures HandleFailover(v, c).self == v.self && SlotCount(HandleFailover(v, c)) == SlotCount(v)
  {
    hide Shape, RebindAll, FailoverBranch;
  }

  lemma AdminKeepsSize(v: View, e: Event)
    requires Sound(v) && WellFormed(v) && Enabled(v, e)
    requires !e.Ping? && !e.Update? && !e.VoteRequest? && !e.VoteAck? && !e.Tick?
    ensures Apply(v, e).self == v.self && SlotCount(Apply(v, e)) == SlotCount(v)
  {
    hide Sound, Shape, DelAll, Rebind, AddSlot, DelSlot, Serving, MaxEpoch;
    match e
    case AddSlots(j) => if v.table.owner[j].None? { AddSlotKeys(v.table, v.self, j); }
    case _ =>
  }

  /** A node keeps its name and the number of slots. */
  lemma EventKeepsSize(v: View, e: Event)
    requires Sound(v) && WellFormed(v) && Enabled(v, e)
    ensures Apply(v, e).self == v.self && SlotCount(Apply(v, e)) == SlotCount(v)
  {
    hide Sound, WellFormed, ReceivePing, ReceiveUpdate, ReceiveRequest, HandleFailover, AckCounts, SetSlotNode,
         AddSlotHere, DelSlotHere, SetMaster, Forget, Learn, Serving;
    match e
    case Ping(h) => if Heard(v, h) { PingKeepsSize(v, h); }
    case Update(h, n, epoch, claimed) => if Heard(v, h) { UpdateKeepsSize(v, h, n, epoch, claimed); }
    case VoteRequest(h, force, now, timeout) => if Heard(v, h) { VotesKeepSize(v, h, force, now, timeout); }
    case VoteAck(h) =>
    case Tick(c) => FailoverKeepsSize(v, c);
    case _ => AdminKeepsSize(v, e);
  }
}
