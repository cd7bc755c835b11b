/** The cluster state as the source keeps it: byte bitmaps, arrays of slot owners and open
    migrations, and handlers that update them in place.  Every method is tied to the function of
    `Cluster` that says what it does to the node's view. */
module ClusterState {
  import opened Options
  import opened Slots
  import opened Cluster
  import opened NodeRuns
  import opened ReplicaSlots

  // ---------------------------------------------------------------- byte bitmaps

  function Mask(bit: nat): bv8
    requires bit < 8
  {
    1 << bit
  }

  /** `bitmapTestBit`. */
  predicate BitAt(bytes: seq<bv8>, pos: nat)
    requires pos < 8 * |bytes|
  {
    bytes[pos / 8] & Mask(pos % 8) != 0
  }

  function Bits(bytes: seq<bv8>): (b: Bitmap)
    ensures |b| == 8 * |bytes|
  {
    seq(8 * |bytes|, pos requires 0 <= pos < 8 * |bytes| => BitAt(bytes, pos))
  }

  lemma MaskIs(i: nat)
    requires i < 8
    ensures Mask(i) == [1, 2, 4, 8, 16, 32, 64, 128][i]
  {
  }

  lemma MaskBits(b: bv8, i: nat, k: nat)
    requires i < 8 && k < 8
    ensures (b | Mask(i)) & Mask(k) != 0 <==> (k == i || b & Mask(k) != 0)
    ensures b & !Mask(i) & Mask(k) != 0 <==> (k != i && b & Mask(k) != 0)
  {
    MaskIs(i);
    MaskIs(k);
  }

  lemma SetBitAt(bytes: seq<bv8>, pos: nat)
    requires pos < 8 * |bytes|
    ensures Bits(bytes[pos / 8 := bytes[pos / 8] | Mask(pos % 8)]) == Bits(bytes)[pos := true]
  {
    hide Mask;
    var after := bytes[pos / 8 := bytes[pos / 8] | Mask(pos % 8)];
    forall p: nat | p < 8 * |bytes| ensures BitAt(after, p) == (p == pos || BitAt(bytes, p)) {
      if p / 8 == pos / 8 { MaskBits(bytes[pos / 8], pos % 8, p % 8); }
    }
  }

  lemma ClearBitAt(bytes: seq<bv8>, pos: nat)
    requires pos < 8 * |bytes|
    ensures Bits(bytes[pos / 8 := bytes[pos / 8] & !Mask(pos % 8)]) == Bits(bytes)[pos := false]
  {
    hide Mask;
    var after := bytes[pos / 8 := bytes[pos / 8] & !Mask(pos % 8)];
    forall p: nat | p < 8 * |bytes| ensures BitAt(after, p) == (p != pos && BitAt(bytes, p)) {
      if p / 8 == pos / 8 { MaskBits(bytes[pos / 8], pos % 8, p % 8); }
    }
  }

  method BitmapTestBit(bitmap: array<bv8>, pos: nat) returns (r: bool)
    requires pos < 8 * bitmap.Length
    ensures r == Bits(bitmap[..])[pos]
  {
    r := bitmap[pos / 8] & Mask(pos % 8) != 0;
  }

  /** Exactly the addressed bit changes. */
  method BitmapSetBit(bitmap: array<bv8>, pos: nat)
    requires pos < 8 * bitmap.Length
    modifies bitmap
    ensures Bits(bitmap[..]) == old(Bits(bitmap[..]))[pos := true]
  {
    hide Bits, Mask;
    SetBitAt(bitmap[..], pos);
    bitmap[pos / 8] := bitmap[pos / 8] | Mask(pos % 8);
  }

  method BitmapClearBit(bitmap: array<bv8>, pos: nat)
    requires pos < 8 * bitmap.Length
    modifies bitmap
    ensures Bits(bitmap[..]) == old(Bits(bitmap[..]))[pos := false]
  {
    hide Bits, Mask;
    ClearBitAt(bitmap[..], pos);
    bitmap[pos / 8] := bitmap[pos / 8] & !Mask(pos % 8);
  }

  /** A node's slots as bytes and a count. */
  class SlotBitmap {
    const bytes: array<bv8>
    var numslots: int

    ghost function Model(): SlotSet
      reads this, bytes
    {
      SlotSet(Bits(bytes[..]), numslots)
    }

    constructor (size: nat)
      requires size % 8 == 0
      ensures fresh(bytes) && Model() == Empty(size)
    {
      bytes := new bv8[size / 8](_ => 0);
      numslots := 0;
      new;
      forall p: nat | p < size ensures !BitAt(bytes[..], p) {
        MaskIs(p % 8);
      }
      assert Bits(bytes[..]) == Empty(size).bits;
    }

    /** `clusterNodeSetSlotBit`: returns the old bit. */
    method SetSlotBit(slot: nat) returns (was: bool)
      requires slot < 8 * bytes.Length
      modifies this`numslots, bytes
      ensures Model() == SetBit(old(Model()), slot) && was == old(Model()).bits[slot]
    {
      hide BitAt;
      was := BitmapTestBit(bytes, slot);
      BitmapSetBit(bytes, slot);
      if !was { numslots := numslots + 1; }
    }

    /** `clusterNodeClearSlotBit`: returns the old bit. */
    method ClearSlotBit(slot: nat) returns (was: bool)
      requires slot < 8 * bytes.Length
      modifies this`numslots, bytes
      ensures Model() == ClearBit(old(Model()), slot) && was == old(Model()).bits[slot]
    {
      hide BitAt;
      was := BitmapTestBit(bytes, slot);
      BitmapClearBit(bytes, slot);
      if was { numslots := numslots - 1; }
    }
  }

  // ---------------------------------------------------------------- the state

  class State {
    const self: Name
    var nodes: map<Name, Node>
    var sets: map<Name, SlotSet>
    const slots: array<Option<Name>>
    const migrating: array<Option<Name>>
    const importing: array<Option<Name>>
    var currentEpoch: nat
    var lastVoteEpoch: nat
    var authTime: int
    var authEpoch: nat
    var authCount: nat
    var authSent: bool
    var size: nat

    ghost predicate Valid()
      reads this, slots, migrating, importing
    {
      && slots != migrating && slots != importing && migrating != importing
      && Sound(Model())
    }

    ghost function Model(): View
      reads this, slots, migrating, importing
    {
      View(self, nodes, Table(slots[..], sets), migrating[..], importing[..],
           currentEpoch, lastVoteEpoch, authTime, authEpoch, authCount, authSent, size)
    }

    ghost function Tab(): Table
      reads this, slots
    {
      Table(slots[..], sets)
    }

    /** `clusterInit`: a master alone in its cluster, with no slots. */
    constructor (self: Name, slotCount: nat)
      ensures Valid() && fresh(slots) && fresh(migrating) && fresh(importing)
      ensures Model() == View(self, map[self := Node(0, true, None, false, 0)],
                              Table(NoneOpen(slotCount), map[self := Empty(slotCount)]),
                              NoneOpen(slotCount), NoneOpen(slotCount), 0, 0, 0, 0, 0, false, 1)
    {
      this.self := self;
      nodes := map[self := Node(0, true, None, false, 0)];
      sets := map[self := Empty(slotCount)];
      slots := new Option<Name>[slotCount](_ => None);
      migrating := new Option<Name>[slotCount](_ => None);
      importing := new Option<Name>[slotCount](_ => None);
      currentEpoch, lastVoteEpoch, authTime, authEpoch, authCount, authSent, size := 0, 0, 0, 0, 0, false, 1;
    }

    // ------------------------------------------------------------ slots

    /** `clusterAddSlot`. */
    method AddSlot(n: Name, slot: nat) returns (ok: bool)
      requires slots != migrating && slots != importing
      requires Shape(Model().table) && n in sets && slot < slots.Length
      modifies this`sets, slots
      ensures Model() == old(Model()).(table := Slots.AddSlot(old(Model()).table, n, slot))
      ensures ok == old(slots[slot]).None?
    {
      if slots[slot].Some? { return false; }
      sets := sets[n := SetBit(sets[n], slot)];
      slots[slot] := Some(n);
      return true;
    }

    /** `clusterDelSlot`. */
    method DelSlot(slot: nat) returns (ok: bool)
      requires slots != migrating && slots != importing
      requires Shape(Model().table) && slot < slots.Length
      modifies this`sets, slots
      ensures Model() == old(Model()).(table := Slots.DelSlot(old(Model()).table, slot))
      ensures ok == old(slots[slot]).Some?
    {
      if slots[slot].None? { return false; }
      var n := slots[slot].value;
      sets := sets[n := ClearBit(sets[n], slot)];
      slots[slot] := None;
      return true;
    }

    /** Unbind and bind again. */
    method Rebind(n: Name, slot: nat)
      requires slots != migrating && slots != importing
      requires Shape(Model().table) && n in sets && slot < slots.Length
      modifies this`sets, slots
      ensures Model() == old(Model()).(table := Slots.Rebind(old(Model()).table, n, slot))
    {
      hide Shape, Slots.AddSlot, Slots.DelSlot;
      var _ := DelSlot(slot);
      var _ := AddSlot(n, slot);
    }

    /** `clusterDelNodeSlots`.  The counter it returns counts every slot; it is the number of deleted slots
        exactly when the node owned them all. */
    method DelNodeSlots(n: Name) returns (deleted: nat)
      requires Valid() && n in sets
      modifies this`sets, slots
      ensures Shape(old(Model()).table)
      ensures Model() == old(Model()).(table := Slots.DelNodeSlots(old(Model()).table, n))
      ensures deleted == slots.Length
      ensures deleted == Unassigned(old(slots[..]), slots[..]) <==>
        forall j :: 0 <= j < slots.Length ==> old(slots[..])[j] == Some(n)
    {
      hide Shape, Agrees, Sound, WellFormed, DelAll, State.Tab;
      ghost var v := Model();
      ghost var bits := v.table.sets[n].bits;
      SoundTable(v, n);
      TabIs(0);
      DelAllStep(v.table, bits, 0, n);
      deleted := 0;
      var j := 0;
      while j < slots.Length
        invariant 0 <= j <= slots.Length && Tab() == DelAll(v.table, bits, j) && deleted == j
        modifies this`sets, slots
      {
        DelRound(n, j, v.table);
        deleted := deleted + 1;
        j := j + 1;
      }
      TabIs(0);
      DeletedAre(v.table, n);
    }

    /** One round: slot `j` is unassigned when the node's bitmap has it. */
    method DelRound(n: Name, j: nat, ghost t: Table)
      requires slots != migrating && slots != importing
      requires Shape(t) && Agrees(t) && n in t.sets && |t.sets[n].bits| == |t.owner| == slots.Length && j < slots.Length
      requires Tab() == DelAll(t, t.sets[n].bits, j)
      modifies this`sets, slots
      ensures Tab() == DelAll(t, t.sets[n].bits, j + 1)
    {
      hide Shape, Agrees, Slots.DelSlot, DelAll;
      ghost var bits := t.sets[n].bits;
      DelAllStep(t, bits, j, n);
      DelAllStep(t, bits, j + 1, n);
      if sets[n].bits[j] { var _ := DelSlot(j); }
    }

    // ------------------------------------------------------------ roles

    /** `clusterSetNodeAsMaster`. */
    method SetNodeAsMaster(n: Name)
      requires n in nodes
      modifies this`nodes
      ensures Model() == Cluster.SetNodeAsMaster(old(Model()), n)
    {
      if nodes[n].master { return; }
      nodes := nodes[n := nodes[n].(master := true, slaveof := None)];
    }

    /** `clusterCloseAllSlots`. */
    method CloseAllSlots()
      requires slots != migrating && slots != importing && migrating != importing
      modifies migrating, importing
      ensures Model() == old(Model()).(migrating := NoneOpen(migrating.Length), importing := NoneOpen(importing.Length))
    {
      forall j | 0 <= j < migrating.Length { migrating[j] := None; }
      forall j | 0 <= j < importing.Length { importing[j] := None; }
    }

    /** `clusterSetMaster`; `stopped` when its assertion, that this node has no slots, fails. */
    method SetMaster(n: Name) returns (stopped: bool)
      requires slots != migrating && slots != importing && migrating != importing
      requires WellFormed(Model()) && n in nodes && n != self
      modifies this`nodes, migrating, importing
      ensures stopped == (SlotsOf(old(Model()), self).count != 0)
      ensures Model() == if stopped then old(Model()) else Cluster.SetMaster(old(Model()), n)
    {
      hide Shape;
      stopped := sets[self].count != 0;
      if stopped { return; }
      if nodes[self].master { CloseAllSlots(); }
      nodes := nodes[self := nodes[self].(master := false, slaveof := Some(n))];
    }

    /** One claimed slot: whether the claim takes it. */
    method ClaimSlot(n: Name, epoch: nat, claimed: seq<bool>, j: nat) returns (taken: bool)
      requires slots != migrating && slots != importing
      requires Shape(Tab()) && n in sets && j < slots.Length == importing.Length == |claimed|
      requires slots[j].Some? ==> slots[j].value in nodes
      modifies this`sets, slots
      ensures taken <==>
        && claimed[j] && old(slots[j]) != Some(n) && importing[j].None?
        && (old(slots[j]).None? || nodes[old(slots[j]).value].configEpoch < epoch)
      ensures Tab() == if taken then Slots.Rebind(old(Tab()), n, j) else old(Tab())
    {
      hide Shape, Slots.Rebind;
      taken := claimed[j] && slots[j] != Some(n) && importing[j].None? &&
        (slots[j].None? || nodes[slots[j].value].configEpoch < epoch);
      if taken { Rebind(n, j); }
    }

    /** One round of the loop: slot `j`, whose owner has not been touched yet. */
    method ClaimRound(n: Name, epoch: nat, claimed: seq<bool>, current: Name, countKeysInSlot: nat -> nat, j: nat,
                      lostSoFar: bool, dirtySoFar: seq<nat>, ghost v: View)
      returns (lost: bool, dirty: seq<nat>)
      requires slots != migrating && slots != importing
      requires WellFormed(v) && Agrees(v.table) && n in v.nodes && |claimed| == slots.Length == SlotCount(v)
          && j < slots.Length
      requires v.nodes == nodes && v.importing == importing[..] && n in v.table.sets && Shape(v.table)
      requires var mask := TakenMask(v, n, epoch, claimed);
        && Tab() == RebindAll(v.table, n, mask, j)
        && lostSoFar == LosesBelow(v.table.owner, mask, current, j)
        && dirtySoFar == DirtyBelow(v.table.owner, mask, self, countKeysInSlot, j)
      modifies this`sets, slots
      ensures var mask := TakenMask(v, n, epoch, claimed);
        && Tab() == RebindAll(v.table, n, mask, j + 1)
        && lost == LosesBelow(v.table.owner, mask, current, j + 1)
        && dirty == DirtyBelow(v.table.owner, mask, self, countKeysInSlot, j + 1)
    {
      hide Shape, Agrees, WellFormed, Slots.Rebind, RebindAll, Taken, TakenMask, LosesBelow, DirtyBelow, State.Tab;
      ghost var mask := TakenMask(v, n, epoch, claimed);
      TakenIs(v, n, epoch, claimed, j);
      RebindAllStep(v.table, n, mask, j);
      TabIs(j);
      var mine, currents := slots[j] == Some(self) && countKeysInSlot(j) != 0, slots[j] == Some(current);
      var taken := ClaimSlot(n, epoch, claimed, j);
      dirty := if taken && mine then dirtySoFar + [j] else dirtySoFar;
      lost := lostSoFar || (taken && currents);
      RebindAllStep(v.table, n, mask, j + 1);
      OneMore(v.table.owner, mask, current, self, countKeysInSlot, j);
    }

    /** The loop of `clusterUpdateSlotsConfigWith`: whether a slot of `current` was taken, and which of
        this node's slots were taken while holding keys. */
    method RebindClaimed(n: Name, epoch: nat, claimed: seq<bool>, current: Name, countKeysInSlot: nat -> nat)
      returns (lost: bool, dirty: seq<nat>)
      requires Valid() && n in nodes && |claimed| == slots.Length
      modifies this`sets, slots
      ensures WellFormed(old(Model())) && n in old(sets) && Shape(old(Model()).table)
      ensures var v := old(Model()); var mask := TakenMask(v, n, epoch, claimed);
        && Model() == TakeSlots(v, n, epoch, claimed)
        && lost == LosesBelow(v.table.owner, mask, current, SlotCount(v))
        && dirty == DirtyBelow(v.table.owner, mask, self, countKeysInSlot, SlotCount(v))
    {
      hide Shape, Agrees, Sound, WellFormed, RebindAll, TakenMask, LosesBelow, DirtyBelow, State.Tab;
      ghost var v := Model();
      SoundIsWellFormed(v);
      KnownNames(v, n);
      TabIs(0);
      ghost var mask := TakenMask(v, n, epoch, claimed);
      MaskSize(v, n, epoch, claimed);
      RebindAllStep(v.table, n, mask, 0);
      NothingBelow(v.table.owner, mask, current, self, countKeysInSlot);
      lost, dirty := false, [];
      var j := 0;
      while j < slots.Length
        invariant 0 <= j <= slots.Length
        invariant Tab() == RebindAll(v.table, n, mask, j)
        invariant lost == LosesBelow(v.table.owner, mask, current, j)
        invariant dirty == DirtyBelow(v.table.owner, mask, self, countKeysInSlot, j)
        modifies this`sets, slots
      {
        lost, dirty := ClaimRound(n, epoch, claimed, current, countKeysInSlot, j, lost, dirty, v);
        j := j + 1;
      }
      TabIs(0);
    }

    lemma TabIs(j: nat)
      ensures Tab() == Model().table && Tab().sets == sets && |Tab().owner| == slots.Length
      ensures j < slots.Length ==> Tab().owner[j] == slots[j]
    {
    }

    /** `clusterUpdateSlotsConfigWith`.  Returns the slots whose keys are deleted: those this node lost while
        it held keys in them, unless it turned into a replica; and whether the assertion in
        `clusterSetMaster` stopped the server. */
    method UpdateSlotsConfigWith(n: Name, epoch: nat, claimed: seq<bool>, countKeysInSlot: nat -> nat)
      returns (cleared: seq<nat>, stopped: bool)
      requires Valid() && n in nodes && |claimed| == slots.Length
      modifies this`nodes, this`sets, slots, migrating, importing
      ensures WellFormed(old(Model())) && Valid()
      ensures Model() == UpdateSlots(old(Model()), n, epoch, claimed)
      ensures stopped == ClaimStops(old(Model()), n, epoch, claimed)
      ensures forall j: nat :: j in cleared <==> Cleared(old(Model()), n, epoch, claimed, countKeysInSlot, j)
    {
      hide Shape, Agrees, Sound, WellFormed, Loses, LosesBelow, DirtyBelow, TakenMask, Cluster.SetMaster, Cleared,
           TakeSlots;
      ghost var v := Model();
      SoundIsWellFormed(v);
      KnownNames(v, self);
      UpdateSlotsSound(v, n, epoch, claimed);
      cleared, stopped := [], false;
      ClearedIs(v, n, epoch, claimed, countKeysInSlot);
      if n == self { return; }
      var current := if nodes[self].master then self else nodes[self].slaveof.value;
      MaskSize(v, n, epoch, claimed);
      LosesIs(v, TakenMask(v, n, epoch, claimed), current);
      LostAll(v, n, epoch, claimed);
      var lost;
      lost, cleared := RebindClaimed(n, epoch, claimed, current, countKeysInSlot);
      if lost && sets[current].count == 0 {
        stopped := SetMaster(n);
        cleared := [];
      }
    }

    // ------------------------------------------------------------ packets

    /** The epochs in a packet from a known node. */
    method NoteEpochs(h: Header)
      requires h.sender in nodes
      modifies this`nodes, this`currentEpoch
      ensures Model() == ReceiveEpochs(old(Model()), h)
    {
      if h.currentEpoch > currentEpoch { currentEpoch := h.currentEpoch; }
      var x := nodes[h.sender];
      if h.configEpoch > x.configEpoch {
        nodes := nodes[h.sender := x.(configEpoch := h.configEpoch)];
      } else {
        assert nodes[h.sender := x.(configEpoch := x.configEpoch)] == nodes;
      }
    }

    /** The role switch in `clusterProcessPacket`. */
    method NoteRole(h: Header)
      requires Valid() && h.sender in nodes && h.sender != self
      modifies this`nodes, this`sets, slots
      ensures WellFormed(old(Model())) && Model() == ReceiveRole(old(Model()), h) && Valid()
    {
      hide Shape, Agrees, Sound, WellFormed, Slots.DelNodeSlots;
      ghost var v := Model();
      SoundIsWellFormed(v);
      KnownNames(v, h.sender);
      RoleSound(v, h);
      if h.slaveof.None? {
        SetNodeAsMaster(h.sender);
        return;
      }
      if nodes[h.sender].master {
        var _ := DelNodeSlots(h.sender);
        nodes := nodes[h.sender := nodes[h.sender].(master := false)];
      }
      if h.slaveof.value in nodes {
        nodes := nodes[h.sender := nodes[h.sender].(slaveof := h.slaveof)];
      }
    }

    /** `clusterHandleConfigEpochCollision`, with the test its caller makes. */
    method HandleConfigEpochCollision(h: Header)
      requires self in nodes && h.sender in nodes
      modifies this`nodes, this`currentEpoch
      ensures Model() == ResolveCollision(old(Model()), h)
    {
      if !nodes[self].master || !nodes[h.sender].master || h.configEpoch != nodes[self].configEpoch { return; }
      if nodes[h.sender].configEpoch != nodes[self].configEpoch { return; }
      if h.sender <= self { return; }
      Bump();
    }

    /** The node gives itself the next epoch. */
    method Bump()
      requires self in nodes
      modifies this`nodes, this`currentEpoch
      ensures Model() == BumpEpoch(old(Model())) && nodes.Keys == old(nodes.Keys)
    {
      currentEpoch := currentEpoch + 1;
      nodes := nodes[self := nodes[self].(configEpoch := currentEpoch)];
    }

    /** The first node that owns a slot the sender claims under a greater epoch than the sender's. */
    method FindNewerOwner(h: Header) returns (about: Option<Name>)
      requires WellFormed(Model()) && |h.slots| == slots.Length
      ensures about == NewerOwner(Model(), h, 0)
    {
      hide WellFormed;
      OpenArrays(Model());
      var j := 0;
      while j < slots.Length
        invariant 0 <= j <= slots.Length && NewerOwner(Model(), h, j) == NewerOwner(Model(), h, 0)
      {
        OwnerIsKnown(Model(), j);
        if h.slots[j] && slots[j].Some? && slots[j] != Some(h.sender)
           && nodes[slots[j].value].configEpoch > h.configEpoch {
          return slots[j];
        }
        j := j + 1;
      }
      about := None;
    }

    /** The slots in a packet: scanned when they differ from what this node has for the sender or its master.
        `about` is the node the sender is sent an UPDATE about. */
    method NoteClaim(h: Header, countKeysInSlot: nat -> nat)
      returns (cleared: seq<nat>, stopped: bool, about: Option<Name>)
      requires Valid() && h.sender in nodes && h.sender != self && |h.slots| == slots.Length
      modifies this`nodes, this`sets, slots, migrating, importing
      ensures WellFormed(old(Model())) && Model() == ReceiveClaim(old(Model()), h) && Valid()
      ensures self in nodes && h.sender in nodes && stopped == PingClaimStops(old(Model()), h)
      ensures WellFormed(Model()) && SlotCount(Model()) == SlotCount(old(Model()))
      ensures about == if ClaimsDiffer(old(Model()), h) && !stopped then NewerOwner(Model(), h, 0) else None
    {
      hide Shape, Agrees, Sound, WellFormed, UpdateSlots, ClaimStops, Cleared, NewerOwner;
      ghost var v := Model();
      SoundIsWellFormed(v);
      KnownNames(v, h.sender);
      UpdateSlotsSound(v, h.sender, h.configEpoch, h.slots);
      cleared, stopped, about := [], false, None;
      var x := nodes[h.sender];
      if x.slaveof.Some? { KnownNames(v, x.slaveof.value); }
      var differs := (x.master || x.slaveof.Some?)
                     && sets[if x.master then h.sender else x.slaveof.value].bits != h.slots;
      if x.master && differs {
        cleared, stopped := UpdateSlotsConfigWith(h.sender, h.configEpoch, h.slots, countKeysInSlot);
      }
      SoundIsWellFormed(Model());
      if differs && !stopped { about := FindNewerOwner(h); }
    }

    /** PING, PONG and MEET from a known node. */
    method ProcessPing(h: Header, countKeysInSlot: nat -> nat)
      returns (cleared: seq<nat>, stopped: bool, about: Option<Name>)
      requires Valid() && h.sender in nodes && h.sender != self && |h.slots| == slots.Length
      modifies this`nodes, this`sets, this`currentEpoch, slots, migrating, importing
      ensures WellFormed(old(Model())) && Valid() && stopped == PingStops(old(Model()), h)
      ensures Model() == ReceivePing(old(Model()), h)
      ensures about == if stopped then None else ReportsTo(old(Model()), h)
    {
      hide Shape, Agrees, Sound, WellFormed, ReceiveEpochs, ReceiveRole, ReceiveClaim, ResolveCollision, PingClaimStops,
           ClaimsDiffer, NewerOwner;
      ghost var v := Model();
      SoundIsWellFormed(v);
      EpochsSound(v, h);
      PingSound(v, h);
      NoteEpochs(h);
      RoleSound(Model(), h);
      NoteRole(h);
      cleared, stopped, about := NoteClaim(h, countKeysInSlot);
      HandleConfigEpochCollision(h);
    }

    /** A node reported under a newer epoch is a master. */
    method Report(n: Name, epoch: nat)
      requires n in nodes
      modifies this`nodes
      ensures Model() == SetNode(old(Model()), n, Reported(old(nodes[n]), epoch))
    {
      SetNodeAsMaster(n);
      nodes := nodes[n := nodes[n].(configEpoch := epoch)];
    }

    /** UPDATE from a known node, about node `n`. */
    method ProcessUpdate(h: Header, n: Name, epoch: nat, claimed: seq<bool>, countKeysInSlot: nat -> nat)
        returns (cleared: seq<nat>, stopped: bool)
      requires Valid() && h.sender in nodes && |claimed| == slots.Length
      modifies this`nodes, this`sets, this`currentEpoch, slots, migrating, importing
      ensures WellFormed(old(Model())) && Model() == ReceiveUpdate(old(Model()), h, n, epoch, claimed) && Valid()
      ensures stopped == UpdateStops(old(Model()), h, n, epoch, claimed)
    {
      hide Shape, Agrees, Sound, WellFormed, ReceiveEpochs, UpdateSlots, Reported, ClaimStops, Cleared;
      ghost var v := Model();
      SoundIsWellFormed(v);
      EpochsSound(v, h);
      UpdateSound(v, h, n, epoch, claimed);
      NoteEpochs(h);
      ghost var w := Model();
      SoundIsWellFormed(w);
      cleared, stopped := [], false;
      if n !in nodes || nodes[n].configEpoch >= epoch { return; }
      ReportSound(w, n, epoch);
      Report(n, epoch);
      cleared, stopped := UpdateSlotsConfigWith(n, epoch, claimed, countKeysInSlot);
    }

    // ------------------------------------------------------------ elections

    /** The slot loop of `clusterSendFailoverAuthIfNeeded`. */
    method ClaimsAreCurrent(h: Header) returns (ok: bool)
      requires WellFormed(Model()) && |h.slots| == slots.Length
      ensures ok == ClaimIsCurrent(Model(), h)
    {
      var j := 0;
      while j < slots.Length
        invariant 0 <= j <= slots.Length
        invariant forall i :: 0 <= i < j && h.slots[i] && slots[i].Some? ==>
            nodes[slots[i].value].configEpoch <= h.configEpoch
      {
        if h.slots[j] && slots[j].Some? && nodes[slots[j].value].configEpoch > h.configEpoch { return false; }
        j := j + 1;
      }
      return true;
    }

    /** `clusterSendFailoverAuthIfNeeded`: votes for the sender of a request at most once an epoch. */
    method SendFailoverAuthIfNeeded(h: Header, force: bool, now: int, timeout: nat) returns (granted: bool)
      requires Valid() && h.sender in nodes && |h.slots| == slots.Length
      modifies this`nodes, this`lastVoteEpoch
      ensures WellFormed(old(Model())) && granted == Grants(old(Model()), h, force, now, timeout)
      ensures Model() == if granted then CastVote(old(Model()), h, now) else old(Model())
    {
      hide Shape, Agrees, ClaimIsCurrent;
      var x := nodes[h.sender];
      if !nodes[self].master || sets[self].count == 0 { return false; }
      if h.currentEpoch < currentEpoch { return false; }
      if lastVoteEpoch == currentEpoch { return false; }
      if x.master || x.slaveof.None? || (!nodes[x.slaveof.value].failed && !force) { return false; }
      var m := x.slaveof.value;
      if now - nodes[m].votedTime < 2 * timeout { return false; }
      var ok := ClaimsAreCurrent(h);
      if !ok { return false; }
      lastVoteEpoch := currentEpoch;
      nodes := nodes[m := nodes[m].(votedTime := now)];
      return true;
    }

    /** FAILOVER_AUTH_REQUEST from a known node: whether an ACK is sent. */
    method ProcessRequest(h: Header, force: bool, now: int, timeout: nat) returns (granted: bool)
      requires Valid() && h.sender in nodes && |h.slots| == slots.Length
      modifies this`nodes, this`currentEpoch, this`lastVoteEpoch
      ensures WellFormed(old(Model())) && (Model(), granted) == ReceiveRequest(old(Model()), h, force, now, timeout)
    {
      hide Sound, WellFormed, ReceiveEpochs, Grants, CastVote;
      SoundIsWellFormed(Model());
      EpochsSound(Model(), h);
      NoteEpochs(h);
      granted := SendFailoverAuthIfNeeded(h, force, now, timeout);
    }

    /** An ACK counts when its sender is a master serving slots that has reached the election's epoch. */
    method CountAck(h: Header)
      requires h.sender in nodes && h.sender in sets && WellFormed(Model())
      modifies this`authCount
      ensures Model() ==
          if AckCounts(old(Model()), h) then old(Model()).(authCount := old(authCount) + 1) else old(Model())
    {
      hide WellFormed;
      if nodes[h.sender].master && sets[h.sender].count > 0 && h.currentEpoch >= authEpoch {
        authCount := authCount + 1;
      }
    }

    /** FAILOVER_AUTH_ACK from a known node. */
    method ProcessAck(h: Header)
      requires Valid() && h.sender in nodes
      modifies this`nodes, this`currentEpoch, this`authCount
      ensures WellFormed(old(Model())) && Model() == ReceiveAck(old(Model()), h)
    {
      hide Sound, WellFormed, ReceiveEpochs, AckCounts;
      ghost var v := Model();
      SoundIsWellFormed(v);
      EpochsKeepShape(v, h);
      NoteEpochs(h);
      KnownNames(Model(), h.sender);
      CountAck(h);
    }

    /** The promotion in `clusterHandleSlaveFailover`. */
    method TakeOver()
      requires Valid() && self in nodes && !nodes[self].master
      modifies this`nodes, this`sets, slots
      ensures WellFormed(old(Model())) && Model() == Cluster.TakeOver(old(Model()))
    {
      hide Shape, Agrees, Sound, WellFormed, Slots.Rebind, RebindAll;
      ghost var v := Model();
      SoundIsWellFormed(v);
      KnownNames(v, self);
      var oldmaster := nodes[self].slaveof.value;
      KnownNames(v, oldmaster);
      SoundTable(v, oldmaster);
      var mask := sets[oldmaster].bits;
      SetNodeAsMaster(self);
      RebindMarked(mask);
      nodes := nodes[self := nodes[self].(configEpoch := authEpoch)];
    }

    /** Every slot of the old master is rebound to this node. */
    method RebindMarked(mask: seq<bool>)
      requires slots != migrating && slots != importing
      requires Shape(Tab()) && Agrees(Tab()) && self in sets && |mask| == slots.Length
      modifies this`sets, slots
      ensures Tab() == RebindAll(old(Tab()), self, mask, |mask|)
    {
      hide Shape, Agrees, Slots.Rebind, RebindAll;
      ghost var t := Tab();
      RebindAllStep(t, self, mask, 0);
      var j := 0;
      while j < slots.Length
        invariant 0 <= j <= slots.Length
        invariant Tab() == RebindAll(t, self, mask, j) && Shape(Tab()) && self in sets
      {
        if mask[j] { Rebind(self, j); }
        RebindAllStep(t, self, mask, j + 1);
        j := j + 1;
      }
    }

    /** `clusterHandleSlaveFailover`; `asks` when it broadcasts a request, `wins` when it promotes itself. */
    method HandleSlaveFailover(c: Clock) returns (asks: bool, wins: bool)
      requires Valid()
      modifies this`nodes, this`sets, slots, this`currentEpoch, this`authTime, this`authEpoch, this`authCount,
          this`authSent
      ensures WellFormed(old(Model())) && Valid() && Model() == HandleFailover(old(Model()), c)
      ensures asks == FailoverBranch(old(Model()), c).Request? && wins == FailoverBranch(old(Model()), c).Promote?
    {
      hide Shape, Agrees, Sound, WellFormed, Cluster.TakeOver;
      ghost var v := Model();
      SoundIsWellFormed(v);
      KnownNames(v, self);
      FailoverSound(v, c);
      asks, wins := false, false;
      var age, manual := c.now - authTime, c.manualSet && c.manualReady;
      var timeout := if 2 * c.timeout < 2000 then 2000 else 2 * c.timeout;
      if nodes[self].master { return; }
      var master := nodes[self].slaveof.value;
      KnownNames(v, master);
      if (!nodes[master].failed && !manual) || sets[master].count == 0 { return; }
      if !c.dataRecent && !manual { return; }
      if age > 2 * timeout {
        authTime := if c.manualSet then c.now else c.now + c.delay;
        authCount, authSent := 0, false;
        return;
      }
      if !authSent && !c.manualSet { authTime := authTime + c.addedDelay; }
      if c.now < authTime || age > timeout { return; }
      if !authSent {
        currentEpoch := currentEpoch + 1;
        authEpoch, authSent, asks := currentEpoch, true, true;
        return;
      }
      if authCount >= size / 2 + 1 {
        TakeOver();
        wins := true;
      }
    }

    // ------------------------------------------------------------ administration

    /** `clusterDelNode`: the loop over the slots, and then the node is taken out of the node table. */
    method DelNode(n: Name)
      requires Valid() && n in nodes && n != self
      modifies this`nodes, this`sets, slots, migrating, importing
      ensures WellFormed(old(Model())) && Model() == Forget(old(Model()), n)
      ensures Valid() <==> Unreplicated(old(Model()), n)
    {
      hide Shape, Agrees, Sound, WellFormed, DelAll, State.Tab, Unreplicated, Cancel;
      ghost var v := Model();
      SoundIsWellFormed(v);
      OpenArrays(v);
      ForgetSound(v, n);
      TabIs(0);
      UnassignNode(n);
      TabIs(0);
      nodes, sets := nodes - {n}, sets - {n};
    }

    /** Migrations from or to the node are cancelled and its slots unassigned. */
    method UnassignNode(n: Name)
      requires slots != migrating && slots != importing && migrating != importing
      requires Shape(Tab()) && Agrees(Tab()) && migrating.Length == importing.Length == slots.Length
      modifies this`sets, slots, migrating, importing
      ensures Tab() == DelAll(old(Tab()), OwnedBy(old(Tab()), n), slots.Length)
      ensures importing[..] == Cancel(old(importing[..]), n) && migrating[..] == Cancel(old(migrating[..]), n)
    {
      hide Shape, Agrees, DelAll, State.Tab, Cancel, Cancelled;
      ghost var t, from, to := Tab(), importing[..], migrating[..];
      TabIs(0);
      DelMarkedStep(t, OwnedBy(t, n), 0);
      CancelledEnds(from, from, n);
      CancelledEnds(to, to, n);
      var j := 0;
      while j < slots.Length
        invariant 0 <= j <= slots.Length && Tab() == DelAll(t, OwnedBy(t, n), j)
        invariant Cancelled(importing[..], from, n, j) && Cancelled(migrating[..], to, n, j)
      {
        CancelRound(importing, n, j, from);
        CancelRound(migrating, n, j, to);
        TabIs(0);
        ForgetRound(n, j, t);
        j := j + 1;
      }
      CancelledEnds(importing[..], from, n);
      CancelledEnds(migrating[..], to, n);
    }

    /** One round: slot `j` is no longer open from or to the node. */
    static method CancelRound(open: array<Option<Name>>, n: Name, j: nat, ghost was: seq<Option<Name>>)
      requires j < |was| && Cancelled(open[..], was, n, j)
      modifies open
      ensures Cancelled(open[..], was, n, j + 1)
    {
      if open[j] == Some(n) { open[j] := None; }
    }

    /** One round: slot `j` is unassigned when the node owns it. */
    method ForgetRound(n: Name, j: nat, ghost t: Table)
      requires slots != migrating && slots != importing
      requires Shape(t) && Agrees(t) && |t.owner| == slots.Length && j < slots.Length
      requires Tab() == DelAll(t, OwnedBy(t, n), j)
      modifies this`sets, slots
      ensures Tab() == DelAll(t, OwnedBy(t, n), j + 1)
    {
      hide Shape, Agrees, Slots.DelSlot, DelAll;
      ghost var mask := OwnedBy(t, n);
      DelMarkedStep(t, mask, j);
      DelMarkedStep(t, mask, j + 1);
      if slots[j] == Some(n) { var _ := DelSlot(j); }
    }

    /** `clusterGetMaxEpoch`. */
    method GetMaxEpoch() returns (max: nat)
      ensures max == MaxEpoch(Model())
    {
      max := 0;
      var rest := nodes.Keys;
      while rest != {}
        invariant rest <= nodes.Keys
        invariant forall n :: n in nodes && n !in rest ==> nodes[n].configEpoch <= max
        invariant max == 0 || exists n :: n in nodes && nodes[n].configEpoch == max
        decreases |rest|
      {
        var n :| n in rest;
        if nodes[n].configEpoch > max { max := nodes[n].configEpoch; }
        rest := rest - {n};
      }
      if max < currentEpoch { max := currentEpoch; }
    }

    /** What CLUSTER SETSLOT slot NODE n ends before it rebinds the slot. */
    method CloseSlot(slot: nat, n: Name, keysInSlot: nat)
      requires Valid() && slot < slots.Length
      modifies this`nodes, this`currentEpoch, migrating, importing
      ensures WellFormed(old(Model())) && Model() == Closed(old(Model()), slot, n, keysInSlot)
      ensures nodes.Keys == old(nodes.Keys)
    {
      hide Shape, Agrees, Sound, WellFormed, MaxEpoch;
      SoundIsWellFormed(Model());
      OpenArrays(Model());
      if keysInSlot == 0 {
        migrating[slot] := None;
        assert migrating[..] == old(migrating[..])[slot := None];
      }
      if n == self && importing[slot].Some? {
        var max := GetMaxEpoch();
        if nodes[self].configEpoch == 0 || nodes[self].configEpoch != max { Bump(); }
        importing[slot] := None;
        assert importing[..] == old(importing[..])[slot := None];
      }
    }

    /** CLUSTER SETSLOT slot NODE n. */
    method SetSlotNode(slot: nat, n: Name, keysInSlot: nat) returns (ok: bool)
      requires Valid() && slot < slots.Length
      modifies this`nodes, this`sets, this`currentEpoch, slots, migrating, importing
      ensures WellFormed(old(Model())) && Model() == Cluster.SetSlotNode(old(Model()), slot, n, keysInSlot)
      ensures Valid() && ok == Assigns(old(Model()), slot, n, keysInSlot)
      ensures Slotless(old(Model())) ==> (Slotless(Model()) <==> n != self || Me(old(Model())).master)
    {
      hide Shape, Agrees, Sound, WellFormed, Slots.Rebind, Closed, Slotless;
      ghost var v := Model();
      SoundIsWellFormed(v);
      AssignSound(v, slot, n, keysInSlot);
      AssignSlotless(v, slot, n, keysInSlot);
      if n !in nodes { return false; }
      KnownNames(v, n);
      if slots[slot] == Some(self) && n != self && keysInSlot != 0 { return false; }
      CloseSound(v, slot, n, keysInSlot);
      CloseSlot(slot, n, keysInSlot);
      Rebind(n, slot);
      return true;
    }
  }

  // ---------------------------------------------------------------- senders with an old configuration

  /** The sender claims slot `j`, which another node owns under a greater epoch. */
  predicate Outdated(v: View, h: Header, j: nat)
    requires WellFormed(v) && |h.slots| == SlotCount(v) && j < SlotCount(v)
  {
    && h.slots[j] && v.table.owner[j].Some? && v.table.owner[j] != Some(h.sender)
    && v.nodes[v.table.owner[j].value].configEpoch > h.configEpoch
  }

  function NewerOwner(v: View, h: Header, j: nat): Option<Name>
    requires WellFormed(v) && |h.slots| == SlotCount(v)
    decreases SlotCount(v) - j
  {
    if j >= SlotCount(v) then None else if Outdated(v, h, j) then v.table.owner[j] else NewerOwner(v, h, j + 1)
  }

  /** The node the sender of a ping is sent an UPDATE about. */
  ghost function ReportsTo(v: View, h: Header): Option<Name>
    requires WellFormed(v) && h.sender in v.nodes && h.sender != v.self && |h.slots| == SlotCount(v)
    requires Sound(v)
  {
    EpochsSound(v, h);
    RoleSound(ReceiveEpochs(v, h), h);
    var w := ReceiveRole(ReceiveEpochs(v, h), h);
    UpdateSlotsSound(w, h.sender, h.configEpoch, h.slots);
    if ClaimsDiffer(w, h) then NewerOwner(ReceiveClaim(w, h), h, 0) else None
  }

  /** An UPDATE is about the owner of the first outdated slot, and is sent exactly when there is one. */
  lemma {:induction false} NewerOwnerIs(v: View, h: Header, j: nat)
    requires WellFormed(v) && |h.slots| == SlotCount(v) && j <= SlotCount(v)
    ensures match NewerOwner(v, h, j)
            case None => forall i :: j <= i < SlotCount(v) ==> !Outdated(v, h, i)
            case Some(n) =>
              exists k :: j <= k < SlotCount(v) && Outdated(v, h, k) && v.table.owner[k] == Some(n)
                          && forall i :: j <= i < k ==> !Outdated(v, h, i)
    decreases SlotCount(v) - j
  {
    hide WellFormed, Outdated;
    if j < SlotCount(v) {
      if Outdated(v, h, j) {
        OutdatedHasOwner(v, h, j);
      } else {
        NewerOwnerIs(v, h, j + 1);
      }
    }
  }

  lemma OutdatedHasOwner(v: View, h: Header, j: nat)
    requires WellFormed(v) && |h.slots| == SlotCount(v) && j < SlotCount(v) && Outdated(v, h, j)
    ensures v.table.owner[j].Some?
  {
  }

  lemma OwnerIsKnown(v: View, j: nat)
    requires WellFormed(v) && j < SlotCount(v)
    ensures v.table.owner[j].Some? ==> v.table.owner[j].value in v.nodes
  {
  }

  // ---------------------------------------------------------------- what the proofs use

  /** In a sound view the slot table is well shaped, and every bitmap has one bit a slot. */
  lemma SoundTable(v: View, n: Name)
    requires Sound(v) && n in v.table.sets
    ensures WellFormed(v) && Shape(v.table) && Agrees(v.table) && |v.table.sets[n].bits| == SlotCount(v) && n in v.nodes
  {
  }

  /** One round of the deletion loop; node `n`'s bit `k` is untouched. */
  lemma DelAllStep(t: Table, mask: Bitmap, k: nat, n: Name)
    requires Shape(t) && Agrees(t) && |mask| == |t.owner| && k <= |mask| && n in t.sets
    ensures var u := DelAll(t, mask, k);
      && n in u.sets && |u.sets[n].bits| == |t.owner| == |t.sets[n].bits|
      && (k < |t.owner| ==> u.sets[n].bits[k] == t.sets[n].bits[k])
      && u == if k == 0 then t else
              var before := DelAll(t, mask, k - 1);
              if mask[k - 1] then DelSlot(before, k - 1) else before
  {
    DelAllAgrees(t, mask, k);
    var u := DelAll(t, mask, k);
    assert SetAgrees(t.owner, n, t.sets[n]) && SetAgrees(u.owner, n, u.sets[n]);
  }

  lemma TakenIs(v: View, n: Name, epoch: nat, claimed: Bitmap, j: nat)
    requires WellFormed(v) && |claimed| == SlotCount(v) && j < SlotCount(v)
    ensures |v.importing| == SlotCount(v) && (v.table.owner[j].Some? ==> v.table.owner[j].value in v.nodes)
    ensures |TakenMask(v, n, epoch, claimed)| == SlotCount(v)
    ensures TakenMask(v, n, epoch, claimed)[j] <==>
      && claimed[j] && v.table.owner[j] != Some(n) && v.importing[j].None?
      && (v.table.owner[j].None? || v.nodes[v.table.owner[j].value].configEpoch < epoch)
  {
  }

  /** One round of the rebinding loop; the owners from `k` on are untouched. */
  lemma RebindAllStep(t: Table, n: Name, mask: Bitmap, k: nat)
    requires Shape(t) && Agrees(t) && |mask| == |t.owner| && k <= |mask| && n in t.sets
    ensures var u := RebindAll(t, n, mask, k);
      && (k < |t.owner| ==> u.owner[k] == t.owner[k])
      && u == if k == 0 then t else
              var before := RebindAll(t, n, mask, k - 1);
              if mask[k - 1] then Slots.Rebind(before, n, k - 1) else before
  {
    hide Slots.Rebind, Agrees, Shape;
    RebindAllAgrees(t, n, mask, k);
  }

  predicate LosesBelow(owner: seq<Option<Name>>, mask: Bitmap, current: Name, k: nat)
    requires |mask| == |owner| && k <= |mask|
  {
    k > 0 && (LosesBelow(owner, mask, current, k - 1) || (mask[k - 1] && owner[k - 1] == Some(current)))
  }

  /** The marked slots below `k` that `self` owns and that hold keys. */
  function DirtyBelow(owner: seq<Option<Name>>, mask: Bitmap, self: Name, keys: nat -> nat, k: nat): seq<nat>
    requires |mask| == |owner| && k <= |mask|
  {
    if k == 0 then []
    else
      DirtyBelow(owner, mask, self, keys, k - 1)
      + if mask[k - 1] && owner[k - 1] == Some(self) && keys(k - 1) != 0 then [k - 1] else []
  }

  lemma MaskSize(v: View, n: Name, epoch: nat, claimed: Bitmap)
    requires WellFormed(v) && |claimed| == SlotCount(v)
    ensures |TakenMask(v, n, epoch, claimed)| == SlotCount(v)
  {
  }

  lemma NothingBelow(owner: seq<Option<Name>>, mask: Bitmap, current: Name, self: Name, keys: nat -> nat)
    requires |mask| == |owner|
    ensures !LosesBelow(owner, mask, current, 0) && DirtyBelow(owner, mask, self, keys, 0) == []
  {
  }

  lemma OneMore(owner: seq<Option<Name>>, mask: Bitmap, current: Name, self: Name, keys: nat -> nat, j: nat)
    requires |mask| == |owner| && j < |mask|
    ensures LosesBelow(owner, mask, current, j + 1) <==>
      LosesBelow(owner, mask, current, j) || (mask[j] && owner[j] == Some(current))
    ensures DirtyBelow(owner, mask, self, keys, j + 1) == DirtyBelow(owner, mask, self, keys, j)
      + if mask[j] && owner[j] == Some(self) && keys(j) != 0 then [j] else []
  {
  }

  lemma {:induction false} DirtyIs(owner: seq<Option<Name>>, mask: Bitmap, self: Name, keys: nat -> nat, k: nat)
    requires |mask| == |owner| && k <= |mask|
    ensures forall j: nat :: j in DirtyBelow(owner, mask, self, keys, k) <==>
      j < k && mask[j] && owner[j] == Some(self) && keys(j) != 0
  {
    if k > 0 { DirtyIs(owner, mask, self, keys, k - 1); }
  }

  lemma {:induction false} LosesBelowIs(owner: seq<Option<Name>>, mask: Bitmap, current: Name, k: nat)
    requires |mask| == |owner| && k <= |mask|
    ensures LosesBelow(owner, mask, current, k) <==> exists j :: 0 <= j < k && mask[j] && owner[j] == Some(current)
  {
    if k > 0 { LosesBelowIs(owner, mask, current, k - 1); }
  }

  lemma LosesIs(v: View, mask: Bitmap, current: Name)
    requires WellFormed(v) && |mask| == SlotCount(v) && current == CurrentMaster(v)
    ensures current in v.nodes
    ensures Loses(v, mask) <==> LosesBelow(v.table.owner, mask, current, SlotCount(v))
  {
    hide LosesBelow;
    LosesBelowIs(v.table.owner, mask, current, SlotCount(v));
  }

  lemma LostAll(v: View, n: Name, epoch: nat, claimed: Bitmap)
    requires Sound(v) && WellFormed(v) && n in v.nodes && n != v.self && |claimed| == SlotCount(v)
    ensures v.self in v.table.sets && CurrentMaster(v) in v.table.sets
    ensures var w := TakeSlots(v, n, epoch, claimed);
      && WellFormed(w) && w.nodes == v.nodes && w.self == v.self && w.table.sets.Keys == v.table.sets.Keys
  {
    hide Shape, Agrees, WellFormed, Sound, TakeSlots;
    SoundIsWellFormed(v);
    KnownNames(v, v.self);
    TakeSlotsGain(v, n, epoch, claimed);
    KnownNames(v, CurrentMaster(v));
    SameSets(v, TakeSlots(v, n, epoch, claimed));
  }

  lemma SameSets(v: View, w: View)
    requires WellFormed(v) && WellFormed(w) && w.nodes == v.nodes
    ensures w.table.sets.Keys == v.table.sets.Keys
  {
  }

  /** Slot `j` is taken from this node while it holds keys there, and the node does not turn to its successor. */
  predicate Cleared(v: View, n: Name, epoch: nat, claimed: Bitmap, keys: nat -> nat, j: nat)
    requires WellFormed(v) && n in v.nodes && |claimed| == SlotCount(v)
  {
    && n != v.self && j < SlotCount(v) && Taken(v, n, epoch, claimed, j)
    && v.table.owner[j] == Some(v.self) && keys(j) != 0
    && !Dethroned(v, n, epoch, claimed)
  }

  lemma ClearedIs(v: View, n: Name, epoch: nat, claimed: Bitmap, keys: nat -> nat)
    requires WellFormed(v) && n in v.nodes && |claimed| == SlotCount(v)
    ensures |TakenMask(v, n, epoch, claimed)| == SlotCount(v)
    ensures var dirty := DirtyBelow(v.table.owner, TakenMask(v, n, epoch, claimed), v.self, keys, SlotCount(v));
      forall j: nat :: Cleared(v, n, epoch, claimed, keys, j) <==>
        n != v.self && !Dethroned(v, n, epoch, claimed) && j in dirty
  {
    hide Shape, Dethroned;
    DirtyIs(v.table.owner, TakenMask(v, n, epoch, claimed), v.self, keys, SlotCount(v));
  }

  /** The slots that had an owner and have none now. */
  function Lost(before: seq<Option<Name>>, after: seq<Option<Name>>): Bitmap
    requires |before| == |after|
  {
    seq(|before|, j requires 0 <= j < |before| => before[j].Some? && after[j].None?)
  }

  function Unassigned(before: seq<Option<Name>>, after: seq<Option<Name>>): nat
    requires |before| == |after|
  {
    Count(Lost(before, after))
  }

  lemma {:induction false} CountIsAll(b: Bitmap)
    ensures Count(b) <= |b|
    ensures Count(b) == |b| <==> forall j :: 0 <= j < |b| ==> b[j]
  {
    if b != [] {
      var init := b[..|b| - 1];
      CountIsAll(init);
      assert forall j :: 0 <= j < |init| ==> init[j] == b[j];
    }
  }

  lemma DeletedAre(t: Table, n: Name)
    requires Agrees(t) && Shape(t) && n in t.sets
    ensures var u := Slots.DelNodeSlots(t, n);
      |t.owner| == Unassigned(t.owner, u.owner) <==> forall j :: 0 <= j < |t.owner| ==> t.owner[j] == Some(n)
  {
    hide Agrees, Shape, Slots.DelNodeSlots;
    DelNodeSlotsAgrees(t, n);
    var u := Slots.DelNodeSlots(t, n);
    var lost := Lost(t.owner, u.owner);
    CountIsAll(lost);
    if forall j :: 0 <= j < |lost| ==> lost[j] {
      forall j | 0 <= j < |t.owner| ensures t.owner[j] == Some(n) {
        assert lost[j];
      }
    }
  }

  /** CLUSTER SETSLOT slot NODE n is accepted. */
  predicate Assigns(v: View, j: nat, n: Name, keys: nat)
    requires j < SlotCount(v)
  {
    n in v.nodes && !(v.table.owner[j] == Some(v.self) && n != v.self && keys != 0)
  }

  lemma AssignSlotless(v: View, j: nat, n: Name, keys: nat)
    requires Sound(v) && WellFormed(v) && j < SlotCount(v)
    ensures var w := SetSlotNode(v, j, n, keys);
      w.self in w.nodes && (Slotless(v) ==> (Slotless(w) <==> n != v.self || Me(v).master))
  {
    hide Sound, WellFormed, Slotless, SetSlotNode;
    EventSound(v, AssignSlot(j, n, keys));
    SoundIsWellFormed(v);
    SoundIsWellFormed(SetSlotNode(v, j, n, keys));
    if Slotless(v) { SlotlessIff(v, AssignSlot(j, n, keys)); }
  }

  lemma OpenArrays(v: View)
    requires WellFormed(v)
    ensures |v.migrating| == |v.importing| == SlotCount(v)
  {
  }

  lemma ReportSound(v: View, n: Name, epoch: nat)
    requires Sound(v) && n in v.nodes
    ensures Sound(SetNode(v, n, Reported(v.nodes[n], epoch)))
  {
    hide Sound, WellFormed;
    SoundIsWellFormed(v);
    KnownNames(v, n);
    KnownNames(v, v.self);
    SetNodeSound(v, n, Reported(v.nodes[n], epoch));
  }

  /** One round of the deletion loop; the owner of slot `k` is untouched. */
  lemma DelMarkedStep(t: Table, mask: Bitmap, k: nat)
    requires Shape(t) && Agrees(t) && |mask| == |t.owner| && k <= |mask|
    ensures var u := DelAll(t, mask, k);
      && (k < |t.owner| ==> u.owner[k] == t.owner[k])
      && u == if k == 0 then t else
              var before := DelAll(t, mask, k - 1);
              if mask[k - 1] then DelSlot(before, k - 1) else before
  {
    hide DelSlot, Agrees, Shape;
    DelAllAgrees(t, mask, k);
  }

  /** The first `j` slots of `was` are cancelled in `now`, the others as they were. */
  ghost predicate Cancelled(now: seq<Option<Name>>, was: seq<Option<Name>>, n: Name, j: nat) {
    && |now| == |was|
    && forall i :: 0 <= i < |now| ==> now[i] == if i < j && was[i] == Some(n) then None else was[i]
  }

  lemma CancelledEnds(now: seq<Option<Name>>, was: seq<Option<Name>>, n: Name)
    ensures Cancelled(was, was, n, 0)
    ensures Cancelled(now, was, n, |was|) ==> now == Cancel(was, n)
  {
  }
}
