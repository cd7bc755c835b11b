/** What the CLUSTER commands do to the owners and migrations, and how a finished import prevails. */
module SlotCommands {
  import opened Options
  import opened Slots
  import opened Cluster
  import opened NodeRuns
  import opened ClusterNet
  import opened EpochBound
  import opened Succession

  // ---------------------------------------------------------------- opening and closing

  /** A slot is opened for migration only by its owner and for import only by another node, and only towards a
      known node; STABLE closes both. Nothing else changes. */
  lemma OpeningIsGuarded(v: View, j: nat, n: Name)
    requires WellFormed(v) && j < SlotCount(v)
    ensures |v.migrating| == |v.importing| == SlotCount(v)
    ensures SetSlotMigrating(v, j, n).migrating[j] == (if v.table.owner[j] == Some(v.self) && n in v.nodes then Some(n)
                                                       else v.migrating[j])
    ensures SetSlotMigrating(v, j, n) == v.(migrating := v.migrating[j := SetSlotMigrating(v, j, n).migrating[j]])
    ensures SetSlotImporting(v, j, n).importing[j] == (if v.table.owner[j] != Some(v.self) && n in v.nodes then Some(n)
                                                       else v.importing[j])
    ensures SetSlotImporting(v, j, n) == v.(importing := v.importing[j := SetSlotImporting(v, j, n).importing[j]])
    ensures SetSlotStable(v, j) == v.(migrating := v.migrating[j := None], importing := v.importing[j := None])
  {
    hide Shape;
    assert v.migrating[j := v.migrating[j]] == v.migrating && v.importing[j := v.importing[j]] == v.importing;
  }

  /** A slot can be handed to a node that is known, but not away from this node while it holds keys of it. */
  predicate MayHand(v: View, j: nat, n: Name, keys: nat)
    requires j < SlotCount(v)
  {
    n in v.nodes && (v.table.owner[j] == Some(v.self) && n != v.self ==> keys == 0)
  }

  /** SETSLOT NODE: a refused command changes nothing; otherwise exactly this slot changes hands, its migration is
      closed when no key is left here, and its import when this node gets it. */
  lemma HandsOver(v: View, j: nat, n: Name, keys: nat)
    requires Sound(v) && WellFormed(v) && j < SlotCount(v)
    ensures |v.migrating| == |v.importing| == SlotCount(v)
    ensures var w := SetSlotNode(v, j, n, keys);
      if !MayHand(v, j, n, keys) then w == v
      else
        && w.table.owner == v.table.owner[j := Some(n)]
        && w.migrating == (if keys == 0 then v.migrating[j := None] else v.migrating)
        && w.importing == (if n == v.self then v.importing[j := None] else v.importing)
        && (n != v.self || v.importing[j].None? ==> w.nodes == v.nodes && w.currentEpoch == v.currentEpoch)
        && w.nodes.Keys == v.nodes.Keys
        && forall k :: k in v.nodes && k != v.self ==> w.nodes[k] == v.nodes[k]
  {
    hide Agrees, Shape, Rebind, MaxEpoch;
    SoundIsWellFormed(v);
    if n in v.nodes { RebindAgrees(v.table, n, j); }
    assert v.importing[j].None? ==> v.importing[j := None] == v.importing;
  }

  // ---------------------------------------------------------------- a finished import

  /** This node has the greatest epoch it knows, and so has the other one. */
  predicate Tied(v: View, n: Name)
    requires v.self in v.nodes && n in v.nodes
  {
    Me(v).configEpoch == v.nodes[n].configEpoch == v.currentEpoch != 0
  }

  /** After it is handed the slot it imports, a node's epoch is at least every epoch it knows; it is greater than
      another node's exactly when the two were not tied for the greatest epoch before. */
  lemma ImportHasNewestEpoch(v: View, j: nat, keys: nat, n: Name)
    requires Sound(v) && WellFormed(v) && Bounded(v) && j < SlotCount(v) && n in v.nodes && n != v.self
    requires j < |v.importing| && v.importing[j].Some?
    ensures var w := SetSlotNode(v, j, v.self, keys);
      && w.self in w.nodes && n in w.nodes && Bounded(w)
      && w.nodes[n].configEpoch <= Me(w).configEpoch
      && (w.nodes[n].configEpoch < Me(w).configEpoch <==> !Tied(v, n))
      && Me(w) == Me(v).(configEpoch := Me(w).configEpoch)
  {
    hide Agrees, Shape, Rebind, MaxEpoch;
    var u := if keys == 0 then v.(migrating := v.migrating[j := None]) else v;
    MaxEpochIsCurrent(u);
  }

  /** Another node that hears the next ping of a master that was handed the slot it imports gives it the slot, unless
      it imports the slot itself or knows its owner under an epoch as new as the master's. */
  lemma HandoverIsHeard(v: View, j: nat, keys: nat, u: View)
    requires Sound(v) && WellFormed(v) && j < SlotCount(v) && Me(v).master && Me(v).slaveof.None?
    requires Sound(u) && WellFormed(u) && u.self != v.self && v.self in u.nodes && SlotCount(u) == SlotCount(v)
    requires var w := SetSlotNode(v, j, v.self, keys); w.self in w.nodes && Yields(u, j, Me(w).configEpoch)
    ensures var w := SetSlotNode(v, j, v.self, keys);
      && WellFormed(w) && |BuildHeader(w).slots| == SlotCount(u) && BuildHeader(w).sender == v.self
      && var t := ReceivePing(u, BuildHeader(w));
         j < SlotCount(t) && t.table.owner[j] == Some(v.self)
  {
    hide Agrees, Shape, WellFormed, Sound, SetSlotNode, ReceivePing;
    SoundIsWellFormed(v);
    AssignSound(v, j, v.self, keys);
    HandsOver(v, j, v.self, keys);
    var w := SetSlotNode(v, j, v.self, keys);
    SoundIsWellFormed(w);
    HandsToMaster(v, j, keys);
    HeaderSize(w);
    BitsAreOwners(w.table, w.self);
    assert BuildHeader(w).slots[j];
    PingRebinds(u, BuildHeader(w), j);
  }

  lemma HandsToMaster(v: View, j: nat, keys: nat)
    requires Sound(v) && WellFormed(v) && j < SlotCount(v) && Me(v).master
    ensures var w := SetSlotNode(v, j, v.self, keys);
      && w.self == v.self && v.self in w.nodes && w.nodes[v.self].master && w.nodes[v.self].slaveof == Me(v).slaveof
      && SlotCount(w) == SlotCount(v)
  {
    hide Agrees, Shape, Rebind, MaxEpoch;
    RebindAgrees(v.table, v.self, j);
  }

  // ---------------------------------------------------------------- single slots

  /** ADDSLOTS takes an unassigned slot and ends its import, and refuses an assigned one; DELSLOTS unassigns a slot
      and ends its import. No other slot changes. */
  lemma AddsAndDeletes(v: View, j: nat)
    requires Sound(v) && WellFormed(v) && j < SlotCount(v)
    ensures |v.importing| == SlotCount(v)
    ensures var w := AddSlotHere(v, j);
      if v.table.owner[j].Some? then w == v
      else w == v.(table := w.table, importing := v.importing[j := None])
           && w.table.owner == v.table.owner[j := Some(v.self)]
    ensures var w := DelSlotHere(v, j);
      if v.table.owner[j].None? then w == v
      else w == v.(table := w.table, importing := v.importing[j := None]) && w.table.owner == v.table.owner[j := None]
  {
    hide Agrees, Shape, AddSlot, DelSlot;
    SoundIsWellFormed(v);
    AddSlotAgrees(v.table, v.self, j);
    DelSlotAgrees(v.table, j);
  }

  /** Adding an unassigned slot and deleting it again leaves the owners as they were. */
  lemma AddThenDelete(v: View, j: nat)
    requires Sound(v) && WellFormed(v) && j < SlotCount(v) && v.table.owner[j].None?
    ensures var w := AddSlotHere(v, j);
      WellFormed(w) && SlotCount(w) == SlotCount(v) && DelSlotHere(w, j).table.owner == v.table.owner
  {
    hide Agrees, Shape, AddSlotHere, DelSlotHere;
    AddSlotSound(v, j);
    AddsAndDeletes(v, j);
    var w := AddSlotHere(v, j);
    SoundIsWellFormed(w);
    AddsAndDeletes(w, j);
    assert v.table.owner[j := Some(v.self)][j := None] == v.table.owner;
  }

  // ---------------------------------------------------------------- nodes

  /** REPLICATE is obeyed exactly when the node named is another, known master and this node owns no slot and, as a
      master, holds no key; it then replicates that node, and a master that turns replica closes its migrations. */
  lemma ReplicatesIff(v: View, n: Name, keys: nat)
    requires Sound(v) && WellFormed(v)
    ensures var w := Replicated(v, n, keys);
      if && n in v.nodes && n != v.self && v.nodes[n].slaveof.None?
         && (Me(v).master ==> keys == 0)
         && (forall j :: 0 <= j < SlotCount(v) ==> v.table.owner[j] != Some(v.self))
      then
        && w.nodes == v.nodes[v.self := Me(v).(master := false, slaveof := Some(n))]
        && w == v.(nodes := w.nodes, migrating := w.migrating, importing := w.importing)
        && if Me(v).master then w.migrating == w.importing == NoneOpen(SlotCount(v))
           else w.migrating == v.migrating && w.importing == v.importing
      else w == v
  {
    hide Agrees, Shape;
    CountIsZero(v.table, v.self);
  }

  /** Forgetting a node drops it, its slots, and the migrations from and to it; nothing else. This node and the
      master it replicates cannot be forgotten. */
  lemma Forgets(v: View, n: Name)
    requires Sound(v) && WellFormed(v) && n in v.nodes
    ensures MayForget(v, n) <==> n != v.self && (Me(v).master || Me(v).slaveof != Some(n))
    ensures var w := Forget(v, n);
      && w.nodes == v.nodes - {n} && w.table.sets.Keys == v.table.sets.Keys - {n}
      && w == v.(nodes := w.nodes, table := w.table, migrating := w.migrating, importing := w.importing)
      && |w.table.owner| == |w.migrating| == |w.importing| == SlotCount(v) == |v.migrating| == |v.importing|
      && forall j :: 0 <= j < SlotCount(v) ==>
           && w.table.owner[j] == (if v.table.owner[j] == Some(n) then None else v.table.owner[j])
           && w.migrating[j] == (if v.migrating[j] == Some(n) then None else v.migrating[j])
           && w.importing[j] == (if v.importing[j] == Some(n) then None else v.importing[j])
  {
    hide Agrees, Shape, DelAll;
    DelAllAgrees(v.table, OwnedBy(v.table, n), SlotCount(v));
  }

  /** A node met for the first time is not failing, owns nothing and has epoch 0; nothing else changes. */
  lemma Learns(v: View, n: Name, master: bool)
    requires Sound(v) && WellFormed(v)
    ensures var w := Learn(v, n, master);
      if n in v.nodes then w == v
      else
        && n in w.nodes && w.nodes == v.nodes[n := w.nodes[n]] && w == v.(nodes := w.nodes, table := w.table)
        && w.table.owner == v.table.owner && n in w.table.sets && w.table.sets[n].count == 0
        && w.nodes[n].configEpoch == 0 && w.nodes[n].master == master && w.nodes[n].slaveof.None? && !w.nodes[n].failed
  {
    hide Agrees, Shape;
  }

  /** The cluster's size is the number of masters that own a slot. */
  lemma SizeIsServing(v: View, n: Name)
    requires Sound(v) && WellFormed(v)
    ensures Apply(v, Recount) == v.(size := |Serving(v)|)
    ensures n in Serving(v) <==>
            n in v.nodes && v.nodes[n].master && exists j :: 0 <= j < SlotCount(v) && v.table.owner[j] == Some(n)
  {
    hide Agrees, Shape;
    if n in v.nodes { CountIsZero(v.table, n); }
  }

  /** A node is flagged as failing, or no longer, as it was reported. */
  lemma FlagIsSet(v: View, n: Name, failed: bool)
    requires WellFormed(v) && n in v.nodes
    ensures var w := Apply(v, Failing(n, failed));
      w == v.(nodes := w.nodes) && w.nodes == v.nodes[n := v.nodes[n].(failed := failed)]
  {
  }
}
