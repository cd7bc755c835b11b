/** Who owns the slots after a failover: the winner takes over its old master's slots, the nodes that hear it
    follow, and a node whose last slot was taken becomes a replica of the one that took it. */
module Succession {
  import opened Options
  import opened Slots
  import opened Cluster
  import opened NodeRuns
  import opened Claims
  import opened ClusterNet

  // ---------------------------------------------------------------- when a replica acts

  /** The replica has a reason to replace its master: the master has slots and is failing, or a manual failover
      may start; and its data is recent, unless the failover is manual. */
  predicate MayAct(v: View, c: Clock)
    requires WellFormed(v)
  {
    var manual := c.manualSet && c.manualReady;
    && !Me(v).master
    && (v.nodes[CurrentMaster(v)].failed || manual)
    && SlotsOf(v, CurrentMaster(v)).count != 0
    && (c.dataRecent || manual)
  }

  /** An election lives from its start for twice the node timeout, and at least two seconds. */
  function Lifetime(c: Clock): int {
    if c.timeout < 1000 then 2000 else 2 * c.timeout
  }

  /** A replica that may act schedules an election once the last one is twice a lifetime old, asks for votes
      when its time has come and wins with a majority of the masters, both only within one lifetime; a
      replica that may not act does nothing. */
  lemma BranchMeans(v: View, c: Clock)
    requires WellFormed(v)
    ensures FailoverBranch(v, c) == Idle <==> !MayAct(v, c)
    ensures FailoverBranch(v, c) == Schedule <==> MayAct(v, c) && c.now - v.authTime > 2 * Lifetime(c)
    ensures FailoverBranch(v, c) == Request <==>
            MayAct(v, c) && !v.authSent && HandleFailover(v, c).authTime <= c.now <= v.authTime + Lifetime(c)
    ensures FailoverBranch(v, c) == Promote <==>
            MayAct(v, c) && v.authSent && 2 * v.authCount > v.size && v.authTime <= c.now <= v.authTime + Lifetime(c)
  {
    hide Shape, RebindAll;
  }

  /** What the branches short of a promotion change: the delay of an election that is not under way, its
      schedule, or its start in a new epoch. */
  lemma BranchChanges(v: View, c: Clock)
    requires WellFormed(v) && FailoverBranch(v, c) != Promote
    ensures var w := HandleFailover(v, c);
      && w == v.(authTime := w.authTime, authCount := w.authCount, authSent := w.authSent,
                 currentEpoch := w.currentEpoch, authEpoch := w.authEpoch)
      && match FailoverBranch(v, c)
         case Schedule =>
           && w.authTime == c.now + (if c.manualSet then 0 else c.delay) && w.authCount == 0 && !w.authSent
           && w.currentEpoch == v.currentEpoch && w.authEpoch == v.authEpoch
         case Request =>
           w.authSent && w.authCount == v.authCount && w.currentEpoch == w.authEpoch == v.currentEpoch + 1
         case Idle => w == v
         case _ => w == v.(authTime := if v.authSent || c.manualSet then v.authTime else v.authTime + c.addedDelay)
  {
    hide Shape;
  }

  // ---------------------------------------------------------------- promotion

  /** After its promotion a replica is a master with the election's epoch and owns exactly the slots that it or
      its old master owned; every other slot and node stays as it was, and the old master has none left. */
  lemma PromotionTakesOver(v: View)
    requires Sound(v) && WellFormed(v) && !Me(v).master
    ensures var m, w := CurrentMaster(v), TakeOver(v);
      && Sound(w) && SameFrame(v, w)
      && (forall j :: 0 <= j < SlotCount(v) ==>
            (w.table.owner[j] == Some(v.self) <==> v.table.owner[j] == Some(v.self) || v.table.owner[j] == Some(m)))
      && (forall j :: 0 <= j < SlotCount(v) && v.table.owner[j] != Some(m) ==> w.table.owner[j] == v.table.owner[j])
      && (m != v.self ==> m in w.table.sets && SlotsOf(w, m).count == 0)
      && w.nodes == v.nodes[v.self := Me(v).(master := true, slaveof := None, configEpoch := v.authEpoch)]
      && w == v.(nodes := w.nodes, table := w.table)
  {
    hide Agrees, Shape, WellFormed, RebindAll;
    var m, w := CurrentMaster(v), TakeOver(v);
    SoundIsWellFormed(v);
    TakeOverSound(v);
    SoundIsWellFormed(w);
    KnownNames(v, v.self);
    KnownNames(v, m);
    BitmapSize(v.table, m);
    RebindAllAgrees(v.table, v.self, SlotsOf(v, m).bits, SlotCount(v));
    BitsAreOwners(v.table, m);
    CountIsZero(w.table, m);
  }

  lemma BitsAreOwners(t: Table, n: Name)
    requires Agrees(t) && n in t.sets
    ensures |t.sets[n].bits| == |t.owner|
    ensures forall j :: 0 <= j < |t.owner| ==> (t.sets[n].bits[j] <==> t.owner[j] == Some(n))
  {
    assert SetAgrees(t.owner, n, t.sets[n]);
  }

  /** The winner announces itself as a master, with the election's epoch and all the slots it took over. */
  lemma WinnerAnnounces(v: View)
    requires Sound(v) && WellFormed(v) && !Me(v).master
    ensures var w := TakeOver(v);
      && WellFormed(w) && |BuildHeader(w).slots| == SlotCount(v)
      && var h := BuildHeader(w);
         && h.sender == v.self && h.slaveof.None? && h.configEpoch == v.authEpoch && h.currentEpoch == v.currentEpoch
         && forall j :: 0 <= j < SlotCount(v) && v.table.owner[j] == Some(CurrentMaster(v)) ==> h.slots[j]
  {
    hide Agrees, Shape, TakeOver, Sound;
    PromotionTakesOver(v);
    var w := TakeOver(v);
    SoundIsWellFormed(w);
    HeaderSize(w);
    BitsAreOwners(w.table, v.self);
  }

  // ---------------------------------------------------------------- the winner is heard

  /** What a master's ping does to the owners: a claimed slot becomes the sender's if it is not being imported
      and is unassigned or owned under a smaller epoch; every other slot keeps its owner. */
  lemma PingRebinds(u: View, h: Header, j: nat)
    requires Sound(u) && WellFormed(u) && h.sender in u.nodes && h.sender != u.self && |h.slots| == SlotCount(u)
    requires h.slaveof.None? && j < SlotCount(u) && |u.importing| == SlotCount(u)
    requires u.table.owner[j].Some? ==> u.table.owner[j].value in u.nodes
    ensures var w := ReceivePing(u, h);
      && SlotCount(w) == SlotCount(u)
      && w.table.owner[j] == (if && h.slots[j] && u.importing[j].None?
                                 && (|| u.table.owner[j].None?
                                     || u.nodes[u.table.owner[j].value].configEpoch < h.configEpoch)
                              then Some(h.sender) else u.table.owner[j])
  {
    hide WellFormed, Sound, UpdateSlots, Agrees, Shape;
    EpochsSound(u, h);
    var e := ReceiveEpochs(u, h);
    SoundIsWellFormed(e);
    RoleSound(e, h);
    var w := ReceiveRole(e, h);
    SoundIsWellFormed(w);
    KnownNames(w, h.sender);
    ClaimRebinds(w, h.sender, h.configEpoch, h.slots);
    BitsAreOwners(w.table, h.sender);
  }

  /** Node `n`'s timer promotes it. */
  ghost predicate Promotes(s: System, size: nat, n: Name, c: Clock)
    requires SystemOk(s, size) && n in s.nodes
  {
    NodeIsSound(s, size, n);
    FailoverBranch(s.nodes[n], c) == Promote
  }

  /** The ping node `n` sends after its timer. */
  ghost function NextPing(s: System, size: nat, n: Name, c: Clock, to: Name): Message
    requires SystemOk(s, size) && n in s.nodes
  {
    StepOk(s, size, Timer(n, c));
    NodeIsSound(Next(s, size, Timer(n, c)), size, n);
    PingFrom(Next(s, size, Timer(n, c)).nodes[n], to)
  }

  /** Slot `j` is owned by the node that `v` replicates. */
  predicate IsMasters(v: View, j: nat)
    requires v.self in v.nodes && j < SlotCount(v)
  {
    Me(v).slaveof.Some? && v.table.owner[j] == Me(v).slaveof
  }

  /** The slot is not being imported, and has no owner known under this epoch or a later one. */
  predicate Yields(u: View, j: nat, epoch: nat) {
    && j < |u.importing| == SlotCount(u) && u.importing[j].None?
    && (u.table.owner[j].Some? ==>
          u.table.owner[j].value in u.nodes && u.nodes[u.table.owner[j].value].configEpoch < epoch)
  }

  /** A replica is promoted and pings node `r`. Whatever happens before the ping arrives: when it does, `r` gives
      the winner every slot of the old master that it does not import and knows under no epoch as new as the
      election's. */
  lemma WinnerIsHeard(s: System, size: nat, n: Name, c: Clock, r: Name, mid: seq<Step>, now: int, timeout: nat, j: nat)
    requires SystemOk(s, size) && n in s.nodes && Promotes(s, size, n, c)
    requires s.nodes[n].self in s.nodes[n].nodes && j < SlotCount(s.nodes[n]) && IsMasters(s.nodes[n], j)
    requires Steps(s, size, [Timer(n, c), SendPing(n, r)] + mid)
    requires var t := Reached(s, size, [Timer(n, c), SendPing(n, r)] + mid);
      && StepEnabled(t, Deliver(NextPing(s, size, n, c, r), now, timeout))
      && n in t.nodes[r].nodes && Yields(t.nodes[r], j, s.nodes[n].authEpoch)
    ensures var t := Reached(s, size, [Timer(n, c), SendPing(n, r)] + mid);
      && SystemOk(t, size)
      && var u := Next(t, size, Deliver(NextPing(s, size, n, c, r), now, timeout)).nodes[r];
         j < SlotCount(u) && u.table.owner[j] == Some(n)
  {
    hide SystemOk, Steps, Reached, WellFormed, Sound, TakeOver, BuildHeader, ReceivePing;
    NodeIsSound(s, size, n);
    var v := s.nodes[n];
    BranchMeans(v, c);
    WinnerAnnounces(v);
    var m := NextPing(s, size, n, c, r);
    assert m.h == BuildHeader(TakeOver(v));
    var before := [Timer(n, c), SendPing(n, r)] + mid;
    ReachedOk(s, size, before);
    var t := Reached(s, size, before);
    DeliveryEnabled(t, size, m, now, timeout);
    PingRebinds(t.nodes[r], m.h, j);
  }

  lemma {:induction false} ReachedOk(s: System, size: nat, sts: seq<Step>)
    requires SystemOk(s, size) && Steps(s, size, sts)
    ensures SystemOk(Reached(s, size, sts), size)
    decreases |sts|
  {
    hide SystemOk, Next, StepEnabled;
    if sts != [] {
      StepOk(s, size, sts[0]);
      ReachedOk(Next(s, size, sts[0]), size, sts[1..]);
    }
  }

  // ---------------------------------------------------------------- demotion

  /** The master this node serves had a slot taken and has none left, nor has this node. */
  predicate LostLast(v: View, w: View)
    requires WellFormed(v) && SlotCount(w) == SlotCount(v)
  {
    var m := CurrentMaster(v);
    && (exists j :: 0 <= j < SlotCount(v) && v.table.owner[j] == Some(m) && w.table.owner[j] != Some(m))
    && (forall j :: 0 <= j < SlotCount(v) ==> w.table.owner[j] != Some(m) && w.table.owner[j] != Some(v.self))
  }

  /** A claim makes a node the claimer's replica exactly when it takes the last slot of the master the node
      serves (and the node has no slots of its own); nothing else about the nodes changes, and a demoted master
      closes its migrations. */
  lemma DemotedIffLostLast(v: View, n: Name, epoch: nat, claimed: Bitmap)
    requires Sound(v) && WellFormed(v) && n in v.nodes && n != v.self && |claimed| == SlotCount(v)
    ensures var w := UpdateSlots(v, n, epoch, claimed);
      && SlotCount(w) == SlotCount(v) && w.self == v.self
      && w == v.(nodes := w.nodes, table := w.table, migrating := w.migrating, importing := w.importing)
      && if LostLast(v, w)
         then w.nodes == v.nodes[v.self := Me(v).(master := false, slaveof := Some(n))]
              && if Me(v).master then w.migrating == w.importing == NoneOpen(SlotCount(v))
                 else w.migrating == v.migrating && w.importing == v.importing
         else w == v.(table := w.table)
  {
    hide Sound, Shape, Agrees, RebindAll, WellFormed, Taken, TakenMask;
    SoundIsWellFormed(v);
    KnownNames(v, n);
    KnownNames(v, v.self);
    var w, u := UpdateSlots(v, n, epoch, claimed), TakeSlots(v, n, epoch, claimed);
    ClaimRebinds(v, n, epoch, claimed);
    assert w.table == u.table;
    var m := CurrentMaster(v);
    KnownNames(v, m);
    TakenSlotsAgree(v, n, epoch, claimed);
    CountIsZero(u.table, m);
    CountIsZero(u.table, v.self);
    LosesIff(v, n, epoch, claimed);
  }

  lemma TakenSlotsAgree(v: View, n: Name, epoch: nat, claimed: Bitmap)
    requires Sound(v) && WellFormed(v) && n in v.nodes && |claimed| == SlotCount(v)
    ensures Agrees(TakeSlots(v, n, epoch, claimed).table)
    ensures TakeSlots(v, n, epoch, claimed).table.sets.Keys == v.table.sets.Keys
  {
    hide Agrees, RebindAll, Shape, Taken;
    SoundIsWellFormed(v);
    RebindAllAgrees(v.table, n, TakenMask(v, n, epoch, claimed), SlotCount(v));
  }

  lemma LosesIff(v: View, n: Name, epoch: nat, claimed: Bitmap)
    requires Sound(v) && WellFormed(v) && n in v.nodes && n != v.self && |claimed| == SlotCount(v)
    ensures var w := UpdateSlots(v, n, epoch, claimed);
      SlotCount(w) == SlotCount(v)
      && (Loses(v, TakenMask(v, n, epoch, claimed)) <==>
          exists j :: 0 <= j < SlotCount(v) && v.table.owner[j] == Some(CurrentMaster(v))
                      && w.table.owner[j] != Some(CurrentMaster(v)))
  {
    hide Sound, Shape, Agrees, UpdateSlots, WellFormed;
    ClaimRebinds(v, n, epoch, claimed);
  }

  /** An old master that hears a claim to all its slots under a greater epoch, and imports none of them, becomes
      a replica of the claimer. */
  lemma OldMasterFollows(v: View, n: Name, epoch: nat, claimed: Bitmap)
    requires Sound(v) && WellFormed(v) && n in v.nodes && n != v.self && |claimed| == SlotCount(v)
    requires Me(v).master && Me(v).configEpoch < epoch && |v.importing| == SlotCount(v)
    requires exists j :: 0 <= j < SlotCount(v) && v.table.owner[j] == Some(v.self)
    requires forall j :: 0 <= j < SlotCount(v) && v.table.owner[j] == Some(v.self) ==>
               claimed[j] && v.importing[j].None?
    ensures var w := UpdateSlots(v, n, epoch, claimed);
      w.self in w.nodes && !Me(w).master && Me(w).slaveof == Some(n)
  {
    hide Sound, Shape, Agrees, UpdateSlots, WellFormed;
    ClaimRebinds(v, n, epoch, claimed);
    DemotedIffLostLast(v, n, epoch, claimed);
    var w := UpdateSlots(v, n, epoch, claimed);
    var j :| 0 <= j < SlotCount(v) && v.table.owner[j] == Some(v.self);
    assert Taken(v, n, epoch, claimed, j);
    assert w.table.owner[j] == Some(n);
  }
}
