/** Slot-claim convergence: whatever the order and repetition of the masters' claims, an observer
    ends with each slot owned by the claimer with the greatest config epoch heard so far. */
module Claims {
  import opened Options
  import opened Slots
  import opened Cluster
  import opened NodeRuns

  /** The slots a master claims and the epoch it claims them under. */
  datatype Claim = Claim(epoch: nat, slots: Bitmap)

  /** One arrival of a master's claim; the sender's current epoch may be anything. */
  datatype Arrival = Arrival(from: Name, currentEpoch: nat)

  function Packet(claims: map<Name, Claim>, a: Arrival): Header
    requires a.from in claims
  {
    Header(a.from, a.currentEpoch, claims[a.from].epoch, claims[a.from].slots, None)
  }

  /** Claims have positive, distinct epochs and the format's bitmap size. */
  predicate Sensible(claims: map<Name, Claim>, size: nat) {
    && (forall n :: n in claims ==> claims[n].epoch > 0 && |claims[n].slots| == size)
    && (forall m, n :: m in claims && n in claims && claims[m].epoch == claims[n].epoch ==> m == n)
  }

  predicate Claimed(claims: map<Name, Claim>, heard: set<Name>, j: nat, n: Name) {
    n in heard && n in claims && j < |claims[n].slots| && claims[n].slots[j]
  }

  /** Of the masters heard, `n` claims slot `j` under the greatest epoch. */
  predicate Wins(claims: map<Name, Claim>, heard: set<Name>, j: nat, n: Name) {
    && Claimed(claims, heard, j, n)
    && forall m :: m in heard && Claimed(claims, heard, j, m) ==> claims[m].epoch <= claims[n].epoch
  }

  predicate OwnedByWinner(claims: map<Name, Claim>, heard: set<Name>, j: nat, owner: Option<Name>) {
    match owner
    case None => forall m :: m in heard ==> !Claimed(claims, heard, j, m)
    case Some(n) => Wins(claims, heard, j, n)
  }

  /** The observer knows the claimers, imports nothing, and has nothing newer of them than their claims. */
  predicate Listens(v: View, claims: map<Name, Claim>, heard: set<Name>) {
    && Sensible(claims, SlotCount(v)) && heard <= claims.Keys
    && (forall n :: n in claims ==> n in v.nodes && n != v.self && v.nodes[n].configEpoch <= claims[n].epoch)
    && (forall n :: n in heard ==> v.nodes[n].configEpoch == claims[n].epoch)
    && (forall j :: 0 <= j < |v.importing| ==> v.importing[j].None?)
  }

  predicate Owned(v: View, claims: map<Name, Claim>, heard: set<Name>) {
    forall j :: 0 <= j < SlotCount(v) ==> OwnedByWinner(claims, heard, j, v.table.owner[j])
  }

  /** Every slot belongs to the winner among the masters heard. */
  predicate Observes(v: View, claims: map<Name, Claim>, heard: set<Name>) {
    Sound(v) && Listens(v, claims, heard) && Owned(v, claims, heard)
  }

  lemma EpochIsNoted(v: View, claims: map<Name, Claim>, heard: set<Name>, a: Arrival)
    requires Listens(v, claims, heard) && a.from in claims
    ensures var w := ReceiveEpochs(v, Packet(claims, a));
      Listens(w, claims, heard + {a.from}) && w.table == v.table
  {
    hide Sensible;
  }

  lemma RoleIsNoted(v: View, claims: map<Name, Claim>, heard: set<Name>, a: Arrival)
    requires WellFormed(v) && Listens(v, claims, heard) && a.from in claims
    ensures var w := ReceiveRole(v, Packet(claims, a));
      Listens(w, claims, heard) && w.table == v.table && a.from in w.nodes && w.nodes[a.from].master
  {
    hide Sensible, WellFormed;
  }

  /** The claim rebinds exactly the slots it wins. */
  lemma ClaimWins(v: View, claims: map<Name, Claim>, heard: set<Name>, n: Name)
    requires Sound(v) && WellFormed(v) && n in heard && Listens(v, claims, heard) && n in v.nodes
    requires Owned(v, claims, heard - {n}) || Owned(v, claims, heard)
    ensures |claims[n].slots| == SlotCount(v)
    ensures var w := UpdateSlots(v, n, claims[n].epoch, claims[n].slots);
      SlotCount(w) == SlotCount(v) && Owned(w, claims, heard) && Listens(w, claims, heard)
  {
    hide Sound, WellFormed, UpdateSlots, OwnedByWinner, Taken, Listens;
    SlotsFit(v, claims, heard, n);
    ClaimRebinds(v, n, claims[n].epoch, claims[n].slots);
    var w := UpdateSlots(v, n, claims[n].epoch, claims[n].slots);
    forall j | 0 <= j < SlotCount(v) ensures OwnedByWinner(claims, heard, j, w.table.owner[j]) {
      SlotIsWon(v, claims, heard, n, j);
    }
    ClaimKeepsListening(v, claims, heard, n);
  }

  /** What a claim of another node does to the owners. */
  lemma ClaimRebinds(v: View, n: Name, epoch: nat, claimed: Bitmap)
    requires Sound(v) && WellFormed(v) && n in v.nodes && n != v.self && |claimed| == SlotCount(v)
    ensures var w := UpdateSlots(v, n, epoch, claimed);
      && SlotCount(w) == SlotCount(v)
      && forall j :: 0 <= j < SlotCount(v) ==>
           w.table.owner[j] == if Taken(v, n, epoch, claimed, j) then Some(n) else v.table.owner[j]
  {
    hide Sound, Shape, Agrees, RebindAll, Loses, Taken;
    SoundIsWellFormed(v);
    var mask := TakenMask(v, n, epoch, claimed);
    RebindAllAgrees(v.table, n, mask, SlotCount(v));
    assert forall j :: 0 <= j < SlotCount(v) ==> mask[j] == Taken(v, n, epoch, claimed, j);
  }

  lemma ClaimKeepsListening(v: View, claims: map<Name, Claim>, heard: set<Name>, n: Name)
    requires WellFormed(v) && Listens(v, claims, heard) && n in heard && n in v.nodes
        && |claims[n].slots| == SlotCount(v)
    ensures Listens(UpdateSlots(v, n, claims[n].epoch, claims[n].slots), claims, heard)
  {
    hide Shape, RebindAll, Loses, TakenMask, Sensible;
  }

  lemma SlotsFit(v: View, claims: map<Name, Claim>, heard: set<Name>, n: Name)
    requires Listens(v, claims, heard) && n in heard
    ensures n in claims && n in v.nodes && n != v.self && |claims[n].slots| == SlotCount(v)
  {
  }

  lemma SlotIsWon(v: View, claims: map<Name, Claim>, heard: set<Name>, n: Name, j: nat)
    requires WellFormed(v) && n in heard && Listens(v, claims, heard) && n in v.nodes && j < SlotCount(v)
    requires OwnedByWinner(claims, heard - {n}, j, v.table.owner[j])
          || OwnedByWinner(claims, heard, j, v.table.owner[j])
    ensures |claims[n].slots| == SlotCount(v)
    ensures OwnedByWinner(claims, heard, j,
                          if Taken(v, n, claims[n].epoch, claims[n].slots, j) then Some(n) else v.table.owner[j])
  {
    hide Shape;
    var owner := v.table.owner[j];
    if owner.Some? {
      assert owner.value in heard && v.nodes[owner.value].configEpoch == claims[owner.value].epoch;
      assert Claimed(claims, heard, j, owner.value);
    }
    forall m | m in heard && m != n && Claimed(claims, heard, j, m)
      ensures Claimed(claims, heard - {n}, j, m) && owner.Some? && claims[m].epoch <= claims[owner.value].epoch
    {
      assert Claimed(claims, heard - {n}, j, m);
    }
  }

  /** A claimer whose bitmap already is its claim changes nothing by claiming again. */
  lemma NothingNew(v: View, claims: map<Name, Claim>, heard: set<Name>, n: Name)
    requires Sound(v) && n in heard && Listens(v, claims, heard) && n in v.table.sets
    requires Owned(v, claims, heard - {n}) || Owned(v, claims, heard)
    requires SlotsOf(v, n).bits == claims[n].slots
    ensures Owned(v, claims, heard)
  {
    assert SetAgrees(v.table.owner, n, v.table.sets[n]);
    forall j | 0 <= j < SlotCount(v) ensures OwnedByWinner(claims, heard, j, v.table.owner[j]) {
      if !claims[n].slots[j] {
        assert !Claimed(claims, heard, j, n);
        forall m | m in heard && Claimed(claims, heard, j, m) ensures Claimed(claims, heard - {n}, j, m) {
        }
      }
    }
  }

  /** The claim in a packet, once the packet's epochs and role are noted. */
  lemma ClaimConverges(w: View, claims: map<Name, Claim>, heard: set<Name>, a: Arrival)
    requires Sound(w) && WellFormed(w) && Listens(w, claims, heard) && a.from in heard && a.from in w.nodes
    requires Owned(w, claims, heard - {a.from}) || Owned(w, claims, heard)
    requires w.nodes[a.from].master && a.from in claims && |claims[a.from].slots| == SlotCount(w)
    ensures var u := ReceiveClaim(w, Packet(claims, a));
      u.self in u.nodes && Listens(u, claims, heard) && Owned(u, claims, heard)
  {
    hide Sound, WellFormed, UpdateSlots, Owned, Listens, Shape;
    KnownNames(w, a.from);
    ClaimKeepsShape(w, Packet(claims, a));
    if ClaimsDiffer(w, Packet(claims, a)) {
      ClaimWins(w, claims, heard, a.from);
    } else {
      NothingNew(w, claims, heard, a.from);
    }
  }

  /** One arrival. */
  lemma ArrivalConverges(v: View, claims: map<Name, Claim>, heard: set<Name>, a: Arrival)
    requires Observes(v, claims, heard) && a.from in claims
    ensures WellFormed(v) && a.from in v.nodes && a.from != v.self && |claims[a.from].slots| == SlotCount(v)
    ensures Observes(ReceivePing(v, Packet(claims, a)), claims, heard + {a.from})
  {
    hide Sound, WellFormed, ReceiveEpochs, ReceiveRole, ReceiveClaim, ResolveCollision, Listens, Owned;
    var n, h := a.from, Packet(claims, a);
    var now := heard + {n};
    SoundIsWellFormed(v);
    Knows(v, claims, heard, n);
    EpochIsNoted(v, claims, heard, a);
    EpochsSound(v, h);
    var e := ReceiveEpochs(v, h);
    SoundIsWellFormed(e);
    RoleIsNoted(e, claims, now, a);
    RoleSound(e, h);
    var w := ReceiveRole(e, h);
    SoundIsWellFormed(w);
    SameOwners(v, w, claims, heard, n);
    ClaimConverges(w, claims, now, a);
    ClaimKeepsShape(w, h);
    RepairKeeps(ReceiveClaim(w, h), h, claims, now);
    PingSound(v, h);
  }

  lemma Knows(v: View, claims: map<Name, Claim>, heard: set<Name>, n: Name)
    requires Listens(v, claims, heard) && n in claims
    ensures n in v.nodes && n != v.self && |claims[n].slots| == SlotCount(v)
  {
  }

  lemma SameOwners(v: View, w: View, claims: map<Name, Claim>, heard: set<Name>, n: Name)
    requires Owned(v, claims, heard) && w.table == v.table
    ensures Owned(w, claims, heard + {n} - {n}) || Owned(w, claims, heard + {n})
  {
    if n in heard {
      assert heard + {n} == heard;
    } else {
      assert heard + {n} - {n} == heard;
    }
  }

  lemma RepairKeeps(v: View, h: Header, claims: map<Name, Claim>, heard: set<Name>)
    requires v.self in v.nodes && h.sender in v.nodes && Listens(v, claims, heard) && Owned(v, claims, heard)
    ensures var w := ResolveCollision(v, h); Listens(w, claims, heard) && Owned(w, claims, heard)
  {
    hide Sensible, OwnedByWinner;
  }

  ghost function AfterAll(v: View, claims: map<Name, Claim>, heard: set<Name>, arrivals: seq<Arrival>): View
    requires Observes(v, claims, heard) && forall k :: 0 <= k < |arrivals| ==> arrivals[k].from in claims
    decreases |arrivals|
  {
    if arrivals == [] then v
    else
      ArrivalConverges(v, claims, heard, arrivals[0]);
      AfterAll(ReceivePing(v, Packet(claims, arrivals[0])), claims, heard + {arrivals[0].from}, arrivals[1..])
  }

  function Senders(arrivals: seq<Arrival>): set<Name> {
    set k | 0 <= k < |arrivals| :: arrivals[k].from
  }

  lemma {:induction false} AllConverge(v: View, claims: map<Name, Claim>, heard: set<Name>, arrivals: seq<Arrival>)
    requires Observes(v, claims, heard) && forall k :: 0 <= k < |arrivals| ==> arrivals[k].from in claims
    ensures Observes(AfterAll(v, claims, heard, arrivals), claims, heard + Senders(arrivals))
    decreases |arrivals|
  {
    hide Observes, ReceivePing;
    if arrivals == [] {
      assert heard + Senders(arrivals) == heard;
    } else {
      var a, rest := arrivals[0], arrivals[1..];
      ArrivalConverges(v, claims, heard, a);
      AllConverge(ReceivePing(v, Packet(claims, a)), claims, heard + {a.from}, rest);
      assert heard + {a.from} + Senders(rest) == heard + Senders(arrivals) by {
        assert forall k :: 0 < k < |arrivals| ==> arrivals[k] == rest[k - 1];
        assert forall k :: 0 <= k < |rest| ==> rest[k] == arrivals[k + 1];
      }
    }
  }

  /** Slot-claim convergence: starting with no slot assigned, after any sequence of arrivals a slot is
      owned by `n` exactly when `n` is the greatest-epoch claimer heard, and unowned exactly when nobody
      heard claims it. */
  lemma ClaimsConverge(v: View, claims: map<Name, Claim>, arrivals: seq<Arrival>, j: nat, n: Name)
    requires Sound(v) && Listens(v, claims, {}) && j < SlotCount(v)
    requires forall i :: 0 <= i < SlotCount(v) ==> v.table.owner[i].None?
    requires forall k :: 0 <= k < |arrivals| ==> arrivals[k].from in claims
    ensures Observes(v, claims, {})
    ensures var w, heard := AfterAll(v, claims, {}, arrivals), Senders(arrivals);
      j < SlotCount(w)
      && (w.table.owner[j] == Some(n) <==> Wins(claims, heard, j, n))
      && (w.table.owner[j].None? <==> forall m :: m in heard ==> !Claimed(claims, heard, j, m))
  {
    hide Sound, AfterAll;
    AllConverge(v, claims, {}, arrivals);
    var w, heard := AfterAll(v, claims, {}, arrivals), Senders(arrivals);
    assert {} + heard == heard;
    SizeStays(v, claims, {}, arrivals);
    assert OwnedByWinner(claims, heard, j, w.table.owner[j]);
  }

  lemma {:induction false} SizeStays(v: View, claims: map<Name, Claim>, heard: set<Name>, arrivals: seq<Arrival>)
    requires Observes(v, claims, heard) && forall k :: 0 <= k < |arrivals| ==> arrivals[k].from in claims
    ensures SlotCount(AfterAll(v, claims, heard, arrivals)) == SlotCount(v)
    decreases |arrivals|
  {
    hide ReceivePing, Sound;
    if arrivals != [] {
      ArrivalConverges(v, claims, heard, arrivals[0]);
      PingKeepsSize(v, Packet(claims, arrivals[0]));
      SizeStays(ReceivePing(v, Packet(claims, arrivals[0])), claims, heard + {arrivals[0].from}, arrivals[1..]);
    }
  }
}
