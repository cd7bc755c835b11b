/** Where redirections lead: a client that follows them gets its request served. */
module Redirection {
  import opened Options
  import opened Slots
  import opened Cluster
  import opened Routing

  /** The request's keys are of one slot, and this view knows who owns it. */
  ghost predicate Routable(v: View, hash: Key -> nat, keys: seq<Key>, slot: nat) {
    && WellFormed(v) && Hashes(hash, v)
    && keys != [] && SameSlot(hash, keys) && slot == SlotOf(hash, keys[0])
    && v.table.owner[slot].Some?
  }

  // ---------------------------------------------------------------- what each answer means

  /** CROSSSLOT: two of the keys are of different slots, and only then. */
  lemma CrossSlotIff(v: View, has: set<Key>, hash: Key -> nat, keys: seq<Key>, f: Flags)
    requires WellFormed(v) && Hashes(hash, v)
    requires keys != [] ==> v.table.owner[SlotOf(hash, keys[0])].Some?
    ensures RouteOf(v, has, hash, keys, f) == CrossSlot <==>
            exists i, j :: 0 <= i < |keys| && 0 <= j < |keys| && SlotOf(hash, keys[i]) != SlotOf(hash, keys[j])
  {
    hide WellFormed;
    if keys != [] && !SameSlot(hash, keys) {
      var i :| 0 <= i < |keys| && SlotOf(hash, keys[i]) != SlotOf(hash, keys[0]);
    }
  }

  /** MOVED names the owner of the slot, another node. */
  lemma MovedNamesOwner(v: View, has: set<Key>, hash: Key -> nat, keys: seq<Key>, f: Flags, slot: nat)
    requires Routable(v, hash, keys, slot) && RouteOf(v, has, hash, keys, f).Moved?
    ensures var m := RouteOf(v, has, hash, keys, f).n;
            m != v.self && v.table.owner[slot] == Some(m)
  {
    hide WellFormed, Missing, SeveralKeys;
  }

  /** ASK names the node this one, the owner, migrates the slot to, and is given only when a key is missing
      here. */
  lemma AskNamesTarget(v: View, has: set<Key>, hash: Key -> nat, keys: seq<Key>, f: Flags, slot: nat)
    requires Routable(v, hash, keys, slot) && RouteOf(v, has, hash, keys, f).Ask?
    ensures |v.migrating| == SlotCount(v) && v.migrating[slot] == Some(RouteOf(v, has, hash, keys, f).n)
    ensures v.table.owner[slot] == Some(v.self) && exists i :: 0 <= i < |keys| && keys[i] !in has
  {
    hide WellFormed, SeveralKeys;
    ShapeOf(v);
  }

  /** TRYAGAIN: a request with several keys, some of them missing, at a node that imports the slot. */
  lemma TryAgainIff(v: View, has: set<Key>, hash: Key -> nat, keys: seq<Key>, f: Flags, slot: nat)
    requires Routable(v, hash, keys, slot)
    ensures |v.migrating| == |v.importing| == SlotCount(v)
    ensures RouteOf(v, has, hash, keys, f) == TryAgain <==>
            && f.asking && v.importing[slot].Some?
            && !(v.table.owner[slot] == Some(v.self) && v.migrating[slot].Some?)
            && (exists i :: 0 <= i < |keys| && keys[i] != keys[0])
            && (exists i :: 0 <= i < |keys| && keys[i] !in has)
  {
    hide WellFormed;
    ShapeOf(v);
  }

  /** Only the owner serves, or a node that imports the slot and is asked, or a replica of the owner when it is
      only read; the owner of a migrating slot serves only keys it has. */
  lemma WhoServes(v: View, has: set<Key>, hash: Key -> nat, keys: seq<Key>, f: Flags, slot: nat)
    requires Routable(v, hash, keys, slot) && RouteOf(v, has, hash, keys, f) == Serve
    ensures |v.migrating| == |v.importing| == SlotCount(v) && v.self in v.nodes
    ensures || v.table.owner[slot] == Some(v.self)
            || (v.importing[slot].Some? && f.asking)
            || (f.readOnly && !Me(v).master && Me(v).slaveof == v.table.owner[slot])
    ensures v.table.owner[slot] == Some(v.self) && v.migrating[slot].Some? ==>
            forall i :: 0 <= i < |keys| ==> keys[i] in has
  {
    hide WellFormed, SeveralKeys;
    ShapeOf(v);
  }

  /** The owner of a slot that it does not migrate away serves every request for it that was not sent with
      ASKING. */
  lemma OwnerServes(v: View, has: set<Key>, hash: Key -> nat, keys: seq<Key>, f: Flags, slot: nat)
    requires Routable(v, hash, keys, slot) && !f.asking
    requires |v.migrating| == SlotCount(v) && v.table.owner[slot] == Some(v.self)
    ensures RouteOf(v, has, hash, keys, f)
         == if v.migrating[slot].Some? && Missing(keys, has) then Ask(v.migrating[slot].value) else Serve
  {
    hide WellFormed, Missing, SeveralKeys;
  }

  /** A node that imports a slot it does not own serves a one-key request sent with ASKING. */
  lemma ImporterServes(v: View, has: set<Key>, hash: Key -> nat, k: Key, f: Flags, slot: nat)
    requires Routable(v, hash, [k], slot) && f.asking
    requires |v.importing| == SlotCount(v) && v.importing[slot].Some? && v.table.owner[slot] != Some(v.self)
    ensures RouteOf(v, has, hash, [k], f) == Serve
  {
    hide WellFormed, Missing;
  }

  /** A replica serves a read-only request for its master's slots. */
  lemma ReplicaServesReads(v: View, has: set<Key>, hash: Key -> nat, keys: seq<Key>, f: Flags, slot: nat)
    requires Routable(v, hash, keys, slot) && f.readOnly && !f.asking && v.self in v.nodes && !Me(v).master
    requires Me(v).slaveof == v.table.owner[slot] != Some(v.self)
    ensures RouteOf(v, has, hash, keys, f) == Serve
  {
    hide WellFormed, Missing, SeveralKeys;
  }

  /** A node that neither owns the slot, nor is asked while it imports it, nor is read as a replica of the
      owner, redirects to the owner. */
  lemma OthersRedirect(v: View, has: set<Key>, hash: Key -> nat, keys: seq<Key>, f: Flags, slot: nat)
    requires Routable(v, hash, keys, slot) && !f.asking && v.table.owner[slot] != Some(v.self)
    requires v.self in v.nodes && !(f.readOnly && !Me(v).master && Me(v).slaveof == v.table.owner[slot])
    ensures RouteOf(v, has, hash, keys, f) == Moved(v.table.owner[slot].value)
  {
    hide WellFormed, Missing, SeveralKeys;
  }

  // ---------------------------------------------------------------- following redirections

  /** After MOVED, the node named serves the request if it owns the slot and does not migrate it away. */
  lemma MovedIsServed(v: View, has: set<Key>, u: View, had: set<Key>, hash: Key -> nat, keys: seq<Key>, f: Flags,
                      slot: nat)
    requires Routable(v, hash, keys, slot) && Routable(u, hash, keys, slot)
    requires RouteOf(v, has, hash, keys, f) == Moved(u.self)
    requires |u.migrating| == SlotCount(u) && u.table.owner[slot] == Some(u.self) && u.migrating[slot].None?
    ensures u.self != v.self && RouteOf(u, had, hash, keys, f.(asking := false)) == Serve
  {
    hide WellFormed, RouteOf;
    MovedNamesOwner(v, has, hash, keys, f, slot);
    OwnerServes(u, had, hash, keys, f.(asking := false), slot);
  }

  /** After ASK, the node named serves a one-key request sent with ASKING if it imports the slot. */
  lemma AskIsServed(v: View, has: set<Key>, u: View, had: set<Key>, hash: Key -> nat, k: Key, f: Flags, slot: nat)
    requires Routable(v, hash, [k], slot) && Routable(u, hash, [k], slot)
    requires RouteOf(v, has, hash, [k], f) == Ask(u.self)
    requires |u.importing| == SlotCount(u) && u.importing[slot].Some? && u.table.owner[slot] != Some(u.self)
    ensures k !in has && RouteOf(u, had, hash, [k], f.(asking := true)) == Serve
  {
    hide WellFormed, RouteOf;
    AskNamesTarget(v, has, hash, [k], f, slot);
    ImporterServes(u, had, hash, k, f.(asking := true), slot);
  }

  /** The nodes' views agree on who owns the slot; if the owner migrates it, the node it names imports it. */
  ghost predicate Agreeing(views: map<Name, View>, hash: Key -> nat, k: Key, slot: nat, owner: Name) {
    && owner in views
    && (forall n :: n in views ==>
          && Routable(views[n], hash, [k], slot) && views[n].self == n && views[n].self in views[n].nodes
          && |views[n].migrating| == |views[n].importing| == SlotCount(views[n]) > slot
          && views[n].table.owner[slot] == Some(owner))
    && (views[owner].migrating[slot].Some? ==>
          var t := views[owner].migrating[slot].value;
          t in views && t != owner && views[t].importing[slot].Some?)
  }

  /** A request for the key, sent to node `at`, is served after at most `hops` redirections. */
  ghost predicate ServedWithin(views: map<Name, View>, has: map<Name, set<Key>>, hash: Key -> nat, k: Key, slot: nat,
                               owner: Name, at: Name, f: Flags, hops: nat)
    requires Agreeing(views, hash, k, slot, owner) && has.Keys == views.Keys && at in views
    decreases hops
  {
    match RouteOf(views[at], has[at], hash, [k], f)
    case Serve => true
    case Moved(m) =>
      hops > 0 && m in views && ServedWithin(views, has, hash, k, slot, owner, m, f.(asking := false), hops - 1)
    case Ask(m) =>
      hops > 0 && m in views && ServedWithin(views, has, hash, k, slot, owner, m, f.(asking := true), hops - 1)
    case _ => false
  }

  lemma OwnerWithinOne(views: map<Name, View>, has: map<Name, set<Key>>, hash: Key -> nat, k: Key, slot: nat,
                       owner: Name, f: Flags)
    requires Agreeing(views, hash, k, slot, owner) && has.Keys == views.Keys && !f.asking
    ensures ServedWithin(views, has, hash, k, slot, owner, owner, f, 1)
  {
    hide RouteOf, Routable, Missing;
    var v := views[owner];
    OwnerServes(v, has[owner], hash, [k], f, slot);
    if v.migrating[slot].Some? {
      var t := v.migrating[slot].value;
      ImporterServes(views[t], has[t], hash, k, f.(asking := true), slot);
      assert ServedWithin(views, has, hash, k, slot, owner, t, f.(asking := true), 0);
    }
  }

  /** With agreeing views, every one-key request is served after at most two redirections, whichever node it
      is first sent to and whichever keys the nodes hold. */
  lemma TwoRedirectionsSuffice(views: map<Name, View>, has: map<Name, set<Key>>, hash: Key -> nat, k: Key, slot: nat,
                               owner: Name, at: Name, f: Flags)
    requires Agreeing(views, hash, k, slot, owner) && has.Keys == views.Keys && at in views && !f.asking
    ensures ServedWithin(views, has, hash, k, slot, owner, at, f, 2)
  {
    hide RouteOf, Routable, Missing;
    OwnerWithinOne(views, has, hash, k, slot, owner, f);
    var v := views[at];
    if at == owner {
      MoreHops(views, has, hash, k, slot, owner, at, f, 1);
    } else if f.readOnly && !Me(v).master && Me(v).slaveof == Some(owner) {
      ReplicaServesReads(v, has[at], hash, [k], f, slot);
    } else {
      OthersRedirect(v, has[at], hash, [k], f, slot);
      assert f.(asking := false) == f;
    }
  }

  lemma {:induction false} MoreHops(views: map<Name, View>, has: map<Name, set<Key>>, hash: Key -> nat, k: Key,
                                    slot: nat, owner: Name, at: Name, f: Flags, hops: nat)
    requires Agreeing(views, hash, k, slot, owner) && has.Keys == views.Keys && at in views
    requires ServedWithin(views, has, hash, k, slot, owner, at, f, hops)
    ensures ServedWithin(views, has, hash, k, slot, owner, at, f, hops + 1)
    decreases hops
  {
    hide RouteOf, Agreeing;
    AgreeingViews(views, hash, k, slot, owner, at);
    match RouteOf(views[at], has[at], hash, [k], f)
    case Moved(m) => MoreHops(views, has, hash, k, slot, owner, m, f.(asking := false), hops - 1);
    case Ask(m) => MoreHops(views, has, hash, k, slot, owner, m, f.(asking := true), hops - 1);
    case _ =>
  }

  lemma AgreeingViews(views: map<Name, View>, hash: Key -> nat, k: Key, slot: nat, owner: Name, n: Name)
    requires Agreeing(views, hash, k, slot, owner) && n in views
    ensures WellFormed(views[n]) && Hashes(hash, views[n]) && views[n].table.owner[SlotOf(hash, [k][0])].Some?
  {
    assert Routable(views[n], hash, [k], slot);
  }
}
