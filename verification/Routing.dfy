/** Which node serves a request: `getNodeByQuery`. */
module Routing {
  import opened Options
  import opened Slots
  import opened Cluster

  type Key = int

  datatype Route =
    | Serve
    | Moved(n: Name)
    | Ask(n: Name)
    | CrossSlot
    | TryAgain

  /** What the request and its client say besides the keys: sent after ASKING (or a command that is
      always allowed to ask), and a read-only command of a client in READONLY mode. */
  datatype Flags = Flags(asking: bool, readOnly: bool)

  /** `keyHashSlot`; the hash itself is left open. */
  function SlotOf(hash: Key -> nat, k: Key): nat {
    hash(k)
  }

  /** Every key hashes to one of the slots. */
  ghost predicate Hashes(hash: Key -> nat, v: View) {
    forall k :: 0 <= SlotOf(hash, k) < |v.table.owner|
  }

  predicate SameSlot(hash: Key -> nat, keys: seq<Key>) {
    forall i :: 0 <= i < |keys| ==> SlotOf(hash, keys[i]) == SlotOf(hash, keys[0])
  }

  predicate SeveralKeys(keys: seq<Key>) {
    exists i :: 0 <= i < |keys| && keys[i] != keys[0]
  }

  predicate Missing(keys: seq<Key>, has: set<Key>) {
    exists i :: 0 <= i < |keys| && keys[i] !in has
  }

  /** This node owns the slot and is migrating it away. */
  predicate MigratesAway(v: View, slot: nat)
    requires WellFormed(v) && slot < SlotCount(v)
  {
    v.table.owner[slot] == Some(v.self) && v.migrating[slot].Some?
  }

  /** The node a request for these keys is routed to, when this node holds the keys `has`. */
  ghost function RouteOf(v: View, has: set<Key>, hash: Key -> nat, keys: seq<Key>, f: Flags): Route
    requires WellFormed(v)
    requires Hashes(hash, v)
    requires keys != [] ==> v.table.owner[SlotOf(hash, keys[0])].Some?
  {
    if keys == [] then Serve
    else if !SameSlot(hash, keys) then CrossSlot
    else
      var slot := SlotOf(hash, keys[0]);
      var n := v.table.owner[slot].value;
      var away := MigratesAway(v, slot);
      if away && Missing(keys, has) then Ask(v.migrating[slot].value)
      else if !away && v.importing[slot].Some? && f.asking then
        if SeveralKeys(keys) && Missing(keys, has) then TryAgain else Serve
      else if f.readOnly && !Me(v).master && Me(v).slaveof == Some(n) then Serve
      else if n == v.self then Serve
      else Moved(n)
  }

  /** The keys of the commands of a request, one after the other: one command, or a queued transaction. */
  function AllKeys(commands: seq<seq<Key>>): seq<Key> {
    if commands == [] then [] else AllKeys(commands[..|commands| - 1]) + commands[|commands| - 1]
  }

  /** The scan of one command's keys. */
  datatype Scan = Scan(first: Option<Key>, several: bool, missing: bool, cross: bool)

  /** What the scan has found after these keys. */
  ghost predicate Scanned(s: Scan, v: View, has: set<Key>, hash: Key -> nat, keys: seq<Key>)
    requires WellFormed(v)
    requires Hashes(hash, v)
  {
    if keys == [] then s == Scan(None, false, false, false)
    else
      && s.first == Some(keys[0]) && !s.cross
      && SameSlot(hash, keys)
      && (s.several <==> SeveralKeys(keys))
      && (s.missing <==> Counting(v, SlotOf(hash, keys[0])) && Missing(keys, has))
  }

  /** Missing keys are counted while the slot is migrating or importing. */
  predicate Counting(v: View, slot: nat)
    requires WellFormed(v) && slot < SlotCount(v)
  {
    MigratesAway(v, slot) || v.importing[slot].Some?
  }

  lemma ScanOne(s: Scan, v: View, has: set<Key>, hash: Key -> nat, keys: seq<Key>, k: Key)
    requires WellFormed(v)
    requires Hashes(hash, v) && Scanned(s, v, has, hash, keys)
    requires keys != [] ==> SlotOf(hash, k) == SlotOf(hash, keys[0])
    ensures (keys + [k])[0] == if keys == [] then k else keys[0]
    ensures var first := (keys + [k])[0];
      Scanned(Scan(Some(first), s.several || k != first,
                   s.missing || (Counting(v, SlotOf(hash, first)) && k !in has), false),
              v, has, hash, keys + [k])
  {
    var more := keys + [k];
    assert more[|keys|] == k && forall i :: 0 <= i < |keys| ==> more[i] == keys[i];
    assert SeveralKeys(more) <==> (keys != [] && SeveralKeys(keys)) || k != more[0];
    assert Missing(more, has) <==> Missing(keys, has) || k !in has;
  }

  /** A key of another slot makes the whole request a cross-slot one. */
  lemma CrossIsFinal(hash: Key -> nat, keys: seq<Key>, k: Key, rest: seq<Key>)
    requires keys != [] && SlotOf(hash, k) != SlotOf(hash, keys[0])
    ensures !SameSlot(hash, keys + [k] + rest)
  {
    assert (keys + [k] + rest)[|keys|] == k;
  }

  /** `getNodeByQuery`, on the commands of a transaction or on a single command. */
  method GetNodeByQuery(v: View, has: set<Key>, hash: Key -> nat, commands: seq<seq<Key>>, f: Flags) returns (r: Route)
    requires WellFormed(v)
    requires Hashes(hash, v)
    requires AllKeys(commands) != [] ==> v.table.owner[SlotOf(hash, AllKeys(commands)[0])].Some?
    ensures r == RouteOf(v, has, hash, AllKeys(commands), f)
  {
    hide WellFormed, Shape;
    var s := Scan(None, false, false, false);
    var i := 0;
    ghost var all := AllKeys(commands);
    assert commands[..0] == [];
    while i < |commands|
      invariant 0 <= i <= |commands|
      invariant AllKeys(commands[..i]) <= all
      invariant Scanned(s, v, has, hash, AllKeys(commands[..i]))
    {
      ghost var done := AllKeys(commands[..i]);
      AllKeysNext(commands, i);
      s := ScanCommand(v, has, hash, done, commands[i], s, all);
      if s.cross { return CrossSlot; }
      i := i + 1;
    }
    assert commands[..i] == commands;
    if s.first.None? { return Serve; }
    var slot := SlotOf(hash, s.first.value);
    ShapeOf(v);
    var n := v.table.owner[slot].value;
    var away := n == v.self && v.migrating[slot].Some?;
    if away && s.missing { return Ask(v.migrating[slot].value); }
    if !away && v.importing[slot].Some? && f.asking {
      return if s.several && s.missing then TryAgain else Serve;
    }
    if f.readOnly && !v.nodes[v.self].master && v.nodes[v.self].slaveof == Some(n) { return Serve; }
    return if n == v.self then Serve else Moved(n);
  }

  lemma ShapeOf(v: View)
    requires WellFormed(v)
    ensures v.self in v.nodes && |v.migrating| == |v.importing| == SlotCount(v)
  {
  }

  lemma {:induction false} AllKeysNext(commands: seq<seq<Key>>, i: nat)
    requires i < |commands|
    ensures AllKeys(commands[..i + 1]) == AllKeys(commands[..i]) + commands[i]
    ensures AllKeys(commands[..i + 1]) <= AllKeys(commands)
    decreases |commands|
  {
    assert commands[..i + 1][..i] == commands[..i];
    if i + 1 == |commands| {
      assert commands[..i + 1] == commands;
    } else {
      var init := commands[..|commands| - 1];
      assert init[..i + 1] == commands[..i + 1];
      AllKeysNext(init, i);
    }
  }

  /** The scan goes on over one command; it stops at a key of another slot. */
  method ScanCommand(v: View, has: set<Key>, hash: Key -> nat, ghost done: seq<Key>, keys: seq<Key>, before: Scan,
                     ghost all: seq<Key>) returns (s: Scan)
    requires WellFormed(v) && done + keys <= all
    requires Hashes(hash, v)
    requires Scanned(before, v, has, hash, done)
    ensures if s.cross then !SameSlot(hash, all) && all != [] else Scanned(s, v, has, hash, done + keys)
  {
    hide WellFormed, Shape;
    s := before;
    var j := 0;
    assert done + keys[..0] == done;
    while j < |keys|
      invariant 0 <= j <= |keys|
      invariant Scanned(s, v, has, hash, done + keys[..j])
    {
      var k := keys[j];
      ghost var so := done + keys[..j];
      assert so + [k] == done + keys[..j + 1];
      assert all[|so|] == k && SlotOf(hash, k) < SlotCount(v);
      var first := if s.first.None? then k else s.first.value;
      if k != first && SlotOf(hash, k) != SlotOf(hash, first) {
        CrossIsFinal(hash, so, k, all[|so| + 1..]);
        assert so + [k] + all[|so| + 1..] == all;
        return s.(cross := true);
      }
      ShapeOf(v);
      ScanOne(s, v, has, hash, so, k);
      var slot := SlotOf(hash, first);
      var counting := (v.table.owner[slot] == Some(v.self) && v.migrating[slot].Some?) || v.importing[slot].Some?;
      s := Scan(Some(first), s.several || k != first, s.missing || (counting && k !in has), false);
      j := j + 1;
    }
    assert keys[..j] == keys;
  }
}
