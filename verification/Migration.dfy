/** Live migration of one slot from a source to a target node, key by key, while clients use it.

    Clients send ASKING only after an ASK reply.  As long as every MIGRATE gets its reply, the two
    nodes together behave as one map: no key is in both except the one in flight, the source never
    gains a key, and every request that is served is answered as the one map would answer it. */
module Migration {
  import opened Options
  import opened Slots
  import opened Cluster
  import opened Routing

  type Value = int
  type ReplyValue = int

  type Db = map<Key, Value>

  /** A command reads and writes its own keys only. */
  datatype Command = Command(keys: seq<Key>, run: Db -> Db, reply: Db -> ReplyValue)

  function KeySet(c: Command): set<Key> {
    set k | k in c.keys
  }

  function Restrict(db: Db, ks: set<Key>): Db {
    map k | k in db && k in ks :: db[k]
  }

  function Execute(db: Db, c: Command): Db {
    (db - KeySet(c)) + Restrict(c.run(Restrict(db, KeySet(c))), KeySet(c))
  }

  function Answer(db: Db, c: Command): ReplyValue {
    c.reply(Restrict(db, KeySet(c)))
  }

  // ---------------------------------------------------------------- the protocol

  /** The two nodes' views while the slot is open, and the hash. */
  datatype Setup = Setup(source: View, target: View, hash: Key -> nat, slot: nat)

  /** The source, a master, owns the slot and migrates it to the target, a master that imports it. */
  ghost predicate Open(x: Setup) {
    && WellFormed(x.source) && WellFormed(x.target) && SlotCount(x.source) == SlotCount(x.target)
    && Hashes(x.hash, x.source) && Hashes(x.hash, x.target) && x.slot < SlotCount(x.source)
    && x.source.self != x.target.self && Me(x.source).master && Me(x.target).master
    && x.source.table.owner[x.slot] == Some(x.source.self) && x.source.migrating[x.slot] == Some(x.target.self)
    && x.target.self in x.source.nodes && x.source.importing[x.slot].None?
    && x.target.table.owner[x.slot] == Some(x.source.self) && x.target.importing[x.slot].Some?
    && x.target.migrating[x.slot].None?
  }

  /** A MIGRATE at work: the key and the value it has sent to the target, whether this is its second try, and
      what the target answered: restored, or refused because it has the key. */
  datatype Attempt = Attempt(key: Key, value: Value, retried: bool, answer: Option<bool>)

  /** A RESTORE that is still on its way although MIGRATE has given up on it. */
  datatype Query = Query(key: Key, value: Value)

  /** The slot's keys at either node; the MIGRATE the source is executing; the RESTOREs left behind by broken
      connections; the key lists clients were told to ASK about; whether the source has given the slot
      away, and whether the target has been assigned it. */
  datatype State = State(src: Db, dst: Db, migrate: Option<Attempt>, late: multiset<Query>, asked: set<seq<Key>>,
                         released: bool, closed: bool)

  /** `Break` is a read or write error of the connection MIGRATE uses; `timedOut` is ETIMEDOUT, and `written`
      says whether the query had been sent.  `LateRestore` is the execution of a query left behind. */
  datatype Event =
    | AtSource(c: Command, f: Flags)
    | AtTarget(c: Command, f: Flags)
    | Migrate(k: Key)
    | Restore
    | Reply
    | Break(timedOut: bool, written: bool)
    | LateRestore(q: Query)
    | Release
    | Close

  predicate InSlot(x: Setup, keys: seq<Key>) {
    forall i :: 0 <= i < |keys| ==> SlotOf(x.hash, keys[i]) == x.slot
  }

  /** The source executes nothing else while MIGRATE waits; ASKING follows an ASK for these keys; the target
      is assigned the slot when no keys are left at the source. */
  predicate Enabled(x: Setup, s: State, e: Event) {
    match e
    case AtSource(c, _) => InSlot(x, c.keys) && s.migrate.None?
    case AtTarget(c, f) => InSlot(x, c.keys) && (f.asking ==> c.keys in s.asked)
    case Migrate(k) => s.migrate.None? && k in s.src
    case Restore => s.migrate.Some? && s.migrate.value.answer.None?
    case Reply => s.migrate.Some? && s.migrate.value.answer.Some?
    case Break(_, _) => s.migrate.Some?
    case LateRestore(q) => q in s.late
    case Release => s.migrate.None?
    case Close => !s.closed && s.migrate.None? && s.src == map[]
  }

  /** The source's view: its SETSLOT NODE gives the slot to the target. */
  ghost function SourceView(x: Setup, released: bool): View
    requires Open(x)
  {
    if released then SetSlotNode(x.source, x.slot, x.target.self, 0) else x.source
  }

  /** The target's view: SETSLOT NODE assigns it the slot when it closes. */
  ghost function TargetView(x: Setup, closed: bool): View
    requires Open(x)
  {
    if closed then SetSlotNode(x.target, x.slot, x.target.self, 0) else x.target
  }

  lemma SourceViewIs(x: Setup, released: bool)
    requires Open(x)
    ensures var v := SourceView(x, released);
      && WellFormed(v) && Hashes(x.hash, v) && SlotCount(v) == SlotCount(x.source) && v.self == x.source.self
      && v.table.owner[x.slot] == Some(if released then x.target.self else x.source.self)
      && (MigratesAway(v, x.slot) <==> !released) && v.importing[x.slot].None? && Me(v).master
  {
    hide WellFormed;
    SelfIsKnown(x.source);
    if released {
      GivenView(x.source, x.slot, x.target.self);
    }
  }

  lemma TargetViewIs(x: Setup, closed: bool)
    requires Open(x)
    ensures var v := TargetView(x, closed);
      && WellFormed(v) && Hashes(x.hash, v) && SlotCount(v) == SlotCount(x.target) && v.self == x.target.self
      && v.table.owner[x.slot] == Some(if closed then x.target.self else x.source.self)
      && !MigratesAway(v, x.slot) && (v.importing[x.slot].Some? <==> !closed) && Me(v).master
  {
    hide WellFormed;
    if closed {
      ClosedView(x.target, x.slot);
    } else {
      KnownNames(x.target, x.target.self) by { assert WellFormed(x.target); SelfIsKnown(x.target); }
    }
  }

  /** A node that gives a slot away owns it no longer and does not import it. */
  lemma GivenView(v: View, j: nat, n: Name)
    requires WellFormed(v) && j < SlotCount(v) && Me(v).master && v.importing[j].None? && n in v.nodes && n != v.self
    ensures var w := SetSlotNode(v, j, n, 0);
      && WellFormed(w) && SlotCount(w) == SlotCount(v) && w.self == v.self
      && w.table.owner[j] == Some(n) && w.importing[j].None? && Me(w).master
  {
    hide MaxEpoch, Shape, Rebind, BumpEpoch;
    RebindOwner(v.table, n, j);
  }

  lemma SelfIsKnown(v: View)
    requires WellFormed(v)
    ensures v.self in v.nodes && |v.migrating| == |v.importing| == SlotCount(v)
  {
  }

  lemma BumpKeepsShape(v: View)
    requires WellFormed(v)
    ensures var w := BumpEpoch(v);
      && WellFormed(w) && SameFrame(v, w) && Me(w).master == Me(v).master && w.table == v.table
      && w.migrating == v.migrating && w.importing == v.importing
  {
    hide Shape;
  }

  /** A master that imports a slot and is assigned it owns it, and neither imports nor migrates it. */
  lemma ClosedView(v: View, j: nat)
    requires WellFormed(v) && j < SlotCount(v) && Me(v).master && v.importing[j].Some?
    ensures var w := SetSlotNode(v, j, v.self, 0);
      && WellFormed(w) && SlotCount(w) == SlotCount(v) && w.self == v.self
      && w.table.owner[j] == Some(v.self)
      && w.migrating[j].None? && w.importing[j].None? && Me(w).master
  {
    hide MaxEpoch, Shape, Rebind, BumpEpoch;
    BumpKeepsShape(v.(migrating := v.migrating[j := None]));
    var u := Closed(v, j, v.self, 0);
    assert u.self == v.self && u.nodes.Keys == v.nodes.Keys;
    RebindOwner(v.table, v.self, j);
  }

  lemma RebindOwner(t: Table, n: Name, j: nat)
    requires Shape(t) && n in t.sets && j < |t.owner|
    ensures Rebind(t, n, j).owner == t.owner[j := Some(n)]
  {
  }

  ghost function RouteAt(x: Setup, s: State, e: Event): Route
    requires Open(x) && Enabled(x, s, e) && (e.AtSource? || e.AtTarget?)
  {
    match e
    case AtSource(c, f) =>
      SourceViewIs(x, s.released);
      RouteOf(SourceView(x, s.released), s.src.Keys, x.hash, c.keys, f)
    case AtTarget(c, f) =>
      TargetViewIs(x, s.closed);
      RouteOf(TargetView(x, s.closed), s.dst.Keys, x.hash, c.keys, f)
  }

  /** RESTORE without REPLACE refuses a key the target has. */
  function Restored(dst: Db, k: Key, value: Value): Db {
    if k in dst then dst else dst[k := value]
  }

  /** The connection breaks: the query may still arrive later; a first try that did not time out is repeated. */
  function Broken(s: State, a: Attempt, timedOut: bool, written: bool): State {
    s.(late := if a.answer.None? && written then s.late + multiset{Query(a.key, a.value)} else s.late,
       migrate := if !timedOut && !a.retried then Some(a.(retried := true, answer := None)) else None)
  }

  ghost function Step(x: Setup, s: State, e: Event): (State, Option<ReplyValue>)
    requires Open(x) && Enabled(x, s, e)
  {
    match e
    case AtSource(c, f) =>
      (match RouteAt(x, s, e)
       case Serve => (s.(src := Execute(s.src, c)), Some(Answer(s.src, c)))
       case Ask(_) => (s.(asked := s.asked + {c.keys}), None)
       case _ => (s, None))
    case AtTarget(c, f) =>
      (match RouteAt(x, s, e)
       case Serve => (s.(dst := Execute(s.dst, c)), Some(Answer(s.dst, c)))
       case _ => (s, None))
    case Migrate(k) => (s.(migrate := Some(Attempt(k, s.src[k], false, None))), None)
    case Restore =>
      var a := s.migrate.value;
      (s.(dst := Restored(s.dst, a.key, a.value), migrate := Some(a.(answer := Some(a.key !in s.dst)))), None)
    case Reply =>
      var a := s.migrate.value;
      (s.(src := if a.answer.value then s.src - {a.key} else s.src, migrate := None), None)
    case Break(timedOut, written) => (Broken(s, s.migrate.value, timedOut, written), None)
    case LateRestore(q) => (s.(late := s.late - multiset{q}, dst := Restored(s.dst, q.key, q.value)), None)
    case Release => (s.(released := s.released || s.src == map[]), None)
    case Close => (s.(closed := true), None)
  }

  // ---------------------------------------------------------------- the invariant

  /** The key that is restored at the target and not yet deleted at the source. */
  function Flight(s: State): Option<Key> {
    if s.migrate.Some? && s.migrate.value.answer == Some(true) then Some(s.migrate.value.key) else None
  }

  /** The key in flight counts at the target only. */
  function AtSourceOnly(s: State): Db {
    if Flight(s).Some? then s.src - {Flight(s).value} else s.src
  }

  /** What the two nodes hold together. */
  function Whole(s: State): Db {
    AtSourceOnly(s) + s.dst
  }

  predicate Lacks(s: State, keys: seq<Key>) {
    exists i :: 0 <= i < |keys| && keys[i] !in s.src
  }

  /** Clients that ask name a key the source lacks; a slot given away leaves nothing behind. */
  predicate ClientsOk(s: State) {
    && (forall ks :: ks in s.asked ==> Lacks(s, ks))
    && (s.closed || s.released ==> s.src == map[])
  }

  /** MIGRATE has sent what the source has. */
  predicate AttemptOk(s: State) {
    s.migrate.Some? ==> s.migrate.value.key in s.src && s.migrate.value.value == s.src[s.migrate.value.key]
  }

  /** A key is at both nodes only while in flight, and MIGRATE is never refused. */
  predicate Inv(s: State) {
    && s.src.Keys !! (s.dst.Keys - (if Flight(s).Some? then {Flight(s).value} else {}))
    && AttemptOk(s) && s.late == multiset{}
    && (s.migrate.Some? ==> s.migrate.value.answer != Some(false))
    && ClientsOk(s)
  }

  // ---------------------------------------------------------------- single steps

  /** A request the source serves names only keys it has. */
  lemma SourceServes(x: Setup, s: State, c: Command, f: Flags)
    requires Open(x) && Enabled(x, s, AtSource(c, f)) && RouteAt(x, s, AtSource(c, f)) == Serve
    ensures KeySet(c) <= s.src.Keys
  {
    hide WellFormed, SourceView;
    SourceViewIs(x, s.released);
    forall k | k in c.keys ensures k in s.src {
      var i :| 0 <= i < |c.keys| && c.keys[i] == k;
      assert SlotOf(x.hash, c.keys[0]) == x.slot;
      assert !Missing(c.keys, s.src.Keys);
    }
  }

  /** A request the target serves names only keys the source does not have, other than the one in flight. */
  lemma TargetServes(x: Setup, s: State, c: Command, f: Flags)
    requires Open(x) && Inv(s) && Enabled(x, s, AtTarget(c, f)) && RouteAt(x, s, AtTarget(c, f)) == Serve
    ensures KeySet(c) !! AtSourceOnly(s).Keys
  {
    hide WellFormed, TargetView;
    TargetViewIs(x, s.closed);
    forall k | k in c.keys ensures k !in AtSourceOnly(s) {
      var i :| 0 <= i < |c.keys| && c.keys[i] == k;
      assert SlotOf(x.hash, c.keys[0]) == x.slot;
      if !s.closed {
        assert Lacks(s, c.keys);
        if SeveralKeys(c.keys) {
          assert !Missing(c.keys, s.dst.Keys);
        } else {
          var j :| 0 <= j < |c.keys| && c.keys[j] !in s.src;
          assert c.keys[i] == c.keys[0] && c.keys[j] == c.keys[0];
        }
      }
    }
  }

  /** A node that holds all there is of a command's keys answers and changes them as the whole would. */
  lemma ActsOnOne(other: Db, mine: Db, c: Command)
    requires KeySet(c) !! other.Keys
    ensures Answer(other + mine, c) == Answer(mine, c)
    ensures Execute(other + mine, c) == other + Execute(mine, c)
  {
    assert Restrict(other + mine, KeySet(c)) == Restrict(mine, KeySet(c));
  }

  lemma ActsOnOther(mine: Db, other: Db, c: Command)
    requires KeySet(c) !! other.Keys
    ensures Answer(mine + other, c) == Answer(mine, c)
    ensures Execute(mine + other, c) == Execute(mine, c) + other
  {
    assert Restrict(mine + other, KeySet(c)) == Restrict(mine, KeySet(c));
  }

  /** Executing a command whose keys are all there adds no key. */
  lemma NoNewKeys(db: Db, c: Command)
    ensures Execute(db, c).Keys <= db.Keys + KeySet(c)
  {
  }

  /** Whether a step serves a command, and which. */
  ghost function ServedBy(x: Setup, s: State, e: Event): Option<Command>
    requires Open(x) && Enabled(x, s, e)
  {
    if (e.AtSource? || e.AtTarget?) && RouteAt(x, s, e) == Serve then Some(e.c) else None
  }

  /** One step without a broken connection: a served command acts on the whole, anything else leaves the
      whole alone; the source gains no key. */
  lemma StepActsOnWhole(x: Setup, s: State, e: Event)
    requires Open(x) && Inv(s) && Enabled(x, s, e) && !e.Break?
    ensures var (t, r) := Step(x, s, e);
      && Inv(t)
      && t.src.Keys <= s.src.Keys
      && match ServedBy(x, s, e)
         case Some(c) => r == Some(Answer(Whole(s), c)) && Whole(t) == Execute(Whole(s), c)
         case None => r == None && Whole(t) == Whole(s)
  {
    hide Open, RouteOf, TargetView, SourceView, WellFormed, Lacks;
    match e
    case AtSource(c, f) =>
      if RouteAt(x, s, e) == Serve {
        SourceServes(x, s, c, f);
        ActsOnOther(s.src, s.dst, c);
        NoNewKeys(s.src, c);
        SourceKeeps(s, c);
      } else if RouteAt(x, s, e).Ask? {
        AskNamesMissing(x, s, c, f);
        FewerKeysLack(s, Step(x, s, e).0);
      }
    case AtTarget(c, f) =>
      if RouteAt(x, s, e) == Serve {
        TargetServes(x, s, c, f);
        ActsOnOne(AtSourceOnly(s), s.dst, c);
        NoNewKeys(s.dst, c);
        TargetKeeps(s, c);
      }
    case _ => MigrateKeeps(x, s, e);
  }

  lemma MigrateKeeps(x: Setup, s: State, e: Event)
    requires Open(x) && Inv(s) && Enabled(x, s, e) && !e.Break? && !e.AtSource? && !e.AtTarget?
    ensures var t := Step(x, s, e).0;
      Inv(t) && t.src.Keys <= s.src.Keys && Whole(t) == Whole(s)
  {
    hide Open, Lacks;
    FewerKeysLack(s, Step(x, s, e).0);
  }

  lemma AskNamesMissing(x: Setup, s: State, c: Command, f: Flags)
    requires Open(x) && Enabled(x, s, AtSource(c, f)) && RouteAt(x, s, AtSource(c, f)).Ask?
    ensures Lacks(s, c.keys)
  {
    hide WellFormed, SourceView;
    SourceViewIs(x, s.released);
    assert Missing(c.keys, s.src.Keys);
  }

  lemma FewerKeysLack(s: State, t: State)
    requires t.src.Keys <= s.src.Keys && forall ks :: ks in t.asked ==> Lacks(s, ks)
    ensures forall ks :: ks in t.asked ==> Lacks(t, ks)
  {
    forall ks | ks in t.asked ensures Lacks(t, ks) {
      assert Lacks(s, ks);
    }
  }

  lemma SourceKeeps(s: State, c: Command)
    requires Inv(s) && s.migrate.None? && KeySet(c) <= s.src.Keys
    ensures Inv(s.(src := Execute(s.src, c))) && Execute(s.src, c).Keys <= s.src.Keys
  {
    hide Lacks;
    NoNewKeys(s.src, c);
    FewerKeysLack(s, s.(src := Execute(s.src, c)));
    if s.src == map[] { assert Execute(s.src, c) == map[]; }
  }

  lemma TargetKeeps(s: State, c: Command)
    requires Inv(s) && KeySet(c) !! AtSourceOnly(s).Keys
    ensures Inv(s.(dst := Execute(s.dst, c)))
  {
    hide Lacks;
    NoNewKeys(s.dst, c);
    var t := s.(dst := Execute(s.dst, c));
    FewerKeysLack(s, t);
  }

  // ---------------------------------------------------------------- runs

  ghost predicate Runs(x: Setup, s: State, es: seq<Event>)
    requires Open(x)
    decreases |es|
  {
    es == [] || (Enabled(x, s, es[0]) && Runs(x, Step(x, s, es[0]).0, es[1..]))
  }

  ghost function Final(x: Setup, s: State, es: seq<Event>): State
    requires Open(x) && Runs(x, s, es)
    decreases |es|
  {
    if es == [] then s else Final(x, Step(x, s, es[0]).0, es[1..])
  }

  /** The commands served in a run, by either node, in order. */
  ghost function Served(x: Setup, s: State, es: seq<Event>): seq<Command>
    requires Open(x) && Runs(x, s, es)
    decreases |es|
  {
    if es == [] then []
    else
      var rest := Served(x, Step(x, s, es[0]).0, es[1..]);
      match ServedBy(x, s, es[0])
      case Some(c) => [c] + rest
      case None => rest
  }

  /** The replies clients got. */
  ghost function Replies(x: Setup, s: State, es: seq<Event>): seq<ReplyValue>
    requires Open(x) && Runs(x, s, es)
    decreases |es|
  {
    if es == [] then []
    else
      var (t, r) := Step(x, s, es[0]);
      (if r.Some? then [r.value] else []) + Replies(x, t, es[1..])
  }

  /** The same commands on one map. */
  function ExecuteAll(db: Db, cs: seq<Command>): Db
    decreases |cs|
  {
    if cs == [] then db else ExecuteAll(Execute(db, cs[0]), cs[1..])
  }

  function AnswerAll(db: Db, cs: seq<Command>): seq<ReplyValue>
    decreases |cs|
  {
    if cs == [] then [] else [Answer(db, cs[0])] + AnswerAll(Execute(db, cs[0]), cs[1..])
  }

  /** No connection breaks. */
  predicate Reliable(es: seq<Event>) {
    forall i :: 0 <= i < |es| ==> !es[i].Break?
  }

  /** Live migration: over any run without broken connections, the two nodes answer and end as one map that
      executed the served commands; no key is at both nodes except the one in flight; and the source gains
      no key. */
  lemma {:induction false} MigrationIsTransparent(x: Setup, s: State, es: seq<Event>)
    requires Open(x) && Inv(s) && Runs(x, s, es) && Reliable(es)
    ensures var t := Final(x, s, es);
      && Replies(x, s, es) == AnswerAll(Whole(s), Served(x, s, es))
      && Whole(t) == ExecuteAll(Whole(s), Served(x, s, es))
      && t.src.Keys <= s.src.Keys
      && (forall k :: k in t.src && k in t.dst ==> Flight(t) == Some(k))
      && (t.closed ==> t.src == map[])
    decreases |es|
  {
    hide Open, Step, Enabled, ServedBy, Execute, Answer, Whole;
    if es != [] {
      var e := es[0];
      StepActsOnWhole(x, s, e);
      var t := Step(x, s, e).0;
      MigrationIsTransparent(x, t, es[1..]);
      var rest := Served(x, t, es[1..]);
      if ServedBy(x, s, e).Some? {
        var cs := [ServedBy(x, s, e).value] + rest;
        assert cs[1..] == rest;
      }
    }
  }

  /** RESTORE-ASKING is served by the target before and after it is assigned the slot. */
  lemma RestoreIsServed(x: Setup, s: State, k: Key)
    requires Open(x) && SlotOf(x.hash, k) == x.slot
    ensures WellFormed(TargetView(x, s.closed)) && Hashes(x.hash, TargetView(x, s.closed))
    ensures TargetView(x, s.closed).table.owner[x.slot].Some?
    ensures RouteOf(TargetView(x, s.closed), s.dst.Keys, x.hash, [k], Flags(true, false)) == Serve
  {
    hide WellFormed, TargetView;
    TargetViewIs(x, s.closed);
  }

  /** Without broken connections, RESTORE never finds the key at the target. */
  lemma RestoreIsAccepted(x: Setup, s: State)
    requires Open(x) && Inv(s) && Enabled(x, s, Restore)
    ensures Step(x, s, Restore).0.migrate.value.answer == Some(true)
  {
  }

  // ---------------------------------------------------------------- closing the slot

  /** The source's SETSLOT NODE is refused while it holds a key of the slot, and accepted otherwise. */
  lemma ReleaseIffEmpty(x: Setup, s: State)
    requires Open(x)
    ensures SetSlotNode(x.source, x.slot, x.target.self, |s.src|) == SourceView(x, s.src == map[])
    ensures SetSlotNode(x.source, x.slot, x.target.self, |s.src|) == x.source <==> s.src != map[]
  {
    hide WellFormed, Closed;
    SourceViewIs(x, true);
  }

  function Exists(k: Key): Command {
    Command([k], db => db, db => if k in db then 1 else 0)
  }

  /** Assigning the slot to the target answers every request for one key as the whole would exactly when
      the source has no keys left. */
  lemma CloseSafeIff(x: Setup, s: State)
    requires Open(x) && Inv(s) && s.migrate.None? && !s.closed
    requires forall k :: k in s.src ==> SlotOf(x.hash, k) == x.slot
    ensures (forall c: Command | |c.keys| == 1 && InSlot(x, c.keys) ::
               Step(x, s.(closed := true), AtTarget(c, Flags(false, false))).1 == Some(Answer(Whole(s), c)))
            <==> s.src == map[]
  {
    var t := s.(closed := true);
    forall c: Command | |c.keys| == 1 && InSlot(x, c.keys)
      ensures Step(x, t, AtTarget(c, Flags(false, false))).1 == Some(Answer(s.dst, c))
    {
      ClosedTargetServes(x, t, c);
    }
    if s.src == map[] {
      assert Whole(s) == s.dst;
    } else {
      HasMember(s.src.Keys);
      var k :| k in s.src.Keys;
      var c := Exists(k);
      assert InSlot(x, c.keys) && k in Whole(s) && k !in s.dst;
      assert Answer(Whole(s), c) == 1 && Answer(s.dst, c) == 0;
    }
  }

  lemma HasMember(ks: set<Key>)
    requires ks != {}
    ensures exists k :: k in ks
  {
    if forall k :: k !in ks {
      assert false;
    }
  }

  lemma ClosedTargetServes(x: Setup, t: State, c: Command)
    requires Open(x) && t.closed && InSlot(x, c.keys) && c.keys != []
    ensures Step(x, t, AtTarget(c, Flags(false, false))).1 == Some(Answer(t.dst, c))
  {
    hide WellFormed;
    TargetViewIs(x, true);
    assert SlotOf(x.hash, c.keys[0]) == x.slot;
    assert SameSlot(x.hash, c.keys);
  }
}
