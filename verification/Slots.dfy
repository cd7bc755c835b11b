/** The slot table of a cluster node: who owns each slot, and each known node's slot bitmap
    with its population count.  The two representations are kept in step by hand in the
    source; here every operation is shown to keep them in agreement. */
module Slots {
  import opened Options

  /** Node ids are compared as a total order (`memcmp`). */
  type Name = nat

  /** One element a slot. */
  type Bitmap = seq<bool>

  /** `slots` and `numslots` of one node. */
  datatype SlotSet = SlotSet(bits: Bitmap, count: int)

  /** `server.cluster->slots`, and the bitmap of every node in the node table. */
  datatype Table = Table(owner: seq<Option<Name>>, sets: map<Name, SlotSet>)

  /** How many bits are set. */
  function Count(b: Bitmap): nat {
    if b == [] then 0 else Count(b[..|b| - 1]) + if b[|b| - 1] then 1 else 0
  }

  lemma {:induction false} CountUpdate(b: Bitmap, j: nat, x: bool)
    requires j < |b|
    ensures Count(b[j := x]) == Count(b) - (if b[j] then 1 else 0) + (if x then 1 else 0)
  {
    var last := |b| - 1;
    if j == last {
      assert b[j := x][..last] == b[..last];
    } else {
      assert b[j := x][..last] == b[..last][j := x];
      CountUpdate(b[..last], j, x);
    }
  }

  lemma {:induction false} CountZeroIffEmpty(b: Bitmap)
    ensures Count(b) == 0 <==> forall j :: 0 <= j < |b| ==> !b[j]
  {
    if b != [] {
      var last := |b| - 1;
      var init := b[..last];
      CountZeroIffEmpty(init);
      assert forall j :: 0 <= j < last ==> init[j] == b[j];
    }
  }

  function Empty(size: nat): (s: SlotSet)
    ensures |s.bits| == size && s.count == Count(s.bits)
  {
    var bits := seq(size, _ => false);
    CountZeroIffEmpty(bits);
    SlotSet(bits, 0)
  }

  // ---------------------------------------------------------------- operations

  /** Owners are known nodes, and every bitmap has one bit a slot. */
  predicate Shape(t: Table) {
    && (forall j :: 0 <= j < |t.owner| && t.owner[j].Some? ==> t.owner[j].value in t.sets)
    && (forall n :: n in t.sets ==> |t.sets[n].bits| == |t.owner|)
  }

  /** `clusterNodeSetSlotBit`. */
  function SetBit(s: SlotSet, j: nat): SlotSet
    requires j < |s.bits|
  {
    SlotSet(s.bits[j := true], if s.bits[j] then s.count else s.count + 1)
  }

  /** `clusterNodeClearSlotBit`; the count only falls when the bit was set. */
  function ClearBit(s: SlotSet, j: nat): SlotSet
    requires j < |s.bits|
  {
    SlotSet(s.bits[j := false], if s.bits[j] then s.count - 1 else s.count)
  }

  /** `clusterAddSlot`: nothing changes when the slot is already assigned. */
  function AddSlot(t: Table, n: Name, j: nat): (u: Table)
    requires Shape(t) && n in t.sets && j < |t.owner|
    ensures Shape(u)
  {
    if t.owner[j].Some? then t
    else Table(t.owner[j := Some(n)], t.sets[n := SetBit(t.sets[n], j)])
  }

  /** `clusterDelSlot`: nothing changes when the slot is already unassigned. */
  function DelSlot(t: Table, j: nat): (u: Table)
    requires Shape(t) && j < |t.owner|
    ensures Shape(u) && u.sets.Keys == t.sets.Keys && |u.owner| == |t.owner|
  {
    if t.owner[j].None? then t
    else
      var n := t.owner[j].value;
      Table(t.owner[j := None], t.sets[n := ClearBit(t.sets[n], j)])
  }

  /** Unbind then bind, as every rebinding site does. */
  function Rebind(t: Table, n: Name, j: nat): (u: Table)
    requires Shape(t) && n in t.sets && j < |t.owner|
    ensures Shape(u) && u.sets.Keys == t.sets.Keys && |u.owner| == |t.owner|
  {
    AddSlot(DelSlot(t, j), n, j)
  }

  /** The slots below `k` that `mask` marks are rebound to `n`: the loop of
      `clusterUpdateSlotsConfigWith`, and the loop by which a promoted replica takes over. */
  function RebindAll(t: Table, n: Name, mask: Bitmap, k: nat): (u: Table)
    requires Shape(t) && n in t.sets && |mask| == |t.owner| && k <= |mask|
    ensures Shape(u) && u.sets.Keys == t.sets.Keys && |u.owner| == |t.owner|
    decreases k
  {
    if k == 0 then t
    else
      var u := RebindAll(t, n, mask, k - 1);
      if mask[k - 1] then Rebind(u, n, k - 1) else u
  }

  /** The slots below `k` that `mask` marks are unassigned: the loops of `clusterDelNodeSlots`
      and `clusterDelNode`. */
  function DelAll(t: Table, mask: Bitmap, k: nat): (u: Table)
    requires Shape(t) && |mask| == |t.owner| && k <= |mask|
    ensures Shape(u) && u.sets.Keys == t.sets.Keys && |u.owner| == |t.owner|
    decreases k
  {
    if k == 0 then t
    else
      var u := DelAll(t, mask, k - 1);
      if mask[k - 1] then DelSlot(u, k - 1) else u
  }

  /** The slots a node's own bitmap holds are unassigned. */
  function DelNodeSlots(t: Table, n: Name): (u: Table)
    requires Shape(t) && n in t.sets
    ensures Shape(u) && u.sets.Keys == t.sets.Keys && |u.owner| == |t.owner|
  {
    DelAll(t, t.sets[n].bits, |t.owner|)
  }

  /** Which slots the table assigns to `n`. */
  function OwnedBy(t: Table, n: Name): Bitmap {
    seq(|t.owner|, j requires 0 <= j < |t.owner| => t.owner[j] == Some(n))
  }

  // ---------------------------------------------------------------- agreement

  /** A node's bitmap has exactly the slots the table assigns to it, and its count is right. */
  predicate SetAgrees(owner: seq<Option<Name>>, n: Name, s: SlotSet) {
    && |s.bits| == |owner|
    && (forall j :: 0 <= j < |owner| ==> (s.bits[j] <==> owner[j] == Some(n)))
    && s.count == Count(s.bits)
  }

  /** The assignment table and the bitmaps say the same thing. */
  predicate Agrees(t: Table) {
    Shape(t) && forall n :: n in t.sets ==> SetAgrees(t.owner, n, t.sets[n])
  }

  lemma SetBitAgrees(owner: seq<Option<Name>>, n: Name, s: SlotSet, j: nat)
    requires SetAgrees(owner, n, s) && j < |owner| && owner[j].None?
    ensures SetAgrees(owner[j := Some(n)], n, SetBit(s, j))
  {
    CountUpdate(s.bits, j, true);
  }

  lemma ClearBitAgrees(owner: seq<Option<Name>>, n: Name, s: SlotSet, j: nat)
    requires SetAgrees(owner, n, s) && j < |owner| && owner[j] == Some(n)
    ensures SetAgrees(owner[j := None], n, ClearBit(s, j))
  {
    CountUpdate(s.bits, j, false);
    CountZeroIffEmpty(s.bits);
  }

  lemma OthersAgree(owner: seq<Option<Name>>, n: Name, s: SlotSet, j: nat, x: Option<Name>)
    requires SetAgrees(owner, n, s) && j < |owner| && owner[j] != Some(n) && x != Some(n)
    ensures SetAgrees(owner[j := x], n, s)
  {
  }

  lemma AddSlotAgrees(t: Table, n: Name, j: nat)
    requires Agrees(t) && n in t.sets && j < |t.owner|
    ensures Agrees(AddSlot(t, n, j))
    ensures AddSlot(t, n, j).owner == if t.owner[j].Some? then t.owner else t.owner[j := Some(n)]
  {
    hide SetAgrees, SetBit;
    if t.owner[j].None? {
      var u := AddSlot(t, n, j);
      SetBitAgrees(t.owner, n, t.sets[n], j);
      forall m | m in t.sets && m != n ensures SetAgrees(u.owner, m, u.sets[m]) {
        OthersAgree(t.owner, m, t.sets[m], j, Some(n));
      }
    }
  }

  /** Unassigning a slot keeps the agreement, and the assertion in `clusterDelSlot`, that the
      owner's bit was set, never fails. */
  lemma DelSlotAgrees(t: Table, j: nat)
    requires Agrees(t) && j < |t.owner|
    ensures t.owner[j].Some? ==> t.sets[t.owner[j].value].bits[j]
    ensures Agrees(DelSlot(t, j)) && DelSlot(t, j).owner == t.owner[j := None]
  {
    if t.owner[j].Some? {
      assert SetAgrees(t.owner, t.owner[j].value, t.sets[t.owner[j].value]);
    }
    DelSlotKeepsAgreement(t, j);
  }

  lemma DelSlotKeepsAgreement(t: Table, j: nat)
    requires Agrees(t) && j < |t.owner|
    ensures Agrees(DelSlot(t, j)) && DelSlot(t, j).owner == t.owner[j := None]
  {
    hide SetAgrees, ClearBit;
    if t.owner[j].Some? {
      var n, u := t.owner[j].value, DelSlot(t, j);
      ClearBitAgrees(t.owner, n, t.sets[n], j);
      forall m | m in t.sets && m != n ensures SetAgrees(u.owner, m, u.sets[m]) {
        OthersAgree(t.owner, m, t.sets[m], j, None);
      }
    }
  }

  lemma RebindAgrees(t: Table, n: Name, j: nat)
    requires Agrees(t) && n in t.sets && j < |t.owner|
    ensures Agrees(Rebind(t, n, j)) && Rebind(t, n, j).owner == t.owner[j := Some(n)]
  {
    hide Agrees;
    assert Shape(t) by { AgreesIsShape(t); }
    DelSlotAgrees(t, j);
    AddSlotAgrees(DelSlot(t, j), n, j);
  }

  lemma AgreesIsShape(t: Table)
    requires Agrees(t)
    ensures Shape(t)
  {
  }

  /** Exactly the marked slots below `k` change hands. */
  lemma {:induction false} RebindAllAgrees(t: Table, n: Name, mask: Bitmap, k: nat)
    requires Shape(t) && Agrees(t) && n in t.sets && |mask| == |t.owner| && k <= |mask|
    ensures var u := RebindAll(t, n, mask, k);
      && Agrees(u)
      && forall j :: 0 <= j < |t.owner| ==> u.owner[j] == if j < k && mask[j] then Some(n) else t.owner[j]
    decreases k
  {
    hide Agrees, Shape, Rebind;
    if k > 0 {
      RebindAllAgrees(t, n, mask, k - 1);
      RebindAgrees(RebindAll(t, n, mask, k - 1), n, k - 1);
    }
  }

  /** Exactly the marked slots below `k` are unassigned. */
  lemma {:induction false} DelAllAgrees(t: Table, mask: Bitmap, k: nat)
    requires Shape(t) && Agrees(t) && |mask| == |t.owner| && k <= |mask|
    ensures var u := DelAll(t, mask, k);
      && Agrees(u)
      && forall j :: 0 <= j < |t.owner| ==> u.owner[j] == if j < k && mask[j] then None else t.owner[j]
    decreases k
  {
    hide Agrees, Shape, DelSlot;
    if k > 0 {
      DelAllAgrees(t, mask, k - 1);
      DelSlotAgrees(DelAll(t, mask, k - 1), k - 1);
    }
  }

  /** A node whose slots are deleted owns nothing, everybody else owns what they did, and the
      node can then be dropped from the table. */
  lemma DelNodeSlotsAgrees(t: Table, n: Name)
    requires Agrees(t) && n in t.sets
    ensures var u := DelNodeSlots(t, n);
      && Agrees(u)
      && Agrees(u.(sets := u.sets - {n}))
      && forall j :: 0 <= j < |t.owner| ==> u.owner[j] == if t.owner[j] == Some(n) then None else t.owner[j]
  {
    DelAllAgrees(t, t.sets[n].bits, |t.owner|);
    assert SetAgrees(t.owner, n, t.sets[n]);
    DropAgrees(DelNodeSlots(t, n), n);
  }

  lemma DropAgrees(t: Table, n: Name)
    requires Agrees(t) && forall j :: 0 <= j < |t.owner| ==> t.owner[j] != Some(n)
    ensures Agrees(t.(sets := t.sets - {n}))
  {
    hide SetAgrees;
  }

  /** A node new to the table owns nothing. */
  lemma LearnAgrees(t: Table, n: Name)
    requires Agrees(t) && n !in t.sets
    ensures Agrees(t.(sets := t.sets[n := Empty(|t.owner|)]))
  {
  }
}
