/** The doubly linked list under the job queues and the rewrite buffer, with its nodes rewired in
    place. */
module AdList {
  class ListNode<T> {
    var prev: ListNode?<T>
    var next: ListNode?<T>
    var value: T

    constructor (value: T)
      ensures this.value == value && prev == null && next == null
    {
      this.value := value;
      prev, next := null, null;
    }
  }

  class List<T> {
    var head: ListNode?<T>
    var tail: ListNode?<T>
    var len: nat
    /** The nodes from head to tail. */
    ghost var nodes: seq<ListNode<T>>

    /** Node `i` points to its neighbours. */
    ghost predicate Wired(i: nat)
      requires i < |nodes|
      reads this, nodes
    {
      && nodes[i].prev == (if i == 0 then null else nodes[i - 1])
      && nodes[i].next == (if i + 1 == |nodes| then null else nodes[i + 1])
    }

    ghost predicate Valid()
      reads this, nodes
    {
      && len == |nodes|
      && head == (if nodes == [] then null else nodes[0])
      && tail == (if nodes == [] then null else nodes[|nodes| - 1])
      && (forall i, j :: 0 <= i < j < |nodes| ==> nodes[i] != nodes[j])
      && (forall i :: 0 <= i < |nodes| ==> Wired(i))
    }

    /** The values from head to tail. */
    ghost function Contents(): seq<T>
      reads this, nodes
    {
      seq(|nodes|, i requires 0 <= i < |nodes| reads this, nodes => nodes[i].value)
    }

    constructor ()
      ensures Valid() && nodes == [] && Contents() == []
    {
      head, tail, len, nodes := null, null, 0, [];
    }

    /** `listAddNodeTail`. */
    method AddNodeTail(value: T) returns (node: ListNode<T>)
      requires Valid()
      modifies this, nodes
      ensures Valid() && fresh(node) && nodes == old(nodes) + [node]
      ensures Contents() == old(Contents()) + [value]
    {
      node := new ListNode(value);
      if len == 0 {
        head, tail := node, node;
      } else {
        node.prev := tail;
        tail.next := node;
        tail := node;
      }
      len := len + 1;
      nodes := nodes + [node];
      forall i | 0 <= i < |nodes| ensures Wired(i) {
        if i + 1 < |nodes| { assert old(Wired(i)); }
      }
    }

    /** `listAddNodeHead`. */
    method AddNodeHead(value: T) returns (node: ListNode<T>)
      requires Valid()
      modifies this, nodes
      ensures Valid() && fresh(node) && nodes == [node] + old(nodes)
      ensures Contents() == [value] + old(Contents())
    {
      node := new ListNode(value);
      if len == 0 {
        head, tail := node, node;
      } else {
        node.next := head;
        head.prev := node;
        head := node;
      }
      len := len + 1;
      nodes := [node] + nodes;
      assert forall i :: 0 < i < |nodes| ==> nodes[i] == old(nodes)[i - 1];
      forall i | 0 <= i < |nodes| ensures Wired(i) {
        if i > 0 { assert old(Wired(i - 1)); }
      }
    }

    /** `listDelNode`: exactly this node is unlinked. */
    method DelNode(node: ListNode<T>, ghost k: nat)
      requires Valid() && k < |nodes| && nodes[k] == node
      modifies this, nodes
      ensures Valid() && nodes == old(nodes)[..k] + old(nodes)[k + 1..]
      ensures Contents() == old(Contents())[..k] + old(Contents())[k + 1..]
    {
      assert Wired(k);
      assert k > 0 ==> Wired(k - 1);
      assert k + 1 < |nodes| ==> Wired(k + 1);
      if node.prev != null {
        node.prev.next := node.next;
      } else {
        head := node.next;
      }
      if node.next != null {
        node.next.prev := node.prev;
      } else {
        tail := node.prev;
      }
      len := len - 1;
      nodes := nodes[..k] + nodes[k + 1..];
      assert forall i :: 0 <= i < |nodes| ==> nodes[i] == old(nodes)[if i < k then i else i + 1];
      forall i | 0 <= i < |nodes| ensures Wired(i) {
        assert old(Wired(if i < k then i else i + 1));
      }
    }
  }

  /** An iterator from head to tail. */
  class ListIter<T> {
    var next: ListNode?<T>

    /** The next node to return is node `k` of the list. */
    ghost predicate At(l: List<T>, k: nat)
      reads this, l
    {
      k <= |l.nodes| && next == if k == |l.nodes| then null else l.nodes[k]
    }

    /** `listRewind`. */
    constructor (l: List<T>)
      requires l.Valid()
      ensures At(l, 0)
    {
      next := l.head;
    }

    /** `listNext`: returns node `k`, or nothing at the end. */
    method Next(l: List<T>, ghost k: nat) returns (node: ListNode?<T>)
      requires l.Valid() && At(l, k)
      modifies this
      ensures if k == |l.nodes| then node == null && At(l, k) else node == l.nodes[k] && At(l, k + 1)
    {
      node := next;
      if node != null {
        assert l.Wired(k);
        next := node.next;
      }
    }
  }

  /** Deleting the node just returned does not disturb the iteration. */
  twostate lemma IterationSurvives<T>(it: ListIter<T>, l: List<T>, k: nat)
    requires old(allocated(it)) && old(allocated(l)) && 0 < k <= |old(l.nodes)| && old(it.At(l, k)) && unchanged(it)
    requires l.nodes == old(l.nodes)[..k - 1] + old(l.nodes)[k..]
    ensures it.At(l, k - 1)
  {
  }
}
