/** A master's array of replicas, as `clusterNodeRemoveSlave` changes it.

    The array holds pointers of 8 bytes.  The removal hands `memmove` the number of elements behind the
    removed one where a number of bytes is wanted, so only the first few bytes behind it move. */
module ReplicaArray {
  import opened Options

  const WIDTH: nat := 8 // sizeof(clusterNode*)

  type Bytes = seq<bv8>

  function PointerAt(b: Bytes, j: nat): Bytes
    requires WIDTH * (j + 1) <= |b|
  {
    b[WIDTH * j..WIDTH * (j + 1)]
  }

  /** The first position below `n` that holds the pointer. */
  function Find(b: Bytes, n: nat, p: Bytes, j: nat): Option<nat>
    requires WIDTH * n <= |b|
    decreases n - j
  {
    if j >= n then None else if PointerAt(b, j) == p then Some(j) else Find(b, n, p, j + 1)
  }

  lemma {:induction false} FindIs(b: Bytes, n: nat, p: Bytes, j: nat)
    requires WIDTH * n <= |b| && j <= n
    ensures match Find(b, n, p, j)
            case None => forall i :: j <= i < n ==> PointerAt(b, i) != p
            case Some(k) => j <= k < n && PointerAt(b, k) == p && forall i :: j <= i < k ==> PointerAt(b, i) != p
    decreases n - j
  {
    if j < n && PointerAt(b, j) != p { FindIs(b, n, p, j + 1); }
  }

  /** `len` bytes from `src` on are copied to `dst`. */
  function Moved(b: Bytes, dst: nat, src: nat, len: nat): (c: Bytes)
    requires dst + len <= |b| && src + len <= |b|
    ensures |c| == |b|
  {
    b[..dst] + b[src..src + len] + b[dst + len..]
  }

  /** The array after the removal of element `j` of `n`. */
  function Removed(b: Bytes, n: nat, j: nat): (c: Bytes)
    requires WIDTH * n <= |b| && j < n
    ensures |c| == |b|
  {
    Moved(b, WIDTH * j, WIDTH * (j + 1), n - 1 - j)
  }

  lemma OneMoreByte(b: Bytes, dst: nat, src: nat, i: nat)
    requires dst <= src && src + i < |b|
    ensures Moved(b, dst, src, i)[src + i] == b[src + i]
    ensures Moved(b, dst, src, i + 1) == Moved(b, dst, src, i)[dst + i := b[src + i]]
  {
  }

  /** `memmove` to a lower address. */
  method MoveDown(a: array<bv8>, dst: nat, src: nat, len: nat)
    requires dst <= src && src + len <= a.Length
    modifies a
    ensures a[..] == Moved(old(a[..]), dst, src, len)
  {
    ghost var b := a[..];
    var i := 0;
    while i < len
      invariant 0 <= i <= len
      invariant a[..] == Moved(b, dst, src, i)
    {
      OneMoreByte(b, dst, src, i);
      a[dst + i] := a[src + i];
      i := i + 1;
    }
  }

  /** `clusterNodeRemoveSlave`, on the first `n` pointers of the array. */
  method RemoveSlave(a: array<bv8>, n: nat, p: Bytes) returns (ok: bool, left: nat)
    requires WIDTH * n <= a.Length
    modifies a
    ensures match Find(old(a[..]), n, p, 0)
            case None => !ok && left == n && a[..] == old(a[..])
            case Some(j) => ok && j < n && left == n - 1 && a[..] == Removed(old(a[..]), n, j)
  {
    ghost var b := a[..];
    FindIs(b, n, p, 0);
    var j := 0;
    while j < n
      invariant 0 <= j <= n && a[..] == b && Find(b, n, p, j) == Find(b, n, p, 0)
    {
      assert a[WIDTH * j..WIDTH * (j + 1)] == PointerAt(b, j);
      if a[WIDTH * j..WIDTH * (j + 1)] == p {
        MoveDown(a, WIDTH * j, WIDTH * (j + 1), n - 1 - j);
        return true, n - 1;
      }
      j := j + 1;
    }
    return false, n;
  }

  /** The removal leaves exactly the other replicas, in order. */
  predicate LeavesOthers(b: Bytes, n: nat, j: nat)
    requires WIDTH * n <= |b| && j < n
  {
    Removed(b, n, j)[..WIDTH * (n - 1)] == b[..WIDTH * j] + b[WIDTH * (j + 1)..WIDTH * n]
  }

  /** The bytes of the pointers from `j` on that do not move are those of the pointer behind. */
  predicate RestRepeats(b: Bytes, n: nat, j: nat)
    requires WIDTH * n <= |b| && j < n
  {
    forall i :: WIDTH * j + (n - 1 - j) <= i < WIDTH * (n - 1) ==> b[i] == b[i + WIDTH]
  }

  /** A removal leaves the other replicas exactly when the unmoved bytes repeat; so always when the last
      replica is removed. */
  lemma RemovalIsRightIff(b: Bytes, n: nat, j: nat)
    requires WIDTH * n <= |b| && j < n
    ensures LeavesOthers(b, n, j) <==> RestRepeats(b, n, j)
    ensures j == n - 1 ==> LeavesOthers(b, n, j)
  {
    var after := Removed(b, n, j)[..WIDTH * (n - 1)];
    var wanted := b[..WIDTH * j] + b[WIDTH * (j + 1)..WIDTH * n];
    var moved := WIDTH * j + (n - 1 - j);
    assert |after| == |wanted|;
    forall i | 0 <= i < |wanted|
      ensures wanted[i] == if i < WIDTH * j then b[i] else b[i + WIDTH]
      ensures after[i] == if WIDTH * j <= i < moved then b[i + WIDTH] else b[i]
    {
    }
    if RestRepeats(b, n, j) {
      assert forall i :: 0 <= i < |wanted| ==> after[i] == wanted[i];
    } else {
      var i :| moved <= i < WIDTH * (n - 1) && b[i] != b[i + WIDTH];
      assert after[i] != wanted[i];
    }
  }

  /** Nodes that do not overlap: a node takes more than 256 bytes, so two addresses differ beyond their lowest
      byte. */
  predicate Apart(b: Bytes, n: nat)
    requires WIDTH * n <= |b|
  {
    forall i, k :: 0 <= i < k < n ==> PointerAt(b, i)[1..] != PointerAt(b, k)[1..]
  }

  /** Of replicas that are different nodes, only the last one is removed rightly. */
  lemma OnlyLastIsRemoved(b: Bytes, n: nat, j: nat)
    requires WIDTH * n <= |b| && j < n && Apart(b, n)
    ensures LeavesOthers(b, n, j) <==> j == n - 1
  {
    RemovalIsRightIff(b, n, j);
    if j < n - 1 && RestRepeats(b, n, j) { LastTwoAgree(b, n, j); }
  }

  lemma LastTwoAgree(b: Bytes, n: nat, j: nat)
    requires WIDTH * n <= |b| && j < n - 1 && RestRepeats(b, n, j)
    ensures PointerAt(b, n - 2)[1..] == PointerAt(b, n - 1)[1..]
  {
    var p, q := PointerAt(b, n - 2), PointerAt(b, n - 1);
    forall i | 1 <= i < WIDTH ensures p[i] == q[i] {
      assert b[WIDTH * (n - 2) + i] == b[WIDTH * (n - 2) + i + WIDTH];
    }
  }

  /** Two replicas at different addresses, of which the first is removed: the pointer left is neither of them. */
  lemma RemovalTearsPointer() returns (b: Bytes)
    ensures |b| == 2 * WIDTH && PointerAt(b, 0) != PointerAt(b, 1)
    ensures PointerAt(Removed(b, 2, 0), 0) != PointerAt(b, 0) && PointerAt(Removed(b, 2, 0), 0) != PointerAt(b, 1)
  {
    b := [0, 0, 0, 0, 0, 0, 0, 0, 1, 1, 0, 0, 0, 0, 0, 0];
    var c := Removed(b, 2, 0);
    assert PointerAt(b, 0)[0] == 0 && PointerAt(b, 1)[1] == 1;
    assert c == Moved(b, 0, 8, 1) && c[0] == b[8] && c[1] == b[1];
    assert PointerAt(c, 0)[0] == c[0] && PointerAt(c, 0)[1] == c[1];
  }
}
