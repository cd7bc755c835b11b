/** DUMP payloads: a serialized value, two bytes of version and eight bytes of checksum. */
module DumpPayload {
  import opened Crc64

  /** REDIS_RDB_VERSION. */
  const RDB_VERSION: bv16 := 6

  /** The version, little endian. */
  function VersionBytes(): seq<Byte> {
    [(RDB_VERSION & 0xff) as Byte, (RDB_VERSION >> 8) as Byte]
  }

  function VersionOf(lo: Byte, hi: Byte): bv16 {
    (hi as bv16 << 8) | lo as bv16
  }

  function ByteAt(crc: bv64, i: nat): Byte
    requires i < 8
  {
    Low(Drop(crc, i))
  }

  /** A checksum, little endian. */
  function Bytes(crc: bv64): seq<Byte> {
    seq(8, i requires 0 <= i < 8 => ByteAt(crc, i))
  }

  /** A well formed payload around a serialized value. */
  function Dump(body: seq<Byte>): seq<Byte> {
    body + VersionBytes() + Bytes(Crc(0, body + VersionBytes()))
  }

  predicate Verifies(p: seq<Byte>) {
    && |p| >= 10
    && VersionOf(p[|p| - 10], p[|p| - 9]) == RDB_VERSION
    && Bytes(Crc(0, p[..|p| - 8])) == p[|p| - 8..]
  }

  /** `createDumpPayload`, once the value is serialized. */
  method CreateDumpPayload(body: seq<Byte>) returns (payload: seq<Byte>)
    ensures payload == Dump(body)
  {
    hide Crc;
    payload := body;
    payload := payload + [(RDB_VERSION & 0xff) as Byte, (RDB_VERSION >> 8) as Byte];
    var crc := Compute(0, payload);
    payload := payload + Bytes(crc);
  }

  /** `verifyDumpPayload`. */
  method VerifyDumpPayload(p: seq<Byte>) returns (ok: bool)
    ensures ok == Verifies(p)
  {
    hide Crc, Bytes, VersionOf;
    if |p| < 10 { return false; }
    var footer := p[|p| - 10..];
    if VersionOf(footer[0], footer[1]) != RDB_VERSION { return false; }
    var crc := Compute(0, p[..|p| - 8]);
    return Bytes(crc) == footer[2..];
  }

  lemma VersionIsRead(lo: Byte, hi: Byte)
    ensures VersionOf(lo, hi) == RDB_VERSION <==> [lo, hi] == VersionBytes()
  {
    assert VersionOf(lo, hi) == RDB_VERSION <==> lo == 6 && hi == 0;
    assert VersionBytes() == [6, 0];
  }

  /** A payload verifies exactly when it is the payload of the value in front of its last ten bytes; in
      particular every created payload verifies. */
  lemma VerifiesIffDumped(p: seq<Byte>)
    ensures Verifies(p) <==> |p| >= 10 && p == Dump(p[..|p| - 10])
  {
    hide Crc, Bytes, VersionOf, VersionBytes;
    if |p| >= 10 {
      var n := |p|;
      var body, lo, hi := p[..n - 10], p[n - 10], p[n - 9];
      VersionIsRead(lo, hi);
      VersionSize();
      assert p[..n - 8] == body + [lo, hi];
      assert p == body + [lo, hi] + p[n - 8..];
      DumpParts(body);
      if p == Dump(body) {
        assert [lo, hi] == p[n - 10..n - 8];
      }
    }
  }

  lemma VersionSize()
    ensures |VersionBytes()| == 2
  {
  }

  lemma DumpParts(body: seq<Byte>)
    ensures var d, n := Dump(body), |body|;
      |d| == n + 10 && d[..n] == body && d[n..n + 2] == VersionBytes() && d[..n + 2] == body + VersionBytes()
      && d[n + 2..] == Bytes(Crc(0, body + VersionBytes()))
  {
    hide Crc, VersionBytes;
    VersionSize();
  }

  lemma DumpVerifies(body: seq<Byte>)
    ensures Verifies(Dump(body))
  {
    hide Dump, Verifies;
    DumpParts(body);
    VerifiesIffDumped(Dump(body));
    assert Dump(body)[..|Dump(body)| - 10] == body;
  }

  /** The footer is little endian: byte `i` of the checksum holds its bits from 8 * `i` on. */
  lemma FooterIsLittleEndian(body: seq<Byte>)
    ensures var d, n, crc := Dump(body), |body|, Crc(0, body + [6, 0]);
      && |d| == n + 10 && d[n] == 6 && d[n + 1] == 0
      && d[n + 2] as bv64 == crc & 0xff && d[n + 3] as bv64 == (crc >> 8) & 0xff
      && d[n + 4] as bv64 == (crc >> 16) & 0xff && d[n + 5] as bv64 == (crc >> 24) & 0xff
      && d[n + 6] as bv64 == (crc >> 32) & 0xff && d[n + 7] as bv64 == (crc >> 40) & 0xff
      && d[n + 8] as bv64 == (crc >> 48) & 0xff && d[n + 9] as bv64 == (crc >> 56) & 0xff
  {
    hide Crc, Drop, Low;
    assert VersionBytes() == [6, 0];
    DumpParts(body);
    var d, n, crc := Dump(body), |body|, Crc(0, body + [6, 0]);
    assert d[n..n + 2] == [6, 0] && d[n] == d[n..n + 2][0] && d[n + 1] == d[n..n + 2][1];
    forall i | 0 <= i < 8 ensures d[n + 2 + i] == ByteAt(crc, i) {
      assert d[n + 2 + i] == d[n + 2..][i];
    }
    BytesOf(crc);
  }

  lemma BytesOf(crc: bv64)
    ensures ByteAt(crc, 0) as bv64 == crc & 0xff && ByteAt(crc, 1) as bv64 == (crc >> 8) & 0xff
    ensures ByteAt(crc, 2) as bv64 == (crc >> 16) & 0xff && ByteAt(crc, 3) as bv64 == (crc >> 24) & 0xff
    ensures ByteAt(crc, 4) as bv64 == (crc >> 32) & 0xff && ByteAt(crc, 5) as bv64 == (crc >> 40) & 0xff
    ensures ByteAt(crc, 6) as bv64 == (crc >> 48) & 0xff && ByteAt(crc, 7) as bv64 == (crc >> 56) & 0xff
  {
    hide Drop;
    DropIs(crc, 0);
    DropIs(crc, 1);
    DropIs(crc, 2);
    DropIs(crc, 3);
    DropIs(crc, 4);
    DropIs(crc, 5);
    DropIs(crc, 6);
    DropIs(crc, 7);
  }

  // ---------------------------------------------------------------- corruption

  lemma ChecksumIsRead(a: bv64, b: bv64)
    requires Bytes(a) == Bytes(b)
    ensures a == b
  {
    hide Drop, Low;
    forall i | 0 <= i < 8 ensures ByteAt(a, i) == ByteAt(b, i) {
      assert Bytes(a)[i] == Bytes(b)[i];
    }
    Rebuilt(a, b, 8);
    DropsAll(a);
    DropsAll(b);
  }

  lemma DropsAll(x: bv64)
    ensures Drop(x, 8) == 0
  {
    DropIs(x, 8);
  }

  lemma LowAndRest(x: bv64, y: bv64)
    requires Low(x) == Low(y) && Shift(x) == Shift(y)
    ensures x == y
  {
  }

  /** Equal low bytes and an equal rest make equal checksums. */
  lemma {:induction false} Rebuilt(a: bv64, b: bv64, m: nat)
    requires m <= 8 && (forall i :: 0 <= i < m ==> ByteAt(a, i) == ByteAt(b, i))
    ensures Drop(a, m) == Drop(b, m) ==> a == b
    decreases m
  {
    hide Low, Shift;
    if m > 0 && Drop(a, m) == Drop(b, m) {
      assert ByteAt(a, m - 1) == ByteAt(b, m - 1);
      LowAndRest(Drop(a, m - 1), Drop(b, m - 1));
      Rebuilt(a, b, m - 1);
    }
  }

  /** Two payloads that verify and differ at most within eight consecutive bytes in front of the checksum
      are equal: no such corruption goes unnoticed. */
  lemma BurstIsRejected(before: seq<Byte>, s: seq<Byte>, t: seq<Byte>, after: seq<Byte>, sum: seq<Byte>)
    requires |s| == |t| <= 8 && |sum| == 8
    requires Verifies(before + s + after + sum) && Verifies(before + t + after + sum)
    ensures s == t
  {
    hide Crc, Bytes, VersionOf;
    var p, q := before + s + after + sum, before + t + after + sum;
    assert p[..|p| - 8] == before + s + after && q[..|q| - 8] == before + t + after;
    assert p[|p| - 8..] == sum && q[|q| - 8..] == sum;
    ChecksumIsRead(Crc(0, before + s + after), Crc(0, before + t + after));
    BurstIsDetected(0, before, s, t, after);
  }

  /** Changing exactly one byte of a payload that verifies, wherever it is, makes it fail. */
  lemma OneByteIsRejected(p: seq<Byte>, i: nat, x: Byte)
    requires Verifies(p) && i < |p| && x != p[i]
    ensures !Verifies(p[i := x])
  {
    hide Crc, Bytes, VersionOf;
    var n, q := |p|, p[i := x];
    if i < n - 8 {
      var before, after, sum := p[..i], p[i + 1..n - 8], p[n - 8..];
      assert p == before + [p[i]] + after + sum && q == before + [x] + after + sum;
      if Verifies(q) {
        BurstIsRejected(before, [p[i]], [x], after, sum);
        assert false;
      }
    } else {
      assert q[..n - 8] == p[..n - 8];
      assert q[n - 8..][i - (n - 8)] == x && p[n - 8..][i - (n - 8)] == p[i];
    }
  }
}
