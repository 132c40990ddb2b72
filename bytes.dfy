/**
 * Byte-level vocabulary shared by the key-aggregation and PSBT code: Go's
 * `byte` and `uint32`, fixed 32-byte arrays, `bytes.Compare`, and the
 * little-endian `uint32` codec of `encoding/binary`.
 */
module Bytes {

  import opened Ordering

  type byte = x: int | 0 <= x < 256

  type uint32 = x: int | 0 <= x < 0x1_0000_0000

  /** A Go `[32]byte`: an x-only key, a SHA-256 digest, a transaction hash. */
  type Bytes32 = s: seq<byte> | |s| == 32 witness Zeros(32)

  function Zeros(n: nat): (z: seq<byte>)
    ensures |z| == n && forall i :: 0 <= i < n ==> z[i] == 0
  {
    seq(n, _ => 0)
  }

  /**
   * `bytes.Compare`: -1, 0 or 1 as `a` is lexicographically smaller than,
   * equal to or greater than `b`; a proper prefix is smaller.
   */
  function Compare(a: seq<byte>, b: seq<byte>): (c: int)
    ensures c == -1 || c == 0 || c == 1
    ensures c == 0 <==> a == b
  {
    if |a| == 0 && |b| == 0 then 0
    else if |a| == 0 then -1
    else if |b| == 0 then 1
    else if a[0] < b[0] then -1
    else if a[0] > b[0] then 1
    else
      assert a == [a[0]] + a[1..] && b == [b[0]] + b[1..];
      Compare(a[1..], b[1..])
  }

  lemma {:induction false} CompareAntisymmetric(a: seq<byte>, b: seq<byte>)
    ensures Compare(b, a) == -Compare(a, b)
  {
    if |a| != 0 && |b| != 0 && a[0] == b[0] {
      CompareAntisymmetric(a[1..], b[1..]);
    }
  }

  lemma {:induction false} CompareTransitive(a: seq<byte>, b: seq<byte>, c: seq<byte>)
    requires Compare(a, b) == -1 && Compare(b, c) == -1
    ensures Compare(a, c) == -1
  {
    if |a| != 0 && |b| != 0 && |c| != 0 && a[0] == b[0] == c[0] {
      CompareTransitive(a[1..], b[1..], c[1..]);
    }
  }

  /** `bytes.Compare(a, b) == -1`. */
  predicate BytesLess(a: seq<byte>, b: seq<byte>) {
    Compare(a, b) == -1
  }

  lemma BytesLessIsStrictTotalOrder()
    ensures StrictTotalOrder(BytesLess)
  {
    forall a, b, c | BytesLess(a, b) && BytesLess(b, c)
      ensures BytesLess(a, c)
    {
      CompareTransitive(a, b, c);
    }
    forall a, b, c | !BytesLess(a, b) && !BytesLess(b, c)
      ensures !BytesLess(a, c)
    {
      CompareAntisymmetric(a, b);
      CompareAntisymmetric(b, c);
      if Compare(a, b) == 1 && Compare(b, c) == 1 {
        CompareTransitive(c, b, a);
        CompareAntisymmetric(a, c);
      }
    }
    forall a, b | a != b
      ensures BytesLess(a, b) || BytesLess(b, a)
    {
      CompareAntisymmetric(a, b);
    }
  }

  /** `binary.LittleEndian.PutUint32`. */
  function LittleEndian32(x: uint32): (b: seq<byte>)
    ensures |b| == 4
  {
    [x % 0x100, (x / 0x100) % 0x100, (x / 0x1_0000) % 0x100, x / 0x100_0000]
  }

  /** `binary.LittleEndian.Uint32`. */
  function ReadLittleEndian32(b: seq<byte>): (x: uint32)
    requires |b| == 4
    ensures x == b[0] as int + 0x100 * b[1] as int + 0x1_0000 * b[2] as int + 0x100_0000 * b[3] as int
  {
    var lo: int := b[0] as int + 0x100 * b[1] as int;
    var hi: int := b[2] as int + 0x100 * b[3] as int;
    lo + 0x1_0000 * hi
  }

  lemma DivModByte(q: int, r: int)
    requires 0 <= r < 0x100
    ensures (q * 0x100 + r) / 0x100 == q && (q * 0x100 + r) % 0x100 == r
  {
  }

  lemma LittleEndian32RoundTrip(x: uint32)
    ensures ReadLittleEndian32(LittleEndian32(x)) == x
  {
    var b := LittleEndian32(x);
    var q1 := x / 0x100;
    var q2 := q1 / 0x100;
    assert x / 0x1_0000 == q2;
    assert x / 0x100_0000 == q2 / 0x100;
    assert q1 == b[1] as int + 0x100 * q2;
    assert q2 == b[2] as int + 0x100 * b[3] as int;
  }

  lemma ReadLittleEndian32RoundTrip(b: seq<byte>)
    requires |b| == 4
    ensures LittleEndian32(ReadLittleEndian32(b)) == b
  {
    var x := ReadLittleEndian32(b);
    var q2: int := b[2] as int + 0x100 * b[3] as int;
    var q1: int := b[1] as int + 0x100 * q2;
    assert x == b[0] as int + 0x100 * q1;
    DivModByte(q1, b[0]);
    DivModByte(q2, b[1]);
    DivModByte(b[3], b[2]);
    assert x / 0x1_0000 == q2;
    assert x / 0x100_0000 == b[3];
  }
}
