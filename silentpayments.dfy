/**
 * The silent-payment PSBT fields of btcutil/psbt/silentpayments.go
 * (BIP 352 payments carried in BIP 174 key/value pairs, following the
 * draft of BIP 375): an ECDH share and a DLEQ proof, whose key data is a
 * 33-byte compressed scan key followed by 36-byte outpoints, and the
 * recipient information, a scan key and a spend key in one value.
 *
 * The readers place outpoint k at byte 36k of the key data instead of at
 * 33 + 36k, where the serialisers put it. `ParseKeyedFrom` takes that
 * offset as a parameter: the readers are modelled with offset 0, as the code
 * is written, and the round trips are proved for offset 33 and disproved
 * for offset 0.
 */
module SilentPayments {

  import opened Wrappers
  import opened Bytes
  import opened Ordering

  /** `secp.PubKeyBytesLenCompressed`. */
  const PUB_KEY_BYTES_LEN_COMPRESSED: nat := 33
  /** `sha256.Size`. */
  const HASH_SIZE: nat := 32
  const UINT32_SIZE: nat := 4
  /** `outPointSize`: a transaction hash and an output index. */
  const OUT_POINT_SIZE: nat := HASH_SIZE + UINT32_SIZE
  /** The length of a DLEQ proof value. */
  const DLEQ_PROOF_SIZE: nat := 64

  const OP_1: byte := 0x51
  const OP_DATA_32: byte := 0x20

  datatype PsbtError = InvalidKeyData | InvalidPsbtFormat

  /** `wire.OutPoint`. */
  datatype OutPoint = OutPoint(hash: Bytes32, index: uint32)

  /**
   * `SilentPaymentDummyP2TROutput`: a segwit version 1 output script pushing
   * a 32-byte all-zero key.
   */
  function DummyP2TROutput(): (script: seq<byte>)
    ensures |script| == 2 + 32
    ensures script[0] == OP_1 && script[1] == OP_DATA_32
    ensures forall i :: 2 <= i < |script| ==> script[i] == 0
  {
    [OP_1, OP_DATA_32] + Zeros(32)
  }

  // ---------------------------------------------------------------------
  // Outpoint order and comparison (silentpayments.go:51-83)
  // ---------------------------------------------------------------------

  /** The `sort.Slice` order: hash bytes first, then index. */
  predicate OutPointLess(a: OutPoint, b: OutPoint): (r: bool)
    ensures r ==> a != b
  {
    if a.hash == b.hash then a.index < b.index else BytesLess(a.hash, b.hash)
  }

  lemma OutPointLessIsStrictTotalOrder()
    ensures StrictTotalOrder(OutPointLess)
  {
    BytesLessIsStrictTotalOrder();
    forall a: OutPoint, b: OutPoint, c: OutPoint | OutPointLess(a, b) && OutPointLess(b, c)
      ensures OutPointLess(a, c)
    {
    }
    forall a: OutPoint, b: OutPoint, c: OutPoint | !OutPointLess(a, b) && !OutPointLess(b, c)
      ensures !OutPointLess(a, c)
    {
    }
  }

  /** `sort.Slice` with the outpoint order: the sorted arrangement, in place. */
  method SortOutPoints(a: array<OutPoint>)
    modifies a
    ensures Sorted(OutPointLess, a[..]) && multiset(a[..]) == multiset(old(a[..]))
  {
    OutPointLessIsStrictTotalOrder();
    InsertionSortSorted(OutPointLess, a[..]);
    var sorted := InsertionSort(OutPointLess, a[..]);
    forall i | 0 <= i < a.Length {
      a[i] := sorted[i];
    }
    assert a[..] == sorted;
  }

  /** Two sorted outpoint lists are equal exactly when they hold the same outpoints. */
  lemma SortedOutPointsEqualIffSameMultiset(s: seq<OutPoint>, t: seq<OutPoint>)
    requires Sorted(OutPointLess, s) && Sorted(OutPointLess, t)
    ensures s == t <==> multiset(s) == multiset(t)
  {
    if multiset(s) == multiset(t) {
      OutPointLessIsStrictTotalOrder();
      SortedUnique(OutPointLess, s, t);
    }
  }

  /**
   * `equalOutPoints`: true exactly when both lists hold the same outpoints
   * with the same multiplicities. Lists of equal length are left sorted in
   * place, even when the answer is false; `a` and `b` may be one array.
   */
  method EqualOutPoints(a: array<OutPoint>, b: array<OutPoint>) returns (eq: bool)
    modifies a, b
    ensures eq <==> multiset(old(a[..])) == multiset(old(b[..]))
    ensures a.Length != b.Length ==> a[..] == old(a[..]) && b[..] == old(b[..])
    ensures a.Length == b.Length ==>
              && Sorted(OutPointLess, a[..]) && multiset(a[..]) == multiset(old(a[..]))
              && Sorted(OutPointLess, b[..]) && multiset(b[..]) == multiset(old(b[..]))
  {
    if a.Length != b.Length {
      assert |multiset(old(a[..]))| != |multiset(old(b[..]))|;
      return false;
    }
    SortOutPoints(a);
    ghost var sortedA := a[..];
    SortOutPoints(b);
    if a == b {
      return true;
    }
    assert a[..] == sortedA;
    SortedOutPointsEqualIffSameMultiset(a[..], b[..]);
    for i := 0 to a.Length
      invariant a[..i] == b[..i]
    {
      if a[i] != b[i] {
        return false;
      }
      assert a[..i + 1] == a[..i] + [a[i]];
      assert b[..i + 1] == b[..i] + [b[i]];
    }
    assert a[..] == a[..a.Length] && b[..] == b[..b.Length];
    return true;
  }

  // ---------------------------------------------------------------------
  // Key data: scan key and outpoints (silentpayments.go:85-213)
  // ---------------------------------------------------------------------

  /** The 36 bytes of an outpoint: its hash, then its index little-endian. */
  function OutPointBytes(op: OutPoint): (b: seq<byte>)
    ensures |b| == OUT_POINT_SIZE
  {
    op.hash + LittleEndian32(op.index)
  }

  /** The outpoint whose 36 bytes start at `offset`. */
  function OutPointAt(keyData: seq<byte>, offset: nat): OutPoint
    requires offset + OUT_POINT_SIZE <= |keyData|
  {
    OutPoint(keyData[offset..offset + HASH_SIZE], ReadLittleEndian32(keyData[offset + HASH_SIZE..offset + OUT_POINT_SIZE]))
  }

  lemma OutPointRoundTrip(op: OutPoint)
    ensures OutPointAt(OutPointBytes(op), 0) == op
  {
    var b := OutPointBytes(op);
    assert b[..32] == op.hash && b[32..36] == LittleEndian32(op.index);
    LittleEndian32RoundTrip(op.index);
  }

  lemma OutPointBytesRoundTrip(keyData: seq<byte>, offset: nat)
    requires offset + OUT_POINT_SIZE <= |keyData|
    ensures OutPointBytes(OutPointAt(keyData, offset)) == keyData[offset..offset + OUT_POINT_SIZE]
  {
    ReadLittleEndian32RoundTrip(keyData[offset + HASH_SIZE..offset + OUT_POINT_SIZE]);
  }

  /** `count` consecutive outpoints read from `keyData` starting at byte `start`. */
  function OutPointsFrom(keyData: seq<byte>, start: nat, count: nat): (ops: seq<OutPoint>)
    requires start + OUT_POINT_SIZE * count <= |keyData|
    ensures |ops| == count
  {
    seq(count, k requires 0 <= k < count => OutPointAt(keyData, start + OUT_POINT_SIZE * k))
  }

  /** The outpoints serialised one after the other. */
  function SerializeOutPoints(ops: seq<OutPoint>): (b: seq<byte>)
    ensures |b| == OUT_POINT_SIZE * |ops|
  {
    if ops == [] then [] else SerializeOutPoints(ops[..|ops| - 1]) + OutPointBytes(ops[|ops| - 1])
  }

  lemma {:induction false} SerializeOutPointsAt(ops: seq<OutPoint>, k: int)
    requires 0 <= k < |ops|
    ensures SerializeOutPoints(ops)[OUT_POINT_SIZE * k..OUT_POINT_SIZE * k + OUT_POINT_SIZE] == OutPointBytes(ops[k])
  {
    var n := |ops| - 1;
    var prefix := SerializeOutPoints(ops[..n]);
    assert SerializeOutPoints(ops) == prefix + OutPointBytes(ops[n]);
    if k < n {
      SerializeOutPointsAt(ops[..n], k);
      assert ops[..n][k] == ops[k];
      SliceOfConcat(prefix, OutPointBytes(ops[n]), 36 * k, 36 * k + 36);
    } else {
      assert |prefix| == 36 * k;
    }
  }

  lemma SliceOfConcat<T>(x: seq<T>, y: seq<T>, i: nat, j: nat)
    requires i <= j <= |x|
    ensures (x + y)[i..j] == x[i..j]
  {
  }

  lemma SliceSplit<T>(s: seq<T>, i: nat, j: nat, k: nat)
    requires i <= j <= k <= |s|
    ensures s[i..k] == s[i..j] + s[j..k]
  {
  }

  lemma SliceOfConcatRight<T>(x: seq<T>, y: seq<T>, i: nat, j: nat)
    requires i <= j <= |y|
    ensures (x + y)[|x| + i..|x| + j] == y[i..j]
  {
  }

  /** The scan key, the outpoints and the value of a share or a DLEQ proof. */
  datatype KeyedValue = KeyedValue(scanKey: seq<byte>, outPoints: seq<OutPoint>, payload: seq<byte>)

  /**
   * The shared reader of `ReadSilentPaymentShare` (value of 33 bytes) and
   * `ReadSilentPaymentDLEQ` (value of 64 bytes), with outpoint k read at
   * `start + 36k`. The key data is checked before the value.
   */
  function ParseKeyedFrom(keyData: seq<byte>, value: seq<byte>, valueLen: nat, start: nat): (r: Result<KeyedValue, PsbtError>)
    requires start <= PUB_KEY_BYTES_LEN_COMPRESSED
    ensures r == Failure(InvalidKeyData) <==>
              |keyData| < PUB_KEY_BYTES_LEN_COMPRESSED || (|keyData| - PUB_KEY_BYTES_LEN_COMPRESSED) % OUT_POINT_SIZE != 0
    ensures r == Failure(InvalidPsbtFormat) <==> r != Failure(InvalidKeyData) && |value| != valueLen
    ensures r.Success? ==>
              && r.value.scanKey == keyData[..PUB_KEY_BYTES_LEN_COMPRESSED] && r.value.payload == value
              && OUT_POINT_SIZE * |r.value.outPoints| == |keyData| - PUB_KEY_BYTES_LEN_COMPRESSED
  {
    if |keyData| < PUB_KEY_BYTES_LEN_COMPRESSED then Failure(InvalidKeyData)
    else
      var outPointsLen := |keyData| - PUB_KEY_BYTES_LEN_COMPRESSED;
      if outPointsLen % OUT_POINT_SIZE != 0 then Failure(InvalidKeyData)
      else if |value| != valueLen then Failure(InvalidPsbtFormat)
      else
        var count := outPointsLen / OUT_POINT_SIZE;
        Success(KeyedValue(keyData[..PUB_KEY_BYTES_LEN_COMPRESSED], OutPointsFrom(keyData, start, count), value))
  }

  /** `SerializeSilentPaymentShare` / `SerializeSilentPaymentDLEQ`: key data and value. */
  function SerializeKeyed(kv: KeyedValue): (out: (seq<byte>, seq<byte>))
    ensures |out.0| == |kv.scanKey| + OUT_POINT_SIZE * |kv.outPoints| && out.1 == kv.payload
  {
    (kv.scanKey + SerializeOutPoints(kv.outPoints), kv.payload)
  }

  /** An outpoint is read from its own 36 bytes only. */
  lemma OutPointAtSlice(keyData: seq<byte>, offset: nat)
    requires offset + OUT_POINT_SIZE <= |keyData|
    ensures OutPointAt(keyData, offset) == OutPointAt(keyData[offset..offset + OUT_POINT_SIZE], 0)
  {
    var w := keyData[offset..offset + OUT_POINT_SIZE];
    assert w[..32] == keyData[offset..offset + 32];
    assert w[32..36] == keyData[offset + 32..offset + 36];
  }

  lemma ReadSerializedOutPointAt(scanKey: seq<byte>, ops: seq<OutPoint>, k: nat)
    requires |scanKey| == PUB_KEY_BYTES_LEN_COMPRESSED && k < |ops|
    ensures OutPointAt(scanKey + SerializeOutPoints(ops), 33 + 36 * k) == ops[k]
  {
    var ser := SerializeOutPoints(ops);
    SerializeOutPointsAt(ops, k);
    SliceOfConcatRight(scanKey, ser, 36 * k, 36 * k + 36);
    OutPointAtSlice(scanKey + ser, 33 + 36 * k);
    OutPointRoundTrip(ops[k]);
  }

  /** Outpoints read back from their serialisation behind a 33-byte scan key. */
  lemma ReadSerializedOutPoints(scanKey: seq<byte>, ops: seq<OutPoint>)
    requires |scanKey| == PUB_KEY_BYTES_LEN_COMPRESSED
    ensures OutPointsFrom(scanKey + SerializeOutPoints(ops), PUB_KEY_BYTES_LEN_COMPRESSED, |ops|) == ops
  {
    forall k | 0 <= k < |ops|
      ensures OutPointAt(scanKey + SerializeOutPoints(ops), 33 + 36 * k) == ops[k]
    {
      ReadSerializedOutPointAt(scanKey, ops, k);
    }
  }

  /** Serialising the outpoints read from a stretch of bytes gives back that stretch. */
  lemma {:induction false} SerializeOutPointsFrom(keyData: seq<byte>, start: nat, count: nat)
    requires start + OUT_POINT_SIZE * count <= |keyData|
    ensures SerializeOutPoints(OutPointsFrom(keyData, start, count)) == keyData[start..start + OUT_POINT_SIZE * count]
  {
    if count > 0 {
      var n := count - 1;
      var ops := OutPointsFrom(keyData, start, count);
      assert ops[..n] == OutPointsFrom(keyData, start, n);
      assert ops[n] == OutPointAt(keyData, start + 36 * n);
      assert SerializeOutPoints(ops) == SerializeOutPoints(ops[..n]) + OutPointBytes(ops[n]);
      SerializeOutPointsFrom(keyData, start, n);
      OutPointBytesRoundTrip(keyData, start + 36 * n);
      SliceSplit(keyData, start, start + 36 * n, start + 36 * count);
    }
  }

  /** With the scan-key offset, reading what was serialised gives it back. */
  lemma ParseSerializedRoundTrip(kv: KeyedValue, valueLen: nat)
    requires |kv.scanKey| == PUB_KEY_BYTES_LEN_COMPRESSED && |kv.payload| == valueLen
    ensures ParseKeyedFrom(SerializeKeyed(kv).0, SerializeKeyed(kv).1, valueLen, PUB_KEY_BYTES_LEN_COMPRESSED) == Success(kv)
  {
    var keyData := SerializeKeyed(kv).0;
    assert (|keyData| - 33) / 36 == |kv.outPoints|;
    assert keyData[..33] == kv.scanKey;
    ReadSerializedOutPoints(kv.scanKey, kv.outPoints);
  }

  /** With the scan-key offset, serialising what was read gives back the key data and value. */
  lemma SerializeParsedRoundTrip(keyData: seq<byte>, value: seq<byte>, valueLen: nat)
    requires ParseKeyedFrom(keyData, value, valueLen, PUB_KEY_BYTES_LEN_COMPRESSED).Success?
    ensures SerializeKeyed(ParseKeyedFrom(keyData, value, valueLen, PUB_KEY_BYTES_LEN_COMPRESSED).value) == (keyData, value)
  {
    var count := (|keyData| - 33) / 36;
    SerializeOutPointsFrom(keyData, 33, count);
    assert keyData[..33] + keyData[33..33 + 36 * count] == keyData;
  }

  /**
   * As written (outpoints read from offset 0), the round trip holds without
   * outpoints, and with outpoints only if the first outpoint's hash equals
   * the first 32 bytes of the scan key.
   */
  lemma ReadSerializedAsWritten(kv: KeyedValue, valueLen: nat)
    requires |kv.scanKey| == PUB_KEY_BYTES_LEN_COMPRESSED && |kv.payload| == valueLen
    ensures kv.outPoints == [] ==> ParseKeyedFrom(SerializeKeyed(kv).0, SerializeKeyed(kv).1, valueLen, 0) == Success(kv)
    ensures ParseKeyedFrom(SerializeKeyed(kv).0, SerializeKeyed(kv).1, valueLen, 0) == Success(kv) ==>
              kv.outPoints == [] || kv.outPoints[0].hash == kv.scanKey[..HASH_SIZE]
  {
    var keyData := SerializeKeyed(kv).0;
    assert (|keyData| - 33) / 36 == |kv.outPoints|;
    assert keyData[..33] == kv.scanKey;
    if kv.outPoints != [] {
      assert keyData[..32] == kv.scanKey[..32];
    }
  }

  /** A share with one outpoint that does not survive the round trip as written. */
  lemma ReadSerializedAsWrittenCounterexample()
    ensures var kv := KeyedValue([0x02] + Zeros(32), [OutPoint(Zeros(31) + [1], 0)], [0x03] + Zeros(32));
            ParseKeyedFrom(SerializeKeyed(kv).0, SerializeKeyed(kv).1, PUB_KEY_BYTES_LEN_COMPRESSED, 0) != Success(kv)
  {
    var kv := KeyedValue([0x02] + Zeros(32), [OutPoint(Zeros(31) + [1], 0)], [0x03] + Zeros(32));
    ReadSerializedAsWritten(kv, PUB_KEY_BYTES_LEN_COMPRESSED);
    assert kv.outPoints[0].hash[0] != kv.scanKey[..32][0];
  }

  // ---------------------------------------------------------------------
  // The shared loops of the two readers and the two serialisers
  // ---------------------------------------------------------------------

  lemma DivOutPointSize(k: nat)
    ensures (OUT_POINT_SIZE * k) / OUT_POINT_SIZE == k
  {
  }

  /** The read loop: `count` outpoints into a new array, outpoint k from byte 36k. */
  method ReadOutPoints(keyData: seq<byte>, count: nat) returns (ops: array<OutPoint>)
    requires OUT_POINT_SIZE * count <= |keyData|
    ensures fresh(ops)
    ensures ops[..] == OutPointsFrom(keyData, 0, count)
  {
    ops := new OutPoint[count](_ => OutPoint(Zeros(32), 0));
    var outPointsLen := OUT_POINT_SIZE * count;
    var i := 0;
    ghost var k := 0;
    while i < outPointsLen
      invariant 0 <= k <= count && i == OUT_POINT_SIZE * k
      invariant forall j :: 0 <= j < k ==> ops[j] == OutPointAt(keyData, OUT_POINT_SIZE * j)
    {
      var idx := i / OUT_POINT_SIZE;
      DivOutPointSize(k);
      ops[idx] := OutPoint(keyData[i..i + HASH_SIZE], ReadLittleEndian32(keyData[i + HASH_SIZE..i + HASH_SIZE + UINT32_SIZE]));
      i := i + OUT_POINT_SIZE;
      k := k + 1;
    }
    assert forall j :: 0 <= j < count ==> ops[j] == OutPointsFrom(keyData, 0, count)[j];
  }

  /** The serialise loop: the scan key, then each outpoint's hash and index. */
  method SerializeKeyData(scanKey: seq<byte>, ops: array<OutPoint>) returns (keyData: seq<byte>)
    ensures keyData == scanKey + SerializeOutPoints(ops[..])
  {
    keyData := scanKey;
    for i := 0 to ops.Length
      invariant keyData == scanKey + SerializeOutPoints(ops[..i])
    {
      assert ops[..i + 1][..i] == ops[..i];
      keyData := keyData + ops[i].hash;
      keyData := keyData + LittleEndian32(ops[i].index);
    }
    assert ops[..ops.Length] == ops[..];
  }

  // ---------------------------------------------------------------------
  // ECDH share (silentpayments.go:29-138)
  // ---------------------------------------------------------------------

  /** `ReadSilentPaymentShare`, outpoints read from offset 0 as in the code. */
  function ParseShare(keyData: seq<byte>, value: seq<byte>): (r: Result<KeyedValue, PsbtError>)
    ensures r.Success? <==>
              && |keyData| >= PUB_KEY_BYTES_LEN_COMPRESSED && (|keyData| - PUB_KEY_BYTES_LEN_COMPRESSED) % OUT_POINT_SIZE == 0
              && |value| == PUB_KEY_BYTES_LEN_COMPRESSED
  {
    ParseKeyedFrom(keyData, value, PUB_KEY_BYTES_LEN_COMPRESSED, 0)
  }

  class SilentPaymentShare {
    const scanKey: seq<byte>
    const outPoints: array<OutPoint>
    const share: seq<byte>

    function Value(): KeyedValue
      reads outPoints
    {
      KeyedValue(scanKey, outPoints[..], share)
    }

    constructor (scanKey: seq<byte>, outPoints: array<OutPoint>, share: seq<byte>)
      ensures this.scanKey == scanKey && this.outPoints == outPoints && this.share == share
    {
      this.scanKey := scanKey;
      this.outPoints := outPoints;
      this.share := share;
    }

    /**
     * `EqualKey`: same scan key and the same outpoints in any order. When the
     * scan keys match, both outpoint lists are sorted in place as a side effect.
     */
    method EqualKey(other: SilentPaymentShare) returns (eq: bool)
      modifies outPoints, other.outPoints
      ensures eq <==> scanKey == other.scanKey && multiset(old(outPoints[..])) == multiset(old(other.outPoints[..]))
      ensures scanKey != other.scanKey ==> outPoints[..] == old(outPoints[..]) && other.outPoints[..] == old(other.outPoints[..])
      ensures multiset(outPoints[..]) == multiset(old(outPoints[..]))
      ensures multiset(other.outPoints[..]) == multiset(old(other.outPoints[..]))
      ensures outPoints.Length != other.outPoints.Length ==>
                outPoints[..] == old(outPoints[..]) && other.outPoints[..] == old(other.outPoints[..])
      ensures scanKey == other.scanKey && outPoints.Length == other.outPoints.Length ==>
                Sorted(OutPointLess, outPoints[..]) && Sorted(OutPointLess, other.outPoints[..])
    {
      if scanKey != other.scanKey {
        return false;
      }
      eq := EqualOutPoints(outPoints, other.outPoints);
    }
  }

  method ReadSilentPaymentShare(keyData: seq<byte>, value: seq<byte>) returns (share: SilentPaymentShare?, err: Option<PsbtError>)
    ensures ParseShare(keyData, value).Failure? ==> share == null && err == Some(ParseShare(keyData, value).error)
    ensures ParseShare(keyData, value).Success? ==>
              && err.None? && share != null && fresh(share) && fresh(share.outPoints)
              && share.Value() == ParseShare(keyData, value).value
  {
    if |keyData| < PUB_KEY_BYTES_LEN_COMPRESSED {
      return null, Some(InvalidKeyData);
    }
    var outPointsLen := |keyData| - PUB_KEY_BYTES_LEN_COMPRESSED;
    if outPointsLen % OUT_POINT_SIZE != 0 {
      return null, Some(InvalidKeyData);
    }
    if |value| != PUB_KEY_BYTES_LEN_COMPRESSED {
      return null, Some(InvalidPsbtFormat);
    }
    var ops := ReadOutPoints(keyData, outPointsLen / OUT_POINT_SIZE);
    share := new SilentPaymentShare(keyData[..PUB_KEY_BYTES_LEN_COMPRESSED], ops, value);
    err := None;
  }

  method SerializeSilentPaymentShare(share: SilentPaymentShare) returns (keyData: seq<byte>, value: seq<byte>)
    ensures (keyData, value) == SerializeKeyed(share.Value())
  {
    keyData := SerializeKeyData(share.scanKey, share.outPoints);
    value := share.share;
  }

  // ---------------------------------------------------------------------
  // DLEQ proof (silentpayments.go:140-213)
  // ---------------------------------------------------------------------

  /** `ReadSilentPaymentDLEQ`, outpoints read from offset 0 as in the code. */
  function ParseDLEQ(keyData: seq<byte>, value: seq<byte>): (r: Result<KeyedValue, PsbtError>)
    ensures r.Success? <==>
              && |keyData| >= PUB_KEY_BYTES_LEN_COMPRESSED && (|keyData| - PUB_KEY_BYTES_LEN_COMPRESSED) % OUT_POINT_SIZE == 0
              && |value| == DLEQ_PROOF_SIZE
  {
    ParseKeyedFrom(keyData, value, DLEQ_PROOF_SIZE, 0)
  }

  class SilentPaymentDLEQ {
    const scanKey: seq<byte>
    const outPoints: array<OutPoint>
    const proof: seq<byte>

    function Value(): KeyedValue
      reads outPoints
    {
      KeyedValue(scanKey, outPoints[..], proof)
    }

    constructor (scanKey: seq<byte>, outPoints: array<OutPoint>, proof: seq<byte>)
      ensures this.scanKey == scanKey && this.outPoints == outPoints && this.proof == proof
    {
      this.scanKey := scanKey;
      this.outPoints := outPoints;
      this.proof := proof;
    }

    /** `EqualKey`, as for shares. */
    method EqualKey(other: SilentPaymentDLEQ) returns (eq: bool)
      modifies outPoints, other.outPoints
      ensures eq <==> scanKey == other.scanKey && multiset(old(outPoints[..])) == multiset(old(other.outPoints[..]))
      ensures scanKey != other.scanKey ==> outPoints[..] == old(outPoints[..]) && other.outPoints[..] == old(other.outPoints[..])
      ensures multiset(outPoints[..]) == multiset(old(outPoints[..]))
      ensures multiset(other.outPoints[..]) == multiset(old(other.outPoints[..]))
      ensures outPoints.Length != other.outPoints.Length ==>
                outPoints[..] == old(outPoints[..]) && other.outPoints[..] == old(other.outPoints[..])
      ensures scanKey == other.scanKey && outPoints.Length == other.outPoints.Length ==>
                Sorted(OutPointLess, outPoints[..]) && Sorted(OutPointLess, other.outPoints[..])
    {
      if scanKey != other.scanKey {
        return false;
      }
      eq := EqualOutPoints(outPoints, other.outPoints);
    }
  }

  method ReadSilentPaymentDLEQ(keyData: seq<byte>, value: seq<byte>) returns (dleq: SilentPaymentDLEQ?, err: Option<PsbtError>)
    ensures ParseDLEQ(keyData, value).Failure? ==> dleq == null && err == Some(ParseDLEQ(keyData, value).error)
    ensures ParseDLEQ(keyData, value).Success? ==>
              && err.None? && dleq != null && fresh(dleq) && fresh(dleq.outPoints)
              && dleq.Value() == ParseDLEQ(keyData, value).value
  {
    if |keyData| < PUB_KEY_BYTES_LEN_COMPRESSED {
      return null, Some(InvalidKeyData);
    }
    var outPointsLen := |keyData| - PUB_KEY_BYTES_LEN_COMPRESSED;
    if outPointsLen % OUT_POINT_SIZE != 0 {
      return null, Some(InvalidKeyData);
    }
    if |value| != DLEQ_PROOF_SIZE {
      return null, Some(InvalidPsbtFormat);
    }
    var ops := ReadOutPoints(keyData, outPointsLen / OUT_POINT_SIZE);
    dleq := new SilentPaymentDLEQ(keyData[..PUB_KEY_BYTES_LEN_COMPRESSED], ops, value);
    err := None;
  }

  method SerializeSilentPaymentDLEQ(dleq: SilentPaymentDLEQ) returns (keyData: seq<byte>, value: seq<byte>)
    ensures (keyData, value) == SerializeKeyed(dleq.Value())
  {
    keyData := SerializeKeyData(dleq.scanKey, dleq.outPoints);
    value := dleq.proof;
  }

  // ---------------------------------------------------------------------
  // Recipient information (silentpayments.go:215-245)
  // ---------------------------------------------------------------------

  datatype SilentPaymentInfo = SilentPaymentInfo(scanKey: seq<byte>, spendKey: seq<byte>)

  /** `ReadSilentPaymentInfo`: exactly two compressed keys. */
  function ReadSilentPaymentInfo(value: seq<byte>): (r: Result<SilentPaymentInfo, PsbtError>)
    ensures r.Success? <==> |value| == 2 * PUB_KEY_BYTES_LEN_COMPRESSED
    ensures r.Failure? ==> r.error == InvalidPsbtFormat
    ensures r.Success? ==> |r.value.scanKey| == |r.value.spendKey| == PUB_KEY_BYTES_LEN_COMPRESSED
  {
    if |value| != 2 * PUB_KEY_BYTES_LEN_COMPRESSED then Failure(InvalidPsbtFormat)
    else Success(SilentPaymentInfo(value[..PUB_KEY_BYTES_LEN_COMPRESSED], value[PUB_KEY_BYTES_LEN_COMPRESSED..]))
  }

  /** `SerializeSilentPaymentInfo`: the scan key, then the spend key. */
  function SerializeSilentPaymentInfo(info: SilentPaymentInfo): (v: seq<byte>)
    ensures |v| == |info.scanKey| + |info.spendKey|
  {
    info.scanKey + info.spendKey
  }

  lemma InfoRoundTrip(info: SilentPaymentInfo)
    requires |info.scanKey| == |info.spendKey| == PUB_KEY_BYTES_LEN_COMPRESSED
    ensures ReadSilentPaymentInfo(SerializeSilentPaymentInfo(info)) == Success(info)
  {
    var v := SerializeSilentPaymentInfo(info);
    assert v[..33] == info.scanKey && v[33..] == info.spendKey;
  }

  lemma InfoValueRoundTrip(value: seq<byte>)
    requires ReadSilentPaymentInfo(value).Success?
    ensures SerializeSilentPaymentInfo(ReadSilentPaymentInfo(value).value) == value
  {
    assert value[..33] + value[33..] == value;
  }
}
