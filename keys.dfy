/**
 * MuSig2 key aggregation as btcec/schnorr/musig2/keys.go does it: keys are
 * ordered by their 32-byte x-only (BIP 340) serialisation, the key list is
 * fingerprinted with the "KeyAgg list" tagged hash, the second distinct key
 * gets coefficient one and every other key a "KeyAgg coefficient" tagged hash,
 * and the aggregate key is the sum of coefficient times key in list order.
 *
 * Curve arithmetic and SHA-256 are not modelled: the tagged hash is a function
 * value, and the point type, its addition and scalar multiplication come in a
 * `Curve` record.
 */
module Musig2Keys {

  import opened Wrappers
  import opened Bytes
  import opened Ordering

  /** A curve point: its x coordinate and the parity of its y coordinate. */
  datatype PublicKey = PublicKey(x: Bytes32, oddY: bool)

  /** `schnorr.SerializePubKey`: the x-only serialisation. */
  function XOnly(k: PublicKey): (b: seq<byte>)
    ensures |b| == 32
  {
    k.x
  }

  const KEY_AGG_TAG_LIST := "KeyAgg list"
  const KEY_AGG_TAG_COEFF := "KeyAgg coefficient"

  /** The order n of the secp256k1 group; `ModNScalar` values live below it. */
  const CURVE_ORDER: nat := 0xFFFF_FFFF_FFFF_FFFF_FFFF_FFFF_FFFF_FFFE_BAAE_DCE6_AF48_A03B_BFD2_5E8C_D036_4141

  /** `chainhash.TaggedHash(tag, msg)`, left uninterpreted. */
  type TaggedHash = (string, seq<byte>) -> Bytes32

  /**
   * The elliptic-curve group as the accumulation loop uses it: the point at
   * infinity, point addition, scalar multiplication of a key, and the
   * conversion of the result back to a public key.
   */
  datatype Curve<!P> = Curve(
    infinity: P,
    add: (P, P) -> P,
    scalarMult: (nat, PublicKey) -> P,
    toAffine: P -> PublicKey)

  /** What the curve group guarantees and the permutation argument needs. */
  ghost predicate CommutativeMonoid<P(!new)>(c: Curve<P>) {
    && (forall a :: c.add(c.infinity, a) == a)
    && (forall a, b :: c.add(a, b) == c.add(b, a))
    && (forall a, b, d :: c.add(c.add(a, b), d) == c.add(a, c.add(b, d)))
  }

  // ---------------------------------------------------------------------
  // Ordering and sorting (keys.go:24-59)
  // ---------------------------------------------------------------------

  /** `sortableKeys.Less`: byte-wise comparison of the x-only serialisations. */
  predicate KeyLess(a: PublicKey, b: PublicKey): (r: bool)
    ensures r ==> XOnly(a) != XOnly(b)
  {
    BytesLess(XOnly(a), XOnly(b))
  }

  /** `keyBytesEqual`: equal from the point of view of BIP 340 x-only keys. */
  predicate KeyBytesEqual(a: PublicKey, b: PublicKey): (r: bool)
    ensures r <==> Compare(XOnly(a), XOnly(b)) == 0
  {
    XOnly(a) == XOnly(b)
  }

  lemma KeyLessIsStrictWeakOrder()
    ensures StrictWeakOrder(KeyLess)
  {
    BytesLessIsStrictTotalOrder();
  }

  /** Two keys tie under `Less` exactly when their x-only bytes are equal. */
  lemma KeyTieIffBytesEqual(a: PublicKey, b: PublicKey)
    ensures !KeyLess(a, b) && !KeyLess(b, a) <==> KeyBytesEqual(a, b)
  {
    BytesLessIsStrictTotalOrder();
  }

  /** What `sortKeys` promises: a sorted permutation, and no change to a sorted input. */
  ghost predicate SortKeysOutcome(before: seq<PublicKey>, after: seq<PublicKey>) {
    && Sorted(KeyLess, after)
    && multiset(after) == multiset(before)
    && (Sorted(KeyLess, before) ==> after == before)
  }

  /**
   * `sortKeys`: sorts the caller's backing array in place with `sort.Sort`
   * unless `sort.IsSorted` already holds.
   */
  method SortKeys(keys: array<PublicKey>)
    modifies keys
    ensures SortKeysOutcome(old(keys[..]), keys[..])
  {
    if Sorted(KeyLess, keys[..]) {
      return;
    }
    KeyLessIsStrictWeakOrder();
    InsertionSortSorted(KeyLess, keys[..]);
    var sorted := InsertionSort(KeyLess, keys[..]);
    forall i | 0 <= i < keys.Length {
      keys[i] := sorted[i];
    }
    assert keys[..] == sorted;
  }

  /** Sorted permutations of the same keys have the same x-only serialisations, in order. */
  lemma {:induction false} SortedKeysXOnlyUnique(s: seq<PublicKey>, t: seq<PublicKey>)
    requires Sorted(KeyLess, s) && Sorted(KeyLess, t) && multiset(s) == multiset(t)
    ensures |s| == |t|
    ensures forall i :: 0 <= i < |s| ==> XOnly(s[i]) == XOnly(t[i])
  {
    assert |s| == |multiset(s)| == |multiset(t)| == |t|;
    var xs, xt := Map(XOnly, s), Map(XOnly, t);
    forall i | 0 < i < |s|
      ensures !BytesLess(xs[i], xs[i - 1]) && !BytesLess(xt[i], xt[i - 1])
    {
      MapAt(XOnly, s, i);
      MapAt(XOnly, s, i - 1);
      MapAt(XOnly, t, i);
      MapAt(XOnly, t, i - 1);
    }
    MapPermutation(XOnly, s, t);
    BytesLessIsStrictTotalOrder();
    SortedUnique(BytesLess, xs, xt);
    forall i | 0 <= i < |s|
      ensures XOnly(s[i]) == XOnly(t[i])
    {
      MapAt(XOnly, s, i);
      MapAt(XOnly, t, i);
    }
  }

  // ---------------------------------------------------------------------
  // Key-list fingerprint (keys.go:61-80)
  // ---------------------------------------------------------------------

  /** The x-only serialisations of `keys` concatenated in list order. */
  function KeyBytes(keys: seq<PublicKey>): (b: seq<byte>)
    ensures |b| == 32 * |keys|
  {
    if keys == [] then [] else KeyBytes(keys[..|keys| - 1]) + XOnly(keys[|keys| - 1])
  }

  /** Bytes 32i..32i+32 of the concatenation are the serialisation of key i. */
  lemma {:induction false} KeyBytesAt(keys: seq<PublicKey>, i: int)
    requires 0 <= i < |keys|
    ensures KeyBytes(keys)[32 * i..32 * i + 32] == XOnly(keys[i])
  {
    var n := |keys| - 1;
    if i < n {
      KeyBytesAt(keys[..n], i);
      assert keys[..n][i] == keys[i];
    }
  }

  /** The concatenation depends on the keys only through their x-only serialisations. */
  lemma {:induction false} KeyBytesOnlyXOnly(s: seq<PublicKey>, t: seq<PublicKey>)
    requires |s| == |t| && forall i :: 0 <= i < |s| ==> XOnly(s[i]) == XOnly(t[i])
    ensures KeyBytes(s) == KeyBytes(t)
  {
    if s != [] {
      KeyBytesOnlyXOnly(s[..|s| - 1], t[..|t| - 1]);
    }
  }

  /** The list hash `H(tag=KeyAgg list, pk1 || pk2 || ...)` of the keys in the order given. */
  function KeysHash(keys: seq<PublicKey>, hash: TaggedHash): Bytes32 {
    hash(KEY_AGG_TAG_LIST, KeyBytes(keys))
  }

  /**
   * `keyHashFingerprint`: optionally sorts the keys in place, then hashes the
   * concatenation of their serialisations, filled in a loop.
   */
  method KeyHashFingerprint(keys: array<PublicKey>, sort: bool, hash: TaggedHash) returns (h: Bytes32)
    modifies keys
    ensures if sort then SortKeysOutcome(old(keys[..]), keys[..]) else keys[..] == old(keys[..])
    ensures h == KeysHash(keys[..], hash)
  {
    if sort {
      SortKeys(keys);
    }
    var buf: seq<byte> := [];
    var i := 0;
    while i < keys.Length
      invariant 0 <= i <= keys.Length
      invariant buf == KeyBytes(keys[..i])
    {
      assert keys[..i + 1][..i] == keys[..i];
      buf := buf + XOnly(keys[i]);
      i := i + 1;
    }
    assert keys[..i] == keys[..];
    h := hash(KEY_AGG_TAG_LIST, buf);
  }

  /** With sorting on, the fingerprint is the same for every permutation of the keys. */
  lemma FingerprintPermutationInvariant(s: seq<PublicKey>, t: seq<PublicKey>, hash: TaggedHash)
    requires Sorted(KeyLess, s) && Sorted(KeyLess, t) && multiset(s) == multiset(t)
    ensures KeysHash(s, hash) == KeysHash(t, hash)
  {
    SortedKeysXOnlyUnique(s, t);
    KeyBytesOnlyXOnly(s, t);
  }

  // ---------------------------------------------------------------------
  // Second unique key (keys.go:119-134)
  // ---------------------------------------------------------------------

  /** The first index at or after `from` whose key differs from `keys[0]`, or -1. */
  function SecondUniqueIndexFrom(keys: seq<PublicKey>, from: nat): (r: int)
    requires from <= |keys|
    ensures r == -1 || (from <= r < |keys| && !KeyBytesEqual(keys[r], keys[0]))
    ensures forall j :: from <= j < |keys| && (r == -1 || j < r) ==> KeyBytesEqual(keys[j], keys[0])
    decreases |keys| - from
  {
    if from == |keys| then -1
    else if !KeyBytesEqual(keys[from], keys[0]) then from
    else SecondUniqueIndexFrom(keys, from + 1)
  }

  /** The index of the second unique key: never 0, and -1 exactly when all keys are equal. */
  function SecondUniqueIndex(keys: seq<PublicKey>): (r: int)
    ensures r != 0
    ensures r == -1 <==> forall j :: 0 <= j < |keys| ==> KeyBytesEqual(keys[j], keys[0])
    ensures r != -1 ==> 0 < r < |keys| && !KeyBytesEqual(keys[r], keys[0])
    ensures r != -1 ==> forall j :: 0 <= j < r ==> KeyBytesEqual(keys[j], keys[0])
  {
    SecondUniqueIndexFrom(keys, 0)
  }

  /** `secondUniqueKeyIndex`: a search loop with an early return. */
  method SecondUniqueKeyIndex(keys: seq<PublicKey>) returns (idx: int)
    ensures idx == SecondUniqueIndex(keys)
  {
    for i := 0 to |keys|
      invariant SecondUniqueIndexFrom(keys, i) == SecondUniqueIndex(keys)
    {
      if !KeyBytesEqual(keys[i], keys[0]) {
        return i;
      }
    }
    return -1;
  }

  /** The second-unique-key index depends on the keys only through their x-only serialisations. */
  lemma SecondUniqueIndexOnlyXOnly(s: seq<PublicKey>, t: seq<PublicKey>)
    requires |s| == |t| && forall i :: 0 <= i < |s| ==> XOnly(s[i]) == XOnly(t[i])
    ensures SecondUniqueIndex(s) == SecondUniqueIndex(t)
  {
  }

  // ---------------------------------------------------------------------
  // Aggregation coefficient (keys.go:91-117)
  // ---------------------------------------------------------------------

  /**
   * How an aggregation coefficient was obtained: the constant one given to
   * the second unique key, or a "KeyAgg coefficient" tagged-hash digest.
   */
  datatype Coefficient = One | Hashed(digest: Bytes32)
  {
    /** The `ModNScalar`: 1, or the digest read big-endian and reduced modulo n. */
    function Value(): (v: nat)
      ensures v < CURVE_ORDER
      ensures One? ==> v == 1
      ensures Hashed? ==> v == BigEndian(digest) % CURVE_ORDER
    {
      if One? then 1 else BigEndian(digest) % CURVE_ORDER
    }
  }

  function BigEndian(b: seq<byte>): nat {
    if b == [] then 0 else BigEndian(b[..|b| - 1]) * 0x100 + b[|b| - 1]
  }

  /**
   * The first 32 bytes of the 64-byte coefficient buffer after
   * `copy(coefficientBytes[:], keysHash)`: the hash, cut to 32 bytes or
   * padded with zeros (the key then overwrites bytes 32..64).
   */
  function HashPrefix(keysHash: seq<byte>): (p: seq<byte>)
    ensures |p| == 32
    ensures forall i :: 0 <= i < 32 ==> p[i] == if i < |keysHash| then keysHash[i] else 0
  {
    if |keysHash| >= 32 then keysHash[..32] else keysHash + Zeros(32 - |keysHash|)
  }

  /** The input of the coefficient hash: `keysHash || pk`. */
  function CoefficientInput(keysHash: seq<byte>, target: PublicKey): (b: seq<byte>)
    ensures |b| == 64
    ensures b[32..] == XOnly(target)
    ensures |keysHash| >= 32 ==> b[..32] == keysHash[..32]
  {
    HashPrefix(keysHash) + XOnly(target)
  }

  /** The index handed to `aggregationCoefficient` can be dereferenced (or is -1). */
  predicate ValidSecondIndex(idx: int, n: nat) {
    idx == -1 || 0 <= idx < n
  }

  /** `aggregationCoefficient`. */
  function AggregationCoefficient(keySet: seq<PublicKey>, target: PublicKey, keysHash: seq<byte>,
                                  secondKeyIdx: int, hash: TaggedHash): (r: Coefficient)
    requires ValidSecondIndex(secondKeyIdx, |keySet|)
    ensures r == One <==> secondKeyIdx != -1 && KeyBytesEqual(keySet[secondKeyIdx], target)
    ensures r.Hashed? ==> r.digest == hash(KEY_AGG_TAG_COEFF, CoefficientInput(keysHash, target))
    ensures r.Value() < CURVE_ORDER
  {
    if secondKeyIdx != -1 && KeyBytesEqual(keySet[secondKeyIdx], target) then One
    else Hashed(hash(KEY_AGG_TAG_COEFF, CoefficientInput(keysHash, target)))
  }

  /**
   * With the computed index, the coefficient is one exactly for the keys
   * whose x-only bytes equal those of the second distinct key; keys equal to
   * the first key, and every key of an all-equal list, get a hashed one.
   */
  lemma CoefficientOneRule(keys: seq<PublicKey>, target: PublicKey, keysHash: seq<byte>, hash: TaggedHash)
    requires keys != []
    ensures var idx := SecondUniqueIndex(keys);
      && (AggregationCoefficient(keys, target, keysHash, idx, hash) == One
          <==> idx != -1 && KeyBytesEqual(target, keys[idx]))
      && (KeyBytesEqual(target, keys[0]) ==> AggregationCoefficient(keys, target, keysHash, idx, hash).Hashed?)
  {
  }

  /**
   * A hashed coefficient depends only on the first 32 bytes of the list hash
   * and the target's x-only bytes, whatever list and index it is computed for.
   */
  lemma HashedCoefficientDependsOnHashAndKey(s: seq<PublicKey>, t: seq<PublicKey>, i: int, j: int,
                                             a: PublicKey, b: PublicKey, hs: seq<byte>, ht: seq<byte>,
                                             hash: TaggedHash)
    requires ValidSecondIndex(i, |s|) && ValidSecondIndex(j, |t|)
    requires |hs| >= 32 && |ht| >= 32 && hs[..32] == ht[..32] && KeyBytesEqual(a, b)
    requires AggregationCoefficient(s, a, hs, i, hash).Hashed?
    requires AggregationCoefficient(t, b, ht, j, hash).Hashed?
    ensures AggregationCoefficient(s, a, hs, i, hash) == AggregationCoefficient(t, b, ht, j, hash)
  {
    assert CoefficientInput(hs, a) == CoefficientInput(ht, b);
  }

  // ---------------------------------------------------------------------
  // Aggregation (keys.go:173-230)
  // ---------------------------------------------------------------------

  /** Left-to-right sum of points, starting at infinity, as `AddNonConst` accumulates. */
  function Sum<P>(c: Curve<P>, ps: seq<P>): P {
    if ps == [] then c.infinity else c.add(Sum(c, ps[..|ps| - 1]), ps[|ps| - 1])
  }

  /** The blinded key `a_i * P_i` of one key of the list. */
  function BlindedKey<P>(c: Curve<P>, keys: seq<PublicKey>, keysHash: seq<byte>, idx: int, hash: TaggedHash, k: PublicKey): P
    requires ValidSecondIndex(idx, |keys|)
  {
    c.scalarMult(AggregationCoefficient(keys, k, keysHash, idx, hash).Value(), k)
  }

  /** The blinded keys, in list order. */
  function Terms<P>(c: Curve<P>, keys: seq<PublicKey>, keysHash: seq<byte>, idx: int, hash: TaggedHash): (ts: seq<P>)
    requires keys == [] || ValidSecondIndex(idx, |keys|)
    ensures |ts| == |keys|
  {
    if keys == [] then []
    else Map(k => BlindedKey(c, keys, keysHash, idx, hash, k), keys)
  }

  /** The aggregate key of `keys` in the given order, for a list hash and second-key index. */
  function AggregateOf<P>(c: Curve<P>, keys: seq<PublicKey>, keysHash: seq<byte>, idx: int, hash: TaggedHash): PublicKey
    requires keys == [] || ValidSecondIndex(idx, |keys|)
  {
    c.toAffine(Sum(c, Terms(c, keys, keysHash, idx, hash)))
  }

  /** The accumulation loop of `AggregateKeys`: `a_1*P_1 + ... + a_n*P_n`, left to right. */
  method SumBlindedKeys<P>(c: Curve<P>, keys: seq<PublicKey>, keysHash: seq<byte>, idx: int, hash: TaggedHash)
    returns (finalKey: P)
    requires keys == [] || ValidSecondIndex(idx, |keys|)
    ensures finalKey == Sum(c, Terms(c, keys, keysHash, idx, hash))
  {
    finalKey := c.infinity;
    ghost var terms := Terms(c, keys, keysHash, idx, hash);
    for i := 0 to |keys|
      invariant finalKey == Sum(c, terms[..i])
    {
      var a := AggregationCoefficient(keys, keys[i], keysHash, idx, hash);
      var tweakedKey := c.scalarMult(a.Value(), keys[i]);
      MapAt(k => BlindedKey(c, keys, keysHash, idx, hash, k), keys, i);
      assert terms[..i + 1][..i] == terms[..i];
      finalKey := c.add(finalKey, tweakedKey);
    }
    assert terms[..|keys|] == terms;
  }

  /**
   * `AggregateKeys`. The functional options become two optional arguments:
   * a list hash and a second-key index supplied by the caller are used as
   * they are; a missing one is derived from the (sorted, if asked) list.
   */
  method AggregateKeys<P>(keys: array<PublicKey>, sort: bool, keysHash: Option<seq<byte>>,
                          uniqueKeyIndex: Option<int>, hash: TaggedHash, c: Curve<P>)
    returns (aggregate: PublicKey)
    requires uniqueKeyIndex.Some? && keys.Length > 0 ==> ValidSecondIndex(uniqueKeyIndex.value, keys.Length)
    modifies keys
    ensures if sort then SortKeysOutcome(old(keys[..]), keys[..]) else keys[..] == old(keys[..])
    ensures var kh := if keysHash.Some? then keysHash.value else KeysHash(keys[..], hash);
            var idx := if uniqueKeyIndex.Some? then uniqueKeyIndex.value else SecondUniqueIndex(keys[..]);
            aggregate == AggregateOf(c, keys[..], kh, idx, hash)
  {
    if sort {
      SortKeys(keys);
    }
    ghost var sorted := keys[..];

    var kh: seq<byte>;
    if keysHash.None? {
      kh := KeyHashFingerprint(keys, sort, hash);
    } else {
      kh := keysHash.value;
    }
    assert keys[..] == sorted;

    var idx: int;
    if uniqueKeyIndex.None? {
      idx := SecondUniqueKeyIndex(keys[..]);
    } else {
      idx := uniqueKeyIndex.value;
    }

    var finalKey := SumBlindedKeys(c, keys[..], kh, idx, hash);
    aggregate := c.toAffine(finalKey);
  }

  lemma {:induction false} SumConcat<P(!new)>(c: Curve<P>, a: seq<P>, b: seq<P>)
    requires CommutativeMonoid(c)
    ensures Sum(c, a + b) == c.add(Sum(c, a), Sum(c, b))
    decreases |b|
  {
    if b == [] {
      assert a + b == a;
      assert c.add(Sum(c, a), c.infinity) == c.add(c.infinity, Sum(c, a));
    } else {
      var n := |b| - 1;
      assert (a + b)[..|a + b| - 1] == a + b[..n];
      SumConcat(c, a, b[..n]);
    }
  }

  /** Taking one summand out and adding it last does not change the sum. */
  lemma SumRemove<P(!new)>(c: Curve<P>, qs: seq<P>, k: int)
    requires CommutativeMonoid(c) && 0 <= k < |qs|
    ensures Sum(c, qs) == c.add(Sum(c, qs[..k] + qs[k + 1..]), qs[k])
  {
    var a, p, b := qs[..k], qs[k], qs[k + 1..];
    assert qs == a + ([p] + b);
    SumConcat(c, a, [p] + b);
    SumConcat(c, [p], b);
    SumConcat(c, a, b);
    assert [p][..0] == [];
    assert Sum(c, [p]) == p;
    assert c.add(p, Sum(c, b)) == c.add(Sum(c, b), p);
    assert c.add(Sum(c, a), c.add(Sum(c, b), p)) == c.add(c.add(Sum(c, a), Sum(c, b)), p);
  }

  /** In a commutative group the order of the summands does not matter. */
  lemma {:induction false} SumPermutation<P(!new)>(c: Curve<P>, ps: seq<P>, qs: seq<P>)
    requires CommutativeMonoid(c) && multiset(ps) == multiset(qs)
    ensures Sum(c, ps) == Sum(c, qs)
    decreases |ps|
  {
    if ps == [] {
      assert |qs| == |multiset(qs)| == 0;
    } else {
      var n := |ps| - 1;
      var p := ps[n];
      assert p in multiset(qs);
      var k :| 0 <= k < |qs| && qs[k] == p;
      PermutationRemove(ps, n, qs, k);
      assert ps[..n] + ps[n + 1..] == ps[..n];
      SumPermutation(c, ps[..n], qs[..k] + qs[k + 1..]);
      SumRemoveLast(c, ps, qs, k);
    }
  }

  lemma SumRemoveLast<P(!new)>(c: Curve<P>, ps: seq<P>, qs: seq<P>, k: int)
    requires CommutativeMonoid(c) && ps != [] && 0 <= k < |qs| && qs[k] == ps[|ps| - 1]
    requires Sum(c, ps[..|ps| - 1]) == Sum(c, qs[..k] + qs[k + 1..])
    ensures Sum(c, ps) == Sum(c, qs)
  {
    SumRemove(c, qs, k);
  }

  /**
   * With sorting on, the aggregate key is the same for every permutation of
   * the signers' keys: the sorted lists agree on every x-only key, hence on
   * the list hash, the second-key index and every coefficient, and the
   * blinded keys are summed in a commutative group.
   */
  lemma AggregatePermutationInvariant<P(!new)>(c: Curve<P>, s: seq<PublicKey>, t: seq<PublicKey>, hash: TaggedHash)
    requires CommutativeMonoid(c)
    requires Sorted(KeyLess, s) && Sorted(KeyLess, t) && multiset(s) == multiset(t)
    ensures AggregateOf(c, s, KeysHash(s, hash), SecondUniqueIndex(s), hash)
         == AggregateOf(c, t, KeysHash(t, hash), SecondUniqueIndex(t), hash)
  {
    SortedKeysXOnlyUnique(s, t);
    if s != [] {
      FingerprintPermutationInvariant(s, t, hash);
      SecondUniqueIndexOnlyXOnly(s, t);
      var kh, idx := KeysHash(s, hash), SecondUniqueIndex(s);
      var f := k => BlindedKey(c, s, kh, idx, hash, k);
      var g := k => BlindedKey(c, t, kh, idx, hash, k);
      forall i | 0 <= i < |t|
        ensures f(t[i]) == g(t[i])
      {
        assert idx != -1 ==> XOnly(s[idx]) == XOnly(t[idx]);
        assert AggregationCoefficient(s, t[i], kh, idx, hash) == AggregationCoefficient(t, t[i], kh, idx, hash);
      }
      MapCongruent(f, g, t);
      MapPermutation(f, s, t);
      SumPermutation(c, Terms(c, s, kh, idx, hash), Terms(c, t, kh, idx, hash));
    }
  }
}
