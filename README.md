# MuSig2 key aggregation, the MuSig2 signing session, and silent-payment PSBT fields

This project models three parts of btcd in Dafny.

- **MuSig2 key aggregation** (`btcec/schnorr/musig2/keys.go`, module `Musig2Keys`, file `keys.dfy`).
  - Keys are sorted by their 32-byte x-only serialisation.
  - The list fingerprint is `H(tag="KeyAgg list", pk1 || ... || pkn)`.
  - The "second unique key" index is found with a search loop. Every key whose x-only bytes equal those of that key gets the coefficient one; every other key gets the coefficient `H(tag="KeyAgg coefficient", L || pk) mod n`.
  - The aggregate key is the sum of `a_i * P_i`, accumulated left to right and converted to affine form.
  - Curve arithmetic and the tagged hash are not modelled bit by bit. They are function values: a `Curve` record (point at infinity, addition, scalar multiplication, affine conversion) and a `TaggedHash`. Order independence of the aggregate is proved for any curve whose addition is a commutative monoid.
- **The MuSig2 signing context and session** (`btcec/schnorr/musig2/context.go`, module `Musig2Context`, file `context.dfy`).
  - `Context` and `Session` are classes with the source's fields.
  - Every `Session` method is proved equal to a pure step function on a `SessionState` value. Invariants and call-sequence properties are proved about those step functions.
  - Nonce aggregation, partial signing, signature combination and verification are parameters, collected in `Primitives`. The outcome of nonce generation is the `generated` argument of `NewSession`. The two key-aggregation helpers that context.go calls with signatures keys.go does not have are parameters of `NewContext`.
- **Silent-payment PSBT fields** (`btcutil/psbt/silentpayments.go`, module `SilentPayments`, file `silentpayments.dfy`). These are BIP 352 payments carried in BIP 174 fields, following the draft of BIP 375.
  - The key data is a 33-byte compressed scan key followed by 36-byte outpoints: a 32-byte hash, then a 4-byte little-endian index.
  - The share value is a 33-byte key and the DLEQ value a 64-byte proof. The recipient information is two compressed keys.
  - The readers take outpoint k from byte `36k` of the key data, while the serialisers write it at byte `33 + 36k`. The model keeps that. As written, reading back a serialised share or proof gives it back when it has no outpoints. With outpoints it can do so only if the first outpoint's hash equals the first 32 bytes of the scan key, and a concrete share is shown for which it does not (see Findings).

Shared modules:

- `wrappers.dfy`: `Option` and `Result`.
- `bytes.dfy`: bytes, `uint32`, 32-byte arrays, `bytes.Compare`, the little-endian `uint32` codec.
- `ordering.dfy`: sortedness as `sort.IsSorted` tests it, a reference insertion sort that the in-place sorts write back, and uniqueness of the sorted arrangement under a total order.

Where the code and its own comments differ, the model follows the code:

- The `sortKeys` comment speaks of a sorted copy, but the function sorts the caller's slice in place. So `KeyHashFingerprint` and `AggregateKeys` with `sort` set reorder the caller's array.
- The comment on `ErrAlredyHaveAllNonces` says it is returned when `RegisterPubNonce` is called too many times, but it is never returned. A `RegisterPubNonce` call after all nonces are in returns `(false, nil)`.

Behaviour of the code that a reader might expect otherwise, also kept as written:

- `AggregateKeys` does not reject an empty key list. The result is the affine form of the point at infinity.
- `Sign` does not check how many partial signatures are stored before it appends its own. So "at most n signatures" is not a session invariant; only "a final signature implies exactly n" is.

## Model

| member | source | states |
|---|---|---|
| Musig2Keys.XOnly | btcec/schnorr/musig2/keys.go:33-34 | the key serialisation that ordering and hashing use is 32 bytes long |
| Musig2Keys.KeyLess | btcec/schnorr/musig2/keys.go:30-36 | `Less` compares x-only serialisations with `bytes.Compare`; a key sorts before another only when their x-only keys differ |
| Musig2Keys.KeyBytesEqual | btcec/schnorr/musig2/keys.go:84-89 | `keyBytesEqual` compares x-only serialisations, and holds exactly when `bytes.Compare` of them is 0 |
| Musig2Keys.KeyLessIsStrictWeakOrder | btcec/schnorr/musig2/keys.go:30-36 | `Less` (bytes.Compare of x-only keys) is irreflexive and transitive, and its incomparability is transitive, so `sort.Sort` and `sort.IsSorted` are well defined on it |
| Musig2Keys.KeyTieIffBytesEqual | btcec/schnorr/musig2/keys.go:84-89 | `keyBytesEqual` holds exactly when neither key sorts before the other |
| Musig2Keys.SortKeys | btcec/schnorr/musig2/keys.go:51-59 | the array ends sorted and is a permutation of its old contents; an already sorted array is left exactly as it was |
| Musig2Keys.SortedKeysXOnlyUnique | btcec/schnorr/musig2/keys.go:51-59 | any two sorted arrangements of the same keys agree position by position on their x-only keys, so the instability of `sort.Sort` cannot change anything hashed |
| Musig2Keys.KeyBytes | btcec/schnorr/musig2/keys.go:72-77 | the concatenated key bytes are 32 bytes per key |
| Musig2Keys.KeyBytesAt | btcec/schnorr/musig2/keys.go:72-77 | bytes 32i to 32i+32 of the concatenation are the x-only serialisation of key i |
| Musig2Keys.KeyBytesOnlyXOnly | btcec/schnorr/musig2/keys.go:72-77 | the concatenation depends on the keys only through their x-only serialisations |
| Musig2Keys.KeysHash | btcec/schnorr/musig2/keys.go:72-79 | the list hash is the "KeyAgg list" tagged hash of the keys' x-only serialisations concatenated in list order; its properties are stated by `KeyBytesAt`, `KeyBytesOnlyXOnly` and `FingerprintPermutationInvariant` |
| Musig2Keys.KeyHashFingerprint | btcec/schnorr/musig2/keys.go:65-80 | with `sort`, the keys are sorted in place first (sorted permutation, a sorted input unchanged), otherwise they are untouched; the result is the "KeyAgg list" tagged hash of the keys' serialisations in their final order |
| Musig2Keys.FingerprintPermutationInvariant | btcec/schnorr/musig2/keys.go:65-80 | any two sorted arrangements of the same keys, which is what sorting produces (`KeyHashFingerprint` ensures it), have the same fingerprint |
| Musig2Keys.SecondUniqueIndexFrom | btcec/schnorr/musig2/keys.go:124-128 | the result is the first index at or after `from` whose key bytes differ from the first key's, or -1 when every later key equals the first |
| Musig2Keys.SecondUniqueIndex | btcec/schnorr/musig2/keys.go:121-134 | the index is never 0; it is -1 exactly when every key equals the first (including the empty list); otherwise it is in range, its key differs from the first, and every earlier key equals the first |
| Musig2Keys.SecondUniqueKeyIndex | btcec/schnorr/musig2/keys.go:121-134 | the search loop with early return returns the index characterised by `SecondUniqueIndex` |
| Musig2Keys.SecondUniqueIndexOnlyXOnly | btcec/schnorr/musig2/keys.go:121-134 | lists with the same x-only keys position by position have the same second-unique-key index |
| Musig2Keys.Coefficient.Value | btcec/schnorr/musig2/keys.go:101-116 | a coefficient as a scalar is 1 for the second unique key, otherwise the digest read big-endian and reduced mod n; either way it is below the group order n |
| Musig2Keys.HashPrefix | btcec/schnorr/musig2/keys.go:108-109 | after copying the list hash into the 64-byte buffer, bytes 0..32 hold the hash where it has bytes and zero elsewhere |
| Musig2Keys.CoefficientInput | btcec/schnorr/musig2/keys.go:108-111 | the coefficient hash input is 64 bytes: the first 32 bytes of the list hash, then the target's x-only key |
| Musig2Keys.AggregationCoefficient | btcec/schnorr/musig2/keys.go:94-117 | the coefficient is one exactly when an index is given (not -1) and the key at that index is byte-equal to the target; otherwise it is the "KeyAgg coefficient" tagged hash of the 64-byte buffer (list-hash prefix, then the target's x-only key); either way its scalar is below n |
| Musig2Keys.CoefficientOneRule | btcec/schnorr/musig2/keys.go:94-117 | with the computed index, the coefficient is one exactly for keys byte-equal to the second unique key; a key equal to the first key always gets a hashed coefficient |
| Musig2Keys.HashedCoefficientDependsOnHashAndKey | btcec/schnorr/musig2/keys.go:108-116 | a hashed coefficient is determined by the first 32 bytes of the list hash and the target's x-only key, whatever the list and index |
| Musig2Keys.SumBlindedKeys | btcec/schnorr/musig2/keys.go:208-226 | the accumulation loop yields the left-to-right sum of `a_i * P_i` over the keys, starting at infinity |
| Musig2Keys.AggregateKeys | btcec/schnorr/musig2/keys.go:176-230 | the keys are sorted in place when asked and otherwise untouched; a caller-supplied list hash or index is used as given and a missing one is derived from the final key order; the result is the affine form of the sum of the blinded keys in that order |
| Musig2Keys.SumConcat | btcec/schnorr/musig2/keys.go:208-226 | in a commutative monoid, the accumulated sum of a concatenation is the sum of the two partial sums |
| Musig2Keys.SumRemove | btcec/schnorr/musig2/keys.go:208-226 | in a commutative monoid, taking one summand out and adding it last leaves the sum unchanged |
| Musig2Keys.SumRemoveLast | btcec/schnorr/musig2/keys.go:208-226 | sums that agree once a shared summand is removed from each agree once it is put back |
| Musig2Keys.SumPermutation | btcec/schnorr/musig2/keys.go:208-226 | in a commutative monoid, the accumulated sum does not depend on the order of the summands |
| Musig2Keys.AggregatePermutationInvariant | btcec/schnorr/musig2/keys.go:176-230 | any two sorted arrangements of the same keys, which is what sorting produces (`AggregateKeys` ensures it), yield the same aggregate key |
| Musig2Context.EvenYKey | btcec/schnorr/musig2/context.go:112-114 | re-parsing our serialised public key keeps its x-only key and gives it an even y |
| Musig2Context.Context.SigningKeys | btcec/schnorr/musig2/context.go:171-176 | a fresh array holding the context's keys in order |
| Musig2Context.Context.NewSession | btcec/schnorr/musig2/context.go:205-221 | needs only a non-empty key set (which `NewContext` ensures); a nonce-generation error is returned with no session; otherwise a fresh session holds our nonces with our public nonce as the only registered one, and satisfies the session invariant |
| Musig2Context.NewContext | btcec/schnorr/musig2/context.go:98-157 | if our even-y key is not among the signers, the result is `ErrSignerNotInKeySet` and the signers are untouched; otherwise the signers are sorted in place when asked, an aggregation error is passed through, and on success the context holds our key (one of the signers, so the set is non-empty), the caller's array, the list hash of the final order, the computed index and the aggregate key |
| Musig2Context.InitialStateValid | btcec/schnorr/musig2/context.go:211-218 | a new session of a context with at least one signer holds the session invariant with exactly one registered nonce |
| Musig2Context.RegisterNonceStep | btcec/schnorr/musig2/context.go:239-264 | with all nonces in, nothing changes and the result is false; otherwise the nonce is appended; true is returned exactly when this nonce completes the set, and only then is the combined nonce set, to the aggregate of all nonces; an aggregation error leaves the full list without a combined nonce |
| Musig2Context.SignStep | btcec/schnorr/musig2/context.go:269-307 | the message is always recorded; a spent secret nonce gives `ErrSigningContextReuse` and a missing combined nonce `ErrCombinedNonceUnavailable`, with nothing else changed; once the signer is reached the secret nonce is gone and the result is exactly what the package-level partial signer returns for our secret nonce, signing key, the combined nonce, the key set, the message and the tweaks; on success our signature is stored and appended to the signature list |
| Musig2Context.CombineStep | btcec/schnorr/musig2/context.go:312-355 | with n signatures in, the result is `ErrAlredyHaveAllSigs` and nothing changes; otherwise the signature is appended; while the set is still incomplete the result is false; when this one completes it and we have signed, the signatures are combined and, if the result verifies under the combined key, it becomes the final signature and the result is true, otherwise the result is `ErrFinalSigInvalid` and no final signature is set; a final signature is set in no other case; completing the set without our own signature is the nil dereference of `ourSig` |
| Musig2Context.RegisterNoncePreservesInv | btcec/schnorr/musig2/context.go:239-264 | registering a nonce keeps the session invariant: at most n nonces, a combined nonce only with all n, our signature only after our nonce is spent, a final signature only with n signatures |
| Musig2Context.SignPreservesInv | btcec/schnorr/musig2/context.go:269-307 | signing keeps the session invariant |
| Musig2Context.CombinePreservesInv | btcec/schnorr/musig2/context.go:312-355 | combining keeps the session invariant |
| Musig2Context.RegisterNeverReportsAllNonces | btcec/schnorr/musig2/context.go:239-264 | `RegisterPubNonce` itself never returns `ErrAlredyHaveAllNonces` |
| Musig2Context.Session.constructor | btcec/schnorr/musig2/context.go:211-218 | a new session's state is the initial state for its nonces |
| Musig2Context.Session.RegisterPubNonce | btcec/schnorr/musig2/context.go:239-264 | the new state and the result are those of `RegisterNonceStep`, and the invariant is kept |
| Musig2Context.Session.Sign | btcec/schnorr/musig2/context.go:269-307 | the new state and the result are those of `SignStep` for the context's current keys and tweaks, and the invariant is kept |
| Musig2Context.Session.CombineSig | btcec/schnorr/musig2/context.go:312-355 | the new state and the result are those of `CombineStep`, and the invariant is kept |
| Musig2Context.Session.FinalSig | btcec/schnorr/musig2/context.go:358-360 | a final signature exists only when all n partial signatures are in and we have signed |
| Musig2Context.RunPreservesInv | btcec/schnorr/musig2/context.go:239-355 | the session invariant holds after any sequence of calls |
| Musig2Context.NoncesNeverReturn | btcec/schnorr/musig2/context.go:290-297 | once the secret nonce is spent, no sequence of calls restores it or reaches the signer again |
| Musig2Context.SecretNonceUsedAtMostOnce | btcec/schnorr/musig2/context.go:269-307 | over any sequence of calls, the secret nonce reaches the partial signer at most once |
| Musig2Context.FullWithoutCombinedNonceIsPermanent | btcec/schnorr/musig2/context.go:242-261 | a full nonce list without a combined nonce (nonce aggregation failed) stays without one, and the session can never sign |
| Musig2Context.OneSignerNeverSigns | btcec/schnorr/musig2/context.go:211-245 | a session of a single signer never gets a combined nonce, so it can never sign |
| Musig2Context.StuckIsPermanent | btcec/schnorr/musig2/context.go:312-318 | with all signatures in, no final signature and our nonce spent, no call ever produces a final signature |
| Musig2Context.LocalSignLastNeverCombines | btcec/schnorr/musig2/context.go:290-318 | if our own signature completes the set, no later call ever combines the signatures |
| SilentPayments.DummyP2TROutput | btcutil/psbt/silentpayments.go:19-27 | a 34-byte script: `OP_1`, a 32-byte push, 32 zero bytes |
| SilentPayments.OutPointLess | btcutil/psbt/silentpayments.go:57-65 | the `sort.Slice` comparator: by index when the hashes are equal, otherwise by `bytes.Compare` of the hashes; an outpoint never sorts before itself |
| SilentPayments.OutPointLessIsStrictTotalOrder | btcutil/psbt/silentpayments.go:57-65 | the outpoint order (hash bytes, then index) is a strict total order |
| SilentPayments.SortOutPoints | btcutil/psbt/silentpayments.go:57-74 | the array ends sorted by that order and is a permutation of its old contents |
| SilentPayments.SortedOutPointsEqualIffSameMultiset | btcutil/psbt/silentpayments.go:76-82 | two sorted outpoint lists are equal exactly when they hold the same outpoints with the same multiplicities |
| SilentPayments.EqualOutPoints | btcutil/psbt/silentpayments.go:52-83 | true exactly when both lists hold the same outpoints with the same multiplicities; lists of different lengths are untouched; lists of equal length end sorted in place, even when the answer is false |
| SilentPayments.SilentPaymentShare.EqualKey | btcutil/psbt/silentpayments.go:43-49 | true exactly when the scan keys are equal and the outpoints are the same multiset; different scan keys or lists of different lengths leave both lists untouched; equal scan keys with lists of equal length leave both sorted in place; the lists stay permutations of themselves |
| SilentPayments.SilentPaymentDLEQ.EqualKey | btcutil/psbt/silentpayments.go:154-160 | as for shares: the same answer, and the same in-place sorting of equal-length lists when the scan keys match |
| SilentPayments.OutPointBytes | btcutil/psbt/silentpayments.go:130-134 | an outpoint serialises to 36 bytes |
| SilentPayments.OutPointRoundTrip | btcutil/psbt/silentpayments.go:112-118 | reading an outpoint's 36 bytes gives back the outpoint |
| SilentPayments.OutPointBytesRoundTrip | btcutil/psbt/silentpayments.go:112-118 | serialising the outpoint read at an offset gives back those 36 bytes |
| SilentPayments.OutPointsFrom | btcutil/psbt/silentpayments.go:112-118 | reading `count` consecutive outpoints gives `count` outpoints |
| SilentPayments.SerializeOutPoints | btcutil/psbt/silentpayments.go:130-135 | the serialised outpoints take 36 bytes each |
| SilentPayments.SerializeOutPointsAt | btcutil/psbt/silentpayments.go:130-135 | bytes 36k to 36k+36 of the serialisation are outpoint k's bytes |
| SilentPayments.ParseKeyedFrom | btcutil/psbt/silentpayments.go:87-121 | `ErrInvalidKeyData` exactly when the key data is shorter than 33 bytes or its remainder is not a multiple of 36; otherwise `ErrInvalidPsbtFormat` exactly when the value has the wrong length; on success the scan key is the first 33 bytes, the value is kept, and there is one outpoint per 36 remaining bytes |
| SilentPayments.SerializeKeyed | btcutil/psbt/silentpayments.go:125-138 | the key data is the scan key's length plus 36 bytes per outpoint, and the value is the payload |
| SilentPayments.ReadSerializedOutPoints | btcutil/psbt/silentpayments.go:125-138 | outpoints serialised behind a 33-byte scan key are read back unchanged from offset 33 |
| SilentPayments.SerializeOutPointsFrom | btcutil/psbt/silentpayments.go:125-138 | serialising the outpoints read from a stretch of bytes gives back that stretch |
| SilentPayments.ParseSerializedRoundTrip | btcutil/psbt/silentpayments.go:87-138 | with outpoints read from offset 33, reading a serialised share or proof gives it back |
| SilentPayments.SerializeParsedRoundTrip | btcutil/psbt/silentpayments.go:87-138 | with outpoints read from offset 33, serialising what was read gives back the key data and the value |
| SilentPayments.ReadSerializedAsWritten | btcutil/psbt/silentpayments.go:112-118 | as written, the round trip holds without outpoints, and with outpoints only if the first outpoint's hash equals the first 32 bytes of the scan key |
| SilentPayments.ReadSerializedAsWrittenCounterexample | btcutil/psbt/silentpayments.go:112-118 | a concrete one-outpoint share that does not survive serialising and reading back |
| SilentPayments.ReadOutPoints | btcutil/psbt/silentpayments.go:112-118 | the read loop fills a fresh array with outpoint k read from byte 36k, for every k below the count |
| SilentPayments.SerializeKeyData | btcutil/psbt/silentpayments.go:126-135 | the serialisation loop yields the scan key followed by each outpoint's hash and little-endian index |
| SilentPayments.ParseShare | btcutil/psbt/silentpayments.go:87-121 | the share reader as written succeeds exactly when the key data is a 33-byte key plus whole 36-byte outpoints and the value is 33 bytes |
| SilentPayments.ParseDLEQ | btcutil/psbt/silentpayments.go:164-196 | the proof reader as written succeeds exactly when the key data is a 33-byte key plus whole 36-byte outpoints and the value is 64 bytes |
| SilentPayments.ReadSilentPaymentShare | btcutil/psbt/silentpayments.go:87-121 | errors as `ParseKeyedFrom` with a 33-byte value; on success a fresh share whose fields are the parsed ones |
| SilentPayments.SerializeSilentPaymentShare | btcutil/psbt/silentpayments.go:125-138 | key data and value are `SerializeKeyed` of the share |
| SilentPayments.ReadSilentPaymentDLEQ | btcutil/psbt/silentpayments.go:164-196 | errors as `ParseKeyedFrom` with a 64-byte value; on success a fresh proof whose fields are the parsed ones |
| SilentPayments.SerializeSilentPaymentDLEQ | btcutil/psbt/silentpayments.go:200-213 | key data and value are `SerializeKeyed` of the proof |
| SilentPayments.ReadSilentPaymentInfo | btcutil/psbt/silentpayments.go:227-236 | success exactly for a 66-byte value, split into two 33-byte keys; any other length is `ErrInvalidPsbtFormat` |
| SilentPayments.SerializeSilentPaymentInfo | btcutil/psbt/silentpayments.go:239-245 | the value is as long as both keys together |
| SilentPayments.InfoRoundTrip | btcutil/psbt/silentpayments.go:227-245 | reading serialised recipient information with two 33-byte keys gives it back |
| SilentPayments.InfoValueRoundTrip | btcutil/psbt/silentpayments.go:227-245 | serialising what was read gives back the value |
| Bytes.Compare | btcec/schnorr/musig2/keys.go:35 | `bytes.Compare` returns -1, 0 or 1, and 0 exactly for equal inputs |
| Bytes.CompareAntisymmetric | btcec/schnorr/musig2/keys.go:35 | swapping the arguments negates the comparison |
| Bytes.CompareTransitive | btcec/schnorr/musig2/keys.go:35 | "less than" under `bytes.Compare` is transitive |
| Bytes.BytesLessIsStrictTotalOrder | btcec/schnorr/musig2/keys.go:35 | "less than" under `bytes.Compare` is a strict total order |
| Bytes.LittleEndian32 | btcutil/psbt/silentpayments.go:132-134 | `PutUint32` writes 4 bytes |
| Bytes.ReadLittleEndian32 | btcutil/psbt/silentpayments.go:115-117 | `Uint32` reads the 4 bytes least significant first |
| Bytes.LittleEndian32RoundTrip | btcutil/psbt/silentpayments.go:132-134 | decoding an encoded `uint32` gives it back |
| Bytes.ReadLittleEndian32RoundTrip | btcutil/psbt/silentpayments.go:115-117 | encoding a decoded 4-byte string gives it back |

## Left out

- Curve arithmetic (Jacobian points, `ScalarMultNonConst`, `AddNonConst`, `ToAffine`) and tagged SHA-256 are parameters, not computed. Order independence of the aggregate is proved only under the assumption that point addition is a commutative monoid.
- Musig2Keys.SortKeys: `sort.Sort` is not stable. The model writes back a stable insertion sort, but the contract promises only "sorted permutation, unchanged if already sorted", which is all `sort.Sort` guarantees.
- Musig2Keys.AggregationCoefficient: requires the second-key index to be -1 or in range. The code would panic on an out-of-range index supplied through `WithUniqueKeyIndex`, and that panic is not modelled.
- Musig2Keys.AggregateKeys: the functional options (`WithKeysHash`, `WithUniqueKeyIndex`) are two `Option` arguments.
- Musig2Context.NewContext: the tweak-aware `AggregateKeys` and the two-argument `secondUniqueKeyIndex` that context.go calls are not the keys.go versions modelled here, so they are parameters. Nothing ties them to `Musig2Keys.AggregateKeys`.
- Musig2Context.NewContext: the `schnorr.ParsePubKey` error (context.go:112-117) is not modelled. It cannot happen for a key serialised from a valid private key, and the even-y key is computed directly.
- Musig2Context.Session.Sign: the caller's extra `SignOption`s are not modelled. Only the context's tweaks are passed on.
- `Session.NumRegisteredNonces`, `Context.CombinedKey` and `Context.PubKey` are plain field reads and are not modelled.
- `Session.PublicNonce` (context.go:226-228) is not modelled. It reads `s.localNonces.PubNonce`, and `Sign` sets `localNonces` to nil once the signer is reached (context.go:297). So after such a `Sign` it dereferences nil and panics. The model's `localNonces` becomes `None` at the same point (`SignStep` ensures it), but no operation reads the public nonce from there.
- Musig2Context.Session.CombineSig: the nil-pointer panic on `s.ourSig.R` (context.go:341), when the last signature arrives before we signed, is modelled as the error `NilOurSigDereference`, returned after the signature has been appended.
- A `Sign` after the final signature exists still overwrites the stored message, as the code does. The contracts record this, but no property is claimed about it.
- Go slice aliasing in the readers is not modelled. There the scan key and the share value share memory with the caller's buffers; here they are values.
- Nonce generation, `AggregateNonces`, the package-level partial `Sign`, `CombineSigs` and signature verification are parameters.

## Findings

| source | as written | input that shows it | evidently intended | confidence | as-written member | corrected member |
|---|---|---|---|---|---|---|
| btcutil/psbt/silentpayments.go:112-118 | the read loop takes outpoint k from `keyData[36k..36k+36]`, which starts inside the 33-byte scan key (the DLEQ reader, lines 187-193, does the same) | a share with scan key `02 00..00` (33 bytes), one outpoint with hash `00..00 01` and index 0: serialised then read back, its outpoint hash becomes the first 32 bytes of the scan key | outpoint k read from `keyData[33+36k..33+36k+36]`, where `SerializeSilentPaymentShare` writes it, so that reading a serialised share gives it back | high; not executed | SilentPayments.ReadSerializedAsWrittenCounterexample | SilentPayments.ParseSerializedRoundTrip |
