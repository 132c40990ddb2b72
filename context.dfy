/**
 * The managed MuSig2 signing context and session of
 * btcec/schnorr/musig2/context.go.
 *
 * A `Context` is built once from our private key and the signers' keys; a
 * `Session` then collects public nonces, signs once, collects partial
 * signatures and combines them. Every `Session` method is specified by a
 * pure step function on a `SessionState` value; the safety rules (counts,
 * presence checks, the secret nonce used at most once) are proved about the
 * step functions, one call at a time and over whole call sequences.
 *
 * The nonce generator, nonce aggregation, the package-level partial `Sign`,
 * `CombineSigs`, signature verification and the tweak-aware key
 * aggregation are not part of this model: they arrive as function values.
 */
module Musig2Context {

  import opened Wrappers
  import opened Bytes
  import opened Musig2Keys

  /** The errors of context.go, plus the errors of the primitives it calls. */
  datatype MuSigError =
    | SignerNotInKeySet
    | AlredyHaveAllNonces
    | AlredyHaveAllSigs
    | SigningContextReuse
    | FinalSigInvalid
    | CombinedNonceUnavailable
      /** An error returned by a primitive this model does not look into. */
    | External(code: nat)
      /** The nil-pointer panic of reading `s.ourSig.R` when we never signed. */
    | NilOurSigDereference

  /** A private key, known here only through the public key it derives. */
  datatype PrivateKey = PrivateKey(secret: seq<byte>, pubKey: PublicKey)

  /** A key tweak (`KeyTweakDesc`), passed through untouched. */
  datatype KeyTweak = KeyTweak(tweak: Bytes32, isXOnly: bool)

  /** The output of `GenNonces`: a secret nonce and its public nonce. */
  datatype Nonces = Nonces(pubNonce: seq<byte>, secNonce: seq<byte>)

  /** A partial signature; `r` is the public nonce point it commits to. */
  datatype PartialSignature = PartialSignature(s: nat, r: PublicKey)

  /** A final Schnorr signature. */
  datatype Signature = Signature(r: Bytes32, s: nat)

  /** The `WithTweakedCombine` option handed to `CombineSigs`. */
  datatype TweakedCombine = TweakedCombine(msg: Bytes32, keySet: seq<PublicKey>, tweaks: seq<KeyTweak>, shouldSort: bool)

  /** The package-level functions the session calls. */
  datatype Primitives = Primitives(
    aggregateNonces: seq<seq<byte>> -> Result<seq<byte>, MuSigError>,
    sign: (seq<byte>, PrivateKey, seq<byte>, seq<PublicKey>, Bytes32, seq<KeyTweak>) -> Result<PartialSignature, MuSigError>,
    combineSigs: (PublicKey, seq<PartialSignature>, Option<TweakedCombine>) -> Signature,
    verify: (Signature, Bytes32, PublicKey) -> bool)

  /**
   * `schnorr.ParsePubKey(schnorr.SerializePubKey(k))`: the key with the same
   * x coordinate and an even y coordinate.
   */
  function EvenYKey(k: PublicKey): (e: PublicKey)
    ensures XOnly(e) == XOnly(k) && !e.oddY
  {
    PublicKey(k.x, false)
  }

  // ---------------------------------------------------------------------
  // Context (context.go:40-176)
  // ---------------------------------------------------------------------

  /** The parts of a context a session reads, taken at the time of the call. */
  datatype ContextView = ContextView(
    signingKey: PrivateKey,
    keySet: seq<PublicKey>,
    combinedKey: PublicKey,
    tweaks: seq<KeyTweak>,
    shouldSort: bool)

  class Context {
    const signingKey: PrivateKey
    /** Our even-y public key. */
    const pubKey: PublicKey
    /** The signers' keys; the same backing array the caller passed in. */
    const keySet: array<PublicKey>
    const combinedKey: PublicKey
    const uniqueKeyIndex: int
    const keysHash: Bytes32
    const tweaks: seq<KeyTweak>
    const shouldSort: bool

    /** We are one of the signers. */
    ghost predicate Valid()
      reads keySet
    {
      pubKey in keySet[..]
    }

    constructor (signingKey: PrivateKey, pubKey: PublicKey, keySet: array<PublicKey>, combinedKey: PublicKey,
                 uniqueKeyIndex: int, keysHash: Bytes32, tweaks: seq<KeyTweak>, shouldSort: bool)
      ensures this.signingKey == signingKey && this.pubKey == pubKey && this.keySet == keySet
      ensures this.combinedKey == combinedKey && this.uniqueKeyIndex == uniqueKeyIndex
      ensures this.keysHash == keysHash && this.tweaks == tweaks && this.shouldSort == shouldSort
    {
      this.signingKey := signingKey;
      this.pubKey := pubKey;
      this.keySet := keySet;
      this.combinedKey := combinedKey;
      this.uniqueKeyIndex := uniqueKeyIndex;
      this.keysHash := keysHash;
      this.tweaks := tweaks;
      this.shouldSort := shouldSort;
    }

    function View(): (v: ContextView)
      reads keySet
      ensures |v.keySet| == keySet.Length
    {
      ContextView(signingKey, keySet[..], combinedKey, tweaks, shouldSort)
    }

    /** `SigningKeys`: a fresh copy of the key set. */
    method SigningKeys() returns (keys: array<PublicKey>)
      ensures fresh(keys)
      ensures keys[..] == keySet[..]
    {
      keys := new PublicKey[keySet.Length](i requires 0 <= i < keySet.Length reads keySet => keySet[i]);
    }

    /** `NewSession`; the outcome of `GenNonces` is a parameter. */
    method NewSession(generated: Result<Nonces, MuSigError>) returns (s: Session?, err: Option<MuSigError>)
      requires 1 <= keySet.Length
      ensures generated.Failure? ==> s == null && err == Some(generated.error)
      ensures generated.Success? ==> err.None? && s != null && fresh(s) && s.ctx == this
      ensures generated.Success? ==> s.State() == InitialState(generated.value) && s.Valid()
    {
      if generated.Failure? {
        return null, Some(generated.error);
      }
      s := new Session(this, generated.value);
      InitialStateValid(generated.value, keySet.Length);
      err := None;
    }
  }

  /**
   * `NewContext`. The membership check compares whole points; the list hash
   * comes from `keyHashFingerprint`, which sorts `signers` in place when
   * asked. context.go calls a two-argument `secondUniqueKeyIndex` and a
   * tweak-aware `AggregateKeys` that are not the ones of keys.go; both are
   * parameters here.
   */
  method NewContext(signingKey: PrivateKey, signers: array<PublicKey>, shouldSort: bool, tweaks: seq<KeyTweak>,
                    hash: TaggedHash, uniqueIndexOf: (seq<PublicKey>, bool) -> int,
                    aggregateKeys: (seq<PublicKey>, bool, Bytes32, int, seq<KeyTweak>) -> Result<PublicKey, MuSigError>)
    returns (ctx: Context?, err: Option<MuSigError>)
    modifies signers
    ensures ctx == null <==> err.Some?
    ensures EvenYKey(signingKey.pubKey) !in old(signers[..]) ==>
              err == Some(SignerNotInKeySet) && signers[..] == old(signers[..])
    ensures EvenYKey(signingKey.pubKey) in old(signers[..]) ==>
              if shouldSort then SortKeysOutcome(old(signers[..]), signers[..]) else signers[..] == old(signers[..])
    ensures EvenYKey(signingKey.pubKey) in old(signers[..]) ==>
              var kh := KeysHash(signers[..], hash);
              var idx := uniqueIndexOf(signers[..], shouldSort);
              match aggregateKeys(signers[..], shouldSort, kh, idx, tweaks)
              case Failure(e) => err == Some(e)
              case Success(k) =>
                && ctx != null && fresh(ctx) && ctx.Valid() && 1 <= ctx.keySet.Length
                && ctx.signingKey == signingKey && ctx.pubKey == EvenYKey(signingKey.pubKey)
                && ctx.keySet == signers && ctx.combinedKey == k
                && ctx.keysHash == kh && ctx.uniqueKeyIndex == idx
                && ctx.tweaks == tweaks && ctx.shouldSort == shouldSort
  {
    var pubKey := EvenYKey(signingKey.pubKey);

    var keyFound := false;
    var i := 0;
    while i < signers.Length
      invariant 0 <= i <= signers.Length
      invariant keyFound <==> pubKey in signers[..i]
      invariant !keyFound ==> pubKey !in signers[..i]
    {
      if signers[i] == pubKey {
        keyFound := true;
        assert signers[..i + 1][i] == pubKey;
        break;
      }
      assert signers[..i + 1] == signers[..i] + [signers[i]];
      i := i + 1;
    }
    if !keyFound {
      assert signers[..i] == signers[..];
      return null, Some(SignerNotInKeySet);
    }
    assert pubKey in signers[..] by {
      assert signers[..i + 1] <= signers[..];
    }
    assert pubKey in multiset(signers[..]);

    var keysHash := KeyHashFingerprint(signers, shouldSort, hash);
    assert pubKey in multiset(signers[..]);
    var uniqueKeyIndex := uniqueIndexOf(signers[..], shouldSort);

    var combined := aggregateKeys(signers[..], shouldSort, keysHash, uniqueKeyIndex, tweaks);
    if combined.Failure? {
      return null, Some(combined.error);
    }
    ctx := new Context(signingKey, pubKey, signers, combined.value, uniqueKeyIndex, keysHash, tweaks, shouldSort);
    err := None;
  }

  // ---------------------------------------------------------------------
  // Session state and its steps (context.go:178-360)
  // ---------------------------------------------------------------------

  datatype SessionState = SessionState(
    localNonces: Option<Nonces>,
    pubNonces: seq<seq<byte>>,
    combinedNonce: Option<seq<byte>>,
    msg: Bytes32,
    ourSig: Option<PartialSignature>,
    sigs: seq<PartialSignature>,
    finalSig: Option<Signature>)

  /** The new state of a session call and what the call returns. */
  datatype Step<T> = Step(state: SessionState, result: Result<T, MuSigError>)

  /** A fresh session: our nonces, our public nonce registered, nothing else. */
  function InitialState(nonces: Nonces): SessionState {
    SessionState(Some(nonces), [nonces.pubNonce], None, Zeros(32), None, [], None)
  }

  /**
   * The session invariant for `n` signers. The partial-signature count is
   * not bounded by `n`: `Sign` appends without looking at it.
   */
  ghost predicate Inv(st: SessionState, n: nat) {
    && 1 <= |st.pubNonces| <= n
    && (st.combinedNonce.Some? ==> |st.pubNonces| == n)
    && (st.ourSig.Some? ==> st.localNonces.None? && st.ourSig.value in st.sigs)
    && (st.finalSig.Some? ==> st.ourSig.Some? && |st.sigs| == n)
  }

  /** A new session of a context with at least one signer holds the invariant. */
  lemma InitialStateValid(nonces: Nonces, n: nat)
    requires 1 <= n
    ensures Inv(InitialState(nonces), n)
    ensures |InitialState(nonces).pubNonces| == 1 && InitialState(nonces).localNonces == Some(nonces)
  {
  }

  /** `RegisterPubNonce` for `n` signers. */
  function RegisterNonceStep(st: SessionState, n: nat, nonce: seq<byte>, p: Primitives): (o: Step<bool>)
    ensures |st.pubNonces| == n ==> o == Step(st, Success(false))
    ensures |st.pubNonces| != n ==> o.state.pubNonces == st.pubNonces + [nonce]
    ensures o.state == st.(pubNonces := o.state.pubNonces, combinedNonce := o.state.combinedNonce)
    ensures o.result.Success? ==> (o.result.value <==> |st.pubNonces| != n && |o.state.pubNonces| == n)
    ensures o.result == Success(true) ==>
              p.aggregateNonces(o.state.pubNonces).Success? && o.state.combinedNonce == Some(p.aggregateNonces(o.state.pubNonces).value)
    ensures o.state.combinedNonce != st.combinedNonce ==> o.result == Success(true)
    ensures o.result.Failure? ==> |o.state.pubNonces| == n && p.aggregateNonces(o.state.pubNonces) == Failure(o.result.error)
  {
    if |st.pubNonces| == n then Step(st, Success(false))
    else
      var nonces := st.pubNonces + [nonce];
      if |nonces| != n then Step(st.(pubNonces := nonces), Success(false))
      else match p.aggregateNonces(nonces)
        case Failure(e) => Step(st.(pubNonces := nonces), Failure(e))
        case Success(cn) => Step(st.(pubNonces := nonces, combinedNonce := Some(cn)), Success(true))
  }

  /** `Sign` calls the package-level signer exactly in these states. */
  predicate SignerReached(st: SessionState) {
    st.localNonces.Some? && st.combinedNonce.Some?
  }

  /** `Sign` of `msg`, with the context's current view. */
  function SignStep(st: SessionState, msg: Bytes32, view: ContextView, p: Primitives): (o: Step<PartialSignature>)
    ensures o.state.msg == msg
    ensures st.localNonces.None? ==> o == Step(st.(msg := msg), Failure(SigningContextReuse))
    ensures st.localNonces.Some? && st.combinedNonce.None? ==> o == Step(st.(msg := msg), Failure(CombinedNonceUnavailable))
    ensures SignerReached(st) ==> o.state.localNonces.None?
    ensures SignerReached(st) ==>
              o.result == p.sign(st.localNonces.value.secNonce, view.signingKey, st.combinedNonce.value, view.keySet, msg, view.tweaks)
    ensures o.result.Success? ==> SignerReached(st) && o.state.ourSig == Some(o.result.value) && o.state.sigs == st.sigs + [o.result.value]
    ensures o.result.Failure? ==> o.state.ourSig == st.ourSig && o.state.sigs == st.sigs
    ensures o.state == st.(msg := msg, localNonces := o.state.localNonces, ourSig := o.state.ourSig, sigs := o.state.sigs)
  {
    var st1 := st.(msg := msg);
    if st.localNonces.None? then Step(st1, Failure(SigningContextReuse))
    else if st.combinedNonce.None? then Step(st1, Failure(CombinedNonceUnavailable))
    else
      var st2 := st1.(localNonces := None);
      match p.sign(st.localNonces.value.secNonce, view.signingKey, st.combinedNonce.value, view.keySet, msg, view.tweaks)
      case Failure(e) => Step(st2, Failure(e))
      case Success(sig) => Step(st2.(ourSig := Some(sig), sigs := st.sigs + [sig]), Success(sig))
  }

  /** The options `CombineSig` hands to `CombineSigs`: the tweaks, if there are any. */
  function CombineOptions(msg: Bytes32, view: ContextView): Option<TweakedCombine> {
    if view.tweaks == [] then None else Some(TweakedCombine(msg, view.keySet, view.tweaks, view.shouldSort))
  }

  /** `CombineSig` of a received partial signature. */
  function CombineStep(st: SessionState, sig: PartialSignature, view: ContextView, p: Primitives): (o: Step<bool>)
    ensures |st.sigs| == |view.keySet| ==> o == Step(st, Failure(AlredyHaveAllSigs))
    ensures |st.sigs| != |view.keySet| ==> o.state.sigs == st.sigs + [sig]
    ensures o.state == st.(sigs := o.state.sigs, finalSig := o.state.finalSig)
    ensures o.state.finalSig != st.finalSig ==>
              && o.result == Success(true) && |o.state.sigs| == |view.keySet| && st.ourSig.Some?
              && o.state.finalSig == Some(p.combineSigs(st.ourSig.value.r, o.state.sigs, CombineOptions(st.msg, view)))
              && p.verify(o.state.finalSig.value, st.msg, view.combinedKey)
    ensures o.result == Success(true) ==> o.state.finalSig.Some?
    ensures o.result.Success? ==> (o.result.value <==> |st.sigs| != |view.keySet| && |o.state.sigs| == |view.keySet|)
    ensures o.result == Failure(FinalSigInvalid) ==> o.state.finalSig == st.finalSig
    ensures o.result == Failure(NilOurSigDereference) <==>
              |st.sigs| + 1 == |view.keySet| && st.ourSig.None?
    ensures |st.sigs| != |view.keySet| && |st.sigs| + 1 != |view.keySet| ==> o.result == Success(false)
    ensures |st.sigs| + 1 == |view.keySet| && st.ourSig.Some? ==>
              var f := p.combineSigs(st.ourSig.value.r, st.sigs + [sig], CombineOptions(st.msg, view));
              if p.verify(f, st.msg, view.combinedKey) then o.result == Success(true) && o.state.finalSig == Some(f)
              else o.result == Failure(FinalSigInvalid) && o.state.finalSig == st.finalSig
  {
    var n := |view.keySet|;
    if |st.sigs| == n then Step(st, Failure(AlredyHaveAllSigs))
    else
      var st1 := st.(sigs := st.sigs + [sig]);
      if |st1.sigs| != n then Step(st1, Success(false))
      else if st.ourSig.None? then Step(st1, Failure(NilOurSigDereference))
      else
        var finalSig := p.combineSigs(st.ourSig.value.r, st1.sigs, CombineOptions(st.msg, view));
        if !p.verify(finalSig, st.msg, view.combinedKey) then Step(st1, Failure(FinalSigInvalid))
        else Step(st1.(finalSig := Some(finalSig)), Success(true))
  }

  lemma RegisterNoncePreservesInv(st: SessionState, n: nat, nonce: seq<byte>, p: Primitives)
    requires Inv(st, n)
    ensures Inv(RegisterNonceStep(st, n, nonce, p).state, n)
  {
  }

  lemma SignPreservesInv(st: SessionState, msg: Bytes32, view: ContextView, p: Primitives)
    requires Inv(st, |view.keySet|)
    ensures Inv(SignStep(st, msg, view, p).state, |view.keySet|)
  {
  }

  lemma CombinePreservesInv(st: SessionState, sig: PartialSignature, view: ContextView, p: Primitives)
    requires Inv(st, |view.keySet|)
    ensures Inv(CombineStep(st, sig, view, p).state, |view.keySet|)
  {
  }

  /** `RegisterPubNonce` never reports `ErrAlredyHaveAllNonces` on its own account. */
  lemma RegisterNeverReportsAllNonces(st: SessionState, n: nat, nonce: seq<byte>, p: Primitives)
    requires forall ns :: p.aggregateNonces(ns) != Failure(AlredyHaveAllNonces)
    ensures RegisterNonceStep(st, n, nonce, p).result != Failure(AlredyHaveAllNonces)
  {
    var o := RegisterNonceStep(st, n, nonce, p);
    if o.result.Failure? {
      assert p.aggregateNonces(o.state.pubNonces) == Failure(o.result.error);
    }
  }

  // ---------------------------------------------------------------------
  // The session as an object
  // ---------------------------------------------------------------------

  class Session {
    const ctx: Context
    var localNonces: Option<Nonces>
    var pubNonces: seq<seq<byte>>
    var combinedNonce: Option<seq<byte>>
    var msg: Bytes32
    var ourSig: Option<PartialSignature>
    var sigs: seq<PartialSignature>
    var finalSig: Option<Signature>

    function State(): SessionState
      reads this
    {
      SessionState(localNonces, pubNonces, combinedNonce, msg, ourSig, sigs, finalSig)
    }

    ghost predicate Valid()
      reads this
    {
      Inv(State(), ctx.keySet.Length)
    }

    constructor (ctx: Context, nonces: Nonces)
      ensures this.ctx == ctx && State() == InitialState(nonces)
    {
      this.ctx := ctx;
      localNonces := Some(nonces);
      pubNonces := [];
      combinedNonce := None;
      msg := Zeros(32);
      ourSig := None;
      sigs := [];
      finalSig := None;
      new;
      pubNonces := pubNonces + [nonces.pubNonce];
    }

    /** `RegisterPubNonce`: true once every signer's nonce is in. */
    method RegisterPubNonce(nonce: seq<byte>, p: Primitives) returns (r: Result<bool, MuSigError>)
      requires Valid()
      modifies this
      ensures Valid()
      ensures var o := RegisterNonceStep(old(State()), ctx.keySet.Length, nonce, p);
              State() == o.state && r == o.result
    {
      RegisterNoncePreservesInv(State(), ctx.keySet.Length, nonce, p);
      var haveAllNonces := |pubNonces| == ctx.keySet.Length;
      if haveAllNonces {
        return Success(false);
      }
      pubNonces := pubNonces + [nonce];
      haveAllNonces := |pubNonces| == ctx.keySet.Length;
      if haveAllNonces {
        var combined := p.aggregateNonces(pubNonces);
        if combined.Failure? {
          return Failure(combined.error);
        }
        combinedNonce := Some(combined.value);
      }
      return Success(haveAllNonces);
    }

    /** `Sign`: our partial signature of `m`, at most once per session. */
    method Sign(m: Bytes32, p: Primitives) returns (r: Result<PartialSignature, MuSigError>)
      requires Valid()
      modifies this
      ensures Valid()
      ensures var o := SignStep(old(State()), m, ctx.View(), p);
              State() == o.state && r == o.result
    {
      SignPreservesInv(State(), m, ctx.View(), p);
      msg := m;
      if localNonces.None? {
        return Failure(SigningContextReuse);
      }
      if combinedNonce.None? {
        return Failure(CombinedNonceUnavailable);
      }
      var partialSig := p.sign(localNonces.value.secNonce, ctx.signingKey, combinedNonce.value,
                               ctx.keySet[..], m, ctx.tweaks);
      localNonces := None;
      if partialSig.Failure? {
        return Failure(partialSig.error);
      }
      ourSig := Some(partialSig.value);
      sigs := sigs + [partialSig.value];
      return Success(partialSig.value);
    }

    /** `CombineSig`: true once every partial signature is in and the result verifies. */
    method CombineSig(sig: PartialSignature, p: Primitives) returns (r: Result<bool, MuSigError>)
      requires Valid()
      modifies this
      ensures Valid()
      ensures var o := CombineStep(old(State()), sig, ctx.View(), p);
              State() == o.state && r == o.result
    {
      CombinePreservesInv(State(), sig, ctx.View(), p);
      var haveAllSigs := |sigs| == ctx.keySet.Length;
      if haveAllSigs {
        return Failure(AlredyHaveAllSigs);
      }
      sigs := sigs + [sig];
      haveAllSigs := |sigs| == ctx.keySet.Length;
      if haveAllSigs {
        if ourSig.None? {
          return Failure(NilOurSigDereference);
        }
        var opts := CombineOptions(msg, ctx.View());
        var combined := p.combineSigs(ourSig.value.r, sigs, opts);
        if !p.verify(combined, msg, ctx.combinedKey) {
          return Failure(FinalSigInvalid);
        }
        finalSig := Some(combined);
      }
      return Success(haveAllSigs);
    }

    /** `FinalSig`: the combined signature, present only once it has verified. */
    function FinalSig(): (f: Option<Signature>)
      reads this
      requires Valid()
      ensures f.Some? ==> |sigs| == ctx.keySet.Length && ourSig.Some?
    {
      finalSig
    }
  }

  // ---------------------------------------------------------------------
  // Call sequences
  // ---------------------------------------------------------------------

  /** A call on a session. */
  datatype Call =
    | RegisterPubNonceCall(nonce: seq<byte>)
    | SignCall(msg: Bytes32)
    | CombineSigCall(sig: PartialSignature)

  function Next(st: SessionState, c: Call, view: ContextView, p: Primitives): SessionState {
    match c
    case RegisterPubNonceCall(nonce) => RegisterNonceStep(st, |view.keySet|, nonce, p).state
    case SignCall(m) => SignStep(st, m, view, p).state
    case CombineSigCall(sig) => CombineStep(st, sig, view, p).state
  }

  /** The state after a sequence of calls, the context left as it is. */
  function Run(st: SessionState, calls: seq<Call>, view: ContextView, p: Primitives): SessionState
    decreases |calls|
  {
    if calls == [] then st else Run(Next(st, calls[0], view, p), calls[1..], view, p)
  }

  /** How many of the calls reach the package-level signer with our secret nonce. */
  function SignerUses(st: SessionState, calls: seq<Call>, view: ContextView, p: Primitives): nat
    decreases |calls|
  {
    if calls == [] then 0
    else
      (if calls[0].SignCall? && SignerReached(st) then 1 else 0)
      + SignerUses(Next(st, calls[0], view, p), calls[1..], view, p)
  }

  /** The invariant holds after any sequence of calls. */
  lemma {:induction false} RunPreservesInv(st: SessionState, calls: seq<Call>, view: ContextView, p: Primitives)
    requires Inv(st, |view.keySet|)
    ensures Inv(Run(st, calls, view, p), |view.keySet|)
    decreases |calls|
  {
    if calls != [] {
      match calls[0] {
        case RegisterPubNonceCall(nonce) => RegisterNoncePreservesInv(st, |view.keySet|, nonce, p);
        case SignCall(m) => SignPreservesInv(st, m, view, p);
        case CombineSigCall(sig) => CombinePreservesInv(st, sig, view, p);
      }
      RunPreservesInv(Next(st, calls[0], view, p), calls[1..], view, p);
    }
  }

  /** Once the secret nonce is gone it never comes back, so it is never used again. */
  lemma {:induction false} NoncesNeverReturn(st: SessionState, calls: seq<Call>, view: ContextView, p: Primitives)
    requires st.localNonces.None?
    ensures Run(st, calls, view, p).localNonces.None?
    ensures SignerUses(st, calls, view, p) == 0
    decreases |calls|
  {
    if calls != [] {
      NoncesNeverReturn(Next(st, calls[0], view, p), calls[1..], view, p);
    }
  }

  /** Whatever the calls, the secret nonce reaches the signer at most once. */
  lemma {:induction false} SecretNonceUsedAtMostOnce(st: SessionState, calls: seq<Call>, view: ContextView, p: Primitives)
    ensures SignerUses(st, calls, view, p) <= 1
    decreases |calls|
  {
    if calls != [] {
      var st' := Next(st, calls[0], view, p);
      if calls[0].SignCall? && SignerReached(st) {
        NoncesNeverReturn(st', calls[1..], view, p);
      } else {
        SecretNonceUsedAtMostOnce(st', calls[1..], view, p);
      }
    }
  }

  /**
   * A full nonce set without a combined nonce (nonce aggregation failed, or
   * the session has a single signer) stays that way: no call ever combines
   * nonces again and the signer is never reached.
   */
  lemma {:induction false} FullWithoutCombinedNonceIsPermanent(st: SessionState, calls: seq<Call>, view: ContextView, p: Primitives)
    requires |st.pubNonces| == |view.keySet| && st.combinedNonce.None?
    ensures Run(st, calls, view, p).combinedNonce.None?
    ensures SignerUses(st, calls, view, p) == 0
    decreases |calls|
  {
    if calls != [] {
      FullWithoutCombinedNonceIsPermanent(Next(st, calls[0], view, p), calls[1..], view, p);
    }
  }

  /** A session of a single signer never gets a combined nonce, so it can never sign. */
  lemma OneSignerNeverSigns(nonces: Nonces, calls: seq<Call>, view: ContextView, p: Primitives)
    requires |view.keySet| == 1
    ensures Run(InitialState(nonces), calls, view, p).combinedNonce.None?
    ensures SignerUses(InitialState(nonces), calls, view, p) == 0
  {
    FullWithoutCombinedNonceIsPermanent(InitialState(nonces), calls, view, p);
  }

  /** All signatures in, no final signature, and our nonce spent. */
  predicate Stuck(st: SessionState, n: nat) {
    |st.sigs| == n && st.finalSig.None? && st.localNonces.None?
  }

  lemma {:induction false} StuckIsPermanent(st: SessionState, calls: seq<Call>, view: ContextView, p: Primitives)
    requires Stuck(st, |view.keySet|)
    ensures Run(st, calls, view, p).finalSig.None?
    decreases |calls|
  {
    if calls != [] {
      StuckIsPermanent(Next(st, calls[0], view, p), calls[1..], view, p);
    }
  }

  /**
   * If our own partial signature is the last one to arrive, nothing ever
   * combines the signatures: only `CombineSig` combines, and it now refuses.
   */
  lemma LocalSignLastNeverCombines(st: SessionState, m: Bytes32, calls: seq<Call>, view: ContextView, p: Primitives)
    requires |st.sigs| + 1 == |view.keySet| && st.finalSig.None?
    requires SignStep(st, m, view, p).result.Success?
    ensures Run(SignStep(st, m, view, p).state, calls, view, p).finalSig.None?
  {
    StuckIsPermanent(SignStep(st, m, view, p).state, calls, view, p);
  }
}
