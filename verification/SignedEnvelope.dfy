/**
 Signed request envelopes: creating and verifying them, and when one can be accepted twice.
 */
module SignedEnvelope {
  import opened CanonicalJson
  import opened Crypto
  import opened Documents
  import opened NonceStore
  import opened Wrappers

  datatype Proof = Proof(proofValue: string, verificationMethod: Option<string>)

  datatype Envelope = Envelope(
    requestId: string,
    protocolVersion: string,
    purpose: string,
    httpMethod: string,
    path: string,
    aud: string,
    requestTimestamp: int,
    requestNonce: string,
    bodyHash: string,
    proof: Proof)

  datatype Policy = Policy(
    expectedPurpose: string,
    expectedMethod: string,
    expectedPath: string,
    expectedAudience: string,
    maxClockSkewSeconds: int,
    nonceTtlSeconds: int)

  datatype EnvelopeError =
    | SignatureMissing
    | MethodMismatch
    | PathMismatch
    | PurposeMismatch
    | AudienceMismatch
    | TimestampStale
    | NonceReplayed
    | MissingVerificationMethod
    | SignatureInvalid
    | BodyHashMismatch

  datatype Context = Context(signerDid: string, verificationMethod: string, requestId: string)

  /** One call of the verifier; `doc` is the signer's document. */
  datatype Attempt = Attempt(envelope: Envelope, payload: Value, signerDid: string, doc: DidDocument, now: int)

  /** The signed part of an envelope. */
  function EnvelopeJson(e: Envelope): Value {
    Object(map[
      "requestId" := Str(e.requestId),
      "protocolVersion" := Str(e.protocolVersion),
      "purpose" := Str(e.purpose),
      "method" := Str(e.httpMethod),
      "path" := Str(e.path),
      "aud" := Str(e.aud),
      "requestTimestamp" := Number(e.requestTimestamp),
      "requestNonce" := Str(e.requestNonce),
      "bodyHash" := Str(e.bodyHash)])
  }

  // ----- freshness -----

  function Abs(n: int): nat {
    if n < 0 then -n else n
  }

  /** `num_seconds()` drops the part of a second, toward zero. */
  function NumSeconds(d: int): int {
    if d < 0 then -((-d) / UNIT) else d / UNIT
  }

  predicate IsFresh(timestamp: int, now: int, maxClockSkewSeconds: int) {
    !(Abs(NumSeconds(now - timestamp)) > maxClockSkewSeconds)
  }

  /** The accepted skew is anything below one second more than configured. */
  lemma FreshnessWindow(timestamp: int, now: int, skew: int)
    ensures IsFresh(timestamp, now, skew) <==> -(skew + 1) * UNIT < now - timestamp < (skew + 1) * UNIT
  {
  }

  // ----- verification -----

  function FieldError(e: Envelope, policy: Policy): Option<EnvelopeError> {
    if e.proof.proofValue == "" then Some(SignatureMissing)
    else if e.httpMethod != policy.expectedMethod then Some(MethodMismatch)
    else if e.path != policy.expectedPath then Some(PathMismatch)
    else if e.purpose != policy.expectedPurpose then Some(PurposeMismatch)
    else if e.aud != policy.expectedAudience then Some(AudienceMismatch)
    else None
  }

  /** The checks after the nonce has been stored. */
  ghost function SignatureCheck(c: Suite, a: Attempt): Result<Context, EnvelopeError> {
    var e := a.envelope;
    var expected := e.proof.verificationMethod.UnwrapOr(a.signerDid + "#key-1");
    match FindMethod(a.doc.verificationMethod, a.doc.assertionMethod, Some(expected))
    case None => Err(EnvelopeError.MissingVerificationMethod)
    case Some(m) =>
      if MethodKey(c, m).None? || !c.verify(MethodKey(c, m).value, HashJson(c, EnvelopeJson(e)), e.proof.proofValue) then Err(SignatureInvalid)
      else if HashJson(c, a.payload) != e.bodyHash then Err(BodyHashMismatch)
      else Ok(Context(a.signerDid, m.id, e.requestId))
  }

  /** The nonce is stored as soon as the fields and the time pass, whatever the signature. */
  predicate StoresNonce(policy: Policy, store: Nonces, a: Attempt) {
    && FieldError(a.envelope, policy).None?
    && IsFresh(a.envelope.requestTimestamp, a.now, policy.maxClockSkewSeconds)
    && !Replayed(store, a.envelope.requestNonce, a.now, policy.nonceTtlSeconds)
  }

  ghost function Verdict(c: Suite, policy: Policy, store: Nonces, a: Attempt): Result<Context, EnvelopeError> {
    var e := a.envelope;
    if FieldError(e, policy).Some? then Err(FieldError(e, policy).value)
    else if !IsFresh(e.requestTimestamp, a.now, policy.maxClockSkewSeconds) then Err(TimestampStale)
    else if Replayed(store, e.requestNonce, a.now, policy.nonceTtlSeconds) then Err(NonceReplayed)
    else SignatureCheck(c, a)
  }

  ghost predicate Accepts(c: Suite, policy: Policy, store: Nonces, a: Attempt) {
    Verdict(c, policy, store, a).Ok?
  }

  method VerifySignedRequestEnvelope(c: Suite, hashJson: Value -> string, file: NonceFile, policy: Policy, a: Attempt)
    returns (r: Result<Context, EnvelopeError>)
    requires forall v :: hashJson(v) == HashJson(c, v)
    modifies file
    ensures r == Verdict(c, policy, old(file.nonces), a)
    ensures if StoresNonce(policy, old(file.nonces), a)
      then IsStored(old(file.nonces), a.envelope.requestNonce, a.envelope.requestTimestamp, a.now, policy.nonceTtlSeconds, file.nonces)
      else file.nonces == old(file.nonces)
  {
    hide HashJson, IsStored;
    var e := a.envelope;
    var fieldError := FieldError(e, policy);
    if fieldError.Some? {
      return Err(fieldError.value);
    }
    if !IsFresh(e.requestTimestamp, a.now, policy.maxClockSkewSeconds) {
      return Err(TimestampStale);
    }
    var accepted := file.VerifyAndStoreNonce(e.requestNonce, e.requestTimestamp, a.now, policy.nonceTtlSeconds);
    if !accepted {
      return Err(NonceReplayed);
    }
    var expected := e.proof.verificationMethod.UnwrapOr(a.signerDid + "#key-1");
    var found := FindMethod(a.doc.verificationMethod, a.doc.assertionMethod, Some(expected));
    if found.None? {
      return Err(EnvelopeError.MissingVerificationMethod);
    }
    var key := MethodKey(c, found.value);
    if key.None? || !c.verify(key.value, hashJson(EnvelopeJson(e)), e.proof.proofValue) {
      return Err(SignatureInvalid);
    }
    if hashJson(a.payload) != e.bodyHash {
      return Err(BodyHashMismatch);
    }
    return Ok(Context(a.signerDid, found.value.id, e.requestId));
  }

  // ----- what is accepted -----

  /** The method an envelope names, or the signer's first key. */
  function NamedMethod(a: Attempt): string {
    match a.envelope.proof.verificationMethod
    case Some(id) => id
    case None => a.signerDid + "#key-1"
  }

  /** The signature and the body are accepted exactly when the signer's key verifies the envelope and the envelope names the body. */
  lemma SignatureAcceptedIff(c: Suite, a: Attempt, r: Context)
    ensures SignatureCheck(c, a) == Ok(r) <==>
      && r.signerDid == a.signerDid && r.requestId == a.envelope.requestId && a.envelope.bodyHash == HashJson(c, a.payload)
      && exists m, key :: NamedKey(c, a.doc, NamedMethod(a), m, key) && r.verificationMethod == m.id
                       && c.verify(key, HashJson(c, EnvelopeJson(a.envelope)), a.envelope.proof.proofValue)
  {
    hide NamedKey, HashJson, EnvelopeJson, FindMethod, MethodKey;
    NamedKeyIff(c, a.doc, NamedMethod(a));
  }

  /** A request is accepted exactly when all of this holds. */
  lemma AcceptedIff(c: Suite, policy: Policy, store: Nonces, a: Attempt)
    ensures var e, window := a.envelope, (policy.maxClockSkewSeconds + 1) * UNIT;
      Verdict(c, policy, store, a).Ok? <==>
      && |e.proof.proofValue| > 0 && e.httpMethod == policy.expectedMethod && e.path == policy.expectedPath
      && e.purpose == policy.expectedPurpose && e.aud == policy.expectedAudience
      && a.now - window < e.requestTimestamp < a.now + window
      && (e.requestNonce in store ==> store[e.requestNonce] < a.now - policy.nonceTtlSeconds * UNIT)
      && e.bodyHash == HashJson(c, a.payload)
      && exists m, key :: NamedKey(c, a.doc, NamedMethod(a), m, key) && c.verify(key, HashJson(c, EnvelopeJson(e)), e.proof.proofValue)
  {
    hide NamedKey, SignatureCheck, HashJson, EnvelopeJson, IsFresh;
    var e := a.envelope;
    FreshnessWindow(e.requestTimestamp, a.now, policy.maxClockSkewSeconds);
    if SignatureCheck(c, a).Ok? {
      SignatureAcceptedIff(c, a, SignatureCheck(c, a).value);
    }
    if m, key :| NamedKey(c, a.doc, NamedMethod(a), m, key) && c.verify(key, HashJson(c, EnvelopeJson(e)), e.proof.proofValue) {
      SignatureAcceptedIff(c, a, Context(a.signerDid, m.id, e.requestId));
    }
  }

  /** The faults of a request, in the order in which they are looked for. */
  ghost function EnvelopeFaults(c: Suite, policy: Policy, store: Nonces, a: Attempt): seq<(bool, EnvelopeError)> {
    var e, named, window := a.envelope, NamedMethod(a), (policy.maxClockSkewSeconds + 1) * UNIT;
    [(|e.proof.proofValue| == 0, SignatureMissing),
     (e.httpMethod != policy.expectedMethod, MethodMismatch),
     (e.path != policy.expectedPath, PathMismatch),
     (e.purpose != policy.expectedPurpose, PurposeMismatch),
     (e.aud != policy.expectedAudience, AudienceMismatch),
     (!(a.now - window < e.requestTimestamp < a.now + window), TimestampStale),
     (e.requestNonce in store && store[e.requestNonce] >= a.now - policy.nonceTtlSeconds * UNIT, NonceReplayed),
     (named !in a.doc.assertionMethod || (forall m :: m in a.doc.verificationMethod ==> m.id != named), EnvelopeError.MissingVerificationMethod),
     ((forall m, key :: NamedKey(c, a.doc, NamedMethod(a), m, key) ==> !c.verify(key, HashJson(c, EnvelopeJson(e)), e.proof.proofValue)), SignatureInvalid),
     (e.bodyHash != HashJson(c, a.payload), BodyHashMismatch)]
  }

  /** The last three of them. */
  lemma SignatureErrors(c: Suite, policy: Policy, store: Nonces, a: Attempt)
    ensures var faults := EnvelopeFaults(c, policy, store, a);
      IsFirstFault(faults[7..], if SignatureCheck(c, a).Err? then Some(SignatureCheck(c, a).error) else None)
  {
    hide NamedKey, HashJson, EnvelopeJson, FindMethod, MethodKey, FieldError;
    NamedKeyIff(c, a.doc, NamedMethod(a));
    var found, named := FindMethod(a.doc.verificationMethod, a.doc.assertionMethod, Some(NamedMethod(a))), NamedMethod(a);
    assert forall m :: m in a.doc.verificationMethod ==> (Suits(m, a.doc.assertionMethod, Some(named)) <==> m.id == named && named in a.doc.assertionMethod);
    var last := EnvelopeFaults(c, policy, store, a)[7..];
    var i := if last[0].0 then 0 else if last[1].0 then 1 else 2;
    assert SignatureCheck(c, a).Err? ==> last[i] == (true, SignatureCheck(c, a).error);
  }

  lemma VerdictIsFirst(c: Suite, policy: Policy, store: Nonces, a: Attempt)
    ensures var r := Verdict(c, policy, store, a);
      IsFirstFault(EnvelopeFaults(c, policy, store, a), if r.Err? then Some(r.error) else None)
  {
    hide NamedKey, SignatureCheck, HashJson, EnvelopeJson, IsFresh, NamedMethod;
    var e, r, faults := a.envelope, Verdict(c, policy, store, a), EnvelopeFaults(c, policy, store, a);
    FreshnessWindow(e.requestTimestamp, a.now, policy.maxClockSkewSeconds);
    SignatureErrors(c, policy, store, a);
    assert forall i :: 7 <= i < 10 ==> faults[i] == faults[7..][i - 7];
    var i := if faults[0].0 then 0 else if faults[1].0 then 1 else if faults[2].0 then 2 else if faults[3].0 then 3
      else if faults[4].0 then 4 else if faults[5].0 then 5 else if faults[6].0 then 6 else if faults[7].0 then 7 else if faults[8].0 then 8 else 9;
    assert r.Err? ==> faults[i] == (true, r.error);
  }

  /** What is signed determines every field of an envelope but the proof. */
  lemma EnvelopeTextInjective(c: Suite, a: Envelope, b: Envelope)
    requires Ideal(c)
    ensures HashJson(c, EnvelopeJson(a)) == HashJson(c, EnvelopeJson(b)) <==> a.(proof := b.proof) == b
  {
    hide Ideal, HashJson, EnvelopeJson;
    HashJsonInjective(c, EnvelopeJson(a), EnvelopeJson(b));
    EnvelopeFields(a);
    EnvelopeFields(b);
    assert a.(proof := b.proof) == b ==> EnvelopeJson(a) == EnvelopeJson(b) by {
      SameButProof(a, b);
    }
  }

  lemma SameButProof(a: Envelope, b: Envelope)
    ensures a.(proof := b.proof) == b ==> EnvelopeJson(a) == EnvelopeJson(b)
  {
  }

  lemma EnvelopeFields(e: Envelope)
    ensures var x := EnvelopeJson(e);
      && Get(x, "requestId") == Str(e.requestId) && Get(x, "protocolVersion") == Str(e.protocolVersion) && Get(x, "purpose") == Str(e.purpose)
      && Get(x, "method") == Str(e.httpMethod) && Get(x, "path") == Str(e.path) && Get(x, "aud") == Str(e.aud)
      && Get(x, "requestTimestamp") == Number(e.requestTimestamp) && Get(x, "requestNonce") == Str(e.requestNonce)
      && Get(x, "bodyHash") == Str(e.bodyHash)
  {
  }

  // ----- creation -----

  ghost function Created(c: Suite, signingKey: string, requestId: string, protocolVersion: string, policy: Policy,
                         payload: Value, verificationMethod: string, timestamp: int, nonce: string): Envelope
  {
    var unsigned := Envelope(requestId, protocolVersion, policy.expectedPurpose, policy.expectedMethod, policy.expectedPath,
                             policy.expectedAudience, timestamp, nonce, HashJson(c, payload), Proof("", None));
    unsigned.(proof := Proof(c.sign(signingKey, HashJson(c, EnvelopeJson(unsigned))), Some(verificationMethod)))
  }

  /**
   A created envelope is accepted by every verifier that expects its fields, reads the signer's key
   under the named method, is within the freshness window and has not kept the nonce.
   */
  lemma CreatedIsAccepted(c: Suite, signingKey: string, requestId: string, protocolVersion: string, policy: Policy,
                          payload: Value, verificationMethod: string, timestamp: int, nonce: string,
                          store: Nonces, signerDid: string, doc: DidDocument, now: int)
    requires Ideal(c)
    requires var found := FindMethod(doc.verificationMethod, doc.assertionMethod, Some(verificationMethod));
      found.Some? && MethodKey(c, found.value) == Some(c.publicKey(signingKey))
    ensures var e := Created(c, signingKey, requestId, protocolVersion, policy, payload, verificationMethod, timestamp, nonce);
      Verdict(c, policy, store, Attempt(e, payload, signerDid, doc, now))
      == if !IsFresh(timestamp, now, policy.maxClockSkewSeconds) then Err(TimestampStale)
         else if Replayed(store, nonce, now, policy.nonceTtlSeconds) then Err(NonceReplayed)
         else Ok(Context(signerDid, verificationMethod, requestId))
  {
    hide Ideal, HashJson;
    var e := Created(c, signingKey, requestId, protocolVersion, policy, payload, verificationMethod, timestamp, nonce);
    assert EnvelopeJson(e) == EnvelopeJson(e.(proof := Proof("", None)));
    SignatureVerifies(c, signingKey, HashJson(c, EnvelopeJson(e)));
  }

  // ----- runs -----

  ghost predicate EnvelopeRun(policy: Policy, run: seq<Attempt>, stores: seq<Nonces>) {
    && |stores| == |run| + 1
    && stores[0] == map[]
    && (forall i, j :: 0 <= i < j < |run| ==> run[i].now <= run[j].now)
    && forall i :: 0 <= i < |run| ==> EnvelopeStep(policy, stores[i], run[i], stores[i + 1])
  }

  /** What one call does to the store, as `VerifySignedRequestEnvelope` ensures. */
  ghost predicate EnvelopeStep(policy: Policy, before: Nonces, a: Attempt, after: Nonces) {
    if StoresNonce(policy, before, a)
    then IsStored(before, a.envelope.requestNonce, a.envelope.requestTimestamp, a.now, policy.nonceTtlSeconds, after)
    else after == before
  }

  ghost function Checks(policy: Policy, run: seq<Attempt>, stores: seq<Nonces>): (checks: seq<Check>)
    requires |stores| == |run| + 1
    ensures |checks| == |run|
  {
    seq(|run|, i requires 0 <= i < |run| =>
          Check(run[i].envelope.requestNonce, run[i].envelope.requestTimestamp, run[i].now, StoresNonce(policy, stores[i], run[i])))
  }

  lemma OneStoreMore(policy: Policy, run: seq<Attempt>, stores: seq<Nonces>)
    requires EnvelopeRun(policy, run, stores)
    ensures |stores| == |run| + 1
  {
    hide EnvelopeStep;
  }

  lemma ChecksRun(policy: Policy, run: seq<Attempt>, stores: seq<Nonces>)
    requires EnvelopeRun(policy, run, stores)
    ensures IsRun(policy.nonceTtlSeconds, Checks(policy, run, stores), stores)
  {
    hide IsStored;
    var checks := Checks(policy, run, stores);
    forall i | 0 <= i < |checks|
      ensures Transition(policy.nonceTtlSeconds, stores[i], checks[i], stores[i + 1])
    {
      assert EnvelopeStep(policy, stores[i], run[i], stores[i + 1]);
    }
  }

  /** The nonces of requests, other than `nonce`, stored before call `n` with times from `lo` to before `hi`. */
  ghost function StoredWithin(policy: Policy, run: seq<Attempt>, stores: seq<Nonces>, n: nat, nonce: string, lo: int, hi: int): set<string>
    requires |stores| == |run| + 1 && n <= |run|
  {
    set k | 0 <= k < n && StoresNonce(policy, stores[k], run[k]) && run[k].envelope.requestNonce != nonce
            && lo <= run[k].envelope.requestTimestamp < hi :: run[k].envelope.requestNonce
  }

  lemma OthersAreWithin(policy: Policy, run: seq<Attempt>, stores: seq<Nonces>, n: nat, nonce: string, lo: int, hi: int)
    requires |stores| == |run| + 1 && n <= |run|
    requires forall k :: 0 <= k < n && StoresNonce(policy, stores[k], run[k]) ==> run[k].envelope.requestTimestamp < hi
    ensures |Others(Checks(policy, run, stores), n, nonce, lo)| <= |StoredWithin(policy, run, stores, n, nonce, lo, hi)|
  {
    hide StoresNonce;
    SubsetSize(Others(Checks(policy, run, stores), n, nonce, lo), StoredWithin(policy, run, stores, n, nonce, lo, hi));
  }

  lemma StoredTimesBelow(policy: Policy, run: seq<Attempt>, stores: seq<Nonces>, j: nat, hi: int)
    requires EnvelopeRun(policy, run, stores) && j < |run|
    requires run[j].now + (policy.maxClockSkewSeconds + 1) * UNIT <= hi
    ensures forall k :: 0 <= k < j && StoresNonce(policy, stores[k], run[k]) ==> run[k].envelope.requestTimestamp < hi
  {
    hide FieldError, Replayed, EnvelopeStep, IsFresh;
    forall k | 0 <= k < j && StoresNonce(policy, stores[k], run[k]) ensures run[k].envelope.requestTimestamp < hi {
      FreshnessWindow(run[k].envelope.requestTimestamp, run[k].now, policy.maxClockSkewSeconds);
    }
  }

  /** A fresh time has not aged out, and lies less than a window before the call. */
  lemma FreshIsYoung(timestamp: int, now: int, skew: int, ttl: int)
    requires IsFresh(timestamp, now, skew) && skew + 1 <= ttl
    ensures timestamp >= Cutoff(now, ttl) && now + (skew + 1) * UNIT <= timestamp + 2 * ((skew + 1) * UNIT)
  {
    FreshnessWindow(timestamp, now, skew);
  }

  lemma AcceptedStoresNonce(c: Suite, policy: Policy, store: Nonces, a: Attempt)
    requires Accepts(c, policy, store, a)
    ensures StoresNonce(policy, store, a) && IsFresh(a.envelope.requestTimestamp, a.now, policy.maxClockSkewSeconds)
  {
    hide SignatureCheck, Replayed, FieldError, IsFresh;
  }

  lemma AcceptedTwice(policy: Policy, run: seq<Attempt>, stores: seq<Nonces>, i: nat, j: nat)
    requires EnvelopeRun(policy, run, stores) && i < j < |run| && run[i].envelope == run[j].envelope
    requires StoresNonce(policy, stores[i], run[i]) && StoresNonce(policy, stores[j], run[j])
    ensures var e := run[i].envelope;
      e.requestTimestamp < Cutoff(run[j].now, policy.nonceTtlSeconds)
      || |Others(Checks(policy, run, stores), j, e.requestNonce, e.requestTimestamp)| >= DEFAULT_MAX_NONCE_ENTRIES
  {
    hide StoresNonce, EnvelopeStep, Others, Cutoff, IsRun;
    ChecksRun(policy, run, stores);
    ReplayNeedsAgeOrOverflow(policy.nonceTtlSeconds, Checks(policy, run, stores), stores, i, j);
  }

  /**
   When nonces live longer than requests stay fresh, an envelope accepted twice means that a full
   store of other requests carried times within twice the freshness window.
   */
  lemma ReplayNeedsFlood(c: Suite, policy: Policy, run: seq<Attempt>, stores: seq<Nonces>, i: nat, j: nat)
    requires EnvelopeRun(policy, run, stores)
    requires policy.maxClockSkewSeconds + 1 <= policy.nonceTtlSeconds
    requires i < j < |run| && run[i].envelope == run[j].envelope
    requires Accepts(c, policy, stores[i], run[i]) && Accepts(c, policy, stores[j], run[j])
    ensures var e, window := run[i].envelope, (policy.maxClockSkewSeconds + 1) * UNIT;
      |StoredWithin(policy, run, stores, j, e.requestNonce, e.requestTimestamp, e.requestTimestamp + 2 * window)|
        >= DEFAULT_MAX_NONCE_ENTRIES
  {
    hide Accepts, Verdict, StoresNonce, IsFresh, EnvelopeRun, EnvelopeStep, Others, StoredWithin, Checks, Cutoff;
    OneStoreMore(policy, run, stores);
    var e, skew := run[i].envelope, policy.maxClockSkewSeconds;
    AcceptedStoresNonce(c, policy, stores[i], run[i]);
    AcceptedStoresNonce(c, policy, stores[j], run[j]);
    AcceptedTwice(policy, run, stores, i, j);
    FreshIsYoung(e.requestTimestamp, run[j].now, skew, policy.nonceTtlSeconds);
    var hi := e.requestTimestamp + 2 * ((skew + 1) * UNIT);
    StoredTimesBelow(policy, run, stores, j, hi);
    OthersAreWithin(policy, run, stores, j, e.requestNonce, e.requestTimestamp, hi);
  }

  /** No run shorter than the store's capacity accepts one envelope twice. */
  ghost predicate ReplaySafe(c: Suite, policy: Policy) {
    forall run: seq<Attempt>, stores: seq<Nonces>, i: nat, j: nat ::
      EnvelopeRun(policy, run, stores) && |run| <= DEFAULT_MAX_NONCE_ENTRIES && i < j < |run| && run[i].envelope == run[j].envelope
      ==> !(Accepts(c, policy, stores[i], run[i]) && Accepts(c, policy, stores[j], run[j]))
  }

  lemma {:induction false} FewCalls(policy: Policy, run: seq<Attempt>, stores: seq<Nonces>, n: nat, nonce: string, lo: int, hi: int)
    requires |stores| == |run| + 1 && n <= |run|
    ensures |StoredWithin(policy, run, stores, n, nonce, lo, hi)| <= n
  {
    if n > 0 {
      var before := StoredWithin(policy, run, stores, n - 1, nonce, lo, hi);
      FewCalls(policy, run, stores, n - 1, nonce, lo, hi);
      SubsetSize(StoredWithin(policy, run, stores, n, nonce, lo, hi), before + {run[n - 1].envelope.requestNonce});
    }
  }

  /** A second call late enough for the nonce to have aged out, yet within the freshness window. */
  lemma ReplayWhenTtlIsShort(c: Suite, policy: Policy, a: Attempt)
    requires 0 <= policy.maxClockSkewSeconds && policy.nonceTtlSeconds <= policy.maxClockSkewSeconds
    requires FieldError(a.envelope, policy).None? && SignatureCheck(c, a).Ok?
    ensures !ReplaySafe(c, policy)
  {
    hide SignatureCheck, FieldError;
    var e, ttl := a.envelope, policy.nonceTtlSeconds;
    var later := if ttl < 0 then e.requestTimestamp else e.requestTimestamp + ttl * UNIT + 1;
    var run := [a.(now := e.requestTimestamp), a.(now := later)];
    FreshnessWindow(e.requestTimestamp, e.requestTimestamp, policy.maxClockSkewSeconds);
    FreshnessWindow(e.requestTimestamp, later, policy.maxClockSkewSeconds);
    SameCheck(c, a, run[0]);
    SameCheck(c, a, run[1]);
    var store1: Nonces := if ttl < 0 then map[] else map[e.requestNonce := e.requestTimestamp];
    assert EnvelopeStep(policy, map[], run[0], store1) by {
      StoredInEmpty(map[], e.requestNonce, e.requestTimestamp, e.requestTimestamp, ttl, store1);
    }
    var store2: Nonces := map[];
    assert EnvelopeStep(policy, store1, run[1], store2) by {
      StoredInEmpty(store1, e.requestNonce, e.requestTimestamp, later, ttl, store2);
    }
    var stores := [map[], store1, store2];
    assert EnvelopeRun(policy, run, stores);
    assert Accepts(c, policy, stores[0], run[0]) && Accepts(c, policy, stores[1], run[1]);
  }

  lemma SameCheck(c: Suite, a: Attempt, b: Attempt)
    requires b == a.(now := b.now)
    ensures SignatureCheck(c, a) == SignatureCheck(c, b)
  {
  }

  lemma StoredInEmpty(store: Nonces, nonce: string, seenAt: int, now: int, ttl: int, after: Nonces)
    requires store.Keys <= {nonce}
    requires after == if seenAt < Cutoff(now, ttl) then map[] else map[nonce := seenAt]
    ensures IsStored(store, nonce, seenAt, now, ttl, after)
  {
    var cutoff := Cutoff(now, ttl);
    var full := Retained(store, cutoff)[nonce := seenAt];
    assert full.Keys == {nonce};
    assert Retained(full, cutoff) == after;
    assert |after| <= 1;
  }

  /** Exactly when the configured times keep replays out of short runs, for a policy some request can meet. */
  lemma ReplaySafeIff(c: Suite, policy: Policy, a: Attempt)
    requires FieldError(a.envelope, policy).None? && SignatureCheck(c, a).Ok?
    ensures ReplaySafe(c, policy) <==> policy.maxClockSkewSeconds < 0 || policy.maxClockSkewSeconds < policy.nonceTtlSeconds
  {
    hide SignatureCheck, EnvelopeStep;
    if policy.maxClockSkewSeconds < 0 || policy.maxClockSkewSeconds < policy.nonceTtlSeconds {
      forall run: seq<Attempt>, stores: seq<Nonces>, i: nat, j: nat |
        EnvelopeRun(policy, run, stores) && |run| <= DEFAULT_MAX_NONCE_ENTRIES && i < j < |run| && run[i].envelope == run[j].envelope
        ensures !(Accepts(c, policy, stores[i], run[i]) && Accepts(c, policy, stores[j], run[j]))
      {
        if Accepts(c, policy, stores[i], run[i]) && Accepts(c, policy, stores[j], run[j]) {
          NoShortReplay(c, policy, run, stores, i, j);
        }
      }
    } else {
      ReplayWhenTtlIsShort(c, policy, a);
    }
  }

  lemma NoShortReplay(c: Suite, policy: Policy, run: seq<Attempt>, stores: seq<Nonces>, i: nat, j: nat)
    requires EnvelopeRun(policy, run, stores) && |run| <= DEFAULT_MAX_NONCE_ENTRIES
    requires i < j < |run| && run[i].envelope == run[j].envelope
    requires Accepts(c, policy, stores[i], run[i]) && Accepts(c, policy, stores[j], run[j])
    ensures 0 <= policy.maxClockSkewSeconds && policy.nonceTtlSeconds <= policy.maxClockSkewSeconds
  {
    hide SignatureCheck, EnvelopeStep;
    var e := run[i].envelope;
    FreshnessWindow(e.requestTimestamp, run[i].now, policy.maxClockSkewSeconds);
    if policy.maxClockSkewSeconds < policy.nonceTtlSeconds {
      ReplayNeedsFlood(c, policy, run, stores, i, j);
      FewCalls(policy, run, stores, j, e.requestNonce, e.requestTimestamp, e.requestTimestamp + 2 * ((policy.maxClockSkewSeconds + 1) * UNIT));
    }
  }

  /** A request whose signature or body is wrong spends its nonce all the same: one that passes to the nonce check is a replay. */
  lemma RefusedSignatureSpendsNonce(c: Suite, policy: Policy, store: Nonces, a: Attempt, after: Nonces, again: Attempt)
    requires StoresNonce(policy, store, a) && SignatureCheck(c, a).Err?
    requires EnvelopeStep(policy, store, a, after)
    requires |store| < DEFAULT_MAX_NONCE_ENTRIES
    requires again.envelope.requestNonce == a.envelope.requestNonce
    requires a.now <= again.now <= a.envelope.requestTimestamp + policy.nonceTtlSeconds * UNIT
    ensures Verdict(c, policy, store, a) == Err(SignatureCheck(c, a).error)
    ensures Verdict(c, policy, after, again)
         == if FieldError(again.envelope, policy).Some? then Err(FieldError(again.envelope, policy).value)
            else if !IsFresh(again.envelope.requestTimestamp, again.now, policy.maxClockSkewSeconds) then Err(TimestampStale)
            else Err(NonceReplayed)
  {
    hide SignatureCheck;
    var cutoff := Cutoff(a.now, policy.nonceTtlSeconds);
    var kept := Retained(store, cutoff);
    SubsetSize(kept.Keys, store.Keys);
    var full := Retained(kept[a.envelope.requestNonce := a.envelope.requestTimestamp], cutoff);
    SubsetSize(full.Keys, kept.Keys + {a.envelope.requestNonce});
    assert |full.Keys| == |full| && |store.Keys| == |store| && |after.Keys| == |after|;
    if a.envelope.requestNonce !in after {
      ProperSubsetSize(after.Keys, full.Keys, a.envelope.requestNonce);
    }
  }
}
