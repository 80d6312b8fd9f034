/**
 The Registrar's draft workflow over its three records: the draft core, the subject control and the
 credential. Handlers are atomic, except that a submission reads its draft before it calls Root and
 writes the draft back after the answer.
 */
module RegistrarDraft {
  import opened CanonicalJson
  import opened Crypto
  import opened Documents
  import opened Wrappers
  import NonceStore
  import SignedEnvelope

  datatype ReviewStatus = InDraft | Validated
  datatype ControlStatus = NotStarted | Challenged | Verified
  datatype WorkflowStatus = Drafted | ControlVerified | CredentialIssued | Submitted | SubmitFailed

  datatype Challenge = Challenge(
    challengeId: string,
    draftId: string,
    subjectDid: string,
    documentHash: string,
    registrarDid: string,
    purpose: string,
    verificationMethod: string,
    nonce: string,
    issuedAt: int,
    expiresAt: int)

  datatype IntegrityProof = IntegrityProof(creator: string, proofValue: string, verificationMethod: Option<string>)

  datatype Bundle = Bundle(
    challenge: Challenge,
    proof: IntegrityProof,
    verifiedAt: Option<int>,
    verifiedMethod: Option<string>,
    proofHash: Option<string>)

  datatype Core = Core(
    agentDid: string,
    document: Option<DidDocument>,
    documentHash: Option<string>,
    metadata: Value,
    reviewStatus: ReviewStatus,
    status: WorkflowStatus)

  datatype Control = Control(status: ControlStatus, challenge: Option<Challenge>, proof: Option<Bundle>)

  datatype Draft = Draft(core: Core, control: Control, credential: Option<Value>)

  /** The registrar's identity and its control policy; all hashing is by one suite. */
  datatype Config = Config(c: Suite, did: string, signingKey: string, purpose: string, challengeTtl: int)

  datatype DraftError =
    | DraftNotFound
    | MissingDidDocument
    | MissingAssertionMethod
    | ChallengeMissing
    | SubjectMismatch
    | DocumentHashMismatch
    | RegistrarMismatch
    | PurposeMismatch
    | ChallengeExpired
    | MissingVerificationMethod
    | ProofInvalid
    | VerificationMethodMismatch
    | NotValidated
    | ControlNotVerified
    | InvalidDocumentHash
    | ProofMissing
    | MissingCredential

  // ----- hashes and texts -----

  ghost function HashDocument(cfg: Config, doc: DidDocument): string {
    HashJson(cfg.c, DocumentJson(doc))
  }

  function ChallengeJson(ch: Challenge): Value {
    Object(map[
      "challengeId" := Str(ch.challengeId), "draftId" := Str(ch.draftId), "subjectDid" := Str(ch.subjectDid),
      "didDocumentHash" := Str(ch.documentHash), "registrarDid" := Str(ch.registrarDid), "purpose" := Str(ch.purpose),
      "verificationMethod" := Str(ch.verificationMethod), "nonce" := Str(ch.nonce),
      "issuedAt" := Number(ch.issuedAt), "expiresAt" := Number(ch.expiresAt)])
  }

  function ProofJson(p: IntegrityProof): Value {
    var fields := map["creator" := Str(p.creator), "proofValue" := Str(p.proofValue)];
    Object(if p.verificationMethod.Some? then fields["verificationMethod" := Str(p.verificationMethod.value)] else fields)
  }

  // ----- control challenges -----

  function NewChallenge(cfg: Config, draftId: string, subjectDid: string, documentHash: string, methodId: string,
                        nonce: string, now: int): Challenge
  {
    Challenge("challenge-" + draftId + "-" + Integer(now), draftId, subjectDid, documentHash, cfg.did, cfg.purpose,
              methodId, nonce, now, now + cfg.challengeTtl)
  }

  /** The signature of a challenge, under the method the challenge names in the document. */
  ghost function SignatureError(c: Suite, bundle: Bundle, doc: DidDocument): Option<DraftError> {
    match FindMethod(doc.verificationMethod, doc.assertionMethod, Some(bundle.challenge.verificationMethod))
    case None => Some(DraftError.MissingVerificationMethod)
    case Some(m) =>
      if MethodKey(c, m).None? || !c.verify(MethodKey(c, m).value, HashJson(c, ChallengeJson(bundle.challenge)), bundle.proof.proofValue) then
        Some(ProofInvalid)
      else if bundle.proof.verificationMethod.Some? && bundle.proof.verificationMethod.value != bundle.challenge.verificationMethod then
        Some(VerificationMethodMismatch)
      else None
  }

  /** `verify_subject_control_proof` */
  ghost function ControlProofError(cfg: Config, bundle: Bundle, doc: DidDocument, subjectDid: string, documentHash: string, now: int)
    : Option<DraftError>
  {
    var ch := bundle.challenge;
    if ch.subjectDid != subjectDid then Some(SubjectMismatch)
    else if ch.documentHash != documentHash then Some(DocumentHashMismatch)
    else if ch.registrarDid != cfg.did then Some(RegistrarMismatch)
    else if ch.purpose != cfg.purpose then Some(PurposeMismatch)
    else if now > ch.expiresAt then Some(ChallengeExpired)
    else SignatureError(cfg.c, bundle, doc)
  }

  // ----- registration binding -----

  const REGISTRATION_FLOW := "draft-confirm-submit"

  function BindingClaims(documentHash: string, ch: Challenge, proofHash: string, verifiedAt: int): Value {
    Object(map[
      "didDocumentHash" := Str(documentHash),
      "registrationBinding" := Object(map[
        "flow" := Str(REGISTRATION_FLOW), "draftId" := Str(ch.draftId), "challengeId" := Str(ch.challengeId),
        "subjectDid" := Str(ch.subjectDid), "registrarDid" := Str(ch.registrarDid), "purpose" := Str(ch.purpose),
        "verificationMethod" := Str(ch.verificationMethod), "proofHash" := Str(proofHash), "verifiedAt" := Number(verifiedAt)])])
  }

  /** `verify_registration_binding_claims`, which has one error for every fault. */
  predicate BindingAccepted(claims: Value, subjectDid: string, documentHash: string, registrarDid: string, purpose: string, bundle: Bundle) {
    && Get(claims, "didDocumentHash") == Str(documentHash)
    && Has(claims, "registrationBinding")
    && var binding := Get(claims, "registrationBinding");
    && Get(binding, "subjectDid") == Str(subjectDid)
    && Get(binding, "challengeId") == Str(bundle.challenge.challengeId)
    && Get(binding, "draftId") == Str(bundle.challenge.draftId)
    && Get(binding, "verificationMethod") == Str(bundle.challenge.verificationMethod)
    && Get(binding, "registrarDid") == Str(registrarDid)
    && Get(binding, "purpose") == Str(purpose)
    && Has(binding, "verifiedAt")
    && (bundle.proofHash.Some? ==> Get(binding, "proofHash") == Str(bundle.proofHash.value))
  }

  /** An issued registration credential. */
  datatype Credential = Credential(issuer: string, subject: string, status: string, issuedAt: int, claims: Value)

  function CredentialJson(vc: Credential, proof: Option<IntegrityProof>): Value {
    var fields := map[
      "type" := Str("AgentRegistrationCredential"), "issuer" := Str(vc.issuer), "subject" := Str(vc.subject),
      "status" := Str(vc.status), "issuedAt" := Number(vc.issuedAt), "claims" := vc.claims];
    Object(if proof.Some? then fields["proof" := ProofJson(proof.value)] else fields)
  }

  function IssuedCredential(cfg: Config, core: Core, documentHash: string, bundle: Bundle, proofHash: string, verifiedAt: int, now: int): Credential {
    var tags := match core.document
      case Some(doc) => CapabilityTags(doc)
      case None => [];
    Credential(cfg.did, core.agentDid, "active", now, Object(map[
      "didDocumentHash" := Str(documentHash),
      "capabilityTags" := Strings(tags),
      "assistedBy" := Str("registrar-capability-tree"),
      "registrationFlow" := Str("draft-confirm-submit"),
      "registrationBinding" := Get(BindingClaims(documentHash, bundle.challenge, proofHash, verifiedAt), "registrationBinding")]))
  }

  ghost function Signed(cfg: Config, vc: Credential): Value {
    var value := cfg.c.sign(cfg.signingKey, HashJson(cfg.c, CredentialJson(vc, None)));
    CredentialJson(vc, Some(IntegrityProof(cfg.did + "#key-1", value, None)))
  }

  // ----- the records -----

  datatype Records = Records(
    cores: map<string, Core>,
    controls: map<string, Control>,
    credentials: map<string, Value>,
    pending: map<nat, (string, Draft)>)

  function ReadDraft(s: Records, id: string): Option<Draft> {
    if id !in s.cores then None
    else Some(Draft(
      s.cores[id],
      if id in s.controls then s.controls[id] else Control(NotStarted, None, None),
      if id in s.credentials then Some(s.credentials[id]) else None))
  }

  function WriteDraft(s: Records, id: string, d: Draft): Records {
    s.(cores := s.cores[id := d.core], controls := s.controls[id := d.control],
       credentials := if d.credential.Some? then s.credentials[id := d.credential.value] else s.credentials)
  }

  predicate IsValid(core: Core) {
    core.document.Some? && core.document.value.id == core.agentDid && ValidateMvp(core.document.value).None?
  }

  lemma ValidIff(core: Core)
    ensures IsValid(core) <==> core.document.Some? && var doc := core.document.value;
      && doc.id == core.agentDid && |doc.id| > 0 && DID_CORE_CONTEXT in doc.context
      && |doc.verificationMethod| > 0 && |doc.authentication| > 0 && |doc.assertionMethod| > 0
  {
  }

  /** The stored hash, or one computed on the spot. */
  ghost function EffectiveHash(cfg: Config, core: Core): string
    requires core.document.Some?
  {
    core.documentHash.UnwrapOr(HashDocument(cfg, core.document.value))
  }

  datatype Submission = Submission(agentDid: string, document: DidDocument, documentHash: string, metadata: Value, credential: Value, bundle: Bundle)

  /** The submission inside `build_verify_and_publish_request`. */
  ghost function BuildSubmission(cfg: Config, d: Draft): Result<Submission, DraftError> {
    if d.core.document.None? then Err(MissingDidDocument)
    else if d.credential.None? then Err(MissingCredential)
    else if d.control.proof.None? then Err(ProofMissing)
    else Ok(Submission(d.core.agentDid, d.core.document.value, EffectiveHash(cfg, d.core), d.core.metadata, d.credential.value, d.control.proof.value))
  }

  // ----- the request sent to Root -----

  const PURPOSE_VERIFY_AND_PUBLISH := "verify-and-publish"
  const PATH_ROOT_VERIFY_AND_PUBLISH := "/root/agents/verify-and-publish"

  /** What the handler reads from its configuration, its clock and its nonce source for one request. */
  datatype Upstream = Upstream(requestId: string, protocolLabel: string, rootDid: string, nonce: string, now: int)

  datatype PublishRequest = PublishRequest(registrarDid: string, submission: Submission, upstreamAuth: SignedEnvelope.Envelope)

  function BundleJson(b: Bundle): Value {
    var fields := map["challenge" := ChallengeJson(b.challenge), "proof" := ProofJson(b.proof)];
    Object(With(With(With(fields,
      "verifiedAt", if b.verifiedAt.Some? then Some(Number(b.verifiedAt.value)) else None),
      "verifiedVerificationMethod", Text(b.verifiedMethod)), "proofHash", Text(b.proofHash)))
  }

  function SubmissionJson(sub: Submission): Value {
    Object(map[
      "agentDid" := Str(sub.agentDid), "didDocument" := DocumentJson(sub.document), "didDocumentHash" := Str(sub.documentHash),
      "metadata" := sub.metadata, "registrationCredential" := sub.credential, "subjectControlProof" := BundleJson(sub.bundle)])
  }

  /** What Root expects of the envelope. */
  function UpstreamPolicy(rootDid: string, maxClockSkewSeconds: int, nonceTtlSeconds: int): SignedEnvelope.Policy {
    SignedEnvelope.Policy(PURPOSE_VERIFY_AND_PUBLISH, "POST", PATH_ROOT_VERIFY_AND_PUBLISH, rootDid, maxClockSkewSeconds, nonceTtlSeconds)
  }

  ghost function BuildRequest(cfg: Config, sub: Submission, up: Upstream): PublishRequest {
    PublishRequest(cfg.did, sub,
      SignedEnvelope.Created(cfg.c, cfg.signingKey, up.requestId, up.protocolLabel, UpstreamPolicy(up.rootDid, 0, 0),
                             SubmissionJson(sub), cfg.did + "#key-1", up.now, up.nonce))
  }

  /** Root's verdict on a request whose registrar has the given document. */
  ghost function RequestVerdict(cfg: Config, policy: SignedEnvelope.Policy, store: NonceStore.Nonces, req: PublishRequest,
                                registrarDocument: DidDocument, now: int): Result<SignedEnvelope.Context, SignedEnvelope.EnvelopeError>
  {
    SignedEnvelope.Verdict(cfg.c, policy, store,
      SignedEnvelope.Attempt(req.upstreamAuth, SubmissionJson(req.submission), req.registrarDid, registrarDocument, now))
  }

  predicate HoldsKey(cfg: Config, registrarDocument: DidDocument) {
    var found := FindMethod(registrarDocument.verificationMethod, registrarDocument.assertionMethod, Some(cfg.did + "#key-1"));
    found.Some? && MethodKey(cfg.c, found.value) == Some(cfg.c.publicKey(cfg.signingKey))
  }

  /** The request a Registrar builds passes Root's envelope check under its own document unless it is stale or a replay. */
  lemma RequestIsTrusted(cfg: Config, sub: Submission, up: Upstream, skew: int, ttl: int, store: NonceStore.Nonces,
                         registrarDocument: DidDocument, now: int)
    requires Ideal(cfg.c) && HoldsKey(cfg, registrarDocument)
    ensures RequestVerdict(cfg, UpstreamPolicy(up.rootDid, skew, ttl), store, BuildRequest(cfg, sub, up), registrarDocument, now)
         == if !SignedEnvelope.IsFresh(up.now, now, skew) then Err(SignedEnvelope.TimestampStale)
            else if NonceStore.Replayed(store, up.nonce, now, ttl) then Err(SignedEnvelope.NonceReplayed)
            else Ok(SignedEnvelope.Context(cfg.did, cfg.did + "#key-1", up.requestId))
  {
    hide Ideal, HashJson, SubmissionJson;
    SignedEnvelope.CreatedIsAccepted(cfg.c, cfg.signingKey, up.requestId, up.protocolLabel, UpstreamPolicy(up.rootDid, skew, ttl),
      SubmissionJson(sub), cfg.did + "#key-1", up.now, up.nonce, store, cfg.did, registrarDocument, now);
  }

  /** With any other submission in its place, it never passes. */
  lemma OtherSubmissionIsRefused(cfg: Config, sub: Submission, other: Submission, up: Upstream, skew: int, ttl: int,
                                 store: NonceStore.Nonces, registrarDocument: DidDocument, now: int)
    requires Ideal(cfg.c) && SubmissionJson(other) != SubmissionJson(sub)
    ensures RequestVerdict(cfg, UpstreamPolicy(up.rootDid, skew, ttl), store, BuildRequest(cfg, sub, up).(submission := other),
                           registrarDocument, now).Err?
  {
    hide Ideal, HashJson, SubmissionJson, SignedEnvelope.EnvelopeJson;
    HashJsonInjective(cfg.c, SubmissionJson(other), SubmissionJson(sub));
  }

  // ----- the handlers -----

  datatype Op =
    | Create(id: string, agentDid: Option<string>, fallbackDid: string, document: Option<DidDocument>, metadata: Option<Value>, credential: Option<Value>)
    | Update(id: string, agentDid: Option<string>, document: Option<DidDocument>, metadata: Option<Value>, credential: Option<Value>)
    | Validate(id: string)
    | MakeChallenge(id: string, nonce: string, now: int)
    | Prove(id: string, proof: IntegrityProof, now: int)
    | Issue(id: string, now: int)
    | BeginSubmit(id: string, request: nat)
    | EndSubmit(request: nat, accepted: bool)

  function OrElse<T>(a: Option<T>, b: Option<T>): Option<T> {
    if a.Some? then a else b
  }

  function CreatedCore(op: Op): Core
    requires op.Create?
  {
    var documentId := if op.document.Some? then Some(op.document.value.id) else None;
    Core(OrElse(op.agentDid, documentId).UnwrapOr(op.fallbackDid), op.document, None,
         op.metadata.UnwrapOr(Object(map[])), InDraft, Drafted)
  }

  ghost function UpdatedDraft(cfg: Config, d: Draft, op: Op): Draft
    requires op.Update?
  {
    var d1 := if op.agentDid.Some? then d.(core := d.core.(agentDid := op.agentDid.value)) else d;
    var d2 := if op.document.Some? then
        Draft(d1.core.(agentDid := op.document.value.id, document := op.document, documentHash := Some(HashDocument(cfg, op.document.value))),
              Control(NotStarted, None, None), d1.credential)
      else d1;
    var d3 := if op.credential.Some? then d2.(credential := op.credential) else d2;
    if op.metadata.Some? then d3.(core := d3.core.(metadata := op.metadata.value)) else d3
  }

  function NewDraft(op: Op): Draft
    requires op.Update?
  {
    Draft(Core(op.agentDid.UnwrapOr("unknown"), None, None, Object(map[]), InDraft, Drafted), Control(NotStarted, None, None), None)
  }

  /** The records after one operation, and its error. A failed operation changes nothing. */
  ghost function Apply(cfg: Config, s: Records, op: Op): (Records, Option<DraftError>) {
    match op
    case Create(id, _, _, _, _, credential) =>
      (s.(cores := s.cores[id := CreatedCore(op)], controls := s.controls[id := Control(NotStarted, None, None)],
          credentials := if credential.Some? then s.credentials[id := credential.value] else s.credentials), None)
    case Update(id, _, _, _, credential) =>
      var d := UpdatedDraft(cfg, ReadDraft(s, id).UnwrapOr(NewDraft(op)), op);
      (s.(cores := s.cores[id := d.core], controls := s.controls[id := d.control],
          credentials := if credential.Some? then s.credentials[id := credential.value] else s.credentials), None)
    case Validate(id) =>
      if id !in s.cores then (s, Some(DraftNotFound))
      else (s.(cores := s.cores[id := s.cores[id].(reviewStatus := if IsValid(s.cores[id]) then Validated else InDraft)]), None)
    case MakeChallenge(id, nonce, now) =>
      if id !in s.cores then (s, Some(DraftNotFound))
      else if s.cores[id].document.None? then (s, Some(MissingDidDocument))
      else
        var core := s.cores[id];
        if core.document.value.assertionMethod == [] then (s, Some(DraftError.MissingAssertionMethod))
        else
          var hash := EffectiveHash(cfg, core);
          var ch := NewChallenge(cfg, id, core.agentDid, hash, core.document.value.assertionMethod[0], nonce, now);
          (s.(cores := s.cores[id := core.(documentHash := Some(hash))],
              controls := s.controls[id := Control(Challenged, Some(ch), None)]), None)
    case Prove(id, proof, now) => Proved(cfg, s, id, proof, now)
    case Issue(id, now) =>
      var r := TryIssue(cfg, s, id, now);
      if r.Err? then (s, Some(r.error))
      else (s.(cores := s.cores[id := s.cores[id].(status := CredentialIssued)],
               credentials := s.credentials[id := Signed(cfg, r.value)]), None)
    case BeginSubmit(id, request) =>
      if id !in s.cores then (s, Some(DraftNotFound))
      else
        var d := ReadDraft(s, id).value;
        if BuildSubmission(cfg, d).Err? then (s, Some(BuildSubmission(cfg, d).error))
        else (s.(pending := s.pending[request := (id, d)]), None)
    case EndSubmit(request, accepted) =>
      if request !in s.pending then (s, None)
      else
        var (id, d) := s.pending[request];
        (WriteDraft(s, id, d.(core := d.core.(status := if accepted then Submitted else SubmitFailed)))
           .(pending := s.pending - {request}), None)
  }

  ghost function Proved(cfg: Config, s: Records, id: string, proof: IntegrityProof, now: int): (Records, Option<DraftError>) {
    if id !in s.cores then (s, Some(DraftNotFound))
    else
      var d := ReadDraft(s, id).value;
      if d.core.document.None? then (s, Some(MissingDidDocument))
      else if d.control.challenge.None? then (s, Some(ChallengeMissing))
      else
        var bundle := Bundle(d.control.challenge.value, proof, None, None, None);
        var error := ControlProofError(cfg, bundle, d.core.document.value, d.core.agentDid, EffectiveHash(cfg, d.core), now);
        if error.Some? then (s, error)
        else
          var verified := bundle.(verifiedAt := Some(now), verifiedMethod := Some(bundle.challenge.verificationMethod),
                                  proofHash := Some(HashJson(cfg.c, ProofJson(proof))));
          (s.(cores := s.cores[id := d.core.(status := ControlVerified)],
              controls := s.controls[id := Control(Verified, d.control.challenge, Some(verified))]), None)
  }

  ghost function TryIssue(cfg: Config, s: Records, id: string, now: int): Result<Credential, DraftError> {
    if id !in s.cores then Err(DraftNotFound)
    else
      var d := ReadDraft(s, id).value;
      if d.core.reviewStatus != Validated then Err(NotValidated)
      else if d.control.status != Verified then Err(ControlNotVerified)
      else if d.core.documentHash.None? then Err(InvalidDocumentHash)
      else if d.control.proof.None? then Err(ProofMissing)
      else
        var bundle := d.control.proof.value;
        if bundle.proofHash.None? || bundle.verifiedAt.None? then Err(ProofMissing)
        else Ok(IssuedCredential(cfg, d.core, d.core.documentHash.value, bundle, bundle.proofHash.value, bundle.verifiedAt.value, now))
  }

  // ----- what every run keeps -----

  /** A challenge the registrar made for this draft's document as it is now. */
  ghost predicate ChallengeFits(cfg: Config, id: string, core: Core, ch: Challenge) {
    && ch.draftId == id && ch.registrarDid == cfg.did && ch.purpose == cfg.purpose
    && core.document.Some? && core.documentHash == Some(ch.documentHash)
    && ch.documentHash == HashDocument(cfg, core.document.value)
  }

  /** A bundle whose proof was checked against the document its challenge names. */
  ghost predicate BundleChecked(cfg: Config, id: string, core: Core, bundle: Bundle) {
    && ChallengeFits(cfg, id, core, bundle.challenge)
    && SignatureError(cfg.c, bundle, core.document.value).None?
    && bundle.verifiedAt.Some? && bundle.verifiedAt.value <= bundle.challenge.expiresAt
    && bundle.verifiedMethod == Some(bundle.challenge.verificationMethod)
    && bundle.proofHash == Some(HashJson(cfg.c, ProofJson(bundle.proof)))
  }

  ghost predicate DraftOk(cfg: Config, id: string, core: Core, control: Control) {
    && (core.documentHash.Some? ==> core.document.Some? && core.documentHash.value == HashDocument(cfg, core.document.value))
    && (control.challenge.Some? ==> ChallengeFits(cfg, id, core, control.challenge.value))
    && (control.status == Verified <==> control.proof.Some?)
    && (control.proof.Some? ==>
          BundleChecked(cfg, id, core, control.proof.value) && control.challenge == Some(control.proof.value.challenge))
  }

  ghost predicate AllOk(cfg: Config, s: Records) {
    && (forall id :: id in s.controls ==> id in s.cores && DraftOk(cfg, id, s.cores[id], s.controls[id]))
    && (forall id :: id in s.cores ==> id in s.controls)
    && (forall r :: r in s.pending ==> DraftOk(cfg, s.pending[r].0, s.pending[r].1.core, s.pending[r].1.control))
  }

  const EMPTY := Records(map[], map[], map[], map[])

  ghost function After(cfg: Config, ops: seq<Op>): Records {
    if ops == [] then EMPTY else Apply(cfg, After(cfg, ops[..|ops| - 1]), ops[|ops| - 1]).0
  }

  /** Only the document and its hash matter to the control record. */
  lemma DocumentDecides(cfg: Config, id: string, core: Core, core': Core, control: Control)
    requires core.document == core'.document && core.documentHash == core'.documentHash
    ensures DraftOk(cfg, id, core, control) == DraftOk(cfg, id, core', control)
  {
    hide HashDocument, SignatureError, HashJson, ProofJson;
  }

  lemma PutKeepsOk(cfg: Config, s: Records, id: string, core: Core, control: Control, s': Records)
    requires AllOk(cfg, s) && DraftOk(cfg, id, core, control)
    requires s'.cores == s.cores[id := core] && s'.controls == s.controls[id := control]
    requires forall r :: r in s'.pending ==> r in s.pending && s'.pending[r] == s.pending[r]
    ensures AllOk(cfg, s')
  {
    hide DraftOk;
  }

  lemma ApplyKeepsOk(cfg: Config, s: Records, op: Op)
    requires AllOk(cfg, s)
    ensures AllOk(cfg, Apply(cfg, s, op).0)
  {
    hide Apply;
    match op
    case Create(_, _, _, _, _, _) => FreshRecordKeepsOk(cfg, s, op);
    case Update(_, _, _, _, _) => UpdateKeepsOk(cfg, s, op);
    case Validate(_) => StatusKeepsOk(cfg, s, op);
    case MakeChallenge(_, _, _) => FreshRecordKeepsOk(cfg, s, op);
    case Prove(_, _, _) => ProveKeepsOk(cfg, s, op);
    case Issue(_, _) => StatusKeepsOk(cfg, s, op);
    case BeginSubmit(_, _) => SubmitKeepsOk(cfg, s, op);
    case EndSubmit(_, _) => SubmitKeepsOk(cfg, s, op);
  }

  lemma FreshRecordKeepsOk(cfg: Config, s: Records, op: Op)
    requires AllOk(cfg, s) && (op.Create? || op.MakeChallenge?)
    ensures AllOk(cfg, Apply(cfg, s, op).0)
  {
    hide HashDocument, SignatureError, AllOk;
    var (s', error) := Apply(cfg, s, op);
    if error.None? {
      if op.MakeChallenge? { RecordOk(cfg, s, op.id); }
      PutKeepsOk(cfg, s, op.id, s'.cores[op.id], s'.controls[op.id], s');
    }
  }

  lemma RecordOk(cfg: Config, s: Records, id: string)
    requires AllOk(cfg, s) && id in s.cores
    ensures id in s.controls && DraftOk(cfg, id, s.cores[id], s.controls[id])
    ensures DraftOk(cfg, id, s.cores[id], Control(NotStarted, None, None))
  {
    hide HashDocument, SignatureError, HashJson, ProofJson;
  }

  lemma StatusKeepsOk(cfg: Config, s: Records, op: Op)
    requires AllOk(cfg, s) && (op.Validate? || op.Issue?)
    ensures AllOk(cfg, Apply(cfg, s, op).0)
  {
    hide DraftOk, AllOk, TryIssue, IsValid, Signed;
    var (s', error) := Apply(cfg, s, op);
    if error.None? {
      if op.Issue? { IssueNeedsDraft(cfg, s, op.id, op.now); }
      CoreKeepsOk(cfg, s, op.id, s'.cores[op.id], s');
    }
  }

  lemma IssueNeedsDraft(cfg: Config, s: Records, id: string, now: int)
    requires TryIssue(cfg, s, id, now).Ok?
    ensures id in s.cores
  {
  }

  lemma CoreKeepsOk(cfg: Config, s: Records, id: string, core: Core, s': Records)
    requires AllOk(cfg, s) && id in s.cores
    requires core.document == s.cores[id].document && core.documentHash == s.cores[id].documentHash
    requires s'.cores == s.cores[id := core] && s'.controls == s.controls && s'.pending == s.pending
    ensures AllOk(cfg, s')
  {
    hide DraftOk, AllOk;
    RecordOk(cfg, s, id);
    DocumentDecides(cfg, id, s.cores[id], core, s.controls[id]);
    PutKeepsOk(cfg, s, id, core, s.controls[id], s');
  }

  lemma SubmitKeepsOk(cfg: Config, s: Records, op: Op)
    requires AllOk(cfg, s) && (op.BeginSubmit? || op.EndSubmit?)
    ensures AllOk(cfg, Apply(cfg, s, op).0)
  {
    hide DraftOk, BuildSubmission;
    var s' := Apply(cfg, s, op).0;
    if op.EndSubmit? && op.request in s.pending {
      var (id, d) := s.pending[op.request];
      DocumentDecides(cfg, id, d.core, s'.cores[id], d.control);
    }
  }

  lemma UpdateKeepsOk(cfg: Config, s: Records, op: Op)
    requires AllOk(cfg, s) && op.Update?
    ensures AllOk(cfg, Apply(cfg, s, op).0)
  {
    hide HashDocument, SignatureError, AllOk, HashJson, ProofJson;
    var d := ReadDraft(s, op.id).UnwrapOr(NewDraft(op));
    if op.id in s.cores { RecordOk(cfg, s, op.id); }
    var d' := UpdatedDraft(cfg, d, op);
    assert DraftOk(cfg, op.id, d'.core, d'.control);
    PutKeepsOk(cfg, s, op.id, d'.core, d'.control, Apply(cfg, s, op).0);
  }

  lemma ProveKeepsOk(cfg: Config, s: Records, op: Op)
    requires AllOk(cfg, s) && op.Prove?
    ensures AllOk(cfg, Apply(cfg, s, op).0)
  {
    hide HashDocument, HashJson, ProofJson, AllOk, SignatureError;
    var (s', error) := Apply(cfg, s, op);
    if error.None? {
      RecordOk(cfg, s, op.id);
      var d := ReadDraft(s, op.id).value;
      var control := s'.controls[op.id];
      SignatureOnly(cfg.c, Bundle(d.control.challenge.value, op.proof, None, None, None), control.proof.value, d.core.document.value);
      assert DraftOk(cfg, op.id, s'.cores[op.id], control);
      PutKeepsOk(cfg, s, op.id, s'.cores[op.id], control, s');
    }
  }

  lemma SignatureOnly(c: Suite, a: Bundle, b: Bundle, doc: DidDocument)
    requires a.challenge == b.challenge && a.proof == b.proof
    ensures SignatureError(c, a, doc) == SignatureError(c, b, doc)
  {
  }

  lemma {:induction false} EveryRunKeepsOk(cfg: Config, ops: seq<Op>)
    ensures AllOk(cfg, After(cfg, ops))
  {
    if ops != [] {
      EveryRunKeepsOk(cfg, ops[..|ops| - 1]);
      ApplyKeepsOk(cfg, After(cfg, ops[..|ops| - 1]), ops[|ops| - 1]);
    }
  }

  /** In every reachable state a verified draft holds a complete, checked bundle for its own document. */
  lemma VerifiedMeansChecked(cfg: Config, ops: seq<Op>, id: string)
    requires var s := After(cfg, ops); id in s.controls && s.controls[id].status == Verified
    ensures var s := After(cfg, ops);
      id in s.cores && s.controls[id].proof.Some? && BundleChecked(cfg, id, s.cores[id], s.controls[id].proof.value)
  {
    hide BundleChecked, After, Apply;
    EveryRunKeepsOk(cfg, ops);
  }

  /** Every submission carries a bundle checked against the very document it submits. */
  lemma SubmissionIsChecked(cfg: Config, ops: seq<Op>, id: string)
    requires var s := After(cfg, ops); id in s.cores && BuildSubmission(cfg, ReadDraft(s, id).value).Ok?
    ensures var s := After(cfg, ops); var sub := BuildSubmission(cfg, ReadDraft(s, id).value).value;
      && sub.documentHash == HashDocument(cfg, sub.document) == sub.bundle.challenge.documentHash
      && BundleChecked(cfg, id, s.cores[id], sub.bundle)
  {
    hide After, Apply, HashDocument, SignatureError;
    EveryRunKeepsOk(cfg, ops);
  }

  /**
   The credential a reachable state issues passes the binding check for a subject exactly when that is
   the subject of the verified challenge.
   */
  lemma IssuedBinds(cfg: Config, ops: seq<Op>, id: string, now: int, subjectDid: string)
    requires TryIssue(cfg, After(cfg, ops), id, now).Ok?
    ensures var s := After(cfg, ops); var vc := TryIssue(cfg, s, id, now).value;
      && s.cores[id].document.Some? && s.controls[id].proof.Some?
      && var bundle := s.controls[id].proof.value;
      var hash := HashDocument(cfg, s.cores[id].document.value);
      (BindingAccepted(vc.claims, subjectDid, hash, cfg.did, cfg.purpose, bundle) <==> subjectDid == bundle.challenge.subjectDid)
  {
    hide After, Apply, HashDocument, SignatureError, Strings, Get, Has;
    EveryRunKeepsOk(cfg, ops);
    var s := After(cfg, ops);
    var vc, bundle := TryIssue(cfg, s, id, now).value, s.controls[id].proof.value;
    ClaimsFields(cfg, s.cores[id], s.cores[id].documentHash.value, bundle, bundle.proofHash.value, bundle.verifiedAt.value, now);
  }

  /** What the claims of an issued credential hold. */
  lemma ClaimsFields(cfg: Config, core: Core, hash: string, bundle: Bundle, proofHash: string, verifiedAt: int, now: int)
    ensures var vc, ch := IssuedCredential(cfg, core, hash, bundle, proofHash, verifiedAt, now), bundle.challenge;
      && vc.subject == core.agentDid && vc.issuer == cfg.did
      && Get(vc.claims, "didDocumentHash") == Str(hash) && Has(vc.claims, "registrationBinding")
      && var binding := Get(vc.claims, "registrationBinding");
      && Get(binding, "subjectDid") == Str(ch.subjectDid) && Get(binding, "challengeId") == Str(ch.challengeId)
      && Get(binding, "draftId") == Str(ch.draftId) && Get(binding, "verificationMethod") == Str(ch.verificationMethod)
      && Get(binding, "registrarDid") == Str(ch.registrarDid) && Get(binding, "purpose") == Str(ch.purpose)
      && Has(binding, "verifiedAt") && Get(binding, "proofHash") == Str(proofHash)
  {
    hide Strings;
  }

  /** A credential is bound to its own subject exactly when the draft's DID is the one challenged. */
  lemma IssuedBindsOwnSubject(cfg: Config, ops: seq<Op>, id: string, now: int)
    requires TryIssue(cfg, After(cfg, ops), id, now).Ok?
    ensures var s := After(cfg, ops); var vc := TryIssue(cfg, s, id, now).value;
      && s.cores[id].document.Some? && s.controls[id].proof.Some?
      && var bundle := s.controls[id].proof.value;
      var hash := HashDocument(cfg, s.cores[id].document.value);
      (BindingAccepted(vc.claims, vc.subject, hash, cfg.did, cfg.purpose, bundle) <==> s.cores[id].agentDid == bundle.challenge.subjectDid)
  {
    hide After, Apply, HashDocument, BindingAccepted, Strings, BindingClaims;
    var s := After(cfg, ops);
    IssuedBinds(cfg, ops, id, now, s.cores[id].agentDid);
  }

  /** A later update of the DID alone leaves the proof standing, and a credential is issued to a subject never challenged. */
  lemma IssuedToAnotherSubject(cfg: Config, id: string, doc: DidDocument, sk: string, nonce: string, other: string)
    requires Ideal(cfg.c) && cfg.challengeTtl >= 0
    requires ValidateMvp(doc).None? && other != doc.id
    requires var found := FindMethod(doc.verificationMethod, doc.assertionMethod, Some(doc.assertionMethod[0]));
      found.Some? && MethodKey(cfg.c, found.value) == Some(cfg.c.publicKey(sk))
    ensures exists ops :: IssuedToOther(cfg, After(cfg, ops), id, doc.id, other)
  {
    hide Ideal, HashJson, ChallengeJson, ProofJson, DocumentJson, ValidateMvp, After, Apply;
    var ch := NewChallenge(cfg, id, doc.id, HashDocument(cfg, doc), doc.assertionMethod[0], nonce, 0);
    var proof := IntegrityProof("", cfg.c.sign(sk, HashJson(cfg.c, ChallengeJson(ch))), None);
    var a, b, c := Create(id, None, "", Some(doc), None, None), Validate(id), MakeChallenge(id, nonce, 0);
    var d, e := Prove(id, proof, 0), Update(id, Some(other), None, None, None);
    var ops := [a, b, c, d, e];
    AfterFive(cfg, a, b, c, d, e);
    hide IssuedToOther, UnderChallenge;
    ValidatedAndChallenged(cfg, id, doc, nonce);
    ProvedAndRenamed(cfg, Apply(cfg, Apply(cfg, Apply(cfg, EMPTY, a).0, b).0, c).0, id, doc, sk, ch, other);
    assert IssuedToOther(cfg, After(cfg, ops), id, doc.id, other);
  }

  /** A validated draft whose own document is under challenge. */
  predicate UnderChallenge(s: Records, id: string, doc: DidDocument, ch: Challenge) {
    && id in s.cores && id in s.controls
    && s.cores[id].agentDid == doc.id && s.cores[id].document == Some(doc) && s.cores[id].documentHash == Some(ch.documentHash)
    && s.cores[id].reviewStatus == Validated && s.controls[id].challenge == Some(ch)
  }

  lemma ValidatedAndChallenged(cfg: Config, id: string, doc: DidDocument, nonce: string)
    requires ValidateMvp(doc).None?
    ensures var ch := NewChallenge(cfg, id, doc.id, HashDocument(cfg, doc), doc.assertionMethod[0], nonce, 0);
      var s1 := Apply(cfg, EMPTY, Create(id, None, "", Some(doc), None, None)).0;
      var s2 := Apply(cfg, s1, Validate(id)).0;
      UnderChallenge(Apply(cfg, s2, MakeChallenge(id, nonce, 0)).0, id, doc, ch)
  {
    hide HashJson, DocumentJson, ValidateMvp;
  }

  lemma ProvedAndRenamed(cfg: Config, s: Records, id: string, doc: DidDocument, sk: string, ch: Challenge, other: string)
    requires Ideal(cfg.c) && UnderChallenge(s, id, doc, ch)
    requires ch.subjectDid == doc.id && ch.registrarDid == cfg.did && ch.purpose == cfg.purpose && ch.expiresAt >= 0
    requires var found := FindMethod(doc.verificationMethod, doc.assertionMethod, Some(ch.verificationMethod));
      found.Some? && MethodKey(cfg.c, found.value) == Some(cfg.c.publicKey(sk))
    ensures var proof := IntegrityProof("", cfg.c.sign(sk, HashJson(cfg.c, ChallengeJson(ch))), None);
      var s4 := Apply(cfg, s, Prove(id, proof, 0)).0;
      IssuedToOther(cfg, Apply(cfg, s4, Update(id, Some(other), None, None, None)).0, id, doc.id, other)
  {
    hide Ideal, HashJson, ChallengeJson, ProofJson, DocumentJson, BindingClaims, FindMethod;
    SignatureVerifies(cfg.c, sk, HashJson(cfg.c, ChallengeJson(ch)));
    var proof := IntegrityProof("", cfg.c.sign(sk, HashJson(cfg.c, ChallengeJson(ch))), None);
    var s4 := Apply(cfg, s, Prove(id, proof, 0)).0;
    assert s4.controls[id].status == Verified;
  }

  /** The state issues a credential to `other` on a challenge made for `challenged`. */
  ghost predicate IssuedToOther(cfg: Config, s: Records, id: string, challenged: string, other: string) {
    && TryIssue(cfg, s, id, 0).Ok? && id in s.controls && s.controls[id].proof.Some?
    && TryIssue(cfg, s, id, 0).value.subject == other
    && s.controls[id].proof.value.challenge.subjectDid == challenged
  }

  lemma NothingYet(cfg: Config)
    ensures After(cfg, []) == EMPTY
  {
  }

  lemma AfterOne(cfg: Config, ops: seq<Op>, op: Op)
    ensures After(cfg, ops + [op]) == Apply(cfg, After(cfg, ops), op).0
  {
    assert (ops + [op])[..|ops|] == ops;
  }

  lemma AfterFive(cfg: Config, a: Op, b: Op, c: Op, d: Op, e: Op)
    ensures After(cfg, [a, b, c, d, e])
      == Apply(cfg, Apply(cfg, Apply(cfg, Apply(cfg, Apply(cfg, EMPTY, a).0, b).0, c).0, d).0, e).0
  {
    hide Apply, After;
    NothingYet(cfg);
    AfterOne(cfg, [], a);
    AfterOne(cfg, [a], b);
    AfterOne(cfg, [a, b], c);
    AfterOne(cfg, [a, b, c], d);
    AfterOne(cfg, [a, b, c, d], e);
    assert [] + [a] == [a] && [a] + [b] == [a, b] && [a, b] + [c] == [a, b, c] && [a, b, c] + [d] == [a, b, c, d];
    assert [a, b, c, d] + [e] == [a, b, c, d, e];
  }

  // ----- whether an issued document is valid -----

  /** Operation `k` writes the DID or the document of the draft. */
  ghost predicate Rewrites(cfg: Config, ops: seq<Op>, k: nat, id: string) {
    k < |ops| && WritesSubject(After(cfg, ops[..k]), ops[k], id)
  }

  predicate WritesSubject(s: Records, op: Op, id: string) {
    match op
    case Create(i, _, _, _, _, _) => i == id
    case Update(i, agentDid, document, _, _) => i == id && (agentDid.Some? || document.Some?)
    case EndSubmit(request, _) => request in s.pending && s.pending[request].0 == id
    case _ => false
  }

  predicate PassesAs(document: Option<DidDocument>, did: string) {
    document.Some? && document.value.id == did && ValidateMvp(document.value).None?
  }

  /** What is written passes the document check. */
  predicate WritesValid(s: Records, op: Op, id: string) {
    match op
    case Create(_, _, _, document, _, _) => PassesAs(document, CreatedCore(op).agentDid)
    case Update(_, agentDid, document, _, _) =>
      if document.Some? then ValidateMvp(document.value).None?
      else id in s.cores && agentDid.Some? && PassesAs(s.cores[id].document, agentDid.value)
    case EndSubmit(request, _) => request in s.pending && IsValid(s.pending[request].1.core)
    case _ => id in s.cores && IsValid(s.cores[id])
  }

  /** The review status agrees with the document as it is. */
  predicate Reviewed(core: Core) {
    core.reviewStatus == Validated <==> IsValid(core)
  }

  lemma SubjectStays(cfg: Config, s: Records, op: Op, id: string)
    requires id in s.cores && !WritesSubject(s, op, id)
    ensures var s' := Apply(cfg, s, op).0;
      && id in s'.cores && s'.cores[id].agentDid == s.cores[id].agentDid && s'.cores[id].document == s.cores[id].document
      && (Reviewed(s.cores[id]) || op == Validate(id) ==> Reviewed(s'.cores[id]))
  {
    hide HashJson, DocumentJson, ControlProofError, ValidateMvp, Signed, BuildSubmission, NewChallenge, IssuedCredential;
  }

  lemma SubjectWritten(cfg: Config, s: Records, op: Op, id: string)
    requires WritesSubject(s, op, id)
    ensures var s' := Apply(cfg, s, op).0; id in s'.cores && (IsValid(s'.cores[id]) <==> WritesValid(s, op, id))
  {
    hide HashJson, DocumentJson, ValidateMvp;
  }

  lemma {:induction false} SubjectSince(cfg: Config, ops: seq<Op>, m: nat, n: nat, id: string)
    requires m <= n <= |ops| && id in After(cfg, ops[..m]).cores
    requires forall k: nat :: m <= k < n ==> !Rewrites(cfg, ops, k, id)
    ensures var s, s' := After(cfg, ops[..m]), After(cfg, ops[..n]);
      && id in s'.cores && (IsValid(s'.cores[id]) <==> IsValid(s.cores[id]))
      && (Reviewed(s.cores[id]) ==> Reviewed(s'.cores[id]))
  {
    hide Apply, WritesSubject, ValidateMvp;
    if m < n {
      SubjectSince(cfg, ops, m, n - 1, id);
      assert !Rewrites(cfg, ops, n - 1, id);
      SubjectStays(cfg, After(cfg, ops[..n - 1]), ops[n - 1], id);
      assert ops[..n][..n - 1] == ops[..n - 1];
    }
  }

  /**
   With `m` the last operation that wrote the draft's DID or document or validated it: the document a
   credential is issued for passes the document check if it was validated as it is, and otherwise
   exactly when what was written last does.
   */
  lemma IssuedIsValidIff(cfg: Config, ops: seq<Op>, m: nat, id: string, now: int)
    requires TryIssue(cfg, After(cfg, ops), id, now).Ok?
    requires m < |ops| && (Rewrites(cfg, ops, m, id) || (ops[m] == Validate(id) && id in After(cfg, ops[..m]).cores))
    requires forall k: nat :: m < k < |ops| ==> !Rewrites(cfg, ops, k, id)
    ensures IsValid(After(cfg, ops).cores[id]) <==> ops[m].Validate? || WritesValid(After(cfg, ops[..m]), ops[m], id)
  {
    hide After, Apply, WritesSubject, WritesValid, ValidateMvp, IssuedCredential;
    var s := After(cfg, ops[..m]);
    assert ops[..m + 1] == ops[..m] + [ops[m]] && ops[..|ops|] == ops;
    AfterOne(cfg, ops[..m], ops[m]);
    if Rewrites(cfg, ops, m, id) {
      SubjectWritten(cfg, s, ops[m], id);
      assert !ops[m].Validate? by { ValidateWritesNothing(s, ops[m], id); }
    } else {
      SubjectStays(cfg, s, ops[m], id);
    }
    SubjectSince(cfg, ops, m + 1, |ops|, id);
  }

  lemma ValidateWritesNothing(s: Records, op: Op, id: string)
    requires WritesSubject(s, op, id)
    ensures !op.Validate?
  {
  }

  /** A document that fails the check can be written after validation, and a credential is issued for it. */
  lemma InvalidDocumentIssued(cfg: Config, id: string, good: DidDocument, bad: DidDocument, sk: string, nonce: string)
    requires Ideal(cfg.c) && cfg.challengeTtl >= 0
    requires ValidateMvp(good).None? && ValidateMvp(bad).Some? && bad.assertionMethod != []
    requires var found := FindMethod(bad.verificationMethod, bad.assertionMethod, Some(bad.assertionMethod[0]));
      found.Some? && MethodKey(cfg.c, found.value) == Some(cfg.c.publicKey(sk))
    ensures exists ops :: IssuedInvalid(cfg, After(cfg, ops), id, bad)
  {
    hide Ideal, HashJson, ChallengeJson, ProofJson, DocumentJson, ValidateMvp, After, Apply;
    var ch := NewChallenge(cfg, id, bad.id, HashDocument(cfg, bad), bad.assertionMethod[0], nonce, 0);
    var proof := IntegrityProof("", cfg.c.sign(sk, HashJson(cfg.c, ChallengeJson(ch))), None);
    var a, b, c := Create(id, None, "", Some(good), None, None), Validate(id), Update(id, None, Some(bad), None, None);
    var d, e := MakeChallenge(id, nonce, 0), Prove(id, proof, 0);
    var ops := [a, b, c, d, e];
    AfterFive(cfg, a, b, c, d, e);
    hide IssuedInvalid, UnderChallenge;
    RewrittenAndChallenged(cfg, id, good, bad, nonce);
    ProvedInvalid(cfg, Apply(cfg, Apply(cfg, Apply(cfg, Apply(cfg, EMPTY, a).0, b).0, c).0, d).0, id, bad, sk, ch);
    assert IssuedInvalid(cfg, After(cfg, ops), id, bad);
  }

  ghost predicate IssuedInvalid(cfg: Config, s: Records, id: string, bad: DidDocument) {
    TryIssue(cfg, s, id, 0).Ok? && s.cores[id].document == Some(bad) && !IsValid(s.cores[id])
  }

  lemma RewrittenAndChallenged(cfg: Config, id: string, good: DidDocument, bad: DidDocument, nonce: string)
    requires ValidateMvp(good).None? && bad.assertionMethod != []
    ensures var ch := NewChallenge(cfg, id, bad.id, HashDocument(cfg, bad), bad.assertionMethod[0], nonce, 0);
      var s1 := Apply(cfg, EMPTY, Create(id, None, "", Some(good), None, None)).0;
      var s2 := Apply(cfg, s1, Validate(id)).0;
      var s3 := Apply(cfg, s2, Update(id, None, Some(bad), None, None)).0;
      UnderChallenge(Apply(cfg, s3, MakeChallenge(id, nonce, 0)).0, id, bad, ch)
  {
    hide HashJson, DocumentJson, ValidateMvp;
  }

  lemma ProvedInvalid(cfg: Config, s: Records, id: string, bad: DidDocument, sk: string, ch: Challenge)
    requires Ideal(cfg.c) && UnderChallenge(s, id, bad, ch) && ValidateMvp(bad).Some?
    requires ch.subjectDid == bad.id && ch.registrarDid == cfg.did && ch.purpose == cfg.purpose && ch.expiresAt >= 0
    requires var found := FindMethod(bad.verificationMethod, bad.assertionMethod, Some(ch.verificationMethod));
      found.Some? && MethodKey(cfg.c, found.value) == Some(cfg.c.publicKey(sk))
    ensures var proof := IntegrityProof("", cfg.c.sign(sk, HashJson(cfg.c, ChallengeJson(ch))), None);
      IssuedInvalid(cfg, Apply(cfg, s, Prove(id, proof, 0)).0, id, bad)
  {
    hide Ideal, HashJson, ChallengeJson, ProofJson, DocumentJson, BindingClaims, FindMethod, ValidateMvp;
    SignatureVerifies(cfg.c, sk, HashJson(cfg.c, ChallengeJson(ch)));
  }

  /** A submission that ends writes back the draft it read, whatever was done to it in between. */
  lemma {:induction false} SubmissionUndoesChanges(cfg: Config, s: Records, id: string, request: nat, between: seq<Op>, accepted: bool)
    requires Apply(cfg, s, BeginSubmit(id, request)).1.None?
    requires forall op :: op in between ==> !(op.BeginSubmit? && op.request == request) && !(op.EndSubmit? && op.request == request)
    ensures var s1 := Apply(cfg, s, BeginSubmit(id, request)).0;
      var s2 := Apply(cfg, Following(cfg, s1, between), EndSubmit(request, accepted)).0;
      && id in s2.cores && id in s2.controls
      && s2.cores[id] == s.cores[id].(status := if accepted then Submitted else SubmitFailed)
      && s2.controls[id] == ReadDraft(s, id).value.control
      && id in s.credentials && id in s2.credentials && s2.credentials[id] == s.credentials[id]
  {
    hide Apply, BuildSubmission;
    var s1 := Apply(cfg, s, BeginSubmit(id, request)).0;
    BeginKeepsSnapshot(cfg, s, id, request);
    PendingKept(cfg, s1, between, request);
    EndWritesSnapshot(cfg, Following(cfg, s1, between), request, accepted);
  }

  ghost function Following(cfg: Config, s: Records, ops: seq<Op>): Records {
    if ops == [] then s else Apply(cfg, Following(cfg, s, ops[..|ops| - 1]), ops[|ops| - 1]).0
  }

  lemma BeginKeepsSnapshot(cfg: Config, s: Records, id: string, request: nat)
    requires Apply(cfg, s, BeginSubmit(id, request)).1.None?
    ensures id in s.cores && id in s.credentials
    ensures var s1 := Apply(cfg, s, BeginSubmit(id, request)).0;
      request in s1.pending && s1.pending[request] == (id, ReadDraft(s, id).value)
  {
  }

  lemma EndWritesSnapshot(cfg: Config, s: Records, request: nat, accepted: bool)
    requires request in s.pending
    ensures var (id, d) := s.pending[request]; var s' := Apply(cfg, s, EndSubmit(request, accepted)).0;
      && id in s'.cores && s'.cores[id] == d.core.(status := if accepted then Submitted else SubmitFailed)
      && id in s'.controls && s'.controls[id] == d.control
      && (d.credential.Some? ==> id in s'.credentials && s'.credentials[id] == d.credential.value)
  {
  }

  lemma {:induction false} PendingKept(cfg: Config, s: Records, ops: seq<Op>, request: nat)
    requires request in s.pending
    requires forall op :: op in ops ==> !(op.BeginSubmit? && op.request == request) && !(op.EndSubmit? && op.request == request)
    ensures var s' := Following(cfg, s, ops); request in s'.pending && s'.pending[request] == s.pending[request]
  {
    hide Apply;
    if ops != [] {
      PendingKept(cfg, s, ops[..|ops| - 1], request);
      OthersKeepPending(cfg, Following(cfg, s, ops[..|ops| - 1]), ops[|ops| - 1], request);
    }
  }

  lemma OthersKeepPending(cfg: Config, s: Records, op: Op, request: nat)
    requires request in s.pending
    requires !(op.BeginSubmit? && op.request == request) && !(op.EndSubmit? && op.request == request)
    ensures var s' := Apply(cfg, s, op).0; request in s'.pending && s'.pending[request] == s.pending[request]
  {
  }

  // ----- the Registrar -----

  lemma UpdateWrites(cfg: Config, s: Records, op: Op)
    requires op.Update?
    ensures var d := UpdatedDraft(cfg, ReadDraft(s, op.id).UnwrapOr(NewDraft(op)), op);
      Apply(cfg, s, op).0 == s.(cores := s.cores[op.id := d.core], controls := s.controls[op.id := d.control],
        credentials := if op.credential.Some? then s.credentials[op.id := op.credential.value] else s.credentials)
  {
    hide UpdatedDraft, ReadDraft, NewDraft;
  }

  class Registrar {
    const cfg: Config
    const hashJson: Value -> string
    var cores: map<string, Core>
    var controls: map<string, Control>
    var credentials: map<string, Value>
    var pending: map<nat, (string, Draft)>

    ghost predicate Valid() {
      forall v :: hashJson(v) == HashJson(cfg.c, v)
    }

    function Now(): Records
      reads this
    {
      Records(cores, controls, credentials, pending)
    }

    constructor (cfg: Config, hashJson: Value -> string)
      requires forall v :: hashJson(v) == HashJson(cfg.c, v)
      ensures Valid() && this.cfg == cfg && Now() == EMPTY
    {
      this.cfg, this.hashJson := cfg, hashJson;
      cores, controls, credentials, pending := map[], map[], map[], map[];
    }

    method CreateDraft(op: Op)
      requires op.Create?
      modifies this
      ensures Now() == Apply(cfg, old(Now()), op).0
    {
      cores := cores[op.id := CreatedCore(op)];
      controls := controls[op.id := Control(NotStarted, None, None)];
      if op.credential.Some? {
        credentials := credentials[op.id := op.credential.value];
      }
    }

    method UpdateDraft(op: Op)
      requires Valid() && op.Update?
      modifies this
      ensures Now() == Apply(cfg, old(Now()), op).0
    {
      hide HashJson, DocumentJson, Apply;
      UpdateWrites(cfg, Now(), op);
      var draft := ReadDraft(Now(), op.id).UnwrapOr(NewDraft(op));
      var core, control := draft.core, draft.control;
      if op.agentDid.Some? {
        core := core.(agentDid := op.agentDid.value);
      }
      if op.document.Some? {
        var doc := op.document.value;
        core := core.(document := Some(doc), agentDid := doc.id, documentHash := Some(hashJson(DocumentJson(doc))));
        control := Control(NotStarted, None, None);
      }
      if op.credential.Some? {
        credentials := credentials[op.id := op.credential.value];
      }
      if op.metadata.Some? {
        core := core.(metadata := op.metadata.value);
      }
      cores := cores[op.id := core];
      controls := controls[op.id := control];
    }

    method ValidateDraft(id: string) returns (error: Option<DraftError>)
      modifies this
      ensures (Now(), error) == Apply(cfg, old(Now()), Validate(id))
    {
      if id !in cores {
        return Some(DraftNotFound);
      }
      var review := if IsValid(cores[id]) then Validated else InDraft;
      cores := cores[id := cores[id].(reviewStatus := review)];
      return None;
    }

    method CreateControlChallenge(id: string, nonce: string, now: int) returns (error: Option<DraftError>)
      requires Valid()
      modifies this
      ensures (Now(), error) == Apply(cfg, old(Now()), MakeChallenge(id, nonce, now))
    {
      hide HashJson, DocumentJson;
      if id !in cores {
        return Some(DraftNotFound);
      }
      var core := cores[id];
      if core.document.None? {
        return Some(MissingDidDocument);
      }
      var doc := core.document.value;
      if doc.assertionMethod == [] {
        return Some(DraftError.MissingAssertionMethod);
      }
      var hash := if core.documentHash.Some? then core.documentHash.value else hashJson(DocumentJson(doc));
      var challenge := NewChallenge(cfg, id, core.agentDid, hash, doc.assertionMethod[0], nonce, now);
      controls := controls[id := Control(Challenged, Some(challenge), None)];
      cores := cores[id := core.(documentHash := Some(hash))];
      return None;
    }

    method VerifySubjectControlProof(bundle: Bundle, doc: DidDocument, subjectDid: string, documentHash: string, now: int)
      returns (error: Option<DraftError>)
      requires Valid()
      ensures error == ControlProofError(cfg, bundle, doc, subjectDid, documentHash, now)
    {
      hide HashJson, ChallengeJson;
      var challenge := bundle.challenge;
      if challenge.subjectDid != subjectDid {
        return Some(SubjectMismatch);
      }
      if challenge.documentHash != documentHash {
        return Some(DocumentHashMismatch);
      }
      if challenge.registrarDid != cfg.did {
        return Some(RegistrarMismatch);
      }
      if challenge.purpose != cfg.purpose {
        return Some(PurposeMismatch);
      }
      if now > challenge.expiresAt {
        return Some(ChallengeExpired);
      }
      var found := FindMethod(doc.verificationMethod, doc.assertionMethod, Some(challenge.verificationMethod));
      if found.None? {
        return Some(DraftError.MissingVerificationMethod);
      }
      var key := MethodKey(cfg.c, found.value);
      if key.None? || !cfg.c.verify(key.value, hashJson(ChallengeJson(challenge)), bundle.proof.proofValue) {
        return Some(ProofInvalid);
      }
      if bundle.proof.verificationMethod.Some? && bundle.proof.verificationMethod.value != challenge.verificationMethod {
        return Some(VerificationMethodMismatch);
      }
      return None;
    }

    method SubmitControlProof(id: string, proof: IntegrityProof, now: int) returns (error: Option<DraftError>)
      requires Valid()
      modifies this
      ensures (Now(), error) == Apply(cfg, old(Now()), Prove(id, proof, now))
    {
      hide HashJson, DocumentJson, ProofJson, ControlProofError;
      if id !in cores {
        return Some(DraftNotFound);
      }
      var draft := ReadDraft(Now(), id).value;
      if draft.core.document.None? {
        return Some(MissingDidDocument);
      }
      if draft.control.challenge.None? {
        return Some(ChallengeMissing);
      }
      var doc, challenge := draft.core.document.value, draft.control.challenge.value;
      var bundle := Bundle(challenge, proof, None, None, None);
      var hash := if draft.core.documentHash.Some? then draft.core.documentHash.value else hashJson(DocumentJson(doc));
      error := VerifySubjectControlProof(bundle, doc, draft.core.agentDid, hash, now);
      if error.Some? {
        return;
      }
      bundle := bundle.(verifiedAt := Some(now), verifiedMethod := Some(challenge.verificationMethod),
                        proofHash := Some(hashJson(ProofJson(proof))));
      controls := controls[id := Control(Verified, Some(challenge), Some(bundle))];
      cores := cores[id := draft.core.(status := ControlVerified)];
    }

    method IssueRegistrationCredential(id: string, now: int) returns (error: Option<DraftError>)
      requires Valid()
      modifies this
      ensures (Now(), error) == Apply(cfg, old(Now()), Issue(id, now))
    {
      hide HashJson, CredentialJson, IssuedCredential;
      if id !in cores {
        return Some(DraftNotFound);
      }
      var draft := ReadDraft(Now(), id).value;
      if draft.core.reviewStatus != Validated {
        return Some(NotValidated);
      }
      if draft.control.status != Verified {
        return Some(ControlNotVerified);
      }
      if draft.core.documentHash.None? {
        return Some(InvalidDocumentHash);
      }
      if draft.control.proof.None? || draft.control.proof.value.proofHash.None? || draft.control.proof.value.verifiedAt.None? {
        return Some(ProofMissing);
      }
      var bundle := draft.control.proof.value;
      var unsigned := IssuedCredential(cfg, draft.core, draft.core.documentHash.value, bundle, bundle.proofHash.value, bundle.verifiedAt.value, now);
      var value := cfg.c.sign(cfg.signingKey, hashJson(CredentialJson(unsigned, None)));
      var signed := CredentialJson(unsigned, Some(IntegrityProof(cfg.did + "#key-1", value, None)));
      credentials := credentials[id := signed];
      cores := cores[id := draft.core.(status := CredentialIssued)];
      return None;
    }

    /** Up to the call of Root: the request that is sent, and the draft that will be written back. */
    method BeginSubmission(id: string, request: nat, up: Upstream) returns (error: Option<DraftError>, sent: Option<PublishRequest>)
      requires Valid()
      modifies this
      ensures (Now(), error) == Apply(cfg, old(Now()), BeginSubmit(id, request))
      ensures sent.None? <==> error.Some?
      ensures error.None? ==> sent.value == BuildRequest(cfg, BuildSubmission(cfg, ReadDraft(old(Now()), id).value).value, up)
    {
      hide HashJson, DocumentJson, SubmissionJson;
      if id !in cores {
        return Some(DraftNotFound), None;
      }
      var draft := ReadDraft(Now(), id).value;
      if draft.core.document.None? {
        return Some(MissingDidDocument), None;
      }
      if draft.credential.None? {
        return Some(MissingCredential), None;
      }
      if draft.control.proof.None? {
        return Some(ProofMissing), None;
      }
      var documentHash := if draft.core.documentHash.Some? then draft.core.documentHash.value else hashJson(DocumentJson(draft.core.document.value));
      var submission := Submission(draft.core.agentDid, draft.core.document.value, documentHash, draft.core.metadata,
                                   draft.credential.value, draft.control.proof.value);
      var unsigned := SignedEnvelope.Envelope(up.requestId, up.protocolLabel, PURPOSE_VERIFY_AND_PUBLISH, "POST",
        PATH_ROOT_VERIFY_AND_PUBLISH, up.rootDid, up.now, up.nonce, hashJson(SubmissionJson(submission)), SignedEnvelope.Proof("", None));
      var signature := cfg.c.sign(cfg.signingKey, hashJson(SignedEnvelope.EnvelopeJson(unsigned)));
      var envelope := unsigned.(proof := SignedEnvelope.Proof(signature, Some(cfg.did + "#key-1")));
      pending := pending[request := (id, draft)];
      return None, Some(PublishRequest(cfg.did, submission, envelope));
    }

    method EndSubmission(request: nat, accepted: bool)
      modifies this
      ensures Now() == Apply(cfg, old(Now()), EndSubmit(request, accepted)).0
    {
      if request in pending {
        var (id, draft) := pending[request];
        var status := if accepted then Submitted else SubmitFailed;
        cores := cores[id := draft.core.(status := status)];
        controls := controls[id := draft.control];
        if draft.credential.Some? {
          credentials := credentials[id := draft.credential.value];
        }
        pending := pending - {request};
      }
    }
  }
}
