/**
 The credential a Registrar issues: when it does, what it says, and that it is signed.
 */
module IssuedCredentials {
  import opened CanonicalJson
  import opened Crypto
  import opened Documents
  import opened RegistrarDraft
  import opened Wrappers

  /** In every reachable state issuing succeeds exactly for a validated draft with a verified control. */
  lemma IssuesIff(cfg: Config, ops: seq<Op>, id: string, now: int)
    ensures var s := After(cfg, ops);
      TryIssue(cfg, s, id, now).Ok? <==>
        id in s.cores && id in s.controls && s.cores[id].reviewStatus == Validated && s.controls[id].status == Verified
  {
    hide After, Apply, BundleChecked, IssuedCredential, HashDocument, AllOk;
    EveryRunKeepsOk(cfg, ops);
    var s := After(cfg, ops);
    if id in s.cores {
      RecordOk(cfg, s, id);
      VerifiedIsComplete(cfg, id, s.cores[id], s.controls[id]);
    }
  }

  lemma VerifiedIsComplete(cfg: Config, id: string, core: Core, control: Control)
    requires DraftOk(cfg, id, core, control)
    ensures control.status == Verified ==>
      && control.proof.Some? && control.proof.value.proofHash.Some? && control.proof.value.verifiedAt.Some?
      && core.document.Some? && core.documentHash == Some(HashDocument(cfg, core.document.value))
  {
    hide HashDocument, SignatureError, HashJson, ProofJson;
  }

  /** The proof value of a JSON object verifies over the object without its proof. */
  ghost predicate IsSigned(c: Suite, key: string, x: Value) {
    && x.Object? && Get(Get(x, "proof"), "proofValue").Str?
    && c.verify(key, HashJson(c, Object(x.fields - {"proof"})), Get(Get(x, "proof"), "proofValue").s)
  }

  /**
   What is stored then is signed by the registrar and says who issued it, to whom and when, and the hash and the
   tags of the document the draft holds.
   */
  lemma IssuedIsSigned(cfg: Config, ops: seq<Op>, id: string, now: int)
    requires Ideal(cfg.c) && TryIssue(cfg, After(cfg, ops), id, now).Ok?
    ensures var s, s' := After(cfg, ops), After(cfg, ops + [Issue(id, now)]);
      && id in s.cores && s.cores[id].document.Some? && id in s'.credentials
      && var x, doc := s'.credentials[id], s.cores[id].document.value;
      && IsSigned(cfg.c, cfg.c.publicKey(cfg.signingKey), x)
      && Get(x, "issuer") == Str(cfg.did) && Get(x, "subject") == Str(s.cores[id].agentDid) && Get(x, "status") == Str("active")
      && Get(x, "issuedAt") == Number(now) && Get(x, "type") == Str("AgentRegistrationCredential")
      && Get(Get(x, "claims"), "didDocumentHash") == Str(HashJson(cfg.c, DocumentJson(doc)))
      && Get(Get(x, "claims"), "capabilityTags") == Strings(CapabilityTags(doc))
      && Get(Get(Get(x, "claims"), "registrationBinding"), "flow") == Str("draft-confirm-submit")
  {
    hide After, Ideal, HashJson, DocumentJson, BundleChecked, Strings, AllOk, DraftOk, Apply, IssuedCredential, TryIssue, Signed, IsSigned, Get;
    var s := After(cfg, ops);
    AfterOne(cfg, ops, Issue(id, now));
    IssuesIff(cfg, ops, id, now);
    EveryRunKeepsOk(cfg, ops);
    RecordOk(cfg, s, id);
    VerifiedIsComplete(cfg, id, s.cores[id], s.controls[id]);
    IssueStores(cfg, s, id, now);
    StoredIsSigned(cfg, TryIssue(cfg, s, id, now).value);
    CredentialSays(cfg, s, id, now);
  }

  lemma IssueStores(cfg: Config, s: Records, id: string, now: int)
    requires TryIssue(cfg, s, id, now).Ok?
    ensures var s' := Apply(cfg, s, Issue(id, now)).0;
      id in s'.credentials && s'.credentials[id] == Signed(cfg, TryIssue(cfg, s, id, now).value)
  {
    hide Signed, IssuedCredential;
  }

  lemma StoredIsSigned(cfg: Config, vc: Credential)
    requires Ideal(cfg.c)
    ensures var x := Signed(cfg, vc);
      && IsSigned(cfg.c, cfg.c.publicKey(cfg.signingKey), x)
      && Get(x, "issuer") == Str(vc.issuer) && Get(x, "subject") == Str(vc.subject) && Get(x, "status") == Str(vc.status)
      && Get(x, "issuedAt") == Number(vc.issuedAt) && Get(x, "claims") == vc.claims && Get(x, "type") == Str("AgentRegistrationCredential")
  {
    hide Ideal, HashJson;
    var x, unsigned := Signed(cfg, vc), CredentialJson(vc, None);
    assert x.fields - {"proof"} == unsigned.fields;
    SignatureVerifies(cfg.c, cfg.signingKey, HashJson(cfg.c, unsigned));
  }

  lemma CredentialSays(cfg: Config, s: Records, id: string, now: int)
    requires TryIssue(cfg, s, id, now).Ok? && id in s.cores && s.cores[id].document.Some? && s.cores[id].documentHash.Some?
    ensures var vc := TryIssue(cfg, s, id, now).value;
      && vc.issuer == cfg.did && vc.subject == s.cores[id].agentDid && vc.status == "active" && vc.issuedAt == now
      && Get(vc.claims, "didDocumentHash") == Str(s.cores[id].documentHash.value)
      && Get(vc.claims, "capabilityTags") == Strings(CapabilityTags(s.cores[id].document.value))
      && Get(Get(vc.claims, "registrationBinding"), "flow") == Str("draft-confirm-submit")
  {
    hide Strings;
  }

  // ----- whose credential it is -----

  /** A credential made for one bundle is accepted for a subject, a document, a registrar, a purpose and a bundle exactly when all are its own. */
  lemma BindingFitsIff(cfg: Config, core: Core, hash: string, made: Bundle, proofHash: string, verifiedAt: int, now: int,
                       subjectDid: string, documentHash: string, registrarDid: string, purpose: string, bundle: Bundle)
    ensures var ch, own := bundle.challenge, made.challenge;
      BindingAccepted(IssuedCredential(cfg, core, hash, made, proofHash, verifiedAt, now).claims, subjectDid, documentHash, registrarDid, purpose, bundle) <==>
      && documentHash == hash && subjectDid == own.subjectDid && registrarDid == own.registrarDid && purpose == own.purpose
      && ch.challengeId == own.challengeId && ch.draftId == own.draftId && ch.verificationMethod == own.verificationMethod
      && (bundle.proofHash == None || bundle.proofHash == Some(proofHash))
  {
    hide Strings, Get, Has, IssuedCredential;
    ClaimsFields(cfg, core, hash, made, proofHash, verifiedAt, now);
  }

  /** Claims without a binding, or with one without a time, are accepted for nothing. */
  lemma BindingNeedsTime(claims: Value, subjectDid: string, documentHash: string, registrarDid: string, purpose: string, bundle: Bundle)
    requires !Has(Get(claims, "registrationBinding"), "verifiedAt")
    ensures !BindingAccepted(claims, subjectDid, documentHash, registrarDid, purpose, bundle)
  {
  }
}
