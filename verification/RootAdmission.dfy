/**
 Which publication requests Root accepts, in terms of the bulletin, the documents and the signatures
 alone, and what follows for every agent event of every run.
 */
module RootAdmission {
  import opened Bulletin
  import opened CanonicalJson
  import opened Crypto
  import opened DidAns
  import opened Documents
  import opened RootInvariants
  import opened RootNode
  import opened Wrappers

  // ----- the key of a registrar -----

  /** The key of the first method that the document lists for assertions. */
  predicate FirstKey(c: Suite, doc: DidDocument, key: string) {
    exists i :: 0 <= i < |doc.verificationMethod| && doc.verificationMethod[i].id in doc.assertionMethod
             && (forall j :: 0 <= j < i ==> doc.verificationMethod[j].id !in doc.assertionMethod)
             && JwkFirstKey(c, doc.verificationMethod[i]) == Some(key)
  }

  lemma IssuerKeyIff(c: Suite, doc: DidDocument, key: string)
    ensures IssuerKey(c, doc) == Ok(key) <==> FirstKey(c, doc, key)
  {
    var methods, ids := doc.verificationMethod, doc.assertionMethod;
    if IssuerKey(c, doc) == Ok(key) {
      var i := FoundAt(methods, ids, None);
      assert JwkFirstKey(c, methods[i]) == Some(key);
      assert forall j :: 0 <= j < i ==> !Suits(methods[j], ids, None);
    }
    if FirstKey(c, doc, key) {
      var i :| 0 <= i < |methods| && methods[i].id in ids && (forall j :: 0 <= j < i ==> methods[j].id !in ids)
               && JwkFirstKey(c, methods[i]) == Some(key);
      FindMethodIsFirst(methods, ids, None, i);
    }
  }

  lemma IssuerKeyErrors(c: Suite, doc: DidDocument)
    ensures IssuerKey(c, doc) == Err(MissingIssuerVerificationMethod)
      <==> forall m :: m in doc.verificationMethod ==> m.id !in doc.assertionMethod
    ensures IssuerKey(c, doc).Err? ==> IssuerKey(c, doc).error in [MissingIssuerVerificationMethod, InvalidIssuerKey]
    ensures IssuerKey(c, doc).Err? <==> forall key :: !FirstKey(c, doc, key)
  {
    hide FirstKey, JwkFirstKey;
    forall key ensures IssuerKey(c, doc) == Ok(key) <==> FirstKey(c, doc, key) {
      IssuerKeyIff(c, doc, key);
    }
    if IssuerKey(c, doc).Ok? {
      IssuerKeyIff(c, doc, IssuerKey(c, doc).value);
    }
    assert forall m :: m in doc.verificationMethod ==> (Suits(m, doc.assertionMethod, None) <==> m.id in doc.assertionMethod);
  }

  // ----- one request -----

  /** A request with a signature is accepted for it exactly when its registrar's first key verifies it over the whole request. */
  lemma SignatureAcceptedIff(c: Suite, req: Request)
    ensures SignatureError(c, req).None? <==>
      (req.signature.Some? ==>
        exists key :: FirstKey(c, req.registrarDocument, key) && c.verify(key, HashJson(c, RequestPayload(c, req)), req.signature.value))
  {
    hide FirstKey, IssuerKey, RequestPayload, HashJson;
    var doc := req.registrarDocument;
    forall key ensures IssuerKey(c, doc) == Ok(key) <==> FirstKey(c, doc, key) {
      IssuerKeyIff(c, doc, key);
    }
  }

  /** The remaining checks pass exactly under these conditions. */
  lemma RequestAcceptedIff(c: Suite, events: seq<Event>, req: Request)
    ensures var doc, vc := req.document, req.credential;
      RequestError(c, events, req).None? <==>
      && (exists i :: 0 <= i < |events| && events[i].core.subjectDid == req.registrarDid && events[i].core.eventType == RegistrarAuthorized)
      && (forall i :: 0 <= i < |events| && events[i].core.subjectDid == req.registrarDid ==> events[i].core.eventType != RegistrarRevoked)
      && Parse(req.agentDid).Ok? && doc.id == req.agentDid
      && DID_CORE_CONTEXT in doc.context && doc.verificationMethod != [] && doc.authentication != [] && doc.assertionMethod != []
      && doc.ansMetadata.Some? && doc.ansMetadata.value.subjectType == Agent && doc.service != []
      && vc.Credential? && vc.issuer == req.registrarDid && vc.subject == req.agentDid && vc.status == "active" && vc.proof.Some?
      && exists key :: FirstKey(c, req.registrarDocument, key)
                    && c.verify(key, HashJson(c, CredentialJson(vc.(proof := None))), vc.proof.value.proofValue)
  {
    hide FirstKey, IssuerKey, CredentialJson, HashJson, Parse;
    var doc := req.registrarDocument;
    forall key ensures IssuerKey(c, doc) == Ok(key) <==> FirstKey(c, doc, key) {
      IssuerKeyIff(c, doc, key);
    }
    ParsedHasText(req.agentDid);
  }

  /** The faults of a request, in the order in which they are looked for. */
  ghost function RequestFaults(c: Suite, events: seq<Event>, req: Request): seq<(bool, RootError)> {
    var doc, vc, own := req.document, req.credential, req.registrarDocument;
    [((forall i :: 0 <= i < |events| && events[i].core.subjectDid == req.registrarDid ==> events[i].core.eventType != RegistrarAuthorized)
      || (exists i :: 0 <= i < |events| && events[i].core.subjectDid == req.registrarDid && events[i].core.eventType == RegistrarRevoked),
      RegistrarNotAuthorized),
     (Parse(req.agentDid).Err?, InvalidDid),
     (doc.id != req.agentDid, DidDocumentIdMismatch),
     (ValidateMvp(doc).Some?, InvalidDidDocumentStructure),
     (doc.ansMetadata.None? || doc.ansMetadata.value.subjectType == InfrastructureNode, InvalidSubjectType),
     (|doc.service| == 0, InvalidServiceEndpoint),
     (vc.Malformed? || !(vc.issuer == req.registrarDid && vc.subject == req.agentDid && vc.status == "active"), InvalidRegistrationCredential),
     ((forall m :: m in own.verificationMethod ==> m.id !in own.assertionMethod), MissingIssuerVerificationMethod),
     ((forall key :: !FirstKey(c, own, key)), InvalidIssuerKey),
     (!(vc.Credential? && vc.proof.Some? && exists key :: FirstKey(c, own, key)
        && c.verify(key, HashJson(c, CredentialJson(vc.(proof := None))), vc.proof.value.proofValue)), InvalidCredentialSignature)]
  }

  lemma RequestErrorIsFirst(c: Suite, events: seq<Event>, req: Request)
    ensures IsFirstFault(RequestFaults(c, events, req), RequestError(c, events, req))
  {
    hide FirstKey, IssuerKey, CredentialJson, HashJson, Parse, ValidateMvp;
    var own := req.registrarDocument;
    forall key ensures IssuerKey(c, own) == Ok(key) <==> FirstKey(c, own, key) {
      IssuerKeyIff(c, own, key);
    }
    IssuerKeyErrors(c, own);
    var faults := RequestFaults(c, events, req);
    var i := if !faults[0].0 then if !faults[1].0 then if !faults[2].0 then if !faults[3].0 then if !faults[4].0 then
      if !faults[5].0 then if !faults[6].0 then if !faults[7].0 then if !faults[8].0 then 9 else 8 else 7 else 6 else 5 else 4 else 3 else 2 else 1 else 0;
    assert RequestError(c, events, req).Some? ==> faults[i] == (true, RequestError(c, events, req).value);
  }

  lemma ParsedHasText(did: string)
    ensures Parse(did).Ok? ==> did != ""
  {
  }

  /** A handler publishes exactly when the signature, the nonce and the remaining checks allow it. */
  lemma PublishesIff(cfg: Config, s: Root, req: Request, times: Times)
    ensures Step(cfg, s, Publish(req, times)).1.None? <==>
      SignatureError(cfg.c, req).None? && (req.nonce.Some? ==> req.nonce.value !in s.nonces) && RequestError(cfg.c, s.events, req).None?
  {
    hide SignatureError, RequestError, Published;
  }

  /** Equal signed texts come from requests that agree in every field but the signature and the registrar's document. */
  lemma RequestTextInjective(c: Suite, a: Request, b: Request)
    requires Ideal(c) && HashJson(c, RequestPayload(c, a)) == HashJson(c, RequestPayload(c, b))
    ensures a.registrarDid == b.registrarDid && a.agentDid == b.agentDid && a.document == b.document && a.metadata == b.metadata
    ensures CredentialJson(a.credential) == CredentialJson(b.credential) && a.timestamp == b.timestamp && a.nonce == b.nonce
  {
    hide HashJson, DocumentJson, CredentialJson, Ideal, RequestPayload;
    HashJsonInjective(c, RequestPayload(c, a), RequestPayload(c, b));
    RequestFields(c, a);
    RequestFields(c, b);
    HashJsonInjective(c, DocumentJson(a.document), DocumentJson(b.document));
    HashJsonInjective(c, a.metadata, b.metadata);
    DocumentJsonInjective(a.document, b.document);
  }

  lemma RequestFields(c: Suite, req: Request)
    ensures var x := RequestPayload(c, req);
      && Get(x, "registrarDid") == Str(req.registrarDid) && Get(x, "agentDid") == Str(req.agentDid)
      && Get(x, "didDocumentHash") == Str(HashJson(c, DocumentJson(req.document))) && Get(x, "metadataHash") == Str(HashJson(c, req.metadata))
      && Get(x, "registrationCredential") == CredentialJson(req.credential)
      && Get(x, "requestTimestamp") == (if req.timestamp.Some? then Number(req.timestamp.value) else Null)
      && Get(x, "requestNonce") == (if req.nonce.Some? then Str(req.nonce.value) else Null)
  {
    hide HashJson, DocumentJson, CredentialJson;
  }

  /** The JSON form determines a credential. */
  lemma CredentialJsonInjective(a: Credential, b: Credential)
    requires a.Credential? && b.Credential? && CredentialJson(a) == CredentialJson(b)
    ensures a == b
  {
    CredentialFields(a);
    CredentialFields(b);
    hide CredentialJson;
  }

  lemma CredentialFields(vc: Credential)
    requires vc.Credential?
    ensures var x := CredentialJson(vc);
      && Get(x, "issuer") == Str(vc.issuer) && Get(x, "subject") == Str(vc.subject) && Get(x, "status") == Str(vc.status)
      && Get(x, "type") == Str("AgentRegistrationCredential")
      && Get(x, "issuedAt") == Number(vc.issuedAt) && Get(x, "claims") == vc.claims && (Has(x, "proof") <==> vc.proof.Some?)
      && (vc.proof.Some? ==>
            Get(Get(x, "proof"), "creator") == Str(vc.proof.value.creator) && Get(Get(x, "proof"), "proofValue") == Str(vc.proof.value.proofValue))
  {
  }

  // ----- every run -----

  predicate AuthorizedIn(events: seq<Event>, did: string) {
    exists i :: 0 <= i < |events| && events[i].core.subjectDid == did && events[i].core.eventType == RegistrarAuthorized
  }

  predicate RevokedIn(events: seq<Event>, did: string) {
    exists i :: 0 <= i < |events| && events[i].core.subjectDid == did && events[i].core.eventType == RegistrarRevoked
  }

  predicate Stands(events: seq<Event>, did: string) {
    AuthorizedIn(events, did) && !RevokedIn(events, did)
  }

  /**
   The bulletin up to an agent event shows why it was appended: its registrar stands there, and vouched for
   the document, whose hash the event carries, with a credential signed by a key of its own document.
   */
  ghost predicate Vouched(c: Suite, before: seq<Event>, e: Event, document: DidDocument, own: DidDocument, vc: Credential) {
    && document.id == e.core.subjectDid && Get(e.core.payload, "didDocumentHash") == Str(HashJson(c, DocumentJson(document)))
    && vc.Credential? && Get(e.core.payload, "registrarDid") == Str(vc.issuer) && Stands(before, vc.issuer)
    && vc.subject == e.core.subjectDid && vc.status == "active" && vc.proof.Some?
    && exists key :: FirstKey(c, own, key) && c.verify(key, HashJson(c, CredentialJson(vc.(proof := None))), vc.proof.value.proofValue)
  }

  /** Every agent event a run appends was vouched for by a registrar that stood in the bulletin before it. */
  lemma {:induction false} EveryAgentIsVouched(cfg: Config, s: Root, ops: seq<Op>, n: nat)
    requires |s.events| <= n < |After(cfg, s, ops).events| && IsAgentEvent(After(cfg, s, ops).events[n])
    ensures var events := After(cfg, s, ops).events;
      exists document, own, vc :: Vouched(cfg.c, events[..n], events[n], document, own, vc)
  {
    hide Step, Vouched, NewEvent, IsAgentEvent;
    if ops != [] {
      var init, op := ops[..|ops| - 1], ops[|ops| - 1];
      var before := After(cfg, s, init);
      StepEvents(cfg, before, op);
      if n < |before.events| {
        EveryAgentIsVouched(cfg, s, init, n);
        assert After(cfg, s, ops).events[..n] == before.events[..n];
      } else {
        OnlyPublishIsAgent(cfg, before, op);
        PublishedIsVouched(cfg, before, op);
        assert After(cfg, s, ops).events[..n] == before.events;
      }
    }
  }

  lemma PublishedIsVouched(cfg: Config, s: Root, op: Op)
    requires op.Publish? && NewEvent(cfg, s, op).Some?
    ensures Vouched(cfg.c, s.events, PublishEvent(cfg, s.events, s.latest, op.req, op.times), op.req.document, op.req.registrarDocument, op.req.credential)
  {
    hide FirstKey, CredentialJson, HashJson, DocumentJson, Parse, PublishEvent, SignatureError, RequestError;
    PayloadNamesRegistrar(cfg, s.events, s.latest, op.req, op.times);
    RequestAcceptedIff(cfg.c, s.events, op.req);
  }

  /**
   The payload of each agent event tells its history since the start: the operation is a creation exactly when
   there was no agent event of its DID, and otherwise an update exactly when the last one had another document
   hash; the event's type says which, and the version counts the changes up to and including it.
   */
  lemma {:induction false} PayloadTellsHistory(cfg: Config, seed: seq<Event>, auth: Authorization, ops: seq<Op>, n: nat)
    requires |seed| <= n < |After(cfg, Start(seed, auth), ops).events| && IsAgentEvent(After(cfg, Start(seed, auth), ops).events[n])
    ensures var events := After(cfg, Start(seed, auth), ops).events;
      var e, past := events[n], events[|seed|..n];
      var last, hash := LastHash(past, e.core.subjectDid), RootInvariants.Text(Get(e.core.payload, "didDocumentHash"));
      && Get(e.core.payload, "operation") == Str(if last.None? then "create" else if last == Some(hash) then "no-op" else "update")
      && (e.core.eventType == AgentDidDocumentUpdated <==> last.Some? && last != Some(hash))
      && Get(e.core.payload, "documentVersion") == Number(Revisions(past + [e], e.core.subjectDid))
  {
    hide Step, NewEvent, IsAgentEvent, Revisions, LastHash, VersionsOk, Start;
    VersionsCountChanges(cfg, seed, auth, ops);
    VersionsSeed(seed, After(cfg, Start(seed, auth), ops));
    if ops == [] {
      assert |After(cfg, Start(seed, auth), ops).events| == |seed| by { StartHasSeed(seed, auth); }
    } else {
      var init, op := ops[..|ops| - 1], ops[|ops| - 1];
      var before := After(cfg, Start(seed, auth), init);
      StepEvents(cfg, before, op);
      VersionsCountChanges(cfg, seed, auth, init);
      VersionsSeed(seed, before);
      if n < |before.events| {
        PayloadTellsHistory(cfg, seed, auth, init, n);
        assert After(cfg, Start(seed, auth), ops).events[|seed|..n] == before.events[|seed|..n];
      } else {
        OnlyPublishIsAgent(cfg, before, op);
        PublishedTellsHistory(cfg, seed, before, op);
        assert After(cfg, Start(seed, auth), ops).events[|seed|..n] == before.events[|seed|..];
      }
    }
  }

  lemma StartHasSeed(seed: seq<Event>, auth: Authorization)
    ensures Start(seed, auth).events == seed
  {
  }

  lemma VersionsSeed(seed: seq<Event>, s: Root)
    requires VersionsOk(seed, s)
    ensures seed <= s.events
    ensures forall did :: VersionOk(s.events[|seed|..], s.latest, did)
  {
  }

  lemma PublishedTellsHistory(cfg: Config, seed: seq<Event>, s: Root, op: Op)
    requires op.Publish? && seed <= s.events && VersionOk(s.events[|seed|..], s.latest, op.req.agentDid)
    ensures var e, past := PublishEvent(cfg, s.events, s.latest, op.req, op.times), s.events[|seed|..];
      var last, hash := LastHash(past, e.core.subjectDid), RootInvariants.Text(Get(e.core.payload, "didDocumentHash"));
      && Get(e.core.payload, "operation") == Str(if last.None? then "create" else if last == Some(hash) then "no-op" else "update")
      && (e.core.eventType == AgentDidDocumentUpdated <==> last.Some? && last != Some(hash))
      && Get(e.core.payload, "documentVersion") == Number(Revisions(past + [e], e.core.subjectDid))
  {
    hide Revisions, LastHash, PublishEvent, DocumentHash;
    PayloadNamesRegistrar(cfg, s.events, s.latest, op.req, op.times);
    PublishEventReads(cfg, s.events, s.latest, op.req, op.times);
    PayloadOperation(cfg, s.events, s.latest, op.req, op.times);
    VersionSnoc(s.events[|seed|..], PublishEvent(cfg, s.events, s.latest, op.req, op.times), op.req.agentDid);
  }

  lemma PayloadOperation(cfg: Config, events: seq<Event>, latest: map<string, Latest>, req: Request, times: Times)
    ensures var e, hash := PublishEvent(cfg, events, latest, req, times), DocumentHash(cfg.c, req.document);
      && Get(e.core.payload, "operation") == Str(Operation(latest, req.agentDid, hash))
      && (e.core.eventType == AgentDidDocumentUpdated <==> Operation(latest, req.agentDid, hash) == "update")
      && Get(e.core.payload, "documentVersion") == Number(NextVersion(latest, req.agentDid, hash))
      && Get(e.core.payload, "capabilityTags") == Strings(CanonicalTags(cfg, req.document))
  {
    hide HashCore, DocumentHash, MetadataHash, Strings, CanonicalTags, NextVersion, PreviousHash, Operation;
  }

  lemma PayloadNamesRegistrar(cfg: Config, events: seq<Event>, latest: map<string, Latest>, req: Request, times: Times)
    ensures var e := PublishEvent(cfg, events, latest, req, times);
      && Get(e.core.payload, "registrarDid") == Str(req.registrarDid) && e.core.subjectDid == req.agentDid
      && Get(e.core.payload, "didDocumentHash") == Str(DocumentHash(cfg.c, req.document))
  {
    hide HashCore, DocumentHash, MetadataHash, Strings, CanonicalTags, NextVersion, PreviousHash, Operation;
  }

  /**
   A registrar stands after a run exactly when the start or an operation authorized it and the start does
   not revoke it: Root's own revocations are events of another type and take nothing from it.
   */
  lemma {:induction false} StandsIff(cfg: Config, s: Root, ops: seq<Op>, did: string)
    ensures AuthorizedIn(After(cfg, s, ops).events, did)
       <==> AuthorizedIn(s.events, did) || exists k :: 0 <= k < |ops| && ops[k].AuthorizeRegistrar? && ops[k].did == did
    ensures RevokedIn(After(cfg, s, ops).events, did) <==> RevokedIn(s.events, did)
  {
    hide Step, NewEvent, AuthorizedIn, RevokedIn;
    if ops != [] {
      var init, op := ops[..|ops| - 1], ops[|ops| - 1];
      var before := After(cfg, s, init);
      StandsIff(cfg, s, init, did);
      assert ops == init + [op];
      StepEvents(cfg, before, op);
      if NewEvent(cfg, before, op).Some? {
        NewEventType(cfg, before, op);
        OneEventMore(before.events, NewEvent(cfg, before, op).value, did);
      } else {
        AuthorizingIsNoted(cfg, before, op);
      }
    }
  }

  lemma AuthorizingIsNoted(cfg: Config, s: Root, op: Op)
    ensures op.AuthorizeRegistrar? ==> NewEvent(cfg, s, op).Some?
  {
  }

  /** Revoking a node, be it the registrar itself, changes the answer to no request. */
  lemma RevokingRefusesNothing(cfg: Config, s: Root, did: string, payload: Value, now: int, req: Request, times: Times)
    ensures Step(cfg, Step(cfg, s, RevokeNode(did, payload, now)).0, Publish(req, times)).1 == Step(cfg, s, Publish(req, times)).1
  {
    hide SignatureError, Published, AuthorizedIn, RevokedIn, Append, Revoked, IssuerKey, CredentialJson, HashJson, Parse;
    var op := RevokeNode(did, payload, now);
    StepEvents(cfg, s, op);
    NewEventType(cfg, s, op);
    OneEventMore(s.events, NewEvent(cfg, s, op).value, req.registrarDid);
    StandingDecides(cfg.c, s.events, Step(cfg, s, op).0.events, req);
  }

  /** Of the bulletin only the standing of the registrar matters to a request. */
  lemma StandingDecides(c: Suite, events: seq<Event>, other: seq<Event>, req: Request)
    requires Stands(events, req.registrarDid) == Stands(other, req.registrarDid)
    ensures RequestError(c, events, req) == RequestError(c, other, req)
  {
    hide IssuerKey, CredentialJson, HashJson, Parse;
    assert HasEvent(events, req.registrarDid, RegistrarAuthorized) == AuthorizedIn(events, req.registrarDid);
    assert HasEvent(other, req.registrarDid, RegistrarAuthorized) == AuthorizedIn(other, req.registrarDid);
    assert HasEvent(events, req.registrarDid, RegistrarRevoked) == RevokedIn(events, req.registrarDid);
    assert HasEvent(other, req.registrarDid, RegistrarRevoked) == RevokedIn(other, req.registrarDid);
  }

  lemma NewEventType(cfg: Config, s: Root, op: Op)
    requires NewEvent(cfg, s, op).Some?
    ensures var core := NewEvent(cfg, s, op).value.core;
      && core.eventType != RegistrarRevoked && (core.eventType == RegistrarAuthorized <==> op.AuthorizeRegistrar?)
      && (op.AuthorizeRegistrar? ==> core.subjectDid == op.did)
  {
    hide HashCore, DocumentHash, TryPublish, PreviousHash;
  }

  lemma OneEventMore(events: seq<Event>, e: Event, did: string)
    ensures AuthorizedIn(events + [e], did) <==> AuthorizedIn(events, did) || (e.core.subjectDid == did && e.core.eventType == RegistrarAuthorized)
    ensures RevokedIn(events + [e], did) <==> RevokedIn(events, did) || (e.core.subjectDid == did && e.core.eventType == RegistrarRevoked)
  {
    var longer := events + [e];
    assert forall i :: 0 <= i < |events| ==> longer[i] == events[i];
    assert longer[|events|] == e;
  }
}
