/**
 The handlers of the Root node as they change its stores one after the other.
 */
module RootService {
  import opened CanonicalJson
  import opened Crypto
  import opened Bulletin
  import opened Documents
  import opened Packages
  import opened DidAns
  import opened Ordering
  import opened Utf8
  import opened Wrappers
  import opened RootNode
  import CapabilityTree

  class Service {
    const cfg: Config
    const hashJson: Value -> string
    var events: seq<Event>
    var latest: map<string, Latest>
    var archive: map<(string, nat), Archived>
    var verified: map<string, VerifiedPackage>
    var cdnQueue: seq<VerifiedPackage>
    var auth: Authorization
    var nonces: set<string>

    ghost predicate Valid() {
      forall v :: hashJson(v) == HashJson(cfg.c, v)
    }

    function Now(): Root
      reads this
    {
      Root(events, latest, archive, verified, cdnQueue, auth, nonces)
    }

    constructor (cfg: Config, hashJson: Value -> string, seed: seq<Event>, auth: Authorization)
      requires forall v :: hashJson(v) == HashJson(cfg.c, v)
      ensures Valid() && this.cfg == cfg && Now() == Start(seed, auth)
    {
      this.cfg, this.hashJson := cfg, hashJson;
      events, latest, archive, verified, cdnQueue, this.auth, nonces := seed, map[], map[], map[], [], auth, {};
    }

    method AppendEvent(eventType: EventType, subjectDid: string, payload: Value, now: int) returns (event: Event)
      requires Valid()
      modifies this`events
      ensures event == Append(cfg, old(events), eventType, subjectDid, payload, now)
      ensures events == old(events) + [event]
    {
      hide HashJson, CoreJson;
      var previousHash: Option<string> := if events == [] then None else Some(events[|events| - 1].eventHash);
      var core := EventCore(|events| + 1, previousHash, eventType, subjectDid, cfg.rootDid, payload, now);
      var eventHash := hashJson(CoreJson(core));
      event := Event(core, eventHash, cfg.c.sign(cfg.signingKey, eventHash));
      events := events + [event];
    }

    method VerifyRequestSignature(req: Request) returns (error: Option<RootError>)
      requires Valid()
      ensures error == SignatureError(cfg.c, req)
    {
      hide HashJson, CredentialJson, DocumentJson;
      if req.signature.None? {
        return None;
      }
      var key := IssuerKey(cfg.c, req.registrarDocument);
      if key.Err? {
        return Some(key.error);
      }
      var payload := Object(map[
        "registrarDid" := Str(req.registrarDid), "agentDid" := Str(req.agentDid),
        "didDocumentHash" := Str(hashJson(DocumentJson(req.document))), "metadataHash" := Str(hashJson(req.metadata)),
        "registrationCredential" := CredentialJson(req.credential),
        "requestTimestamp" := if req.timestamp.Some? then Number(req.timestamp.value) else Null,
        "requestNonce" := if req.nonce.Some? then Str(req.nonce.value) else Null]);
      assert payload == RequestPayload(cfg.c, req);
      return if cfg.c.verify(key.value, hashJson(payload), req.signature.value) then None else Some(InvalidRequestSignature);
    }

    method VerifyRequest(req: Request) returns (error: Option<RootError>)
      requires Valid()
      ensures error == RequestError(cfg.c, events, req)
    {
      hide HashJson, CredentialJson, HasEvent, IssuerKey, Parse, ValidateMvp;
      if !HasEvent(events, req.registrarDid, RegistrarAuthorized) || HasEvent(events, req.registrarDid, RegistrarRevoked) {
        return Some(RegistrarNotAuthorized);
      }
      if Parse(req.agentDid).Err? {
        return Some(InvalidDid);
      }
      if req.document.id != req.agentDid {
        return Some(DidDocumentIdMismatch);
      }
      if ValidateMvp(req.document).Some? {
        return Some(InvalidDidDocumentStructure);
      }
      if req.document.ansMetadata.None? || req.document.ansMetadata.value.subjectType != Agent {
        return Some(InvalidSubjectType);
      }
      if req.document.service == [] {
        return Some(InvalidServiceEndpoint);
      }
      var vc := req.credential;
      if vc.Malformed? || vc.issuer != req.registrarDid || vc.subject != req.agentDid || vc.status != "active" {
        return Some(InvalidRegistrationCredential);
      }
      var key := IssuerKey(cfg.c, req.registrarDocument);
      if key.Err? {
        return Some(key.error);
      }
      if vc.proof.None? || !cfg.c.verify(key.value, hashJson(CredentialJson(vc.(proof := None))), vc.proof.value.proofValue) {
        return Some(InvalidCredentialSignature);
      }
      return None;
    }

    method SortedTags(doc: DidDocument) returns (tags: seq<string>)
      ensures tags == CanonicalTags(cfg, doc)
    {
      ByteLessTotal();
      var normalized := set tag | tag in CapabilityTags(doc) :: CapabilityTree.Normalized(cfg.tags, tag);
      tags := Sort(ByteLess, normalized);
    }

    method VerifyAndPublish(req: Request, times: Times) returns (error: Option<RootError>)
      requires Valid()
      modifies this
      ensures (Now(), error) == Step(cfg, old(Now()), Publish(req, times))
    {
      hide HashJson, SignatureError, RequestError, Published;
      error := VerifyRequestSignature(req);
      if error.Some? {
        return;
      }
      if req.nonce.Some? {
        if req.nonce.value in nonces {
          return Some(ReplayedRequestNonce);
        }
        nonces := nonces + {req.nonce.value};
      }
      error := VerifyRequest(req);
      if error.Some? {
        return;
      }
      PublishAccepted(req, times);
    }

    /** The writes of an accepted publication, in the order the handler makes them. */
    method PublishAccepted(req: Request, times: Times)
      requires Valid()
      modifies this
      ensures Now() == Published(cfg, old(Now()), req, times)
    {
      hide HashJson, DocumentJson, MetadataJson, CanonicalTags, Append, ArchiveStem, DidToFileName, Without;
      var documentHash := hashJson(DocumentJson(req.document));
      var tags := SortedTags(req.document);
      var identityType := if req.document.ansMetadata.Some? then req.document.ansMetadata.value.identityType else "";
      var metadata := AgentMetadata(req.agentDid, "Service Agent", identityType, documentHash, tags, req.document.service, "active", times.metadata);
      var metadataHash := hashJson(MetadataJson(metadata));
      var operation := Operation(latest, req.agentDid, documentHash);
      var version := NextVersion(latest, req.agentDid, documentHash);
      var eventType := if operation == "update" then AgentDidDocumentUpdated else AgentDidDocumentAnchored;
      var event := AppendEvent(eventType, req.agentDid,
        AgentPayload(req.registrarDid, documentHash, metadataHash, version, operation, tags), times.event);
      var package := VerifiedPackage(req.agentDid, req.document, documentHash, Some(metadataHash), metadata,
        RootProof(cfg.rootDid, Some(event.eventHash), Some(cfg.c.sign(cfg.signingKey, event.eventHash))), times.package);
      archive := archive[(ArchiveStem(req.agentDid), version) := Archived(req.document, metadata, package)];
      verified := verified[DidToFileName(req.agentDid) := package];
      latest := latest[req.agentDid := Latest(version, documentHash, metadataHash, event.core.sequence)];
      cdnQueue := Without(cdnQueue, package.did);
      cdnQueue := cdnQueue + [package];
    }

    method AuthorizeRegistrarNode(did: string, role: string, document: DidDocument, now: int)
      requires Valid()
      modifies this
      ensures Now() == Step(cfg, old(Now()), AuthorizeRegistrar(did, role, document, now)).0
    {
      hide HashJson, DocumentJson, Append, Routed;
      var documentHash := hashJson(DocumentJson(document));
      var event := AppendEvent(RegistrarAuthorized, did, AuthorizePayload(role, documentHash), now);
      auth := Routed(auth, did, NodeAuth("active", documentHash), role);
    }

    method AuthorizeDiscoveryNode(did: string, role: string, document: DidDocument, now: int)
      requires Valid()
      modifies this
      ensures Now() == Step(cfg, old(Now()), AuthorizeDiscovery(did, role, document, now)).0
    {
      hide HashJson, DocumentJson, Append;
      var documentHash := hashJson(DocumentJson(document));
      var event := AppendEvent(DiscoveryNodeAuthorized, did, AuthorizePayload(role, documentHash), now);
      auth := auth.(discoveryNodes := auth.discoveryNodes[did := DiscoveryAuth("active", documentHash, ["*"])]);
    }

    method UpdateDiscoveryDomains(did: string, payload: Value, now: int)
      requires Valid()
      modifies this
      ensures Now() == Step(cfg, old(Now()), UpdateDomains(did, payload, now)).0
    {
      hide Append;
      var domains := DomainsOf(payload);
      var event := AppendEvent(DiscoveryNodeDomainsUpdated, did, payload, now);
      if did in auth.discoveryNodes {
        var entry := auth.discoveryNodes[did].(domains := domains);
        auth := auth.(discoveryNodes := auth.discoveryNodes[did := entry]);
      }
    }

    method Revoke(did: string, payload: Value, now: int)
      requires Valid()
      modifies this
      ensures Now() == Step(cfg, old(Now()), RevokeNode(did, payload, now)).0
    {
      hide Append;
      var event := AppendEvent(EventType.NodeRevoked, did, payload, now);
      if did in auth.registrars {
        auth := auth.(registrars := auth.registrars[did := auth.registrars[did].(status := "revoked")]);
      }
      if did in auth.discoveryNodes {
        auth := auth.(discoveryNodes := auth.discoveryNodes[did := auth.discoveryNodes[did].(status := "revoked")]);
      }
      if did in auth.vcIssuers {
        auth := auth.(vcIssuers := auth.vcIssuers[did := auth.vcIssuers[did].(status := "revoked")]);
      }
    }

    method MarkCdnQueuePublished(did: string)
      modifies this
      ensures Now() == Step(cfg, old(Now()), MarkPublished(did)).0
    {
      cdnQueue := Without(cdnQueue, did);
    }
  }
}
