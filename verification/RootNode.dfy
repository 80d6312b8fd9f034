/**
 The Root node: the bulletin, the stores derived from it, and the handlers that change them. The
 handlers hold the node's lock, so each is one step.
 */
module RootNode {
  import opened CanonicalJson
  import opened Crypto
  import opened Bulletin
  import opened Documents
  import opened Packages
  import opened DidAns
  import opened Ordering
  import opened Utf8
  import opened Wrappers
  import CapabilityTree

  // ----- requests -----

  datatype CredentialProof = CredentialProof(creator: string, proofValue: string)

  /** A registration credential; `Malformed` stands for JSON that is no credential. */
  datatype Credential =
    | Malformed(json: Value)
    | Credential(issuer: string, subject: string, status: string, issuedAt: int, claims: Value, proof: Option<CredentialProof>)

  datatype Request = Request(
    registrarDid: string,
    registrarDocument: DidDocument,
    agentDid: string,
    document: DidDocument,
    metadata: Value,
    credential: Credential,
    timestamp: Option<int>,
    nonce: Option<string>,
    signature: Option<string>)

  datatype RootError =
    | InvalidRequestSignature
    | MissingIssuerVerificationMethod
    | InvalidIssuerKey
    | ReplayedRequestNonce
    | RegistrarNotAuthorized
    | InvalidDid
    | DidDocumentIdMismatch
    | InvalidDidDocumentStructure
    | InvalidSubjectType
    | InvalidServiceEndpoint
    | InvalidRegistrationCredential
    | InvalidCredentialSignature

  datatype Config = Config(c: Suite, rootDid: string, signingKey: string, tags: seq<CapabilityTree.Tag>)

  ghost function RootKey(cfg: Config): string {
    cfg.c.publicKey(cfg.signingKey)
  }

  // ----- stores -----

  datatype Latest = Latest(version: nat, documentHash: string, metadataHash: string, sequence: nat)

  datatype Archived = Archived(document: DidDocument, metadata: AgentMetadata, package: VerifiedPackage)

  datatype NodeAuth = NodeAuth(status: string, documentHash: string)

  datatype DiscoveryAuth = DiscoveryAuth(status: string, documentHash: string, domains: seq<string>)

  datatype Authorization = Authorization(
    registrars: map<string, NodeAuth>,
    discoveryNodes: map<string, DiscoveryAuth>,
    vcIssuers: map<string, NodeAuth>)

  /** The archive is keyed by directory and version, `verified` by file name. */
  datatype Root = Root(
    events: seq<Event>,
    latest: map<string, Latest>,
    archive: map<(string, nat), Archived>,
    verified: map<string, VerifiedPackage>,
    cdnQueue: seq<VerifiedPackage>,
    auth: Authorization,
    nonces: set<string>)

  // ----- checks of a publication request -----

  function CredentialJson(vc: Credential): Value {
    match vc
    case Malformed(json) => json
    case Credential(issuer, subject, status, issuedAt, claims, proof) =>
      var fields := map[
        "type" := Str("AgentRegistrationCredential"), "issuer" := Str(issuer), "subject" := Str(subject),
        "status" := Str(status), "issuedAt" := Number(issuedAt), "claims" := claims];
      Object(if proof.Some? then
          fields["proof" := Object(map["creator" := Str(proof.value.creator), "proofValue" := Str(proof.value.proofValue)])]
        else fields)
  }

  function IssuerKey(c: Suite, doc: DidDocument): Result<string, RootError> {
    match FindMethod(doc.verificationMethod, doc.assertionMethod, None)
    case None => Err(MissingIssuerVerificationMethod)
    case Some(m) =>
      var key := JwkFirstKey(c, m);
      if key.Some? then Ok(key.value) else Err(InvalidIssuerKey)
  }

  ghost function RequestPayload(c: Suite, req: Request): Value {
    Object(map[
      "registrarDid" := Str(req.registrarDid), "agentDid" := Str(req.agentDid),
      "didDocumentHash" := Str(HashJson(c, DocumentJson(req.document))), "metadataHash" := Str(HashJson(c, req.metadata)),
      "registrationCredential" := CredentialJson(req.credential), "requestTimestamp" := if req.timestamp.Some? then Number(req.timestamp.value) else Null,
      "requestNonce" := if req.nonce.Some? then Str(req.nonce.value) else Null])
  }

  /** `verify_request_signature`: a request without a signature passes. */
  ghost function SignatureError(c: Suite, req: Request): Option<RootError> {
    if req.signature.None? then None
    else match IssuerKey(c, req.registrarDocument)
      case Err(e) => Some(e)
      case Ok(key) =>
        if c.verify(key, HashJson(c, RequestPayload(c, req)), req.signature.value) then None else Some(InvalidRequestSignature)
  }

  predicate HasEvent(events: seq<Event>, did: string, t: EventType) {
    exists i :: 0 <= i < |events| && events[i].core.subjectDid == did && events[i].core.eventType == t
  }

  /** `verify_request` */
  ghost function RequestError(c: Suite, events: seq<Event>, req: Request): Option<RootError> {
    var doc, vc := req.document, req.credential;
    if !HasEvent(events, req.registrarDid, RegistrarAuthorized) || HasEvent(events, req.registrarDid, RegistrarRevoked) then
      Some(RegistrarNotAuthorized)
    else if Parse(req.agentDid).Err? then Some(InvalidDid)
    else if doc.id != req.agentDid then Some(DidDocumentIdMismatch)
    else if ValidateMvp(doc).Some? then Some(InvalidDidDocumentStructure)
    else if doc.ansMetadata.None? || doc.ansMetadata.value.subjectType != Agent then Some(InvalidSubjectType)
    else if doc.service == [] then Some(InvalidServiceEndpoint)
    else if vc.Malformed? || vc.issuer != req.registrarDid || vc.subject != req.agentDid || vc.status != "active" then
      Some(InvalidRegistrationCredential)
    else match IssuerKey(c, req.registrarDocument)
      case Err(e) => Some(e)
      case Ok(key) =>
        if vc.proof.Some? && c.verify(key, HashJson(c, CredentialJson(vc.(proof := None))), vc.proof.value.proofValue) then None
        else Some(InvalidCredentialSignature)
  }

  // ----- what a publication builds -----

  /** Normalized, sorted and without duplicates. */
  ghost function CanonicalTags(cfg: Config, doc: DidDocument): seq<string> {
    Listing(ByteLess, set tag | tag in CapabilityTags(doc) :: CapabilityTree.Normalized(cfg.tags, tag))
  }

  ghost function DocumentHash(c: Suite, doc: DidDocument): string {
    HashJson(c, DocumentJson(doc))
  }

  /** Times read from the clock during one publication. */
  datatype Times = Times(metadata: int, event: int, package: int)

  ghost function BuildMetadata(cfg: Config, req: Request, times: Times): AgentMetadata {
    AgentMetadata(req.agentDid, "Service Agent",
      if req.document.ansMetadata.Some? then req.document.ansMetadata.value.identityType else "",
      DocumentHash(cfg.c, req.document), CanonicalTags(cfg, req.document), req.document.service, "active", times.metadata)
  }

  ghost function MetadataHash(cfg: Config, req: Request, times: Times): string {
    HashJson(cfg.c, MetadataJson(BuildMetadata(cfg, req, times)))
  }

  function Operation(latest: map<string, Latest>, did: string, documentHash: string): string {
    if did !in latest then "create" else if latest[did].documentHash == documentHash then "no-op" else "update"
  }

  function NextVersion(latest: map<string, Latest>, did: string, documentHash: string): nat {
    (if did in latest then latest[did].version else 0) + if Operation(latest, did, documentHash) != "no-op" then 1 else 0
  }

  function AgentPayload(registrarDid: string, documentHash: string, metadataHash: string, version: nat, operation: string, tags: seq<string>): Value {
    Object(map[
      "registrarDid" := Str(registrarDid), "didDocumentHash" := Str(documentHash), "metadataHash" := Str(metadataHash),
      "documentVersion" := Number(version), "operation" := Str(operation), "capabilityTags" := Strings(tags)])
  }

  ghost function Append(cfg: Config, events: seq<Event>, t: EventType, did: string, payload: Value, now: int): Event {
    NextEvent(cfg.c, cfg.signingKey, cfg.rootDid, events, t, did, payload, now)
  }

  ghost function PublishEvent(cfg: Config, events: seq<Event>, latest: map<string, Latest>, req: Request, times: Times): Event {
    var hash := DocumentHash(cfg.c, req.document);
    var operation := Operation(latest, req.agentDid, hash);
    Append(cfg, events, if operation == "update" then AgentDidDocumentUpdated else AgentDidDocumentAnchored, req.agentDid,
      AgentPayload(req.registrarDid, hash, MetadataHash(cfg, req, times), NextVersion(latest, req.agentDid, hash), operation,
                   CanonicalTags(cfg, req.document)),
      times.event)
  }

  ghost function BuildPackage(cfg: Config, e: Event, req: Request, times: Times): VerifiedPackage {
    VerifiedPackage(req.agentDid, req.document, DocumentHash(cfg.c, req.document), Some(MetadataHash(cfg, req, times)),
      BuildMetadata(cfg, req, times),
      RootProof(cfg.rootDid, Some(e.eventHash), Some(cfg.c.sign(cfg.signingKey, e.eventHash))), times.package)
  }

  /** A request that passed every check is published. */
  ghost function Published(cfg: Config, s: Root, req: Request, times: Times): Root {
    var hash := DocumentHash(cfg.c, req.document);
    var version := NextVersion(s.latest, req.agentDid, hash);
    var e := PublishEvent(cfg, s.events, s.latest, req, times);
    var package := BuildPackage(cfg, e, req, times);
    s.(events := s.events + [e],
       archive := s.archive[(ArchiveStem(req.agentDid), version) := Archived(req.document, BuildMetadata(cfg, req, times), package)],
       verified := s.verified[DidToFileName(req.agentDid) := package],
       latest := s.latest[req.agentDid := Latest(version, hash, MetadataHash(cfg, req, times), e.core.sequence)],
       cdnQueue := Without(s.cdnQueue, req.agentDid) + [package])
  }

  // ----- authorization -----

  function AuthorizePayload(role: string, documentHash: string): Value {
    Object(map["targetRole" := Str(role), "didDocumentHash" := Str(documentHash)])
  }

  /** `update_authorization_state` without a discovery entry: a discovery role changes nothing. */
  function Routed(auth: Authorization, did: string, entry: NodeAuth, role: string): Authorization {
    if role in ["registrar", "Registrar", "Registrar Node"] then auth.(registrars := auth.registrars[did := entry])
    else if role in ["discovery", "Discovery", "Discovery Node"] then auth
    else if role in ["vc-issuer", "VC Issuer"] then auth.(vcIssuers := auth.vcIssuers[did := entry])
    else auth.(registrars := auth.registrars[did := entry])
  }

  function Revoked(auth: Authorization, did: string): Authorization {
    Authorization(
      if did in auth.registrars then auth.registrars[did := auth.registrars[did].(status := "revoked")] else auth.registrars,
      if did in auth.discoveryNodes then auth.discoveryNodes[did := auth.discoveryNodes[did].(status := "revoked")] else auth.discoveryNodes,
      if did in auth.vcIssuers then auth.vcIssuers[did := auth.vcIssuers[did].(status := "revoked")] else auth.vcIssuers)
  }

  /** The strings of `payload["authorizedDomains"]`. */
  function DomainsOf(payload: Value): seq<string> {
    var v := Get(payload, "authorizedDomains");
    if v.Array? then OnlyStrings(v.items) else []
  }

  function OnlyStrings(items: seq<Value>): seq<string> {
    if items == [] then [] else (if items[0].Str? then [items[0].s] else []) + OnlyStrings(items[1..])
  }

  /** Exactly the strings of the payload's list are domains. */
  lemma {:induction false} DomainsAreItsStrings(items: seq<Value>)
    ensures forall domain :: domain in OnlyStrings(items) <==> Str(domain) in items
  {
    if items != [] {
      DomainsAreItsStrings(items[1..]);
      assert items == [items[0]] + items[1..];
    }
  }

  lemma {:induction false} ListOfDomains(domains: seq<string>)
    ensures OnlyStrings(Strings(domains).items) == domains
    ensures DomainsOf(Object(map["authorizedDomains" := Strings(domains)])) == domains
  {
    if domains != [] {
      ListOfDomains(domains[1..]);
      assert Strings(domains).items[1..] == Strings(domains[1..]).items;
    }
  }

  function WithDomains(auth: Authorization, did: string, domains: seq<string>): Authorization {
    if did in auth.discoveryNodes then
      auth.(discoveryNodes := auth.discoveryNodes[did := auth.discoveryNodes[did].(domains := domains)])
    else auth
  }

  // ----- steps -----

  datatype Op =
    | Publish(req: Request, times: Times)
    | AuthorizeRegistrar(did: string, role: string, document: DidDocument, now: int)
    | AuthorizeDiscovery(did: string, role: string, document: DidDocument, now: int)
    | UpdateDomains(did: string, payload: Value, now: int)
    | RevokeNode(did: string, payload: Value, now: int)
    | MarkPublished(did: string)

  ghost function TryPublish(cfg: Config, s: Root, req: Request, times: Times): (Root, Option<RootError>) {
    if SignatureError(cfg.c, req).Some? then (s, SignatureError(cfg.c, req))
    else if req.nonce.Some? && req.nonce.value in s.nonces then (s, Some(ReplayedRequestNonce))
    else
      var s1 := if req.nonce.Some? then s.(nonces := s.nonces + {req.nonce.value}) else s;
      if RequestError(cfg.c, s.events, req).Some? then (s1, RequestError(cfg.c, s.events, req))
      else (Published(cfg, s1, req, times), None)
  }

  ghost function Step(cfg: Config, s: Root, op: Op): (Root, Option<RootError>) {
    match op
    case Publish(req, times) => TryPublish(cfg, s, req, times)
    case AuthorizeRegistrar(did, role, document, now) =>
      var hash := DocumentHash(cfg.c, document);
      (s.(events := s.events + [Append(cfg, s.events, RegistrarAuthorized, did, AuthorizePayload(role, hash), now)],
          auth := Routed(s.auth, did, NodeAuth("active", hash), role)), None)
    case AuthorizeDiscovery(did, role, document, now) =>
      var hash := DocumentHash(cfg.c, document);
      (s.(events := s.events + [Append(cfg, s.events, DiscoveryNodeAuthorized, did, AuthorizePayload(role, hash), now)],
          auth := s.auth.(discoveryNodes := s.auth.discoveryNodes[did := DiscoveryAuth("active", hash, ["*"])])), None)
    case UpdateDomains(did, payload, now) =>
      (s.(events := s.events + [Append(cfg, s.events, DiscoveryNodeDomainsUpdated, did, payload, now)],
          auth := WithDomains(s.auth, did, DomainsOf(payload))), None)
    case RevokeNode(did, payload, now) =>
      (s.(events := s.events + [Append(cfg, s.events, NodeRevoked, did, payload, now)], auth := Revoked(s.auth, did)), None)
    case MarkPublished(did) => (s.(cdnQueue := Without(s.cdnQueue, did)), None)
  }

  /** A node started on a bulletin and authorization maps it was given. */
  function Start(seed: seq<Event>, auth: Authorization): Root {
    Root(seed, map[], map[], map[], [], auth, {})
  }

  ghost function After(cfg: Config, s: Root, ops: seq<Op>): Root {
    if ops == [] then s else Step(cfg, After(cfg, s, ops[..|ops| - 1]), ops[|ops| - 1]).0
  }
}
