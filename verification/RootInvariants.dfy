/**
 What every run of the Root node keeps: the chain, the stores as replays of the bulletin, the
 version rule and the request nonces.
 */
module RootInvariants {
  import opened CanonicalJson
  import opened Crypto
  import opened Bulletin
  import opened Documents
  import opened Wrappers
  import opened RootNode

  // ----- the bulletin -----

  /** The event a step appends, if it appends one. */
  ghost function NewEvent(cfg: Config, s: Root, op: Op): Option<Event> {
    match op
    case Publish(req, times) =>
      if TryPublish(cfg, s, req, times).1.None? then Some(PublishEvent(cfg, s.events, s.latest, req, times)) else None
    case AuthorizeRegistrar(did, role, document, now) =>
      Some(Append(cfg, s.events, RegistrarAuthorized, did, AuthorizePayload(role, DocumentHash(cfg.c, document)), now))
    case AuthorizeDiscovery(did, role, document, now) =>
      Some(Append(cfg, s.events, DiscoveryNodeAuthorized, did, AuthorizePayload(role, DocumentHash(cfg.c, document)), now))
    case UpdateDomains(did, payload, now) => Some(Append(cfg, s.events, DiscoveryNodeDomainsUpdated, did, payload, now))
    case RevokeNode(did, payload, now) => Some(Append(cfg, s.events, EventType.NodeRevoked, did, payload, now))
    case MarkPublished(_) => None
  }

  lemma StepEvents(cfg: Config, s: Root, op: Op)
    ensures var e := NewEvent(cfg, s, op);
      Step(cfg, s, op).0.events == if e.Some? then s.events + [e.value] else s.events
  {
    hide PublishEvent, Append, SignatureError, RequestError, BuildPackage;
  }

  lemma NewEventContinues(cfg: Config, s: Root, op: Op)
    requires NewEvent(cfg, s, op).Some?
    ensures var e := NewEvent(cfg, s, op).value;
      && e == Sign(cfg.c, cfg.signingKey, e.core)
      && e.core.sequence == |s.events| + 1 && e.core.previousHash == PreviousHash(s.events)
  {
    hide HashCore, TryPublish;
  }

  lemma ChainStepOk(cfg: Config, s: Root, op: Op)
    requires Ideal(cfg.c) && ChainOk(cfg.c, RootKey(cfg), s.events)
    ensures ChainOk(cfg.c, RootKey(cfg), Step(cfg, s, op).0.events)
  {
    hide Ideal, ChainOk, Step, NewEvent;
    StepEvents(cfg, s, op);
    if NewEvent(cfg, s, op).Some? {
      NewEventContinues(cfg, s, op);
      AppendPasses(cfg.c, cfg.signingKey, s.events, NewEvent(cfg, s, op).value.core);
    }
  }

  /** A bulletin Root grows from a passing one passes, and only ever grows. */
  lemma {:induction false} EveryBulletinPasses(cfg: Config, s: Root, ops: seq<Op>)
    requires Ideal(cfg.c) && ChainOk(cfg.c, RootKey(cfg), s.events)
    ensures ChainOk(cfg.c, RootKey(cfg), After(cfg, s, ops).events)
    ensures s.events <= After(cfg, s, ops).events
  {
    hide Ideal, ChainOk, Step;
    if ops != [] {
      var init := ops[..|ops| - 1];
      EveryBulletinPasses(cfg, s, init);
      ChainStepOk(cfg, After(cfg, s, init), ops[|ops| - 1]);
      StepEvents(cfg, After(cfg, s, init), ops[|ops| - 1]);
    }
  }

  // ----- replays -----

  predicate IsAgentEvent(e: Event) {
    e.core.eventType == AgentDidDocumentAnchored || e.core.eventType == AgentDidDocumentUpdated
  }

  function Text(v: Value): string {
    if v.Str? then v.s else ""
  }

  function Natural(v: Value): nat {
    if v.Number? && v.n >= 0 then v.n else 0
  }

  function LatestOf(e: Event): Latest {
    var p := e.core.payload;
    Latest(Natural(Get(p, "documentVersion")), Text(Get(p, "didDocumentHash")), Text(Get(p, "metadataHash")), e.core.sequence)
  }

  /** The version index read off the agent events. */
  function ReplayLatest(events: seq<Event>): map<string, Latest> {
    if events == [] then map[]
    else
      var before, e := ReplayLatest(events[..|events| - 1]), events[|events| - 1];
      if IsAgentEvent(e) then before[e.core.subjectDid := LatestOf(e)] else before
  }

  /** The authorization maps read off the authorization events. */
  function ReplayAuth(auth: Authorization, events: seq<Event>): Authorization {
    if events == [] then auth
    else
      var before, e := ReplayAuth(auth, events[..|events| - 1]), events[|events| - 1];
      var did, p := e.core.subjectDid, e.core.payload;
      match e.core.eventType
      case RegistrarAuthorized => Routed(before, did, NodeAuth("active", Text(Get(p, "didDocumentHash"))), Text(Get(p, "targetRole")))
      case DiscoveryNodeAuthorized =>
        before.(discoveryNodes := before.discoveryNodes[did := DiscoveryAuth("active", Text(Get(p, "didDocumentHash")), ["*"])])
      case DiscoveryNodeDomainsUpdated => WithDomains(before, did, DomainsOf(p))
      case NodeRevoked => Revoked(before, did)
      case _ => before
  }

  /** The stores of a node started on `seed` and `auth` are replays of what it appended. */
  ghost predicate IsReplay(seed: seq<Event>, auth: Authorization, s: Root) {
    && seed <= s.events
    && s.latest == ReplayLatest(s.events[|seed|..])
    && s.auth == ReplayAuth(auth, s.events[|seed|..])
  }

  lemma ReplaySnoc(auth: Authorization, events: seq<Event>, e: Event)
    ensures ReplayLatest(events + [e])
         == if IsAgentEvent(e) then ReplayLatest(events)[e.core.subjectDid := LatestOf(e)] else ReplayLatest(events)
    ensures ReplayAuth(auth, events + [e]) == ReplayAuth(ReplayAuth(auth, events), [e])
  {
    assert (events + [e])[..|events|] == events;
    assert [e][..0] == [];
  }

  lemma PublishEventReads(cfg: Config, events: seq<Event>, latest: map<string, Latest>, req: Request, times: Times)
    ensures var e, hash := PublishEvent(cfg, events, latest, req, times), DocumentHash(cfg.c, req.document);
      && IsAgentEvent(e) && e.core.subjectDid == req.agentDid && e.core.sequence == |events| + 1
      && LatestOf(e) == Latest(NextVersion(latest, req.agentDid, hash), hash, MetadataHash(cfg, req, times), |events| + 1)
      && Text(Get(e.core.payload, "didDocumentHash")) == hash
  {
    hide HashCore, DocumentHash, MetadataHash, Strings, CanonicalTags, NextVersion, PreviousHash, Operation;
  }

  lemma AuthorizeReads(role: string, hash: string)
    ensures Text(Get(AuthorizePayload(role, hash), "didDocumentHash")) == hash
    ensures Text(Get(AuthorizePayload(role, hash), "targetRole")) == role
  {
  }

  lemma ReplayOne(cfg: Config, s: Root, op: Op)
    requires NewEvent(cfg, s, op).Some?
    ensures var e, s' := NewEvent(cfg, s, op).value, Step(cfg, s, op).0;
      && s'.latest == (if IsAgentEvent(e) then s.latest[e.core.subjectDid := LatestOf(e)] else s.latest)
      && s'.auth == ReplayAuth(s.auth, [e])
  {
    hide HashCore, DocumentHash, Append, PublishEvent, LatestOf, Routed, Revoked, DomainsOf, TryPublish;
    assert [NewEvent(cfg, s, op).value][..0] == [];
    match op
    case Publish(req, times) => ReplayPublish(cfg, s, req, times);
    case AuthorizeRegistrar(did, role, document, now) =>
      AuthorizeReads(role, DocumentHash(cfg.c, document));
      AppendReads(cfg, s.events, RegistrarAuthorized, did, AuthorizePayload(role, DocumentHash(cfg.c, document)), now);
    case AuthorizeDiscovery(did, role, document, now) =>
      AuthorizeReads(role, DocumentHash(cfg.c, document));
      AppendReads(cfg, s.events, DiscoveryNodeAuthorized, did, AuthorizePayload(role, DocumentHash(cfg.c, document)), now);
    case UpdateDomains(did, payload, now) => AppendReads(cfg, s.events, DiscoveryNodeDomainsUpdated, did, payload, now);
    case RevokeNode(did, payload, now) => AppendReads(cfg, s.events, EventType.NodeRevoked, did, payload, now);
  }

  lemma AppendReads(cfg: Config, events: seq<Event>, t: EventType, did: string, payload: Value, now: int)
    ensures var core := Append(cfg, events, t, did, payload, now).core;
      core.eventType == t && core.subjectDid == did && core.payload == payload
  {
  }

  lemma ReplayPublish(cfg: Config, s: Root, req: Request, times: Times)
    requires TryPublish(cfg, s, req, times).1.None?
    ensures var e, s' := PublishEvent(cfg, s.events, s.latest, req, times), TryPublish(cfg, s, req, times).0;
      && IsAgentEvent(e) && s'.latest == s.latest[e.core.subjectDid := LatestOf(e)]
      && s'.auth == s.auth == ReplayAuth(s.auth, [e])
  {
    hide PublishEvent, LatestOf, SignatureError, RequestError, DocumentHash, MetadataHash, BuildPackage, NextVersion;
    PublishEventReads(cfg, s.events, s.latest, req, times);
    assert [PublishEvent(cfg, s.events, s.latest, req, times)][..0] == [];
  }

  lemma SilentStep(cfg: Config, s: Root, op: Op)
    requires NewEvent(cfg, s, op).None?
    ensures var s' := Step(cfg, s, op).0; s'.latest == s.latest && s'.auth == s.auth && s'.archive == s.archive && s'.verified == s.verified
  {
    hide SignatureError, RequestError, PublishEvent, Append, Published;
  }

  lemma ReplayStepOk(cfg: Config, seed: seq<Event>, auth: Authorization, s: Root, op: Op)
    requires IsReplay(seed, auth, s)
    ensures IsReplay(seed, auth, Step(cfg, s, op).0)
  {
    hide Step, NewEvent, ReplayLatest, ReplayAuth, LatestOf;
    StepEvents(cfg, s, op);
    if NewEvent(cfg, s, op).Some? {
      var e, appended := NewEvent(cfg, s, op).value, s.events[|seed|..];
      ReplayOne(cfg, s, op);
      ReplaySnoc(auth, appended, e);
      assert (s.events + [e])[|seed|..] == appended + [e];
    } else {
      SilentStep(cfg, s, op);
    }
  }

  /** In every reachable state the version index and the authorization maps are replays of the bulletin. */
  lemma {:induction false} StoresAreReplays(cfg: Config, seed: seq<Event>, auth: Authorization, ops: seq<Op>)
    ensures IsReplay(seed, auth, After(cfg, Start(seed, auth), ops))
  {
    hide Step, IsReplay;
    if ops == [] {
      StartIsReplay(seed, auth);
    } else {
      var init := ops[..|ops| - 1];
      StoresAreReplays(cfg, seed, auth, init);
      ReplayStepOk(cfg, seed, auth, After(cfg, Start(seed, auth), init), ops[|ops| - 1]);
    }
  }

  lemma StartIsReplay(seed: seq<Event>, auth: Authorization)
    ensures IsReplay(seed, auth, Start(seed, auth))
  {
    assert seed[|seed|..] == [];
  }

  // ----- versions -----

  /** The document hash of the last agent event for a DID. */
  function LastHash(events: seq<Event>, did: string): Option<string> {
    if events == [] then None
    else
      var e := events[|events| - 1];
      if IsAgentEvent(e) && e.core.subjectDid == did then Some(Text(Get(e.core.payload, "didDocumentHash")))
      else LastHash(events[..|events| - 1], did)
  }

  /** How often the document hash of a DID changed, its first publication included. */
  function Revisions(events: seq<Event>, did: string): nat {
    if events == [] then 0
    else
      var init, e := events[..|events| - 1], events[|events| - 1];
      Revisions(init, did)
      + if IsAgentEvent(e) && e.core.subjectDid == did && LastHash(init, did) != Some(Text(Get(e.core.payload, "didDocumentHash"))) then 1 else 0
  }

  ghost predicate VersionOk(events: seq<Event>, latest: map<string, Latest>, did: string) {
    if did in latest then
      LastHash(events, did) == Some(latest[did].documentHash) && latest[did].version == Revisions(events, did) >= 1
    else
      LastHash(events, did).None? && Revisions(events, did) == 0
  }

  ghost predicate VersionsOk(seed: seq<Event>, s: Root) {
    seed <= s.events && forall did :: VersionOk(s.events[|seed|..], s.latest, did)
  }

  lemma VersionSnoc(events: seq<Event>, e: Event, did: string)
    ensures var mine := IsAgentEvent(e) && e.core.subjectDid == did;
      var hash := Text(Get(e.core.payload, "didDocumentHash"));
      && LastHash(events + [e], did) == (if mine then Some(hash) else LastHash(events, did))
      && Revisions(events + [e], did) == Revisions(events, did) + if mine && LastHash(events, did) != Some(hash) then 1 else 0
  {
    assert (events + [e])[..|events|] == events;
  }

  lemma VersionStepOk(cfg: Config, seed: seq<Event>, s: Root, op: Op)
    requires VersionsOk(seed, s)
    ensures VersionsOk(seed, Step(cfg, s, op).0)
  {
    hide Step, NewEvent, LatestOf, VersionOk;
    StepEvents(cfg, s, op);
    var s' := Step(cfg, s, op).0;
    if NewEvent(cfg, s, op).Some? {
      var e, appended := NewEvent(cfg, s, op).value, s.events[|seed|..];
      assert (s.events + [e])[|seed|..] == appended + [e];
      ReplayOne(cfg, s, op);
      forall did ensures VersionOk(appended + [e], s'.latest, did) {
        assert VersionOk(appended, s.latest, did);
        if IsAgentEvent(e) && e.core.subjectDid == did {
          OwnVersion(cfg, appended, s, op, did);
        } else {
          OtherVersion(appended, e, s.latest, s'.latest, did);
        }
      }
    } else {
      SilentStep(cfg, s, op);
    }
  }

  lemma OtherVersion(events: seq<Event>, e: Event, latest: map<string, Latest>, latest': map<string, Latest>, did: string)
    requires VersionOk(events, latest, did) && !(IsAgentEvent(e) && e.core.subjectDid == did)
    requires (did in latest <==> did in latest') && (did in latest ==> latest'[did] == latest[did])
    ensures VersionOk(events + [e], latest', did)
  {
    VersionSnoc(events, e, did);
  }

  lemma OnlyPublishIsAgent(cfg: Config, s: Root, op: Op)
    requires NewEvent(cfg, s, op).Some? && IsAgentEvent(NewEvent(cfg, s, op).value)
    ensures op.Publish? && NewEvent(cfg, s, op).value == PublishEvent(cfg, s.events, s.latest, op.req, op.times)
  {
    hide HashCore, DocumentHash, PublishEvent, TryPublish, PreviousHash;
  }

  lemma OwnVersion(cfg: Config, events: seq<Event>, s: Root, op: Op, did: string)
    requires NewEvent(cfg, s, op).Some? && IsAgentEvent(NewEvent(cfg, s, op).value) && NewEvent(cfg, s, op).value.core.subjectDid == did
    requires VersionOk(events, s.latest, did)
    ensures VersionOk(events + [NewEvent(cfg, s, op).value], s.latest[did := LatestOf(NewEvent(cfg, s, op).value)], did)
  {
    hide NewEvent, PublishEvent, LatestOf, DocumentHash, MetadataHash;
    OnlyPublishIsAgent(cfg, s, op);
    PublishEventReads(cfg, s.events, s.latest, op.req, op.times);
    VersionSnoc(events, NewEvent(cfg, s, op).value, did);
  }

  /** Per DID the version is the number of times its document changed: it starts at 1 and rises by one per change. */
  lemma {:induction false} VersionsCountChanges(cfg: Config, seed: seq<Event>, auth: Authorization, ops: seq<Op>)
    ensures VersionsOk(seed, After(cfg, Start(seed, auth), ops))
  {
    hide Step, VersionsOk;
    if ops == [] {
      StartVersionsOk(seed, auth);
    } else {
      var init := ops[..|ops| - 1];
      VersionsCountChanges(cfg, seed, auth, init);
      VersionStepOk(cfg, seed, After(cfg, Start(seed, auth), init), ops[|ops| - 1]);
    }
  }

  lemma StartVersionsOk(seed: seq<Event>, auth: Authorization)
    ensures VersionsOk(seed, Start(seed, auth))
  {
    assert seed[|seed|..] == [];
  }

  // ----- request nonces -----

  /** The request came as far as the nonce check: its nonce is spent, whatever the checks after it say. */
  ghost predicate SpendsNonce(cfg: Config, op: Op, nonce: string) {
    op.Publish? && op.req.nonce == Some(nonce) && SignatureError(cfg.c, op.req).None?
  }

  lemma {:induction false} NoncesOnlyGrow(cfg: Config, s: Root, ops: seq<Op>, n: nat)
    requires n <= |ops|
    ensures After(cfg, s, ops[..n]).nonces <= After(cfg, s, ops).nonces
  {
    hide SignatureError, RequestError, Append, PublishEvent, BuildPackage;
    if n < |ops| {
      assert ops[..|ops| - 1][..n] == ops[..n];
      NoncesOnlyGrow(cfg, s, ops[..|ops| - 1], n);
    } else {
      assert ops[..n] == ops;
    }
  }

  /** In no run does a second request with a spent nonce get through. */
  lemma NonceSpentOnce(cfg: Config, s: Root, ops: seq<Op>, i: nat, j: nat, nonce: string)
    requires i < j < |ops| && SpendsNonce(cfg, ops[i], nonce) && SpendsNonce(cfg, ops[j], nonce)
    ensures Step(cfg, After(cfg, s, ops[..j]), ops[j]) == (After(cfg, s, ops[..j]), Some(ReplayedRequestNonce))
  {
    hide SignatureError, RequestError, Append, PublishEvent, BuildPackage;
    assert ops[..i + 1][..i] == ops[..i] && ops[..j][..i + 1] == ops[..i + 1];
    assert nonce in After(cfg, s, ops[..i + 1]).nonces;
    NoncesOnlyGrow(cfg, s, ops[..j], i + 1);
  }
}
