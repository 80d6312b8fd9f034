/**
 Verified packages and the checks a Discovery node makes of one against a bulletin.
 */
module Packages {
  import opened CanonicalJson
  import opened Crypto
  import opened Bulletin
  import opened Documents
  import opened Wrappers
  import CapabilityTree

  datatype AgentMetadata = AgentMetadata(
    did: string,
    role: string,
    identityType: string,
    documentHash: string,
    capabilityTags: seq<string>,
    services: seq<ServiceEndpoint>,
    status: string,
    updatedAt: int)

  datatype RootProof = RootProof(rootDid: string, bulletinEventHash: Option<string>, signature: Option<string>)

  datatype VerifiedPackage = VerifiedPackage(
    did: string,
    document: DidDocument,
    documentHash: string,
    metadataHash: Option<string>,
    metadata: AgentMetadata,
    rootProof: RootProof,
    createdAt: int)

  // ----- lists of packages -----

  /** `retain(|item| item.did != did)` */
  function Without(queue: seq<VerifiedPackage>, did: string): (r: seq<VerifiedPackage>) {
    if queue == [] then []
    else if queue[0].did == did then Without(queue[1..], did)
    else [queue[0]] + Without(queue[1..], did)
  }

  ghost predicate OnePerDid(queue: seq<VerifiedPackage>) {
    forall i, j :: 0 <= i < j < |queue| ==> queue[i].did != queue[j].did
  }

  lemma {:induction false} WithoutMembers(queue: seq<VerifiedPackage>, did: string, p: VerifiedPackage)
    ensures p in Without(queue, did) <==> p in queue && p.did != did
  {
    if queue != [] {
      WithoutMembers(queue[1..], did, p);
      assert queue == [queue[0]] + queue[1..];
    }
  }

  lemma {:induction false} WithoutOnePerDid(queue: seq<VerifiedPackage>, did: string)
    requires OnePerDid(queue)
    ensures OnePerDid(Without(queue, did))
  {
    if queue != [] {
      WithoutOnePerDid(queue[1..], did);
      var rest := Without(queue[1..], did);
      forall j | 0 <= j < |rest| ensures queue[0].did != rest[j].did {
        WithoutMembers(queue[1..], did, rest[j]);
        var k :| 0 <= k < |queue[1..]| && queue[1..][k] == rest[j];
        assert queue[k + 1] == rest[j];
      }
    }
  }

  // ----- the checks -----

  function MetadataJson(m: AgentMetadata): Value {
    Object(map[
      "did" := Str(m.did), "role" := Str(m.role), "identityType" := Str(m.identityType),
      "didDocumentHash" := Str(m.documentHash), "capabilityTags" := Strings(m.capabilityTags),
      "services" := Array(ServicesJson(m.services)), "status" := Str(m.status), "updatedAt" := Number(m.updatedAt)])
  }

  lemma MetadataFields(m: AgentMetadata)
    ensures var x := MetadataJson(m).fields;
      && At(x, "did") == Some(Str(m.did)) && At(x, "role") == Some(Str(m.role)) && At(x, "identityType") == Some(Str(m.identityType))
      && At(x, "didDocumentHash") == Some(Str(m.documentHash)) && At(x, "capabilityTags") == Some(Strings(m.capabilityTags))
      && At(x, "services") == Some(Array(ServicesJson(m.services))) && At(x, "status") == Some(Str(m.status))
      && At(x, "updatedAt") == Some(Number(m.updatedAt))
  {
    hide Strings, ServicesJson;
  }

  /** The JSON form of metadata determines the metadata. */
  lemma MetadataJsonInjective(a: AgentMetadata, b: AgentMetadata)
    requires MetadataJson(a) == MetadataJson(b)
    ensures a == b
  {
    hide MetadataJson, Strings, ServicesJson, At;
    MetadataFields(a);
    MetadataFields(b);
    StringsInjective(a.capabilityTags, b.capabilityTags);
    ServicesInjective(a.services, b.services);
  }

  ghost predicate DocumentHashOk(c: Suite, p: VerifiedPackage) {
    HashJson(c, DocumentJson(p.document)) == p.documentHash
  }

  ghost predicate MetadataHashOk(c: Suite, p: VerifiedPackage) {
    p.metadataHash.None? || HashJson(c, MetadataJson(p.metadata)) == p.metadataHash.value
  }

  predicate IsIndexableAgent(p: VerifiedPackage) {
    p.document.ansMetadata.Some? && p.document.ansMetadata.value.subjectType == Agent && p.metadata.services != []
  }

  /** Some event of the bulletin carries the hash and names the package's subject. */
  predicate EventExists(events: seq<Event>, eventHash: string, did: string) {
    exists i :: 0 <= i < |events| && events[i].eventHash == eventHash && events[i].core.subjectDid == did
  }

  ghost predicate RootProofOk(c: Suite, rootKey: string, events: seq<Event>, p: VerifiedPackage) {
    && p.rootProof.bulletinEventHash.Some? && p.rootProof.signature.Some?
    && EventExists(events, p.rootProof.bulletinEventHash.value, p.did)
    && c.verify(rootKey, p.rootProof.bulletinEventHash.value, p.rootProof.signature.value)
  }

  datatype Reason = NotIndexable | InvalidDidDocumentHash | InvalidMetadataHash | InvalidRootProof | UnauthorizedDomains

  /** The first check a package fails, in the order of `sync_from_cdn`. */
  ghost function RejectionReason(c: Suite, rootKey: string, events: seq<Event>, tags: seq<CapabilityTree.Tag>,
                                 domains: seq<string>, p: VerifiedPackage): Option<Reason>
  {
    if !IsIndexableAgent(p) then Some(NotIndexable)
    else if !DocumentHashOk(c, p) then Some(InvalidDidDocumentHash)
    else if !MetadataHashOk(c, p) then Some(InvalidMetadataHash)
    else if !RootProofOk(c, rootKey, events, p) then Some(InvalidRootProof)
    else if !CapabilityTree.DomainsMatch(tags, p.metadata.capabilityTags, domains) then Some(UnauthorizedDomains)
    else None
  }

  /** Every check but the node's own domains passes. */
  ghost predicate Trusted(c: Suite, rootKey: string, events: seq<Event>, p: VerifiedPackage) {
    IsIndexableAgent(p) && DocumentHashOk(c, p) && MetadataHashOk(c, p) && RootProofOk(c, rootKey, events, p)
  }

  /** A trusted package stays trusted as the bulletin grows. */
  lemma TrustGrows(c: Suite, rootKey: string, events: seq<Event>, longer: seq<Event>, p: VerifiedPackage)
    requires events <= longer && Trusted(c, rootKey, events, p)
    ensures Trusted(c, rootKey, longer, p)
  {
    hide HashJson, DocumentJson, MetadataJson;
    var hash := p.rootProof.bulletinEventHash.value;
    var i :| 0 <= i < |events| && events[i].eventHash == hash && events[i].core.subjectDid == p.did;
    assert longer[i] == events[i];
  }

  // ----- the full synchronisation of a Discovery node -----

  datatype Rejection = Rejection(did: string, why: Option<Reason>)

  datatype Fetched = TransportError | DecodeFailed | Decoded(package: VerifiedPackage)

  class DiscoveryIndex {
    var indexed: seq<VerifiedPackage>
    var rejected: seq<Rejection>

    constructor ()
      ensures indexed == [] && rejected == []
    {
      indexed, rejected := [], [];
    }

    /**
     Rebuild the index from the manifest. A package that does not decode is rejected without a
     reason of its own; a transport error leaves the old index; an empty list of rejections is not
     written.
     */
    method SyncFromCdn(c: Suite, hashJson: Value -> string, rootKey: string, events: seq<Event>,
                       tags: seq<CapabilityTree.Tag>, domains: seq<string>, dids: seq<string>, fetch: string -> Fetched)
      returns (ok: bool)
      requires forall v :: hashJson(v) == HashJson(c, v)
      modifies this
      ensures ok <==> forall did :: did in dids ==> !fetch(did).TransportError?
      ensures !ok ==> indexed == old(indexed) && rejected == old(rejected)
      ensures ok ==> indexed == Accepted(c, rootKey, events, tags, domains, dids, fetch)
      ensures ok ==>
        var now := Refused(c, rootKey, events, tags, domains, dids, fetch);
        rejected == if now == [] then old(rejected) else now
      ensures ok ==> forall p :: p in indexed ==>
        && p.rootProof.bulletinEventHash.Some? && p.rootProof.signature.Some?
        && c.verify(rootKey, p.rootProof.bulletinEventHash.value, p.rootProof.signature.value)
    {
      hide HashJson, RejectionReason;
      var newIndexed: seq<VerifiedPackage> := [];
      var newRejected: seq<Rejection> := [];
      var i := 0;
      while i < |dids|
        invariant i <= |dids|
        invariant indexed == old(indexed) && rejected == old(rejected)
        invariant forall j :: 0 <= j < i ==> !fetch(dids[j]).TransportError?
        invariant newIndexed == Accepted(c, rootKey, events, tags, domains, dids[..i], fetch)
        invariant newRejected == Refused(c, rootKey, events, tags, domains, dids[..i], fetch)
      {
        assert dids[..i + 1][..i] == dids[..i];
        match fetch(dids[i]) {
          case TransportError =>
            return false;
          case DecodeFailed =>
            newRejected := newRejected + [Rejection(dids[i], None)];
          case Decoded(p) =>
            var reason := Check(c, hashJson, rootKey, events, tags, domains, p);
            if reason.Some? {
              newRejected := newRejected + [Rejection(p.did, reason)];
            } else {
              newIndexed := newIndexed + [p];
            }
        }
        i := i + 1;
      }
      assert dids[..i] == dids;
      indexed := newIndexed;
      forall p | p in indexed
        ensures p.rootProof.bulletinEventHash.Some? && p.rootProof.signature.Some?
             && c.verify(rootKey, p.rootProof.bulletinEventHash.value, p.rootProof.signature.value)
      {
        AcceptedIff(c, rootKey, events, tags, domains, dids, fetch, p);
        PassesIff(c, rootKey, events, tags, domains, p);
      }
      if newRejected != [] {
        rejected := newRejected;
      }
      return true;
    }
  }

  method Check(c: Suite, hashJson: Value -> string, rootKey: string, events: seq<Event>,
               tags: seq<CapabilityTree.Tag>, domains: seq<string>, p: VerifiedPackage)
    returns (reason: Option<Reason>)
    requires forall v :: hashJson(v) == HashJson(c, v)
    ensures reason == RejectionReason(c, rootKey, events, tags, domains, p)
  {
    hide HashJson, DocumentJson, MetadataJson, EventExists;
    if !IsIndexableAgent(p) {
      return Some(NotIndexable);
    }
    if hashJson(DocumentJson(p.document)) != p.documentHash {
      return Some(InvalidDidDocumentHash);
    }
    if p.metadataHash.Some? && hashJson(MetadataJson(p.metadata)) != p.metadataHash.value {
      return Some(InvalidMetadataHash);
    }
    var proof := p.rootProof;
    if proof.bulletinEventHash.None? || proof.signature.None?
       || !EventExists(events, proof.bulletinEventHash.value, p.did)
       || !c.verify(rootKey, proof.bulletinEventHash.value, proof.signature.value) {
      return Some(InvalidRootProof);
    }
    var matches := CapabilityTree.MatchesAuthorizedDomains(tags, p.metadata.capabilityTags, domains);
    return if matches then None else Some(UnauthorizedDomains);
  }

  ghost function Accepted(c: Suite, rootKey: string, events: seq<Event>, tags: seq<CapabilityTree.Tag>, domains: seq<string>,
                          dids: seq<string>, fetch: string -> Fetched): seq<VerifiedPackage>
  {
    if dids == [] then []
    else
      var before, f := Accepted(c, rootKey, events, tags, domains, dids[..|dids| - 1], fetch), fetch(dids[|dids| - 1]);
      if f.Decoded? && RejectionReason(c, rootKey, events, tags, domains, f.package).None? then before + [f.package] else before
  }

  ghost function Refused(c: Suite, rootKey: string, events: seq<Event>, tags: seq<CapabilityTree.Tag>, domains: seq<string>,
                         dids: seq<string>, fetch: string -> Fetched): seq<Rejection>
  {
    if dids == [] then []
    else
      var did := dids[|dids| - 1];
      var before := Refused(c, rootKey, events, tags, domains, dids[..|dids| - 1], fetch);
      match fetch(did)
      case TransportError => before
      case DecodeFailed => before + [Rejection(did, None)]
      case Decoded(p) =>
        var reason := RejectionReason(c, rootKey, events, tags, domains, p);
        if reason.Some? then before + [Rejection(p.did, reason)] else before
  }

  // ----- what passes, and what is refused -----

  /** A package fails at most the domain check exactly when its contents match its hashes and Root signed the hash of an event of its DID. */
  lemma PassesIff(c: Suite, rootKey: string, events: seq<Event>, tags: seq<CapabilityTree.Tag>, domains: seq<string>, p: VerifiedPackage)
    ensures var reason, hash, signature :=
        RejectionReason(c, rootKey, events, tags, domains, p), p.rootProof.bulletinEventHash, p.rootProof.signature;
      (reason == None || reason == Some(UnauthorizedDomains)) <==>
      && p.document.ansMetadata.Some? && p.document.ansMetadata.value.subjectType == Agent && |p.metadata.services| > 0
      && p.documentHash == HashJson(c, DocumentJson(p.document))
      && (p.metadataHash.Some? ==> p.metadataHash.value == HashJson(c, MetadataJson(p.metadata)))
      && hash.Some? && signature.Some? && c.verify(rootKey, hash.value, signature.value)
      && exists i :: 0 <= i < |events| && events[i].eventHash == hash.value && events[i].core.subjectDid == p.did
    ensures RejectionReason(c, rootKey, events, tags, domains, p).None? ==> CapabilityTree.DomainsMatch(tags, p.metadata.capabilityTags, domains)
  {
    hide HashJson, DocumentJson, MetadataJson, CapabilityTree.DomainsMatch;
  }

  /** The faults of a package, in the order in which they are looked for. */
  ghost function PackageFaults(c: Suite, rootKey: string, events: seq<Event>, tags: seq<CapabilityTree.Tag>, domains: seq<string>,
                               p: VerifiedPackage): seq<(bool, Reason)>
  {
    var metadata, proof := p.document.ansMetadata, p.rootProof;
    [(metadata.None? || metadata.value.subjectType == InfrastructureNode || |p.metadata.services| == 0, NotIndexable),
     (p.documentHash != HashJson(c, DocumentJson(p.document)), InvalidDidDocumentHash),
     (p.metadataHash.Some? && p.metadataHash.value != HashJson(c, MetadataJson(p.metadata)), InvalidMetadataHash),
     (proof.bulletinEventHash.None? || proof.signature.None?
      || (forall i :: 0 <= i < |events| && events[i].eventHash == proof.bulletinEventHash.value ==> events[i].core.subjectDid != p.did)
      || !c.verify(rootKey, proof.bulletinEventHash.value, proof.signature.value), InvalidRootProof),
     (!CapabilityTree.DomainsMatch(tags, p.metadata.capabilityTags, domains), UnauthorizedDomains)]
  }

  lemma ReasonIsFirst(c: Suite, rootKey: string, events: seq<Event>, tags: seq<CapabilityTree.Tag>, domains: seq<string>, p: VerifiedPackage)
    ensures IsFirstFault(PackageFaults(c, rootKey, events, tags, domains, p), RejectionReason(c, rootKey, events, tags, domains, p))
  {
    hide HashJson, DocumentJson, MetadataJson, CapabilityTree.DomainsMatch;
    var faults := PackageFaults(c, rootKey, events, tags, domains, p);
    var i := if faults[0].0 then 0 else if faults[1].0 then 1 else if faults[2].0 then 2 else if faults[3].0 then 3 else 4;
    assert RejectionReason(c, rootKey, events, tags, domains, p).Some? ==> faults[i] == (true, RejectionReason(c, rootKey, events, tags, domains, p).value);
  }

  /** What a rebuilt index holds: the fetched packages without a fault. */
  lemma {:induction false} AcceptedIff(c: Suite, rootKey: string, events: seq<Event>, tags: seq<CapabilityTree.Tag>, domains: seq<string>,
                                       dids: seq<string>, fetch: string -> Fetched, p: VerifiedPackage)
    ensures p in Accepted(c, rootKey, events, tags, domains, dids, fetch)
       <==> RejectionReason(c, rootKey, events, tags, domains, p).None? && exists did :: did in dids && fetch(did) == Decoded(p)
  {
    hide RejectionReason;
    if dids != [] {
      var init, did := dids[..|dids| - 1], dids[|dids| - 1];
      AcceptedIff(c, rootKey, events, tags, domains, init, fetch, p);
      assert dids == init + [did];
    }
  }

  /** And what is rejected: the others, each for its first fault, and what does not decode. */
  lemma {:induction false} RefusedIff(c: Suite, rootKey: string, events: seq<Event>, tags: seq<CapabilityTree.Tag>, domains: seq<string>,
                                      dids: seq<string>, fetch: string -> Fetched, r: Rejection)
    ensures r in Refused(c, rootKey, events, tags, domains, dids, fetch) <==>
      exists did :: did in dids && match fetch(did)
        case TransportError => false
        case DecodeFailed => r == Rejection(did, None)
        case Decoded(p) => r == Rejection(p.did, RejectionReason(c, rootKey, events, tags, domains, p)) && r.why.Some?
  {
    hide RejectionReason;
    if dids != [] {
      var init, did := dids[..|dids| - 1], dids[|dids| - 1];
      RefusedIff(c, rootKey, events, tags, domains, init, fetch, r);
      assert dids == init + [did];
    }
  }

  /** A fetched package with sound contents whose signature does not verify is rejected with the reason for that. */
  lemma UnsignedIsRefused(c: Suite, rootKey: string, events: seq<Event>, tags: seq<CapabilityTree.Tag>, domains: seq<string>,
                          dids: seq<string>, fetch: string -> Fetched, did: string, p: VerifiedPackage)
    requires did in dids && fetch(did) == Decoded(p)
    requires IsIndexableAgent(p) && DocumentHashOk(c, p) && MetadataHashOk(c, p)
    requires p.rootProof.bulletinEventHash.Some? && p.rootProof.signature.Some?
    requires !c.verify(rootKey, p.rootProof.bulletinEventHash.value, p.rootProof.signature.value)
    ensures p !in Accepted(c, rootKey, events, tags, domains, dids, fetch)
    ensures Rejection(p.did, Some(InvalidRootProof)) in Refused(c, rootKey, events, tags, domains, dids, fetch)
  {
    hide IsIndexableAgent, DocumentHashOk, MetadataHashOk, CapabilityTree.DomainsMatch;
    AcceptedIff(c, rootKey, events, tags, domains, dids, fetch, p);
    RefusedIff(c, rootKey, events, tags, domains, dids, fetch, Rejection(p.did, Some(InvalidRootProof)));
  }
}
