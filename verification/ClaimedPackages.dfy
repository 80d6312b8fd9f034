/**
 Packages that carry claims Root signed, and the checks the incremental synchronisation makes of them.
 These checks do not look at the bulletin.
 */
module ClaimedPackages {
  import opened CanonicalJson
  import opened Crypto
  import opened Documents
  import opened Packages
  import opened Wrappers
  import CapabilityTree
  import DiscoverySync

  datatype ClaimedPackage = ClaimedPackage(package: VerifiedPackage, claims: Option<Value>, proofValue: Option<string>)

  const U64_LIMIT := 0x1_0000_0000_0000_0000

  predicate ClaimsMatch(p: VerifiedPackage, claims: Value) {
    && Get(claims, "subjectDid") == Str(p.did)
    && Get(claims, "didDocumentHash") == Str(p.documentHash)
    && Get(claims, "metadataHash") == Str(p.metadataHash.UnwrapOr(""))
    && var version := Get(claims, "documentVersion"); version.Number? && 0 <= version.n < U64_LIMIT
  }

  /** `verify_package_root_proof` of the services under research. */
  ghost predicate ClaimsOk(c: Suite, rootKey: string, p: ClaimedPackage) {
    && p.proofValue.Some? && p.claims.Some? && ClaimsMatch(p.package, p.claims.value)
    && c.verify(rootKey, HashJson(c, p.claims.value), p.proofValue.value)
  }

  /** The first check a package fails, in the order of `sync_from_cdn`. */
  ghost function ClaimReason(c: Suite, rootKey: string, tags: seq<CapabilityTree.Tag>, domains: seq<string>, p: ClaimedPackage): Option<string> {
    if !IsIndexableAgent(p.package) then Some("not_indexable")
    else if !DocumentHashOk(c, p.package) then Some("invalid_did_document_hash")
    else if !MetadataHashOk(c, p.package) then Some("invalid_metadata_hash")
    else if !ClaimsOk(c, rootKey, p) then Some("invalid_root_proof")
    else if !CapabilityTree.DomainsMatch(tags, p.package.metadata.capabilityTags, domains) then Some("unauthorized_domains")
    else None
  }

  method CheckClaims(c: Suite, hashJson: Value -> string, rootKey: string, tags: seq<CapabilityTree.Tag>, domains: seq<string>, p: ClaimedPackage)
    returns (reason: Option<string>)
    requires forall v :: hashJson(v) == HashJson(c, v)
    ensures reason == ClaimReason(c, rootKey, tags, domains, p)
  {
    hide HashJson, DocumentJson, MetadataJson, ClaimsMatch;
    if !IsIndexableAgent(p.package) {
      return Some("not_indexable");
    }
    if hashJson(DocumentJson(p.package.document)) != p.package.documentHash {
      return Some("invalid_did_document_hash");
    }
    if p.package.metadataHash.Some? && hashJson(MetadataJson(p.package.metadata)) != p.package.metadataHash.value {
      return Some("invalid_metadata_hash");
    }
    if p.proofValue.None? || p.claims.None? || !ClaimsMatch(p.package, p.claims.value)
       || !c.verify(rootKey, hashJson(p.claims.value), p.proofValue.value) {
      return Some("invalid_root_proof");
    }
    var matches := CapabilityTree.MatchesAuthorizedDomains(tags, p.package.metadata.capabilityTags, domains);
    return if matches then None else Some("unauthorized_domains");
  }

  /** The faults of a package, in the order in which they are looked for. */
  ghost function ClaimFaults(c: Suite, rootKey: string, tags: seq<CapabilityTree.Tag>, domains: seq<string>, p: ClaimedPackage): seq<(bool, string)> {
    var metadata, own := p.package.document.ansMetadata, p.package;
    [(metadata.None? || metadata.value.subjectType == InfrastructureNode || |own.metadata.services| == 0, "not_indexable"),
     (own.documentHash != HashJson(c, DocumentJson(own.document)), "invalid_did_document_hash"),
     (own.metadataHash.Some? && own.metadataHash.value != HashJson(c, MetadataJson(own.metadata)), "invalid_metadata_hash"),
     (p.claims.None? || p.proofValue.None?
      || Get(p.claims.value, "subjectDid") != Str(own.did) || Get(p.claims.value, "didDocumentHash") != Str(own.documentHash)
      || Get(p.claims.value, "metadataHash") != Str(match own.metadataHash case Some(hash) => hash case None => "")
      || (forall n :: Get(p.claims.value, "documentVersion") == Number(n) ==> n < 0 || n > 0xFFFF_FFFF_FFFF_FFFF)
      || !c.verify(rootKey, HashJson(c, p.claims.value), p.proofValue.value), "invalid_root_proof"),
     (!CapabilityTree.DomainsMatch(tags, own.metadata.capabilityTags, domains), "unauthorized_domains")]
  }

  lemma ClaimReasonIsFirst(c: Suite, rootKey: string, tags: seq<CapabilityTree.Tag>, domains: seq<string>, p: ClaimedPackage)
    ensures IsFirstFault(ClaimFaults(c, rootKey, tags, domains, p), ClaimReason(c, rootKey, tags, domains, p))
  {
    hide HashJson, DocumentJson, MetadataJson, CapabilityTree.DomainsMatch, Get;
    var faults := ClaimFaults(c, rootKey, tags, domains, p);
    var i := if faults[0].0 then 0 else if faults[1].0 then 1 else if faults[2].0 then 2 else if faults[3].0 then 3 else 4;
    assert ClaimReason(c, rootKey, tags, domains, p).Some? ==> faults[i] == (true, ClaimReason(c, rootKey, tags, domains, p).value);
  }

  /** Whatever passes, at most but the domain check, carries claims that name it and that Root signed. */
  lemma TrustedIsSigned(c: Suite, rootKey: string, tags: seq<CapabilityTree.Tag>, domains: seq<string>, p: ClaimedPackage)
    requires ClaimReason(c, rootKey, tags, domains, p) in [None, Some("unauthorized_domains")]
    ensures p.claims.Some? && p.proofValue.Some? && c.verify(rootKey, HashJson(c, p.claims.value), p.proofValue.value)
    ensures Get(p.claims.value, "subjectDid") == Str(p.package.did)
    ensures Get(p.claims.value, "didDocumentHash") == Str(HashJson(c, DocumentJson(p.package.document)))
  {
    hide HashJson, DocumentJson, MetadataJson, CapabilityTree.DomainsMatch, Get, IsIndexableAgent, MetadataHashOk;
  }

  /** What Root signed fixes the DID and the document of every package that passes with it. */
  lemma ClaimsFixTheDocument(c: Suite, rootKey: string, tags: seq<CapabilityTree.Tag>, domains: seq<string>, p: ClaimedPackage,
                             rootKey': string, tags': seq<CapabilityTree.Tag>, domains': seq<string>, q: ClaimedPackage)
    requires Ideal(c) && p.claims == q.claims
    requires ClaimReason(c, rootKey, tags, domains, p).None? && ClaimReason(c, rootKey', tags', domains', q).None?
    ensures p.package.did == q.package.did && p.package.document == q.package.document
  {
    hide Ideal, HashJson, DocumentJson, MetadataHashOk, IsIndexableAgent, CapabilityTree.DomainsMatch;
    HashJsonInjective(c, DocumentJson(p.package.document), DocumentJson(q.package.document));
    DocumentJsonInjective(p.package.document, q.package.document);
  }

  /** Every check but the node's own domains passes. */
  ghost predicate ClaimTrusted(c: Suite, rootKey: string, p: ClaimedPackage) {
    IsIndexableAgent(p.package) && DocumentHashOk(c, p.package) && MetadataHashOk(c, p.package) && ClaimsOk(c, rootKey, p)
  }

  lemma TrustedReason(c: Suite, rootKey: string, tags: seq<CapabilityTree.Tag>, domains: seq<string>, p: ClaimedPackage)
    requires ClaimTrusted(c, rootKey, p)
    ensures ClaimReason(c, rootKey, tags, domains, p)
         == if CapabilityTree.DomainsMatch(tags, p.package.metadata.capabilityTags, domains) then None else Some("unauthorized_domains")
  {
    hide IsIndexableAgent, DocumentHashOk, MetadataHashOk, ClaimsOk, CapabilityTree.DomainsMatch;
  }

  /** The claims settle the metadata, and with it what the domain check sees. */
  ghost predicate MetadataSettled(c: Suite, rootKey: string, p: ClaimedPackage) {
    forall q :: ClaimTrusted(c, rootKey, q) && q.claims == p.claims ==> q.package.metadata == p.package.metadata
  }

  /** The same package without a metadata hash, and with metadata of another time. */
  function OtherMetadata(p: ClaimedPackage): ClaimedPackage {
    var m := p.package.metadata;
    p.(package := p.package.(metadataHash := None, metadata := m.(updatedAt := m.updatedAt + 1)))
  }

  lemma EmptyClaimSettlesNothing(c: Suite, rootKey: string, p: ClaimedPackage)
    requires ClaimTrusted(c, rootKey, p) && Get(p.claims.value, "metadataHash") == Str("")
    ensures ClaimTrusted(c, rootKey, OtherMetadata(p)) && !MetadataSettled(c, rootKey, p)
  {
    hide HashJson, DocumentJson, MetadataJson, Get;
    var q := OtherMetadata(p);
    assert ClaimTrusted(c, rootKey, q) && q.claims == p.claims && q.package.metadata.updatedAt != p.package.metadata.updatedAt;
  }

  lemma SameHashSameMetadata(c: Suite, rootKey: string, p: ClaimedPackage, q: ClaimedPackage)
    requires Ideal(c) && ClaimTrusted(c, rootKey, p) && ClaimTrusted(c, rootKey, q) && p.claims == q.claims
    requires Get(p.claims.value, "metadataHash") != Str("")
    ensures q.package.metadata == p.package.metadata
  {
    hide Ideal, HashJson, MetadataJson, DocumentHashOk, IsIndexableAgent, Get;
    HashJsonInjective(c, MetadataJson(p.package.metadata), MetadataJson(q.package.metadata));
    if MetadataJson(p.package.metadata) == MetadataJson(q.package.metadata) {
      MetadataJsonInjective(p.package.metadata, q.package.metadata);
    }
  }

  /** What Root signed settles the metadata exactly when it names a metadata hash. */
  lemma ClaimsFixTheMetadataIff(c: Suite, rootKey: string, p: ClaimedPackage)
    requires Ideal(c) && ClaimTrusted(c, rootKey, p)
    ensures MetadataSettled(c, rootKey, p) <==> Get(p.claims.value, "metadataHash") != Str("")
  {
    hide Ideal, ClaimTrusted, Get;
    assert p.claims.Some? by { HasClaims(c, rootKey, p); }
    if Get(p.claims.value, "metadataHash") == Str("") {
      EmptyClaimSettlesNothing(c, rootKey, p);
    } else {
      forall q | ClaimTrusted(c, rootKey, q) && q.claims == p.claims ensures q.package.metadata == p.package.metadata {
        SameHashSameMetadata(c, rootKey, p, q);
      }
    }
  }

  lemma HasClaims(c: Suite, rootKey: string, p: ClaimedPackage)
    requires ClaimTrusted(c, rootKey, p)
    ensures p.claims.Some?
  {
    hide IsIndexableAgent, DocumentHashOk, MetadataHashOk, ClaimsMatch;
  }

  // ----- under the synchronisation -----

  function DidOf(p: ClaimedPackage): string {
    p.package.did
  }

  /** The answer to a package request, checked if it decodes. */
  ghost function Judged(c: Suite, rootKey: string, tags: seq<CapabilityTree.Tag>, domains: seq<string>,
                        answer: DiscoverySync.Fetched<ClaimedPackage>): DiscoverySync.Fetched<ClaimedPackage>
  {
    if answer.Decoded? then answer.(reason := ClaimReason(c, rootKey, tags, domains, answer.package)) else answer
  }

  /** The checks of one synchronisation are these, under the key and the domains it read. */
  ghost predicate JudgesBy(c: Suite, rootKey: string, tags: seq<CapabilityTree.Tag>, domains: seq<string>, r: DiscoverySync.Request<ClaimedPackage>) {
    forall p :: r.fetch(p) == Judged(c, rootKey, tags, domains, r.fetch(p))
  }

  /**
   Over every series of syncs, each under its own key and domains: whatever is in the index is there under
   its own DID and passed every check under the key and domains of the sync that indexed it.
   */
  lemma IndexedWasChecked(c: Suite, keys: seq<string>, tags: seq<CapabilityTree.Tag>, domains: seq<seq<string>>,
                          reqs: seq<DiscoverySync.Request<ClaimedPackage>>, states: seq<DiscoverySync.Node<ClaimedPackage>>, n: nat, did: string)
    requires DiscoverySync.IsRun(DidOf, reqs, states) && n <= |reqs| == |keys| == |domains|
    requires forall k :: 0 <= k < |reqs| ==> JudgesBy(c, keys[k], tags, domains[k], reqs[k])
    requires did in states[n].index
    ensures states[n].index[did].1.package.did == did
    ensures exists k: nat :: k < n && ClaimReason(c, keys[k], tags, domains[k], states[n].index[did].1).None?
  {
    hide ClaimReason;
    var k, p := DiscoverySync.IndexedPassed(DidOf, reqs, states, n, did);
    assert JudgesBy(c, keys[k], tags, domains[k], reqs[k]);
    assert reqs[k].fetch(p) == Judged(c, keys[k], tags, domains[k], reqs[k].fetch(p));
  }
}
