/**
 What the checks of a Discovery node say about the contents of a package. They tie its DID to an event of
 the bulletin, and its document and metadata to its own hashes, but not those hashes to the event.
 */
module PackageContents {
  import opened Bulletin
  import opened CanonicalJson
  import opened CdnNode
  import opened Crypto
  import opened DidAns
  import opened Documents
  import opened Ordering
  import opened Packages
  import opened RootNode
  import opened System
  import opened Utf8
  import opened Wrappers
  import CapabilityTree
  import RootInvariants

  /** The package with other contents and their hashes, under the same proof. */
  ghost function WithContents(c: Suite, p: VerifiedPackage, document: DidDocument, metadata: AgentMetadata): VerifiedPackage {
    p.(document := document, documentHash := HashJson(c, DocumentJson(document)),
       metadata := metadata, metadataHash := Some(HashJson(c, MetadataJson(metadata))))
  }

  /** Any agent's document and any metadata with a service keep a trusted package trusted. */
  lemma ContentsAreOpen(c: Suite, rootKey: string, events: seq<Event>, p: VerifiedPackage, document: DidDocument, metadata: AgentMetadata)
    requires Trusted(c, rootKey, events, p)
    requires document.ansMetadata.Some? && document.ansMetadata.value.subjectType == Agent && metadata.services != []
    ensures Trusted(c, rootKey, events, WithContents(c, p, document, metadata))
  {
    hide HashJson, DocumentJson, MetadataJson, EventExists;
  }

  /** So every trusted package has a trusted double with another document and, for any domains, with no reason to be rejected. */
  lemma EveryTrustedHasADouble(c: Suite, rootKey: string, events: seq<Event>, tags: seq<CapabilityTree.Tag>, domains: seq<string>, p: VerifiedPackage)
    returns (q: VerifiedPackage)
    requires Trusted(c, rootKey, events, p) && domains != []
    ensures q.did == p.did && q.rootProof == p.rootProof && q.document != p.document
    ensures RejectionReason(c, rootKey, events, tags, domains, q).None?
  {
    hide HashJson, DocumentJson, MetadataJson, RootProofOk;
    var document := p.document.(context := p.document.context + [""]);
    q := WithContents(c, p, document, p.metadata.(capabilityTags := domains));
    ContentsAreOpen(c, rootKey, events, p, document, p.metadata.(capabilityTags := domains));
    assert |document.context| != |p.document.context|;
    OwnDomainsMatch(tags, domains);
  }

  lemma OwnDomainsMatch(tags: seq<CapabilityTree.Tag>, domains: seq<string>)
    requires domains != []
    ensures CapabilityTree.DomainsMatch(tags, domains, domains)
  {
    hide CapabilityTree.ById;
    var id := CapabilityTree.Normalized(tags, domains[0]);
    assert CapabilityTree.Ancestor(CapabilityTree.ById(tags), id, 0) == Some(id);
    assert CapabilityTree.DescendantOrSame(tags, id, CapabilityTree.Normalized(tags, domains[0]));
  }

  /** The event a trusted package points to, which is one event only. */
  ghost predicate PointsTo(events: seq<Event>, i: nat, p: VerifiedPackage) {
    i < |events| && p.rootProof.bulletinEventHash == Some(events[i].eventHash)
  }

  lemma OneEventOnly(c: Suite, rootKey: string, events: seq<Event>, p: VerifiedPackage, i: nat, j: nat)
    requires Ideal(c) && ChainOk(c, rootKey, events) && PointsTo(events, i, p) && PointsTo(events, j, p)
    ensures i == j
  {
    hide Ideal, ChainOk;
    NoForkBelowSharedEvent(c, rootKey, events, events, i, j);
  }

  /** The document and the metadata whose hashes the event carries. */
  ghost predicate PublishedBy(c: Suite, e: Event, document: DidDocument, metadata: AgentMetadata) {
    && RootInvariants.Text(Get(e.core.payload, "didDocumentHash")) == HashJson(c, DocumentJson(document))
    && RootInvariants.Text(Get(e.core.payload, "metadataHash")) == HashJson(c, MetadataJson(metadata))
  }

  /**
   A trusted package holds what Root published under its event exactly when its hashes are those of the
   event: the document for the one, the metadata for the other if the package has a metadata hash.
   */
  lemma HoldsWhatWasPublishedIff(c: Suite, rootKey: string, events: seq<Event>, p: VerifiedPackage, i: nat,
                                 document: DidDocument, metadata: AgentMetadata)
    requires Ideal(c) && ChainOk(c, rootKey, events) && Trusted(c, rootKey, events, p)
    requires PointsTo(events, i, p) && PublishedBy(c, events[i], document, metadata)
    ensures events[i].core.subjectDid == p.did && forall j: nat :: PointsTo(events, j, p) ==> j == i
    ensures p.document == document <==> p.documentHash == RootInvariants.Text(Get(events[i].core.payload, "didDocumentHash"))
    ensures p.metadataHash.Some? ==>
      (p.metadata == metadata <==> p.metadataHash.value == RootInvariants.Text(Get(events[i].core.payload, "metadataHash")))
  {
    hide Ideal, ChainOk, HashJson, DocumentJson, MetadataJson, IsIndexableAgent, Get;
    forall j: nat | PointsTo(events, j, p) ensures j == i {
      OneEventOnly(c, rootKey, events, p, i, j);
    }
    var k :| 0 <= k < |events| && events[k].eventHash == p.rootProof.bulletinEventHash.value && events[k].core.subjectDid == p.did;
    assert PointsTo(events, k, p);
    HashJsonInjective(c, DocumentJson(p.document), DocumentJson(document));
    HashJsonInjective(c, MetadataJson(p.metadata), MetadataJson(metadata));
    if DocumentJson(p.document) == DocumentJson(document) {
      DocumentJsonInjective(p.document, document);
    }
    if MetadataJson(p.metadata) == MetadataJson(metadata) {
      MetadataJsonInjective(p.metadata, metadata);
    }
  }

  // ----- what the metadata says -----

  /** The metadata of a package describes its document: whose it is, its hash, its services, and its tags by their ids. */
  ghost predicate DescribesDocument(cfg: Config, p: VerifiedPackage) {
    && p.document.id == p.did == p.metadata.did && p.metadata.documentHash == p.documentHash == HashJson(cfg.c, DocumentJson(p.document))
    && p.metadata.services == p.document.service && p.metadata.status == "active"
    && p.document.ansMetadata.Some? && p.metadata.identityType == p.document.ansMetadata.value.identityType
    && ListsTags(cfg, p.document.ansMetadata.value, p.metadata.capabilityTags)
  }

  /** The ids of the tags in the description, if there is one, each once and in order. */
  ghost predicate ListsTags(cfg: Config, described: AnsMetadata, tags: seq<string>) {
    && (match described.agentDescription
        case None => tags == []
        case Some(description) =>
          forall tag :: tag in tags <==> exists given :: given in description.capabilityTags && tag == CapabilityTree.Normalized(cfg.tags, given))
    && forall i, j :: 0 <= i < j < |tags| ==> ByteLess(tags[i], tags[j])
  }

  lemma MadeDescribes(cfg: Config, root: Root, op: Op)
    requires op.Publish? && PublishesFor(cfg, root, op, op.req.agentDid)
    ensures DescribesDocument(cfg, Made(cfg, root, op))
  {
    hide HashJson, DocumentJson, MetadataJson, PublishEvent, CanonicalTags, CredentialJson, IssuerKey, Parse, SignatureError, ListsTags;
    TagsAreNormalized(cfg, op.req.document);
  }

  lemma TagsAreNormalized(cfg: Config, doc: DidDocument)
    requires doc.ansMetadata.Some?
    ensures ListsTags(cfg, doc.ansMetadata.value, CanonicalTags(cfg, doc))
  {
    hide CapabilityTree.Normalized;
    var all := set tag | tag in CapabilityTags(doc) :: CapabilityTree.Normalized(cfg.tags, tag);
    ByteLessTotal();
    ListingIs(ByteLess, all);
    var tags := CanonicalTags(cfg, doc);
    if doc.ansMetadata.value.agentDescription.None? {
      assert all == {};
      assert forall tag :: tag !in tags;
    }
  }

  /** Whatever interleaving, the metadata of what is served describes the document served with it. */
  lemma ServedIsDescribed(cfg: Config, seed: seq<Event>, auth: Authorization, actions: seq<Action>, file: string)
    requires Ideal(cfg.c) && ChainOk(cfg.c, RootKey(cfg), seed)
    requires file in AfterPosts(Run(cfg, Begin(seed, auth), actions).posts).packages
    ensures DescribesDocument(cfg, AfterPosts(Run(cfg, Begin(seed, auth), actions).posts).packages[file])
  {
    hide Ideal, Run, ChainOk, Trusted, AfterPosts, Publishes, DescribesDocument, PublishesFor, Made, DidToFileName;
    var p := AfterPosts(Run(cfg, Begin(seed, auth), actions).posts).packages[file];
    ServedIsTrusted(cfg, seed, auth, actions, file);
    var k: nat :| MadeAt(cfg, Begin(seed, auth), actions, k, p);
    var root, op := Run(cfg, Begin(seed, auth), actions[..k]).root, actions[k].op;
    PublishesNothingElse(cfg, root, op, p.did);
    MadeDescribes(cfg, root, op);
  }
}
