/**
 The archive and the packages of the Root node over whole runs: every version is kept, what was
 archived never changes, and every package passes a Discovery node's checks for good.
 */
module RootArchive {
  import opened Crypto
  import opened Bulletin
  import opened Documents
  import opened Packages
  import opened DidAns
  import opened Wrappers
  import opened RootNode
  import opened RootInvariants
  import CapabilityTree

  /** The archive entry of the latest version of a DID. */
  function LatestKey(s: Root, did: string): (string, nat)
    requires did in s.latest
  {
    (ArchiveStem(did), s.latest[did].version)
  }

  /** An archive entry belongs to a version of the DID its package names. */
  ghost predicate EntryOk(cfg: Config, s: Root, key: (string, nat))
    requires key in s.archive
  {
    var entry, did := s.archive[key], s.archive[key].package.did;
    && did in s.latest && key.0 == ArchiveStem(did) && 1 <= key.1 <= s.latest[did].version
    && entry.package.document == entry.document && entry.package.metadata == entry.metadata
    && Trusted(cfg.c, RootKey(cfg), s.events, entry.package)
  }

  /** A registered DID has all its versions archived, and its newest package under its file name. */
  ghost predicate DidOk(cfg: Config, s: Root, did: string)
    requires did in s.latest
  {
    && Parse(did).Ok? && s.latest[did].version >= 1
    && (forall v: nat :: 1 <= v <= s.latest[did].version ==> (ArchiveStem(did), v) in s.archive)
    && DocumentHash(cfg.c, s.archive[LatestKey(s, did)].document) == s.latest[did].documentHash
    && DidToFileName(did) in s.verified && s.verified[DidToFileName(did)] == s.archive[LatestKey(s, did)].package
    && s.archive[LatestKey(s, did)].package.did == did
  }

  /** The queue holds newest packages only, one per DID. */
  ghost predicate QueueOk(s: Root) {
    && (forall i :: 0 <= i < |s.cdnQueue| ==> QueuedOk(s, s.cdnQueue[i]))
    && OnePerDid(s.cdnQueue)
  }

  ghost predicate QueuedOk(s: Root, p: VerifiedPackage) {
    p.did in s.latest && LatestKey(s, p.did) in s.archive && s.archive[LatestKey(s, p.did)].package == p
  }

  ghost predicate StoresOk(cfg: Config, s: Root) {
    && (forall key :: key in s.archive ==> EntryOk(cfg, s, key))
    && (forall did :: did in s.latest ==> DidOk(cfg, s, did))
    && QueueOk(s)
  }

  /** Whatever is archived stays archived, with the same document. */
  ghost predicate ArchiveKept(s: Root, s': Root) {
    forall key :: key in s.archive ==> key in s'.archive && s'.archive[key].document == s.archive[key].document
  }

  // ----- one publication -----

  lemma PackageTrusted(cfg: Config, s: Root, req: Request, times: Times)
    requires Ideal(cfg.c) && RequestError(cfg.c, s.events, req).None?
    ensures var e := PublishEvent(cfg, s.events, s.latest, req, times);
      Trusted(cfg.c, RootKey(cfg), s.events + [e], BuildPackage(cfg, e, req, times))
  {
    hide Ideal, HashJson, DocumentJson, MetadataJson, CredentialJson, CanonicalTags, PublishEvent;
    var e := PublishEvent(cfg, s.events, s.latest, req, times);
    SignatureVerifies(cfg.c, cfg.signingKey, e.eventHash);
    PublishEventReads(cfg, s.events, s.latest, req, times);
    assert (s.events + [e])[|s.events|] == e;
    assert EventExists(s.events + [e], e.eventHash, req.agentDid);
  }

  lemma RequestFacts(c: Suite, events: seq<Event>, req: Request)
    requires RequestError(c, events, req).None?
    ensures Parse(req.agentDid).Ok?
  {
    hide HashJson, CredentialJson, HasEvent, ValidateMvp, IssuerKey;
  }

  lemma SameHashSameDocument(c: Suite, a: DidDocument, b: DidDocument)
    requires Ideal(c)
    ensures DocumentHash(c, a) == DocumentHash(c, b) <==> a == b
  {
    hide DocumentJson, HashJson;
    HashJsonInjective(c, DocumentJson(a), DocumentJson(b));
    if DocumentJson(a) == DocumentJson(b) {
      DocumentJsonInjective(a, b);
    }
  }

  /** An archive place is taken over only by the very document that is there. */
  lemma TakesOwnPlace(cfg: Config, s: Root, did: string, doc: DidDocument)
    requires Ideal(cfg.c) && StoresOk(cfg, s) && Parse(did).Ok?
    ensures var key := (ArchiveStem(did), NextVersion(s.latest, did, DocumentHash(cfg.c, doc)));
      key in s.archive ==> did in s.latest && key == LatestKey(s, did) && s.archive[key].document == doc
  {
    hide Ideal, DocumentHash, Trusted, ArchiveStem, Parse;
    var key := (ArchiveStem(did), NextVersion(s.latest, did, DocumentHash(cfg.c, doc)));
    if key in s.archive {
      assert EntryOk(cfg, s, key);
      var owner := s.archive[key].package.did;
      assert DidOk(cfg, s, owner);
      FileNamesInjective(owner, did);
      SameHashSameDocument(cfg.c, s.archive[LatestKey(s, did)].document, doc);
    }
  }

  /** The parts of `Published` the stores depend on. */
  lemma PublishedParts(cfg: Config, s: Root, req: Request, times: Times)
    ensures var s', hash := Published(cfg, s, req, times), DocumentHash(cfg.c, req.document);
      var e := PublishEvent(cfg, s.events, s.latest, req, times);
      var p, key := BuildPackage(cfg, e, req, times), (ArchiveStem(req.agentDid), NextVersion(s.latest, req.agentDid, hash));
      && s'.events == s.events + [e]
      && s'.archive == s.archive[key := Archived(req.document, p.metadata, p)]
      && s'.verified == s.verified[DidToFileName(req.agentDid) := p]
      && (forall did :: did in s'.latest <==> did == req.agentDid || did in s.latest)
      && (forall did :: did in s.latest && did != req.agentDid ==> s'.latest[did] == s.latest[did])
      && s'.latest[req.agentDid].version == key.1 && s'.latest[req.agentDid].documentHash == hash
      && s'.cdnQueue == Without(s.cdnQueue, req.agentDid) + [p]
      && p.did == req.agentDid && p.document == req.document
  {
    hide PublishEvent, DocumentHash, MetadataHash, NextVersion, ArchiveStem, DidToFileName, Without;
  }

  lemma PublishKeepsEntries(cfg: Config, s: Root, req: Request, times: Times)
    requires Ideal(cfg.c) && StoresOk(cfg, s) && RequestError(cfg.c, s.events, req).None?
    ensures var s' := Published(cfg, s, req, times); forall key :: key in s'.archive ==> EntryOk(cfg, s', key)
    ensures ArchiveKept(s, Published(cfg, s, req, times))
  {
    hide Ideal, Published, PublishEvent, BuildPackage, DocumentHash, RequestError, ArchiveStem, Parse, Trusted, DidOk, QueueOk, NextVersion, Without, DidToFileName;
    var s' := Published(cfg, s, req, times);
    RequestFacts(cfg.c, s.events, req);
    PublishedParts(cfg, s, req, times);
    PackageTrusted(cfg, s, req, times);
    TakesOwnPlace(cfg, s, req.agentDid, req.document);
    VersionRises(cfg, s, req);
    var newKey := (ArchiveStem(req.agentDid), NextVersion(s.latest, req.agentDid, DocumentHash(cfg.c, req.document)));
    forall key | key in s'.archive ensures EntryOk(cfg, s', key) {
      if key != newKey {
        EntryStays(cfg, s, s', key);
      }
    }
  }

  lemma EntryStays(cfg: Config, s: Root, s': Root, key: (string, nat))
    requires key in s.archive && key in s'.archive && s'.archive[key] == s.archive[key] && EntryOk(cfg, s, key)
    requires s.events <= s'.events
    requires var did := s.archive[key].package.did; did in s.latest ==> did in s'.latest && s.latest[did].version <= s'.latest[did].version
    ensures EntryOk(cfg, s', key)
  {
    hide Trusted, ArchiveStem;
    TrustGrows(cfg.c, RootKey(cfg), s.events, s'.events, s.archive[key].package);
  }

  lemma VersionRises(cfg: Config, s: Root, req: Request)
    requires StoresOk(cfg, s)
    ensures var did, v := req.agentDid, NextVersion(s.latest, req.agentDid, DocumentHash(cfg.c, req.document));
      && v >= 1 && (did in s.latest ==> s.latest[did].version <= v <= s.latest[did].version + 1)
      && (did !in s.latest ==> v == 1)
  {
    hide DocumentHash, Parse, Trusted, EntryOk, QueueOk;
    assert req.agentDid in s.latest ==> DidOk(cfg, s, req.agentDid);
  }

  lemma PublishKeepsDids(cfg: Config, s: Root, req: Request, times: Times)
    requires StoresOk(cfg, s) && RequestError(cfg.c, s.events, req).None?
    ensures var s' := Published(cfg, s, req, times); forall did :: did in s'.latest ==> DidOk(cfg, s', did)
  {
    hide Published, PublishEvent, BuildPackage, DocumentHash, RequestError, ArchiveStem, DidToFileName, Parse, EntryOk, QueueOk;
    var s' := Published(cfg, s, req, times);
    RequestFacts(cfg.c, s.events, req);
    PublishedParts(cfg, s, req, times);
    VersionRises(cfg, s, req);
    forall did | did in s'.latest ensures DidOk(cfg, s', did) {
      if did != req.agentDid {
        assert DidOk(cfg, s, did);
        FileNamesInjective(did, req.agentDid);
      } else if did in s.latest {
        assert DidOk(cfg, s, did);
      }
    }
  }

  lemma PublishKeepsQueue(cfg: Config, s: Root, req: Request, times: Times)
    requires StoresOk(cfg, s) && RequestError(cfg.c, s.events, req).None?
    ensures QueueOk(Published(cfg, s, req, times))
  {
    hide Published, PublishEvent, BuildPackage, DocumentHash, RequestError, ArchiveStem, DidToFileName, Parse, EntryOk, Without;
    var s' := Published(cfg, s, req, times);
    RequestFacts(cfg.c, s.events, req);
    PublishedParts(cfg, s, req, times);
    var kept := Without(s.cdnQueue, req.agentDid);
    WithoutOnePerDid(s.cdnQueue, req.agentDid);
    forall i | 0 <= i < |s'.cdnQueue|
      ensures QueuedOk(s', s'.cdnQueue[i]) && (i < |kept| ==> s'.cdnQueue[i].did != req.agentDid)
    {
      if i < |kept| {
        WithoutMembers(s.cdnQueue, req.agentDid, kept[i]);
        assert DidOk(cfg, s, kept[i].did);
        FileNamesInjective(kept[i].did, req.agentDid);
      }
    }
  }

  // ----- every step, every run -----

  lemma DropKeepsOk(cfg: Config, s: Root, did: string)
    requires StoresOk(cfg, s)
    ensures StoresOk(cfg, s.(cdnQueue := Without(s.cdnQueue, did)))
  {
    hide Trusted, DocumentHash, Parse, ArchiveStem, DidToFileName, Without;
    var kept, s' := Without(s.cdnQueue, did), s.(cdnQueue := Without(s.cdnQueue, did));
    WithoutOnePerDid(s.cdnQueue, did);
    forall i | 0 <= i < |kept| ensures QueuedOk(s', kept[i]) {
      WithoutMembers(s.cdnQueue, did, kept[i]);
    }
    forall key | key in s'.archive ensures EntryOk(cfg, s', key) {
      assert EntryOk(cfg, s, key);
    }
    forall d | d in s'.latest ensures DidOk(cfg, s', d) {
      assert DidOk(cfg, s, d);
    }
  }

  /** Steps that leave the publication stores alone. */
  lemma OtherKeepsOk(cfg: Config, s: Root, s': Root)
    requires StoresOk(cfg, s) && s.events <= s'.events
    requires s'.latest == s.latest && s'.archive == s.archive && s'.verified == s.verified && s'.cdnQueue == s.cdnQueue
    ensures StoresOk(cfg, s')
  {
    hide Trusted, DocumentHash, Parse, ArchiveStem, DidToFileName;
    forall key | key in s'.archive ensures EntryOk(cfg, s', key) {
      assert EntryOk(cfg, s, key);
      TrustGrows(cfg.c, RootKey(cfg), s.events, s'.events, s.archive[key].package);
    }
    forall d | d in s'.latest ensures DidOk(cfg, s', d) {
      assert DidOk(cfg, s, d);
    }
    forall i | 0 <= i < |s'.cdnQueue| ensures QueuedOk(s', s'.cdnQueue[i]) {
      assert QueuedOk(s, s.cdnQueue[i]);
    }
  }

  lemma StepKeepsStores(cfg: Config, s: Root, op: Op)
    requires Ideal(cfg.c) && StoresOk(cfg, s)
    ensures StoresOk(cfg, Step(cfg, s, op).0)
    ensures ArchiveKept(s, Step(cfg, s, op).0)
  {
    hide Ideal, StoresOk, TryPublish, Append;
    match op
    case Publish(req, times) => PublishKeepsStores(cfg, s, req, times);
    case MarkPublished(did) => DropKeepsOk(cfg, s, did);
    case _ => OtherKeepsOk(cfg, s, Step(cfg, s, op).0);
  }

  lemma PublishKeepsStores(cfg: Config, s: Root, req: Request, times: Times)
    requires Ideal(cfg.c) && StoresOk(cfg, s)
    ensures StoresOk(cfg, TryPublish(cfg, s, req, times).0)
    ensures ArchiveKept(s, TryPublish(cfg, s, req, times).0)
  {
    hide Ideal, EntryOk, DidOk, QueueOk, Published, RequestError, SignatureError;
    var s1 := if req.nonce.Some? then s.(nonces := s.nonces + {req.nonce.value}) else s;
    OtherKeepsOk(cfg, s, s1);
    if TryPublish(cfg, s, req, times).1.None? {
      PublishKeepsEntries(cfg, s1, req, times);
      PublishKeepsDids(cfg, s1, req, times);
      PublishKeepsQueue(cfg, s1, req, times);
    }
  }

  lemma {:induction false} EveryRunKeepsStores(cfg: Config, seed: seq<Event>, auth: Authorization, ops: seq<Op>)
    requires Ideal(cfg.c)
    ensures StoresOk(cfg, After(cfg, Start(seed, auth), ops))
  {
    hide Ideal, Step, StoresOk;
    if ops == [] {
      StartStoresOk(cfg, seed, auth);
    } else {
      var init := ops[..|ops| - 1];
      EveryRunKeepsStores(cfg, seed, auth, init);
      StepKeepsStores(cfg, After(cfg, Start(seed, auth), init), ops[|ops| - 1]);
    }
  }

  lemma StartStoresOk(cfg: Config, seed: seq<Event>, auth: Authorization)
    ensures StoresOk(cfg, Start(seed, auth))
  {
  }

  /** Archive versions 1 to latest all exist in every reachable state, and nothing else does. */
  lemma ArchiveIsComplete(cfg: Config, seed: seq<Event>, auth: Authorization, ops: seq<Op>, did: string, version: nat)
    requires Ideal(cfg.c) && Parse(did).Ok?
    ensures var s := After(cfg, Start(seed, auth), ops);
      (ArchiveStem(did), version) in s.archive <==> did in s.latest && 1 <= version <= s.latest[did].version
  {
    hide Ideal, After, Parse, ArchiveStem, Trusted, DocumentHash;
    EveryRunKeepsStores(cfg, seed, auth, ops);
    var s, key := After(cfg, Start(seed, auth), ops), (ArchiveStem(did), version);
    if key in s.archive {
      assert EntryOk(cfg, s, key);
      var owner := s.archive[key].package.did;
      assert DidOk(cfg, s, owner);
      FileNamesInjective(owner, did);
    }
    if did in s.latest {
      assert DidOk(cfg, s, did);
    }
  }

  /** The document archived under a version never changes afterwards. */
  lemma {:induction false} ArchivedForGood(cfg: Config, seed: seq<Event>, auth: Authorization, ops: seq<Op>, n: nat)
    requires Ideal(cfg.c) && n <= |ops|
    ensures ArchiveKept(After(cfg, Start(seed, auth), ops[..n]), After(cfg, Start(seed, auth), ops))
    decreases |ops| - n
  {
    hide Ideal, Step, StoresOk;
    if n == |ops| {
      assert ops[..n] == ops;
    } else {
      var now, next := After(cfg, Start(seed, auth), ops[..n]), After(cfg, Start(seed, auth), ops[..n + 1]);
      assert ops[..n + 1][..n] == ops[..n];
      EveryRunKeepsStores(cfg, seed, auth, ops[..n]);
      StepKeepsStores(cfg, now, ops[n]);
      ArchivedForGood(cfg, seed, auth, ops, n + 1);
    }
  }

  /** A publication keeps its version exactly when the document is the one published last. */
  lemma NoOpIffSameDocument(cfg: Config, seed: seq<Event>, auth: Authorization, ops: seq<Op>, did: string, doc: DidDocument)
    requires Ideal(cfg.c)
    requires did in After(cfg, Start(seed, auth), ops).latest
    ensures var s := After(cfg, Start(seed, auth), ops);
      && LatestKey(s, did) in s.archive
      && (NextVersion(s.latest, did, DocumentHash(cfg.c, doc)) == s.latest[did].version <==> s.archive[LatestKey(s, did)].document == doc)
  {
    hide Ideal, After, Trusted, DocumentHash, Parse, ArchiveStem, DidToFileName;
    EveryRunKeepsStores(cfg, seed, auth, ops);
    var s := After(cfg, Start(seed, auth), ops);
    assert DidOk(cfg, s, did);
    SameHashSameDocument(cfg.c, s.archive[LatestKey(s, did)].document, doc);
  }

  // ----- what a Discovery node finds -----

  lemma TrustedReason(c: Suite, rootKey: string, events: seq<Event>, tags: seq<CapabilityTree.Tag>, domains: seq<string>, p: VerifiedPackage)
    requires Trusted(c, rootKey, events, p)
    ensures RejectionReason(c, rootKey, events, tags, domains, p)
         == if CapabilityTree.DomainsMatch(tags, p.metadata.capabilityTags, domains) then None else Some(UnauthorizedDomains)
  {
    hide IsIndexableAgent, DocumentHashOk, MetadataHashOk, RootProofOk;
  }

  /**
   Every package Root queues passes all checks of a Discovery node but the domain check, against the
   bulletin at that moment and against the bulletin after any further operations.
   */
  lemma QueuedIsTrustedForever(cfg: Config, seed: seq<Event>, auth: Authorization, ops: seq<Op>, n: nat, i: nat,
                               tags: seq<CapabilityTree.Tag>, domains: seq<string>)
    requires Ideal(cfg.c) && ChainOk(cfg.c, RootKey(cfg), seed) && n <= |ops|
    requires i < |After(cfg, Start(seed, auth), ops[..n]).cdnQueue|
    ensures var p, bulletin := After(cfg, Start(seed, auth), ops[..n]).cdnQueue[i], After(cfg, Start(seed, auth), ops).events;
      && ChainOk(cfg.c, RootKey(cfg), bulletin)
      && RejectionReason(cfg.c, RootKey(cfg), bulletin, tags, domains, p)
         == if CapabilityTree.DomainsMatch(tags, p.metadata.capabilityTags, domains) then None else Some(UnauthorizedDomains)
  {
    hide Ideal, ChainOk, After, Trusted, RejectionReason;
    var s, s' := After(cfg, Start(seed, auth), ops[..n]), After(cfg, Start(seed, auth), ops);
    EveryRunKeepsStores(cfg, seed, auth, ops[..n]);
    EveryBulletinPasses(cfg, Start(seed, auth), ops);
    BulletinGrows(cfg, Start(seed, auth), ops, n);
    assert QueuedOk(s, s.cdnQueue[i]);
    assert EntryOk(cfg, s, LatestKey(s, s.cdnQueue[i].did));
    TrustGrows(cfg.c, RootKey(cfg), s.events, s'.events, s.cdnQueue[i]);
    TrustedReason(cfg.c, RootKey(cfg), s'.events, tags, domains, s.cdnQueue[i]);
  }

  lemma {:induction false} BulletinGrows(cfg: Config, s: Root, ops: seq<Op>, n: nat)
    requires n <= |ops|
    ensures After(cfg, s, ops[..n]).events <= After(cfg, s, ops).events
  {
    hide Step;
    if n < |ops| {
      var init := ops[..|ops| - 1];
      BulletinGrows(cfg, s, init, n);
      assert init[..n] == ops[..n];
      StepEvents(cfg, After(cfg, s, init), ops[|ops| - 1]);
    } else {
      assert ops[..n] == ops;
    }
  }
}
