/**
 Runs in which an update is lost: one published while its predecessor is posted, and one published while
 another DID is being removed from the queue.
 */
module LossExamples {
  import opened Bulletin
  import opened CanonicalJson
  import opened CdnNode
  import opened Crypto
  import opened DidAns
  import opened Documents
  import opened Interleaving
  import opened Packages
  import opened RootArchive
  import opened RootInvariants
  import opened RootNode
  import opened System
  import opened Wrappers

  // ----- a Root that accepts a request -----

  /** Texts hash to themselves, and a signature is its key and its message. */
  function PlainSuite(): Suite {
    Suite(text => text, key => key, (key, m) => "s" + key + m, (key, m, signature) => signature == "s" + key + m,
          text => Some(text), _ => None)
  }

  lemma PlainIsIdeal()
    ensures Ideal(PlainSuite())
  {
  }

  function PlainConfig(): Config {
    Config(PlainSuite(), "root", "key", [])
  }

  const NO_AUTHORIZATION := Authorization(map[], map[], map[])

  const METHOD := VerificationMethod("method", "type", "controller", Some("registrar key"), None)

  const REGISTRAR_DOCUMENT := DidDocument([DID_CORE_CONTEXT], "registrar", [METHOD], ["method"], ["method"], [], None)

  /** A bulletin that authorizes the registrar. */
  ghost function Seed(): seq<Event> {
    [NextEvent(PlainSuite(), "key", "root", [], RegistrarAuthorized, "registrar", Null, 0)]
  }

  /** Revisions of a document differ in the endpoint of its service. */
  function AgentDocument(did: string, endpoint: string): DidDocument {
    DidDocument([DID_CORE_CONTEXT], did, [METHOD], ["method"], ["method"],
      [ServiceEndpoint("service", "type", endpoint, None, None, None, None)],
      Some(AnsMetadata(Agent, "agent", None, [], None, None, None, map[])))
  }

  ghost function RequestFor(did: string, endpoint: string): Request {
    var unsigned := Credential("registrar", did, "active", 0, Null, None);
    var signature := PlainSuite().sign("registrar key", HashJson(PlainSuite(), CredentialJson(unsigned)));
    Request("registrar", REGISTRAR_DOCUMENT, did, AgentDocument(did, endpoint), Null,
      unsigned.(proof := Some(CredentialProof("registrar", signature))), None, None, None)
  }

  ghost function PublicationOf(did: string, endpoint: string): Op {
    Publish(RequestFor(did, endpoint), Times(0, 0, 0))
  }

  predicate RegistrarStands(events: seq<Event>) {
    HasEvent(events, "registrar", RegistrarAuthorized) && !HasEvent(events, "registrar", RegistrarRevoked)
  }

  lemma SeedIsGood()
    ensures ChainOk(PlainSuite(), RootKey(PlainConfig()), Seed()) && RegistrarStands(Seed())
  {
    hide Ideal, HashCore, LinkOk;
    PlainIsIdeal();
    var core := EventCore(1, None, RegistrarAuthorized, "registrar", "root", Null, 0);
    assert ChainOk(PlainSuite(), RootKey(PlainConfig()), []);
    AppendPasses(PlainSuite(), "key", [], core);
    assert Seed() == [] + [Sign(PlainSuite(), "key", core)];
    assert Seed()[0].core == core;
  }

  lemma RegistrarKeyFound()
    ensures IssuerKey(PlainSuite(), REGISTRAR_DOCUMENT) == Ok("registrar key")
  {
    assert Suits(METHOD, ["method"], None);
  }

  lemma RequestIsAccepted(root: Root, did: string, endpoint: string)
    requires RegistrarStands(root.events) && Parse(did).Ok?
    ensures RequestError(PlainSuite(), root.events, RequestFor(did, endpoint)).None?
  {
    hide HashJson, CredentialJson, HasEvent, Parse, FindMethod;
    RegistrarKeyFound();
    assert did != "" by { ParsedIsAssembled(did); }
  }

  lemma Accepted(root: Root, did: string, endpoint: string)
    requires RegistrarStands(root.events) && Parse(did).Ok?
    ensures PublishesFor(PlainConfig(), root, PublicationOf(did, endpoint), did)
  {
    hide RequestError, Parse, Published, RegistrarStands;
    RequestIsAccepted(root, did, endpoint);
  }

  lemma StillStands(root: Root, did: string, endpoint: string)
    requires RegistrarStands(root.events) && Parse(did).Ok?
    ensures RegistrarStands(Step(PlainConfig(), root, PublicationOf(did, endpoint)).0.events)
  {
    hide Step, PublishEvent, PublishesFor, Parse, RequestFor, RegistrarStands;
    Accepted(root, did, endpoint);
    IsPublication(did, endpoint);
    PublishAppends(PlainConfig(), root, PublicationOf(did, endpoint));
    var req := RequestFor(did, endpoint);
    var e := PublishEvent(PlainConfig(), root.events, root.latest, req, Times(0, 0, 0));
    PublishEventReads(PlainConfig(), root.events, root.latest, req, Times(0, 0, 0));
    StandsThrough(root.events, e);
  }

  lemma StandsThrough(events: seq<Event>, e: Event)
    requires RegistrarStands(events) && e.core.eventType != RegistrarRevoked
    ensures RegistrarStands(events + [e])
  {
    var longer := events + [e];
    var i :| 0 <= i < |events| && events[i].core.subjectDid == "registrar" && events[i].core.eventType == RegistrarAuthorized;
    assert longer[i] == events[i];
    assert forall j :: 0 <= j < |longer| ==> longer[j] == if j < |events| then events[j] else e;
  }

  lemma IsPublication(did: string, endpoint: string)
    ensures var op := PublicationOf(did, endpoint);
      op.Publish? && op.req.agentDid == did && op.req.document == AgentDocument(did, endpoint)
  {
    hide HashJson, CredentialJson;
  }

  const FIRST := Assemble("AGDM", "1111111111111111111111")
  const SECOND := Assemble("AGDM", "2222222222222222222222")

  lemma BothParse()
    ensures Parse(FIRST).Ok? && Parse(SECOND).Ok? && FIRST != SECOND
  {
    hide Parse;
    ParseAssembled("AGDM", "1111111111111111111111");
    ParseAssembled("AGDM", "2222222222222222222222");
    assert FIRST[13] == '1' && SECOND[13] == '2';
  }

  // ----- the runs -----

  /** The first DID is published and its package read by a batch. */
  ghost function Reading(): Net {
    Run(PlainConfig(), Begin(Seed(), NO_AUTHORIZATION), [AtRoot(PublicationOf(FIRST, "old")), ReadQueue])
  }

  /** A package published into an empty queue is the one a batch then reads. */
  lemma PublishedAndRead(cfg: Config, s: Net, op: Op, did: string)
    requires Ideal(cfg.c) && Good(cfg, s) && op.Publish? && PublishesFor(cfg, s.root, op, did) && s.root.cdnQueue == []
    ensures var s', p := Run(cfg, s, [AtRoot(op), ReadQueue]), Made(cfg, s.root, op);
      && Good(cfg, s') && s'.root == Step(cfg, s.root, op).0 && s'.root.cdnQueue == [p]
      && Newest(s'.root, did) == Some(p) && p in s'.taken && p.did == did && did in s'.root.latest
  {
    hide Ideal, Good, Step, PublishesFor, Parse, Newest, Made, Without;
    RunTwo(cfg, s, AtRoot(op), ReadQueue);
    var s1 := Act(cfg, s, AtRoot(op));
    ActKeepsGood(cfg, s, AtRoot(op));
    ActKeepsGood(cfg, s1, ReadQueue);
    PublishOwn(cfg, s.root, op, did);
    NothingWithout(did);
    assert s1.root.cdnQueue == [Made(cfg, s.root, op)];
    assert Made(cfg, s.root, op) in FirstOf(s1.root.cdnQueue);
  }

  lemma NothingWithout(did: string)
    ensures Without([], did) == []
  {
  }

  lemma RunTwo(cfg: Config, s: Net, a: Action, b: Action)
    ensures Run(cfg, s, [a, b]) == Act(cfg, Act(cfg, s, a), b)
  {
    hide Act;
    assert [a, b] == ([] + [a]) + [b];
    RunOne(cfg, s, [], a);
    RunOne(cfg, s, [] + [a], b);
  }

  lemma MadeHasDocument(cfg: Config, root: Root, op: Op)
    requires op.Publish?
    ensures Made(cfg, root, op).document == op.req.document
  {
    hide PublishEvent, BuildMetadata, MetadataHash, DocumentHash;
  }

  lemma ReadingIs()
    ensures var s := Reading();
      && Good(PlainConfig(), s) && RegistrarStands(s.root.events) && FIRST in s.root.latest
      && Newest(s.root, FIRST).Some? && s.root.cdnQueue == [Newest(s.root, FIRST).value]
      && var p := Newest(s.root, FIRST).value;
      p in s.taken && p.did == FIRST && p.document == AgentDocument(FIRST, "old")
  {
    hide Ideal, Good, ChainOk, Step, Run, Seed, PublicationOf, RegistrarStands, PublishesFor, Parse, Newest, Made, AgentDocument;
    PlainIsIdeal();
    SeedIsGood();
    BothParse();
    var s0, op := Begin(Seed(), NO_AUTHORIZATION), PublicationOf(FIRST, "old");
    BeginIsGood(PlainConfig(), Seed(), NO_AUTHORIZATION);
    Accepted(s0.root, FIRST, "old");
    StillStands(s0.root, FIRST, "old");
    IsPublication(FIRST, "old");
    PublishedAndRead(PlainConfig(), s0, op, FIRST);
    MadeHasDocument(PlainConfig(), s0.root, op);
  }

  /** The newest package of the DID has this document, and no one is served it or will be. */
  ghost predicate HasLost(s: Net, did: string, document: DidDocument) {
    did in s.root.latest && Newest(s.root, did).Some? && Newest(s.root, did).value.document == document && !Current(s, did)
  }

  lemma OnePublication(root: Root, did: string, endpoint: string)
    requires RegistrarStands(root.events) && Parse(did).Ok?
    ensures var op := PublicationOf(did, endpoint);
      && PublishedIn(PlainConfig(), root, [op], did) && After(PlainConfig(), root, [op]) == Step(PlainConfig(), root, op).0
      && did in Step(PlainConfig(), root, op).0.latest
      && Newest(Step(PlainConfig(), root, op).0, did).Some?
      && Newest(Step(PlainConfig(), root, op).0, did).value.document == AgentDocument(did, endpoint)
  {
    hide PublishesFor, RegistrarStands, Parse, PublicationOf, Step, Newest, Made, AgentDocument;
    var op := PublicationOf(did, endpoint);
    Accepted(root, did, endpoint);
    IsPublication(did, endpoint);
    PublishOwn(PlainConfig(), root, op, did);
    MadeHasDocument(PlainConfig(), root, op);
    assert [op][..0] == [];
  }

  /** One handler in the slot, before the removal's read or after it. */
  lemma SlotWithOne(cfg: Config, s: Net, p: VerifiedPackage, slot: Slot, op: Op, did: string)
    requires p in s.taken && slot.outcome == Confirmed && slot.before + slot.during + slot.writing == [op]
    ensures var end := RunSlot(cfg, s, p, slot);
      && Newest(end.root, did) == Newest(After(cfg, s.root, [op]), did) && end.root.latest == After(cfg, s.root, [op]).latest
      && end.posts == s.posts + [p]
  {
    hide Run, RunSlot, UntilRemoval, After, Newest, Without;
    UntilRemovalIs(cfg, s, p, slot);
    RunSlotIs(cfg, s, p, slot);
    var s1 := UntilRemoval(cfg, s, p, slot);
    AfterAppended(cfg, s.root, slot.before + slot.during, slot.writing);
    NewestIgnoresQueue(After(cfg, s1.root, slot.writing), Without(s1.root.cdnQueue, p.did), did);
  }

  /**
   A batch posts the package of a document; while it does, another document is accepted for the DID;
   then it removes the DID. The new document is neither served nor queued, and the old one is served.
   */
  lemma LostDuringPost()
    ensures Ideal(PlainSuite()) && ChainOk(PlainSuite(), RootKey(PlainConfig()), Seed())
    ensures var s := Reading();
      && Newest(s.root, FIRST).Some?
      && var p := Newest(s.root, FIRST).value;
      var end := RunSlot(PlainConfig(), s, p, Slot(Confirmed, [], [PublicationOf(FIRST, "new")], []));
      && p.document == AgentDocument(FIRST, "old") && HasLost(end, FIRST, AgentDocument(FIRST, "new"))
      && LatestFor(end.posts, FIRST) == Some(p) && AgentDocument(FIRST, "old") != AgentDocument(FIRST, "new")
  {
    hide Ideal, ChainOk, Good, Run, RunSlot, Current, Newest, Genuine, LatestFor, RegistrarStands, Reading, PublicationOf, PublishedIn, PublishesFor, Parse, Seed, After, Step;
    PlainIsIdeal();
    SeedIsGood();
    BothParse();
    ReadingIs();
    var s, op := Reading(), PublicationOf(FIRST, "new");
    var p, slot := Newest(s.root, FIRST).value, Slot(Confirmed, [], [op], []);
    IsPublication(FIRST, "new");
    OnePublication(s.root, FIRST, "new");
    assert slot.before + slot.during == [op] && slot.before + slot.during + slot.writing == [op];
    SlotWithOne(PlainConfig(), s, p, slot, op, FIRST);
    SlotKeepsIff(PlainConfig(), s, p, slot, FIRST);
    LatestSnoc(s.posts, p, FIRST);
    EndpointsDiffer();
  }

  lemma EndpointsDiffer()
    ensures AgentDocument(FIRST, "old") != AgentDocument(FIRST, "new")
  {
    assert AgentDocument(FIRST, "old").service[0].endpoint[0] != AgentDocument(FIRST, "new").service[0].endpoint[0];
  }

  /**
   A batch posts a package and then removes its DID; while the removal rewrites the queue, a document is
   accepted for another DID. That document is neither served nor queued.
   */
  lemma LostDuringRemoval()
    ensures Ideal(PlainSuite()) && ChainOk(PlainSuite(), RootKey(PlainConfig()), Seed()) && FIRST != SECOND
    ensures var s := Reading();
      && Newest(s.root, FIRST).Some?
      && var p := Newest(s.root, FIRST).value;
      HasLost(RunSlot(PlainConfig(), s, p, Slot(Confirmed, [], [], [PublicationOf(SECOND, "new")])), SECOND, AgentDocument(SECOND, "new"))
  {
    hide Ideal, ChainOk, Good, Run, RunSlot, Current, Newest, Genuine, RegistrarStands, Reading, PublicationOf, PublishedIn, PublishesFor, Parse, Seed, Step;
    PlainIsIdeal();
    SeedIsGood();
    BothParse();
    ReadingIs();
    var s, op := Reading(), PublicationOf(SECOND, "new");
    var p, slot := Newest(s.root, FIRST).value, Slot(Confirmed, [], [], [op]);
    IsPublication(SECOND, "new");
    OnePublication(s.root, SECOND, "new");
    assert slot.before + slot.during == [] && slot.before + slot.during + slot.writing == [op];
    assert After(PlainConfig(), s.root, []) == s.root;
    SlotWithOne(PlainConfig(), s, p, slot, op, SECOND);
    SlotKeepsIff(PlainConfig(), s, p, slot, SECOND);
  }

  /** Two batches: one has read a package and posts it after the other posted and removed its successor. */
  ghost function SlowerBatch(p: VerifiedPackage, op: Op, q: VerifiedPackage): seq<Action> {
    [AtRoot(op), ReadQueue, Post(q), AtRoot(MarkPublished(p.did)), Post(p)]
  }

  lemma RunFive(cfg: Config, s: Net, a: Action, b: Action, x: Action, y: Action, z: Action)
    ensures Run(cfg, s, [a, b, x, y, z]) == Act(cfg, Act(cfg, Act(cfg, Act(cfg, Act(cfg, s, a), b), x), y), z)
  {
    hide Act;
    assert [a, b, x, y, z] == ([a, b] + [x] + [y]) + [z];
    RunTwo(cfg, s, a, b);
    RunOne(cfg, s, [a, b], x);
    RunOne(cfg, s, [a, b] + [x], y);
    RunOne(cfg, s, [a, b] + [x] + [y], z);
  }

  /** In every state: the older package is served again, and the newer one is lost. */
  lemma OlderPostWins(cfg: Config, s: Net, p: VerifiedPackage, op: Op)
    requires Ideal(cfg.c) && Good(cfg, s) && p in s.taken && |s.root.cdnQueue| < BATCH_SIZE
    requires op.Publish? && PublishesFor(cfg, s.root, op, p.did)
    ensures var q := Made(cfg, s.root, op);
      var end := Run(cfg, s, SlowerBatch(p, op, q));
      && Newest(end.root, p.did) == Some(q) && q != p && p.did in end.root.latest
      && LatestFor(end.posts, p.did) == Some(p) && !Current(end, p.did)
  {
    hide Ideal, ChainOk, StoresOk, Run, Step, PublishesFor, Parse, Newest, Made, Without, LatestFor, Trusted;
    var did, q := p.did, Made(cfg, s.root, op);
    RunFive(cfg, s, AtRoot(op), ReadQueue, Post(q), AtRoot(MarkPublished(did)), Post(p));
    PublishesNothingElse(cfg, s.root, op, did);
    PublishOwn(cfg, s.root, op, did);
    MadeIsFresh(cfg, s.root, op, p);
    var s1 := Act(cfg, s, AtRoot(op));
    ShorterWithout(s.root.cdnQueue, did);
    assert q in FirstOf(s1.root.cdnQueue) by { assert s1.root.cdnQueue[|s1.root.cdnQueue| - 1] == q; }
    MarkDrops(cfg, s1.root, did);
    LatestSnoc(s.posts + [q], p, did);
    if q in Without(s1.root.cdnQueue, did) {
      WithoutMembers(s1.root.cdnQueue, did, q);
    }
  }

  lemma MarkDrops(cfg: Config, root: Root, did: string)
    ensures Step(cfg, root, MarkPublished(did)).0 == root.(cdnQueue := Without(root.cdnQueue, did))
    ensures Newest(Step(cfg, root, MarkPublished(did)).0, did) == Newest(root, did)
  {
    hide Without;
  }

  lemma {:induction false} ShorterWithout(queue: seq<VerifiedPackage>, did: string)
    ensures |Without(queue, did)| <= |queue|
  {
    if queue != [] {
      ShorterWithout(queue[1..], did);
    }
  }

  /** A document whose package was served is lost to the post of its predecessor by a slower batch. */
  lemma LostToOlderPost()
    ensures Ideal(PlainSuite()) && ChainOk(PlainSuite(), RootKey(PlainConfig()), Seed())
    ensures var s, op := Reading(), PublicationOf(FIRST, "new");
      && Newest(s.root, FIRST).Some? && op.Publish?
      && var p := Newest(s.root, FIRST).value;
      var end := Run(PlainConfig(), s, SlowerBatch(p, op, Made(PlainConfig(), s.root, op)));
      && p.document == AgentDocument(FIRST, "old") && LatestFor(end.posts, FIRST) == Some(p)
      && HasLost(end, FIRST, AgentDocument(FIRST, "new"))
  {
    hide Ideal, ChainOk, Good, Run, Current, Newest, RegistrarStands, Reading, PublicationOf, PublishesFor, Parse, Seed, Made, LatestFor, AgentDocument, SlowerBatch;
    PlainIsIdeal();
    SeedIsGood();
    BothParse();
    ReadingIs();
    var s, op := Reading(), PublicationOf(FIRST, "new");
    IsPublication(FIRST, "new");
    Accepted(s.root, FIRST, "new");
    MadeHasDocument(PlainConfig(), s.root, op);
    OlderPostWins(PlainConfig(), s, Newest(s.root, FIRST).value, op);
  }
}
