/**
 Root, the CDN and a Discovery node together: what reaches the CDN, what a synchronisation makes of
 it, and when an update can be lost between the two.
 */
module System {
  import opened Bulletin
  import opened CanonicalJson
  import opened CdnNode
  import opened Crypto
  import opened DidAns
  import opened Packages
  import opened RootArchive
  import opened RootInvariants
  import opened RootNode
  import opened Wrappers
  import CapabilityTree

  /**
   `posts` are the publications the CDN stored, `taken` the packages any publication batch ever read
   from the queue. Batches do not take Root's lock, so a package may be posted any time after it was
   read, and more than once. A removal reads the queue and writes it back without a DID in two steps;
   `rewrites` are the lists any removal is to write back.
   */
  datatype Net = Net(root: Root, posts: seq<VerifiedPackage>, taken: set<VerifiedPackage>, rewrites: set<seq<VerifiedPackage>>)

  /** A removal nothing comes between is the one step `AtRoot(MarkPublished(did))`. */
  datatype Action =
    | AtRoot(op: Op)
    | ReadQueue
    | Post(p: VerifiedPackage)
    | ReadForRemoval(did: string)
    | WriteBack(kept: seq<VerifiedPackage>)

  /** How one post ended; `Unconfirmed` is a package the CDN stored while its answer was lost. */
  datatype Outcome = Confirmed | Unconfirmed | Failed

  const BATCH_SIZE := 50

  /** `queue.into_iter().take(batch_size)` */
  function FirstOf(queue: seq<VerifiedPackage>): seq<VerifiedPackage> {
    if |queue| <= BATCH_SIZE then queue else queue[..BATCH_SIZE]
  }

  ghost function Act(cfg: Config, s: Net, a: Action): Net {
    match a
    case AtRoot(op) => s.(root := Step(cfg, s.root, op).0)
    case ReadQueue => s.(taken := s.taken + set p | p in FirstOf(s.root.cdnQueue))
    case Post(p) => if p in s.taken then s.(posts := s.posts + [p]) else s
    case ReadForRemoval(did) => s.(rewrites := s.rewrites + {Without(s.root.cdnQueue, did)})
    case WriteBack(kept) => if kept in s.rewrites then s.(root := s.root.(cdnQueue := kept)) else s
  }

  ghost function Run(cfg: Config, s: Net, actions: seq<Action>): Net {
    if actions == [] then s else Act(cfg, Run(cfg, s, actions[..|actions| - 1]), actions[|actions| - 1])
  }

  function Begin(seed: seq<Event>, auth: Authorization): Net {
    Net(Start(seed, auth), [], {}, {})
  }

  lemma {:induction false} RunAppended(cfg: Config, s: Net, a: seq<Action>, b: seq<Action>)
    ensures Run(cfg, s, a + b) == Run(cfg, Run(cfg, s, a), b)
  {
    hide Act;
    if b == [] {
      assert a + b == a;
    } else {
      RunAppended(cfg, s, a, b[..|b| - 1]);
      assert (a + b)[..|a + b| - 1] == a + b[..|b| - 1];
    }
  }

  lemma RunOne(cfg: Config, s: Net, a: seq<Action>, b: Action)
    ensures Run(cfg, s, a + [b]) == Act(cfg, Run(cfg, s, a), b)
  {
    assert (a + [b])[..|a|] == a;
  }

  // ----- what any interleaving keeps -----

  ghost predicate Genuine(cfg: Config, root: Root, p: VerifiedPackage) {
    Parse(p.did).Ok? && p.did in root.latest && Trusted(cfg.c, RootKey(cfg), root.events, p)
  }

  ghost predicate AllGenuine(cfg: Config, root: Root, ps: seq<VerifiedPackage>) {
    forall p :: p in ps ==> Genuine(cfg, root, p)
  }

  /** A write-back can bring an older package back into the queue, so of a queue only this is kept. */
  ghost predicate SoundQueue(cfg: Config, root: Root, queue: seq<VerifiedPackage>) {
    AllGenuine(cfg, root, queue) && OnePerDid(queue)
  }

  ghost predicate Good(cfg: Config, s: Net) {
    && StoresOk(cfg, Emptied(s.root)) && ChainOk(cfg.c, RootKey(cfg), s.root.events)
    && SoundQueue(cfg, s.root, s.root.cdnQueue)
    && (forall p :: p in s.taken ==> Genuine(cfg, s.root, p))
    && (forall kept :: kept in s.rewrites ==> SoundQueue(cfg, s.root, kept))
    && (forall p :: p in s.posts ==> p in s.taken)
  }

  function Emptied(root: Root): Root {
    root.(cdnQueue := [])
  }

  lemma EmptiedIsOk(cfg: Config, root: Root)
    requires StoresOk(cfg, root)
    ensures StoresOk(cfg, Emptied(root))
  {
    hide Trusted, Parse, ArchiveStem, DidToFileName, DocumentHash;
    forall key | key in root.archive ensures EntryOk(cfg, Emptied(root), key) {
      assert EntryOk(cfg, root, key);
    }
    forall did | did in root.latest ensures DidOk(cfg, Emptied(root), did) {
      assert DidOk(cfg, root, did);
    }
  }

  lemma PublishedAlike(cfg: Config, root: Root, req: Request, times: Times)
    ensures Emptied(Published(cfg, Emptied(root), req, times)) == Emptied(Published(cfg, root, req, times))
  {
    hide PublishEvent, BuildPackage, BuildMetadata, MetadataHash, DocumentHash, NextVersion, ArchiveStem, DidToFileName, Without;
  }

  /** No handler looks at the queue. */
  lemma QueueDecidesNothing(cfg: Config, root: Root, op: Op)
    ensures Emptied(Step(cfg, Emptied(root), op).0) == Emptied(Step(cfg, root, op).0)
    ensures Step(cfg, Emptied(root), op).1 == Step(cfg, root, op).1
  {
    hide Published, RequestError, SignatureError, Append, Routed, Revoked, WithDomains, DomainsOf, DocumentHash, Without, AuthorizePayload;
    if op.Publish? {
      var spent := if op.req.nonce.Some? then root.(nonces := root.nonces + {op.req.nonce.value}) else root;
      assert Emptied(spent) == if op.req.nonce.Some? then Emptied(root).(nonces := root.nonces + {op.req.nonce.value}) else Emptied(root);
      PublishedAlike(cfg, spent, op.req, op.times);
    }
  }

  lemma StepKeepsDids(cfg: Config, s: Root, op: Op)
    ensures s.latest.Keys <= Step(cfg, s, op).0.latest.Keys
  {
    hide Step, NewEvent;
    if NewEvent(cfg, s, op).Some? {
      ReplayOne(cfg, s, op);
    } else {
      SilentStep(cfg, s, op);
    }
  }

  lemma GenuineStays(cfg: Config, s: Root, s': Root, p: VerifiedPackage)
    requires Genuine(cfg, s, p) && s.events <= s'.events && s.latest.Keys <= s'.latest.Keys
    ensures Genuine(cfg, s', p)
  {
    hide Trusted, Parse;
    TrustGrows(cfg.c, RootKey(cfg), s.events, s'.events, p);
  }

  // ----- the newest package of a DID -----

  /** The package Root published last for a DID. */
  function Newest(root: Root, did: string): Option<VerifiedPackage> {
    var file := DidToFileName(did);
    if did in root.latest && file in root.verified then Some(root.verified[file]) else None
  }

  lemma NewestIgnoresQueue(root: Root, queue: seq<VerifiedPackage>, did: string)
    ensures Newest(root.(cdnQueue := queue), did) == Newest(root, did)
  {
  }

  lemma NewestIsOwn(cfg: Config, root: Root, did: string)
    requires StoresOk(cfg, Emptied(root)) && did in root.latest
    ensures Newest(root, did).Some? && Newest(root, did).value.did == did && Parse(did).Ok?
    ensures Genuine(cfg, root, Newest(root, did).value)
    ensures Newest(root, did).value.documentHash == root.latest[did].documentHash
  {
    hide Parse, ArchiveStem, DidToFileName, MetadataHashOk, RootProofOk, IsIndexableAgent, HashJson;
    assert DidOk(cfg, Emptied(root), did);
    assert EntryOk(cfg, Emptied(root), LatestKey(Emptied(root), did));
  }

  /** The operation publishes a package for the DID. */
  ghost predicate PublishesFor(cfg: Config, root: Root, op: Op, did: string) {
    op.Publish? && op.req.agentDid == did && TryPublish(cfg, root, op.req, op.times).1.None?
  }

  lemma PublishesNothingElse(cfg: Config, root: Root, op: Op, did: string)
    requires PublishesFor(cfg, root, op, did)
    ensures op.Publish? && op.req.agentDid == did
  {
    hide TryPublish;
  }

  /** The package a publication makes. */
  ghost function Made(cfg: Config, root: Root, op: Op): VerifiedPackage
    requires op.Publish?
  {
    BuildPackage(cfg, PublishEvent(cfg, root.events, root.latest, op.req, op.times), op.req, op.times)
  }

  lemma PublishOwn(cfg: Config, root: Root, op: Op, did: string)
    requires op.Publish? && PublishesFor(cfg, root, op, did)
    ensures var root', p := Step(cfg, root, op).0, Made(cfg, root, op);
      && root'.cdnQueue == Without(root.cdnQueue, did) + [p] && Newest(root', did) == Some(p)
      && p.did == did && did in root'.latest && Parse(did).Ok?
  {
    hide Published, PublishEvent, BuildPackage, DidToFileName, Parse, RequestError, SignatureError, Without;
    var s1 := if op.req.nonce.Some? then root.(nonces := root.nonces + {op.req.nonce.value}) else root;
    RequestFacts(cfg.c, root.events, op.req);
    PublishedParts(cfg, s1, op.req, op.times);
  }

  lemma NewDidIsPublished(cfg: Config, root: Root, op: Op, did: string)
    requires did in Step(cfg, root, op).0.latest && did !in root.latest
    ensures PublishesFor(cfg, root, op, did)
  {
    hide Step, NewEvent, PublishEvent, TryPublish, LatestOf;
    if NewEvent(cfg, root, op).Some? {
      ReplayOne(cfg, root, op);
      OnlyPublishIsAgent(cfg, root, op);
      PublishEventReads(cfg, root.events, root.latest, op.req, op.times);
      AgentEventIsPublished(cfg, root, op);
    } else {
      SilentStep(cfg, root, op);
    }
  }

  lemma AgentEventIsPublished(cfg: Config, root: Root, op: Op)
    requires op.Publish? && NewEvent(cfg, root, op).Some?
    ensures PublishesFor(cfg, root, op, op.req.agentDid)
  {
    hide TryPublish, PublishEvent;
  }

  /** An operation that publishes nothing for the DID leaves its newest package alone. */
  lemma NewestStays(cfg: Config, root: Root, op: Op, did: string)
    requires !PublishesFor(cfg, root, op, did) && (did in root.latest ==> Parse(did).Ok?)
    ensures Newest(Step(cfg, root, op).0, did) == Newest(root, did)
  {
    hide PublishEvent, BuildPackage, DidToFileName, Parse, RequestError, SignatureError, Append, Published;
    StepKeepsDids(cfg, root, op);
    if did in Step(cfg, root, op).0.latest && did !in root.latest {
      NewDidIsPublished(cfg, root, op, did);
    }
    if op.Publish? && TryPublish(cfg, root, op.req, op.times).1.None? && did in root.latest {
      var s1 := if op.req.nonce.Some? then root.(nonces := root.nonces + {op.req.nonce.value}) else root;
      RequestFacts(cfg.c, root.events, op.req);
      PublishedParts(cfg, s1, op.req, op.times);
      FileNamesInjective(op.req.agentDid, did);
    }
  }

  // ----- every interleaving -----

  lemma QueuedIsGenuine(cfg: Config, root: Root, i: nat)
    requires StoresOk(cfg, root) && i < |root.cdnQueue|
    ensures Genuine(cfg, root, root.cdnQueue[i])
    ensures Newest(root, root.cdnQueue[i].did) == Some(root.cdnQueue[i])
  {
    hide Trusted, Parse, ArchiveStem, DidToFileName, DocumentHash;
    var p := root.cdnQueue[i];
    assert QueuedOk(root, p);
    assert DidOk(cfg, root, p.did);
    assert EntryOk(cfg, root, LatestKey(root, p.did));
  }

  /** A handler queues nothing but the package it makes. */
  lemma StepQueue(cfg: Config, root: Root, op: Op, p: VerifiedPackage)
    requires p in Step(cfg, root, op).0.cdnQueue
    ensures p in root.cdnQueue || (PublishesFor(cfg, root, op, p.did) && Newest(Step(cfg, root, op).0, p.did) == Some(p))
  {
    hide PublishEvent, BuildPackage, RequestError, SignatureError, Append, Published, Newest, Without, DidToFileName;
    match op
    case MarkPublished(did) => WithoutMembers(root.cdnQueue, did, p);
    case Publish(req, times) =>
      if TryPublish(cfg, root, req, times).1.None? {
        PublishOwn(cfg, root, op, req.agentDid);
        WithoutMembers(root.cdnQueue, req.agentDid, p);
      }
    case _ =>
  }

  lemma StepKeepsOnePerDid(cfg: Config, root: Root, op: Op)
    requires OnePerDid(root.cdnQueue)
    ensures OnePerDid(Step(cfg, root, op).0.cdnQueue)
  {
    hide PublishEvent, BuildPackage, RequestError, SignatureError, Append, Published, Newest, Without, DidToFileName;
    match op
    case MarkPublished(did) => WithoutOnePerDid(root.cdnQueue, did);
    case Publish(req, times) =>
      if TryPublish(cfg, root, req, times).1.None? {
        var kept := Without(root.cdnQueue, req.agentDid);
        PublishOwn(cfg, root, op, req.agentDid);
        WithoutOnePerDid(root.cdnQueue, req.agentDid);
        forall i | 0 <= i < |kept| ensures kept[i].did != req.agentDid {
          WithoutMembers(root.cdnQueue, req.agentDid, kept[i]);
        }
      }
    case _ =>
  }

  lemma StepKeepsGood(cfg: Config, s: Net, op: Op)
    requires Ideal(cfg.c) && Good(cfg, s)
    ensures Good(cfg, Act(cfg, s, AtRoot(op)))
    ensures s.root.events <= Act(cfg, s, AtRoot(op)).root.events
  {
    hide Ideal, StoresOk, ChainOk, OnePerDid, Step, NewEvent, Genuine, Newest, PublishesFor, Emptied;
    var root, root' := s.root, Step(cfg, s.root, op).0;
    StepKeepsStores(cfg, Emptied(root), op);
    EmptiedIsOk(cfg, Step(cfg, Emptied(root), op).0);
    QueueDecidesNothing(cfg, root, op);
    ChainStepOk(cfg, root, op);
    StepEvents(cfg, root, op);
    StepKeepsDids(cfg, root, op);
    StepKeepsOnePerDid(cfg, root, op);
    forall p | Genuine(cfg, root, p) ensures Genuine(cfg, root', p) {
      GenuineStays(cfg, root, root', p);
    }
    forall p | p in root'.cdnQueue ensures Genuine(cfg, root', p) {
      StepQueue(cfg, root, op, p);
      if p !in root.cdnQueue {
        PublishesNothingElse(cfg, root, op, p.did);
        PublishOwn(cfg, root, op, p.did);
        NewestIsOwn(cfg, root', p.did);
      }
    }
  }

  lemma ActKeepsGood(cfg: Config, s: Net, a: Action)
    requires Ideal(cfg.c) && Good(cfg, s)
    ensures Good(cfg, Act(cfg, s, a))
    ensures s.root.events <= Act(cfg, s, a).root.events
  {
    hide Ideal, StoresOk, ChainOk, OnePerDid, Step, Genuine, Without;
    match a
    case AtRoot(op) => StepKeepsGood(cfg, s, op);
    case ReadQueue =>
      assert forall p :: p in FirstOf(s.root.cdnQueue) ==> p in s.root.cdnQueue;
    case Post(_) =>
    case ReadForRemoval(did) =>
      forall p | p in Without(s.root.cdnQueue, did) ensures p in s.root.cdnQueue {
        WithoutMembers(s.root.cdnQueue, did, p);
      }
      WithoutOnePerDid(s.root.cdnQueue, did);
    case WriteBack(_) => WriteBackKeepsGood(cfg, s, Act(cfg, s, a));
  }

  lemma WriteBackKeepsGood(cfg: Config, s: Net, s': Net)
    requires Good(cfg, s) && s' == s.(root := s.root.(cdnQueue := s'.root.cdnQueue))
    requires SoundQueue(cfg, s.root, s'.root.cdnQueue)
    ensures Good(cfg, s')
  {
    hide StoresOk, ChainOk, OnePerDid, Trusted, Parse;
    assert Emptied(s'.root) == Emptied(s.root);
    forall p | Genuine(cfg, s.root, p) ensures Genuine(cfg, s'.root, p) {
      GenuineStays(cfg, s.root, s'.root, p);
    }
  }

  lemma {:induction false} EveryRunIsGood(cfg: Config, s: Net, actions: seq<Action>)
    requires Ideal(cfg.c) && Good(cfg, s)
    ensures Good(cfg, Run(cfg, s, actions))
    ensures s.root.events <= Run(cfg, s, actions).root.events
  {
    hide Ideal, Good, Act;
    if actions != [] {
      EveryRunIsGood(cfg, s, actions[..|actions| - 1]);
      ActKeepsGood(cfg, Run(cfg, s, actions[..|actions| - 1]), actions[|actions| - 1]);
    }
  }

  lemma BeginIsGood(cfg: Config, seed: seq<Event>, auth: Authorization)
    requires ChainOk(cfg.c, RootKey(cfg), seed)
    ensures Good(cfg, Begin(seed, auth))
  {
    hide ChainOk;
    StartStoresOk(cfg, seed, auth);
  }

  lemma PostsParse(cfg: Config, s: Net)
    requires Good(cfg, s)
    ensures AllParse(s.posts)
  {
    hide StoresOk, ChainOk, Trusted, Parse;
    forall i | 0 <= i < |s.posts| ensures Parse(s.posts[i].did).Ok? {
      assert s.posts[i] in s.posts;
    }
  }

  // ----- where packages come from -----

  lemma PublishAppends(cfg: Config, root: Root, op: Op)
    requires op.Publish? && PublishesFor(cfg, root, op, op.req.agentDid)
    ensures Step(cfg, root, op).0.events == root.events + [PublishEvent(cfg, root.events, root.latest, op.req, op.times)]
  {
    hide Step, PublishEvent, TryPublish;
    StepEvents(cfg, root, op);
  }

  /** Action `k` is an accepted publication for the package's DID, and this is the package it made. */
  ghost predicate MadeAt(cfg: Config, s: Net, actions: seq<Action>, k: nat, p: VerifiedPackage) {
    && k < |actions| && actions[k].AtRoot? && actions[k].op.Publish?
    && var root := Run(cfg, s, actions[..k]).root;
    PublishesFor(cfg, root, actions[k].op, p.did) && p == Made(cfg, root, actions[k].op)
  }

  ghost predicate WasMade(cfg: Config, s: Net, actions: seq<Action>, p: VerifiedPackage) {
    exists k: nat :: MadeAt(cfg, s, actions, k, p)
  }

  lemma StillMade(cfg: Config, s: Net, actions: seq<Action>, p: VerifiedPackage)
    requires actions != [] && WasMade(cfg, s, actions[..|actions| - 1], p)
    ensures WasMade(cfg, s, actions, p)
  {
    hide Run, PublishesFor, Made;
    var init := actions[..|actions| - 1];
    var k: nat :| MadeAt(cfg, s, init, k, p);
    assert init[..k] == actions[..k];
    assert MadeAt(cfg, s, actions, k, p);
  }

  lemma NowMade(cfg: Config, s: Net, actions: seq<Action>, p: VerifiedPackage)
    requires actions != [] && actions[|actions| - 1].AtRoot?
    requires var root, op := Run(cfg, s, actions[..|actions| - 1]).root, actions[|actions| - 1].op;
      PublishesFor(cfg, root, op, p.did) && Newest(Step(cfg, root, op).0, p.did) == Some(p)
    ensures WasMade(cfg, s, actions, p)
  {
    hide Run, PublishesFor, Made, Step, Newest;
    var n := |actions| - 1;
    PublishesNothingElse(cfg, Run(cfg, s, actions[..n]).root, actions[n].op, p.did);
    PublishOwn(cfg, Run(cfg, s, actions[..n]).root, actions[n].op, p.did);
    assert MadeAt(cfg, s, actions, n, p);
  }

  /** The packages a state holds outside the CDN. */
  ghost predicate Holds(s: Net, p: VerifiedPackage) {
    p in s.root.cdnQueue || p in s.taken || exists kept :: kept in s.rewrites && p in kept
  }

  lemma ActHolds(cfg: Config, s: Net, a: Action, p: VerifiedPackage)
    requires Holds(Act(cfg, s, a), p)
    ensures Holds(s, p) || (a.AtRoot? && PublishesFor(cfg, s.root, a.op, p.did) && Newest(Step(cfg, s.root, a.op).0, p.did) == Some(p))
  {
    hide Step, Newest, PublishesFor, Without;
    match a
    case AtRoot(op) =>
      if p in Step(cfg, s.root, op).0.cdnQueue {
        StepQueue(cfg, s.root, op, p);
      }
    case ReadQueue =>
      assert forall q :: q in FirstOf(s.root.cdnQueue) ==> q in s.root.cdnQueue;
    case Post(_) =>
    case ReadForRemoval(did) => WithoutMembers(s.root.cdnQueue, did, p);
    case WriteBack(_) =>
  }

  /** Whatever a run holds, an accepted publication of that run made. */
  lemma {:induction false} HeldWasMade(cfg: Config, s: Net, actions: seq<Action>, p: VerifiedPackage)
    requires s.root.cdnQueue == [] && s.taken == {} && s.rewrites == {} && Holds(Run(cfg, s, actions), p)
    ensures WasMade(cfg, s, actions, p)
  {
    hide Act, Step, WasMade, Newest, PublishesFor;
    if actions != [] {
      var init, a := actions[..|actions| - 1], actions[|actions| - 1];
      ActHolds(cfg, Run(cfg, s, init), a, p);
      if Holds(Run(cfg, s, init), p) {
        HeldWasMade(cfg, s, init, p);
        StillMade(cfg, s, actions, p);
      } else {
        NowMade(cfg, s, actions, p);
      }
    }
  }

  /** The event publishes the package: it names its DID and carries the hashes of its document and its metadata. */
  predicate Publishes(e: Event, p: VerifiedPackage) {
    && IsAgentEvent(e) && e.core.subjectDid == p.did && p.rootProof.bulletinEventHash == Some(e.eventHash)
    && Text(Get(e.core.payload, "didDocumentHash")) == p.documentHash
    && p.metadataHash.Some? && Text(Get(e.core.payload, "metadataHash")) == p.metadataHash.value
  }

  lemma MadeIsPublished(cfg: Config, root: Root, op: Op)
    requires op.Publish?
    ensures Publishes(PublishEvent(cfg, root.events, root.latest, op.req, op.times), Made(cfg, root, op))
  {
    hide PublishEvent, DocumentHash, MetadataHash, BuildMetadata, NextVersion, Get;
    PublishEventReads(cfg, root.events, root.latest, op.req, op.times);
  }

  lemma EventOfMade(cfg: Config, s: Net, actions: seq<Action>, k: nat, p: VerifiedPackage)
    requires Ideal(cfg.c) && Good(cfg, s) && MadeAt(cfg, s, actions, k, p)
    ensures exists e :: e in Run(cfg, s, actions).root.events && Publishes(e, p)
  {
    hide Ideal, Good, Run, Step, PublishesFor, PublishEvent, Publishes, Made;
    var before, op := Run(cfg, s, actions[..k]), actions[k].op;
    assert actions == (actions[..k] + [actions[k]]) + actions[k + 1..];
    RunAppended(cfg, s, actions[..k] + [actions[k]], actions[k + 1..]);
    RunOne(cfg, s, actions[..k], actions[k]);
    EveryRunIsGood(cfg, s, actions[..k]);
    ActKeepsGood(cfg, before, actions[k]);
    EveryRunIsGood(cfg, Act(cfg, before, actions[k]), actions[k + 1..]);
    PublishesNothingElse(cfg, before.root, op, p.did);
    PublishAppends(cfg, before.root, op);
    MadeIsPublished(cfg, before.root, op);
    var e := PublishEvent(cfg, before.root.events, before.root.latest, op.req, op.times);
    var longer := before.root.events + [e];
    assert longer[|before.root.events|] == e;
    assert Run(cfg, s, actions).root.events[|before.root.events|] == e;
  }

  /**
   However batches and handlers interleave, what the CDN serves under a file is a package an accepted
   publication made for the DID of that file: it is trusted, and the event it points to carries the
   hashes of its document and its metadata.
   */
  lemma ServedIsTrusted(cfg: Config, seed: seq<Event>, auth: Authorization, actions: seq<Action>, file: string)
    requires Ideal(cfg.c) && ChainOk(cfg.c, RootKey(cfg), seed)
    requires file in AfterPosts(Run(cfg, Begin(seed, auth), actions).posts).packages
    ensures var s := Run(cfg, Begin(seed, auth), actions);
      var p := AfterPosts(s.posts).packages[file];
      && Trusted(cfg.c, RootKey(cfg), s.root.events, p) && p.did in s.root.latest && DidToFileName(p.did) == file
      && WasMade(cfg, Begin(seed, auth), actions, p) && (exists e :: e in s.root.events && Publishes(e, p))
  {
    hide Ideal, Run, StoresOk, ChainOk, Trusted, Parse, DidToFileName, AfterPosts, LatestFor, Survivors, MadeAt, Publishes, OnePerDid;
    var s0 := Begin(seed, auth);
    var s := Run(cfg, s0, actions);
    BeginIsGood(cfg, seed, auth);
    EveryRunIsGood(cfg, s0, actions);
    PostsParse(cfg, s);
    StoredSurvives(s.posts, file);
    var p := AfterPosts(s.posts).packages[file];
    LatestForIsOwn(s.posts, p.did);
    HeldWasMade(cfg, s0, actions, p);
    var k: nat :| MadeAt(cfg, s0, actions, k, p);
    EventOfMade(cfg, s0, actions, k, p);
  }

  // ----- a synchronisation -----

  /** The answer to a package request; an error answer does not decode as a package. */
  function Fetch(cdn: Cdn): string -> Fetched {
    did => if DidToFileName(did) in cdn.packages then Decoded(cdn.packages[DidToFileName(did)]) else DecodeFailed
  }

  function Dids(entries: seq<ManifestEntry>): seq<string> {
    seq(|entries|, i requires 0 <= i < |entries| => entries[i].did)
  }

  /** The packages whose match with the domains is `wanted`, in order. */
  ghost function Matching(tags: seq<CapabilityTree.Tag>, domains: seq<string>, ps: seq<VerifiedPackage>, wanted: bool): seq<VerifiedPackage> {
    if ps == [] then []
    else
      var before, p := Matching(tags, domains, ps[..|ps| - 1], wanted), ps[|ps| - 1];
      if CapabilityTree.DomainsMatch(tags, p.metadata.capabilityTags, domains) == wanted then before + [p] else before
  }

  function Unauthorized(ps: seq<VerifiedPackage>): seq<Rejection> {
    seq(|ps|, i requires 0 <= i < |ps| => Rejection(ps[i].did, Some(UnauthorizedDomains)))
  }

  lemma {:induction false} SyncOfTrusted(c: Suite, rootKey: string, events: seq<Event>, tags: seq<CapabilityTree.Tag>, domains: seq<string>,
                                         ps: seq<VerifiedPackage>, dids: seq<string>, fetch: string -> Fetched)
    requires |dids| == |ps|
    requires forall i :: 0 <= i < |ps| ==> fetch(dids[i]) == Decoded(ps[i]) && Trusted(c, rootKey, events, ps[i])
    ensures Accepted(c, rootKey, events, tags, domains, dids, fetch) == Matching(tags, domains, ps, true)
    ensures Refused(c, rootKey, events, tags, domains, dids, fetch) == Unauthorized(Matching(tags, domains, ps, false))
  {
    hide Trusted, RejectionReason;
    if ps != [] {
      var n := |ps| - 1;
      SyncOfTrusted(c, rootKey, events, tags, domains, ps[..n], dids[..n], fetch);
      assert fetch(dids[n]) == Decoded(ps[n]);
      TrustedReason(c, rootKey, events, tags, domains, ps[n]);
      var before := Matching(tags, domains, ps[..n], false);
      assert Unauthorized(before + [ps[n]]) == Unauthorized(before) + [Rejection(ps[n].did, Some(UnauthorizedDomains))];
    }
  }

  /**
   After any run, a synchronisation indexes exactly the listed packages whose tags match the node's
   domains, in manifest order, and rejects all others for their domains alone.
   */
  lemma SyncIndexesTheCdn(cfg: Config, seed: seq<Event>, auth: Authorization, actions: seq<Action>,
                          tags: seq<CapabilityTree.Tag>, domains: seq<string>)
    requires Ideal(cfg.c) && ChainOk(cfg.c, RootKey(cfg), seed)
    ensures var s := Run(cfg, Begin(seed, auth), actions);
      var cdn, key := AfterPosts(s.posts), RootKey(cfg);
      var dids := Dids(Entries(cdn));
      && Accepted(cfg.c, key, s.root.events, tags, domains, dids, Fetch(cdn)) == Matching(tags, domains, Survivors(s.posts), true)
      && Refused(cfg.c, key, s.root.events, tags, domains, dids, Fetch(cdn))
         == Unauthorized(Matching(tags, domains, Survivors(s.posts), false))
  {
    hide Ideal, Run, Good, ChainOk, Trusted, Parse, DidToFileName, AfterPosts, LatestFor, Survivors, Matching, Accepted, Refused;
    var s := Run(cfg, Begin(seed, auth), actions);
    BeginIsGood(cfg, seed, auth);
    EveryRunIsGood(cfg, Begin(seed, auth), actions);
    SyncOfGood(cfg, s, tags, domains);
  }

  lemma SyncOfGood(cfg: Config, s: Net, tags: seq<CapabilityTree.Tag>, domains: seq<string>)
    requires Good(cfg, s)
    ensures var cdn, key := AfterPosts(s.posts), RootKey(cfg);
      var dids := Dids(Entries(cdn));
      && Accepted(cfg.c, key, s.root.events, tags, domains, dids, Fetch(cdn)) == Matching(tags, domains, Survivors(s.posts), true)
      && Refused(cfg.c, key, s.root.events, tags, domains, dids, Fetch(cdn))
         == Unauthorized(Matching(tags, domains, Survivors(s.posts), false))
  {
    hide ChainOk, StoresOk, Trusted, Parse, DidToFileName, AfterPosts, LatestFor, Survivors, Matching, Accepted, Refused;
    var cdn, ps := AfterPosts(s.posts), Survivors(s.posts);
    PostsParse(cfg, s);
    ManifestListsSurvivors(s.posts);
    SurvivorsAreLatest(s.posts);
    var dids := Dids(Entries(cdn));
    forall i | 0 <= i < |ps|
      ensures dids[i] == ps[i].did && Fetch(cdn)(dids[i]) == Decoded(ps[i]) && Trusted(cfg.c, RootKey(cfg), s.root.events, ps[i])
    {
      LatestForIsOwn(s.posts, ps[i].did);
      SurvivorServed(s.posts, ps[i]);
      assert Genuine(cfg, s.root, ps[i]);
    }
    SyncOfTrusted(cfg.c, RootKey(cfg), s.root.events, tags, domains, ps, dids, Fetch(cdn));
  }

  ghost function AgainstEarlier(fetched: seq<Event>, tags: seq<CapabilityTree.Tag>, domains: seq<string>, eventHash: string,
                                p: VerifiedPackage): Option<Reason>
  {
    if !EventExists(fetched, eventHash, p.did) then Some(InvalidRootProof)
    else if !CapabilityTree.DomainsMatch(tags, p.metadata.capabilityTags, domains) then Some(UnauthorizedDomains)
    else None
  }

  /**
   The bulletin is fetched first: a package served later and checked against it is refused besides its
   domains exactly when its event is newer than that bulletin.
   */
  lemma ReasonAgainstEarlierBulletin(cfg: Config, seed: seq<Event>, auth: Authorization, actions: seq<Action>, n: nat, file: string,
                                     tags: seq<CapabilityTree.Tag>, domains: seq<string>)
    requires Ideal(cfg.c) && ChainOk(cfg.c, RootKey(cfg), seed) && n <= |actions|
    requires file in AfterPosts(Run(cfg, Begin(seed, auth), actions).posts).packages
    ensures var p := AfterPosts(Run(cfg, Begin(seed, auth), actions).posts).packages[file];
      var fetched := Run(cfg, Begin(seed, auth), actions[..n]).root.events;
      && p.rootProof.bulletinEventHash.Some?
      && (n == |actions| ==> EventExists(fetched, p.rootProof.bulletinEventHash.value, p.did))
      && (RejectionReason(cfg.c, RootKey(cfg), fetched, tags, domains, p)
          == AgainstEarlier(fetched, tags, domains, p.rootProof.bulletinEventHash.value, p))
  {
    hide Ideal, Run, ChainOk, EventExists, HashJson, AfterPosts, DidToFileName;
    ServedIsTrusted(cfg, seed, auth, actions, file);
    assert n == |actions| ==> actions[..n] == actions;
  }

  // ----- what can be lost -----

  /** The newest package of the DID waits in the queue. */
  predicate Waits(root: Root, did: string) {
    Newest(root, did).Some? && Newest(root, did).value in root.cdnQueue
  }

  predicate Served(s: Net, did: string) {
    Newest(s.root, did).Some? && LatestFor(s.posts, did) == Newest(s.root, did)
  }

  predicate Current(s: Net, did: string) {
    Waits(s.root, did) || Served(s, did)
  }

  lemma LatestSnoc(posts: seq<VerifiedPackage>, p: VerifiedPackage, did: string)
    ensures LatestFor(posts + [p], did) == if p.did == did then Some(p) else LatestFor(posts, did)
  {
    assert (posts + [p])[..|posts|] == posts;
  }

  lemma PublishedWaits(cfg: Config, root: Root, op: Op, did: string)
    requires op.Publish? && PublishesFor(cfg, root, op, did)
    ensures Waits(Step(cfg, root, op).0, did)
  {
    hide Step, Newest, PublishesFor, Made;
    PublishOwn(cfg, root, op, did);
  }

  /** A handler that publishes nothing for a DID leaves it waiting or not as it was. */
  lemma WaitsStays(cfg: Config, root: Root, op: Op, did: string)
    requires StoresOk(cfg, Emptied(root)) && !PublishesFor(cfg, root, op, did) && !op.MarkPublished?
    ensures Newest(Step(cfg, root, op).0, did) == Newest(root, did)
    ensures Waits(Step(cfg, root, op).0, did) <==> Waits(root, did)
  {
    hide StoresOk, Published, PublishEvent, BuildPackage, RequestError, SignatureError, Append, Newest, Without, Genuine, Parse;
    if did in root.latest {
      NewestIsOwn(cfg, root, did);
    }
    NewestStays(cfg, root, op, did);
    if op.Publish? && TryPublish(cfg, root, op.req, op.times).1.None? && Newest(root, did).Some? {
      PublishOwn(cfg, root, op, op.req.agentDid);
      assert did in root.latest by { NewestIsRegistered(root, did); }
      WithoutMembers(root.cdnQueue, op.req.agentDid, Newest(root, did).value);
    }
  }

  lemma NewestIsRegistered(root: Root, did: string)
    requires Newest(root, did).Some?
    ensures did in root.latest
  {
  }

  /** Root never signs two packages with one event. */
  lemma FreshEvent(cfg: Config, root: Root, op: Op, p: VerifiedPackage)
    requires Ideal(cfg.c) && ChainOk(cfg.c, RootKey(cfg), root.events) && Trusted(cfg.c, RootKey(cfg), root.events, p)
    requires op.Publish? && PublishesFor(cfg, root, op, op.req.agentDid)
    ensures p.rootProof.bulletinEventHash != Some(PublishEvent(cfg, root.events, root.latest, op.req, op.times).eventHash)
  {
    hide Ideal, ChainOk, Step, NewEvent, PublishesFor, DocumentHashOk, MetadataHashOk, IsIndexableAgent, PublishEvent;
    var e := PublishEvent(cfg, root.events, root.latest, op.req, op.times);
    var hash := p.rootProof.bulletinEventHash.value;
    var i :| 0 <= i < |root.events| && root.events[i].eventHash == hash && root.events[i].core.subjectDid == p.did;
    ChainStepOk(cfg, root, op);
    PublishAppends(cfg, root, op);
    var longer := root.events + [e];
    assert longer[i] == root.events[i] && longer[|root.events|] == e;
    if e.eventHash == hash {
      NoForkBelowSharedEvent(cfg.c, RootKey(cfg), longer, longer, i, |root.events|);
    }
  }
}
