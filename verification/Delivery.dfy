/**
 Publication batches that no handler interrupts: nothing is lost, confirmed batches drain the queue,
 and a drained queue means that a Discovery node finds exactly Root's newest packages.
 */
module Delivery {
  import opened Bulletin
  import opened CdnNode
  import opened Crypto
  import opened DidAns
  import opened Packages
  import opened RootArchive
  import opened RootNode
  import opened System
  import opened Wrappers
  import CapabilityTree
  import RootService

  function Deliver(p: VerifiedPackage, outcome: Outcome): seq<Action> {
    match outcome
    case Confirmed => [Post(p), AtRoot(MarkPublished(p.did))]
    case Unconfirmed => [Post(p)]
    case Failed => []
  }

  function Deliveries(batch: seq<VerifiedPackage>, outcomes: nat -> Outcome): seq<Action> {
    if batch == [] then []
    else Deliveries(batch[..|batch| - 1], outcomes) + Deliver(batch[|batch| - 1], outcomes(|batch| - 1))
  }

  function BatchActions(queue: seq<VerifiedPackage>, outcomes: nat -> Outcome): seq<Action> {
    [ReadQueue] + Deliveries(FirstOf(queue), outcomes)
  }

  /** The DIDs whose post was, or was not, confirmed. */
  function Reported(batch: seq<VerifiedPackage>, outcomes: nat -> Outcome, confirmed: bool): seq<string> {
    if batch == [] then []
    else
      var n := |batch| - 1;
      Reported(batch[..n], outcomes, confirmed) + if outcomes(n).Confirmed? == confirmed then [batch[n].did] else []
  }

  /** `publish_cdn_batch`, with the network as a given list of outcomes. */
  method PublishCdnBatch(root: RootService.Service, cdn: Store, outcomes: nat -> Outcome,
                         ghost posts: seq<VerifiedPackage>, ghost taken: set<VerifiedPackage>,
                         ghost rewrites: set<seq<VerifiedPackage>>)
    returns (published: seq<string>, failed: seq<string>)
    requires cdn.Now() == AfterPosts(posts)
    modifies root, cdn
    ensures var s := Run(root.cfg, Net(old(root.Now()), posts, taken, rewrites), BatchActions(old(root.cdnQueue), outcomes));
      root.Now() == s.root && cdn.Now() == AfterPosts(s.posts)
    ensures published == Reported(FirstOf(old(root.cdnQueue)), outcomes, true)
    ensures failed == Reported(FirstOf(old(root.cdnQueue)), outcomes, false)
  {
    hide Run, Act, AfterPosts, Step, Stored, Reported, Deliveries, Deliver;
    var queue := FirstOf(root.cdnQueue);
    published, failed := [], [];
    NoneReported(outcomes);
    ghost var start := Net(root.Now(), posts, taken, rewrites);
    ghost var s := Act(root.cfg, start, ReadQueue);
    ghost var actions := [ReadQueue];
    AfterReading(root.cfg, start);
    var i := 0;
    while i < |queue|
      invariant i <= |queue|
      invariant actions == [ReadQueue] + Deliveries(queue[..i], outcomes)
      invariant s == Run(root.cfg, start, actions)
      invariant s.root == root.Now() && AfterPosts(s.posts) == cdn.Now()
      invariant forall p :: p in queue ==> p in s.taken
      invariant published == Reported(queue[..i], outcomes, true) && failed == Reported(queue[..i], outcomes, false)
    {
      var package := queue[i];
      OneMoreReported(queue, outcomes, i);
      var outcome := outcomes(i);
      if outcome != Failed {
        cdn.PublishPackage(package);
        AfterPosting(root.cfg, s, package);
      }
      if outcome == Confirmed {
        root.MarkCdnQueuePublished(package.did);
        published := published + [package.did];
      } else {
        failed := failed + [package.did];
      }
      AfterDelivering(root.cfg, s, package, outcome);
      RunAppended(root.cfg, start, actions, Deliver(package, outcome));
      s := Run(root.cfg, s, Deliver(package, outcome));
      assert actions + Deliver(package, outcome) == [ReadQueue] + (Deliveries(queue[..i], outcomes) + Deliver(package, outcome));
      actions := actions + Deliver(package, outcome);
      i := i + 1;
    }
    assert queue[..i] == queue;
  }

  lemma NoneReported(outcomes: nat -> Outcome)
    ensures Deliveries([], outcomes) == []
    ensures forall confirmed :: Reported([], outcomes, confirmed) == []
  {
  }

  lemma OneMoreReported(queue: seq<VerifiedPackage>, outcomes: nat -> Outcome, i: nat)
    requires i < |queue|
    ensures Deliveries(queue[..i + 1], outcomes) == Deliveries(queue[..i], outcomes) + Deliver(queue[i], outcomes(i))
    ensures forall confirmed ::
      Reported(queue[..i + 1], outcomes, confirmed)
        == Reported(queue[..i], outcomes, confirmed) + if outcomes(i).Confirmed? == confirmed then [queue[i].did] else []
  {
    assert queue[..i + 1][..i] == queue[..i];
  }

  lemma AfterReading(cfg: Config, s: Net)
    ensures Run(cfg, s, [ReadQueue]) == Act(cfg, s, ReadQueue)
    ensures Act(cfg, s, ReadQueue) == s.(taken := Act(cfg, s, ReadQueue).taken)
    ensures forall p :: p in FirstOf(s.root.cdnQueue) ==> p in Act(cfg, s, ReadQueue).taken
    ensures forall p :: p in s.taken ==> p in Act(cfg, s, ReadQueue).taken
  {
    assert [ReadQueue] == [] + [ReadQueue];
    RunOne(cfg, s, [], ReadQueue);
  }

  lemma AfterPosting(cfg: Config, s: Net, p: VerifiedPackage)
    requires p in s.taken
    ensures Act(cfg, s, Post(p)) == s.(posts := s.posts + [p])
    ensures AfterPosts(s.posts + [p]) == Stored(AfterPosts(s.posts), p)
  {
    assert (s.posts + [p])[..|s.posts|] == s.posts;
  }

  lemma AfterDelivering(cfg: Config, s: Net, p: VerifiedPackage, outcome: Outcome)
    requires p in s.taken
    ensures Run(cfg, s, Deliver(p, outcome)) == Net(
      if outcome == Confirmed then Step(cfg, s.root, MarkPublished(p.did)).0 else s.root,
      if outcome != Failed then s.posts + [p] else s.posts, s.taken, s.rewrites)
  {
    hide Step;
    RunOne(cfg, s, [], Post(p));
    RunOne(cfg, s, [] + [Post(p)], AtRoot(MarkPublished(p.did)));
    assert [] + [Post(p)] == [Post(p)];
    assert [Post(p)] + [AtRoot(MarkPublished(p.did))] == [Post(p), AtRoot(MarkPublished(p.did))];
  }

  // ----- runs in which a batch is one step -----

  datatype Serial = Handle(op: Op) | Batch(outcomes: nat -> Outcome)

  /** A package leaves the queue only through a batch. */
  ghost function Serve(cfg: Config, s: Net, x: Serial): Net {
    match x
    case Handle(op) => if op.MarkPublished? then s else Act(cfg, s, AtRoot(op))
    case Batch(outcomes) => Run(cfg, s, BatchActions(s.root.cdnQueue, outcomes))
  }

  ghost function ServeAll(cfg: Config, s: Net, xs: seq<Serial>): Net {
    if xs == [] then s else Serve(cfg, ServeAll(cfg, s, xs[..|xs| - 1]), xs[|xs| - 1])
  }

  ghost predicate AllCurrent(s: Net) {
    forall did :: did in s.root.latest ==> Parse(did).Ok? && Current(s, did)
  }

  /** The package is the newest of its DID and was read by a batch. */
  predicate InHand(s: Net, p: VerifiedPackage) {
    p in s.taken && Newest(s.root, p.did) == Some(p)
  }

  lemma DeliverKeepsCurrent(cfg: Config, s: Net, p: VerifiedPackage, outcome: Outcome)
    requires StoresOk(cfg, Emptied(s.root)) && AllCurrent(s) && InHand(s, p)
    ensures var s' := Run(cfg, s, Deliver(p, outcome));
      && AllCurrent(s') && s'.root == s.root.(cdnQueue := if outcome == Confirmed then Without(s.root.cdnQueue, p.did) else s.root.cdnQueue)
      && s'.taken == s.taken
  {
    hide Run, Parse, StoresOk, Newest, LatestFor, TryPublish, Without, Genuine;
    var s' := Run(cfg, s, Deliver(p, outcome));
    AfterDelivering(cfg, s, p, outcome);
    forall did | did in s'.root.latest ensures Parse(did).Ok? && Current(s', did) {
      NewestIsOwn(cfg, s.root, did);
      NewestIgnoresQueue(s.root, Without(s.root.cdnQueue, p.did), did);
      LatestSnoc(s.posts, p, did);
      WithoutMembers(s.root.cdnQueue, p.did, Newest(s.root, did).value);
    }
  }

  lemma {:induction false} DeliveriesKeepCurrent(cfg: Config, s: Net, batch: seq<VerifiedPackage>, outcomes: nat -> Outcome)
    requires StoresOk(cfg, Emptied(s.root)) && AllCurrent(s) && forall i :: 0 <= i < |batch| ==> InHand(s, batch[i])
    ensures var s' := Run(cfg, s, Deliveries(batch, outcomes));
      AllCurrent(s') && s'.root == s.root.(cdnQueue := s'.root.cdnQueue) && s'.taken == s.taken
  {
    hide AllCurrent, Deliver, Act, StoresOk, Newest;
    if batch != [] {
      var n := |batch| - 1;
      var before := Run(cfg, s, Deliveries(batch[..n], outcomes));
      DeliveriesKeepCurrent(cfg, s, batch[..n], outcomes);
      RunAppended(cfg, s, Deliveries(batch[..n], outcomes), Deliver(batch[n], outcomes(n)));
      assert InHand(s, batch[n]);
      assert Emptied(before.root) == Emptied(s.root);
      NewestIgnoresQueue(s.root, before.root.cdnQueue, batch[n].did);
      DeliverKeepsCurrent(cfg, before, batch[n], outcomes(n));
    }
  }

  lemma FirstInHand(cfg: Config, s: Net, i: nat)
    requires StoresOk(cfg, s.root) && i < |FirstOf(s.root.cdnQueue)|
    ensures InHand(Act(cfg, s, ReadQueue), FirstOf(s.root.cdnQueue)[i])
  {
    hide StoresOk, Genuine, Newest;
    AfterReading(cfg, s);
    QueuedIsGenuine(cfg, s.root, i);
    assert FirstOf(s.root.cdnQueue)[i] == s.root.cdnQueue[i];
  }

  lemma BatchKeepsCurrent(cfg: Config, s: Net, outcomes: nat -> Outcome)
    requires StoresOk(cfg, s.root) && AllCurrent(s)
    ensures AllCurrent(Run(cfg, s, BatchActions(s.root.cdnQueue, outcomes)))
  {
    hide StoresOk, Run, Act, Deliveries, Parse, InHand, Newest, LatestFor;
    EmptiedIsOk(cfg, s.root);
    var s1, batch := Act(cfg, s, ReadQueue), FirstOf(s.root.cdnQueue);
    AfterReading(cfg, s);
    RunAppended(cfg, s, [ReadQueue], Deliveries(batch, outcomes));
    forall i | 0 <= i < |batch| ensures InHand(s1, batch[i]) {
      FirstInHand(cfg, s, i);
    }
    DeliveriesKeepCurrent(cfg, s1, batch, outcomes);
  }

  lemma HandleKeepsCurrent(cfg: Config, s: Net, op: Op)
    requires StoresOk(cfg, Emptied(s.root)) && AllCurrent(s) && !op.MarkPublished?
    ensures AllCurrent(Act(cfg, s, AtRoot(op)))
  {
    hide StoresOk, Step, PublishesFor, Made, Parse, Newest, Waits, LatestFor;
    var s' := Act(cfg, s, AtRoot(op));
    forall did | did in s'.root.latest ensures Parse(did).Ok? && Current(s', did) {
      if PublishesFor(cfg, s.root, op, did) {
        PublishesNothingElse(cfg, s.root, op, did);
        PublishOwn(cfg, s.root, op, did);
        PublishedWaits(cfg, s.root, op, did);
      } else {
        if did !in s.root.latest {
          NewDidIsPublished(cfg, s.root, op, did);
        }
        WaitsStays(cfg, s.root, op, did);
      }
    }
  }

  /** Only a write-back can bring an older package into the queue. */
  lemma {:induction false} RunKeepsStores(cfg: Config, s: Net, actions: seq<Action>)
    requires Ideal(cfg.c) && StoresOk(cfg, s.root) && forall a :: a in actions ==> !a.WriteBack?
    ensures StoresOk(cfg, Run(cfg, s, actions).root)
  {
    hide Ideal, StoresOk, Step;
    if actions != [] {
      var init, a := actions[..|actions| - 1], actions[|actions| - 1];
      RunKeepsStores(cfg, s, init);
      if a.AtRoot? {
        StepKeepsStores(cfg, Run(cfg, s, init).root, a.op);
      }
    }
  }

  lemma {:induction false} DeliveriesWriteNothingBack(batch: seq<VerifiedPackage>, outcomes: nat -> Outcome)
    ensures forall a :: a in Deliveries(batch, outcomes) ==> !a.WriteBack?
  {
    if batch != [] {
      DeliveriesWriteNothingBack(batch[..|batch| - 1], outcomes);
    }
  }

  /** In a serial run the newest package of every registered DID is served or queued, whatever posts fail. */
  lemma {:induction false} SerialRunsLoseNothing(cfg: Config, seed: seq<Event>, auth: Authorization, xs: seq<Serial>)
    requires Ideal(cfg.c) && ChainOk(cfg.c, RootKey(cfg), seed)
    ensures var s := ServeAll(cfg, Begin(seed, auth), xs); Good(cfg, s) && StoresOk(cfg, s.root) && AllCurrent(s)
  {
    hide Ideal, ChainOk, Good, StoresOk, AllCurrent, Act, Run, Deliveries;
    if xs == [] {
      BeginIsGood(cfg, seed, auth);
      StartStoresOk(cfg, seed, auth);
      BeginIsCurrent(seed, auth);
    } else {
      SerialRunsLoseNothing(cfg, seed, auth, xs[..|xs| - 1]);
      ServeKeeps(cfg, ServeAll(cfg, Begin(seed, auth), xs[..|xs| - 1]), xs[|xs| - 1]);
    }
  }

  lemma ServeKeeps(cfg: Config, s: Net, x: Serial)
    requires Ideal(cfg.c) && Good(cfg, s) && StoresOk(cfg, s.root) && AllCurrent(s)
    ensures Good(cfg, Serve(cfg, s, x)) && StoresOk(cfg, Serve(cfg, s, x).root) && AllCurrent(Serve(cfg, s, x))
  {
    hide Ideal, Good, StoresOk, AllCurrent, Run, Step, Deliveries;
    match x
    case Handle(op) =>
      ActKeepsGood(cfg, s, AtRoot(op));
      StepKeepsStores(cfg, s.root, op);
      EmptiedIsOk(cfg, s.root);
      if !op.MarkPublished? {
        HandleKeepsCurrent(cfg, s, op);
      }
    case Batch(outcomes) =>
      var actions := BatchActions(s.root.cdnQueue, outcomes);
      EveryRunIsGood(cfg, s, actions);
      DeliveriesWriteNothingBack(FirstOf(s.root.cdnQueue), outcomes);
      RunKeepsStores(cfg, s, actions);
      BatchKeepsCurrent(cfg, s, outcomes);
  }

  lemma BeginIsCurrent(seed: seq<Event>, auth: Authorization)
    ensures AllCurrent(Begin(seed, auth))
  {
  }

  // ----- draining the queue -----

  lemma {:induction false} WithoutAbsent(queue: seq<VerifiedPackage>, did: string)
    requires forall i :: 0 <= i < |queue| ==> queue[i].did != did
    ensures Without(queue, did) == queue
  {
    if queue != [] {
      WithoutAbsent(queue[1..], did);
    }
  }

  lemma WithoutHead(queue: seq<VerifiedPackage>, n: nat)
    requires OnePerDid(queue) && n < |queue|
    ensures Without(queue[n..], queue[n].did) == queue[n + 1..]
  {
    assert queue[n..][1..] == queue[n + 1..];
    WithoutAbsent(queue[n + 1..], queue[n].did);
  }

  lemma DeliveriesSnoc(cfg: Config, s: Net, queue: seq<VerifiedPackage>, n: nat, outcomes: nat -> Outcome)
    requires 0 < n <= |queue|
    ensures Run(cfg, s, Deliveries(queue[..n], outcomes))
         == Run(cfg, Run(cfg, s, Deliveries(queue[..n - 1], outcomes)), Deliver(queue[n - 1], outcomes(n - 1)))
  {
    hide Act, Deliver;
    assert queue[..n][..n - 1] == queue[..n - 1];
    RunAppended(cfg, s, Deliveries(queue[..n - 1], outcomes), Deliver(queue[n - 1], outcomes(n - 1)));
  }

  lemma {:induction false} ConfirmedDeliveriesShrink(cfg: Config, s: Net, n: nat, outcomes: nat -> Outcome)
    requires OnePerDid(s.root.cdnQueue) && n <= |s.root.cdnQueue|
    requires forall i :: 0 <= i < n ==> s.root.cdnQueue[i] in s.taken && outcomes(i) == Confirmed
    ensures var s' := Run(cfg, s, Deliveries(s.root.cdnQueue[..n], outcomes));
      s'.root.cdnQueue == s.root.cdnQueue[n..] && s'.taken == s.taken
  {
    hide Deliver, Act, Run, Deliveries, OnePerDid, Without;
    var queue := s.root.cdnQueue;
    if n == 0 {
      NothingDelivered(cfg, s, outcomes);
    } else {
      ConfirmedDeliveriesShrink(cfg, s, n - 1, outcomes);
      DeliveriesSnoc(cfg, s, queue, n, outcomes);
      AfterDelivering(cfg, Run(cfg, s, Deliveries(queue[..n - 1], outcomes)), queue[n - 1], outcomes(n - 1));
      WithoutHead(queue, n - 1);
    }
  }

  lemma NothingDelivered(cfg: Config, s: Net, outcomes: nat -> Outcome)
    ensures Run(cfg, s, Deliveries(s.root.cdnQueue[..0], outcomes)) == s
  {
  }

  /** A batch whose posts are all confirmed takes the first fifty packages out of the queue. */
  lemma ConfirmedBatchShrinks(cfg: Config, s: Net, outcomes: nat -> Outcome)
    requires Good(cfg, s) && forall i :: outcomes(i) == Confirmed
    ensures var n := |s.root.cdnQueue|;
      Run(cfg, s, BatchActions(s.root.cdnQueue, outcomes)).root.cdnQueue == s.root.cdnQueue[if n <= BATCH_SIZE then n else BATCH_SIZE..]
  {
    hide Run, Act, Deliveries, StoresOk, ChainOk, Genuine, OnePerDid;
    var batch := FirstOf(s.root.cdnQueue);
    AfterReading(cfg, s);
    RunAppended(cfg, s, [ReadQueue], Deliveries(batch, outcomes));
    assert s.root.cdnQueue[..|batch|] == batch;
    forall i | 0 <= i < |batch| ensures s.root.cdnQueue[i] in Act(cfg, s, ReadQueue).taken {
      assert batch[i] in batch;
    }
    ConfirmedDeliveriesShrink(cfg, Act(cfg, s, ReadQueue), |batch|, outcomes);
  }

  function Batches(k: nat, outcomes: nat -> Outcome): seq<Serial> {
    if k == 0 then [] else Batches(k - 1, outcomes) + [Batch(outcomes)]
  }

  /** Confirmed batches in a row take fifty packages each from the front of the queue, and so empty it. */
  lemma {:induction false} BatchesDrain(cfg: Config, s: Net, k: nat, outcomes: nat -> Outcome)
    requires Ideal(cfg.c) && Good(cfg, s) && forall i :: outcomes(i) == Confirmed
    ensures var s', n := ServeAll(cfg, s, Batches(k, outcomes)), |s.root.cdnQueue|;
      Good(cfg, s') && s'.root.cdnQueue == s.root.cdnQueue[if n <= k * BATCH_SIZE then n else k * BATCH_SIZE..]
  {
    hide Ideal, Good, BatchActions, Run;
    if k > 0 {
      var xs := Batches(k - 1, outcomes);
      BatchesDrain(cfg, s, k - 1, outcomes);
      assert (xs + [Batch(outcomes)])[..|xs|] == xs;
      var before := ServeAll(cfg, s, xs);
      ConfirmedBatchShrinks(cfg, before, outcomes);
      EveryRunIsGood(cfg, before, BatchActions(before.root.cdnQueue, outcomes));
    }
  }

  // ----- end to end -----

  lemma {:induction false} MatchingMembers(tags: seq<CapabilityTree.Tag>, domains: seq<string>, ps: seq<VerifiedPackage>, wanted: bool, p: VerifiedPackage)
    ensures p in Matching(tags, domains, ps, wanted)
      <==> p in ps && CapabilityTree.DomainsMatch(tags, p.metadata.capabilityTags, domains) == wanted
  {
    if ps != [] {
      var n := |ps| - 1;
      MatchingMembers(tags, domains, ps[..n], wanted, p);
      assert ps == ps[..n] + [ps[n]];
    }
  }

  /**
   After any serial run that left the queue empty, a Discovery node that synchronises indexes a package
   exactly when it is the newest Root published for a registered DID and its tags match the node's
   domains; whatever it rejects, it rejects for its domains.
   */
  lemma DiscoveryFindsTheNewest(cfg: Config, seed: seq<Event>, auth: Authorization, xs: seq<Serial>,
                                tags: seq<CapabilityTree.Tag>, domains: seq<string>, p: VerifiedPackage)
    requires Ideal(cfg.c) && ChainOk(cfg.c, RootKey(cfg), seed)
    requires ServeAll(cfg, Begin(seed, auth), xs).root.cdnQueue == []
    ensures var s := ServeAll(cfg, Begin(seed, auth), xs);
      var cdn := AfterPosts(s.posts);
      && (p in Accepted(cfg.c, RootKey(cfg), s.root.events, tags, domains, Dids(Entries(cdn)), Fetch(cdn))
          <==> p.did in s.root.latest && Newest(s.root, p.did) == Some(p)
               && CapabilityTree.DomainsMatch(tags, p.metadata.capabilityTags, domains))
      && (forall r :: r in Refused(cfg.c, RootKey(cfg), s.root.events, tags, domains, Dids(Entries(cdn)), Fetch(cdn))
            ==> r.why == Some(UnauthorizedDomains))
  {
    hide Ideal, ChainOk, ServeAll, Trusted, StoresOk, Parse, DidToFileName, SoundQueue, AfterPosts, LatestFor, Survivors, Matching, Accepted, Refused;
    var s := ServeAll(cfg, Begin(seed, auth), xs);
    SerialRunsLoseNothing(cfg, seed, auth, xs);
    SyncOfGood(cfg, s, tags, domains);
    MatchingMembers(tags, domains, Survivors(s.posts), true, p);
    SurvivorsAreLatest(s.posts);
    LatestForIsOwn(s.posts, p.did);
  }
}
