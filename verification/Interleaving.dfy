/**
 A publication batch with Root's handlers running in between: for each DID exactly which publications,
 by the place they fall in, are lost.
 */
module Interleaving {
  import opened Bulletin
  import opened CdnNode
  import opened Crypto
  import opened DidAns
  import opened Packages
  import opened RootArchive
  import opened RootNode
  import opened System
  import opened Wrappers

  // ----- handlers in a row -----

  function Handlers(ops: seq<Op>): seq<Action> {
    seq(|ops|, i requires 0 <= i < |ops| => AtRoot(ops[i]))
  }

  predicate NoRemoval(ops: seq<Op>) {
    forall i :: 0 <= i < |ops| ==> !ops[i].MarkPublished?
  }

  /** One of the operations, run in a row from `root`, publishes a package for the DID. */
  ghost predicate PublishedIn(cfg: Config, root: Root, ops: seq<Op>, did: string) {
    ops != []
    && var init := ops[..|ops| - 1];
    PublishedIn(cfg, root, init, did) || PublishesFor(cfg, After(cfg, root, init), ops[|ops| - 1], did)
  }

  lemma {:induction false} HandlersRun(cfg: Config, s: Net, ops: seq<Op>)
    ensures Run(cfg, s, Handlers(ops)) == s.(root := After(cfg, s.root, ops))
  {
    hide Step;
    if ops != [] {
      var n := |ops| - 1;
      HandlersRun(cfg, s, ops[..n]);
      assert Handlers(ops)[..n] == Handlers(ops[..n]);
    }
  }

  /** No package known before is the newest of the DID. */
  ghost predicate IsFresh(cfg: Config, before: Root, now: Root, did: string) {
    forall p :: Genuine(cfg, before, p) ==> Newest(now, did) != Some(p)
  }

  lemma MadeIsFresh(cfg: Config, root: Root, op: Op, p: VerifiedPackage)
    requires Ideal(cfg.c) && ChainOk(cfg.c, RootKey(cfg), root.events) && Genuine(cfg, root, p)
    requires op.Publish? && PublishesFor(cfg, root, op, op.req.agentDid)
    ensures Made(cfg, root, op) != p
  {
    hide Ideal, ChainOk, Trusted, PublishesFor, PublishEvent, BuildMetadata, MetadataHash, DocumentHash, Parse;
    FreshEvent(cfg, root, op, p);
  }

  /** What handlers do to a DID: a publication leaves a package never seen before waiting, and nothing else matters. */
  ghost predicate HandlersDid(cfg: Config, root: Root, root': Root, did: string, published: bool) {
    && (did in root'.latest <==> did in root.latest || published)
    && (if published then Waits(root', did) && IsFresh(cfg, root, root', did)
        else Newest(root', did) == Newest(root, did) && (Waits(root', did) <==> Waits(root, did)))
  }

  lemma OneHandler(cfg: Config, s: Net, root: Root, op: Op, did: string, published: bool)
    requires Ideal(cfg.c) && Good(cfg, s) && !op.MarkPublished? && HandlersDid(cfg, root, s.root, did, published)
    requires forall p :: Genuine(cfg, root, p) ==> Genuine(cfg, s.root, p)
    ensures HandlersDid(cfg, root, Step(cfg, s.root, op).0, did, published || PublishesFor(cfg, s.root, op, did))
  {
    hide Ideal, StoresOk, ChainOk, Step, Genuine, Newest, Waits, PublishesFor, Made;
    StepKeepsDids(cfg, s.root, op);
    if PublishesFor(cfg, s.root, op, did) {
      PublishesNothingElse(cfg, s.root, op, did);
      PublishOwn(cfg, s.root, op, did);
      PublishedWaits(cfg, s.root, op, did);
      forall p | Genuine(cfg, root, p) ensures Newest(Step(cfg, s.root, op).0, did) != Some(p) {
        MadeIsFresh(cfg, s.root, op, p);
      }
    } else {
      WaitsStays(cfg, s.root, op, did);
      if did in Step(cfg, s.root, op).0.latest && did !in s.root.latest {
        NewDidIsPublished(cfg, s.root, op, did);
      }
    }
  }

  lemma {:induction false} HandlersEffect(cfg: Config, s: Net, ops: seq<Op>, did: string)
    requires Ideal(cfg.c) && Good(cfg, s) && NoRemoval(ops)
    ensures var root' := After(cfg, s.root, ops);
      && Good(cfg, s.(root := root')) && HandlersDid(cfg, s.root, root', did, PublishedIn(cfg, s.root, ops, did))
      && forall p :: Genuine(cfg, s.root, p) ==> Genuine(cfg, root', p)
  {
    hide Ideal, Good, Step, Genuine, Waits, Newest, IsFresh, PublishesFor, HandlersDid;
    if ops == [] {
      NothingDone(cfg, s.root, did);
    } else {
      var init, op := ops[..|ops| - 1], ops[|ops| - 1];
      HandlersEffect(cfg, s, init, did);
      var s1 := s.(root := After(cfg, s.root, init));
      OneHandler(cfg, s1, s.root, op, did, PublishedIn(cfg, s.root, init, did));
      StepKeepsGood(cfg, s1, op);
      StepKeepsDids(cfg, s1.root, op);
      forall p | Genuine(cfg, s.root, p) ensures Genuine(cfg, Step(cfg, s1.root, op).0, p) {
        GenuineStays(cfg, s1.root, Step(cfg, s1.root, op).0, p);
      }
    }
  }

  lemma NothingDone(cfg: Config, root: Root, did: string)
    ensures HandlersDid(cfg, root, root, did, false)
  {
    hide Genuine, Newest;
  }

  // ----- one package of a batch -----

  /**
   The handlers that run while a batch is at one package: `before` its post, `during` the post and until
   the removal reads the queue, and while the removal is `writing` the queue back.
   */
  datatype Slot = Slot(outcome: Outcome, before: seq<Op>, during: seq<Op>, writing: seq<Op>)

  predicate SlotOk(slot: Slot) {
    NoRemoval(slot.before) && NoRemoval(slot.during) && NoRemoval(slot.writing)
  }

  ghost function UntilRemoval(cfg: Config, s: Net, p: VerifiedPackage, slot: Slot): Net {
    Run(cfg, s, Handlers(slot.before) + (if slot.outcome == Failed then [] else [Post(p)]) + Handlers(slot.during))
  }

  ghost function RunSlot(cfg: Config, s: Net, p: VerifiedPackage, slot: Slot): Net {
    var s1 := UntilRemoval(cfg, s, p, slot);
    if slot.outcome != Confirmed then Run(cfg, s1, Handlers(slot.writing))
    else Run(cfg, s1, [ReadForRemoval(p.did)] + Handlers(slot.writing) + [WriteBack(Without(s1.root.cdnQueue, p.did))])
  }

  /** A publication for the DID up to the moment the removal reads the queue. */
  ghost predicate PublishedEarly(cfg: Config, root: Root, slot: Slot, did: string) {
    PublishedIn(cfg, root, slot.before + slot.during, did)
  }

  /** A publication for the DID between the removal's read of the queue and its write. */
  ghost predicate PublishedLate(cfg: Config, root: Root, slot: Slot, did: string) {
    PublishedIn(cfg, After(cfg, root, slot.before + slot.during), slot.writing, did)
  }

  lemma {:induction false} AfterAppended(cfg: Config, root: Root, a: seq<Op>, b: seq<Op>)
    ensures After(cfg, root, a + b) == After(cfg, After(cfg, root, a), b)
  {
    hide Step;
    if b == [] {
      assert a + b == a;
    } else {
      AfterAppended(cfg, root, a, b[..|b| - 1]);
      assert (a + b)[..|a + b| - 1] == a + b[..|b| - 1];
    }
  }

  lemma UntilRemovalIs(cfg: Config, s: Net, p: VerifiedPackage, slot: Slot)
    requires p in s.taken
    ensures UntilRemoval(cfg, s, p, slot)
         == s.(root := After(cfg, s.root, slot.before + slot.during), posts := s.posts + if slot.outcome == Failed then [] else [p])
  {
    hide Run, After, Handlers;
    var posting := if slot.outcome == Failed then [] else [Post(p)];
    RunAppended(cfg, s, Handlers(slot.before) + posting, Handlers(slot.during));
    RunAppended(cfg, s, Handlers(slot.before), posting);
    HandlersRun(cfg, s, slot.before);
    var s1 := s.(root := After(cfg, s.root, slot.before));
    RunNone(cfg, s1);
    assert [] + [Post(p)] == [Post(p)];
    RunOne(cfg, s1, [], Post(p));
    HandlersRun(cfg, s1.(posts := s.posts + if slot.outcome == Failed then [] else [p]), slot.during);
    AfterAppended(cfg, s.root, slot.before, slot.during);
    assert s.posts + [] == s.posts;
  }

  lemma RunNone(cfg: Config, s: Net)
    ensures Run(cfg, s, []) == s
  {
  }

  lemma RunSlotIs(cfg: Config, s: Net, p: VerifiedPackage, slot: Slot)
    ensures var s1 := UntilRemoval(cfg, s, p, slot);
      var root' := After(cfg, s1.root, slot.writing);
      var kept := Without(s1.root.cdnQueue, p.did);
      RunSlot(cfg, s, p, slot)
      == if slot.outcome == Confirmed then s1.(root := root'.(cdnQueue := kept), rewrites := s1.rewrites + {kept})
         else s1.(root := root')
  {
    hide Run, After, Handlers, UntilRemoval, Without;
    var s1 := UntilRemoval(cfg, s, p, slot);
    var kept := Without(s1.root.cdnQueue, p.did);
    var s2 := s1.(rewrites := s1.rewrites + {kept});
    HandlersRun(cfg, s1, slot.writing);
    RunOne(cfg, s1, [ReadForRemoval(p.did)] + Handlers(slot.writing), WriteBack(kept));
    RunAppended(cfg, s1, [ReadForRemoval(p.did)], Handlers(slot.writing));
    assert [] + [ReadForRemoval(p.did)] == [ReadForRemoval(p.did)];
    RunOne(cfg, s1, [], ReadForRemoval(p.did));
    RunNone(cfg, s1);
    HandlersRun(cfg, s2, slot.writing);
  }

  /** A removal nothing comes between is the one step Root's queue sees elsewhere. */
  lemma UninterruptedRemoval(cfg: Config, s: Net, did: string)
    ensures var kept := Without(s.root.cdnQueue, did);
      Run(cfg, s, [ReadForRemoval(did)] + [WriteBack(kept)])
      == Act(cfg, s, AtRoot(MarkPublished(did))).(rewrites := s.rewrites + {kept})
  {
    hide Without;
    RunNone(cfg, s);
    assert [] + [ReadForRemoval(did)] == [ReadForRemoval(did)];
    RunOne(cfg, s, [], ReadForRemoval(did));
    RunOne(cfg, s, [ReadForRemoval(did)], WriteBack(Without(s.root.cdnQueue, did)));
  }

  /** What the handlers of one slot do to a DID, in its two parts. */
  lemma SlotEffect(cfg: Config, s: Net, p: VerifiedPackage, slot: Slot, did: string)
    requires Ideal(cfg.c) && Good(cfg, s) && p in s.taken && SlotOk(slot)
    ensures var s1 := UntilRemoval(cfg, s, p, slot);
      && Good(cfg, s1) && HandlersDid(cfg, s.root, s1.root, did, PublishedEarly(cfg, s.root, slot, did))
      && HandlersDid(cfg, s1.root, After(cfg, s1.root, slot.writing), did, PublishedLate(cfg, s.root, slot, did))
      && (forall q :: Genuine(cfg, s.root, q) ==> Genuine(cfg, s1.root, q))
  {
    hide Ideal, Good, After, HandlersDid, PublishedIn, Genuine, Run;
    UntilRemovalIs(cfg, s, p, slot);
    HandlersEffect(cfg, s, slot.before + slot.during, did);
    EveryRunIsGood(cfg, s, Handlers(slot.before) + (if slot.outcome == Failed then [] else [Post(p)]) + Handlers(slot.during));
    HandlersEffect(cfg, UntilRemoval(cfg, s, p, slot), slot.writing, did);
  }

  /** Whether the DID's newest package is served or waits after the slot, by what was published in it. */
  ghost predicate KeptBySlot(cfg: Config, s: Net, p: VerifiedPackage, slot: Slot, did: string) {
    var early, late := PublishedEarly(cfg, s.root, slot, did), PublishedLate(cfg, s.root, slot, did);
    match slot.outcome
    case Confirmed => !late && if did == p.did then !early && Newest(s.root, did) == Some(p) else early || Current(s, did)
    case Unconfirmed => early || late || if did == p.did then Newest(s.root, did) == Some(p) || Waits(s.root, did) else Current(s, did)
    case Failed => early || late || Current(s, did)
  }

  /**
   One package of a batch, with any handlers in between: the newest package of the posted DID stays
   served or queued exactly when none was published before the removal was written back, and that of
   another DID exactly when none was published between the removal's read and its write.
   */
  lemma SlotKeepsIff(cfg: Config, s: Net, p: VerifiedPackage, slot: Slot, did: string)
    requires Ideal(cfg.c) && Good(cfg, s) && p in s.taken && SlotOk(slot)
    ensures Current(RunSlot(cfg, s, p, slot), did) <==> KeptBySlot(cfg, s, p, slot, did)
  {
    hide Ideal, Good, After, PublishedEarly, PublishedLate, Run, RunSlot, UntilRemoval, HandlersDid, Newest, LatestFor, Waits, Genuine;
    var s1 := UntilRemoval(cfg, s, p, slot);
    SlotEffect(cfg, s, p, slot, did);
    UntilRemovalIs(cfg, s, p, slot);
    RunSlotIs(cfg, s, p, slot);
    TakenIsGenuine(cfg, s);
    LatestIsGenuine(cfg, s1, did);
    LatestSnoc(s.posts, p, did);
    assert s.posts + [] == s.posts;
    var early, late := PublishedEarly(cfg, s.root, slot, did), PublishedLate(cfg, s.root, slot, did);
    var root2 := After(cfg, s1.root, slot.writing);
    if slot.outcome == Confirmed {
      RemovedKeeps(cfg, s, p, s1, root2, did, early, late);
    } else {
      UnremovedKeeps(cfg, s, p, s1, root2, did, early, late);
    }
  }

  /** The state after the post, and the newest package through both parts of the slot. */
  ghost predicate Posted(cfg: Config, s: Net, p: VerifiedPackage, s1: Net, root2: Root, did: string, early: bool, late: bool) {
    && Good(cfg, s1) && Genuine(cfg, s.root, p)
    && HandlersDid(cfg, s.root, s1.root, did, early) && HandlersDid(cfg, s1.root, root2, did, late)
    && (forall q :: Genuine(cfg, s.root, q) ==> Genuine(cfg, s1.root, q))
    && (LatestFor(s1.posts, did).Some? ==> Genuine(cfg, s.root, LatestFor(s1.posts, did).value))
  }

  lemma RemovedKeeps(cfg: Config, s: Net, p: VerifiedPackage, s1: Net, root2: Root, did: string, early: bool, late: bool)
    requires Posted(cfg, s, p, s1, root2, did, early, late)
    requires LatestFor(s1.posts, did) == if p.did == did then Some(p) else LatestFor(s.posts, did)
    ensures var end := s1.(root := root2.(cdnQueue := Without(s1.root.cdnQueue, p.did)));
      Current(end, did)
      <==> !late && if did == p.did then !early && Newest(s.root, did) == Some(p) else early || Current(s, did)
  {
    hide StoresOk, ChainOk, Newest, LatestFor, Genuine, Without;
    var kept := Without(s1.root.cdnQueue, p.did);
    NewestIgnoresQueue(root2, kept, did);
    if Newest(root2, did).Some? {
      var newest := Newest(root2, did).value;
      WithoutMembers(s1.root.cdnQueue, p.did, newest);
      if newest in kept {
        assert Genuine(cfg, s1.root, newest);
      }
      if !late {
        NewestIsRegistered(s1.root, did);
        NewestIsOwn(cfg, s1.root, did);
      }
    }
  }

  lemma UnremovedKeeps(cfg: Config, s: Net, p: VerifiedPackage, s1: Net, root2: Root, did: string, early: bool, late: bool)
    requires Posted(cfg, s, p, s1, root2, did, early, late)
    ensures LatestFor(s1.posts, did) == LatestFor(s.posts, did) ==>
      (Current(s1.(root := root2), did) <==> early || late || Current(s, did))
    ensures LatestFor(s1.posts, did) == Some(p) ==>
      (Current(s1.(root := root2), did) <==> early || late || Newest(s.root, did) == Some(p) || Waits(s.root, did))
  {
    hide Good, Newest, LatestFor, Genuine;
  }

  lemma TakenIsGenuine(cfg: Config, s: Net)
    requires Good(cfg, s)
    ensures forall q :: q in s.taken ==> Genuine(cfg, s.root, q)
  {
  }

  lemma LatestIsGenuine(cfg: Config, s: Net, did: string)
    requires Good(cfg, s)
    ensures LatestFor(s.posts, did).Some? ==> LatestFor(s.posts, did).value in s.taken
  {
    hide StoresOk, ChainOk, Genuine;
    LatestForIsOwn(s.posts, did);
  }

  lemma SlotKeepsGood(cfg: Config, s: Net, p: VerifiedPackage, slot: Slot)
    requires Ideal(cfg.c) && Good(cfg, s)
    ensures Good(cfg, RunSlot(cfg, s, p, slot))
  {
    hide Ideal, Good, Run, Handlers, Without;
    EveryRunIsGood(cfg, s, Handlers(slot.before) + (if slot.outcome == Failed then [] else [Post(p)]) + Handlers(slot.during));
    var s1 := UntilRemoval(cfg, s, p, slot);
    EveryRunIsGood(cfg, s1, Handlers(slot.writing));
    EveryRunIsGood(cfg, s1, [ReadForRemoval(p.did)] + Handlers(slot.writing) + [WriteBack(Without(s1.root.cdnQueue, p.did))]);
  }

  // ----- a whole batch -----

  /** The state after the batch is done with its first `n` packages. */
  ghost function RunSlots(cfg: Config, s: Net, batch: seq<VerifiedPackage>, slots: seq<Slot>, n: nat): Net
    requires n <= |batch| == |slots|
  {
    if n == 0 then s else RunSlot(cfg, RunSlots(cfg, s, batch, slots, n - 1), batch[n - 1], slots[n - 1])
  }

  ghost predicate EarlyAt(cfg: Config, s: Net, batch: seq<VerifiedPackage>, slots: seq<Slot>, k: nat, did: string)
    requires k < |batch| == |slots|
  {
    PublishedEarly(cfg, RunSlots(cfg, s, batch, slots, k).root, slots[k], did)
  }

  ghost predicate LateAt(cfg: Config, s: Net, batch: seq<VerifiedPackage>, slots: seq<Slot>, k: nat, did: string)
    requires k < |batch| == |slots|
  {
    PublishedLate(cfg, RunSlots(cfg, s, batch, slots, k).root, slots[k], did)
  }

  ghost predicate PublishedAt(cfg: Config, s: Net, batch: seq<VerifiedPackage>, slots: seq<Slot>, k: nat, did: string)
    requires |batch| == |slots|
  {
    k < |batch| && (EarlyAt(cfg, s, batch, slots, k, did) || LateAt(cfg, s, batch, slots, k, did))
  }

  ghost predicate PublishedFrom(cfg: Config, s: Net, batch: seq<VerifiedPackage>, slots: seq<Slot>, k: nat, n: nat, did: string)
    requires |batch| == |slots|
  {
    exists j: nat :: k <= j < n && PublishedAt(cfg, s, batch, slots, j, did)
  }

  /**
   The removal of package `k` drops what was published for the DID: between its read and its write, or,
   for the DID it removes, at any time before.
   */
  ghost predicate DropsAt(cfg: Config, s: Net, batch: seq<VerifiedPackage>, slots: seq<Slot>, k: nat, did: string)
    requires |batch| == |slots|
  {
    && k < |batch| && slots[k].outcome == Confirmed
    && (|| LateAt(cfg, s, batch, slots, k, did)
        || (did == batch[k].did
            && (EarlyAt(cfg, s, batch, slots, k, did) || PublishedFrom(cfg, s, batch, slots, 0, k, did))))
  }

  /** Some removal dropped what was published, and nothing was published for the DID after it. */
  ghost predicate Lost(cfg: Config, s: Net, batch: seq<VerifiedPackage>, slots: seq<Slot>, n: nat, did: string)
    requires n <= |batch| == |slots|
  {
    exists k: nat :: k < n && DropsAt(cfg, s, batch, slots, k, did) && !PublishedFrom(cfg, s, batch, slots, k + 1, n, did)
  }

  lemma PublishedFromSnoc(cfg: Config, s: Net, batch: seq<VerifiedPackage>, slots: seq<Slot>, k: nat, n: nat, did: string)
    requires k <= n < |batch| == |slots|
    ensures PublishedFrom(cfg, s, batch, slots, k, n + 1, did)
       <==> PublishedFrom(cfg, s, batch, slots, k, n, did) || PublishedAt(cfg, s, batch, slots, n, did)
  {
    hide PublishedAt;
  }

  lemma LostSnoc(cfg: Config, s: Net, batch: seq<VerifiedPackage>, slots: seq<Slot>, n: nat, did: string)
    requires n < |batch| == |slots|
    ensures Lost(cfg, s, batch, slots, n + 1, did)
       <==> DropsAt(cfg, s, batch, slots, n, did)
            || (Lost(cfg, s, batch, slots, n, did) && !PublishedAt(cfg, s, batch, slots, n, did))
  {
    hide PublishedAt, PublishedFrom, DropsAt;
    NoneLeft(cfg, s, batch, slots, n + 1, did);
    if k: nat :| k < n && DropsAt(cfg, s, batch, slots, k, did) && !PublishedFrom(cfg, s, batch, slots, k + 1, n + 1, did) {
      PublishedFromSnoc(cfg, s, batch, slots, k + 1, n, did);
    }
    if k: nat :| k < n && DropsAt(cfg, s, batch, slots, k, did) && !PublishedFrom(cfg, s, batch, slots, k + 1, n, did) {
      PublishedFromSnoc(cfg, s, batch, slots, k + 1, n, did);
    }
  }

  lemma NoneLeft(cfg: Config, s: Net, batch: seq<VerifiedPackage>, slots: seq<Slot>, n: nat, did: string)
    requires |batch| == |slots|
    ensures !PublishedFrom(cfg, s, batch, slots, n, n, did)
  {
  }

  /** A batch in hand: distinct DIDs, all read from the queue as it is. */
  ghost predicate BatchInHand(s: Net, batch: seq<VerifiedPackage>, slots: seq<Slot>) {
    && |batch| == |slots| && OnePerDid(batch) && OnePerDid(s.root.cdnQueue)
    && (forall i :: 0 <= i < |batch| ==> batch[i] in s.taken && batch[i] in s.root.cdnQueue && SlotOk(slots[i]))
  }

  /** Package `k` belongs to the DID and was stored by the CDN. */
  predicate PostedAt(batch: seq<VerifiedPackage>, slots: seq<Slot>, k: nat, did: string)
    requires |batch| == |slots|
  {
    k < |batch| && batch[k].did == did && slots[k].outcome != Failed
  }

  /** Without a publication: the DID is as it was, unless one of the posts was for it, and then that has to be its newest package. */
  ghost predicate KeptUnpublished(s: Net, batch: seq<VerifiedPackage>, slots: seq<Slot>, n: nat, did: string)
    requires n <= |batch| == |slots|
  {
    if exists k: nat :: k < n && PostedAt(batch, slots, k, did)
    then exists k: nat :: k < n && PostedAt(batch, slots, k, did) && Newest(s.root, did) == Some(batch[k])
    else Current(s, did)
  }

  /** The DID's newest package is served or waits after `n` packages of the batch. */
  ghost predicate KeptByBatch(cfg: Config, s: Net, batch: seq<VerifiedPackage>, slots: seq<Slot>, n: nat, did: string)
    requires n <= |batch| == |slots|
  {
    if PublishedFrom(cfg, s, batch, slots, 0, n, did) then !Lost(cfg, s, batch, slots, n, did)
    else KeptUnpublished(s, batch, slots, n, did)
  }

  /** The state after `n` packages of a batch, as far as the DID goes. */
  ghost predicate BatchState(cfg: Config, s: Net, batch: seq<VerifiedPackage>, slots: seq<Slot>, n: nat, did: string)
    requires n <= |batch| == |slots|
  {
    var now, published := RunSlots(cfg, s, batch, slots, n), PublishedFrom(cfg, s, batch, slots, 0, n, did);
    && Good(cfg, now) && now.taken == s.taken
    && (forall q :: Genuine(cfg, s.root, q) ==> Genuine(cfg, now.root, q))
    && (if published then IsFresh(cfg, s.root, now.root, did)
        else Newest(now.root, did) == Newest(s.root, did) && (Waits(now.root, did) ==> Waits(s.root, did)))
    && (Current(now, did) <==> KeptByBatch(cfg, s, batch, slots, n, did))
  }

  lemma SlotParts(cfg: Config, s: Net, p: VerifiedPackage, slot: Slot, did: string)
    requires Ideal(cfg.c) && Good(cfg, s) && p in s.taken && SlotOk(slot)
    ensures var published := PublishedEarly(cfg, s.root, slot, did) || PublishedLate(cfg, s.root, slot, did);
      var end := RunSlot(cfg, s, p, slot);
      && Good(cfg, end) && end.taken == s.taken
      && (forall q :: Genuine(cfg, s.root, q) ==> Genuine(cfg, end.root, q))
      && (did in end.root.latest <==> did in s.root.latest || published)
      && (if published then IsFresh(cfg, s.root, end.root, did)
          else Newest(end.root, did) == Newest(s.root, did) && (Waits(end.root, did) ==> Waits(s.root, did)))
  {
    hide Ideal, Good, After, PublishedEarly, PublishedLate, Run, RunSlot, UntilRemoval, Newest, Waits, Genuine;
    var s1 := UntilRemoval(cfg, s, p, slot);
    SlotKeepsGood(cfg, s, p, slot);
    SlotEffect(cfg, s, p, slot, did);
    UntilRemovalIs(cfg, s, p, slot);
    RunSlotIs(cfg, s, p, slot);
    var root2 := After(cfg, s1.root, slot.writing);
    NewestIgnoresQueue(root2, Without(s1.root.cdnQueue, p.did), did);
    FewerWait(s1.root, root2, p.did, did);
    HandlersEffect(cfg, s1, slot.writing, did);
    forall q | Genuine(cfg, root2, q) ensures Genuine(cfg, root2.(cdnQueue := Without(s1.root.cdnQueue, p.did)), q) {
      GenuineIgnoresQueue(cfg, root2, Without(s1.root.cdnQueue, p.did), q);
    }
  }

  lemma FewerWait(before: Root, after: Root, removed: string, did: string)
    ensures Newest(after, did) == Newest(before, did) ==>
      (Waits(after.(cdnQueue := Without(before.cdnQueue, removed)), did) ==> Waits(before, did))
  {
    hide Newest, Without;
    NewestIgnoresQueue(after, Without(before.cdnQueue, removed), did);
    if Newest(after, did).Some? {
      WithoutMembers(before.cdnQueue, removed, Newest(after, did).value);
    }
  }

  lemma GenuineIgnoresQueue(cfg: Config, root: Root, queue: seq<VerifiedPackage>, p: VerifiedPackage)
    requires Genuine(cfg, root, p)
    ensures Genuine(cfg, root.(cdnQueue := queue), p)
  {
    hide Trusted, Parse;
  }

  lemma NextPackage(cfg: Config, s: Net, batch: seq<VerifiedPackage>, slots: seq<Slot>, n: nat, did: string)
    requires Ideal(cfg.c) && Good(cfg, s) && BatchInHand(s, batch, slots) && n < |batch|
    requires BatchState(cfg, s, batch, slots, n, did)
    ensures BatchState(cfg, s, batch, slots, n + 1, did)
  {
    hide Ideal, Good, RunSlot, PublishedEarly, PublishedLate, KeptBySlot, KeptByBatch, Newest, Waits, Current, PublishedFrom, OnePerDid, SlotOk;
    var now := RunSlots(cfg, s, batch, slots, n);
    SlotParts(cfg, now, batch[n], slots[n], did);
    SlotKeepsIff(cfg, now, batch[n], slots[n], did);
    PublishedFromSnoc(cfg, s, batch, slots, 0, n, did);
    NextKept(cfg, s, batch, slots, n, did);
  }

  /** One package more keeps what the batch keeps. */
  lemma NextKept(cfg: Config, s: Net, batch: seq<VerifiedPackage>, slots: seq<Slot>, n: nat, did: string)
    requires Good(cfg, s) && BatchInHand(s, batch, slots) && n < |batch| && BatchState(cfg, s, batch, slots, n, did)
    ensures KeptByBatch(cfg, s, batch, slots, n + 1, did) <==> KeptBySlot(cfg, RunSlots(cfg, s, batch, slots, n), batch[n], slots[n], did)
  {
    hide Good, RunSlots, PublishedEarly, PublishedLate, Newest, Waits, Served, Genuine, Lost, PublishedFrom, OnePerDid, SlotOk, KeptUnpublished;
    var now := RunSlots(cfg, s, batch, slots, n);
    PublishedFromSnoc(cfg, s, batch, slots, 0, n, did);
    LostSnoc(cfg, s, batch, slots, n, did);
    NotServedFresh(cfg, s, now, did);
    KeptUnpublishedSnoc(s, batch, slots, n, did);
    TakenIsGenuine(cfg, s);
    if batch[n].did == did {
      WaitingIsInBatch(cfg, s, batch, slots, n, did);
    }
  }

  /** The batch has at most one package of the DID. */
  lemma KeptUnpublishedSnoc(s: Net, batch: seq<VerifiedPackage>, slots: seq<Slot>, n: nat, did: string)
    requires n < |batch| == |slots| && OnePerDid(batch)
    ensures KeptUnpublished(s, batch, slots, n + 1, did)
       <==> if PostedAt(batch, slots, n, did) then Newest(s.root, did) == Some(batch[n]) else KeptUnpublished(s, batch, slots, n, did)
  {
    hide Newest, Current;
    assert forall k: nat :: k < n && PostedAt(batch, slots, k, did) ==> !PostedAt(batch, slots, n, did);
  }

  /** If the newest package waits, it is the one the batch has. */
  lemma WaitingIsInBatch(cfg: Config, s: Net, batch: seq<VerifiedPackage>, slots: seq<Slot>, n: nat, did: string)
    requires Good(cfg, s) && BatchInHand(s, batch, slots) && n < |batch| && batch[n].did == did
    ensures Waits(s.root, did) ==> Newest(s.root, did) == Some(batch[n])
  {
    hide StoresOk, ChainOk, Genuine, Newest, SlotOk;
    if Waits(s.root, did) {
      NewestIsRegistered(s.root, did);
      NewestIsOwn(cfg, s.root, did);
    }
  }

  /** What is fresh has not been posted. */
  lemma NotServedFresh(cfg: Config, s: Net, now: Net, did: string)
    requires Good(cfg, s) && Good(cfg, now) && now.taken == s.taken
    ensures IsFresh(cfg, s.root, now.root, did) ==> !Served(now, did)
  {
    hide StoresOk, ChainOk, Genuine, Newest;
    LatestForIsOwn(now.posts, did);
  }

  lemma {:induction false} BatchStates(cfg: Config, s: Net, batch: seq<VerifiedPackage>, slots: seq<Slot>, n: nat, did: string)
    requires Ideal(cfg.c) && Good(cfg, s) && BatchInHand(s, batch, slots) && n <= |batch|
    ensures BatchState(cfg, s, batch, slots, n, did)
  {
    hide Ideal, Good, BatchInHand, BatchState, Current;
    assert |batch| == |slots| by { InHandLengths(s, batch, slots); }
    if n == 0 {
      BatchBegins(cfg, s, batch, slots, did);
    } else {
      BatchStates(cfg, s, batch, slots, n - 1, did);
      NextPackage(cfg, s, batch, slots, n - 1, did);
    }
  }

  lemma InHandLengths(s: Net, batch: seq<VerifiedPackage>, slots: seq<Slot>)
    requires BatchInHand(s, batch, slots)
    ensures |batch| == |slots|
  {
  }

  lemma BatchBegins(cfg: Config, s: Net, batch: seq<VerifiedPackage>, slots: seq<Slot>, did: string)
    requires |batch| == |slots| && Good(cfg, s)
    ensures BatchState(cfg, s, batch, slots, 0, did)
  {
    hide Good, Current, Genuine, Newest;
  }

  /**
   A batch of what the queue holds, in any reachable state, with any handlers running anywhere in it and
   any of its posts failing or going unanswered. If something is published for a DID, its newest package
   is afterwards served or queued exactly when no removal dropped a publication for it that none followed.
   If nothing is published for it but a package of it was posted, exactly when that one is its newest, for
   an older one hides what was served; if none was posted, exactly when it was before.
   */
  lemma BatchKeepsIff(cfg: Config, s: Net, slots: seq<Slot>, did: string)
    requires Ideal(cfg.c) && Good(cfg, s)
    requires |slots| == |FirstOf(s.root.cdnQueue)| && forall i :: 0 <= i < |slots| ==> SlotOk(slots[i])
    ensures var batch, read := FirstOf(s.root.cdnQueue), Act(cfg, s, ReadQueue);
      Current(RunSlots(cfg, read, batch, slots, |batch|), did) <==> KeptByBatch(cfg, read, batch, slots, |batch|, did)
  {
    hide Ideal, Good, BatchInHand, RunSlot, KeptByBatch, IsFresh, PublishedFrom, Current, Newest, Genuine, Waits;
    var batch, read := FirstOf(s.root.cdnQueue), Act(cfg, s, ReadQueue);
    ActKeepsGood(cfg, s, ReadQueue);
    ReadIsInHand(cfg, s, slots);
    BatchStates(cfg, read, batch, slots, |batch|, did);
  }

  lemma ReadIsInHand(cfg: Config, s: Net, slots: seq<Slot>)
    requires Good(cfg, s)
    requires |slots| == |FirstOf(s.root.cdnQueue)| && forall i :: 0 <= i < |slots| ==> SlotOk(slots[i])
    ensures BatchInHand(Act(cfg, s, ReadQueue), FirstOf(s.root.cdnQueue), slots)
  {
    hide StoresOk, ChainOk, Genuine, SlotOk;
    var batch := FirstOf(s.root.cdnQueue);
    assert forall i :: 0 <= i < |batch| ==> batch[i] in batch && batch[i] == s.root.cdnQueue[i];
  }
}
