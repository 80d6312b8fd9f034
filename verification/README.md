# OpenAgenet: a verified model

OpenAgenet registers agents. A Registrar drafts a registration and has the subject prove control of
its document. Root checks the request, signs an event into a hash-chained bulletin, versions and
archives the document, and queues a signed package. A CDN stores packages under the file names of
their DIDs. Discovery nodes fetch them, check them against the bulletin and index those within their
domains. This project models these services as state machines in Dafny 4.11 and proves what holds of
every run.

The modules follow the program:

| files | what they model |
|---|---|
| `Wrappers`, `Ordering`, `Utf8` | options and results, sorted listings, the order of strings |
| `CanonicalJson`, `JsonReader`, `Crypto` | the Rust and Python canonical printers, a reader that inverts them, hashing |
| `Documents`, `DidAns`, `Base58` | DID documents, identifiers and their file names |
| `CapabilityTree` | the tag forest, its flattening, the parent walk, authorized domains |
| `Bulletin` | the signed hash chain |
| `Packages`, `PackageContents` | verified packages, a Discovery node's checks and its full synchronisation, and what the checks say of a package's contents |
| `RootNode`, `RootInvariants`, `RootAuthorization`, `RootAdmission`, `RootArchive`, `RootService` | Root: the state machine, what its runs keep, its handlers |
| `CdnNode`, `System`, `Delivery` | the CDN, and Root, CDN and Discovery together in any interleaving, and with batches in one piece |
| `Interleaving`, `LossExamples` | a batch with handlers in between: exactly what is lost, and runs that lose it |
| `DiscoverySync`, `ClaimedPackages` | the incremental synchronisation with its cursor, and its checks of signed claims |
| `LeasedJobs` | the leased job table |
| `NonceStore`, `SignedEnvelope` | nonces, freshness, signed request envelopes |
| `RegistrarDraft`, `ControlProofs`, `IssuedCredentials`, `DraftHistory` | the draft workflow, what a verified control and an issued credential stand for, and what a draft says after the operations on it |
| `SubmitAdmission` | the admission of submissions |

Where the program changes fields step by step, a class does so here, and each of its methods is proved
to make exactly one step of a specification function; the theorems are about runs of that function.
Where it computes, a function does. A source-level precondition appears only where the program relies
on one: Dafny's `requires` clauses otherwise say what a theorem is about.

What the proofs found:

- A document can be lost on its way to the CDN, because a batch works on the queue as it read it, removes
  an entry by DID and rewrites the whole queue without Root's lock. There are three kinds of loss: it is
  published between its predecessor's post and removal (`LossExamples.LostDuringPost`); it is published
  while any other DID is being removed (`LossExamples.LostDuringRemoval`); or its predecessor, read by a
  slower batch or put back by a queue write, is posted over it when it is already served
  (`LossExamples.LostToOlderPost`). `Interleaving.SlotKeepsIff` and `Interleaving.BatchKeepsIff` say
  exactly what survives a batch, and without interleaving nothing is lost
  (`Delivery.SerialRunsLoseNothing`).
- Revoking a registrar refuses none of its requests: Root revokes with an event of type `NODE_REVOKED` and
  looks for `REGISTRAR_REVOKED` (`RootAdmission.RevokingRefusesNothing`, exactly who may publish:
  `RootAdmission.StandsIff`, `RootAdmission.RequestAcceptedIff`).
- A Registrar draft whose DID alone is changed keeps its verified proof, so a credential can name a
  subject that was never challenged (`RegistrarDraft.IssuedToAnotherSubject`);
  `RegistrarDraft.IssuedBindsOwnSubject` gives the exact condition.
- A validated draft can take a new document that would not pass and have a credential issued for it
  (`RegistrarDraft.InvalidDocumentIssued`, exactly when: `RegistrarDraft.IssuedIsValidIff`).
- A submission writes back the draft it read before it called Root, and undoes changes made meanwhile
  (`RegistrarDraft.SubmissionUndoesChanges`).
- A retry does not look at who asks, and ends another worker's live lease exactly when the job was
  granted on since (`LeasedJobs.RetryEndsAnothersLeaseIff`).
- Rejections do not move the synchronisation cursor, so a full window of them stops it for good at
  that limit (`DiscoverySync.StuckOnRejections`, `DiscoverySync.RejectionStopsSmallWindow`).
- A Discovery node does not compare a package with the payload of its event, so with another document and
  other metadata it still passes (`PackageContents.EveryTrustedHasADouble`, and exactly when it holds what
  Root published: `PackageContents.HoldsWhatWasPublishedIff`). What comes from Root does hold it
  (`System.ServedIsTrusted`).
- Replays are kept out exactly when the clock skew is below the nonces' time to live
  (`SignedEnvelope.ReplaySafeIff`), and a request with a wrong signature spends its nonce
  (`SignedEnvelope.RefusedSignatureSpendsNonce`).
- The CDN does not parse the DIDs it is given, and then one can overwrite another's files
  (`CdnNode.UnparsedCanOverwrite`).

`dafny verify dfyconfig.toml` checks the project.

## Model

| member | source | states |
|---|---|---|
| Delivery.DiscoveryFindsTheNewest | services/discovery-node/src/main.rs:230-304 | After any run of Root handlers and uninterrupted publication batches, with posts that may fail, that leaves the queue empty: a synchronisation indexes a package if and only if it is the newest Root published for a registered DID and its tags match the node's domains; every rejection is for the domains |
| Delivery.SerialRunsLoseNothing | services/root-node/src/main.rs:568-616 | With batches not interleaved with handlers, in every reachable state the newest package of every registered DID is on the CDN or still queued, whatever posts fail or go unanswered |
| Delivery.ConfirmedBatchShrinks | services/root-node/src/main.rs:568-594 | A batch whose posts are all confirmed removes exactly the first fifty packages |
| Delivery.PublishCdnBatch | services/root-node/src/main.rs:568-616 | The loop over the first fifty packages ends in the state the interleaving model reaches by its own posts and removals, and reports exactly the confirmed and the other DIDs |
| Delivery.BatchesDrain | services/root-node/src/main.rs:568-594 | `k` confirmed batches leave exactly the queue without its first `50 k` packages, so enough of them empty it |
| Interleaving.BatchKeepsIff | services/root-node/src/main.rs:568-594 | A whole batch from any reachable state, with handlers running anywhere in it, each removal's read and write of the queue apart, and posts that fail or go unanswered. A DID for which something is published has its newest package afterwards served or queued if and only if no removal dropped a publication for it (made between that removal's read and write, or, for the DID removed, at any time before) that no later publication followed; for any other DID, if a package of it was posted, if and only if that one is its newest; otherwise if and only if it had it before |
| Interleaving.SlotKeepsIff | services/root-node/src/main.rs:577-594 | One package of a batch. After a confirmed post: the posted DID's newest package is served or queued if and only if the posted one is still the newest, so none was published for it before the removal was written back; another DID's if and only if it was before, or was published before the removal's read, and none was published between that read and its write. Without a removal nothing published is lost |
| Interleaving.HandlersEffect | services/root-node/src/main.rs:347-453 | Handlers in a row that publish for a DID leave a package never seen before waiting in the queue, and handlers that do not leave its newest package and its place as they were |
| Interleaving.UninterruptedRemoval | services/root-node/src/main.rs:1474-1485 | Reading the queue and writing it back without a DID, with nothing between, is the one removal step |
| LossExamples.LostDuringPost | services/root-node/src/main.rs:577-594 | From one authorizing event: one DID is published and a batch takes its package; a publication of another document is accepted between the post and the removal. Afterwards the new document is the newest and is neither served nor queued, while the CDN serves the old one |
| LossExamples.LostDuringRemoval | services/root-node/src/main.rs:1474-1485 | In the same situation, the first document of another DID, accepted between the read and the write of the removal that follows the confirmed post, is neither served nor queued |
| LossExamples.OlderPostWins | services/root-node/src/main.rs:568-594 | From any reachable state, for any package a batch has taken and any accepted publication for its DID: if fewer than fifty packages are queued and another batch reads, posts and removes the new package before the first batch posts the old one, the old one is served and the newest is neither served nor queued |
| LossExamples.LostToOlderPost | services/root-node/src/main.rs:568-594 | A run from one authorizing event in which a document that was already served is lost in this way |
| System.ServedIsTrusted | services/root-node/src/main.rs:568-594 | However handlers, queue reads, posts and the two halves of removals interleave: the package served under a file was made by an accepted publication of the run, for a registered DID with that file name; an event of the bulletin with its hash carries its document and metadata hashes; and it passes every check but the domain check |
| System.HeldWasMade | services/root-node/src/main.rs:347-453 | Whatever is queued, taken by a batch, posted or kept as the package of a DID was made by an accepted publication of the run |
| System.SyncIndexesTheCdn | services/discovery-node/src/main.rs:254-304 | After any such interleaving, a synchronisation indexes exactly the listed packages whose tags match, in manifest order, and rejects exactly the others, each for its domains |
| System.NewestIsOwn | services/root-node/src/main.rs:395-419 | In every reachable state the newest package of a registered DID is its own, trusted, and carries the document hash of its version index entry |
| System.QueueDecidesNothing | services/root-node/src/main.rs:347-453 | What a handler does to everything but the queue, and its error, do not depend on the queue |
| System.ReasonAgainstEarlierBulletin | services/discovery-node/src/main.rs:230-304 | A package served after the bulletin was fetched fails another check than the domains if and only if its event is not in that bulletin, and then as an invalid root proof; never if bulletin and package are of the same moment |
| System.FreshEvent | services/root-node/src/main.rs:395-425 | No two packages share a bulletin event: a new publication's event hash differs from that of every package trusted before |
| RootArchive.QueuedIsTrustedForever | services/root-node/src/main.rs:347-453 | In every run, each package in the CDN queue passes all Discovery checks but the domain check, against the bulletin of that moment and of every later one |
| RootArchive.EveryRunKeepsStores | services/root-node/src/main.rs:356-425 | In every reachable state: each archive entry holds a trusted package of its DID, each registered DID has every version archived and its newest package under its file name, and the queue holds newest packages only, one per DID |
| RootArchive.ArchiveIsComplete | services/root-node/src/main.rs:1329-1351 | In every reachable state an archive version exists if and only if it lies between 1 and the latest version of its DID |
| RootArchive.ArchivedForGood | services/root-node/src/main.rs:1329-1351 | No later operation removes an archived version or changes its document |
| RootArchive.NoOpIffSameDocument | services/root-node/src/main.rs:371-394 | A publication keeps the version if and only if its document equals the one archived last |
| RootArchive.TakesOwnPlace | services/root-node/src/main.rs:1329-1351 | An archive place is overwritten only with the document already there, for all DIDs and histories |
| RootArchive.PackageTrusted | services/root-node/src/main.rs:395-432 | What an accepted request makes Root package passes the indexability, document hash, metadata hash and root proof checks against the bulletin with the new event |
| RootAdmission.PublishesIff | services/root-node/src/main.rs:347-365 | A request is published if and only if it has no signature fault, its nonce is new and none of the remaining checks fails |
| RootAdmission.SignatureAcceptedIff | services/root-node/src/main.rs:1186-1206 | A request without a signature has no signature fault; one with a signature if and only if the key of the first method its registrar's document lists for assertions verifies it over the hash of the whole request |
| RootAdmission.RequestAcceptedIff | services/root-node/src/main.rs:1029-1085 | The remaining checks pass if and only if an event of the bulletin authorizes the registrar and none of type `REGISTRAR_REVOKED` names it, the DID parses, the document is that DID's, complete, an agent's and has a service, and the credential is the registrar's, for that DID, active and signed by that first key |
| RootAdmission.RequestErrorIsFirst | services/root-node/src/main.rs:1029-1085 | The error is that of the first of ten written-out faults, or none if there is none |
| RootAdmission.RequestTextInjective | services/root-node/src/main.rs:1186-1206 | Equal signed hashes come from requests with the same registrar, DID, document, metadata, credential, time and nonce |
| RootAdmission.CredentialJsonInjective | services/root-node/src/main.rs:1069-1083 | The JSON form determines a credential, its proof included |
| RootAdmission.EveryAgentIsVouched | services/root-node/src/main.rs:347-453 | Over every run: for each agent event appended there were a document of its DID with the hash it carries and an active credential for it, signed by a key of a document its registrar brought, and the registrar named in the event was authorized and not revoked in the bulletin before it |
| RootAdmission.PayloadTellsHistory | services/root-node/src/main.rs:371-419 | Over every run: the payload of an agent event says `create`, `no-op` or `update` exactly as there was no agent event of its DID before, the last one had the same document hash, or another one; its type and its version agree with that history |
| RootAdmission.StandsIff | services/root-node/src/main.rs:1029-1049 | A registrar stands after a run if and only if the start or an operation of the run authorized it and the start does not revoke it |
| RootAdmission.RevokingRefusesNothing | services/root-node/src/main.rs:556-566 | Revoking a node, the registrar itself included, changes the answer to no publication request |
| RootInvariants.StoresAreReplays | services/root-node/src/main.rs:1225-1299 | In every reachable state the version index and the three authorization maps equal a replay of the events appended since the start, with the role routing of the handlers |
| RootAuthorization.StandingIsLastWord | services/root-node/src/main.rs:1225-1299 | In every reachable state a node authorized since the start stands in the registry of its role with the document hash of its last authorization, revoked if and only if a revocation came after that |
| RootAuthorization.NeverAuthorizedStands | services/root-node/src/main.rs:1225-1299 | A node not authorized in a registry since the start stands there as it did, except that any revocation marks it revoked |
| RootAuthorization.DomainsStartWithAll | services/root-node/src/main.rs:487-517 | From its last authorization until its domains are updated a Discovery node has the domains `*` |
| RootAuthorization.DomainsAreLastUpdate | services/root-node/src/main.rs:519-554 | After that it has exactly the domains of the last update |
| RootNode.DomainsAreItsStrings | services/root-node/src/main.rs:519-554 | The domains read from an update are exactly the strings in its list |
| RootNode.ListOfDomains | services/root-node/src/main.rs:519-554 | A list of domains is read back as it was written |
| RootInvariants.ReplayOne | services/root-node/src/main.rs:356-419 | Each appended event carries in its payload everything the handler wrote to the version index and the authorization maps |
| RootInvariants.VersionsCountChanges | services/root-node/src/main.rs:371-394 | Per DID the latest version is the number of times the published document hash changed: 1 at first, one more per change, and the indexed hash is the last one published |
| RootInvariants.EveryBulletinPasses | services/root-node/src/main.rs:1306-1327 | A bulletin grown by any run from a passing one passes the chain check and extends it |
| RootInvariants.NonceSpentOnce | services/root-node/src/main.rs:1208-1223 | In no run is a second request with a nonce that reached the nonce check accepted; it changes nothing |
| RootInvariants.NoncesOnlyGrow | services/root-node/src/main.rs:1208-1223 | No operation forgets a request nonce |
| RootService.Service.AppendEvent | services/root-node/src/main.rs:1306-1327 | Appends one signed event continuing the chain, and changes nothing else |
| RootService.Service.VerifyRequestSignature | services/root-node/src/main.rs:1186-1206 | Gives the first fault of the optional request signature |
| RootService.Service.VerifyRequest | services/root-node/src/main.rs:1029-1085 | Gives the first fault of a publication request, which `RootAdmission` writes out |
| RootService.Service.SortedTags | services/root-node/src/main.rs:1109-1145 | The tags of the metadata are the normalized tags of the document, each once, in key order |
| RootService.Service.VerifyAndPublish | services/root-node/src/main.rs:347-453 | The handler makes exactly the publication step of the state machine, with its error |
| RootService.Service.PublishAccepted | services/root-node/src/main.rs:366-434 | The writes to bulletin, archive, package store, version index and queue, in handler order, give the published state |
| RootService.Service.AuthorizeRegistrarNode | services/root-node/src/main.rs:455-485 | The handler makes exactly the authorization step, with the routing by role |
| RootService.Service.AuthorizeDiscoveryNode | services/root-node/src/main.rs:487-517 | The handler makes exactly the authorization step of a Discovery node, with domains `*` |
| RootService.Service.UpdateDiscoveryDomains | services/root-node/src/main.rs:519-554 | The handler appends the event and replaces the domains of a known node only |
| RootService.Service.Revoke | services/root-node/src/main.rs:556-566 | The handler appends the event and marks the DID revoked in whichever maps hold it |
| RootService.Service.MarkCdnQueuePublished | services/root-node/src/main.rs:1474-1485 | Drops every queued package of the DID and nothing else |
| CdnNode.OneEntryPerPackage | services/cdn-node/src/main.rs:155-196 | For every sequence of publications with parsed DIDs: the manifest has as many entries as there are stored packages, one per DID, each agreeing with the stored package, document and metadata, and every stored package is listed |
| CdnNode.EntriesSayWhatIsStored | services/cdn-node/src/main.rs:171-191 | Each entry gives the DID, the role, the document hash and the addresses of the package stored under its DID |
| CdnNode.ManifestListsSurvivors | services/cdn-node/src/main.rs:171-191 | The manifest is exactly the list of publications not followed by another of the same DID, in publication order |
| CdnNode.SurvivorsAreLatest | services/cdn-node/src/main.rs:171-191 | That list has one element per published DID, its latest package |
| CdnNode.FilesHoldTheLatest | services/cdn-node/src/main.rs:160-170 | Every file holds the parts of the package published last under its name, and no other file exists |
| CdnNode.ServedIffNotOverwritten | services/cdn-node/src/main.rs:155-170 | A published DID is served its own latest package if and only if no different DID with the same file name was published after it |
| CdnNode.ParsedAreServed | crates/oan-storage/src/lib.rs:214-216 | With parsed DIDs no file is ever taken over |
| CdnNode.UnparsedCanOverwrite | services/cdn-node/src/main.rs:155-191 | Without the parser it can: a DID written with underscores takes over the file of the parsed one while the manifest lists both |
| CdnNode.Store.PublishPackage | services/cdn-node/src/main.rs:155-196 | The handler writes the three files and the manifest as one publication step |
| Packages.DiscoveryIndex.SyncFromCdn | services/discovery-node/src/main.rs:254-325 | The rebuilt index is the list of packages without a rejection reason, the rejections are the others with theirs; a transport error leaves both as they were and an empty list of rejections is not written |
| Packages.Check | services/discovery-node/src/main.rs:270-304 | Gives the first of the five checks a package fails, which the next rows write out |
| Packages.PassesIff | services/discovery-node/src/main.rs:230-304 | A package fails at most the domain check if and only if it is an agent's with a service, its document and metadata have the hashes it names, an event of the bulletin has its event hash and its DID, and its signature verifies over that hash under Root's key |
| Packages.ReasonIsFirst | services/discovery-node/src/main.rs:230-304 | The reason is that of the first of five written-out faults, or none if there is none |
| Packages.AcceptedIff | services/discovery-node/src/main.rs:254-304 | A rebuilt index holds a package if and only if it was fetched under a listed DID and has no fault |
| Packages.RefusedIff | services/discovery-node/src/main.rs:254-304 | The rejections are exactly the answers that did not decode and the fetched packages with a fault, with the first one |
| Packages.UnsignedIsRefused | services/discovery-node/src/main.rs:789-811 | A fetched package with sound contents whose signature does not verify is not indexed, and is rejected as an invalid root proof |
| Packages.TrustGrows | services/discovery-node/src/main.rs:789-811 | A package trusted against a bulletin is trusted against every extension of it |
| Packages.MetadataJsonInjective | crates/oan-package/src/lib.rs:26-40 | The JSON form determines the agent metadata |
| PackageContents.ContentsAreOpen | services/discovery-node/src/main.rs:789-811 | The checks do not compare a package with the payload of its event: a trusted package stays trusted with the document of any agent and any metadata that has a service, their hashes put in |
| PackageContents.EveryTrustedHasADouble | services/discovery-node/src/main.rs:230-304 | So for every trusted package and all nonempty domains there is one with the same DID and proof and another document that passes every check, the domain check included |
| PackageContents.HoldsWhatWasPublishedIff | services/discovery-node/src/main.rs:789-811 | A trusted package points to one event, of its own DID. Its document is the one Root published under that event if and only if its document hash is the one in the payload, and its metadata, when hashed, if and only if that hash is |
| PackageContents.ServedIsDescribed | services/root-node/src/main.rs:1109-1145 | In every interleaving the metadata served with a document names its DID, its hash, its services and its identity type, and lists exactly the ids of its tags, each once and in order |
| LeasedJobs.LeaseExclusive | docs/research/redo-experiments/system-ablation/oan-protocol-common/crates/oan-storage/src/lib.rs:171-296 | Over every run: between two consecutive grants of a job the first lease expired, or the job was retried or enqueued again |
| LeasedJobs.StaysHeld | docs/research/redo-experiments/system-ablation/oan-protocol-common/crates/oan-storage/src/lib.rs:171-296 | Until then the job stays leased with the granted expiry, or is finished |
| LeasedJobs.LeasedIffUntouched | docs/research/redo-experiments/system-ablation/oan-protocol-common/crates/oan-storage/src/lib.rs:171-296 | From a grant on, with none after it: the row is leased to that worker with that expiry if and only if no retry, enqueue or success of the job came since; after one it is not leased at all |
| LeasedJobs.EveryRunFits | docs/research/redo-experiments/system-ablation/oan-protocol-common/crates/oan-storage/src/lib.rs:138-296 | Over every run a row names an owner and an expiry if and only if it is leased |
| LeasedJobs.LeasableAgainIff | docs/research/redo-experiments/system-ablation/oan-protocol-common/crates/oan-storage/src/lib.rs:178-296 | When a granted job can be granted again, decided by the last operation on it: the grant, at its expiry; a retry, at its next attempt; an enqueue, at once; a success, never |
| LeasedJobs.EndsAnothersLeaseIff | docs/research/redo-experiments/system-ablation/oan-protocol-common/crates/oan-storage/src/lib.rs:267-296 | A retry ends a live lease of another worker if and only if the row is leased, has not run out and names an owner who is not the caller |
| LeasedJobs.RetryEndsAnothersLeaseIff | docs/research/redo-experiments/system-ablation/oan-protocol-common/crates/oan-storage/src/lib.rs:267-296 | Over every run: if and only if the last grant was to another worker, nothing touched the job since and that lease has not run out |
| LeasedJobs.StaleRetryBreaksLease | docs/research/redo-experiments/system-ablation/oan-protocol-common/crates/oan-storage/src/lib.rs:267-296 | A run in which it happens, and a third worker is granted the job while the lease is live |
| LeasedJobs.FinishedStaysFinished | docs/research/redo-experiments/system-ablation/oan-protocol-common/crates/oan-storage/src/lib.rs:242-265 | A finished job is granted again only after a retry or an enqueue |
| LeasedJobs.SelectedIsFirst | docs/research/redo-experiments/system-ablation/oan-protocol-common/crates/oan-storage/src/lib.rs:178-205 | The selection is exactly the first `limit` leasable jobs by next attempt, creation and key, each once |
| LeasedJobs.TakenInOrder | docs/research/redo-experiments/system-ablation/oan-protocol-common/crates/oan-storage/src/lib.rs:178-205 | Jobs are taken by next attempt, then by creation, then by key, and none that is left out should have come first |
| LeasedJobs.OneMoreLease | docs/research/redo-experiments/system-ablation/oan-protocol-common/crates/oan-storage/src/lib.rs:206-240 | A selected row still meets the guard when its turn comes, so the guarded update never drops it |
| LeasedJobs.AttemptsAreRetries | docs/research/redo-experiments/system-ablation/oan-protocol-common/crates/oan-storage/src/lib.rs:138-170 | The attempt count grows by one per retry and by nothing else, and re-enqueueing keeps it and the creation time |
| LeasedJobs.PayloadIsLastEnqueued | docs/research/redo-experiments/system-ablation/oan-protocol-common/crates/oan-storage/src/lib.rs:138-170 | Over every run a job has the payload of its last enqueue, whatever leases, reports and retries came since |
| LeasedJobs.GrantIsLastEnqueued | docs/research/redo-experiments/system-ablation/oan-protocol-common/crates/oan-storage/src/lib.rs:138-240 | A grant of a job hands out, once, the payload of its last enqueue and the number of its retries since it entered the table |
| LeasedJobs.DueAsLastGivenBack | docs/research/redo-experiments/system-ablation/oan-protocol-common/crates/oan-storage/src/lib.rs:138-296 | A job is due when its last enqueue or retry said |
| LeasedJobs.ErrorIsLastReported | docs/research/redo-experiments/system-ablation/oan-protocol-common/crates/oan-storage/src/lib.rs:138-296 | The recorded error is that of the last retry, and none after an enqueue or a success |
| LeasedJobs.JobTable.EnqueueLeasedJob | docs/research/redo-experiments/system-ablation/oan-protocol-common/crates/oan-storage/src/lib.rs:138-170 | Inserts a ready job, or resets an existing one with the new payload and keeps its attempts |
| LeasedJobs.JobTable.LeaseReadyJobs | docs/research/redo-experiments/system-ablation/oan-protocol-common/crates/oan-storage/src/lib.rs:171-240 | Grants exactly the selected jobs with their old payloads and attempts and leases exactly their rows, or changes nothing if a payload does not decode |
| LeasedJobs.JobTable.GuardedLease | docs/research/redo-experiments/system-ablation/oan-protocol-common/crates/oan-storage/src/lib.rs:206-240 | Updates the row if and only if it is still leasable, and counts it |
| LeasedJobs.JobTable.MarkLeasedJobSucceeded | docs/research/redo-experiments/system-ablation/oan-protocol-common/crates/oan-storage/src/lib.rs:242-265 | Finishes the job and clears its lease |
| LeasedJobs.JobTable.MarkLeasedJobRetry | docs/research/redo-experiments/system-ablation/oan-protocol-common/crates/oan-storage/src/lib.rs:267-296 | Puts the job back with one more attempt, whoever asks |
| NonceStore.ReplayNeedsAgeOrOverflow | docs/research/redo-experiments/system-ablation/oan-reference-services/crates/oan-service-security/src/lib.rs:353-422 | Over every run of checks with non-decreasing clock: a nonce stored with time t is accepted again only after t aged out, or when at least 10000 other accepted nonces had times at or after t |
| NonceStore.KeptOrForgettable | docs/research/redo-experiments/system-ablation/oan-reference-services/crates/oan-service-security/src/lib.rs:353-422 | Until one of the two holds the nonce stays in the store under its time |
| NonceStore.OverflowKeepsYounger | docs/research/redo-experiments/system-ablation/oan-reference-services/crates/oan-service-security/src/lib.rs:401-422 | An overflow that drops a nonce keeps a full store of nonces no older |
| NonceStore.StoreIsBounded | docs/research/redo-experiments/system-ablation/oan-reference-services/crates/oan-service-security/src/lib.rs:401-422 | The store never holds more than 10000 entries, all of them accepted nonces with their own times |
| NonceStore.YoungestUnique | docs/research/redo-experiments/system-ablation/oan-reference-services/crates/oan-service-security/src/lib.rs:401-422 | The pruned store is determined: exactly the youngest entries, ties by nonce |
| NonceStore.NonceFile.PruneNonceStore | docs/research/redo-experiments/system-ablation/oan-reference-services/crates/oan-service-security/src/lib.rs:401-422 | Drops the aged out entries and then the oldest beyond the bound |
| NonceStore.NonceFile.VerifyAndStoreNonce | docs/research/redo-experiments/system-ablation/oan-reference-services/crates/oan-service-security/src/lib.rs:353-388 | Accepts if and only if the nonce is not kept within its time to live; a refusal leaves the stored file alone |
| SignedEnvelope.ReplaySafeIff | docs/research/redo-experiments/system-ablation/oan-reference-services/crates/oan-service-security/src/lib.rs:222-286 | For a policy some request can meet: no run shorter than the store's capacity accepts one envelope twice if and only if the clock skew is below the time to live (or negative, and nothing is accepted) |
| SignedEnvelope.ReplayNeedsFlood | docs/research/redo-experiments/system-ablation/oan-reference-services/crates/oan-service-security/src/lib.rs:222-286 | With skew + 1 <= ttl, an envelope accepted twice means at least 10000 other stored requests with times within twice the freshness window |
| SignedEnvelope.ReplayWhenTtlIsShort | docs/research/redo-experiments/system-ablation/oan-reference-services/crates/oan-service-security/src/lib.rs:340-388 | With ttl <= skew an envelope is accepted twice, for every request that passes the other checks |
| SignedEnvelope.FreshnessWindow | docs/research/redo-experiments/system-ablation/oan-reference-services/crates/oan-service-security/src/lib.rs:340-351 | A request is fresh if and only if it is less than skew + 1 seconds away, as seconds are cut toward zero |
| SignedEnvelope.CreatedIsAccepted | docs/research/redo-experiments/system-ablation/oan-reference-services/crates/oan-service-security/src/lib.rs:154-198 | A created envelope verifies under the signer's document, unless stale or replayed |
| SignedEnvelope.RefusedSignatureSpendsNonce | docs/research/redo-experiments/system-ablation/oan-reference-services/crates/oan-service-security/src/lib.rs:249-280 | While the store is not full, a wrongly signed request spends its nonce: within the time to live a later one that gets as far as the nonce check is refused as a replay, whatever its signature |
| SignedEnvelope.VerifySignedRequestEnvelope | docs/research/redo-experiments/system-ablation/oan-reference-services/crates/oan-service-security/src/lib.rs:222-286 | Gives the first fault in the order of the checks, which the next rows write out, and stores the nonce exactly when the fields and the time pass and it is not kept |
| SignedEnvelope.AcceptedIff | docs/research/redo-experiments/system-ablation/oan-reference-services/crates/oan-service-security/src/lib.rs:222-286 | An envelope is accepted if and only if it has a proof value, the expected fields and the hash of the body, its time lies within the window and its nonce is not kept, and the key of the method it names, or of the signer's `#key-1`, which the signer's document lists for assertions, verifies its signature over all other fields |
| SignedEnvelope.VerdictIsFirst | docs/research/redo-experiments/system-ablation/oan-reference-services/crates/oan-service-security/src/lib.rs:222-286 | The error is that of the first of ten written-out faults; so an envelope changed after signing is refused for its signature as soon as that does not verify |
| SignedEnvelope.SignatureAcceptedIff | docs/research/redo-experiments/system-ablation/oan-reference-services/crates/oan-service-security/src/lib.rs:258-286 | The answer names the signer, the method used and the request |
| SignedEnvelope.EnvelopeTextInjective | docs/research/redo-experiments/system-ablation/oan-reference-services/crates/oan-service-security/src/lib.rs:154-198 | Envelopes with one signed hash agree in every field but the proof |
| JsonReader.CanonicalRoundTrip | crates/oan-crypto/src/lib.rs:98-142 | A reader recovers every value from its canonical text: null, booleans, integers, escaped strings, nested arrays and objects |
| JsonReader.TextRoundTrip | crates/oan-crypto/src/lib.rs:111-142 | It does so in front of any text that does not begin with a digit, consuming exactly the value |
| JsonReader.CanonicalTextInjective | crates/oan-crypto/src/lib.rs:111-142 | Two values print alike if and only if they are equal |
| JsonReader.StringRoundTrip | crates/oan-crypto/src/lib.rs:111-117 | Escaping (section 7 of RFC 8259) is undone by the reader for every string |
| JsonReader.PrintersAgree | agents/service-agent-python/src/service_agent/main.py:45-46 | The Python printer gives the text of the Rust printer on every value |
| JsonReader.KeysAgree | agents/service-agent-python/src/service_agent/main.py:45-46 | Sorting keys by code point gives the order of their UTF-8 bytes |
| JsonReader.EscapesAgree | agents/service-agent-python/src/service_agent/main.py:45-46 | Both languages escape every character alike |
| Utf8.ByteOrderIsCodePointOrder | agents/service-agent-python/src/service_agent/main.py:45-46 | The order of UTF-8 bytes is the order of code points (section 1 of RFC 3629) |
| Crypto.HashJsonInjective | crates/oan-crypto/src/lib.rs:103-105 | Two values hash alike if and only if they are equal |
| Crypto.HashesAgreeAcrossLanguages | agents/service-agent-python/src/service_agent/main.py:49-50 | A Rust service and a Python agent get the same hash if and only if they hash the same value |
| Bulletin.VerifyHashChain | crates/oan-bulletin/src/lib.rs:111-150 | No error if and only if every event continues the chain; an error names the first event that does not, and the first check it fails |
| Bulletin.PassingIsSigned | crates/oan-bulletin/src/lib.rs:111-150 | A bulletin passes if and only if its events are numbered from 1, each names the hash of the one before, and each carries the hash of its own contents with a signature that verifies under Root's key |
| Bulletin.AppendPasses | crates/oan-bulletin/src/lib.rs:96-150 | A signed event that continues a passing bulletin keeps it passing |
| Bulletin.PrefixPasses | crates/oan-bulletin/src/lib.rs:111-150 | Every prefix of a passing bulletin passes |
| Bulletin.SameHeadSameHistory | crates/oan-bulletin/src/lib.rs:111-150 | Passing bulletins with the same last event hash have equal lengths and equal event cores throughout, whatever keys they were checked with |
| Bulletin.NoForkBelowSharedEvent | crates/oan-bulletin/src/lib.rs:111-150 | Passing bulletins that share one event hash anywhere agree on its position and on everything before it |
| Bulletin.HashCoreInjective | crates/oan-bulletin/src/lib.rs:92-94 | Event cores hash alike if and only if they are equal |
| CapabilityTree.IsDescendantOrSame | crates/oan-core/src/lib.rs:186-210 | For every table, cyclic, dangling or with repeated ids, the walk ends and answers whether the domain is `*` or reachable in zero or more parent steps |
| CapabilityTree.CycleAddsNothing | crates/oan-core/src/lib.rs:200-207 | Once a parent repeats, nothing new is reached: the cut-off loses no answer |
| CapabilityTree.WalkIsContainment | crates/oan-core/src/lib.rs:186-250 | On a flattened forest with unique ids the walk answers `*`, same, or lies under in the forest |
| CapabilityTree.AuthorizationIsContainment | crates/oan-core/src/lib.rs:212-250 | On such a forest tags are authorized if and only if a domain is `*` or some tag is, or lies under, some domain |
| CapabilityTree.PreorderIds | crates/oan-core/src/lib.rs:230-250 | The flattened table has one entry per node of the forest, in preorder |
| CapabilityTree.CapabilityTagTree.FlattenTree | crates/oan-core/src/lib.rs:230-250 | Fills an empty table with the preorder of the forest, and leaves a filled one alone |
| CapabilityTree.CapabilityTagTree.Walk | crates/oan-core/src/lib.rs:235-245 | Appends the preorder of one subtree |
| CapabilityTree.NormalizeTag | crates/oan-core/src/lib.rs:176-184 | Gives the id of the first tag with that id or alias, if there is one |
| CapabilityTree.AliasesMatchAsTheirTags | crates/oan-core/src/lib.rs:176-250 | With unambiguous names a capability and a domain, given by id or by alias, match if and only if the domain's tag is the capability's tag or an ancestor of it |
| CapabilityTree.TranslateIsTextProcessing | services/root-node/src/main.rs:1523-1545 | In Root's default table `translate` lies within the domain `text-processing`, and not the other way round |
| CapabilityTree.MatchesAuthorizedDomains | crates/oan-core/src/lib.rs:212-228 | Answers whether a domain is `*` or some normalized tag descends from some normalized domain |
| DiscoverySync.NothingSkipped | docs/research/redo-experiments/system-ablation/oan-reference-services/services/discovery-node/src/main.rs:396-493 | Over any series of syncs on a growing ascending feed, each publication at or below the stored cursor was indexed or rejected by a completed sync |
| DiscoverySync.HandledIsKept | docs/research/redo-experiments/system-ablation/oan-reference-services/services/discovery-node/src/main.rs:396-493 | Its outcome is in the log of outcomes for good, and a rejection stays in the rejected table |
| DiscoverySync.IndexIsReplay | docs/research/redo-experiments/system-ablation/oan-reference-services/services/discovery-node/src/main.rs:853-893 | The index is the replay of all outcomes |
| DiscoverySync.IndexIsLastWord | docs/research/redo-experiments/system-ablation/oan-reference-services/services/discovery-node/src/main.rs:853-893 | For each DID the index holds the cursor and package of the publication that passed last for it |
| DiscoverySync.NeverIndexed | docs/research/redo-experiments/system-ablation/oan-reference-services/services/discovery-node/src/main.rs:853-893 | A DID for which nothing passed is not in the index |
| DiscoverySync.BusySync | docs/research/redo-experiments/system-ablation/oan-reference-services/services/discovery-node/src/main.rs:345-501 | A sync with all answers reads the window after its cursor up to the first package that does not come: if that one cannot be transported, cursor and rejections stay; if it does not decode, it is recorded as such and the cursor stays below it; and each package rejected before it is recorded with its reason |
| DiscoverySync.QuietSync | docs/research/redo-experiments/system-ablation/oan-reference-services/services/discovery-node/src/main.rs:345-400 | Without an answer of Root or of the feed, or with a cursor hint that is not ahead, a sync changes nothing |
| DiscoverySync.CursorAfterSync | docs/research/redo-experiments/system-ablation/oan-reference-services/services/discovery-node/src/main.rs:455-472 | A sync never lowers the cursor, keeps it below a blocked publication, and raises it if and only if it completed and indexed something, to the cursor of a publication it treated |
| DiscoverySync.CursorStaysIff | docs/research/redo-experiments/system-ablation/oan-reference-services/services/discovery-node/src/main.rs:455-472 | Over any series of syncs the cursor never falls, and stays if and only if each of them ends early or indexes nothing |
| DiscoverySync.AbortedThenRerun | docs/research/redo-experiments/system-ablation/oan-reference-services/services/discovery-node/src/main.rs:396-493 | A sync cut off by fetch errors and rerun ends in the state an uninterrupted one ends in |
| DiscoverySync.RerunIdempotent | docs/research/redo-experiments/system-ablation/oan-reference-services/services/discovery-node/src/main.rs:853-893 | Indexing a part first changes nothing once the whole is indexed |
| DiscoverySync.StuckOnRejections | docs/research/redo-experiments/system-ablation/oan-reference-services/services/discovery-node/src/main.rs:455-472 | A full window of rejected publications stops the cursor for good at that limit, as rejections do not move it |
| DiscoverySync.RejectionStopsSmallWindow | docs/research/redo-experiments/system-ablation/oan-reference-services/services/discovery-node/src/main.rs:455-472 | An instance: behind one rejected publication no number of syncs with limit 1 moves the cursor or indexes the passing one, and a single sync with limit 2 does |
| DiscoverySync.IndexedPassed | docs/research/redo-experiments/system-ablation/oan-reference-services/services/discovery-node/src/main.rs:396-464 | Every indexed package is kept under its own DID and passed in a sync at the cursor it is kept with |
| DiscoverySync.DiscoveryNode.SyncFromCdn | docs/research/redo-experiments/system-ablation/oan-reference-services/services/discovery-node/src/main.rs:345-501 | The handler with its cursor and table writes makes exactly one step of the specification, and fails exactly when Root does not answer, the list is needed and does not come, or a package is not fetched |
| ClaimedPackages.CheckClaims | docs/research/redo-experiments/system-ablation/oan-reference-services/services/discovery-node/src/main.rs:1087-1115 | Gives the first of the five checks a package with signed claims fails |
| ClaimedPackages.ClaimReasonIsFirst | docs/research/redo-experiments/system-ablation/oan-reference-services/services/discovery-node/src/main.rs:1087-1115 | The reason is that of the first of five written-out faults, or none if there is none |
| ClaimedPackages.TrustedIsSigned | docs/research/redo-experiments/system-ablation/oan-reference-services/services/discovery-node/src/main.rs:1087-1115 | A package that fails at most the domain check carries claims for its DID and document that verify under Root's key |
| ClaimedPackages.ClaimsFixTheDocument | docs/research/redo-experiments/system-ablation/oan-reference-services/services/discovery-node/src/main.rs:1087-1115 | Two packages that pass with the same claims have the same DID and the same document |
| ClaimedPackages.ClaimsFixTheMetadataIff | docs/research/redo-experiments/system-ablation/oan-reference-services/services/discovery-node/src/main.rs:1087-1115 | All trusted packages with the claims of a given one have its metadata if and only if the metadata hash named in the claims is not empty |
| ClaimedPackages.IndexedWasChecked | docs/research/redo-experiments/system-ablation/oan-reference-services/services/discovery-node/src/main.rs:396-464 | Over every series of syncs, each under its own key and domains: every indexed package is under its own DID and passed all checks under the key and domains of a sync |
| DiscoverySync.DiscoveryNode.TreatItems | docs/research/redo-experiments/system-ablation/oan-reference-services/services/discovery-node/src/main.rs:396-454 | Indexes and collects exactly the outcomes up to the first package that cannot be had |
| DiscoverySync.DiscoveryNode.WriteRejected | docs/research/redo-experiments/system-ablation/oan-reference-services/services/discovery-node/src/main.rs:958-984 | Records each rejection under DID and cursor |
| RegistrarDraft.EveryRunKeepsOk | docs/research/redo-experiments/system-ablation/oan-reference-services/services/registrar-node/src/main.rs:718-1151 | Over every run, a control is verified if and only if it stores a proof, and that bundle was made by this registrar for this purpose, passed the check of its signature under the stored document and names its hash |
| RegistrarDraft.VerifiedMeansChecked | docs/research/redo-experiments/system-ablation/oan-reference-services/services/registrar-node/src/main.rs:973-1061 | A verified draft holds a complete bundle, with time, method and proof hash, checked against its own document |
| RegistrarDraft.SubmissionIsChecked | docs/research/redo-experiments/system-ablation/oan-reference-services/services/registrar-node/src/main.rs:1909-1957 | Every submission carries a bundle checked against the very document it submits |
| ControlProofs.VerifiedMeansSigned | docs/research/redo-experiments/system-ablation/oan-reference-services/services/registrar-node/src/main.rs:973-1061 | In every reachable state a verified control holds a proof value that verifies, under a key of the stored document listed for assertions and named by the challenge, over the whole challenge; and the challenge names that document, the draft, this registrar and its purpose |
| ControlProofs.SubmissionIsSigned | docs/research/redo-experiments/system-ablation/oan-reference-services/services/registrar-node/src/main.rs:1909-1957 | Every submission carries such a signature over a challenge for the document it submits |
| ControlProofs.VerifiedWasProved | docs/research/redo-experiments/system-ablation/oan-reference-services/services/registrar-node/src/main.rs:906-1061 | Behind every verified control of a reachable state stand two operations of the run: one made the challenge, for the DID and the document of that moment, and a later one, within the time the challenge allows, presented the proof |
| ControlProofs.ProofErrorIsFirst | docs/research/redo-experiments/system-ablation/oan-reference-services/crates/oan-service-security/src/lib.rs:455-495 | The error is that of the first of eight written-out faults, or none if there is none |
| ControlProofs.ChallengeTextInjective | docs/research/redo-experiments/system-ablation/oan-reference-services/crates/oan-service-security/src/lib.rs:455-495 | Equal signed hashes come from equal challenges |
| IssuedCredentials.IssuesIff | docs/research/redo-experiments/system-ablation/oan-reference-services/services/registrar-node/src/main.rs:1063-1151 | In every reachable state a credential is issued if and only if the draft is validated and its control verified |
| IssuedCredentials.IssuedIsSigned | docs/research/redo-experiments/system-ablation/oan-reference-services/services/registrar-node/src/main.rs:1063-1151 | The stored credential verifies under the registrar's key over the rest of its JSON, and names the registrar, the draft's DID, the time, and the hash and the tags of its document |
| IssuedCredentials.BindingFitsIff | docs/research/redo-experiments/system-ablation/oan-reference-services/crates/oan-service-security/src/lib.rs:517-566 | A credential made for one bundle is accepted for a subject, a document hash, a registrar, a purpose and a bundle if and only if all of them are those it was made for |
| IssuedCredentials.BindingNeedsTime | docs/research/redo-experiments/system-ablation/oan-reference-services/crates/oan-service-security/src/lib.rs:517-566 | Claims without a binding, or with one that has no time, are accepted for nothing |
| DraftHistory.StatusIsLastGiven | docs/research/redo-experiments/system-ablation/oan-reference-services/services/registrar-node/src/main.rs:718-1175 | Over every run the status of a draft is the one the last successful operation on it gave: drafted, control verified, credential issued, submitted or failed |
| DraftHistory.WrittenContents | docs/research/redo-experiments/system-ablation/oan-reference-services/services/registrar-node/src/main.rs:718-870 | A fresh draft has the DID it was given, else its document's, else the fallback; an update writes what it brings, takes the DID and the hash from a new document, and keeps the rest |
| DraftHistory.OthersStay | docs/research/redo-experiments/system-ablation/oan-reference-services/services/registrar-node/src/main.rs:718-1175 | No operation changes another draft's record, control or credential |
| DraftHistory.IssueErrorIsFirst | docs/research/redo-experiments/system-ablation/oan-reference-services/services/registrar-node/src/main.rs:1063-1151 | In every reachable state issuing is refused for a missing draft, one not validated or one not verified, in that order, and never for a missing hash or proof |
| DraftHistory.SubmitErrorIsFirst | docs/research/redo-experiments/system-ablation/oan-reference-services/services/registrar-node/src/main.rs:1909-1957 | In every reachable state a submission is refused before it is sent for a missing draft, document, credential or verified control, in that order |
| RegistrarDraft.IssuedBinds | docs/research/redo-experiments/system-ablation/oan-reference-services/services/registrar-node/src/main.rs:1063-1151 | An issued credential passes the binding check for a subject if and only if that is the subject of the verified challenge |
| RegistrarDraft.IssuedBindsOwnSubject | docs/research/redo-experiments/system-ablation/oan-reference-services/crates/oan-service-security/src/lib.rs:517-566 | It passes for its own subject if and only if the draft's DID is the one challenged |
| RegistrarDraft.IssuedToAnotherSubject | docs/research/redo-experiments/system-ablation/oan-reference-services/services/registrar-node/src/main.rs:806-808 | That can fail: a later change of the DID alone leaves the proof standing, and a credential is issued to a subject never challenged |
| RegistrarDraft.SubmissionUndoesChanges | docs/research/redo-experiments/system-ablation/oan-reference-services/services/registrar-node/src/main.rs:1153-1222 | A submission that ends puts back the core, the control and the credential it read, whatever was done to them in between |
| RegistrarDraft.IssuedIsValidIff | docs/research/redo-experiments/system-ablation/oan-reference-services/services/registrar-node/src/main.rs:872-904 | The document a credential is issued for passes the document check if it was validated after it was last written, and otherwise if and only if what was written last passes |
| RegistrarDraft.InvalidDocumentIssued | docs/research/redo-experiments/system-ablation/oan-reference-services/services/registrar-node/src/main.rs:809-815 | It can fail: an update keeps the validated status, so a document that fails the check can be written, proved and issued |
| RegistrarDraft.RequestIsTrusted | docs/research/redo-experiments/system-ablation/oan-reference-services/services/registrar-node/src/main.rs:1909-1957 | The request a Registrar builds passes Root's envelope check under the Registrar's document, unless it is stale or its nonce kept |
| RegistrarDraft.OtherSubmissionIsRefused | docs/research/redo-experiments/system-ablation/oan-reference-services/services/registrar-node/src/main.rs:1909-1957 | With a different submission in it, it never passes |
| ControlProofs.AnyOtherIsRefused | docs/research/redo-experiments/system-ablation/oan-reference-services/services/registrar-node/src/main.rs:1909-1957 | With anything else in it, down to a field of the proof, it never passes |
| RegistrarDraft.Registrar.CreateDraft | docs/research/redo-experiments/system-ablation/oan-reference-services/services/registrar-node/src/main.rs:718-780 | Makes exactly the create step over the three records |
| RegistrarDraft.Registrar.UpdateDraft | docs/research/redo-experiments/system-ablation/oan-reference-services/services/registrar-node/src/main.rs:782-870 | Makes exactly the update step: a new document resets the control, other fields do not |
| RegistrarDraft.Registrar.ValidateDraft | docs/research/redo-experiments/system-ablation/oan-reference-services/services/registrar-node/src/main.rs:872-904 | Marks the draft validated if and only if its document names its DID and passes the document check |
| RegistrarDraft.ValidIff | docs/research/redo-experiments/system-ablation/oan-reference-services/services/registrar-node/src/main.rs:872-904 | A draft is valid if and only if its document has its DID and every required part |
| RegistrarDraft.Registrar.CreateControlChallenge | docs/research/redo-experiments/system-ablation/oan-reference-services/services/registrar-node/src/main.rs:906-971 | Stores a fresh challenge for the document as it is and drops the old proof |
| RegistrarDraft.Registrar.VerifySubjectControlProof | docs/research/redo-experiments/system-ablation/oan-reference-services/crates/oan-service-security/src/lib.rs:455-495 | Gives the first fault of a control proof |
| RegistrarDraft.Registrar.SubmitControlProof | docs/research/redo-experiments/system-ablation/oan-reference-services/services/registrar-node/src/main.rs:973-1061 | Verifies the proof against the stored challenge and records it, or changes nothing |
| RegistrarDraft.Registrar.IssueRegistrationCredential | docs/research/redo-experiments/system-ablation/oan-reference-services/services/registrar-node/src/main.rs:1063-1151 | Issues the signed credential, or changes nothing |
| RegistrarDraft.Registrar.BeginSubmission | docs/research/redo-experiments/system-ablation/oan-reference-services/services/registrar-node/src/main.rs:1153-1175 | Reads the draft a submission will write back and builds the signed request over its contents, or gives the first fault and changes nothing |
| RegistrarDraft.Registrar.EndSubmission | docs/research/redo-experiments/system-ablation/oan-reference-services/services/registrar-node/src/main.rs:1176-1222 | Writes the read draft back with the outcome |
| SubmitAdmission.InvariantHolds | docs/research/redo-experiments/system-ablation/oan-reference-services/services/registrar-node/src/main.rs:1830-1864 | Under any interleaving of the steps of any requests: free and held permits add up to the limit, and the in-flight set is exactly the drafts admitted, each by one request |
| SubmitAdmission.RefusalReasons | docs/research/redo-experiments/system-ablation/oan-reference-services/services/registrar-node/src/main.rs:1830-1864 | A request is turned away for capacity if and only if all permits are held, and for its draft if and only if that is admitted |
| SubmitAdmission.AllEndedRestores | docs/research/redo-experiments/system-ablation/oan-reference-services/services/registrar-node/src/main.rs:339-351 | When every request has ended, all permits are free and no draft is in flight |
| SubmitAdmission.Limiter.TryAcquire | docs/research/redo-experiments/system-ablation/oan-reference-services/services/registrar-node/src/main.rs:1830-1845 | Takes a permit if one is free |
| SubmitAdmission.Limiter.Insert | docs/research/redo-experiments/system-ablation/oan-reference-services/services/registrar-node/src/main.rs:1846-1864 | Admits the draft if it is not in flight |
| SubmitAdmission.Limiter.Remove | docs/research/redo-experiments/system-ablation/oan-reference-services/services/registrar-node/src/main.rs:345-351 | Takes the draft out of the set, before the permit is returned |
| SubmitAdmission.Limiter.Release | docs/research/redo-experiments/system-ablation/oan-reference-services/services/registrar-node/src/main.rs:339-351 | Returns the permit |
| DidAns.ParseIffRegex | crates/oan-did-ans/src/lib.rs:48-82 | A text parses if and only if it matches the pattern, and the last check never fails after the others |
| DidAns.ParsedIsAssembled | crates/oan-did-ans/src/lib.rs:48-82 | A parsed DID is its prefix, code and suffix rejoined, with a valid code and suffix |
| DidAns.ParseAssembled | crates/oan-did-ans/src/lib.rs:48-82 | Every valid code and suffix, joined, parse back to themselves |
| DidAns.FileNamesInjective | crates/oan-storage/src/lib.rs:214-216 | Parsed DIDs have different file names and different archive directories |
| Base58.KeyMakesIdentifier | crates/oan-did-ans/src/lib.rs:85-89 | Every 32-byte key makes an identifier under every valid semantic code, and under no other code |
| Base58.IdentifierDeterminesKey | crates/oan-did-ans/src/lib.rs:85-89 | Identifiers of different keys or codes differ |
| Base58.KeyLength | crates/oan-did-ans/src/lib.rs:85-89 | The Base58 text of a 32-byte key has 32 to 44 characters |
| Base58.KeyLengthTight | crates/oan-did-ans/src/lib.rs:85-89 | Both bounds are met |
| Base58.KeySpace | crates/oan-did-ans/src/lib.rs:85-89 | 58^43 < 256^32 < 58^44 |
| Base58.EncodeInjective | crates/oan-did-ans/src/lib.rs:85-89 | Byte strings of any lengths with one Base58 text are equal |
| Documents.ValidateMvp | crates/oan-core/src/lib.rs:268-292 | No error if and only if the document has an id, the core context and at least one verification method, authentication and assertion method |
| Documents.FindMethod | docs/research/redo-experiments/system-ablation/oan-reference-services/crates/oan-service-security/src/lib.rs:200-220 | Finds a method that is listed and, when one is expected, has that id, if there is one |
| Documents.FindMethodIsFirst | docs/research/redo-experiments/system-ablation/oan-reference-services/crates/oan-service-security/src/lib.rs:200-220 | It is the first such method |
| Documents.NamedKeyIff | docs/research/redo-experiments/system-ablation/oan-reference-services/crates/oan-service-security/src/lib.rs:200-220 | What is found under a name is the first method of that id, if the document lists the id for assertions |
| Documents.KeysAgreeIff | services/root-node/src/main.rs:1087-1107 | Root and the services under research read the same key off a method, except one with two forms of key that decode differently |
| Documents.DocumentJsonInjective | crates/oan-core/src/lib.rs:102-137 | The JSON form determines the document, with its methods, services and flattened metadata |

## Left out

- DiscoverySync.DiscoveryNode.SyncFromCdn: models the tables of the SQLite mode, not the JSON files written without it.
- ClaimedPackages.CheckClaims: the services under `docs/research` have this check of package claims, which ignores the bulletin; the services under `services` check bulletin events, as in `Packages`. The two never meet in one theorem. The suite named in a package, and the signature formats of the newer suites, are not modelled.
- Interleaving.BatchKeepsIff: about one batch at a time; that a second batch runs beside it is covered by `System.ServedIsTrusted` only. An enqueue is one step, at its write, which may in the program bring back a package removed between its read and its write; that package is then posted once more.
- System.ServedIsTrusted: Root's batches are the CDN's only publisher, while the CDN's endpoint takes a package from anyone.
- SubmitAdmission.Limiter.TryAcquire: a poisoned lock and a closed semaphore are not modelled.
- JsonReader.CanonicalRoundTrip: floating-point numbers are not in the value type, and integers are unbounded.
- Documents.DocumentJsonInjective: the fields `cryptoSuite` and `publicKeyFormat` that the copy under `docs/research` adds to a verification method are not modelled.
- CdnNode.OneEntryPerPackage: the times in the manifest are not modelled, and a file name is a key, whatever path it would be.
- Cryptography: hashing is an injective function of texts and signing an ideal scheme; there is one suite. SHA-256, SM3, Ed25519, SM2, base64 and the decoding of keys are not modelled.
- Times: a time text is an integer, in nanoseconds where seconds are cut; the order of fixed-format time texts is the order of the integers. 64-bit overflow of cursors and counters is not modelled.
- Storage: a write succeeds, and a file, a row or a record is an entry of a map. The queue is the JSON file; the SQLite mirrors of Root's files, history logs and debug snapshots are not modelled.
- Root's seed: a node starts on a bulletin and authorization maps it is given, and replays are of what it appends. `updated_at` and the tag tree version in the authorization maps are not modelled.
- The Discovery notification queue: a batch takes at most 100 matches per node and then clears the queue, so nothing is claimed of its deliveries.
- Discovery's own reading of its domains from the bulletin: the domains are a parameter.
- Interleavings of Registrar handlers other than a submission's call to Root, and the concurrent use of a nonce file beyond its lock.
- `read_active_leased_jobs`, status, list and explain endpoints, queries with their floating-point score, and tag suggestion: they only report.
- HTTP, routing, configuration, CORS and the network: an answer is a parameter.
- The Python demonstration agent besides its printer and hash, the TypeScript stubs, and expiry dates of credentials.
