# Project 1 store and order pipeline: a verified model

This project models the stateful, replay-protected part of the AI trading platform: the shared-file store of
Project 1 integration records, the contract boundary in front of it, the selection of the latest signal, the order
intents made from its publications, the execution gateway behind them, and the audit log. Everything is stated and
proved in Dafny; `dafny verify dfyconfig.toml` checks the whole of it.

Objects that the platform updates in place are classes with the same fields, and each of their methods is specified by
a function of the state at entry, the arguments and what the surroundings do. The properties are proved about those
functions, for single calls and for whole runs.

## How it is laid out

- `Values`: options, JSON values, text stripping and case, and the `owner:id` keys. `StableSort`: Python's stable sort.
- `Project1Records`, `Project1Index`, `Project1Identity`: records and their authoritative content, the three indexes
  with their ambiguity set, and the identity scan.
- `Project1Store`: every call on the store as a function of the file, the instance's latches and the environment.
  `Project1Repository`: one process's repository, with its caches, loading, rollback and latches, proved against it.
- `Project1Steps`, `Project1Runs`, `Project1Replay`: what single calls keep, what any interleaving of any number of
  instances keeps, and how long replay verdicts last. `Project1Caches`: the instances' cached indexes over such runs.
  `Project1FastPath`: when the indexed duplicate check can be trusted. `Project1Answers`: what each call answers and
  leaves, written in the fields of the stored records.
- `Project1Listing`, `LatestSignal`: listings in publication order, and the signal shown as current.
- `Project1Contract`, `Project1Validation`, `Project1NormalForm`, `Project1Nested`: the payload validator as a
  specification and as the code performs it, its normal form, and the agreement of its nested and flat forms.
  `Project1Acceptance`, `Project1Sources`, `Project1Objects`: exactly which payloads it accepts, and from where each
  value of an accepted record comes.
- `CanonicalForm`: nested values compared through sorted tuples.
- `OrderIntents`, `OrderShelf`, `OrderLoading`, `OrderListing`, `OrderIntentRepository`: the intent and its dictionary,
  what the repository keeps, what loading any file yields, what is listed, and the repository itself.
- `OrderBook`, `OrderIntentService`, `OrderRuns`, `OrderHistories`, `OrderReplay`: the service as functions, the service
  itself, its runs, and what they mean for one intent, one key and one publication. `OrderIsolation`: whose intent a
  user is given. `OrderRestarts`: what a restart lifts. `OrderDurability`: what lasts when writes fail. `OrderMeaning`:
  exactly when an intent is staged or moved, and what it then carries.
- `PublicationToOrder`, `ValidatedPublications`: the store and the order intent service together, and publications that
  came through the contract boundary.
- `ExecutionBoundary`, `ExecutionGatewayService`, `ExecutionRuns`: commands, cache, log and reconciliation; the gateway;
  its runs beside the order intent service.
- `Sanitizer`, `AuditControl`: secrets in values, and the bounded log with its query and its summary.

## What the runs assume

- A write to the Project 1 file fails without effect, succeeds, or succeeds with the directory entry perhaps not
  durable; a call reads the clock once; a call holds the process lock from its load to its last write.
- The gateway names its caller both in the record and as the tenant of an ingest
  (`src/platform/services/project1_gateway.py:208-262`). It resolves a publication only to a record of exactly that id,
  which it then sanitises (`src/platform/services/project1_gateway.py:68-85`): the runs are those over publication ids
  that sanitising leaves alone, since an id such as `token=abc` comes back redacted. User ids are trimmed and not empty
  (`src/platform/domain/user_authorization.py:74-76`). Generated ids are new.
- The runs of `OrderRuns` are those in which the order intent repository's writes succeed; those of `OrderDurability`
  are runs in which any of them may fail.
- In runs of the execution gateway a user is an administrator throughout or not at all.

## Where a promise needs a condition

Each of these is proved as an equivalence or with a counterexample beside it.

- Index keys are texts of the form `owner:id`, so the store's replay promise holds exactly for tenants none of whose
  names, followed by a colon, begins another's. The same texts key the order intent repository.
- For the same tenants, and no others, an instance's incrementally kept index is always the one a rebuild would give.
- `is_duplicate_request` without a user answers for ids nobody stored exactly when an owner's name begins with
  `global:`.
- The latest signal is the newest eligible publication only while fewer than 500 visible records, eligible or not, come
  before it.
- A canonical creation is recognised as a replay exactly if the record's texts are trimmed and its trailing stop is not
  an empty dictionary, as is so of every record the validator makes. A list of pairs in key order, and no other list,
  passes for a dictionary in that comparison; validated trailing stops hold scalars only
  (`src/platform/domain/project1_contract.py:349-391`), so no such list comes through the gateway.
- The repository finds intents by texts of the form `user:key`, so an ordinary creation can be answered with another
  user's intent. That never happens exactly among users none of whose names, followed by a colon, begins another's, or
  does so only with a space after the colon.
- The check of a caller's idempotency key reads service memory only, so a restart lifts it; it then lets through
  exactly the acceptable creations it had refused.
- An intent whose write failed stays in the repository all the same, and survives a restart exactly if a later write
  before it succeeded.
- Attempts are logged under the id as it was asked for and looked up under the stripped one.
- A file of order intents with a repeated id can lead a publication to an intent of another publication.
- A validated record is a fixed point of validation only if its event is named and no optional text is blank.
- A user who is not an administrator and filters the audit log by his own id still sees the system's events.

## Model

| member | source | states |
|---|---|---|
| Project1Records.AreContentsIdentical | src/platform/adapters/project1_repository.py:239-245 | true exactly when the two records agree on all 25 authoritative fields, an absent field reading as None |
| Project1Records.AllRecordsIdenticalContent | src/platform/adapters/project1_repository.py:247-254 | true exactly when every record agrees with the first; an empty list or a single record does |
| Project1Index.Rebuild | src/platform/adapters/project1_repository.py:256-304 | the two-pass rebuild gives the specified three maps and the ambiguity set for any list of records |
| Project1Index.IndexMeaning | src/platform/adapters/project1_repository.py:256-304 | a rebuilt map holds a key exactly when some record is filed under it and no two such records differ in content, and then maps it to the first of them |
| Project1Index.AmbiguityMeaning | src/platform/adapters/project1_repository.py:256-304 | a key is ambiguous exactly when two records filed under it by one kind of identity differ in content |
| Project1Caches.AbsentIngestIndexes | src/platform/adapters/project1_repository.py:706-724 | with prefix-free tenants, when an ingest finds its record absent, indexing that record alone gives exactly the index a full rebuild of the extended list gives |
| Project1Caches.ReindexIsRebuild | src/platform/adapters/project1_repository.py:950-957 | so does re-indexing, one after another, the records a lifecycle update relabels |
| Project1Caches.StepRemembers | src/platform/adapters/project1_repository.py:319-373 | after a call that neither latched its instance nor was refused for want of an integration id, the instance's whole memory is the file's records and their rebuilt maps |
| Project1Caches.CachesStayTidy | src/platform/adapters/project1_repository.py:256-317 | in every interleaving of instances over prefix-free tenants, each instance's maps stay those a rebuild of its own cached list would give |
| Project1Caches.CachesAreTidyExactlyForPrefixFreeTenants | src/platform/adapters/project1_repository.py:256-317 | and this holds of every run over a set of tenants if and only if no tenant's name followed by a colon begins another's |
| Project1Identity.FindAuthoritativeLookup | src/platform/adapters/project1_repository.py:541-624 | the early-returning scan answers what the order-independent specification answers, with the same record |
| Project1Identity.VerdictMeaning | src/platform/adapters/project1_repository.py:541-624 | ambiguous key, else collision iff a visible record agrees on one id and contradicts another, else absent iff none shares an id, else ambiguous iff sharers differ in content, else a match |
| Project1Identity.VerdictIsOrderIndependent | src/platform/adapters/project1_repository.py:541-624 | the verdict against a file is the same under every permutation of its records |
| Project1Repository.Repository.constructor | src/platform/adapters/project1_repository.py:213-237 | a new instance loads the shared file, creating an absent one, and latches when that fails |
| Project1Repository.Repository.Load | src/platform/adapters/project1_repository.py:319-373 | a load replaces the cache by the file's records and their rebuilt indexes, or latches unavailable or corrupt |
| Project1Repository.Repository.Flush | src/platform/adapters/project1_repository.py:375-438 | the file is replaced as a whole or not at all |
| Project1Repository.Repository.RebuildIndexes | src/platform/adapters/project1_repository.py:256-304 | after a rebuild the instance's maps are those of its list |
| Project1Repository.Repository.IngestAuthoritativeRecord | src/platform/adapters/project1_repository.py:626-755 | answer, file and latches of an ingest are a function of the file at entry, the arguments and the write outcome, whatever the instance had cached; the cache becomes the loaded view extended by the new record |
| Project1Repository.Repository.UpdateLifecycleState | src/platform/adapters/project1_repository.py:904-968 | the same for a lifecycle update; a failed flush restores records and indexes and latches |
| Project1Repository.Repository.Relabel | src/platform/adapters/project1_repository.py:950-964 | a failed write leaves records, indexes and file as they were before the update |
| Project1Repository.Repository.SaveRecord | src/platform/adapters/project1_repository.py:440-513 | the same for an upsert, with its refusals and its replacement of the record with the integration id |
| Project1Repository.Repository.MaySave | src/platform/adapters/project1_repository.py:463-483 | an upsert is let through exactly when it takes nobody else's integration id and changes no identity or content of a record it matches |
| Project1Repository.Repository.IsDuplicateRequest | src/platform/adapters/project1_repository.py:867-902 | the indexed fast path followed by the scan, from the file at entry |
| Project1Repository.Repository.ListRecordsForUser | src/platform/adapters/project1_repository.py:780-836 | a listing is a function of the file at entry |
| Project1Answers.ContentIsAuthoritative | src/platform/adapters/project1_repository.py:21-47 | two records have the same content exactly when they agree on each of the twenty-five fields, written out one by one |
| Project1Answers.ContentDecides | src/platform/adapters/project1_repository.py:668-704 | with prefix-free tenants a record with the three ids of one its tenant has stored is a duplicate if it agrees on every such field and an integrity conflict if any one of them differs |
| Project1Answers.StatusExactly | src/platform/adapters/project1_repository.py:541-704 | with prefix-free tenants the whole verdict in the fields of the stored records: collision, absent, ambiguous, conflict or duplicate, each under its exact condition |
| Project1Answers.VerdictRecord | src/platform/adapters/project1_repository.py:541-704 | the record that comes with a duplicate, a conflict or a collision is a stored one that shares an id with the new record, or has its integration id; other verdicts come with none |
| Project1Answers.IngestMeaning | src/platform/adapters/project1_repository.py:626-755 | a working instance answers the verdict on the file's records; if it is absent the record is appended, stamped and returned, or a failed write leaves the file as it was |
| Project1Answers.IngestRefusal | src/platform/adapters/project1_repository.py:632-660 | an ingest without an integration id, a latched instance, a lost lock, an unreadable file and a malformed one are each answered with their own refusal, and every other ingest finds a working instance |
| Project1Answers.DuplicateMeaning | src/platform/adapters/project1_repository.py:867-902 | a user's duplicate check answers true exactly when a stored record of his names the id as its signal, publication or event |
| Project1Answers.LifecycleMeaning | src/platform/adapters/project1_repository.py:904-968 | a lifecycle update answers false unless the id names records of one lineage; otherwise every record named and no other is relabelled in its place, or the failed write changes nothing and latches the instance |
| Project1Answers.SaveMeaning | src/platform/adapters/project1_repository.py:440-513 | a save is refused, or its write fails and latches the instance, or it leaves the stamped record in place of the first of its integration id and user, or at the end when there is none |
| Project1Answers.SavableExactly | src/platform/adapters/project1_repository.py:463-483 | with prefix-free tenants a record may be saved exactly when no other tenant has its integration id and it restates every record of its tenant with which it shares an id |
| Project1Steps.FailedWriteChangesNothing | src/platform/adapters/project1_repository.py:632-736 | a call whose write fails leaves the file exactly as it was; at most an absent file has been created empty |
| Project1Steps.LatchedCallDoesNothing | src/platform/adapters/project1_repository.py:319-322 | a latched instance stays latched and its calls change nothing |
| Project1Runs.InterleavingRefinesAtomicStore | src/platform/adapters/project1_repository.py:626-755 | any interleaving of calls by any number of instances on one file gives the file and the answers of a single store that makes the unlatched calls in the same order |
| Project1Runs.LatchesAbsorb | src/platform/adapters/project1_repository.py:319-322 | no continuation of a run clears a latch, and the latched instance's calls change neither file nor other instances |
| Project1Runs.RunKeepsSound | src/platform/adapters/project1_repository.py:668-724 | every run of ingests and lifecycle updates keeps integration ids unique, keeps two records of one tenant from sharing an identity, and only appends |
| Project1Runs.SoundIsUnambiguous | src/platform/adapters/project1_repository.py:256-304 | with prefix-free tenant names such a store has no ambiguous key |
| Project1Runs.AcceptedRecordDecides | src/platform/adapters/project1_repository.py:541-704 | what a stored record makes of later ones: itself a duplicate, its ids with other content a conflict, one id kept and another changed a collision |
| Project1Replay.ReplayVerdictsHoldForever | src/platform/adapters/project1_repository.py:668-704 | these three verdicts hold in every continuation by any instances, and none of them changes the file |
| Project1Replay.ReplaysAreDuplicatesExactlyForPrefixFreeTenants | src/platform/adapters/project1_repository.py:267-268 | in every run over a set of tenants every replay is a duplicate, if and only if no tenant's name followed by a colon begins another's |
| Project1Replay.MeetingKeysBreakReplay | src/platform/adapters/project1_repository.py:267-304 | for any two tenants whose names are not prefix-free, a run in which a replay is answered as ambiguous |
| Project1Steps.StatusMeaning | src/platform/adapters/project1_repository.py:515-704 | the status of an ingest read off the stored records alone |
| Project1Steps.CoreDeterminesVerdict | src/platform/adapters/project1_repository.py:21-47 | bookkeeping fields never change the verdict on any record |
| Project1Steps.LifecycleUpdateDoesNotInterfere | src/platform/adapters/project1_repository.py:926-957 | an update touches records of one visible lineage only, in their lifecycle fields, in place, gives each record it names the new state, reason and time, and leaves the status of every possible later ingest unchanged |
| Project1Steps.UnclearUpdateIsRefused | src/platform/adapters/project1_repository.py:926-948 | when the name matches several lineages or nothing, the update answers false and changes nothing |
| Project1Steps.FastPathAgreesWithScan | src/platform/adapters/project1_repository.py:881-899 | for a named user the index answers only what the scan would answer; without a user, whenever no owner's name begins with "global:" |
| Project1FastPath.FastPathIsTrustedExactlyOutsideGlobal | src/platform/adapters/project1_repository.py:881-899 | without a user the index answers only for ids some record carries, on every store and in every run over a set of tenants, if and only if no tenant's name begins with "global:" |
| Project1FastPath.TenantUnderGlobalMisleads | src/platform/adapters/project1_repository.py:881-888 | for any tenant so named a run of one ingest after which an id that no record carries is answered with true |
| Project1Listing.ListRecords | src/platform/adapters/project1_repository.py:800-833 | the loops of the listing give the specified filter, order and window |
| Project1Listing.PublicationOrderMeaning | src/platform/adapters/project1_repository.py:809-833 | a listing in publication order is a permutation of the admitted records, newest first, equal times in stored order, and a limited one is its prefix |
| Project1Listing.ListedExactly | src/platform/adapters/project1_repository.py:800-833 | a listing without a limit shows exactly the stored records of the user, or the system's as well where that is allowed, of the symbol and in the state asked for |
| StableSort.SortIsStable | src/platform/adapters/project1_repository.py:830 | a descending stable sort keeps every element and the order among equal keys |
| StableSort.StableSortIsUnique | src/platform/adapters/project1_repository.py:830 | there is only one such arrangement |
| StableSort.LeaderComesFirst | src/platform/adapters/project1_repository.py:830-833 | the first element satisfying a test in the sorted order is the earliest of the greatest ones, and it stands at the number of elements that rank before it |
| LatestSignal.Select | src/platform/adapters/project1_adapter.py:213-296 | the selection loop and max give the first newest candidate among the eligible records listed |
| LatestSignal.FetchLatestSignal | src/platform/adapters/project1_adapter.py:185-296 | the record shown is the newest eligible one of the whole store when fewer than 500 visible records come before it in publication order, and none otherwise; ties go to the earliest stored |
| LatestSignal.ChoiceIsShown | src/platform/adapters/project1_adapter.py:200-296 | the maximum over the window is the global maximum exactly under that count |
| LatestSignal.ShownMeaning | src/platform/adapters/project1_adapter.py:200-296 | the record shown is stored, visible to the viewer and of the symbol and timeframe asked for; it was emitted, is live and current, and is not cancelled, expired, rejected or executed |
| LatestSignal.EligibleExactly | src/platform/adapters/project1_adapter.py:213-286 | a record is eligible exactly under these conditions on its fields |
| LatestSignal.PublishedExactly | src/platform/adapters/project1_adapter.py:221-260 | its publication time is the first of its four stamps that says anything, a number or a readable date not before the epoch, at most five seconds ahead of the clock; without one it ranks last |
| LatestSignal.NewestExists | src/platform/adapters/project1_adapter.py:292-296 | whenever some visible record is eligible there is a newest one, so what is shown is determined |
| CanonicalForm.SameMeaningSameForm | src/platform/services/order_intent.py:54-60 | equal nested values have equal canonical forms, lists included |
| CanonicalForm.CanonicalFormDecidesEquality | src/platform/services/order_intent.py:54-60 | for all values, equal canonical forms mean equality as nested maps, whatever the insertion order of keys, once every list of pairs in key order is taken for the dictionary it spells; on values without such lists, plain equality |
| CanonicalForm.ListsPassForDictionariesExactly | src/platform/services/order_intent.py:57-59 | a list has the canonical form of some dictionary if and only if it is a list of text-keyed pairs in key order, the empty list included |
| OrderIntents.BuiltIsNormal | src/platform/domain/order_intent.py:114-223 | building an intent from what the constructor returns changes nothing |
| OrderIntents.TransitionMeaning | src/platform/domain/order_intent.py:235-274 | a transition succeeds exactly from STAGED to a terminal state with a reason that is empty or not blank, changes state and reason only (an empty trailing stop becomes None), and can never be followed by another |
| OrderIntents.FromRowIsNormal | src/platform/domain/order_intent.py:313-348 | every intent read from a dictionary is in normal form |
| OrderIntents.RowRoundTrip | src/platform/domain/order_intent.py:276-348 | writing an intent as a dictionary and reading it back restores it, an empty trailing stop reading back as None |
| OrderIntents.RowColumns | src/platform/domain/order_intent.py:276-311 | each identifier, price and time of an intent is written under its own column, and the state by its name |
| OrderIntents.RowLineage | src/platform/domain/order_intent.py:276-311 | so is each optional text and each publication, signal and decision id |
| OrderIntentRepository.Repository.LoadFromStorage | src/platform/adapters/order_intent_repository.py:84-149 | the loading loop gives the specified maps and ambiguity set for any file |
| OrderIntentRepository.Repository.SaveOrderIntent | src/platform/adapters/order_intent_repository.py:179-201 | a save is refused exactly under an ambiguous or taken identity; otherwise it updates the maps and writes the file, and a failed write leaves the maps changed |
| OrderListing.ListedMeaning | src/platform/adapters/order_intent_repository.py:246-269 | a repository's listing is the first intents, up to the limit, of the newest-first order of exactly those that pass the filters, equal times staying in insertion order |
| OrderLoading.LoadedAt | src/platform/adapters/order_intent_repository.py:102-126 | after loading any rows an identity is mapped iff a row answers for it and ambiguous iff rows of two ids do |
| OrderLoading.LookupOfLoaded | src/platform/adapters/order_intent_repository.py:224-244 | for any file a publication lookup answers iff all rows with the identity are of one id, and then with the last row of that id; a contested identity is refused to every save, and no save lifts that |
| OrderLoading.DistinctFileLookup | src/platform/adapters/order_intent_repository.py:224-244 | for a file of distinct ids the lookup gives the one intent with the identity, and None for zero or several |
| OrderLoading.RepeatedIdMisleads | src/platform/adapters/order_intent_repository.py:106-118 | two rows of one id: the earlier row's publication leads to the later row |
| OrderLoading.FlushLoadRestores | src/platform/adapters/order_intent_repository.py:84-177 | writing a coherent repository and loading it restores intents, publication map and the absence of ambiguity, and the key map when that was exact |
| OrderShelf.SaveKeepsCoherent | src/platform/adapters/order_intent_repository.py:179-201 | a save keeps the publication map exactly the intents' own identities |
| OrderShelf.SaveKeepsKeyed | src/platform/adapters/order_intent_repository.py:189-191 | a save under a key of its own keeps the key map exactly the intents' own keys |
| OrderShelf.CoherentLookup | src/platform/adapters/order_intent_repository.py:224-244 | then at most one intent answers for a publication and the lookup finds it |
| OrderIntentService.Service.constructor | src/platform/services/order_intent.py:33-52 | a new service has empty maps, whatever its repository holds |
| OrderIntentService.Service.CreateCanonicalOrderIntent | src/platform/services/order_intent.py:97-378 | reply, both service maps, the repository and its file after a canonical creation, for every refusal, the replay and conflict branches, and a write that fails |
| OrderIntentService.Service.CreateOrderIntent | src/platform/services/order_intent.py:380-591 | the same for an ordinary creation |
| OrderIntentService.Service.TransitionOrderIntentState | src/platform/services/order_intent.py:593-663 | the same for a transition; a refusal changes nothing |
| OrderIntentService.Service.GetOrderIntent | src/platform/services/order_intent.py:722-754 | the intent with the stripped id, hidden from users who neither own it nor administer |
| OrderListing.ListForMeaning | src/platform/services/order_intent.py:756-812 | a user is listed intents newest first, his own unless he administers, of the symbol and in the state asked for, and all of them, or the first hundred with a repository |
| OrderIntentService.Service.ScanFor | src/platform/services/order_intent.py:265-271 | the scan of memory gives the first intent of the user for the publication |
| OrderBook.ReplayRecognises | src/platform/services/order_intent.py:62-95 | through any transition and reload an intent compares equal to the record it was made from if and only if the record's texts are trimmed and its trailing stop is not an empty dictionary |
| OrderBook.RecordsCompare | src/platform/services/order_intent.py:62-95 | two records compare equal iff they agree on every authoritative field, trailing stops as nested maps in which a list of pairs in key order counts as the dictionary it spells |
| OrderRuns.StepAllowed | src/platform/services/order_intent.py:97-663 | a lawful call returns a stored intent or a refusal and changes nothing, or adds one new STAGED intent of the caller's, or moves one STAGED intent the caller may move, to the very state and for the very reason he asked for; a canonical replay returns the caller's own intent for the publication, an ordinary one what the lookup of his key finds; it never raises |
| OrderRuns.RunKeepsSound | src/platform/services/order_intent.py:235-304 | in every run, restarts included, no user has two intents for one publication and the repository's publication map is exact |
| OrderHistories.MovesAreConserved | src/platform/services/order_intent.py:616-663 | over any run, the transitions of an intent plus those it has left are constant: it is STAGED until its one transition, and state, reason and all other fields last |
| OrderHistories.RunKeepsKeys | src/platform/services/order_intent.py:306-356 | in every run without a restart a user and a key identify one intent, the key map is the inverse of the intents' own keys, and memory and repository agree |
| OrderHistories.KeyIdentifiesIntent | src/platform/services/order_intent.py:306-313 | two intents of one user with one key are the same intent |
| OrderReplay.CanonicalIntentCarriesTheRecord | src/platform/services/order_intent.py:161-348 | a canonical intent carries the record's prices, quantity, time, ten lineage texts and trailing stop, each from its own field and unchanged but for stripping and case, and no authorization |
| OrderMeaning.OrderIntentCarriesTheOrder | src/platform/services/order_intent.py:380-591 | an ordinary intent carries its setup's price, stop loss and three targets, its order's quantity, type, time in force and time, the chosen symbol, the setup's direction and the authorization's id, and no publication |
| OrderMeaning.CreateStagesExactly | src/platform/services/order_intent.py:380-591 | an ordinary creation stages an intent exactly when its order can be placed under its authorization and its key leads to no intent |
| OrderMeaning.CanonicalStagesExactly | src/platform/services/order_intent.py:97-378 | a canonical creation stages an intent exactly when an authorized user asks for a record with its whole lineage and trade, of which he has no intent yet, under a key that none of his intents has |
| OrderMeaning.TransitionExactly | src/platform/services/order_intent.py:593-663 | a transition moves an intent exactly when an authorized caller who may see it asks for a terminal state of a STAGED intent with no reason or one that is not blank, and moves it as asked |
| OrderMeaning.GetExactly | src/platform/services/order_intent.py:722-754 | a user is given an intent by its id exactly when it is stored and his own, or he administers |
| OrderMeaning.RefusalMeaning | src/platform/services/order_intent.py:97-663 | every refusal gives the reason there is |
| OrderReplay.ReplayAfterRun | src/platform/services/order_intent.py:235-304 | after any run, asking again for a publication gives the same intent or an integrity conflict, by the twenty fields alone, and creates nothing |
| OrderReplay.SameContentReplays | src/platform/services/order_intent.py:235-304 | a record of the same content gets the intent back, in any later state, if and only if the record it was made from is steady; otherwise it is taken for a conflict |
| OrderReplay.UnchangedRecordReplays | src/platform/services/order_intent.py:235-304 | an unchanged record gets its intent back, in any later state, if and only if it is steady; otherwise it is taken for a conflict |
| OrderReplay.ChangedRecordConflicts | src/platform/services/order_intent.py:249-304 | once a steady record has its intent, a record of the publication gets it iff it agrees on every authoritative field, and a conflict otherwise |
| OrderDurability.RunKeepsSite | src/platform/adapters/order_intent_repository.py:152-201 | in every run in which writes may fail and the service restart, no user has two intents for one publication in the repository or in its file, and the repository has all that the file holds |
| OrderDurability.AcknowledgedLasts | src/platform/adapters/order_intent_repository.py:152-201 | a creation or transition that was acknowledged lasts through every later failed write and restart: the intent is there, and a terminal state is never taken back |
| OrderDurability.AcknowledgedReplays | src/platform/services/order_intent.py:235-304 | and asking again for its publication gives that intent or, by the twenty fields alone, a conflict, and changes nothing |
| OrderDurability.UnwrittenCreationSurvivesExactly | src/platform/adapters/order_intent_repository.py:184-201 | a creation whose write fails raises, yet its intent stands in the repository, and is there after a restart if and only if a later call before the restart was acknowledged |
| OrderReplay.ReachableShelfReloads | src/platform/adapters/order_intent_repository.py:84-244 | in every reachable state the file loads back to the same intents and publication lookups, with nothing ambiguous |
| OrderIsolation.TextKeyLookup | src/platform/adapters/order_intent_repository.py:214-222 | in a repository-backed service a lookup by key finds an intent if and only if some user's intent has that text key, and then an intent with that text key |
| OrderIsolation.KeysCanMeet | src/platform/adapters/order_intent_repository.py:189-191 | keys of two users can be the same text if and only if one name followed by a colon begins the other, and nothing or no space follows the colon |
| OrderIsolation.RunKeepsKeyable | src/platform/adapters/order_intent_repository.py:84-201 | in every run, restarts included, the repository's key map holds exactly its intents' text keys, each leading to an intent of that key |
| OrderIsolation.KeyLookupIsExact | src/platform/services/order_intent.py:430-439 | while memory and repository agree, users whose keys cannot meet find by a key exactly their own intent with that key |
| OrderIsolation.IsolatedExactlyWhenApart | src/platform/services/order_intent.py:430-439 | in every run by a set of users, restarts included, every reply to a user who is not an administrator carries an intent of his own, if and only if no two of these users' keys can meet |
| OrderIsolation.MeetingKeysLeak | src/platform/services/order_intent.py:430-439 | for any two users whose keys can meet, a run of two creations in which one is answered with the other's intent |
| OrderRestarts.RestartRepeatsExactlyTakenKeys | src/platform/services/order_intent.py:306-313 | after a restart one further call leaves a user with two intents of one key if and only if it is an acceptable canonical creation that was refused before the restart because its key is bound to another publication |
| OrderRestarts.RestartForgetsKeys | src/platform/services/order_intent.py:306-313 | such a creation goes through after the restart, beside the intent that holds the key |
| PublicationToOrder.StoredRecordBecomesIntent | src/platform/services/order_intent.py:161-348 | the intent made of a stored record carries that record's prices, quantity and lineage, each from its own field |
| PublicationToOrder.PublicationIsRecognised | src/platform/services/project1_gateway.py:52-85 | once a publication has become an intent, then after any ingests, lifecycle updates, creations, transitions and restarts, asking for it again changes nothing and gives that intent, or an integrity conflict, if and only if the record was not steady, whatever order the trailing stop's keys come in |
| ValidatedPublications.ValidatedIsSteady | src/platform/domain/project1_contract.py:832-911 | a record that carries what the validator made of a payload is steady, if sanitising leaves its texts alone |
| ValidatedPublications.ValidatedPublicationReplays | src/platform/services/project1_gateway.py:52-85 | so a publication that came through the contract boundary and became an intent is recognised ever after: asking again, in any run of the store and the service, gives that intent and never an integrity conflict |
| PublicationToOrder.FoundExactlyWhenStored | src/platform/adapters/project1_repository.py:838-856 | over prefix-free tenants a user who is not an administrator is shown a publication if and only if he has a record of it, and then that record |
| PublicationToOrder.PublicationStaysFound | src/platform/services/project1_gateway.py:72-85 | and it stays shown, unchanged but for its lifecycle fields, in every run |
| ExecutionBoundary.CommandMeaning | src/platform/domain/execution_gateway.py:129-164 | a command is made exactly from a STAGED intent with an authorization at a time that is not negative, and carries the intent's own terms unchanged |
| ExecutionGatewayService.Gateway.RequestExecution | src/platform/services/execution_gateway.py:71-254 | reply, cache, attempt log and calls of the port after a request, for every rejection, the cached answer and the exception boundary |
| ExecutionGatewayService.Gateway.GetExecutionAttempts | src/platform/services/execution_gateway.py:317-350 | the attempts logged under the stripped id, for a reader of the intent |
| ExecutionGatewayService.Gateway.ReconcileExecution | src/platform/services/execution_gateway.py:368-482 | not configured, no external evidence, matched or discrepant, each exactly by the evidence and the intent's state, recorded under the stripped id; a refusal records nothing |
| ExecutionGatewayService.Gateway.GetExecutionMonitoringSummary | src/platform/services/execution_gateway.py:542-588 | the number of monitored intents, their attempts, and how many have each reconciliation status; nothing for an unauthenticated caller |
| ExecutionGatewayService.CountsAddUp | src/platform/services/execution_gateway.py:571-588 | the counts by status add up to the monitored intents |
| ExecutionGatewayService.AttemptsAreShown | src/platform/services/execution_gateway.py:252-254 | all attempts on an intent are shown if and only if none was asked for with spaces around the id |
| ExecutionRuns.ExecuteMeaning | src/platform/services/execution_gateway.py:71-254 | a request is refused and changes nothing, or is answered from the cache and changes nothing, or makes one call for a STAGED intent the requester may see, with that intent's own terms; reply, cache and log then get what the port answered, or after an exception a failure in which nothing was executed |
| ExecutionRuns.RefusedMeaning | src/platform/services/execution_gateway.py:71-213 | a request that may not reach the port is never a success nor executed, has the status of its refusal, and changes nothing |
| ExecutionRuns.ExecutedMeaning | src/platform/services/execution_gateway.py:215-254 | and one that may is answered from the cache, or by the one call it makes |
| ExecutionRuns.RunHears | src/platform/services/execution_gateway.py:215-254 | in every run each call made keeps the answer the port gave to a request of its requester for that id |
| ExecutionRuns.RunKeepsAccounted | src/platform/services/execution_gateway.py:215-254 | in every run the port is called at most once per requester and key, and calls, cache and logged attempts agree in number and content |
| ExecutionRuns.RunKeepsOwnCalls | src/platform/services/execution_gateway.py:160-254 | every call for a requester who is not an administrator was made for an intent of his own that still stands |
| ExecutionRuns.CachedAnswerIsForTheIntent | src/platform/services/execution_gateway.py:215-233 | a cached answer for such a requester is the result of a call for the very intent he asks about |
| ExecutionRuns.AnswersAreForTheIntent | src/platform/services/execution_gateway.py:160-254 | from a fresh start, after any run without a restart, he gets what the port answered at the one call made for that intent and key, now or to an earlier request of the run |
| Project1Validation.ValidatePayload | src/platform/domain/project1_contract.py:594-937 | the validator gives the specified verdict: every error in order, or the canonical record, or the exception of an unchecked ratio |
| Project1Validation.CollectErrors | src/platform/domain/project1_contract.py:620-828 | the errors are those of the specified checks, in the order of the code |
| Project1Acceptance.AcceptedExactly | src/platform/domain/project1_contract.py:594-828 | a payload is accepted exactly under conditions on its words, ids, times, prices, scores and objects that are written out one by one |
| Project1Sources.FlatPayloadIsKept | src/platform/domain/project1_contract.py:640-937 | the record of an accepted flat payload has its prices, scores, quantity and time in their own fields, its texts stripped and cased, its ids and its trailing stop |
| Project1Sources.PayloadIsKept | src/platform/domain/project1_contract.py:640-937 | the record of any accepted payload, nested or flat, has in each field what its section holds under that key, and the payload's own value where the sections are silent |
| Project1Objects.ObjectsAreKept | src/platform/domain/project1_contract.py:244-937 | its multi-timeframe object is kept entry by entry and signal by signal, and its metadata is its own overlaid with its provenance and completed from the payload |
| Project1Objects.FramesExactly | src/platform/domain/project1_contract.py:82-294 | exactly which multi-timeframe objects and signals are accepted, word by word |
| Project1Objects.DecisionIsSpelled | src/platform/domain/project1_contract.py:691-709 | the record of an accepted signal has its decision in lower case with spaces and underscores made hyphens, and it is one of the five |
| Project1NormalForm.AcceptedBounds | src/platform/domain/project1_contract.py:712-796 | an accepted payload's record has positive prices, scores between 0 and 1, and a time between 0 and five seconds from now |
| Project1NormalForm.CanonicalIsNormalForm | src/platform/domain/project1_contract.py:594-937 | validating the record again with the same clock gives that very record, if and only if it names its event, symbol and an allowed decision and has no empty optional text |
| Project1NormalForm.EmitPayloadNormalises | src/platform/domain/project1_contract.py:594-937 | for an accepted emit payload that is: if and only if the payload names its event and leaves no optional text blank |
| Project1Nested.NestedValidatesToFlat | src/platform/domain/project1_contract.py:640-937 | a nested payload that carries the values of a canonical record, each under its key in its section, validates to exactly that record |
| Project1NormalForm.MtfTwice | src/platform/domain/project1_contract.py:163-294 | a validated MTF object is valid and comes out as it is |
| AuditControl.Service.constructor | src/platform/services/audit_control.py:28-74 | a new log holds the two seed events, and its bound is at least 100 |
| AuditControl.Service.RecordEvent | src/platform/services/audit_control.py:76-126 | the log stays the last entries, up to its bound, of everything ever recorded, and all but the two seed events are safe: sensitive keys redacted at every depth, protected keys gone, texts filtered |
| AuditControl.Service.RecordFailure | src/platform/services/audit_control.py:128-178 | the failures stay the last 500 ever recorded, and an event of the failure is recorded too, with its metadata |
| AuditControl.RecordedMeaning | src/platform/services/audit_control.py:92-120 | an event carries what it was recorded with, each in its own place: owner stripped, type in upper case, texts sanitised, stand-ins for empty ones |
| AuditControl.IncidentMeaning | src/platform/services/audit_control.py:128-178 | and so do a failure and its event |
| AuditControl.SelectedExactly | src/platform/services/audit_control.py:206-269 | a query selects exactly the events the reader may see and asks for, by owner, category, state, severity, outcome, correlation and times |
| AuditControl.RecordedIsSafe | src/platform/services/audit_control.py:92-104 | what is recorded keeps no protected key, no value under a sensitive key at any depth, and no unfiltered text |
| Sanitizer.SanitizedIsScrubbed | src/platform/services/security.py:54-72 | after sanitising, whatever stands under a sensitive key at any depth is redacted and every other text has been filtered |
| Sanitizer.SensitiveWords | src/platform/services/security.py:23-40 | a key is sensitive exactly when one of the listed words occurs in it, in any case |
| Sanitizer.ScrubbedIsFixed | src/platform/services/security.py:54-72 | sanitising leaves such a value as it is, if the text filter leaves its own results alone |
| AuditControl.RecordingKeepsLast | src/platform/services/audit_control.py:122-124 | appending and dropping the oldest yields the last n of seed and recordings |
| AuditControl.Service.QueryEvents | src/platform/services/audit_control.py:206-269 | the query's loop, sort and limit give the specified events |
| AuditControl.QueryMeaning | src/platform/services/audit_control.py:206-269 | a query is a length-limited prefix of the stable newest-first order of the selected events, and shows a user who is not an administrator his own and the system's events only |
| AuditControl.UserFilterMeaning | src/platform/services/audit_control.py:230-236 | filtering by oneself keeps the system's events for a user who is not an administrator; an administrator's filter is exact |
| AuditControl.Service.GetControlSummary | src/platform/services/audit_control.py:271-313 | the summary's figures are those of the queried events, latest time included |
| AuditControl.SummaryAddsUp | src/platform/services/audit_control.py:289-296 | the counts by category, by severity and by lifecycle state each add up to the total |
| Keys.KeyInjective | src/platform/adapters/project1_repository.py:267-268 | keys of prefix-free owners determine owner and id |
| Keys.KeysMeet | src/platform/adapters/project1_repository.py:267-268 | owners that are not prefix-free have keys that meet |
| Text.StripCutsSpaces | src/platform/domain/order_intent.py:115-117 | stripping cuts the spaces from both ends and nothing else |
| Text.TrimmedEnds | src/platform/domain/order_intent.py:115-117 | a text is unchanged by stripping iff neither end is a space |

## Left out

- The file system, `fcntl`, `fsync`, JSON text and modification times: the file is a value, a call's lock scope is one step, and a write has the outcomes named above.
- Deletion of the file by others, and the audit callbacks of the repositories.
- The HTTP server, web pages, configuration, SMTP, Telegram, AI provider and market data plumbing: no state of the kind modelled here.
- SecurityBoundaryService and the notification service: authorisation is a boolean input, notifications are dropped.
- The pattern by which SecretSanitizer filters a text: any function on texts; the walk over nested values and the sensitive keys are modelled.
- `datetime.fromisoformat`: any function from texts to instants; its result is checked against the clock as the code does.
- Unicode: stripping and case conversion are those of ASCII text.
- get_record_by_id on the Project 1 repository, and the read-only getters of the services that only look up: easy members.
- Records whose identities or owner are not texts, and tenantless records: the index and the tenant filter of the code disagree on them; the runs are those of the gateway, which writes neither.
- save_record in the statements about whole runs: it replaces the record with its integration id when no identity matches, so runs with it are not append-only; its refusals, rollback and latches are modelled.
- Several services on one order intent file.
- FetchLatestSignal: the choice of the record is modelled, not its projection into a PresentedSignal.
- MtfAllowed: a JSON number with an integral value counts as an integer; Python also tells `1.0` from `1`.
- PublicationOf: a record's direction field, which validated records do not have, reads as absent.
- CreateCanonical: record fields have their expected types; a value of another type in a lineage field reads as absent, and a price or quantity of another type, which the code refuses or raises on, is not represented.
- Execute: the texts and timestamps of results are not represented.
- IsolatedExactlyWhenApart: runs in which the repository's writes succeed; failing writes are followed in OrderDurability, for publications.
- RunKeepsKeys: runs without a restart, because a restart does lift the check (RestartRepeatsExactlyTakenKeys).
- AnswersAreForTheIntent: requesters who are not administrators, because an administrator's cache is keyed by himself while the keys are those of the owners.
- RecordEvent: the two seed events, whose texts are constants, are not shown to be free of sensitive words.
- query_failures, get_reconciliation_record and get_boundary_status: read-only variants of what is modelled.
- Workspaces, watchlists, screeners, notification inboxes, backtests, trade setups and account states: easy members or single-branch facts.
