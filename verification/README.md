# Safeguard audit layer: a verified model

This project models the core of the Safeguard audit layer and proves what it is built for: an
append-only audit history that survives crashes, cannot be rewritten unnoticed, keeps case state
and audit trail in step, discloses exactly what the authorizer would allow, and identifies
everything deterministically.

| component | modules | main results |
|---|---|---|
| Crash-safe ingestion | `EventStore`, `Indexer`, `Ingestion`, `Replay`, `EventOrdering` | every run, with any page cuts, policies, crashes and other writers, refines one first-occurrence-wins fold; the checkpoint is safe; drained runs and replays agree |
| Queries | `PositionKeys`, `Keyset`, `Paging` | cursor paging yields the plain filter, and survives writes between pages |
| Tamper evidence | `Hashing`, `Chain`, `Verification` | a chain verifies exactly when it is its own sealing; the last digest pins the whole history; tampering is located |
| Evidence packages | `Sorting`, `Evidence`, `EvidenceVerification` | what is built verifies, whatever order the ids came in; acceptance pins bodies, entries and artifact |
| Case workflow | `Cases`, `CaseService`, `CaseHistory` | conservation of the trail over all runs; losses bounded by crashes; closing is final |
| Civil time | `Calendar`, `Rfc3339` | a bijection with the Gregorian calendar on all instants; rendering round-trips and sorts as time does |
| Identity | `Identity`, `DerivedEvents` | the part lists behind event ids are unambiguous |
| Disclosure | `Scopes`, `Disclosure`, `TrailDisclosure` | a key is shown exactly when the authorizer covers it; withheld values do not leak; who sees what of a lifecycle record |
| Error codes | `Catalog`, `CodeAllocation`, `CodeCounts` | surviving codes kept, each new code the least free one of its block, codes distinct without clashes, exactly which numbers are issued, rebuilding changes nothing |

Stateful components (the event store, the checkpoint store, the case store, a case being worked
on) are classes whose methods are specified by functions on values; loops (item intake, batch
checks, replay, sealing and verifying chains, building manifests, the disclosure ceiling, code
allocation) are methods with invariants proved equal to a specification; the theorems are lemmas
about those specifications and about whole runs of them.

## Where the code does less than its documentation

The model follows the code. Each difference is a theorem.

- The page order check ignores the transaction position, so two transactions of one ledger can be
  refused although they are in hierarchy order (`EventOrdering.HierarchyOrderIsNotEnough`;
  accepted exactly when `EventOrdering.HierarchyOrderAcceptedIff` says).
- The order check comes before deduplication, so a page that repeats a placed item is refused and the
  in-page guard never absorbs one (`Indexer.RepeatedPlacementNeverCommits`).
- Under `FailOnDuplicate` the batch is committed before the error is returned. A stored item at or
  past the checkpoint, such as a crash between write and checkpoint leaves, then stops the source for
  as long as that policy is kept, although later calls with larger pages may still write
  (`Ingestion.CrashLeavesStored`, `Ingestion.FailOnDuplicateStalls`; a planned page is accepted
  exactly when `Ingestion.PageAcceptedIff` says).
- An insert checks only the event id. If another event's record already holds the record id, the maps
  fall out of step for good; over any history they are in step exactly when no record took an id in
  use (`EventStore.InsertCoherentIff`, `EventStore.HistoryIsPermanent`; one input is
  `EventStore.TakenIdMisleadsLookup`). For the same reason an
  evidence package can fail to verify on the store its own build left: exactly when the generation
  record takes a source record's id (`EvidenceVerification.BuiltPackageVerifiesIff`).
- History is documented as append-only, yet a record with another's whole position, id included,
  replaces it: exactly then is a stored record lost (`EventStore.InsertKeepsRecordsIff`,
  `EventStore.RecordsKeptIff`), and a reader who was promised it is never served it
  (`Paging.ReplacedRecordIsMissed`).
- Cursors are documented as always encodable, yet the constructor's limit of 128 characters makes
  encoding panic for longer record ids, which the id parser accepts
  (`PositionKeys.CursorIsAccepted`, `PositionKeys.LongIdPanics`).
- Record verification and the evidence builder recompute the standalone digest even for chained
  records, so of a genuine chain only the opening record passes
  (`Verification.ChainedRecordStandaloneIff`, `EvidenceVerification.ChainedSourceAcceptedIff`).
- Package verification does not cover the manifest's identity, link, versions, network, time or
  ledger range (`EvidenceVerification.UncoveredManifestFields`), nor that artifact and manifest belong
  together (`EvidenceVerification.SplicedPackageAccepted`).
- Reopening a closed case is promised to administrators and fails validation in every reachable state
  (`CaseHistory.ReopenAlwaysFails`, `Cases.MoveKeepsValidIff`).
- Linking a record under an auditor-action kind is accepted like any other link and freezes the case:
  it keeps the entry and its status for good (`CaseHistory.LinkIgnoresKind`,
  `CaseHistory.ForgedIsFrozen`). A case is valid exactly when no accepted operation did this to it
  (`CaseHistory.CaseInvariant`).
- A retired error code can be issued again; exactly which numbers are issued is
  `CodeCounts.GivenOutIff` (`CodeCounts.RetiredCodeReissued`).
- On 64-bit time, range containment is stricter than set inclusion for a grant bounded by the
  first or last representable instant (`Scopes.RangeContainsOn64BitsIff`).
- Without the hooks hash check, on-chain and derived identities can share a part list, exactly when
  the transaction text starts with the derivation tag (`Identity.UncheckedHashOverlaps`,
  `Identity.OverlapIff`).

## Model

| member | source | states |
|---|---|---|
| `EventStore.MemoryEventStore.Commit` | crates/memory-store/src/store.rs:51-55 | one insertion writes all three maps |
| `EventStore.MemoryEventStore.Insert` | crates/memory-store/src/store.rs:44-56 | an invalid record is refused, a known event is a duplicate, otherwise the record is added; the whole new store is given |
| `EventStore.MemoryEventStore.PickFresh` | crates/memory-store/src/store.rs:58-73 | phase one selects exactly the records whose events the store lacks, and refuses the batch if any record is invalid |
| `EventStore.MemoryEventStore.InsertBatch` | crates/memory-store/src/store.rs:58-87 | a rejected batch changes nothing, an accepted one adds its fresh records together; counts add up to the batch |
| `EventStore.NewWriteBatch` | crates/storage/src/transaction.rs:20-39 | a batch is accepted exactly when all records are valid and event ids and record ids are pairwise distinct |
| `EventStore.InsertCoherentIff` | crates/memory-store/src/store.rs:44-56 | an insert keeps the three maps in agreement exactly when the record id is not taken; otherwise an event is displaced |
| `EventStore.InsertStaysBroken` | crates/memory-store/src/store.rs:44-56 | no later insert repairs a displaced event |
| `EventStore.TakenIdMisleadsLookup` | crates/memory-store/src/store.rs:44-56 | two records under one id, both accepted, after which the lookup of one event answers with the other |
| `EventStore.LookupsAgree` | crates/memory-store/src/store.rs:89-105 | in a coherent store, being stored, being found by record id and being found by event id are the same |
| `EventStore.GrowthKeepsLookups` | crates/memory-store/src/store.rs:89-105 | what a lookup once returned it returns in every later store |
| `EventStore.InsertAllKeepsHistory` | crates/memory-store/src/store.rs:44-56 | over any sequence of inserts the maps agree exactly when no record took an id in use, and then nothing stored changed and records and event index grew alike |
| `EventStore.DerivedIdsAreAvailable` | crates/memory-store/src/store.rs:44-56 | record ids that stand for events are always available |
| `EventStore.BatchIsSequential` | crates/memory-store/src/store.rs:58-87 | a batch with distinct events leaves the store that inserting its records one by one leaves, and the event index grows by the fresh ones |
| `EventStore.HistoryIsPermanent` | crates/memory-store/src/store.rs:44-87 | over every history of inserts and batches from any coherent store, the maps agree at the end exactly when no record took an id in use; they then agreed at every moment and nothing held at any moment was changed or lost |
| `EventStore.InsertKeepsRecordsIff` | crates/memory-store/src/store.rs:51-54 | an insert leaves every stored record in place exactly when it replaces none at its own position |
| `EventStore.RecordsKeptIff` | crates/memory-store/src/store.rs:44-87 | over any inserts from any store, no record is ever replaced exactly when each insert found its position free |
| `EventStore.HistoryIsSound` | crates/audit-core/src/record.rs:142-172 | whatever is written, every record of a history that began empty has a supported schema, references on one network, a derivation if derived, and correction links exactly if it is a correction |
| `PositionKeys.BeforeTransitive` | crates/storage/src/pagination.rs:39-62 | the position order is transitive |
| `PositionKeys.BeforeTrichotomy` | crates/storage/src/pagination.rs:39-62 | exactly one of before, equal, after holds |
| `PositionKeys.BeforeIsEarlier` | crates/storage/src/pagination.rs:54-75 | the position order on records: known ledgers before unknown and lower before higher, then so by operation and event, then by time of recording, then by record id |
| `PositionKeys.CursorRoundTrip` | crates/storage/src/pagination.rs:81-133 | parsing the cursor of a key gives the key back, absent fields included |
| `PositionKeys.CursorIsAccepted` | crates/storage/src/pagination.rs:81-93 | encoding panics exactly when the cursor text exceeds 128 characters: never for record ids up to 64 characters, always beyond 120 |
| `PositionKeys.LongIdPanics` | crates/storage/src/pagination.rs:92-92 | a record id the parser accepts and whose cursor panics |
| `Keyset.MatchedIsTheFilter` | crates/memory-store/src/store.rs:117-130 | the collected list is exactly the matching records, each once, in the order of iteration |
| `Keyset.PageIsContiguous` | crates/memory-store/src/store.rs:133-162 | a page holds exactly the records past the boundary up to its own last one |
| `Keyset.SessionServes` | crates/memory-store/src/store.rs:133-162 | whatever happens to the list between requests, what is served rises strictly past the boundary, and a row that is there at every request is served |
| `Keyset.PagesAreRows` | crates/memory-store/src/store.rs:133-162 | each page holds rows of the list it was cut from |
| `Keyset.SessionExists` | crates/memory-store/src/store.rs:133-162 | over one list the reading ends within one page more than the records left, and yields exactly those |
| `Paging.ResultsAreTheMatches` | crates/memory-store/src/store.rs:117-130 | for either direction the result list is the matching records in strict history order |
| `Paging.PagingYieldsTheFilter` | crates/memory-store/src/store.rs:111-163 | for any query, direction and page size, following `next_cursor` ends and concatenates to the plain filtered list |
| `Paging.ReadingServes` | crates/memory-store/src/store.rs:111-163 | whatever happens to the store between requests, nothing is served twice, records come in history order, each page holds matches of the store it was read from, and a record that matches at every request is served |
| `Paging.ServedInHistoryOrder` | crates/memory-store/src/store.rs:117-130 | of any two records a reading serves, the earlier served is earlier by ledger, then operation, then event, then time of recording, then record id, and the reverse when descending |
| `Paging.PageIsFull` | crates/memory-store/src/store.rs:151-161 | a page holds at most as many records as asked for, and exactly as many when it promises more |
| `Paging.QueryRefusedIff` | crates/memory-store/src/store.rs:133-138 | a request is refused exactly when it carries a cursor that does not decode |
| `Paging.ReadingSurvivesInserts` | crates/memory-store/src/store.rs:111-163 | while the store only gains records, every match present at the start is served and everything served matches at the end |
| `Paging.ReadingSurvivesWrites` | crates/memory-store/src/store.rs:58-163 | during any history of inserts and batches nothing is served twice and order is kept; when no write replaces a record at its position, every match present at the start is served and everything served matches at the end |
| `Paging.ReplacedRecordIsMissed` | crates/memory-store/src/store.rs:51-54 | one insert after which a record that matched when the reading began is never served |
| `EventOrdering.CompareOrderTransitive` | crates/event-indexer/src/ordering.rs:26-45 | the placement order is transitive |
| `EventOrdering.AdjacentDecidesPairs` | crates/event-indexer/src/ordering.rs:49-53 | the neighbour check holds exactly when every pair is in order |
| `EventOrdering.RepeatedPlacementRefused` | crates/event-indexer/src/ordering.rs:49-53 | a list that repeats a placement anywhere fails the check |
| `EventOrdering.HierarchyOrderIsNotEnough` | crates/event-indexer/src/ordering.rs:26-30 | two transactions of one ledger in hierarchy order that the check refuses |
| `EventOrdering.HierarchyOrderAcceptedIff` | crates/event-indexer/src/ordering.rs:26-53 | a page in hierarchy order passes exactly when no transaction follows another of its ledger without also increasing in operation and event |
| `EventOrdering.OneTransactionPerLedgerAccepted` | crates/event-indexer/src/ordering.rs:49-53 | a page in hierarchy order with one transaction per ledger passes, all pairs in order |
| `Indexer.NormalizeItems` | crates/event-indexer/src/indexer.rs:146-181 | the item loop, with its guard set, computes the specified intake or the first error |
| `Indexer.PlanPage` | crates/event-indexer/src/indexer.rs:146-195 | normalization, order check and batch check, in this order, decide the plan before anything durable is touched |
| `Indexer.WriteRecords` | crates/event-indexer/src/indexer.rs:193-198 | the planned records are written together and the number of fresh ones is returned |
| `Indexer.RunOnce` | crates/event-indexer/src/indexer.rs:117-216 | one call leaves store and checkpoint exactly as the specified page run, on every error path too, and touches no other source's checkpoint |
| `Indexer.CheckpointStore.Save` | crates/event-indexer/src/checkpoint.rs:113-128 | saving sets one source's position and no other |
| `Indexer.IntakeCounts` | crates/event-indexer/src/indexer.rs:151-181 | every item is a record, a repeat or quarantined; the placements are exactly those of the items with a known ledger, in page order, and the rest is counted unverified; quarantine lists exactly the malformed positions |
| `Indexer.ReportSays` | crates/event-indexer/src/indexer.rs:137-181 | a report gives the size of the page, exactly the malformed positions, the number of items without a known ledger, and whether more is to come |
| `Indexer.IntakeFailsIff` | crates/event-indexer/src/indexer.rs:151-181 | the item loop fails exactly at the first item that is malformed under the abort policy or is the first of a refused event, with that item's reason |
| `Indexer.PlannedPageIsOrdered` | crates/event-indexer/src/indexer.rs:183-189 | the placed items of a page that is not refused are in strict order of ledger, then operation, then event, known before unknown |
| `Indexer.RepeatedPlacementNeverCommits` | crates/event-indexer/src/indexer.rs:183-189 | a page with two items of one known placement, wherever they sit, is answered with an error and changes nothing, under every policy and on every store |
| `Indexer.IntakeDistinct` | crates/event-indexer/src/deduplication.rs:66-86 | the guard leaves pairwise distinct events |
| `Indexer.IntakeInserts` | crates/event-indexer/src/indexer.rs:151-181 | dropping in-page repeats changes nothing the store can see |
| `Indexer.PlanInserts` | crates/event-indexer/src/indexer.rs:146-198 | writing a planned page equals inserting the records of all its items one by one |
| `Ingestion.ExecuteStore` | crates/event-indexer/src/indexer.rs:146-205 | a call, crashed or not, either adds the page's records or leaves the store alone; other writers add theirs |
| `Ingestion.ExecuteCheckpoint` | crates/event-indexer/src/indexer.rs:199-213 | only a successful call moves the checkpoint; abort, order and duplicate errors and crashes never do |
| `Ingestion.IngestionRefinesFold` | crates/event-indexer/src/indexer.rs:117-216 | after every run with any page limits, policies, failures, crashes and other writers, from any store, the store is the first-occurrence-wins insertion of a log prefix at least as long as the checkpointed one, in log order, interleaved with what the others wrote |
| `Ingestion.IngestionAlone` | crates/event-indexer/src/indexer.rs:117-216 | without other writers the store is exactly the insertion of such a prefix |
| `Ingestion.DrainedRun` | crates/event-indexer/src/indexer.rs:117-216 | once the checkpoint reaches the end, and with no other writers, the store is the insertion of the whole log |
| `Ingestion.DrainedRunsAgree` | crates/event-indexer/src/indexer.rs:117-216 | two drained runs over one store end in the same store and checkpoint, whatever their page cuts and crashes |
| `Ingestion.StoredAreStamped` | crates/audit-core/src/record.rs:78-92 | after every run each stored record was there before, came from another writer, or holds some item's event under the id of that event, recorded at the pipeline's instant, confidential, without redactions, correction links or seal |
| `Ingestion.IngestedIsLookedUp` | crates/event-indexer/src/indexer.rs:117-216 | looking up the event of the first item that carries it, at or before the checkpoint and new to the store, returns its stamped record |
| `Ingestion.CheckpointIsSafe` | crates/event-indexer/src/indexer.rs:146-213 | in every reachable state under every policy, other writers included, each item at or before the checkpoint is stored or was named in a returned report |
| `Ingestion.CheckpointNeverRetreats` | crates/event-indexer/src/indexer.rs:207-213 | no step of any run moves the checkpoint backwards |
| `Ingestion.ReportConserves` | crates/event-indexer/src/indexer.rs:137-215 | on success fetched = inserted + duplicates + quarantined, the event index grows by inserted, and the known placements of the page's items are pairwise increasing |
| `Ingestion.ReportMeasuresHistory` | crates/event-indexer/src/indexer.rs:193-205 | a successful call keeps the store coherent exactly when no record takes an id in use; the history then grows by exactly inserted |
| `Ingestion.PageAcceptedIff` | crates/event-indexer/src/indexer.rs:193-213 | a planned page succeeds exactly when its checkpoint is well formed and, under `FailOnDuplicate`, none of its events is stored |
| `Ingestion.PageRefusedWith` | crates/event-indexer/src/indexer.rs:146-213 | what each refused call answers, in order of precedence, and what it leaves: nothing touched before the write, the page written and the checkpoint unmoved after it |
| `Ingestion.IdenticalRetryRefused` | crates/event-indexer/src/indexer.rs:196-204 | retrying the page a crash left without its checkpoint answers the duplicate error and changes nothing |
| `Ingestion.CrashLeavesStored` | crates/event-indexer/src/indexer.rs:193-213 | a crash past the write leaves the page's events stored and the checkpoint where it was |
| `Ingestion.FailOnDuplicateStalls` | crates/event-indexer/src/indexer.rs:196-204 | while `FailOnDuplicate` is kept, no later checkpoint passes a stored item at or past the checkpoint, whatever page limits, failures and crashes follow |
| `Ingestion.PlanWellFormed` | crates/event-indexer/src/indexer.rs:146-195 | every page of a well-formed log is planned without error |
| `Ingestion.CompletedCallsProgress` | crates/event-indexer/src/indexer.rs:117-216 | on a well-formed log with duplicates skipped, the checkpoint counts exactly the items served by completed calls |
| `Replay.ReplayPage` | crates/event-indexer/src/replay.rs:128-139 | one call extends the rebuilt window by its page or fails at a page boundary, advances whenever it promises more, counts each item once, grows the event index by its insertions, and succeeds on a well-formed log that is served |
| `Replay.ReplayInto` | crates/event-indexer/src/replay.rs:82-153 | terminates on every finite source whose promising pages are non-empty; rebuilds a window of the log; stays within both budgets, with every item counted once and the event index grown by the reported insertions; untruncated only when drained, truncated only when a budget ran out; refuses exactly bad arguments and succeeds on a well-formed log that is served |
| `Replay.DrainedReplayIsLiveIngestion` | crates/event-indexer/src/replay.rs:82-153 | a drained replay from the start equals the store of any drained live run over the same initial store and clock |
| `Hashing.HexLowerInjective` | crates/integrity/src/hashing.rs:28-36 | hex rendering loses nothing |
| `Hashing.HexReadsBack` | crates/integrity/src/hashing.rs:28-36 | each byte is rendered as its two hexadecimal digits, the high one first |
| `Hashing.HashDetermines` | crates/integrity/src/hashing.rs:39-46 | equal digests mean equal inputs, among inputs the hash does not collide on |
| `Chain.SealChain` | crates/integrity/src/chain.rs:50-65 | the sealing loop gives each record the digest of its predecessor chain and body, linked and flagged |
| `Chain.SealSays` | crates/integrity/src/chain.rs:34-65 | the first digest is the hash of the canonical body, each later one the hash of the previous digest's hex text and the body, and each block points at its predecessor |
| `Chain.VerifyChain` | crates/integrity/src/chain.rs:74-128 | the walking loop reports the first violation: flag, then link, then body |
| `Chain.VerifyIffSealOfItself` | crates/integrity/src/chain.rs:50-128 | a sequence verifies exactly when sealing it changes nothing; no assumption on the hash |
| `Chain.SealVerifies` | crates/integrity/src/chain.rs:50-65 | sealed chains verify and sealing is idempotent |
| `Chain.PrefixVerifies` | crates/integrity/src/chain.rs:74-128 | every prefix of a verified chain verifies |
| `Chain.StepInputDetermines` | crates/integrity/src/chain.rs:34-45 | an input splits into link and body in one way, because a hex link never starts with a brace |
| `Chain.LastDigestPinsHistory` | crates/integrity/src/chain.rs:34-128 | two accepted non-empty chains with equal final digests are equal, length and every record |
| `Verification.VerifyHistory` | crates/integrity/src/verification.rs:73-101 | the scan for a chained flag and the chosen verification give the specified outcomes |
| `Verification.VerifyRecordIff` | crates/integrity/src/verification.rs:23-65 | a record verifies exactly when its stored digest is the recomputed standalone one |
| `Verification.StandaloneSealVerifies` | crates/integrity/src/digest.rs:23-32 | standalone sealing makes a record verify, is idempotent, leaves the body alone and links it to nothing |
| `Verification.ChainIntactIff` | crates/integrity/src/tamper.rs:21-37 | a history with a chained record is intact exactly when it is its own sealing |
| `Verification.StandaloneIntactIff` | crates/integrity/src/tamper.rs:21-37 | a history without one is intact exactly when every stored digest recomputes |
| `Verification.StandaloneTamperingLocated` | crates/integrity/src/verification.rs:23-101 | in a history without chained records exactly those without a block, with a foreign algorithm or with a digest that is not the hash of their body are located, in order and once each, under their record id with their reason, the stored digest and the recomputed one |
| `Verification.MisplacedRecordLocated` | crates/integrity/src/chain.rs:74-128 | dropping, repeating or reordering is reported as a broken chain at the first misplaced record, which is all that is located |
| `Verification.DrawnVerifiesIffPrefix` | crates/integrity/src/chain.rs:74-128 | a sequence drawn from a genuine chain verifies exactly when it is a prefix |
| `Verification.EditedBodyLocated` | crates/integrity/src/tamper.rs:21-37 | edited bodies give one digest mismatch, at the first edited record |
| `Verification.ChainedRecordStandaloneIff` | crates/integrity/src/verification.rs:47-64 | of a genuine chain only the opening record passes standalone verification |
| `Sorting.SortSorts` | crates/evidence/src/builder.rs:129-129 | sorting by id yields a sorted permutation |
| `Sorting.SortForgetsOrder` | crates/evidence/src/builder.rs:127-129 | when ids tell records apart, the sorted list depends only on which records there are |
| `Evidence.BuildEntries` | crates/integrity/src/manifest.rs:84-100 | entries recompute each record's digest in order, and a repeated record id is refused |
| `Evidence.FetchRecords` | crates/evidence/src/builder.rs:117-124 | every named record in the order named, or the first missing id |
| `Evidence.RequireIntact` | crates/evidence/src/builder.rs:247-261 | the first record whose stored block does not match its body |
| `Evidence.LeastLedger` | crates/evidence/src/builder.rs:169-181 | the lower range bound is a ledger of some source record and none is lower |
| `Evidence.GreatestLedger` | crates/evidence/src/builder.rs:169-181 | the upper range bound is a ledger of some source record and none is higher |
| `Evidence.RangeSays` | crates/evidence/src/builder.rs:169-181 | the range is the least and the greatest ledger of the sources when all are placed, and open otherwise |
| `Evidence.ManifestPartsInjective` | crates/integrity/src/manifest.rs:105-120 | the parts of a manifest's identity determine its version, range, size and aggregate |
| `Evidence.BuildEvidence` | crates/evidence/src/builder.rs:110-216 | the package or the first error, and the store with the generation record or unchanged, as specified |
| `EvidenceVerification.VerifyManifestRecords` | crates/integrity/src/verification.rs:109-152 | one outcome per entry against the supplied records by id |
| `EvidenceVerification.VerifyEvidence` | crates/evidence/src/verify.rs:136-156 | structure, aggregate and record outcomes combine into the verdict |
| `EvidenceVerification.EntrySays` | crates/integrity/src/verification.rs:109-152 | each entry is reported missing, or with the recomputed digest and whether it is the certified one |
| `EvidenceVerification.StructureSays` | crates/evidence/src/verify.rs:107-132 | what the structure check refuses, and its verdicts on artifact digest and aggregate |
| `EvidenceVerification.AcceptedIff` | crates/evidence/src/verify.rs:107-156 | a package is accepted exactly when artifact digest and aggregate recompute and the store certifies every entry |
| `EvidenceVerification.BuildSucceedsIff` | crates/evidence/src/builder.rs:110-125 | a build succeeds exactly when it names at least one record and none twice, its actor is authorized, every id resolves, every stored block holds the hash of its record's body and the source label is acceptable; otherwise the store is untouched |
| `EvidenceVerification.BuildRefusedWith` | crates/evidence/src/builder.rs:115-125 | a refused build names the first that applies of: no sources, no authority, the first unresolved id, the first altered source, a repeated id, the source label |
| `EvidenceVerification.BuiltSourcesSay` | crates/evidence/src/builder.rs:127-131 | the sources of a package are exactly the named records in strictly rising order of their ids |
| `EvidenceVerification.PackageSays` | crates/evidence/src/builder.rs:130-197 | artifact and manifest field by field: kind, author, instant, versions, network, sources and their events, identity, range, and entry digests that hash the bodies |
| `EvidenceVerification.EvidencePartsInjective` | crates/evidence/src/builder.rs:135-142 | the parts of an artifact's identity determine its network, kind and sources |
| `EvidenceVerification.GenerationSays` | crates/evidence/src/events.rs:25-41 | the generation record states the evidence id, kind, number of records, manifest and digest of the package |
| `EvidenceVerification.BuiltPackageVerifies` | crates/evidence/src/builder.rs:110-216 | every successful build whose generation record takes no source's id is accepted on the store it leaves |
| `EvidenceVerification.BuiltPackageVerifiesIff` | crates/evidence/src/builder.rs:199-213 | with a hash that does not collide here, taking a source's id is exactly what makes the round trip fail |
| `EvidenceVerification.BuildKeepsHistory` | crates/evidence/src/events.rs:25-41 | a build keeps the store coherent exactly when its generation record's id is available, and then only adds to it |
| `EvidenceVerification.PackageIsLinked` | crates/evidence/src/model.rs:194-214 | a built package passes the cross-link and manifest checks, and artifact sources match manifest entries |
| `EvidenceVerification.BuildForgetsOrder` | crates/evidence/src/builder.rs:127-131 | any permutation of the record ids builds the same package and leaves the same store |
| `EvidenceVerification.AcceptancePinsBodies` | crates/evidence/src/verify.rs:136-156 | two stores that accept a package agree on every covered body, so altering or removing one fails |
| `EvidenceVerification.AcceptancePinsEntries` | crates/integrity/src/verification.rs:158-171 | accepted packages with one aggregate digest have the same entries |
| `EvidenceVerification.AcceptancePinsArtifact` | crates/evidence/src/verify.rs:111-120 | accepted packages with one artifact digest have the same content |
| `EvidenceVerification.UncoveredManifestFields` | crates/evidence/src/verify.rs:160-175 | changing any other manifest field never changes the verdict while the range is coherent |
| `EvidenceVerification.SplicedPackageAccepted` | crates/evidence/src/verify.rs:107-156 | the artifact of one accepted package with the manifest of another is accepted |
| `EvidenceVerification.ChainedSourceAcceptedIff` | crates/evidence/src/builder.rs:247-261 | of a genuine chain only the opening record is accepted as an evidence source |
| `Cases.CaseObject.Assign` | crates/audit-core/src/investigation.rs:469-477 | assignment is recorded and appended to the timeline |
| `Cases.CaseObject.ChangeStatus` | crates/audit-core/src/investigation.rs:481-512 | succeeds exactly for allowed moves, with the timeline entry and closure fields; otherwise nothing changes |
| `Cases.CaseObject.AddRelatedRecord` | crates/audit-core/src/investigation.rs:515-525 | the link and its timeline entry, which names no actor |
| `Cases.CaseObject.AddFinding` | crates/audit-core/src/investigation.rs:528-535 | the finding and its timeline entry, attributed to its author |
| `Cases.CaseObject.AddNote` | crates/audit-core/src/investigation.rs:538-549 | the note and its timeline entry, attributed to its author |
| `Cases.CaseObject.Validate` | crates/audit-core/src/investigation.rs:553-585 | true exactly when closure fields agree with the status and every auditor action names an auditor |
| `Cases.MoveTable` | crates/audit-core/src/investigation.rs:57-70 | the allowed moves: from open to work, from work to a resolution, only from there to closing or back to open, and the reopening that validation later refuses |
| `Cases.LinkKeepsValidIff` | crates/audit-core/src/investigation.rs:515-525 | linking keeps a case valid exactly when the entry kind is none of finding-added, status-changed and note-added |
| `Cases.MoveKeepsValidIff` | crates/audit-core/src/investigation.rs:506-510 | an allowed move keeps a case valid exactly when it was not closed |
| `Cases.PoisonedStays` | crates/audit-core/src/investigation.rs:570-583 | an auditor action without an auditor makes the case and all its later states invalid |
| `CaseService.CaseStore.Create` | crates/investigation/src/store.rs:79-88 | creates exactly when the id is new |
| `CaseService.CaseStore.Update` | crates/investigation/src/store.rs:90-97 | replaces exactly when the id exists |
| `CaseService.LoadOpen` | crates/investigation/src/service.rs:336-346 | authorization, existence and closed errors in order, otherwise a copy of the stored case |
| `CaseService.Transit` | crates/investigation/src/service.rs:99-137 | the transition's checks in order, the move and its validation |
| `CaseService.Mutate` | crates/investigation/src/service.rs:78-286 | every operation's checks and mutation give the specified commit or error, with no store touched |
| `CaseService.Execute` | crates/investigation/src/service.rs:350-388 | case store first, then audit store; both stores and the answer are as specified on every path |
| `CaseService.OpeningSays` | crates/investigation/src/service.rs:163-167 | an opened case, field by field |
| `CaseService.EffectsSay` | crates/investigation/src/service.rs:78-286 | what an accepted operation changes of status, assignee, links and closure, and that it changes nothing else of them |
| `CaseService.FindingsSay` | crates/investigation/src/service.rs:234-284 | the finding or note an accepted operation adds, with its author, content, instant and derived id, and that no other operation adds one |
| `CaseService.EntrySays` | crates/audit-core/src/investigation.rs:469-549 | the timeline entry of an accepted operation: instant, kind, actor, record, provenance and the text of a move |
| `CaseService.StepSays` | crates/investigation/src/service.rs:359-366 | the step that reports an operation carries its actor, the new status, the right kind, and the title or finding it summarises |
| `CaseService.PerformSays` | crates/investigation/src/service.rs:350-388 | a call answers with the case it stored, a refused one with its reason and both stores as they were |
| `CaseService.StepRecord` | crates/investigation/src/events.rs:69-89 | a lifecycle record exists exactly for an acceptable source label, is valid, and carries the identity of its step |
| `CaseService.StepRecordSays` | crates/investigation/src/events.rs:39-89 | a lifecycle record states case, actor, status and summary, the service's network, source and instant, and is confidential |
| `CaseService.StepRecordProtects` | crates/audit-events/src/classify.rs:34-67 | its details are declared operational, the summary confidential, and nothing else is declared |
| `CaseService.PreparedIsFiled` | crates/investigation/src/store.rs:78-97 | accepted operations create or update exactly as their kind requires and keep cases under their own ids |
| `CaseHistory.PreparedCase` | crates/investigation/src/service.rs:350-388 | an accepted operation extends the timeline by one entry and keeps or legally moves the status; opening starts an empty one |
| `CaseHistory.RunKeepsTrail` | crates/investigation/src/service.rs:148-189 | over every run, crashes and other writers of the audit store included, cases and logged steps stay in step, the audit store stays coherent and holds a lifecycle identity exactly when that step was recorded, when the hashes do not collide on what is hashed |
| `CaseHistory.TrailConservation` | crates/investigation/src/service.rs:350-388 | over every run without crashes, a case with n timeline entries has exactly one stored record for each step 0..n and none beyond, all under distinct ids, and the recorded statuses walk the lifecycle from open to the current status, closing last |
| `CaseHistory.TrailReads` | crates/investigation/src/service.rs:350-388 | over every run without crashes, looking up a step returns a record that names its case, actor, status and summary and whose kind tells opening, update and closing apart |
| `CaseHistory.LoggedStepSays` | crates/investigation/src/service.rs:350-388 | the step an accepted call logs carries its actor, the new status of the case and what it summarises |
| `CaseHistory.CrashLosesOneStep` | crates/investigation/src/service.rs:371-386 | a crash between the two writes leaves the same cases and loses just the interrupted step |
| `CaseHistory.LostStepStaysLost` | crates/investigation/src/service.rs:368-371 | a step lost at any moment is recorded at no later moment, under any actor |
| `CaseHistory.LossesBoundedByCrashes` | crates/investigation/src/service.rs:371-386 | a case misses at most as many steps as there were crashes |
| `CaseHistory.CaseInvariant` | crates/investigation/src/service.rs:99-138 | in every reachable state a case is closed exactly when it has a closing time and exactly when it has a reason, and is valid exactly when no accepted operation of the run forged an entry on it |
| `CaseHistory.RunAcceptsIff` | crates/investigation/src/service.rs:78-346 | in every reachable state an operation is accepted exactly when its actor may investigate and its own conditions hold (for a transition: case present and not closed, a lifecycle move, a reason when closing, no forged entry), is otherwise refused with the first reason that applies, and nobody unauthorized changes anything |
| `CaseHistory.PreparedEntry` | crates/investigation/src/service.rs:194-219 | the one timeline entry an accepted operation adds is an auditor action without an auditor exactly when it is a link under such a kind |
| `CaseHistory.LinkIgnoresKind` | crates/investigation/src/service.rs:203-217 | whether a link is accepted does not depend on the kind it claims |
| `CaseHistory.RunKeepsClosedValid` | crates/investigation/src/service.rs:126-137 | in every reachable state, whatever was linked, a closed case is valid |
| `CaseHistory.ClosedIsNotTouched` | crates/investigation/src/service.rs:336-346 | no accepted operation concerns a closed valid case |
| `CaseHistory.ReopenAlwaysFails` | crates/investigation/src/service.rs:115-136 | in every reachable state a reopen answers an internal error to administrators and a refusal to everyone else, and changes neither store |
| `CaseHistory.ClosedIsForever` | crates/investigation/src/service.rs:99-138 | in every run, once closed, a case and its log are the same at every later moment |
| `CaseHistory.ForgedEntryBlocksTransitions` | crates/investigation/src/service.rs:126-136 | a case with an auditor action without auditor refuses every transition, and nothing changes |
| `CaseHistory.ForgedIsFrozen` | crates/investigation/src/service.rs:99-138 | once such an entry is on a timeline, the case keeps its whole timeline and its status at every later moment of the run |
| `Calendar.EraIsFloor` | crates/audit-core/src/timestamps.rs:89-91 | the truncating division with its correction is the floor, so the day of era is never negative |
| `Calendar.YearFromCycles` | crates/audit-core/src/timestamps.rs:92-94 | the year-of-era formula counts centuries, four-year cycles and years exactly, and leaves the day of the March-based year |
| `Calendar.ArithmeticFits` | crates/audit-core/src/timestamps.rs:88-99 | on 64-bit seconds nothing overflows and each intermediate has its documented range |
| `Calendar.CivilCounts` | crates/audit-core/src/timestamps.rs:88-99 | every day number becomes a real Gregorian date, and counting days recovers the number |
| `Calendar.CivilWalksTheCalendar` | crates/audit-core/src/timestamps.rs:88-99 | day 0 is 1 January 1970 and each next day number is the next calendar day |
| `Calendar.CivilIsOnto` | crates/audit-core/src/timestamps.rs:88-99 | each date comes from its own day number and no other |
| `Calendar.UnixRoundTrip` | crates/audit-core/src/timestamps.rs:78-86 | every instant becomes a valid date and time from which its seconds are recovered |
| `Calendar.CivilRoundTrip` | crates/audit-core/src/timestamps.rs:78-86 | every valid date and time is the conversion of the seconds it counts to |
| `Calendar.UnixMonotone` | crates/audit-core/src/timestamps.rs:78-86 | an instant is earlier exactly when its date and time is |
| `Rfc3339.RenderIff` | crates/audit-core/src/timestamps.rs:50-59 | rendering succeeds exactly from -62167219200 up to but excluding 253402300800 seconds |
| `Rfc3339.RenderedParses` | crates/audit-core/src/timestamps.rs:50-59 | what is rendered has twenty characters and parses back to its instant |
| `Rfc3339.ParsedRenders` | crates/audit-core/src/timestamps.rs:58-58 | every well-formed UTC text of whole seconds is what its instant renders to |
| `Rfc3339.TextOrderIsTimeOrder` | crates/audit-core/src/timestamps.rs:50-59 | rendered texts sort lexicographically exactly as their instants |
| `Identity.KindRoundTrip` | crates/audit-core/src/event.rs:104-152 | every kind is recovered from its wire text |
| `Identity.OnchainPartsInjective` | crates/audit-events/src/event_id.rs:44-69 | on-chain part lists determine network, transaction, both optional indexes and kind |
| `Identity.DerivedPartsInjective` | crates/audit-events/src/event_id.rs:79-84 | derived part lists determine network, method and references |
| `Identity.OnchainDerivedOverlap` | crates/event-normalizer/src/validator.rs:144-154 | the two families share a list only if the transaction text is a derivation tag, which a checked hash never is |
| `Identity.CheckedIsDigestText` | crates/event-normalizer/src/validator.rs:144-154 | the hash check admits exactly the lowercase hex renderings of thirty-two bytes |
| `Identity.OverlapIff` | crates/audit-events/src/event_id.rs:44-84 | an on-chain identity shares a part list with some derived one exactly when its transaction text starts with the derivation tag |
| `Identity.UncheckedHashOverlaps` | crates/audit-events/src/event_id.rs:44-84 | without the check the two families do share a list |
| `Identity.TransferRefsInjective` | crates/audit-events/src/transfer.rs:68-80 | transfer references determine transaction, operation, token, both optional parties and outcome |
| `Identity.LifecyclePartsInjective` | crates/audit-events/src/investigation.rs:75-108 | a lifecycle identity determines network, case, actor and step |
| `DerivedEvents.DerivedRecord` | crates/audit-events/src/event_id.rs:162-195 | a derived record exists exactly for an acceptable source label, is valid, and has the identity of its parts |
| `DerivedEvents.SourceAcceptedIff` | crates/audit-core/src/event.rs:272-291 | a source label is acceptable exactly when it has one to sixty-four characters, all visible |
| `DerivedEvents.DerivedRecordSays` | crates/audit-events/src/event_id.rs:162-195 | a derived record claims no place, observation time or reference on the chain, states its derivation, and is confidential and unsealed |
| `DerivedEvents.DerivedComesLast` | crates/storage/src/pagination.rs:54-75 | derived records come after all history with a known ledger |
| `Scopes.RangeContainsIff` | crates/authorization/src/scopes.rs:92-106 | range containment is exactly set inclusion, for well-formed requests on the unbounded time line |
| `Scopes.RangeContainsOn64BitsIff` | crates/authorization/src/scopes.rs:92-106 | on 64-bit time it is inclusion except for a grant bounded at the very first or last instant |
| `Scopes.ContainsIff` | crates/authorization/src/scopes.rs:26-55 | what a grant covers: everything if it is unrestricted, the ranges it includes, the classifications it is at least as sensitive as, otherwise itself alone and nothing of another kind |
| `Scopes.ContainsTransitive` | crates/authorization/src/scopes.rs:26-55 | what a covered scope covers is covered |
| `Scopes.ContainsAntisymmetric` | crates/authorization/src/scopes.rs:26-55 | scopes that cover each other are equal |
| `Scopes.CoverageIsMonotone` | crates/authorization/src/scopes.rs:58-60 | a list that covers each grant of another covers whatever the other covers |
| `Disclosure.NextLevel` | crates/privacy/src/ceiling.rs:34-42 | the next level lets through exactly the classifications up to the given one |
| `Disclosure.DisclosureCeiling` | crates/privacy/src/ceiling.rs:50-72 | for every grant list in any order, the ceiling lets through exactly the classifications the authorizer covers |
| `Disclosure.CeilingIsDetermined` | crates/privacy/src/ceiling.rs:19-21 | ceilings are equal exactly when the grant lists cover the same classifications |
| `Disclosure.RedactedKeysExact` | crates/privacy/src/redaction.rs:87-101 | the key list is strictly rising and names exactly the withheld keys |
| `Disclosure.DisclosureAgrees` | crates/privacy/src/disclosure.rs:39-115 | the view keeps the record's id, kind, network and time; a detail is shown unchanged exactly when the authorizer covers its declared classification, or else the record's own, otherwise it is marked and listed; no key is dropped |
| `Disclosure.GrantsNeverHide` | crates/privacy/src/disclosure.rs:39-70 | grants that cover at least as much never hide a key that was shown |
| `Disclosure.AddedGrantsNeverHide` | crates/privacy/src/ceiling.rs:50-72 | adding grants, in any order, never hides a key |
| `Disclosure.WithheldValuesDoNotLeak` | crates/privacy/src/disclosure.rs:105-115 | records that differ only in withheld values have equal views |
| `TrailDisclosure.LifecycleDisclosure` | crates/audit-events/src/classify.rs:60-67 | a reader sees the summary of a lifecycle record exactly with a grant that covers confidential data, and its other details exactly with one that covers operational data |
| `Catalog.FirstFree` | scripts/error_catalog.py:343-344 | the first unused number from a start, with everything between in use |
| `Catalog.SkipUsed` | scripts/error_catalog.py:343-344 | the skipping loop terminates there |
| `Catalog.BlockOf` | scripts/error_catalog.py:297-299 | blocks of a hundred from 1000 on, in taxonomy order |
| `Catalog.PriorIsLast` | scripts/error_catalog.py:315-315 | the recorded entry of a variant is the last with its enum and name |
| `Catalog.PlaceVariant` | scripts/error_catalog.py:326-364 | one variant: its recorded entry carried over, its discriminant taken with a note on a clash, or the next unused number issued, or the block is exhausted |
| `Catalog.PlaceEnum` | scripts/error_catalog.py:321-364 | one enum: its variants in declaration order from the first number of its block, or the whole build fails |
| `Catalog.BuildCatalog` | scripts/error_catalog.py:307-366 | the nested loops compute the specified merge, clash notes and exhaustion error included |
| `CodeAllocation.FoldAssigns` | scripts/error_catalog.py:319-364 | for every scan: survivors keep their entries, declared variants their discriminants, any other gets the least number of its block not in use at its turn; the notes are exactly the clashes |
| `CodeAllocation.BuildAllocates` | scripts/error_catalog.py:307-366 | for every scan: exactly the scanned variants in order under that rule, the retired list untouched; with unique variants and distinct recorded codes, a build without clashes has pairwise distinct codes |
| `CodeAllocation.ListedEntrySays` | scripts/error_catalog.py:329-364 | each listed entry has its scanned kind and place, and either its recorded id, code and summary or its symbol, a new code and no summary |
| `CodeAllocation.UndeclaredBuildIsDistinct` | scripts/error_catalog.py:342-353 | without explicit discriminants nothing clashes and all codes are pairwise distinct |
| `CodeAllocation.BuildFailsIff` | scripts/error_catalog.py:345-350 | for every scan: a build fails exactly when some variant needs a number and its block has none left at its turn |
| `CodeAllocation.RebuildChangesNothing` | scripts/error_catalog.py:328-334 | building again from a result gives that result and no notes |
| `CodeCounts.BuildSucceedsIff` | scripts/error_catalog.py:345-350 | when every new discriminant is declared before its number would be issued, a build fails exactly when an enum has more variants in need of a number than its block has numbers neither listed nor declared |
| `CodeCounts.GivenOutIff` | scripts/error_catalog.py:315-353 | every number of every block is issued exactly when it is neither listed nor declared and fewer such numbers precede it than there are variants in need, if and only if every new discriminant is declared before its number would be issued |
| `CodeCounts.OutsideIsTimely` | scripts/error_catalog.py:335-341 | discriminants outside the blocks, or none, are always declared in time |
| `CodeCounts.RetiredCodeReissued` | scripts/error_catalog.py:365-366 | one build that issues a retired code to a different variant |

## Left out

- SHA-256, serde_json and canonical JSON are parameters. Injectivity is assumed only where a lemma names it: canonical JSON determines its value and opens with a brace, and the hash does not collide on the finitely many inputs at hand.
- CaseHistory.TrailConservation: starts from a store that holds none of the run's lifecycle steps, lets other services insert only records under ids that are free and none of these steps' own, assumes the truncated identity hashes collide on none of the part lists and events hashed, and counts steps without the service's cast to 32 bits; a refused source label, with which every step is lost, is excluded here and covered by CaseHistory.RunKeepsTrail.
- CodeCounts.BuildSucceedsIff: counts only for scans whose new discriminants are declared before their numbers would be issued; after a late one the outcome depends on the order of declaration, and the condition for every scan is CodeAllocation.BuildFailsIff.
- Paging.ReadingSurvivesWrites: asks that keys encode as cursors, because encoding panics otherwise.
- Ingestion.IngestionRefinesFold: asks that positions of the source are distinct and that pages continue from the checkpoint, as the source contract promises (crates/audit-core/src/source.rs, lines 168-176); the clock is fixed.
- Normalization is a deterministic partial function from raw items to events; the parsers, field validators and the hooks schema are not part of this model, except the transaction hash check.
- `AuditQuery::matches` is an arbitrary predicate over records; the query builder is not part of this model.
- Text lengths are counted in characters, not bytes; identifier, label and version validators are reduced to the checks that decide an outcome here.
- Digests that were deserialized with a malformed hex value are not representable.
- Authorizer verdicts enter the case service and the evidence builder as predicates; roles, permissions and the access log are not part of this model.
- Cases are stored as values and worked on as fresh objects, as the service clones them out of the store and back; the case query methods are left out as easy.
- The event envelope of transfers beyond its identity parts, retention, the decryption boundary, reports, correlation, the RPC and Soroban adapters, exporters, schema checking and documentation rendering are left out: mostly data shapes or input and output.
- The catalog's symbolic ids are a parameter, summaries are left empty as `build_catalog` leaves them, and the source scanner and the `--check` mode are left out.
- RFC 3339 fractions, offsets and leap seconds do not occur in rendered timestamps and the parser of the model does not accept them.
