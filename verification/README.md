# Observation pipeline: a model and its proofs

This project models the core of the observation pipeline under `backend/app` and proves what it
keeps. `dafny verify dfyconfig.toml` checks everything.

Five parts, in the order the data flows:

- **Ingestion** (`StreamIdentity`, `TopicFilter`, `ObservationTime`, `ObservationKeys`, `StreamCatalog`).
  A received observation is authorized against topic filters, assigned to a stream, noted as
  evidence and, if accepted, stored once per identity; a JSON observation gets one schema task and
  one field task, and a stated measurement gets an outbox row. `CatalogTheorems` proves one
  recording consistent and redelivery harmless; `IngestTheorems` and `MeasurementTheorems` say, for
  every run, under which stream an observation is filed, what evidence, bytes and tasks it leaves,
  and which measurement reaches the outbox.
- **Leased work tables** (`LeaseTable`, `Repositories`, `LeaseRuns`). The outbox and the task table
  share one protocol: claim under a lease, work outside any lock, finalize with the token
  (id, attempt count, start time). `DeliveryRuns` adds the writer, crashes and dead-letter replays;
  `DeliveryWorker` adds the cycle and shows that it drains the outbox, by the general argument of
  `Draining`; `TaskWorkers` holds what the other two workers' cycles share.
- **Two bounded JSON walks** (`JsonPath`, `JsonValues`, `SchemaExtraction`, `FieldValueExtraction`).
  Each mutating walk is refined to a flat sequence of visits that is then folded under the bounds.
  `SchemaLimits` says exactly when a walk succeeds, `SchemaShape` what a schema does not depend on,
  `ExtractorAgreement` and `ExtractorTheorems` how the two walks agree. `SchemaContent` and
  `FieldContent` say what the two extractions give, and `DocumentLimits` and `ScalarLimits` when they
  succeed and why they fail, in terms of the document's values and places, without the walks.
- **The schema registry** (`SchemaDrift`, `SchemaRegistry`, `RegistryRuns`, `RegistryLeases`,
  `SchemaWorker`): version numbering, reuse, provenance and drift, over every run and under claims
  that turn out stale.
- **Projection and delivery** (`FieldProjection`, `ProjectionSteps`, `ProjectionWorker`, `PointMapping`).
  `PipelineRuns` puts ingestion, claims, projections, settlements, deliveries and replays into one
  transition system; `PipelineTheorems` states what every run of it keeps, and `PipelineLeases` that
  both work tables follow the lease protocol. `JointRuns` adds the schema registry on the same tables.
  `EndToEnd` adds the writer and the store, and `StoreTheorems` says what the store holds.
  `ReachableExamples` gives concrete runs.

`SavedQuery` and `SavedQueryTheorems` model the query that reads points back, with its two-stage
over-fetch, and prove its `truncated` flag right; `QueryStore` shows that written stores meet the
assumption made there, and `QueriedFields` follows the values from payload to answer. `Storage` holds the shared rows, `Ordering` and
`Text` the orders used.

How to read the model:

- A transaction is one atomic step. Another worker's attempt to take the claimed row over while the
  transaction is open is the parameter `takeover`; `SKIP LOCKED` is a set of rows passed over; a crash drops
  items in flight at any point. Every operation is given its own reading of the clock, and clocks are
  not assumed to agree or to move forward.
- A query with ORDER BY and LIMIT is a relation that leaves the order of ties open; theorems hold
  for every answer. The classes answer with one of them.
- A class keeps the source's mutable state; its methods are proved against functions on values, and
  the theorems are about those functions.
- Platform functions are parameters (`Platform`, `Codec`): SHA-256, ISO 8601 reading and writing,
  UTF-8 and JSON parsing, lower-casing, JSON writing. Where a theorem needs it, it assumes by name
  that digests do not collide (`CollisionFree` of texts, `DigestsDiffer` of payloads, `TellsApart` of schema documents),
  that identifiers are read back as written (`ReadsIds`), that digests and written times lack the separator
  and times differ in writing (`PlainTexts`), that a written time is read back as the same instant
  and no written text is empty (`ReadsItsOwnWriting`), and that lower-casing neither empties nor pads
  a text (`KeepsText`) and done twice is done once (`LowersOnce`).
- The loops of the source stay loops; a long method body is split into helper methods of the same
  class.

Three places where the code and its own comments differ; the model follows the code. The comment at
`backend/app/services/stream_catalog.py:204-208` names the receive timestamp as part of an
observation's identity; it is, only when neither source nor broker gave a usable one. The fallback
window may be configured up to an hour, but it never reaches past a minute
(`ObservationTime.BucketIsLastBoundary`). The docstring at
`backend/app/services/schema_extractor.py:43` says array length is ignored; the node limit counts
every element (`SchemaShape.ReplacingAlikeParts`).

## Model

| member | source | states |
|---|---|---|
| LeaseTable.SelectionIsExact | backend/app/services/observation_outbox_repository.py:17-38 | whatever a claim query may answer: exactly min(limit, count) different eligible unlocked rows, in due order, and every eligible row passed over is due no earlier; fewer than the limit only when none is left |
| LeaseTable.OverlappingClaimsSerialize | backend/app/services/observation_outbox_repository.py:28-47 | two claims that overlap, the second skipping the rows the first has locked, take disjoint rows, commit in either order to the same table, and the second is also a correct answer after the first |
| LeaseTable.BackoffGrows | backend/app/services/schema_observation_worker.py:38-39 | the delay never shrinks as attempts accumulate and stays between base and maximum |
| LeaseTable.BackoffDoubles | backend/app/services/schema_observation_worker.py:38-39 | the first retry waits for the base, each further attempt doubles the wait, and neither ever waits longer than the maximum |
| LeaseTable.FailureFails | backend/app/services/observation_delivery_worker.py:71-92 | a failed attempt whose token is current changes its own row only: a dead letter if the failure is permanent or the attempts are used up, otherwise retryable and due exactly one backoff after the failure, with the error noted either way |
| Repositories.ObservationOutboxRepository.Claim | backend/app/services/observation_outbox_repository.py:14-47 | the rows taken answer the claim query, become processing with a new start time and one more attempt, and the returned items carry those tokens; no other row changes |
| Repositories.ObservationOutboxRepository.Finalize | backend/app/services/observation_outbox_repository.py:49-79 | true exactly when the token is the row's current one; then that row alone takes the new state, otherwise the whole table is unchanged |
| Repositories.ObservationOutboxRepository.ReplayDeadLetters | backend/app/services/observation_outbox_repository.py:81-93 | exactly the listed dead letters become pending and due now, keeping their attempts; returns how many |
| Repositories.ProcessingTaskRepository.Claim | backend/app/services/processing_task_repository.py:26-76 | the same claim, over the tasks of one processor type and version |
| Repositories.ProcessingTaskRepository.Finalize | backend/app/services/processing_task_repository.py:78-108 | the same fenced update on a task |
| Repositories.MarkClaimed | backend/app/services/observation_outbox_repository.py:39-42 | the loop over the selected rows claims each of them once and touches no other |
| Repositories.ClaimedItemsAreCurrent | backend/app/services/observation_outbox_repository.py:39-47 | a claimed item carries its row's payload and current token, of a row that was eligible, and rows that were not taken stay as they were |
| LeaseRuns.AttemptsCountClaims | backend/app/services/observation_outbox_repository.py:39-42 | over any run, attempts equal the number of claims, and a start time is set exactly in processing, where it is the latest claim's |
| LeaseRuns.TokensAreFresh | backend/app/services/observation_outbox_repository.py:39-47 | over any run, no two claims of a row issue the same attempt number |
| LeaseRuns.RowsPersist | backend/app/services/observation_outbox_repository.py:69-79 | over any run, a row keeps its payload, attempts never fall, and a delivered row is never touched again |
| LeaseRuns.TokenFinalizesAtMostOnce | backend/app/services/observation_outbox_repository.py:69-79 | over any run with crashes, expiries and replays, a token that has finalized once never changes the table again |
| LeaseRuns.ReclaimFencesOlderTokens | backend/app/services/observation_outbox_repository.py:69-79 | once a row has been claimed again, no older token finalizes it, whatever state it asks for |
| LeaseRuns.RetriesAreBounded | backend/app/services/observation_outbox_repository.py:39-92 | over any run, however many crashes and dead-letter replays, a row is sent back for a retry at most max_attempts - 1 times |
| LeaseRuns.ReclaimWaitsForLease | backend/app/services/observation_outbox_repository.py:23-26 | a row still in processing is claimed again only strictly more than one lease after its latest claim |
| LeaseRuns.UnfinishedRowsBecomeEligible | backend/app/services/observation_outbox_repository.py:18-27 | in every run an unfinished row is claimable exactly from a time that can be read off the row, and a finished row never |
| LeaseRuns.DeadLettersAreDeserved | backend/app/services/observation_outbox_repository.py:69-79 | over any run in which a row is only finalized by policy, it is a dead letter only with its attempts used up or with an error for which no retry is made |
| LeaseRuns.ColumnsAlwaysAgree | backend/app/services/observation_outbox_repository.py:39-79 | over any run, a row has a start time exactly in processing, and a time of completion exactly when delivered, and then no error |
| LeaseRuns.ReplayedRowsAreDue | backend/app/services/observation_outbox_repository.py:81-93 | a replay makes exactly the listed dead letters claimable from its time on, with payload and attempts as they were and without their error |
| DeliveryRuns.DeliveryIsLeaseRun | backend/app/services/observation_delivery_worker.py:59-94 | every run of arrivals, claims, writes, finalizations, crashes and replays is a run of the lease protocol, so all of the above holds of the outbox |
| DeliveryRuns.DeliveredMeansWritten | backend/app/services/observation_delivery_worker.py:67-92 | a delivered row was handed to the writer before, with the payload it arrived with, and the writer reported success; it stays delivered, unchanged |
| DeliveryRuns.DeliveryRetriesAreBounded | backend/app/services/observation_delivery_worker.py:71-92 | over any run of the outbox with this failure policy, a row is retried at most max_attempts - 1 times |
| DeliveryRuns.RowsAreExplained | backend/app/services/observation_delivery_worker.py:67-92 | over any run of the outbox, each row's state is explained by what the writer answered on its payload: delivered only after a success; a dead letter only after a permanent failure, or one with the attempts used up; retryable only after a passing failure with attempts left, due exactly one backoff later, and with that failure's code |
| DeliveryRuns.FinalizedAsAnswered | backend/app/services/observation_delivery_worker.py:67-92 | conversely, in every run the finalize of an item whose token is current turns its row into what the answer of an earlier write of that item asks for |
| DeliveryWorker.EveryItemSettlesOnce | backend/app/services/observation_delivery_worker.py:67-92 | finalizing a batch whose tokens are current settles each item's row exactly once, by its own outcome, and no other row |
| DeliveryWorker.ObservationDeliveryWorker.Deliver | backend/app/services/observation_delivery_worker.py:67-92 | one item: if its token is current its row alone changes, to delivered on success, to a dead letter if the failure is permanent or attempts are spent, else to retryable and due one backoff after the failure |
| DeliveryWorker.ObservationDeliveryWorker.RunCycle | backend/app/services/observation_delivery_worker.py:59-94 | one cycle claims a batch and settles its items one after the other; the last-cycle time moves exactly when the batch is not empty |
| DeliveryWorker.CycleIsDeliveryRun | backend/app/services/observation_delivery_worker.py:59-94 | a cycle is the run claim, write, finalize, write, finalize, ... of the system, from any state with other items in flight |
| DeliveryWorker.CycleLowersLoad | backend/app/services/observation_delivery_worker.py:59-94 | each item delivered takes at least one unit off the sum over unfinished rows of max(0, max_attempts - attempts) + 1, whatever the writer answers |
| Draining.EachIsSettled | backend/app/services/observation_delivery_worker.py:67-92 | items of different rows do not get in each other's way: worked off one after the other, each held row is settled once and no other changes |
| Draining.LateRoundTakesWork | backend/app/services/observation_delivery_worker.py:61-66 | a claim late enough for every unfinished row, with nobody else holding locks, takes nothing only when nothing is left |
| DeliveryWorker.CyclesDrainTheOutbox | backend/app/services/observation_delivery_worker.py:59-94 | after as many late cycles as the initial load, every row is delivered or a dead letter, whatever the writer answers |
| JsonPath.PathExtends | backend/app/services/schema_extractor.py:21-23 | the path built segment by segment is the path of the segment list |
| JsonPath.PathsRoundTrip | backend/app/services/schema_extractor.py:21-23 | a decoder reads the exact list of key and array segments back from the path text, for all keys |
| JsonPath.PathsAreInjective | backend/app/services/schema_extractor.py:21-23 | different locations never share a path text |
| JsonPath.PathIsPrintable | backend/app/services/schema_extractor.py:21-23 | no path text contains a control character |
| JsonPath.PathIsWritten | backend/app/services/schema_extractor.py:21-23 | a path is $ and a bracketed, quoted key or an empty pair of brackets per segment; a key without quotes, backslashes and control characters stands as it is |
| JsonValues.LastMemberWins | backend/app/services/schema_extractor.py:47 | of several members with one key, the last is the one that is read |
| Text.LeIff | backend/app/services/schema_extractor.py:53 | the order of paths and keys is that of the first character in which they differ, with a prefix first |
| SchemaExtraction.SchemaExtractor.Walk | backend/app/services/schema_extractor.py:72-105 | the mutating walk leaves the field map and node counter of the flattened walk, or fails with its code |
| SchemaExtraction.SchemaExtractor.WalkMembers | backend/app/services/schema_extractor.py:92-96 | the loop over sorted keys walks each member once, in key order |
| SchemaExtraction.SchemaExtractor.WalkItems | backend/app/services/schema_extractor.py:97-104 | the loop over elements, and the mixed override exactly when the elements have more than one type, nullable exactly when one is null (SchemaContent.ElementsAreSummedUp says the same of the result) |
| SchemaExtraction.SchemaExtractor.ExtractPayload | backend/app/services/schema_extractor.py:45-70 | the whole extraction equals its specification, for every payload and every failure (SchemaContent and DocumentLimits say of the document what it gives) |
| SchemaLimits.RunIffInBounds | backend/app/services/schema_extractor.py:79-91 | a walk succeeds exactly when nodes, depths, path lengths and distinct paths are within the bounds; then each path holds its last mixed override, or else its first visit |
| SchemaLimits.WalkSucceedsIffInBounds | backend/app/services/schema_extractor.py:72-105 | the same of a whole document |
| SchemaContent.SchemaSaysWhatIsThere | backend/app/services/schema_extractor.py:72-105 | for every accepted document and every place, over key lookup and array elements: the place is a field exactly when the document has a value there; its type, depth and nullability are those of the first value there, or, if an array above has elements of different types, mixed and whether the last such array holds a null |
| SchemaContent.ElementsAreSummedUp | backend/app/services/schema_extractor.py:97-104 | for the elements of an array that is alone at its place: mixed if two of them differ in type, else their type, and nullable exactly when one of them is null |
| DocumentLimits.AcceptedIffWithinLimits | backend/app/services/schema_extractor.py:45-91 | a document has a schema exactly when it holds at most 1024 values at at most 256 places, none more than 16 steps deep or with a path of more than 1024 characters, and the schema written out has at most 65536 bytes |
| DocumentLimits.RefusedForAReason | backend/app/services/schema_extractor.py:67-90 | a document is only refused for what the failure code says of it: too many values, a place too deep or with too long a path, too many places, or too large a schema |
| DocumentLimits.PlacesExist | backend/app/services/schema_extractor.py:72-105 | every document has finitely many places, so these limits can be asked of it |
| DocumentLimits.NodesAreHeld | backend/app/services/schema_extractor.py:80-104 | the walk visits each value a document holds exactly once, of members with one key the one that is read |
| SchemaShape.StructureDecides | backend/app/services/schema_extractor.py:45-105 | documents of the same structure, with any scalars of the same types, get the same schema and fingerprint or the same failure |
| SchemaShape.MemberOrderIsIrrelevant | backend/app/services/schema_extractor.py:92-96 | reordering an object's members changes neither schema, fingerprint nor failure |
| SchemaShape.ScalarArraysByKinds | backend/app/services/schema_extractor.py:97-104 | scalar elements count only by the set of their types: permuting or repeating them leaves the same record |
| SchemaShape.AlikeElementsCountOnce | backend/app/services/schema_extractor.py:97-104 | the length of an array of alike elements does not matter, from one up |
| SchemaShape.OneShapeArraysAnywhere | backend/app/services/schema_extractor.py:97-104 | an array of elements of one shape, anywhere in an accepted document, may take any length from one up and any scalars of the same types: schema and fingerprint stay, unless the node limit is passed, and then it fails |
| SchemaShape.ReplacingAlikeParts | backend/app/services/schema_extractor.py:45-105 | replacing, anywhere in an accepted document, a part by one that leaves the same record gives the same schema and fingerprint, unless the node limit is passed, and then it fails |
| ExtractorTheorems.ObservationsDescribeThemselves | backend/app/services/schema_extractor.py:50-70 | an accepted document's field map determines its root type, and every field's depth is that of its path |
| ExtractorTheorems.DocumentsListTheFields | backend/app/services/schema_extractor.py:53-66 | the schema document names the root type and lists every field of the map once, in path order, and nothing else |
| FieldValueExtraction.FieldValueExtractor.Walk | backend/app/services/field_value_extractor.py:72-116 | the mutating walk leaves the values and three counters of the flattened walk, or fails with its code |
| FieldValueExtraction.FieldValueExtractor.Enter | backend/app/services/field_value_extractor.py:84-116 | the part of the walk before recursion: bounds first, then nulls, containers, a scalar root, a scalar field |
| FieldValueExtraction.FieldValueExtractor.WalkMembers | backend/app/services/field_value_extractor.py:94-107 | the loop over sorted keys walks each member once, in key order |
| FieldValueExtraction.FieldValueExtractor.Keep | backend/app/services/field_value_extractor.py:113-130 | one scalar is kept under its path with its type, unless it is not finite or the field limit is reached |
| FieldValueExtraction.FieldValueExtractor.ExtractPayload | backend/app/services/field_value_extractor.py:44-70 | the whole extraction equals its specification, for every payload and every failure |
| ExtractorAgreement.StopsAreArrayFreeVisits | backend/app/services/field_value_extractor.py:94-110 | the places the scalar walk visits are exactly the schema walk's places outside arrays, in the same order |
| ExtractorAgreement.StopPathsAreDistinct | backend/app/services/field_value_extractor.py:84-116 | no two places of a document share a path |
| ExtractorAgreement.ScalarWalkSucceedsIffInBounds | backend/app/services/field_value_extractor.py:84-130 | the scalar walk accepts an object exactly when its places, depths, path lengths, kept scalars and numbers are within bounds; then values and counters are exactly those of its places |
| FieldContent.ValuesAreWhatIsThere | backend/app/services/field_value_extractor.py:84-130 | for every accepted payload and every place: a value is extracted for it exactly when it is outside arrays and the document has a scalar there, and it is that scalar with its type |
| ScalarLimits.ExtractedIffWithinLimits | backend/app/services/field_value_extractor.py:44-116 | the scalars of a payload are extracted exactly when it has at most 65536 bytes and is an object with at most 1024 places outside arrays, none too deep or with too long a path or with a number that is not finite, and at most 256 scalars |
| ScalarLimits.OpenPlacesExist | backend/app/services/field_value_extractor.py:94-110 | every document has finitely many places outside arrays |
| ScalarLimits.ScalarsRefusedForAReason | backend/app/services/field_value_extractor.py:44-130 | extraction is only refused for what the failure code says of the payload |
| ExtractorTheorems.ExtractorsAgree | backend/app/services/field_value_extractor.py:72-130 | when both extractors accept an object, the scalar values are exactly the schema's scalar fields outside arrays, with the same types; the skip counts are its null and container fields there; and every visited place is accounted for |
| ExtractorTheorems.SchemaAcceptanceCarriesOver | backend/app/services/field_value_extractor.py:44-116 | an object the schema extractor accepts, within the byte limit, is accepted by the field extractor exactly when every number outside arrays is finite |
| SchemaDrift.DriftPathsAreExact | backend/app/services/schema_observation_service.py:163-180 | old paths minus removed plus added are the new paths, and both lists are in path order without repeats |
| SchemaDrift.DriftChangesAreExact | backend/app/services/schema_observation_service.py:181-190 | a shared path is listed as changed, in path order and with both types, exactly when its type or nullability changed |
| SchemaDrift.DriftIsNeverEmpty | backend/app/services/schema_observation_service.py:155-201 | the drift between two accepted documents is empty exactly when their schemas are the same; a new fingerprint always shows a difference |
| SchemaRegistry.SchemaObservationService.ProcessClaim | backend/app/services/schema_observation_service.py:56-149 | one transaction: all of its writes, or none when the claim is stale at the start or has been taken over at the end |
| SchemaRegistry.SchemaObservationService.Write | backend/app/services/schema_observation_service.py:93-146 | a known fingerprint is counted once more; an unknown one adds the next version; either adds one provenance record |
| SchemaRegistry.SchemaObservationService.AddVersion | backend/app/services/schema_observation_service.py:101-133 | the new version is one more than the stream's highest, and drift is recorded against exactly that one |
| SchemaRegistry.FindSchema | backend/app/services/schema_observation_service.py:93-99 | a schema of this stream with this fingerprint, or none exists |
| SchemaRegistry.Latest | backend/app/services/schema_observation_service.py:102-107 | the stream's schema with the highest version number, or the stream has none |
| RegistryRuns.OnlySuccessRegisters | backend/app/services/schema_observation_service.py:74-149 | a task is processed exactly when its claim is current and its input good and nobody takes it over; otherwise the registry is unchanged and no task is completed |
| RegistryRuns.VersionsAreOneToN | backend/app/services/schema_observation_service.py:101-119 | versions numbered in order of arrival are exactly 1..n, each held by one schema |
| RegistryRuns.ReachableVersions | backend/app/services/schema_observation_service.py:93-133 | in every reachable state each stream's versions are exactly 1..n with distinct fingerprints, and drift events link exactly each version from 2 on to the one before |
| RegistryRuns.ReachableCounts | backend/app/services/schema_observation_service.py:134-149 | in every reachable state a stream's observation counts, its provenance records and its completed schema tasks are equally many, one schema's count is the number of records that name it, and every record is of an observation stored as JSON and made when its task was completed |
| RegistryRuns.ReachableTimes | backend/app/services/schema_observation_service.py:93-136 | in every reachable state a schema was first and last observed when the observations of its first and its last provenance record were received, and each drift event was detected when the first record of its schema was made |
| RegistryRuns.RecordsNameTheirSchemas | backend/app/services/schema_observation_service.py:134-146 | if fingerprints tell documents apart, every provenance record of every run names the very schema, with the very fields, of its observation's payload |
| RegistryRuns.ReachableDriftsAreNotEmpty | backend/app/services/schema_observation_service.py:132-133 | in no run is a drift event empty |
| SchemaWorker.PermanentFailuresAreTerminal | backend/app/services/schema_observation_worker.py:25-36 | whatever is wrong with a task or its document itself is never retried |
| SchemaWorker.ItemEventsAreAllowed | backend/app/services/schema_observation_worker.py:120-172 | processing one item takes only steps of the registry's protocol, whatever fails |
| SchemaWorker.SchemaObservationWorker.ProcessItem | backend/app/services/schema_observation_worker.py:120-138 | one item in a transaction; counted as processed exactly when it was registered; a failure is recorded in a transaction of its own |
| SchemaWorker.SchemaObservationWorker.FinalizeFailure | backend/app/services/schema_observation_worker.py:140-172 | if the token is current and the failure can be recorded, the task alone changes: given up if terminal or out of attempts, else retryable and due one backoff after the failure; counted and remembered exactly then |
| SchemaWorker.SchemaObservationWorker.RunOnce | backend/app/services/schema_observation_worker.py:103-118 | one cycle claims a batch of schema tasks and processes each of its items in turn, from the state the ones before it left; the counters and the result are the numbers of items registered and of failures recorded |
| SchemaWorker.CycleIsAllowed | backend/app/services/schema_observation_worker.py:103-118 | a cycle takes only steps that the registry's protocol allows, whatever fails, and its successes and recorded failures stay within the batch |
| SchemaWorker.CyclesDrainTheTasks | backend/app/services/schema_observation_worker.py:103-172 | after as many undisturbed late cycles as the initial load, every schema task is completed or given up, whatever fails in between |
| SchemaWorker.ItemOutcome | backend/app/services/schema_observation_worker.py:120-172 | what becomes of a held task: after a fault it is retried while attempts are left, due one backoff later; for a document that cannot be registered it is given up at once; otherwise it is completed |
| SchemaWorker.DeadLettersAreDeserved | backend/app/services/schema_observation_worker.py:140-172 | in every run in which a schema task's failures are settled by its workers, it is a dead letter only with its attempts used up or with the code of a document that can never be registered |
| RegistryLeases.RegistryIsLeaseRun | backend/app/services/processing_task_repository.py:61-108 | every run of the registry is a run of the lease protocol on its tasks, claims that take a task over in the middle of a transaction included |
| RegistryLeases.SchemaTasksKeepTheLease | backend/app/services/processing_task_repository.py:61-108 | over any run a task's attempts are its claims, it has a start time exactly in processing, that of its latest claim, and a time of completion and no error exactly when completed, and it is retried less often than its limit |
| RegistryLeases.TakeoverWaitsForLease | backend/app/services/processing_task_repository.py:41-44 | a task is taken over in the middle of a transaction only strictly more than one lease after its latest claim |
| RegistryLeases.ClaimRegistersAtMostOnce | backend/app/services/schema_observation_service.py:64-75 | after a success with its token, or a newer claim, processing with a token is stale and changes nothing |
| StreamIdentity.TopicNormalizationIsIdempotent | backend/app/domain/streams/identity.py:13-17 | a topic is refused exactly when it has no level; otherwise splitting the normalized topic gives its levels back, and normalizing again changes nothing |
| StreamIdentity.StripRemovesSpaces | backend/app/domain/streams/identity.py:6-10 | stripping takes spaces off both ends and nothing else, until none is left there |
| StreamIdentity.LevelsAreWhatStandsBetween | backend/app/domain/streams/identity.py:13-17 | the levels of a topic are what stands between its slashes, stripped, where that is not empty, in order |
| StreamIdentity.SplitJoin | backend/app/domain/streams/identity.py:13-17 | splitting undoes joining for parts without the separator |
| StreamIdentity.KeyMaterialIsInjective | backend/app/domain/streams/identity.py:20-26 | key material whose parts do not contain the separator is shared with no other parts of the same number |
| StreamIdentity.SeparatorFreeStreamsAreTold | backend/app/domain/streams/identity.py:20-26 | a stream whose normalized source, topic and tenant lack the separator shares key material with another stream exactly when those three agree |
| StreamIdentity.StreamIsToldApartIff | backend/app/domain/streams/identity.py:6-26 | for every stream: no other stream has its key material exactly when its own parts are the only cut of the material at its separators into a normalized source, a normalized topic, and no or a normalized tenant; without separators there is one cut |
| StreamIdentity.SeparatorMayBeHarmless | backend/app/domain/streams/identity.py:20-26 | a stream with the separator inside its source that is still told apart from all others |
| StreamIdentity.SeparatorInIdentifierCollides | backend/app/domain/streams/identity.py:20-26 | two different streams, one with the separator inside its source, that get the same key material |
| TopicFilter.TopicMatches | backend/app/services/stream_catalog.py:81-89 | the loop with early returns equals the recursive matching of levels, and fails exactly on a pattern without levels (TopicFilter.FilterMatchesIff says which topics that accepts) |
| TopicFilter.MatchesLevelwise | backend/app/services/stream_catalog.py:84-89 | a filter matches exactly the topics that agree with it level by level, of the same length or, below a final #, of any length that reaches it (MQTT 3.1.1 section 4.7.1); a # elsewhere matches nothing |
| TopicFilter.FilterMatchesIff | backend/app/services/stream_catalog.py:81-89 | a filter text matches a topic exactly when its levels have # at most at the end, agree with the topic's parts one by one, and are as many unless a # closes them; it fails exactly when it has no level |
| TopicFilter.PlusWidensUnlessHash | backend/app/services/stream_catalog.py:84-89 | writing + for a level never loses a topic, except exactly where the level is a final # |
| TopicFilter.HashWidens | backend/app/services/stream_catalog.py:84-89 | writing # for the last levels, however many, never loses a topic |
| TopicFilter.Authorize | backend/app/services/stream_catalog.py:72-79 | the loop over the allowlist equals its specification, with a pattern without levels raising when it is reached (TopicFilter.AuthorizedIffAccepted says which topics that admits) |
| TopicFilter.AuthorizedIffAccepted | backend/app/services/stream_catalog.py:72-79 | a topic is authorized exactly when it has a level, the levels of some filter accept its levels, and every filter before that one has a level; the result is its levels joined, authorized as it stands |
| ObservationTime.BucketIsLastBoundary | backend/app/services/stream_catalog.py:217-222 | the bucket is the last window boundary at or before the instant, within the same minute; bucketing is idempotent; a window of a minute or more is a window of one minute |
| ObservationTime.SameBucketIff | backend/app/services/stream_catalog.py:217-222 | two instants share a bucket exactly when they lie in the same minute and in the same window of it |
| ObservationTime.SelectedTimeIsBounded | backend/app/services/observation_time.py:27-37 | no selected time lies further ahead of the receipt than the skew allows |
| ObservationTime.SelectedIff | backend/app/services/observation_time.py:16-37 | the selected time is the instant with an offset that the document's own timestamp text names, if no later than the skew allows; else that of the broker's; else the receipt |
| ObservationTime.ZIsUtc | backend/app/services/observation_time.py:30 | every Z in a timestamp is read as the offset of UTC, and nothing else of it changes |
| ObservationTime.RedeliveryKeepsIdentity | backend/app/services/observation_time.py:16-37 | for every pair of stamps, a later redelivery keeps the identifying time exactly when the source stamp has not come within the skew in between and, unless it was in time at once, neither has the broker stamp and, unless that was in time at once, both receipts lie in one window of one minute |
| ObservationKeys.RawKeysAgreeIff | backend/app/services/stream_catalog.py:223-231 | without digest collisions, two raw keys agree exactly when stream, topic as sent, identifying time and payload digest agree, even if the topic contains the separator |
| ObservationKeys.PointKeysAgreeIff | backend/app/services/stream_catalog.py:444-447 | without digest collisions, two delivery keys of measurements agree exactly when stream, identifying time, payload digest and metric agree |
| ObservationKeys.FieldKeysAgreeIff | backend/app/services/field_projection_service.py:200-203 | without digest collisions, two field delivery keys agree exactly when observation and place in the document agree |
| ObservationKeys.FieldKeyIsWritten | backend/app/services/field_projection_service.py:200-203 | a field delivery key is the digest of observation key, projection version and path, with separators between |
| ObservationKeys.FieldKeysAreNoPointKeys | backend/app/services/field_projection_service.py:200-203 | no field delivery key is ever a measurement's |
| StreamCatalog.StreamCatalogService.RecordObservation | backend/app/services/stream_catalog.py:126-193 | one transaction: rejection, or stream, evidence, stored bytes, two tasks and one delivery; nothing at all when it raises (IngestTheorems and MeasurementTheorems say of the observation what is recorded) |
| StreamCatalog.StreamCatalogService.UpsertStream | backend/app/services/stream_catalog.py:138-181 | a new key inserts the stream; a known one counts once more and takes the new time and format, keeping everything else |
| StreamCatalog.StreamCatalogService.AddEvidence | backend/app/services/stream_catalog.py:348-372 | every observation adds one evidence row |
| StreamCatalog.StreamCatalogService.AddRaw | backend/app/services/stream_catalog.py:195-276 | accepted bytes are inserted once per key, and the row of the key is returned |
| StreamCatalog.StreamCatalogService.Enqueue | backend/app/services/stream_catalog.py:288-346 | a task is inserted unless the observation has one of that processor |
| StreamCatalog.StreamCatalogService.AddDelivery | backend/app/services/stream_catalog.py:429-469 | a delivery is inserted unless its key is taken |
| CatalogTheorems.RecordKeepsConsistency | backend/app/services/stream_catalog.py:126-193 | recording keeps all keys unique, every stream in step with its linked evidence, every derived row traceable to accepted evidence of its stream, and every earlier row's identity |
| CatalogTheorems.WhenRecordingRejectsAndRaises | backend/app/services/stream_catalog.py:131-138 | an observation is rejected exactly when its topic is not authorized or its source is blank; otherwise recording raises exactly when its tenant is given and blank |
| CatalogTheorems.RedeliveryAddsOnlyEvidence | backend/app/services/stream_catalog.py:195-276 | recorded again in any later state with the same identifying time, an observation adds one evidence row and one count: no stored bytes, no task, no outbox row |
| CatalogTheorems.RedeliveryIdentity | backend/app/services/stream_catalog.py:211-222 | the same over every command: exactly which later redeliveries keep the identifying time |
| PipelineTheorems.RecordingIsConservative | backend/app/services/stream_catalog.py:137-193 | in every run a stream counts exactly its linked evidence and shows the times and format of the first and last of it; keys are unique; every stored JSON observation has both its tasks |
| PipelineTheorems.RedeliveryInARun | backend/app/services/stream_catalog.py:195-276 | anywhere later in a run, a redelivery with the same identifying time changes the tables by one evidence row and one count only |
| IngestTheorems.StoredAsOneIff | backend/app/services/stream_catalog.py:211-231 | two accepted observations are stored as one row exactly when the key text of their stream, topic as sent, identifying time and the digest of the whole payload agree |
| PipelineTheorems.StoredAreTheAccepted | backend/app/services/stream_catalog.py:223-276 | in every run a key is stored if and only if an observation accepted so far has it |
| PipelineTheorems.StoredAsFirstAccepted | backend/app/services/stream_catalog.py:232-276 | in every run a stored row is the first observation accepted under its key, content type included |
| PipelineTheorems.StoredPayloadsAreReadable | backend/app/services/stream_catalog.py:91-109 | in every run a stored payload is within the size limit and UTF-8, and parses if it is stored as JSON |
| IngestTheorems.StreamsAreKeyed | backend/app/services/stream_catalog.py:138-149 | in every run each stream's key is the digest of the key text of its own source, topic and tenant |
| IngestTheorems.SameStreamIff | backend/app/services/stream_catalog.py:132-182 | in every run, without digest collisions, two recorded observations are filed under one stream exactly when their source, topic and tenant give the same key text; if one of them lacks the separator, exactly when lower-cased stripped source, topic levels and tenant agree |
| IngestTheorems.StreamsShowTheirFirst | backend/app/services/stream_catalog.py:138-150 | in every run each stream shows the normalized source and topic, the tenant and the receipt of the first observation recorded under it |
| IngestTheorems.EvidenceIsTheLog | backend/app/services/stream_catalog.py:348-372 | in every run the evidence is the log of all recorded observations, in order and never changed: receipt, size, content type, metadata, digest of what may be stored, and the outcome: rejected, oversized, unsupported_encoding, malformed or accepted, by the first complaint there is |
| IngestTheorems.AcceptedIsStored | backend/app/services/stream_catalog.py:185-276 | recording stores and queues nothing unless the observation is accepted; then, if its key is new, one row that keeps all it brought, and two tasks, pending and due at once, exactly when it is JSON |
| IngestTheorems.IdentityIsMeasured | backend/app/services/stream_catalog.py:211-222 | the identifying time is the time the observation was measured at, or, where only the receipt tells it, the last boundary of the receive window within its minute |
| IngestTheorems.RowsShowTheirOrigin | backend/app/services/stream_catalog.py:223-247 | in every run a stored row was stored for the first accepted observation under its key, next to that one's own evidence, under the stream it was recorded under, with the key made of stream, topic, identifying time and payload digest |
| IngestTheorems.ProjectedAsMeasured | backend/app/services/field_projection_service.py:87-93 | a stored JSON observation is projected at the very time it was recorded at |
| MeasurementTheorems.StatedIsQueued | backend/app/services/stream_catalog.py:374-469 | recording an accepted JSON object whose members state a measurement queues exactly its row, pending and due at once, unless the key is taken: metric stripped and lower-cased, unit stripped, the value of the member value, the measured time, and the stream and evidence it comes from |
| MeasurementTheorems.QueuedIsStated | backend/app/services/stream_catalog.py:374-396 | and recording adds a row to the outbox only for an observation that states a measurement |
| MeasurementTheorems.MeasurementsReachTheOutbox | backend/app/services/stream_catalog.py:374-469 | in every run, without digest collisions, once an observation that states a measurement is recorded, every later state holds a row under the key of its stream, identifying time, payload and metric, with the metric, unit and value it states, at the time of the first observation recorded under that key |
| FieldProjection.Prepare | backend/app/services/field_projection_service.py:70-86 | a projection starts only from a current claim of a field task in processing, with its stored JSON observation, the values extracted from it, and its stream |
| FieldProjection.FieldProjectionService.ProcessClaim | backend/app/services/field_projection_service.py:70-107 | one transaction: the rows of all fields and the completed task, or none when the claim is stale at the start or has been taken over at the end (FieldProjection.RawTimeIff says at what time) |
| FieldProjection.RawTimeIff | backend/app/services/field_projection_service.py:87-93 | a stored observation is projected at the time its payload's timestamp names within the skew, else the broker's, else the receipt |
| FieldProjection.FieldProjectionService.PersistFields | backend/app/services/field_projection_service.py:94-104 | the loop writes the fields in path order |
| FieldProjection.FieldProjectionService.PersistOutbox | backend/app/services/field_projection_service.py:148-198 | one field's row is inserted unless its key is taken |
| ProjectionSteps.FreshFieldsAreAdded | backend/app/services/field_projection_service.py:94-104 | when no key is taken, every field gets its own new row, in path order |
| ProjectionSteps.PersistingIsIdempotent | backend/app/services/field_projection_service.py:186-198 | writing an observation's fields twice leaves the outbox of writing them once, even if digests collide |
| PipelineTheorems.ProjectionIsAllOrNothing | backend/app/services/field_projection_service.py:70-107 | in every run: while a field task is not completed the outbox has no row for its observation's fields; once it is, exactly one row for each scalar field, carrying the extracted value, and none for any other place |
| PipelineTheorems.ProjectedFieldsAreTheSchemas | backend/app/services/field_projection_service.py:94-106 | where the schema extractor accepts the payload too, the rows of a completed task are those of the schema's scalar fields outside arrays, and no others |
| PipelineTheorems.WhatProjectionCanFailOf | backend/app/services/field_projection_service.py:70-86 | in no run does a current claim fail for a missing row or for a payload that is not JSON at all; it is unsupported exactly when the stored row is not JSON, that is, the first observation accepted under its key was not declared so (StoredAsFirstAccepted) |
| PipelineRuns.StepIsSound | backend/app/services/stream_catalog.py:126-193 | every step of ingestion, projection, claims, settlements and replays keeps the tables consistent and every row's payload |
| ProjectionWorker.PermanentFailuresAreTerminal | backend/app/services/field_projection_worker.py:22-36 | whatever is wrong with a task or its payload itself is never retried |
| ProjectionWorker.ItemEventsAreAllowed | backend/app/services/field_projection_worker.py:121-171 | processing one item takes only steps of the pipeline, whatever fails |
| ProjectionWorker.FieldProjectionWorker.ProcessItem | backend/app/services/field_projection_worker.py:121-139 | one item in a transaction; counted as processed exactly when it was projected; a failure is recorded in a transaction of its own |
| ProjectionWorker.FieldProjectionWorker.FinalizeFailure | backend/app/services/field_projection_worker.py:141-171 | if the token is current and the failure can be recorded, the task alone changes: given up if terminal or out of attempts, else retryable and due one backoff after the failure; counted and remembered exactly then |
| ProjectionWorker.FieldProjectionWorker.RunOnce | backend/app/services/field_projection_worker.py:105-119 | one cycle claims a batch of field tasks and processes each of its items in turn, from the state the ones before it left; the counters and the result are the numbers of items projected and of failures recorded |
| ProjectionWorker.CycleIsAllowed | backend/app/services/field_projection_worker.py:105-119 | a cycle takes only steps that the pipeline allows, whatever fails, and its successes and recorded failures stay within the batch |
| ProjectionWorker.CyclesDrainTheTasks | backend/app/services/field_projection_worker.py:105-171 | after as many undisturbed late cycles as the initial load, every field task is completed or given up, whatever fails in between |
| ProjectionWorker.ItemOutcome | backend/app/services/field_projection_worker.py:121-171 | what becomes of a held task: after a fault it is retried while attempts are left, due one backoff later; for a payload that cannot be projected it is given up at once; otherwise it is completed |
| ProjectionWorker.DeadLettersAreDeserved | backend/app/services/field_projection_worker.py:141-171 | in every run in which a field task's failures are settled by its workers, it is a dead letter only with its attempts used up or with the code of a payload that can never be projected |
| PipelineLeases.PipelineIsLeaseRun | backend/app/services/processing_task_repository.py:61-108 | in every run of the pipeline both the task table and the outbox follow the lease protocol |
| PipelineLeases.TasksKeepTheLease | backend/app/services/processing_task_repository.py:61-108 | over any run a task's attempts are its claims, it has a start time exactly in processing, that of its latest claim, and a time of completion and no error exactly when completed, and it is retried less often than its limit |
| PipelineLeases.ClaimProjectsAtMostOnce | backend/app/services/field_projection_service.py:118-134 | after a success with its token, or a newer claim, projecting with a token is stale and changes nothing |
| JointRuns.IsPipelineRun | backend/app/services/schema_observation_service.py:56-149 | with schema workers and field workers on the same task table, every run seen from the tables is a run of the pipeline |
| JointRuns.IsRegistryRun | backend/app/services/schema_observation_service.py:56-149 | and seen from the schema tasks a run of the registry over what ingestion has stored |
| JointRuns.ProjectedFieldsAreTheRegistered | backend/app/services/field_projection_service.py:94-106 | in every joint run, once both tasks of an observation are completed, a provenance record leads to a registered schema of its stream, and the observation's outbox rows are exactly one for each scalar field of that schema outside arrays |
| PointMapping.NormalizedPointsAreValid | backend/app/services/influx_observation_writer.py:57-125 | the delivery of a document whose members state a measurement always maps: to a point at the time the document, the broker or the receipt says, with its stream, topic, receipt and provenance, the stated metric and unit, and exactly one value field holding the stated value |
| PointMapping.FieldPointsAreValidIff | backend/app/services/influx_observation_writer.py:128-199 | a field's delivery maps exactly when its stream's tenant is not the empty text; then to a point at the time the document, the broker or the receipt says, with its stream, path, topic, receipt and provenance, and exactly one value field holding the extracted value |
| PointMapping.MapsIffWhole | backend/app/services/influx_observation_writer.py:48-199 | whatever is in the outbox, a row maps exactly when it is a whole field point or a whole measurement's, with a scalar of the type it names and a time that can be read; the point then holds that value in the field of its type and in no other |
| PipelineTheorems.RowsMapUnlessTenantIsEmpty | backend/app/services/influx_observation_writer.py:48-54 | in every run an outbox row is an invalid point exactly when it is a field row of a stream whose tenant is the empty text |
| ReachableExamples.EmptyTenantRowsOccur | backend/app/services/influx_observation_writer.py:182-185 | a run of three steps through ingestion, claim and projection that ends with such a row |
| ReachableExamples.UnsupportedInputOccurs | backend/app/services/field_projection_service.py:75-76 | a run in which an observation is first received without a content type and then as JSON, after which its claimed field task is refused as unsupported input |
| ReachableExamples.AssumptionsCanBeMet | backend/app/services/influx_observation_writer.py:80-83 | the assumptions the theorems make of digests, fingerprints, written times and identifiers, and lower-casing can be met together |
| EndToEnd.IsDeliveryRun | backend/app/services/observation_delivery_worker.py:59-94 | with writer and store in place, every run seen from the outbox is a run of the delivery workers |
| EndToEnd.IsPipelineRun | backend/app/services/observation_delivery_worker.py:59-94 | and seen from the tables a run of the pipeline |
| StoreTheorems.DeliveredIsStored | backend/app/services/influx_observation_writer.py:224-245 | in every run a delivered row maps, and its point is in the store; a row that does not map is never delivered |
| StoreTheorems.StoredComesFromRows | backend/app/services/influx_observation_writer.py:224-245 | in every run the store holds only points of outbox rows |
| StoreTheorems.ProjectedFieldsReachTheStore | backend/app/services/field_projection_service.py:94-106 | end to end: once a field task is completed and its rows are delivered, the store holds for each scalar field a point at the time that the stored document, the broker or the receipt says, with exactly the extracted value |
| StoreTheorems.StoredFieldsAreProjected | backend/app/services/field_projection_service.py:94-106 | end to end: every field point in the store is that of a scalar field of a stored observation whose field task is completed |
| SavedQuery.AnswerExists | backend/app/services/influx_class_query_reader.py:92-107 | the filter, group, sort, limit pipeline always has an answer, whatever order ties take |
| SavedQuery.GroupPoints | backend/app/services/saved_class_query_execution_service.py:158-166 | the loop collects, for each requested series, its points in record order |
| SavedQuery.Cut | backend/app/services/saved_class_query_execution_service.py:172-180 | one series is cut to both limits, and marked exactly when it lost a point |
| SavedQuery.Normalize | backend/app/services/saved_class_query_execution_service.py:155-182 | the loop returns each series' share in request order, and the flag is set exactly when some share was cut |
| SavedQueryTheorems.ResponseIsBounded | backend/app/services/saved_class_query_execution_service.py:168-182 | no series and no response passes its limit, and series stand in request order under the requested aliases |
| SavedQueryTheorems.ShortOnlyAtALimit | backend/app/services/saved_class_query_execution_service.py:168-181 | a series is given fewer points than were found for it only when it has 5000 or the response has 20000 |
| SavedQueryTheorems.PointsStandInOrder | backend/app/services/saved_class_query_execution_service.py:202-204 | the points of every returned series stand in order of time, then boolean, integer, float, string, then their JSON text |
| SavedQueryTheorems.DroppedPointsAreLater | backend/app/services/saved_class_query_execution_service.py:116-129 | across the per-series, the global and the final limit, no point a series loses is earlier than one it keeps |
| SavedQueryTheorems.TruncatedIffPointsDropped | backend/app/services/saved_class_query_execution_service.py:116-129 | with the limits used, and if the values stored in the window for the requested series have their fields' types, the flag is set exactly when some series is returned fewer points than are stored for it; unset, every stored point is returned |
| QueryStore.WrittenStoresParse | backend/app/services/influx_observation_writer.py:157-193 | whatever the query reads of a store that holds written points has its field's type, though topic, times, provenance and delivery key are stored beside every value |
| QueryStore.FlagIsRightOnWrittenStores | backend/app/services/saved_class_query_execution_service.py:116-129 | on every store filled with written points the truncated flag is right in both directions |
| QueriedFields.QueryReturnsTheExtracted | backend/app/services/saved_class_query_execution_service.py:116-182 | from payload to answer: over the store of any run, with a stream's projected rows delivered and the flag unset, the points returned for one of its fields are exactly the values extracted of its projected observations, at the times that their documents, the broker or the receipts say, inside the window |

## Left out

- HTTP routes, the user interface, logging, settings loading, migrations, counts and status queries: plumbing without deep state.
- Start, stop, polling and cancellation of the workers, and what the delivery worker notes of an unexpected error: a crash at any point covers their effect on rows.
- JSON byte parsing, UTF-8 decoding, Unicode tables for case, float formatting, calendar and time zone rules: the model starts from parsed values, characters and microseconds in UTC. Characters are Unicode scalar values, so lone surrogates in JSON strings are not covered; nor are dates at the ends of the calendar, nor parser recursion limits.
- Receive times are taken to be in UTC, as the callers produce them; the source would write another offset into the key's text.
- Column widths and check constraints of the tables, foreign-key deletes and retention: rows are only appended or updated, and a row's identifier is its position. Two columns that always hold the same error code are one field.
- Of each pair of database branches the one for PostgreSQL is modelled; the other differs in keeping a stream's old payload format when none is given.
- Evidence previews, source type and payload size columns that nothing in the core reads back.
- The field rows stored beside an observed schema are the schema's own field map.
- The InfluxDB client, error classification by HTTP status, parsing of returned records (`_field_value`, `_record`), loading and validating a saved query and its membership check: the model starts from typed records.
- Class, query and subscription management, the event bus, registries and validation of raw observations: easy one-branch facts.
- MQTT rules the code does not implement ($-topics, empty levels).
- SchemaExtraction.SchemaExtractor.Walk: does not say what the field map holds after a failure, because the caller discards it.
- FieldValueExtraction.FieldValueExtractor.Walk: does not say what the values hold after a failure, because the caller discards them.
- SavedQueryTheorems.TruncatedIffPointsDropped: assumes that the values stored in the window for the requested series have their fields' types, because another value would be silently skipped after it has counted against the limits; WrittenStoresParse shows that every store filled by this system meets the assumption.
- QueriedFields.QueryReturnsTheExtracted: says which points are returned, not how often; the store is modelled as a set of points, so it does not capture that a field's values of two observations with the same tags and time merge into the later written one.
- Points of other measurements in the same bucket: the query filters by measurement before anything else, so its bucket is the measurement of the field points.
