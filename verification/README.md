# Verified model of cf-frappe

cf-frappe keeps every document, outbox, automation run and catalog as an append-only stream, writes with a
compare-and-swap on stream versions, and takes all state from folds of events. This project models the places where
a shortcut, a lease, a search from one root or a commit over several streams has to agree with the plain fold, and
proves that it does, for every input and every interleaving.

Commands that wait between their reads and their commit are methods of classes; at each such point they call
`Interfere`, whose contract is all that is known of other writers. Where a class has the ghost field `quiet`, its
methods also say exactly when they succeed if nobody interferes. The same protocols are step relations over runs of
states, for which the invariants are proved; the methods are proved to take only such steps. Times are integers.

| files | what they model |
|---|---|
| OutboxEvents, OutboxProtocol, OutboxReads, OutboxClaims, OutboxService | the document delivery outbox with compaction checkpoints |
| Documents, FoldSnapshots | document folds, the store, and folds resumed from snapshots |
| UniqueValues, UniqueProtocol, UniqueNames, DocumentService | unique fields kept by reservation streams |
| StreamNames | the names of streams |
| NamingSeries, SeriesCreation | documents named from a counter: the scan, the retry loop of creation, the adjustment of counters |
| AutomationRunEvents, AutomationRunProtocol, AutomationRunService | automation runs: fold, projection, leases, fencing, retries |
| AutomationCascade, AutomationEffects, AutomationRunConsumer | cascades of runs, single effect, delivery |
| Graphs, TableGraphSearch, CustomFields, CustomFieldService, TenantDocTypes | custom fields, the table graph, DocType collection |
| DataPatchJournal, DataPatchPlans, DataPatchService | the order of data patches |
| Workflows, Returns | named workflows, and ReturnsOS as an instance |
| Csv, CsvTable | CSV export and import |

Five findings are stated as theorems, each with an input that shows it and the exact condition. A document with an
empty name can share a unique value, since reading its reservation takes an empty owner for none; uniqueness is kept
exactly for named documents (`UniqueNames.NamelessDocumentShares`, `UniqueNames.NeverSharesIffNamed`). A naming series
whose next name belongs to a deleted document is stuck until somebody moves its counter, since that name is neither
free nor passed over; alone, a creation succeeds exactly when the first number not passed over can be used
(`SeriesCreation.StuckRun`, `SeriesCreation.StaysStuck`, `SeriesCreation.SeriesDocuments.Create`). A run can be
claimed more often than its attempt limit, exactly when an expired claim is taken over after the limit was reached;
only failures are bounded (`AutomationRunProtocol.AttemptsAreUnbounded`,
`AutomationRunProtocol.ClaimsBoundedIffNoTakeover`, `AutomationRunProtocol.RetriesAreBounded`). Overlapping delivery
attempts of a run can both update the target, since the check for an earlier update comes before the version is read;
the update is single exactly when none of them committed between another's check and commit, and always if the version
were read first (`AutomationEffects.OverlapCanApplyTwice`, `AutomationEffects.SingleIffAlone`,
`AutomationEffects.VersionFirstIsSingle`). Two counters of a DocType can share a stream, exactly when one of them has
a colon in it and is the other with the front of its scope (`StreamNames.CountersCanShare`,
`StreamNames.NamingSeriesNamesAgree`).

## Model

| member | source | states |
|---|---|---|
| `OutboxEvents.RecordIdIsInjective` | src/application/document-delivery-outbox-events.ts:139-141 | different (event, target) pairs never get the same outbox id, whatever characters the event id holds |
| `OutboxEvents.RecordIdIsNotCheckpointName` | src/application/document-delivery-outbox-events.ts:38-61 | no outbox id is the document name checkpoints are filed under |
| `OutboxEvents.FoldDocumentDeliveryOutboxFrom` | src/application/document-delivery-outbox-events.ts:190-265 | the loop over events computes the left fold of the working set, onto any initial set |
| `OutboxEvents.FoldDocumentDeliveryOutboxRecordFrom` | src/application/document-delivery-outbox-events.ts:331-409 | the loop over one record's events computes its left fold, keeping delivered records |
| `OutboxEvents.VersionIsHead` | src/application/document-delivery-outbox-events.ts:190-265 | the folded version is the sequence of the last event, checkpoints included |
| `OutboxEvents.OwnEventsFillSlot` | src/application/document-delivery-outbox-events.ts:190-265 | a record's slot in the working set depends on its own events only |
| `OutboxEvents.OwnEventsMakeRecord` | src/application/document-delivery-outbox-events.ts:331-409 | and so does the record fold of the shared stream |
| `OutboxEvents.LifeCycleRecord` | src/application/document-delivery-outbox-events.ts:331-409 | the record fold of a life-cycle word has the status of its last event, and the claim and attempts of its claims |
| `OutboxEvents.LifeCycleClaims` | src/application/document-delivery-outbox-events.ts:331-409 | `attempts` is the number of claim events |
| `OutboxProtocol.StepKeepsWellFormed` | src/application/document-delivery-outbox-service.ts:116-275 | whatever one command commits after a version check keeps the stream well-formed: life cycles, sound checkpoints, consecutive sequences |
| `OutboxProtocol.ReachableIsWellFormed` | src/application/document-delivery-outbox-service.ts:116-275 | every stream that any interleaving of enqueue, claim, deliver and fail produces is well-formed |
| `OutboxProtocol.FoldsAgree` | src/application/document-delivery-outbox-events.ts:190-409 | on such a stream the working set holds a record exactly when the record fold gives that record with a status other than delivered |
| `OutboxProtocol.AtMostOnce` | src/application/document-delivery-outbox-service.ts:116-188 | no outbox id is enqueued twice or delivered twice |
| `OutboxProtocol.CheckpointsAdvance` | src/application/document-delivery-outbox-service.ts:380-420 | a checkpoint sits at sequence `upToSequence + 1`, and `upToSequence` strictly grows along the stream |
| `OutboxProtocol.CheckpointIsNeverHead` | src/application/document-delivery-outbox-service.ts:337-378 | a checkpoint is always followed by the delivery or failure it was committed with |
| `OutboxProtocol.DeliveredIsFinal` | src/application/document-delivery-outbox-service.ts:220-244 | once delivered, the record fold of an id never changes again |
| `OutboxReads.Rehydrate` | src/application/document-delivery-outbox-service.ts:577-624 | one carried record is rebuilt to its state at the checkpoint from a history read at any later time |
| `OutboxReads.TornReadIsFullFold` | src/application/document-delivery-outbox-service.ts:480-624 | a read that resumes from a checkpoint, with the checkpoint, each carried history and the tail read at different times, gives the full fold of the stream as it stands at the tail read |
| `OutboxClaims.ClaimSelectionIsEarliest` | src/application/document-delivery-outbox-service-policy.ts:54-63 | a claim selects exactly the earliest claimable records, in enqueueing order with ids as tie-break, up to the limit |
| `OutboxClaims.WorkingSetIsKeyedById` | src/application/document-delivery-outbox-events.ts:190-265 | the working set of a well-formed stream is keyed by record id |
| `OutboxService.DocumentDeliveryOutboxService.Append` | src/application/document-delivery-outbox-service.ts:430-466 | an append adds all its events if the stream is at the expected version, and nothing otherwise; alone, it succeeds exactly then |
| `OutboxService.DocumentDeliveryOutboxService.LastCheckpoint` | src/application/document-delivery-outbox-service.ts:529-575 | the newest checkpoint of the stream is found by its document name, and none exactly when there is none |
| `OutboxService.DocumentDeliveryOutboxService.CarriedOverRecords` | src/application/document-delivery-outbox-service.ts:577-624 | the carried records as they were at the checkpoint, less those finished since, or nothing if some history does not reach back to it |
| `OutboxService.DocumentDeliveryOutboxService.State` | src/application/document-delivery-outbox-service.ts:480-527 | the working set returned is the full fold of the stream at the moment of the last read, whatever others commit during the call |
| `OutboxService.DocumentDeliveryOutboxService.GetRecord` | src/application/document-delivery-outbox-service.ts:293-304 | one record is what its own events say, delivered included |
| `OutboxService.DocumentDeliveryOutboxService.AppendWithRetry` | src/application/document-delivery-outbox-service.ts:430-466 | a successful call committed one planned step, or had nothing to do; a failed one committed nothing, within five attempts; alone, success is exactly the command's guard on the stream |
| `OutboxService.DocumentDeliveryOutboxService.EnqueueFromDomainEvent` | src/application/document-delivery-outbox-service.ts:116-188 | afterwards every requested target is enqueued, by this call or an earlier one; alone, it always succeeds and adds just the missing ones |
| `OutboxService.DocumentDeliveryOutboxService.ClaimPending` | src/application/document-delivery-outbox-service.ts:190-218 | claims and returns exactly the earliest claimable records up to the limit, as they were when the claim was planned, all held under it; alone, it fails only for a bad limit |
| `OutboxService.DocumentDeliveryOutboxService.Deliver` | src/application/document-delivery-outbox-service.ts:220-244 | delivery succeeds again for a delivered record without committing twice; alone, it succeeds exactly for a record held under the claim or delivered before |
| `OutboxService.DocumentDeliveryOutboxService.Fail` | src/application/document-delivery-outbox-service.ts:246-281 | a failure is recorded only under the claim that holds the record; alone, exactly then |
| `Documents.FoldDocumentFrom` | src/core/events.ts:10-170 | the loop over events computes the left fold of a document |
| `Documents.FoldSplits` | src/core/events.ts:10-170 | folding a tail onto the fold of its prefix is folding the whole stream |
| `Documents.AppendEachGrows` | src/adapters/in-memory/document-store.ts:41-62 | a batch appends to each of its streams that stream's events and changes no other stream |
| `UniqueValues.CanonicalKeyIsInjective` | src/application/document-unique-values.ts:99-125 | two values share a reservation key only if they are the same value of the same type |
| `UniqueValues.UniqueValueReservations` | src/application/document-unique-values.ts:71-97 | the loop over unique fields computes the reservations, or the error of the first value that is not scalar or too long |
| `UniqueValues.ReservationsAreHeldKeys` | src/application/document-unique-values.ts:71-97 | exactly the values a document holds are reserved, each field once |
| `UniqueValues.ReleasedIsDifference` | src/application/document-unique-values.ts:146-156 | released are exactly the reservations the next data no longer make |
| `UniqueValues.ReservedOwner` | src/application/document-unique-values.ts:158-187 | after a reservation event the stream names the document as owner, unless the name is empty: then nobody |
| `UniqueValues.ReleasedOwner` | src/application/document-unique-values.ts:189-196 | after a release event the stream names no owner |
| `UniqueProtocol.SkipMeansHeld` | src/application/document-unique-values.ts:228-248 | a reservation that is skipped, and so not version-checked, is one the document itself holds until the commit |
| `UniqueProtocol.ReserveOnlyWhenFree` | src/application/document-unique-values.ts:228-248 | a commit never takes a reservation from a recorded owner: that branch plans versions that cannot match |
| `UniqueProtocol.GivenUpIsReleased` | src/application/document-unique-values.ts:250-263 | every value a named document gives up is released in the same commit |
| `UniqueProtocol.EntriesAreDistinct` | src/application/document-atomic-commit-policy.ts:39-73 | a commit names each stream once |
| `UniqueProtocol.CommitGrows` | src/application/document-atomic-commit-policy.ts:39-73 | a commit adds one event to the document's stream and to each reservation stream it writes |
| `UniqueProtocol.CommitKeepsConsistent` | src/application/document-service.ts:2204-2279 | one commit planned from reads at different earlier times keeps owners and holders the same |
| `UniqueProtocol.ReachableIsConsistent` | src/application/document-service.ts:591-1411 | in every state of every run a reservation's active owner is D exactly when D is a live document with a name that holds the value |
| `UniqueProtocol.UniqueAmongNamed` | src/application/document-service.ts:591-1411 | no two live documents with names share the value of a unique field |
| `UniqueProtocol.ConflictIsTrue` | src/application/document-unique-values.ts:228-248 | a command refused for a conflict did see another live document holding the value |
| `UniqueNames.NeverSharesIffNamed` | src/application/document-unique-values.ts:127-133 | uniqueness is kept for a document in every run if and only if its name is not empty |
| `UniqueNames.NamelessDocumentShares` | src/application/document-unique-values.ts:127-133 | the run that breaks uniqueness for the empty name |
| `DocumentService.DocumentService.CommitEntries` | src/adapters/in-memory/document-store.ts:41-62 | all expected versions are checked, then everything is appended or nothing |
| `DocumentService.DocumentService.DecideReservation` | src/application/document-service.ts:2204-2233 | one reservation is decided from its stream and, read later, the owner it names |
| `DocumentService.DocumentService.PlanUniqueValueReservationWrites` | src/application/document-service.ts:2204-2242 | every reservation is written or was decided to be skipped, however others commit between the reads |
| `DocumentService.DocumentService.PlanUniqueValueReleaseWrites` | src/application/document-service.ts:2244-2269 | every release is written or was decided to be skipped |
| `DocumentService.DocumentService.CommitDocumentEvent` | src/application/document-service.ts:1031-1056 | a successful commit adds the event to the document as the command had read it; alone, it succeeds exactly when the reservations are free and a created document is new |
| `DocumentService.DocumentService.Create` | src/application/document-service.ts:591-766 | a created document is version 1 with the given data, under a name never used before; owners stay holders; alone, creation succeeds exactly for a new name whose values nobody else holds |
| `DocumentService.DocumentService.Change` | src/application/document-service.ts:870-1057 | an accepted update is the patch applied to the stored document, in a status that allows it; owners stay holders; alone, it is accepted exactly if the status allows it and nobody else holds the new values |
| `DocumentService.DocumentService.Delete` | src/application/document-service.ts:1590-1632 | a deleted document owns no reservation any more; alone, deletion succeeds exactly in a status that allows it |
| `DocumentService.DocumentService.Record` | src/application/document-service.ts:1851-1921 | submission, cancellation and collaboration events change status or version only, in the statuses that allow them, and alone always then |
| `NamingSeries.CountersAdvance` | src/application/document-naming.ts:93-125 | in every run a counter's number only grows, and while it does not its stream does not change |
| `NamingSeries.DocumentRunIsSeriesRun` | src/application/document-service.ts:591-1411 | the commits of the document service move no counter and bring no deleted document back, so its runs are among those the series theorems are about |
| `NamingSeries.NeverIssuedTwice` | src/application/document-service.ts:2329-2381 | no number of a series names two documents |
| `NamingSeries.ScanNamingCandidates` | src/core/naming.ts:216-262 | the loop finds the first number that is not excluded, and fails exactly when none is within the limit, one before it does not render, or the number after it is unsafe |
| `SeriesCreation.CreationIssues` | src/application/document-atomic-commit-policy.ts:39-73 | a creation that commits, however long after its reads, moves the counter to its number and opens the document in one step |
| `SeriesCreation.DeletedNameBlocks` | src/application/document-service.ts:2383-2404 | on a series whose next number not passed over renders a deleted document's name, no creation can use any number |
| `SeriesCreation.StaysStuck` | src/application/document-service.ts:2383-2404 | a stuck series stays stuck in every run until its counter moves |
| `SeriesCreation.StuckRun` | src/application/document-service.ts:2383-2404 | a run that gets a series stuck: a document is created under a name of its own and deleted, and the series starts with that name |
| `SeriesCreation.SeriesDocuments.PlanNamingSeriesWrite` | src/application/document-service.ts:2329-2381 | the candidate is past both the stored number and the one known to be occupied |
| `SeriesCreation.SeriesDocuments.TryCreate` | src/application/document-service.ts:619-764 | one round creates the document, finds its name taken, loses the counter, or fails; alone, each exactly when the store says so |
| `SeriesCreation.SeriesDocuments.Create` | src/application/document-service.ts:591-766 | a created document has a new name from the series, with at most the allowed attempts; on a stuck series only once somebody else has moved the counter; alone, creation succeeds if and only if the first number not passed over can be used, and a failure changes nothing |
| `SeriesCreation.SeriesDocuments.Adjust` | src/application/naming-service.ts:234-301 | a counter is moved forward only; alone, exactly from the expected version to a number not below the current one |
| `StreamNames.DocumentStreamNameIsInjective` | src/core/streams.ts:3-5 | streams of different tenants, DocTypes or documents have different names, whatever characters these hold |
| `StreamNames.UniqueValueNameIsInjective` | src/core/streams.ts:24-31 | reservations of different DocTypes, fields or keys have different names, as names of DocTypes and fields hold no colon |
| `StreamNames.NamingSeriesNamesAgree` | src/core/streams.ts:7-14 | two counters share a stream exactly when they are the same, or one has a colon in it and is the other with the front of its scope |
| `StreamNames.CountersCanShare` | src/core/streams.ts:7-14 | two patterns, each its own counter, that share a stream for one year |
| `FoldSnapshots.BatchIsCommit` | src/application/document-fold-snapshots.ts:66-101 | the document a batch reports is the fold of its stream as committed, wherever its entry stands in the batch and however long before it was read, automation runs after it included |
| `FoldSnapshots.ProjectionIsFold` | src/application/document-lifecycle-events.ts:115-148 | the document a command reports for its event, from what it read and planned, is the one the fold makes of the event |
| `FoldSnapshots.NewestIsFound` | src/adapters/in-memory/snapshot-store.ts:53-70 | after a write the stored snapshot of the stream is at least as new as the one written |
| `FoldSnapshots.DocumentFoldSnapshots.Write` | src/adapters/in-memory/snapshot-store.ts:53-70 | newer snapshots win, and the least recently used are dropped down to the limit |
| `FoldSnapshots.DocumentFoldSnapshots.Read` | src/application/document-fold-snapshots.ts:109-122 | a missing store or a failing read gives no snapshot |
| `FoldSnapshots.DocumentFoldSnapshots.Resume` | src/application/document-fold-snapshots.ts:39-57 | resuming gives the cold fold of the stream for any stale, missing, unreadable or unusable snapshot |
| `FoldSnapshots.DocumentFoldSnapshots.Record` | src/application/document-fold-snapshots.ts:66-101 | recording stores the document a batch reported at its own last sequence, which is a sound snapshot even if others have committed since |
| `AutomationRunEvents.FoldAutomationRunFrom` | src/application/automation-run-events.ts:165-212 | the loop over events computes the left fold of a run |
| `AutomationRunEvents.DecodeInvertsEncode` | src/application/automation-run-events.ts:214-263 | a projected run decodes to the same record exactly when its retry numbers are safe integers |
| `AutomationRunProtocol.RetryDelayGrows` | src/application/automation-run-policy.ts:48-59 | waiting times start at the base, never shrink, and never exceed the maximum |
| `AutomationRunProtocol.RecordOfLegal` | src/application/automation-run-events.ts:284-342 | status, claim, lease, retry time, attempts and version of a run in terms of its stream's events |
| `AutomationRunProtocol.AppendsIffFollows` | src/application/automation-run-service.ts:321-455 | a command appends an event exactly when that event may follow the last one |
| `AutomationRunProtocol.ReachableIffLegal` | src/application/automation-run-service.ts:298-507 | the streams commands can build are exactly those where each event may follow its predecessor |
| `AutomationRunProtocol.FinalIsForever` | src/application/automation-run-service.ts:321-380 | nothing follows a delivery, a dead-lettering or a suppression, in any run |
| `AutomationRunProtocol.OutcomeIsByLatestClaim` | src/application/automation-run-policy.ts:84-88 | every outcome is recorded by the claim directly before it |
| `AutomationRunProtocol.StaleClaimIsFenced` | src/application/automation-run-policy.ts:84-88 | after a newer claim the earlier holder's id appears on no outcome |
| `AutomationRunProtocol.StaleHolderAppendsNothing` | src/application/automation-run-service.ts:321-380 | commands of a holder that was taken over are refused or answered without an event |
| `AutomationRunProtocol.NextClaimWaits` | src/application/automation-run-policy.ts:61-82 | a second claim happens only at or after the lease expiry or the retry time |
| `AutomationRunProtocol.RetriesAreBounded` | src/application/automation-run-consumer.ts:229-291 | consumers with fresh claim ids record at most maxAttempts - 1 failures |
| `AutomationRunProtocol.AttemptsAreUnbounded` | src/application/automation-run-policy.ts:65-82 | for every number there is a run of consumers with fresh claim ids that was claimed that often |
| `AutomationRunProtocol.ClaimsBoundedIffNoTakeover` | src/application/automation-run-policy.ts:61-92 | consumers with fresh claim ids claim a run at most `maxAttempts` times exactly when no expired claim is taken over once the run's record shows its attempts used up |
| `AutomationRunService.AutomationRunService.Enqueue` | src/application/automation-run-service.ts:129-246 | a run starts at version 0 with its projection, suppressed runs dead from the start |
| `AutomationRunService.AutomationRunService.GetRun` | src/application/automation-run-service.ts:273-276 | the run read from its projection is the fold of its stream |
| `AutomationRunService.AutomationRunService.AppendRunEvent` | src/application/automation-run-service.ts:457-507 | the answer is what planning gives on the stream as it was when the event was appended, or when nothing was |
| `AutomationRunService.AutomationRunService.ClaimOne` | src/application/automation-run-service.ts:426-455 | a claim either holds the run, or the run was not due when it was read |
| `AutomationRunService.AutomationRunService.ClaimPending` | src/application/automation-run-service.ts:298-319 | every selected due run is returned under this claim or turned out not to be due |
| `AutomationRunService.AutomationRunService.MarkRunDelivered` | src/application/automation-run-service.ts:321-337 | the answer is the run as delivered, by this call or before |
| `AutomationRunService.AutomationRunService.MarkRunFailed` | src/application/automation-run-service.ts:339-360 | a new failure of this claim is appended |
| `AutomationRunService.AutomationRunService.MarkRunDeadLettered` | src/application/automation-run-service.ts:362-380 | the answer is the run as dead |
| `AutomationCascade.CascadePath` | src/application/automation-run-service.ts:148-155 | a run's depth is its path length, and the path lists the keys of the runs before it and its own |
| `AutomationCascade.LetThroughIff` | src/application/automation-run-service.ts:551-566 | a run is let through exactly when its path is within the depth limit and repeats its own key within the repeat limit |
| `AutomationCascade.PathRepeats` | src/application/automation-run-service.ts:551-566 | no key repeats more often than allowed in the path of a run let through |
| `AutomationCascade.CascadesAreFinite` | src/application/automation-run-service.ts:129-246 | a chain of runs from one ordinary event is at most min(maxDepth, keys * maxPathRepeats) long |
| `AutomationCascade.LiveIffWithinLimits` | src/application/automation-run-service.ts:551-566 | exactly the sequences of actions within both limits can set each other off without suppression |
| `AutomationEffects.SingleEffect` | src/application/automation-run-consumer.ts:173-227 | attempts that do not overlap apply a run's update at most once, crashes after the commit included |
| `AutomationEffects.OverlapCanApplyTwice` | src/application/automation-run-consumer.ts:173-227 | a history of two overlapping attempts that both apply the update, because the check comes before the version is read |
| `AutomationEffects.FirstIffAlone` | src/application/automation-run-consumer.ts:173-227 | whatever overlaps, an update is the run's first exactly when no other attempt on the run committed since its check |
| `AutomationEffects.SingleIffAlone` | src/application/automation-run-consumer.ts:173-227 | whatever overlaps, the update is applied at most once exactly when every attempt that committed did so with nothing of the run committed since its check |
| `AutomationEffects.VersionFirstIsSingle` | src/application/automation-run-consumer.ts:173-227 | with the version read before the check, even overlapping attempts would apply it once |
| `AutomationRunConsumer.AutomationRunConsumer.HasAppliedAction` | src/application/automation-run-consumer.ts:220-227 | whether some target event carries the run's id |
| `AutomationRunConsumer.AutomationRunConsumer.DeliverUpdate` | src/application/automation-run-consumer.ts:173-218 | success means that the target has the run's update, or that the update would have changed nothing |
| `AutomationRunConsumer.AutomationRunConsumer.Fail` | src/application/automation-run-consumer.ts:229-291 | the run is given up exactly when its attempts are used; otherwise a failure is recorded by this consumer |
| `AutomationRunConsumer.AutomationRunConsumer.Deliver` | src/application/automation-run-consumer.ts:143-171 | one attempt, crashes included, leaves at most one update of the run on every target |
| `AutomationRunConsumer.AutomationRunConsumer.Drain` | src/application/automation-run-consumer.ts:120-141 | the outcomes add up to the claimed runs, within the limit |
| `TableGraphSearch.Search.Visit` | src/application/custom-field-policy.ts:305-318 | a visit reports a genuine cycle reachable from the root, or leaves its node done with every edge leading to a node done before |
| `TableGraphSearch.Search.Check` | src/application/custom-field-policy.ts:299-320 | a cycle is reported exactly when one can be reached from the root, and the report is such a cycle |
| `Graphs.OrderHasNoCycle` | src/application/custom-field-policy.ts:299-320 | a node in an order whose edges all point backwards reaches no cycle |
| `CustomFields.FoldIsDistinct` | src/core/custom-fields.ts:60-105 | the fold keeps one entry per field name |
| `CustomFields.BuildTableGraph` | src/application/custom-field-policy.ts:322-350 | the loops collect the table fields of the DocTypes, then the enabled custom table fields |
| `CustomFields.TableGraphEdges` | src/application/custom-field-policy.ts:322-350 | an edge of the graph is a table field of a DocType or an enabled custom one |
| `CustomFields.PendingIsNext` | src/application/custom-field-policy.ts:215-242 | the states checked before a save have the edges the catalog will have after it |
| `CustomFields.OneRootIsEnough` | src/application/custom-field-service.ts:149-154 | if only edges out of one DocType are new and no cycle is reachable from it, the whole graph stays acyclic |
| `CustomFields.AcceptedKeepsAcyclic` | src/application/custom-field-service.ts:130-230 | an accepted save or disabling keeps the tenant's graph acyclic |
| `CustomFields.CatalogStaysAcyclic` | src/application/custom-field-service.ts:130-230 | over every sequence of accepted saves and disablings the graph stays acyclic |
| `CustomFieldService.CustomFieldService.SaveField` | src/application/custom-field-service.ts:130-185 | a save that succeeds stores the field and leaves no cycle reachable from its DocType; racing saves are refused; alone, it succeeds exactly when the field may be declared and its DocType then reaches no cycle |
| `CustomFieldService.CustomFieldService.DisableField` | src/application/custom-field-service.ts:187-230 | a disabling that succeeds leaves the field disabled; alone, it succeeds exactly for a field that was saved |
| `CustomFieldService.CustomFieldService.EffectiveDocType` | src/application/custom-field-service.ts:114-128 | the effective DocType never fails its cycle check for a tenant that started without cycles |
| `TenantDocTypes.Collector.Collect` | src/application/document-tenant-policy.ts:51-64 | collecting a DocType closes it: everything it leads to is collected |
| `TenantDocTypes.Collector.CollectReachable` | src/application/document-tenant-policy.ts:38-64 | exactly the DocTypes reachable by table and link fields are collected, and it fails only for a reachable unknown one |
| `DataPatchJournal.OrderAround` | src/application/data-patch-runner.ts:80-203 | what the order of the journal says below and above each patch |
| `DataPatchJournal.ChangeNewest` | src/application/data-patch-runner.ts:80-123 | first applications, whatever they end in, keep the journal in order |
| `DataPatchJournal.ChangeLast` | src/application/data-patch-runner.ts:125-203 | rolling back the last applied patch keeps the journal in order at each step |
| `DataPatchPlans.SelectDataPatches` | src/application/data-patch-definition-policy.ts:53-75 | exactly the requested patches, in registered order; fails exactly for an empty or unknown request |
| `DataPatchPlans.AssertPredecessorsApplied` | src/application/data-patch-apply-policy.ts:21-49 | passes exactly when no unselected patch blocks a later selected one and all checksums match |
| `DataPatchPlans.PendingPatches` | src/application/data-patch-runner.ts:63-78 | exactly the unrecorded patches; fails exactly when a recorded one is not applied with its checksum |
| `DataPatchPlans.PatchesForApply` | src/application/data-patch-service.ts:154-163 | before each planned patch everything is applied or planned earlier; what was asked for, or under a limit the first unrecorded of it; with the exact condition for a plan |
| `DataPatchPlans.PlanAutomaticRollback` | src/application/data-patch-rollback-policy.ts:100-120 | after each planned patch everything is out or planned earlier; it stops only at the limit or at a patch without rollback, and fails exactly if it gets to an unfinished, failed or changed patch |
| `DataPatchPlans.AssertSuccessorsRolledBack` | src/application/data-patch-rollback-policy.ts:154-180 | passes exactly when everything after the first selected patch is selected, unrecorded or rolled back |
| `DataPatchPlans.PlanSelectedRollback` | src/application/data-patch-rollback-policy.ts:81-98 | succeeds exactly when each selected patch can be rolled back and its successors are out; the plan is the selection reversed |
| `DataPatchService.DataPatchLog.ClaimDataPatch` | src/adapters/in-memory/data-patch-log.ts:54-69 | only an unrecorded patch is claimed |
| `DataPatchService.DataPatchLog.Finish` | src/adapters/in-memory/data-patch-log.ts:71-94 | only the holder of the claim completes or fails a patch or a rollback |
| `DataPatchService.DataPatchLog.RetryFailedDataPatch` | src/adapters/in-memory/data-patch-log.ts:96-100 | exactly a failed patch is forgotten |
| `DataPatchService.DataPatchLog.ClaimDataPatchRollback` | src/adapters/in-memory/data-patch-log.ts:118-135 | only the rollback of an applied patch is claimed |
| `DataPatchService.DataPatchLog.RetryFailedDataPatchRollback` | src/adapters/in-memory/data-patch-log.ts:102-116 | only a failed rollback is claimed again |
| `DataPatchService.DataPatchRunner.Apply` | src/application/data-patch-runner.ts:80-123 | the journal stays in order, applied patches stay applied, and patches outside the plan, or after the one that failed, keep their entries; success leaves every planned patch applied |
| `DataPatchService.DataPatchRunner.Rollback` | src/application/data-patch-runner.ts:125-156 | the journal stays in order, patches outside the plan, or after the one that failed, keep their entries; success leaves every planned patch out |
| `DataPatchService.DataPatchRunner.RetryRollbackFailed` | src/application/data-patch-runner.ts:158-174 | exactly a failed rollback is retried, in order, and no other entry changes |
| `DataPatchService.DataPatchService.Apply` | src/application/data-patch-service.ts:105-108 | any selection, limit, failure or stop keeps the journal in order and changes only what was asked for, at most as many as the limit; success applies the selection, or the first unrecorded of it |
| `DataPatchService.DataPatchService.Rollback` | src/application/data-patch-service.ts:110-113 | any selection, limit, failure or stop keeps the journal in order and changes only patches that could be rolled back, at most as many as the limit; success leaves the selection, or all up to where it stops, out |
| `DataPatchService.DataPatchService.RetryFailed` | src/application/data-patch-service.ts:115-121 | only a failed patch with everything before it applied is retried, no other entry changes, and the journal stays in order, also when the process stops after the failure was forgotten |
| `DataPatchService.DataPatchService.RetryRollbackFailed` | src/application/data-patch-service.ts:123-126 | only a failed rollback with nothing later in is retried, and no other entry changes |
| `Workflows.PlannedFact` | src/core/workflow.ts:192-221 | a planned transition starts in the current state and was granted by a declared one with its role and condition met |
| `Workflows.PlanDomainCommandTransitions` | src/application/document-command-policy.ts:447-507 | the loop plans each transition against the document as those before leave it, and refuses a patch that names a state they do not end in |
| `Workflows.IntentsCarry` | src/application/document-command-policy.ts:447-507 | each workflow ends where its facts lead, or where it was |
| `Workflows.FactsChain` | src/application/document-service.ts:1116-1411 | saving leaves every workflow in the state its facts lead to, each fact declared and starting where the one before ended |
| `Workflows.ExecuteSavesIff` | src/application/document-service.ts:1255-1420 | a command whose plan is accepted is saved exactly when nothing fetched touches a state field its transitions leave alone, and its workflows end where the plan says |
| `Workflows.StatesAreReachable` | src/application/document-field-policy.ts:80-108 | in every stored document each workflow is in a state its declared transitions lead to from the initial one |
| `Returns.SafeMove` | examples/returns/models.ts:297-389 | every allowed transition keeps the return safe |
| `Returns.SafeIntents` | examples/returns/models.ts:390-491 | so do several in one command, judged one after the other |
| `Returns.ReturnsAreSafe` | examples/returns/models.ts:90-100 | in every saved return: inspected means received; refunding means received and passed at least in part; settled means refunded or rejected |
| `Returns.InspectReturnReceives` | examples/returns/models.ts:418-443 | one command receives and inspects, and is saved: the inspection's condition is met by the receipt just planned |
| `Returns.CompleteRefundResolves` | examples/returns/models.ts:469-490 | one command completes the refund and resolves the case, whose condition the refund has just met, and is saved |
| `Csv.ParseCsvCells` | src/application/csv.ts:60-114 | the index loop computes the run of the character machine, and rejects a text that ends inside quotes |
| `Csv.RejectedIffQuotesUnbalanced` | src/application/csv.ts:107-109 | a text is rejected exactly when it holds an odd number of quotes |
| `Csv.RoundTrip` | src/application/csv.ts:16-18 | printed rows of at least one cell parse back to exactly their cells, for all characters |
| `Csv.RoundTripIff` | src/application/csv.ts:60-114 | the cells come back as printed if and only if there is a row and no row is empty |
| `Csv.RowLines` | src/application/csv.ts:60-114 | in every text the parser accepts, the rows start at the front and after each line break preceded by an even number of quotes, and each is numbered 1 plus the line breaks before it, a CRLF counted once |
| `Csv.NeutralizedIsSafe` | src/application/csv.ts:56-58 | a printed string never looks like a formula, and was changed only by one apostrophe if it did |
| `CsvTable.TrimTrailingEmptyRows` | src/application/csv.ts:116-126 | exactly the trailing rows of empty cells are dropped |
| `CsvTable.ValidateHeaders` | src/application/csv.ts:136-147 | headers are accepted exactly when none is empty and none repeats |
| `CsvTable.ParseCsv` | src/application/csv.ts:20-33 | the whole import computes the table of the parsed rows, or fails |
| `CsvTable.TableRoundTrip` | src/application/csv.ts:16-33 | importing an exported table gives its headers and its rows that are not blank |

## Left out

- Transport and storage outside the streams: HTTP, Desk, queues, cron, D1 and Durable Object adapters, the CLI.
- Access: permissions, roles of administrators, shares and redaction; a refused access is a command that does nothing.
- Hooks, schema validation and link validation: the data they leave are arbitrary; a rejection is a command that does nothing.
- SeriesCreation: rendering names and excluding them are arbitrary functions, as are the validation and the reservation writes that accompany a creation; DocumentService models those for a given name. One counter's streams are named by the series, scope and date bucket included.
- Stream names: in the other modules a stream is identified by what its name is built from (a counter's by the joined name), which StreamNames justifies.
- Metadata of events beside what the model names, ids of events, error texts, and the clamping of limits by callers.
- Liveness: nothing says that an outbox record or run is eventually delivered.
- Outbox: `carryOver` is a set, as its order is never used; failure texts arrive trimmed.
- Characters: strings are sequences of code points, so there are no lone surrogates, and the limit on the length of reservation keys counts a character beyond the basic plane once; trimming uses the white space of the language's `trim`.
- AutomationRunEvents.DecodeInvertsEncode: decoding refuses a required text, time or number of the wrong type, which the code renders as text or number instead; encoded runs have none.
- AutomationRunService.AutomationRunService.ClaimPending: takes the listing of candidates as given, in listing order, since paging and the ordering of the projection store are not part of the model.
- AutomationRunConsumer.AutomationRunConsumer.Drain: states the counts, what happens to each run being the contract of `Deliver`; assumes that no other consumer attempts the same runs meanwhile; without that a second update is possible, as stated above.
- AutomationCascade.CascadesAreFinite: is about events without automation metadata of their own; which rules match an event is not modelled, any action may follow any other.
- CustomFields: entries keep the order they were first saved in instead of the order by name, which only decides which of several cycles is reported; naming configuration and field normalisation are not modelled.
- DataPatchService: a patch is named by its position in the registered list; two runners at work at the same time are not modelled, since plans are read before claims are made.
- DataPatchPlans.SelectDataPatches: an id that is not well-formed is refused as unknown.
- Workflows: comparisons other than equality, membership and presence, and conditions on input or actor, are left to an arbitrary oracle; the theorems hold for every one.
- Returns: of the composite commands only two are written out; the others are covered by the theorems on arbitrary commands.
- FoldSnapshots: how a snapshot is copied when stored, since values do not alias in the model.
- Documents.FoldDocumentFrom: leaves out the times of creation and change, the sorting by sequence of events that arrive in order, and legacy workflow events that carry no transition.
