# AmbaGrid delivery guarantees

AmbaGrid collects telemetry from solar sites that are offline for hours at a time. This project models the parts that
must survive crashes, lost replies and repeated deliveries, and proves what they promise in every run. Tables are maps,
sequences and bags; one SQL transaction is one method of a class and one function on the value of the tables, and the
method's contract says it computes that function. Whole-system properties are proved of machines whose steps are those
functions, with crashes allowed between any two of them; lemmas named `...IsRun` show that the classes' loops are runs of
the machines. Modules named `...Effects`, and `SmsAcceptance`, say of single operations what they do to each table, row by
row and condition by condition, in terms of the tables alone. Times are integer milliseconds. Strings stand for bytes, so a
length is a byte count; only the septet count of an SMS takes each character for one Unicode code point, as the source's
loop over runes does.

| file | what it holds |
|---|---|
| `EdgeModel.dfy`, `EdgeStore.dfy`, `EdgeTransactions.dfy` | the edge agent's SQLite database: every queue, incident, attempt, debounce and heartbeat transaction |
| `QueueLaws.dfy`, `QueueEffects.dfy` | byte admission with its reserve, replay provenance, restart recovery; what each queue transaction writes |
| `Uploader.dfy`, `RoundEffects.dfy` | batches, replies, retries, and when draining terminates; what a round writes to every row |
| `Ingestion.dfy`, `Wire.dfy`, `WireEffects.dfy` | the ingestion service's handler and what it accepts; the request the edge builds, the reply it reads, and the exchange as pipeline steps |
| `Pipeline.dfy`, `PipelineSteps.dfy`, `PipelineRuns.dfy` | edge, network and topic as one machine with lost replies, late publication and crashes |
| `EndToEnd.dfy`, `DeliveryEffects.dfy` | that machine joined with the engine's ingest transaction: failures, redelivery, all other platform traffic; what a first delivery does |
| `SmsLimits.dfy`, `Heartbeats.dfy`, `Coordinator.dfy`, `SmsEffects.dfy` | the SMS budgets and the coordinator's poll; when an SMS is called for |
| `Debounce.dfy`, `DebounceRuns.dfy`, `Collector.dfy`, `CollectorEffects.dfy` | alarm conditions, durable and in memory, and the collection loop; what handling a reading writes |
| `Platform.dfy`, `PlatformLaws.dfy`, `AlertStore.dfy`, `AlertEffects.dfy` | alerts reached by SMS and by replay, in any order; what a reading, an SMS and a replay do to them |
| `Payments.dfy`, `PaymentEffects.dfy` | the prepaid-energy ledger; what a payment buys and writes |
| `SiteHealth.dfy` | SMS liveness and site status |
| `SmsMessages.dfy`, `SmsAcceptance.dfy`, `Cursor.dfy`, `KeysetWalk.dfy`, `Text.dfy`, `Prelude.dfy` | runs folded over steps; the SMS codecs (section 6.2.1 of 3GPP TS 23.038 for message length), event keys, pagination cursors and the keyset walk |

## Where the code falls short of the property

- Draining does not progress when the service rejects a record, before its last try, with a text of more than 2048 bytes:
  the store refuses to write the rejection, so the record stays ready. `Uploader.HandledRecordIsGated` gives the exact
  condition, `Uploader.OversizedReplyExists` an input. Every other answered round spends tries, whatever the clock does
  (`Uploader.RoundSpendsTries`), and that is why draining ends.
- Debounce does not hold over every reading taken: an alarm can be raised although its device was read healthy within the
  debounce period. `DebounceRuns.DebouncedExactly` says when it holds for an alarm: exactly if no clear of its condition was
  lost since the start, and exactly if every clearing reading since the start had its clear written.
  `DebounceRuns.LossIsACrashOrAFailedDelete` says which steps lose a clear: a crash with the clear still in hand, and a
  durable delete that fails, because the collector then returns and keeps the old start. `InterruptedClearIsNotDebounced`
  and `FailedDeleteIsNotDebounced` are runs of the two kinds that raise the alarm.
- A printed message whose time is before one second after the epoch is refused by the platform;
  `SmsMessages.CriticalRoundTrip` and `SmsMessages.HeartbeatRoundTrip` state the round trip as an equivalence.
- An event key with a sequence above 2^63-1 is printed but not parsed by the engine (`SmsMessages.EventKeyRoundTrip`).
- A site can be reported offline while an unexpired heartbeat is stored. `SiteHealth.NeverHiddenExactly` says for which
  delivery logs of any number of sites that never happens to a site: exactly those in which every heartbeat stored for it with
  its latest contact also expires last, contact plus two and a half intervals. One interval for all gateways of the site
  suffices (`CommonIntervalExpiresInOrder`);
  `SiteHealth.ShorterIntervalHidesLonger` is a site with two gateways that is reported offline.
- The comment on the uploader's failure path says that only explicit per-record rejections consume the abandonment budget.
  A client error with a JSON body decodes as a response that lists nothing, and a record the response forgot is treated as
  rejected. `Uploader.BudgetChargedExactly` says when a try is consumed, `Uploader.OnlyNamedChargedExactly` for which replies
  the comment is right, `Uploader.EmptyReplyCharges` is the failing reply, and `Wire.RefusedExactly` says which of the
  ingestion service's own answers cost a try: 400 and 413 to the whole batch, and for one record a failed validation or a
  publication that was not confirmed, the service's own outage included.

## Model

| member | source | states |
|---|---|---|
| EdgeStore.Store.constructor | services/edge-agent-go/internal/repository/sqlite/schema.go:228-251 | opening a database file leaves exactly the reopened database: interrupted records recovered first, incidents rebuilt second |
| EdgeStore.Store.Add | services/edge-agent-go/internal/repository/sqlite/mutations.go:29-96 | one insert under validation, size, filesystem, disk, payload and reserve checks; on refusal nothing is written |
| EdgeStore.Store.MarkPending | services/edge-agent-go/internal/repository/sqlite/mutations.go:105-107 | persisted becomes pending_upload; repeated marking is accepted; anything else is refused unchanged |
| EdgeStore.Store.Complete | services/edge-agent-go/internal/repository/sqlite/mutations.go:146-193 | acknowledgement, delivery mark of the incident and sync state in one transaction |
| EdgeStore.Store.GiveUp | services/edge-agent-go/internal/repository/sqlite/mutations.go:195-236 | a pending record becomes abandoned with its counters and the abandoned count; repeats add nothing |
| EdgeStore.Store.Fail | services/edge-agent-go/internal/repository/sqlite/mutations.go:343-399 | a failure reschedules one record and flags the whole undelivered queue for replay; an oversized cause is refused |
| EdgeStore.Store.PurgeTerminal | services/edge-agent-go/internal/repository/sqlite/mutations.go:315-333 | only terminal rows persisted before the cutoff are deleted |
| EdgeStore.Store.Ready | services/edge-agent-go/internal/repository/sqlite/queries.go:14-83 | the batch is a prefix of the eligible records, non-empty whenever any is eligible, and cut only by the count or the byte target |
| EdgeStore.EligibleListed | services/edge-agent-go/internal/repository/sqlite/queries.go:18-45 | the ready query lists only pending, due, head-of-line records, as stored, in sequence order |
| EdgeStore.EligibleComplete | services/edge-agent-go/internal/repository/sqlite/queries.go:18-45 | every pending, due, head-of-line record is listed |
| EdgeStore.Store.OpenFallbackIncident | services/edge-agent-go/internal/repository/sqlite/fallback.go:52-71 | an unsendable event is refused with nothing written; otherwise insert-or-ignore, and the result says which |
| EdgeStore.Store.ResolveFallbackIncident | services/edge-agent-go/internal/repository/sqlite/fallback.go:73-81 | every unresolved incident of the asset and code is resolved, others are untouched |
| EdgeStore.Store.ReserveFallbackAttempt | services/edge-agent-go/internal/repository/sqlite/fallback.go:243-270 | the attempt row, the incident count and the next-attempt time change together, or nothing does |
| EdgeStore.Store.RecordFallbackAttempt | services/edge-agent-go/internal/repository/sqlite/fallback.go:201-241 | the outcome is written to a reserved attempt only; the first success time is kept |
| EdgeStore.Store.SaveDebounceCondition | services/edge-agent-go/internal/repository/sqlite/fallback.go:299-307 | insert-or-ignore: a stored start is never moved |
| EdgeStore.Store.ReserveHeartbeatAttempt | services/edge-agent-go/internal/repository/sqlite/heartbeat.go:44-66 | pruning and insertion commit together under a fresh sequence |
| QueueLaws.EveryTransactionKeepsLimits | services/edge-agent-go/internal/repository/sqlite/mutations.go:45-68 | undelivered bytes stay within the payload capacity and normal bytes within the normal limit, whatever transaction the store commits |
| QueueLaws.OtherTransactionsEvolve | services/edge-agent-go/internal/repository/sqlite/mutations.go:105-293 | no transaction but an insert ever raises the undelivered bytes, in total or of the normal priority |
| QueueLaws.ReserveAdmitsCritical | services/edge-agent-go/internal/repository/sqlite/capacity.go:15-25 | a critical event passes the byte checks whenever critical bytes plus its own fit in the reserve |
| QueueLaws.ReportedStateIsHonest | services/edge-agent-go/internal/repository/sqlite/queries.go:179-193 | full or filesystem-low means every insert is refused, normal-suspended means every normal one is |
| QueueLaws.EveryTransactionKeepsProvenance | services/edge-agent-go/internal/repository/sqlite/mutations.go:70-399 | while any flagged record is undelivered every later insert is flagged too, whatever transaction the store commits, restart included |
| QueueLaws.OutageMarksForever | services/edge-agent-go/internal/repository/sqlite/mutations.go:343-399 | one recorded upload failure, or one restart, marks every record not yet settled as a replay for good, whatever transactions follow |
| QueueLaws.ReopenEvolves | services/edge-agent-go/internal/repository/sqlite/mutations.go:271-293 | restart recovery loses no record and revives no terminal one |
| PipelineRuns.RestartStrandsNothing | services/edge-agent-go/internal/repository/sqlite/mutations.go:271-293 | after a crash at any point of any run every record that is neither acknowledged nor abandoned is pending upload and marked as a replay |
| QueueLaws.RebuildRepresents | services/edge-agent-go/internal/repository/sqlite/fallback.go:30-45 | rebuilding keeps one unresolved incident per asset and code and gives every undelivered critical record its own or an unresolved one |
| QueueLaws.ReopenRepresents | services/edge-agent-go/internal/repository/sqlite/fallback.go:14-50 | after opening from any crash point the incident table is complete and free of duplicates |
| QueueLaws.CodesCoveredForever | services/edge-agent-go/internal/repository/sqlite/fallback.go:14-29 | after any transactions, restarts included, a record lacks the critical code it was queued with only if an incident of an earlier record stands for its asset and code |
| QueueLaws.CrashDuringRecovery | services/edge-agent-go/internal/repository/sqlite/schema.go:228-251 | a crash between the statements of recovery leads to the same database once recovery is repeated |
| QueueEffects.BytesAreWeights | services/edge-agent-go/internal/repository/sqlite/mutations.go:61-64 | the byte count is zero for an empty table and moves with one record's payload as that record starts or stops being owed |
| QueueEffects.RefusedUnlessAdmitted | services/edge-agent-go/internal/repository/sqlite/mutations.go:29-69 | an insert succeeds exactly if the event can be stored, is not too large, and fits the filesystem, the disk and the payload limits |
| QueueEffects.RefusalReason | services/edge-agent-go/internal/repository/sqlite/mutations.go:29-69 | a refusal names the first limit that fails, in the order of the checks |
| QueueEffects.InsertWrites | services/edge-agent-go/internal/repository/sqlite/mutations.go:70-96 | an admitted event is one new row under the next sequence, live unless an outage is being replayed; a refused one changes nothing |
| QueueEffects.ReleaseWrites | services/edge-agent-go/internal/repository/sqlite/mutations.go:242-269 | releasing turns a persisted record pending and clears its retry state; anything else stays |
| QueueEffects.PurgeDeletes | services/edge-agent-go/internal/repository/sqlite/mutations.go:315-333 | purging deletes exactly the settled rows persisted before the cutoff |
| QueueEffects.CompletedExactly | services/edge-agent-go/internal/repository/sqlite/mutations.go:146-193 | a record is completed from pending, and again once acknowledged, exactly; otherwise nothing is written |
| QueueEffects.AbandonedExactly | services/edge-agent-go/internal/repository/sqlite/mutations.go:195-236 | a record is given up from pending exactly; giving it up again counts nothing |
| QueueEffects.FailureRecordedExactly | services/edge-agent-go/internal/repository/sqlite/mutations.go:343-399 | a failure is recorded exactly for a pending record and a text of one to 2048 bytes; otherwise nothing is written |
| QueueEffects.StateReportedExactly | services/edge-agent-go/internal/repository/sqlite/queries.go:179-193 | each of the five reported states holds exactly for its own reason and none of those before it |
| QueueEffects.EligibleIsReady | services/edge-agent-go/internal/repository/sqlite/queries.go:18-45 | a record is listed exactly if it is pending, due, and nothing of its device was queued earlier and is still owed |
| QueueEffects.RestartRows | services/edge-agent-go/internal/repository/sqlite/mutations.go:271-293 | on restart every owed record is pending and marked, and loses its code exactly if an earlier incident stands for it and it has none of its own |
| QueueEffects.RestartElsewhere | services/edge-agent-go/internal/repository/sqlite/mutations.go:271-293 | restart keeps sequences, attempts, debounce rows, heartbeats and incidents, and replay mode tells whether anything is pending |
| QueueEffects.RestartIncidents | services/edge-agent-go/internal/repository/sqlite/fallback.go:30-45 | an incident that restart adds is that of an owed record with its code, as measured and queued, with nothing yet heard of it |
| Uploader.RetryDoubles | services/edge-agent-go/internal/uploader/uploader.go:233-239 | the delay starts at the base and doubles with each attempt until it stays at the ceiling |
| Uploader.HandledRecordIsGated | services/edge-agent-go/internal/uploader/uploader.go:129-214 | a handled record can be sent again at once if and only if its rejection text was too long for the store and it was not the last try |
| Uploader.RoundProgress | services/edge-agent-go/internal/uploader/uploader.go:94-171 | an answered round removes from the ungated set exactly its batch minus the oversized rejections |
| Uploader.RoundSpendsTries | services/edge-agent-go/internal/uploader/uploader.go:129-214 | whatever the clock shows, an answered round never gives a try back, and spends none exactly if every rejection of its batch is oversized, when it changes no row |
| Uploader.OversizedRoundSpins | services/edge-agent-go/internal/uploader/uploader.go:195-214 | with oversized rejection texts for every record of a batch a round changes no queue row and leaves all of it ready, so draining does not progress |
| Uploader.OversizedReplyExists | services/edge-agent-go/internal/repository/sqlite/mutations.go:343-347 | a concrete reply and record for which that happens |
| Uploader.BudgetChargedExactly | services/edge-agent-go/internal/uploader/uploader.go:129-214 | handling a pending record consumes exactly one try if the response decoded without accepting it and the rejection was written, and none otherwise |
| Uploader.OnlyNamedChargedExactly | services/edge-agent-go/internal/uploader/uploader.go:129-176 | only a rejection naming the record consumes its try, exactly when the request failed as a whole, accepted the record or named it |
| Uploader.EmptyReplyCharges | services/edge-agent-go/internal/uploader/uploader.go:160-170 | a response that lists nothing consumes a try of every record, and the last one abandons it |
| Uploader.Client.UploadBatch | services/edge-agent-go/internal/uploader/uploader.go:94-127 | one request applies the whole round to the store: contact state and every record of the batch, with the clock read when the batch is chosen, sent and settled |
| Uploader.Client.HandleOne | services/edge-agent-go/internal/uploader/uploader.go:149-222 | accepted completes, a last rejection abandons, anything else reschedules, and failures count against the incident |
| Uploader.Client.DrainOnce | services/edge-agent-go/internal/uploader/uploader.go:78-92 | draining is a sequence of rounds, each on the batch chosen from what the one before left; it terminates for every server answering within the size limit and every clock, ends only with an empty batch or a failed request, and unless a request failed nothing was left ready when the last batch was chosen |
| RoundEffects.RetryIsBackoff | services/edge-agent-go/internal/uploader/uploader.go:233-239 | the next try lies at the base delay, doubled once per earlier attempt and never above the maximum, after the failure |
| RoundEffects.BatchIsReady | services/edge-agent-go/internal/repository/sqlite/queries.go:14-83 | a chosen batch holds distinct pending rows as stored |
| RoundEffects.BatchIsLongest | services/edge-agent-go/internal/repository/sqlite/queries.go:46-83 | the batch is the longest run of ready records within the count and the byte target, the first one taken whatever its size |
| RoundEffects.RoundSettlesBatch | services/edge-agent-go/internal/uploader/uploader.go:94-222 | after a round of any kind every batch row is what the reply makes of it: rescheduled, acknowledged, abandoned, or, its rejection being too long to write, unchanged; no other row changes but for a replay mark |
| RoundEffects.FailedRoundReschedules | services/edge-agent-go/internal/uploader/uploader.go:173-222 | after a failed request every batch row is pending with one attempt more, no rejection more, the error cut to 2048 bytes and the next try after the backoff, and the whole undelivered queue is marked and in replay mode |
| RoundEffects.RoundSettlesIncidents | services/edge-agent-go/internal/uploader/uploader.go:224-231 | a delivered record marks its incident delivered, a failed one counts against an open and undelivered incident, and no other incident changes |
| RoundEffects.RoundRecordsContact | services/edge-agent-go/internal/uploader/uploader.go:107-127 | a round leaves the contact state, the abandoned count and replay mode that its outcome calls for, and every other table as it was |
| Ingestion.Service.HandleIngest | services/ingestion-go/internal/ingest/handler.go:78-186 | authentication, body, decoding and queue report are checked in this order; the contact is recorded before any record is looked at and whatever becomes of them; an unrecorded contact fails the call |
| Ingestion.Service.IngestRecords | services/ingestion-go/internal/ingest/handler.go:131-186 | the loop publishes, accepts and rejects record by record, and the status says whether all, some or none were accepted |
| Ingestion.AcceptedIsStored | services/ingestion-go/internal/ingest/handler.go:134-166 | an accepted sequence belongs to a valid record of the authenticated site that is on the topic |
| Ingestion.StoredIsOwn | services/ingestion-go/internal/ingest/handler.go:134-166 | nothing malformed or of another site reaches the topic |
| Ingestion.EveryRecordCounted | services/ingestion-go/internal/ingest/handler.go:134-166 | accepted and rejected together account for every record of the request |
| Ingestion.RejectionsAreDeserved | services/ingestion-go/internal/ingest/handler.go:134-166 | rejections name records that were not accepted, under their own index, each once, in order |
| Ingestion.UnacceptedIsRejected | services/ingestion-go/internal/ingest/handler.go:134-166 | a record that was not accepted is rejected with its reason |
| Wire.StoredAreRecords | services/edge-agent-go/internal/uploader/client.go:87-107 | what a request adds to the topic is records of the batch, field for field as the edge sent them and in order |
| Wire.ServingIsRun | services/ingestion-go/internal/ingest/handler.go:78-186 | however its publications end, the whole exchange is a run of the pipeline: the topic gains what was stored and the edge holds a reply that accepts nothing else |
| Wire.RefusedExactly | services/edge-agent-go/internal/uploader/client.go:139-165 | a record is refused a try exactly if the call was answered 400 or 413, or was served and this record failed validation or was not confirmed |
| WireEffects.ValidUnlessComplaint | services/ingestion-go/internal/ingest/handler.go:205-261 | a record is valid exactly if none of the fourteen complaints applies |
| WireEffects.ServedExactly | services/ingestion-go/internal/ingest/handler.go:78-129 | a call is served exactly if it is an authenticated batch with a consistent queue report and a recorded contact; each refusal status has its one reason |
| WireEffects.AcceptedExactly | services/ingestion-go/internal/ingest/handler.go:134-166 | in a served batch a sequence is accepted exactly if nothing is wrong with its record, it is the site's own, and its publication was confirmed |
| WireEffects.StoredAt | services/ingestion-go/internal/ingest/handler.go:134-166 | the topic gains exactly the faultless records of the site that Kafka took, confirmed or not |
| WireEffects.RejectionReason | services/ingestion-go/internal/ingest/handler.go:134-166 | a rejection is named for a fault of the record, else for its site, else for the failed publication |
| WireEffects.AnswerReadExactly | services/edge-agent-go/internal/uploader/client.go:139-165 | the edge takes 401 and server errors for a failed request, any other refusal for an answer that lists nothing, and a served call at its word |
| WireEffects.RecordPassesExactly | services/edge-agent-go/internal/uploader/client.go:87-107 | a well-formed stored record passes the service's validation exactly if its device and topic are not blank and its code, asset and value agree |
| WireEffects.StoredRecordsPass | services/ingestion-go/internal/ingest/handler.go:205-261 | after any transactions of the edge store, restarts included, whose inserted events agree in that way, the service has no complaint about any stored record |
| DeliveryEffects.WireCarriesMessage | services/edge-agent-go/internal/uploader/client.go:87-107 | the wire record is the pipeline's message field by field, names its sender, and tells its code by a name no other code has |
| PipelineSteps.HandleStepKeepsInv | services/edge-agent-go/internal/uploader/uploader.go:129-222 | completing, abandoning or rescheduling one batch record keeps the whole pipeline invariant, whether or not the write succeeds |
| PipelineSteps.CrashStepKeepsInv | services/edge-agent-go/internal/repository/sqlite/schema.go:228-251 | a crash and restart at any point keeps the invariant |
| PipelineSteps.InsertStepKeepsInv | services/edge-agent-go/internal/repository/sqlite/mutations.go:29-96 | an insert at any point keeps the invariant |
| PipelineRuns.AcknowledgedMeansPublished | services/edge-agent-go/internal/repository/sqlite/mutations.go:146-193 | in every run with crashes, lost replies and redelivery, every acknowledged record is on the topic, and the topic holds only what was inserted |
| EndToEnd.AppliedAtMostOnce | services/engine-rust/src/adapters/postgres/ingest_repo.rs:57-137 | with failing ingest transactions, redelivery and all other traffic, every inserted record is decided on at most once, as inserted, and its reading is stored exactly once if it was and never otherwise |
| EndToEnd.OneAlertPerRecord | services/engine-rust/src/adapters/postgres/ingest_repo.rs:567-714 | and at most one alert is opened for it, announced once |
| EndToEnd.FailedDeliveryIsRetriable | services/engine-rust/src/adapters/postgres/ingest_repo.rs:57-137 | a failed ingest leaves nothing behind, its claim included, so the same delivery can still be applied |
| EndToEnd.AcknowledgedIsDeliverable | services/edge-agent-go/internal/repository/sqlite/mutations.go:146-193 | an acknowledged record is, as inserted, still on the topic in every joint run, and one ingest of it that succeeds decides on it |
| EndToEnd.EdgeRunsEmbed | services/edge-agent-go/internal/uploader/uploader.go:62-127 | every run of the edge is the edge's part of a joint run |
| EndToEnd.PlatformRunsEmbed | services/engine-rust/src/adapters/postgres/ingest_repo.rs:57-137 | every run of the platform on traffic that is not the gateway's continues any joint run |
| DeliveryEffects.DeliveryIsStored | services/engine-rust/src/adapters/postgres/ingest_repo.rs:57-76 | the first delivery of an uncoded record notes its asset under the type the record names, stores the reading once under the event key, and moves nothing at the edge |
| DeliveryEffects.HotDeliveryAlerts | services/engine-rust/src/domain/rules.rs:129-147 | an uncoded record at or above its device's threshold leaves an alert of its own or an open one of the device: a known one, or exactly one new one dated when it was measured |
| DeliveryEffects.CodedDeliveryAlerts | services/engine-rust/src/adapters/postgres/ingest_repo.rs:84-99 | a coded record of the right asset type is stored as replayed under its key and linked to an alert of the kind its code stands for |
| PipelineRuns.SettledInOrder | services/edge-agent-go/internal/repository/sqlite/queries.go:18-45 | within a device records become terminal in insertion order, whatever is interleaved |
| PipelineRuns.NothingLost | services/edge-agent-go/internal/repository/sqlite/mutations.go:195-333 | every record ever inserted is owed, acknowledged or abandoned, never two of these, and only settled records are purged |
| PipelineRuns.AbandonedOnlyAfterRefusals | services/edge-agent-go/internal/uploader/uploader.go:195-214 | in every run a stored record has consumed at most MaxRetries tries, exactly MaxRetries if and only if it is abandoned, which took that many decoded responses that failed to accept it; the abandoned count is exact |
| PipelineRuns.QueueKeptInEveryRun | services/edge-agent-go/internal/repository/sqlite/mutations.go:45-80 | byte limits, replay provenance and one unresolved incident per asset and code hold in every reachable state |
| PipelineRuns.SettledForever | services/edge-agent-go/internal/repository/sqlite/mutations.go:146-236 | however a run goes on, acknowledged, abandoned and purged are for ever, what was inserted stays what it was, and nothing leaves the topic |
| PipelineRuns.RoundIsRun | services/edge-agent-go/internal/uploader/uploader.go:94-222 | a whole round of the uploader class is a run of the machine, so every law above applies to it |
| PipelineRuns.OtherTransactionsAreOffQueue | services/edge-agent-go/internal/repository/sqlite/fallback.go:52-316 | every transaction on incidents, attempts, debounce rows and heartbeats leaves the queue alone and keeps one unresolved incident per asset and code |
| Coordinator.Coordinator.constructor | services/edge-agent-go/internal/fallback/coordinator.go:73-84 | the constructor forces attempts into 1..3 and the retry interval up to its minimum |
| SmsEffects.ClampedExactly | services/edge-agent-go/internal/fallback/coordinator.go:16-21 | attempts outside one to three become three, a retry interval below the minimum becomes the minimum, and nothing else is changed |
| SmsLimits.WindowLimits | services/edge-agent-go/internal/fallback/coordinator.go:108-176 | in every run no one-hour or 24-hour window holds more reservations or transmissions than its limit, with crashes between reserve, send and record and any clock |
| SmsLimits.IncidentLimits | services/edge-agent-go/internal/repository/sqlite/fallback.go:243-270 | an incident gets at most MaxAttempts reservations over its life, a retry interval apart, and its column counts them exactly |
| SmsLimits.ThreeAttemptsSpanTheWindow | services/edge-agent-go/internal/fallback/coordinator.go:11-21 | three attempts of one incident span at least fifteen minutes |
| SmsLimits.StoreStepKeepsInv | services/edge-agent-go/internal/repository/sqlite/fallback.go:52-118 | no other transaction of the store can break the budget |
| SmsLimits.OtherTransactionsAreFrames | services/edge-agent-go/internal/repository/sqlite/mutations.go:29-399 | every transaction but reserving and recording leaves attempts and the SMS columns of incidents alone, and new incidents start without attempts |
| Coordinator.FallbackCandidates | services/edge-agent-go/internal/repository/sqlite/fallback.go:120-169 | the candidates are exactly the unresolved, undelivered, unsent incidents, oldest first, with the counts of this moment |
| Coordinator.Coordinator.RunOnce | services/edge-agent-go/internal/fallback/coordinator.go:108-157 | one poll takes its candidates in turn and then sends a heartbeat exactly if one is due and can be printed, under the next sequence |
| Coordinator.Coordinator.AttemptFirst | services/edge-agent-go/internal/fallback/coordinator.go:121-151 | one candidate is skipped, or reserved, sent and recorded, with both running counters |
| Coordinator.WholePollIsRun | services/edge-agent-go/internal/fallback/coordinator.go:108-157 | a poll, candidates and heartbeat, is at once a run of the rate-limiting machine and of the heartbeat machine over one database, so both budgets hold across polls and processes |
| SmsEffects.CandidatesExactly | services/edge-agent-go/internal/repository/sqlite/fallback.go:120-169 | the candidates are all incidents neither resolved, delivered nor texted, oldest first, as they looked when the poll began |
| SmsEffects.TextedExactly | services/edge-agent-go/internal/fallback/coordinator.go:121-132 | an incident can be texted exactly if its asset, code, measurement and time can be told in one segment |
| SmsEffects.ReservedExactly | services/edge-agent-go/internal/fallback/coordinator.go:108-176 | the next candidate is reserved exactly if the platform is out of reach for it, every limit leaves room, it has waited long enough, its text can be printed and the write succeeds; otherwise nothing is written |
| SmsEffects.RecordingEnds | services/edge-agent-go/internal/repository/sqlite/fallback.go:201-241 | an outcome marks the attempts of that moment, keeps the first success time and puts a failed incident off by the retry interval |
| SmsEffects.TurnSendsExactly | services/edge-agent-go/internal/fallback/coordinator.go:108-157 | a whole turn makes one reservation, one transmission and one record under exactly those conditions, and otherwise does nothing |
| SmsEffects.EveryAttemptWasCalledFor | services/edge-agent-go/internal/fallback/coordinator.go:108-176 | in every run each reservation was made in a poll that found its incident unresolved, undelivered and untexted, with enough failed uploads or no successful one for long enough |
| Heartbeats.HeartbeatLimits | services/edge-agent-go/internal/repository/sqlite/heartbeat.go:14-66 | despite pruning and whatever the clock does, no 24-hour window holds more heartbeats than the limit, no sequence is used twice, and attempts are in time order |
| Heartbeats.OtherTransactionsAreFrames | services/edge-agent-go/internal/repository/sqlite/heartbeat.go:14-66 | no other transaction of the store touches heartbeat attempts |
| Heartbeats.HeartbeatsOfOneOutageApart | services/edge-agent-go/internal/fallback/heartbeat.go:107-126 | successive heartbeats of one outage are at least the smaller of interval and retry interval apart |
| Coordinator.Coordinator.RunHeartbeat | services/edge-agent-go/internal/fallback/heartbeat.go:79-105 | a due heartbeat is reserved before it is formatted; the modem is asked exactly if it is due and can be printed, and an unprintable one is recorded as failed |
| SmsEffects.DueExactly | services/edge-agent-go/internal/fallback/heartbeat.go:107-126 | a heartbeat is due exactly if nothing was uploaded for long enough, the daily limit leaves room, and the last one belongs to an earlier outage or lies far enough back |
| SmsEffects.BeatReservedExactly | services/edge-agent-go/internal/repository/sqlite/heartbeat.go:44-66 | a due heartbeat gets a fresh sequence at the moment of the poll, with nothing older than a week kept; one that is not due leaves everything |
| SmsEffects.BeatTextedExactly | services/edge-agent-go/internal/fallback/heartbeat.go:30-51 | a heartbeat can be texted exactly if its identities are plain, it is numbered, its interval is whole seconds from one minute to one day, and it fits in one segment |
| SmsEffects.BeatWrites | services/edge-agent-go/internal/fallback/heartbeat.go:79-105 | a poll adds one heartbeat with its outcome if one is called for, and nothing otherwise |
| SmsEffects.BeatRecorded | services/edge-agent-go/internal/repository/sqlite/heartbeat.go:68-86 | an outcome marks the heartbeat of its sequence and nothing else |
| SmsEffects.EveryBeatWasCalledFor | services/edge-agent-go/internal/fallback/heartbeat.go:79-126 | in every run each heartbeat was reserved in a poll that found it due |
| Debounce.ReadingIsDecisiveOneWay | services/edge-agent-go/internal/collector/collector.go:192-271 | no reading both raises and clears the same alarm |
| DebounceRuns.MemoryMirrorsTable | services/edge-agent-go/internal/collector/collector.go:231-285 | memory and the durable table hold the same conditions with the same starts, and an alarm remembered as opened has its unresolved incident |
| DebounceRuns.RestartKeepsConditions | services/edge-agent-go/internal/collector/collector.go:92-105 | a crash at any point loses no condition and moves no start |
| DebounceRuns.AlarmsAreDebounced | services/edge-agent-go/internal/collector/collector.go:231-246 | every alarm rests on a condition seen at least its debounce period earlier and cleared by no write since, restarts included |
| DebounceRuns.DebouncedExactly | services/edge-agent-go/internal/collector/collector.go:231-285 | no clearing reading was taken between start and alarm exactly if no clear was lost, and exactly if every clearing reading had its clear written |
| DebounceRuns.LossIsACrashOrAFailedDelete | services/edge-agent-go/internal/collector/collector.go:273-285 | a clear is lost exactly by a crash with it still in hand or by a delete that fails |
| DebounceRuns.UninterruptedAlarmsAreDebounced | services/edge-agent-go/internal/collector/collector.go:127-285 | in a run in which no step loses a clear, no alarm is raised for a condition that a reading since its start had cleared |
| DebounceRuns.InterruptedClearIsNotDebounced | services/edge-agent-go/internal/collector/collector.go:127-169 | a run with a crash that raises an alarm although the device was read healthy in between |
| DebounceRuns.FailedDeleteIsNotDebounced | services/edge-agent-go/internal/collector/collector.go:273-285 | the same without a crash, after a failed delete |
| DebounceRuns.OtherTransactionsAreFrames | services/edge-agent-go/internal/repository/sqlite/mutations.go:29-399 | queue, attempt and heartbeat transactions neither touch debounce rows nor open or resolve incidents |
| Collector.Collector.RestoreDebounceState | services/edge-agent-go/internal/collector/collector.go:92-105 | restoring reads back every stored condition, opened when its incident is unresolved |
| Collector.Collector.OpenOnce | services/edge-agent-go/internal/collector/collector.go:231-246 | an examined alarm is tracked from now on if its start could be saved, and due once it has lasted long enough and is not open yet |
| Collector.Collector.PersistAlarm | services/edge-agent-go/internal/collector/collector.go:171-190 | record, incident, release for upload and memory follow in this order, each only if the one before succeeded, whichever write fails |
| Collector.Collector.Resolve | services/edge-agent-go/internal/collector/collector.go:273-285 | the durable row, memory and the incident are cleared in this order; a failed delete leaves all three |
| Collector.Collector.CollectOnce | services/edge-agent-go/internal/collector/collector.go:127-169 | a collection pass handles nothing until the stored conditions have been read back, then its usable readings one by one, whichever of their writes fail |
| Collector.HandlingIsRun | services/edge-agent-go/internal/collector/collector.go:127-169 | handling a reading is a run of the debounce machine |
| Collector.PassIsRun | services/edge-agent-go/internal/collector/collector.go:127-169 | a whole pass, reading back included, is a run of that machine |
| CollectorEffects.ChecksExactly | services/edge-agent-go/internal/collector/collector.go:192-229 | a reading is examined for exactly the codes it is active for, once each and in order, with the period and the value each code demands |
| CollectorEffects.ClearsExactly | services/edge-agent-go/internal/collector/collector.go:256-271 | and clears exactly the codes it is healthy for |
| CollectorEffects.ReadingIsExamined | services/edge-agent-go/internal/collector/collector.go:231-246 | after examination each active condition that could be saved is tracked since its first sighting, a saved start is never overwritten, and exactly the checks that have waited out their period and are not already out are due |
| CollectorEffects.PlainReadingIsQueued | services/edge-agent-go/internal/collector/collector.go:149-190 | a reading with no alarm due becomes exactly one row under the next sequence, pending if released and persisted if not, whenever the store has room; else the queue stays as it was |
| CollectorEffects.AlarmsAreQueued | services/edge-agent-go/internal/collector/collector.go:152-190 | each due alarm in turn becomes one critical row with its code and value if the store has room, opens an incident unless one is open, is pending and remembered exactly if incident and release were written; clearing starts from there |
| CollectorEffects.FormatsExactly | services/edge-agent-go/internal/repository/sqlite/fallback.go:52-71 | an alarm opens an incident only if its SMS can be told in one segment: plain identities, a temperature exactly for an overheating battery, the site exactly for a site outage |
| CollectorEffects.HealthyReadingClears | services/edge-agent-go/internal/collector/collector.go:256-285 | each condition the reading is healthy for leaves memory and table unless its delete fails, and its open incidents end then and there |
| CollectorEffects.SilentConditionStays | services/edge-agent-go/internal/collector/collector.go:256-285 | a condition the reading says nothing about is left alone, with its incidents |
| CollectorEffects.EveryQuietSampleIsQueued | services/edge-agent-go/internal/collector/collector.go:127-169 | in a pass over any batch, the row of every usable reading with no alarm due and room in the store is in the table when the pass ends |
| CollectorEffects.EveryHandledSampleStays | services/edge-agent-go/internal/collector/collector.go:127-169 | and so is every row that was queued while handling any usable reading |
| SmsMessages.GsmSeptets | services/edge-agent-go/internal/fallback/message.go:108-117 | the loop counts septets of the GSM 7-bit alphabet, two for an extension character |
| SmsMessages.SplitSmsMessage | services/api-go/internal/webhook/sms.go:105-130 | the parsing loop returns the fields in order, or the first error |
| SmsMessages.TemperatureRoundTrip | services/edge-agent-go/internal/fallback/message.go:79-92 | a printed temperature parses back rounded to one decimal, at most a twentieth of a degree away |
| SmsMessages.CriticalRoundTrip | services/api-go/internal/webhook/sms.go:162-209 | every printable critical event fits one segment and parses back as the same event if and only if its time is at least one second after the epoch |
| SmsMessages.HeartbeatRoundTrip | services/api-go/internal/webhook/sms.go:132-160 | the same for heartbeats, with the declared interval |
| SmsMessages.EventKeyRoundTrip | services/engine-rust/src/adapters/postgres/ingest_repo.rs:154-176 | the engine parses a printed key to the same site and sequence exactly for sequences 1 to 2^63-1 and a non-empty site |
| SmsMessages.EventKeysDistinct | services/edge-agent-go/internal/fallback/message.go:48-50 | distinct events have distinct keys |
| SmsAcceptance.CriticalAcceptedExactly | services/api-go/internal/webhook/sms.go:105-209 | a text is accepted as a critical event exactly if it is one segment, its keys are those of the code in their one order, and its values tell that event |
| SmsAcceptance.HeartbeatAcceptedExactly | services/api-go/internal/webhook/sms.go:105-160 | and as a heartbeat exactly if it is the one-segment text of a heartbeat's fields in their order |
| SmsAcceptance.FormattedExactly | services/edge-agent-go/internal/fallback/message.go:56-92 | an incident can be printed exactly if its identities are tokens, it is numbered and dated, temperature and site asset fit its code, and its text fits in one segment; the text is the one accepted |
| SmsAcceptance.BeatFormattedExactly | services/edge-agent-go/internal/fallback/heartbeat.go:30-51 | a heartbeat likewise, for whole seconds from one minute to one day |
| SmsAcceptance.KeyReadExactly | services/engine-rust/src/adapters/postgres/ingest_repo.rs:154-176 | the engine reads a text as a record's key exactly if it is the prefix, a site and, after the last colon, a positive 64-bit number |
| SmsAcceptance.SeptetsCounted | services/edge-agent-go/internal/fallback/message.go:108-117 | each character anywhere in a text counts one septet, or two if it is one of the nine extension characters |
| SmsAcceptance.TenthsExactly | services/edge-agent-go/internal/fallback/message.go:79-92 | a temperature is printed to the nearest tenth of its size, halfway to the even one |
| SmsAcceptance.PrintedTemperatureExactly | services/edge-agent-go/internal/fallback/message.go:79-92 | with a sign only if negative and exactly one digit after the point |
| SmsAcceptance.DecimalReadExactly | services/api-go/internal/webhook/sms.go:162-209 | a temperature is read from a decimal with at most one sign |
| SmsAcceptance.UnsignedDecimalReadExactly | services/api-go/internal/webhook/sms.go:162-209 | a decimal is digits around at most one point, at least one in all, and its value is theirs over that power of ten |
| SmsAcceptance.SignedReadExactly | services/api-go/internal/webhook/sms.go:162-209 | a 64-bit number is a numeral in range with at most one sign |
| SmsAcceptance.UnsignedReadExactly | services/api-go/internal/webhook/sms.go:162-209 | an unsigned 64-bit number is a numeral in range and nothing else |
| Cursor.UnescapeField | services/api-go/internal/page/page.go:45-66 | the unescaping loop computes the specification for every input |
| Cursor.Encode | services/api-go/internal/page/page.go:30-37 | the encoding loop joins the escaped fields of every input |
| Cursor.UnescapeInvertsEscape | services/api-go/internal/page/page.go:40-66 | unescaping undoes escaping, separators and backslashes included |
| Cursor.DecodeInvertsEncode | services/api-go/internal/page/page.go:30-91 | decoding undoes encoding for all non-empty fields, if and only if the expected count matches |
| Cursor.Decode | services/api-go/internal/page/page.go:69-91 | the decoding loop returns the fields or the error of the specification |
| Cursor.UnescapedReads | services/api-go/internal/page/page.go:45-66 | a field reads as it stands up to its first escape; there the two escapes are read, and any other, or one at the end, stands too |
| Cursor.DecodedExactly | services/api-go/internal/page/page.go:69-91 | a token decodes to given fields exactly if it is the version and as many non-empty parts that read as them |
| KeysetWalk.PageIsSlice | services/api-go/internal/repository/postgres/alerts.go:86-158 | a page is the stretch of at most limit rows just past the cursor, stops short only at the end, and its cursor names its last row |
| KeysetWalk.ListingRefusedExactly | services/api-go/internal/repository/postgres/alerts.go:86-158 | a listing is refused exactly for a token that is no cursor of its width |
| KeysetWalk.WalkReturnsTheTable | services/api-go/internal/page/page.go:94-100 | following cursors over an unchanging table returns every row once, in order, and ends |
| KeysetWalk.WalkReturnsEachRowOnce | services/api-go/internal/page/page.go:94-100 | when rows come and go between pages, every row present throughout is returned exactly once |
| AlertStore.Database.ReceiveSMS | services/api-go/internal/services/fallback.go:33-117 | the transaction commits the whole outcome of the arrival or leaves every table as it was |
| AlertStore.Database.IngestReading | services/engine-rust/src/adapters/postgres/ingest_repo.rs:57-137 | claim, asset, reading and alert decision commit together or not at all |
| AlertStore.Database.FindOrCreate | services/engine-rust/src/adapters/postgres/ingest_repo.rs:605-627 | the alert of the source, else the open one of its asset and kind, else a new one |
| AlertStore.Database.RecordCriticalReplay | services/engine-rust/src/adapters/postgres/ingest_repo.rs:232-269 | a new row is inserted, an identical one stamped, any other refused |
| AlertStore.Database.Resolve | services/api-go/internal/repository/postgres/alerts.go:194-231 | an open alert is resolved with its history row and message; anything else is refused unchanged |
| PlatformLaws.AlertLifecycle | services/engine-rust/src/adapters/postgres/ingest_repo.rs:567-714 | one open alert per site, asset and kind; one opened message per alert; one resolved message and history row per resolved alert, and no others |
| PlatformLaws.ResolvedNeverReopens | services/api-go/internal/repository/postgres/alerts.go:194-231 | a resolved alert keeps its resolution whatever arrives later |
| PlatformLaws.AutomaticResolutionIsEarned | services/engine-rust/src/domain/rules.rs:154-164 | in every run an alert the engine resolved has a reading of its own site and asset that arrived while it was open, below its asset type's threshold minus the margin |
| PlatformLaws.Hysteresis | services/engine-rust/src/domain/rules.rs:129-164 | with a non-negative margin a resolving reading lies more than the margin below any opening one |
| PlatformLaws.ReadingsAppliedOnce | services/engine-rust/src/adapters/postgres/ingest_repo.rs:66-76 | a repeated delivery stores its reading once, exactly when its identity is claimed |
| PlatformLaws.OneAlertPerEvent | services/api-go/internal/services/fallback.go:33-117 | one alert and one opened message per event key, and one fallback row whose alert never changes |
| PlatformLaws.ArrivalOrderIrrelevant | services/engine-rust/src/adapters/postgres/ingest_repo.rs:84-99 | SMS first or replay first, with any steps in between, links the event to the same alert |
| PlatformLaws.AcceptedSmsReplays | services/engine-rust/src/adapters/postgres/ingest_repo.rs:183-205 | whatever the SMS path accepts, the replay path accepts too |
| PlatformLaws.ReplayAfterSmsStamps | services/engine-rust/src/adapters/postgres/ingest_repo.rs:232-297 | a replay after its SMS only stamps the row: no alert, no message |
| PlatformLaws.KnownSmsRefusedExactly | services/api-go/internal/services/fallback.go:119-142 | once an SMS was accepted, a later one under its key is refused if and only if its identity or its receipt conflicts, whatever came in between, and leaves no trace |
| PlatformLaws.ConflictingReplayRefused | services/engine-rust/src/adapters/postgres/ingest_repo.rs:232-269 | a conflicting replay changes nothing, its claim and any alert it opened included |
| AlertEffects.ReadingIsStored | services/engine-rust/src/adapters/postgres/ingest_repo.rs:57-76 | a new delivery that is taken stores its claim, its asset and its reading once, and touches no SMS table |
| AlertEffects.HotReadingAlerts | services/engine-rust/src/domain/rules.rs:129-147 | at or above its type's threshold a reading finds an alert of its own source or an open one of its asset and kind and changes nothing, or opens exactly one, announced once |
| AlertEffects.RepeatedReadingIsNothing | services/engine-rust/src/adapters/postgres/ingest_repo.rs:66-72 | a delivery taken before changes nothing, whatever it carries |
| AlertEffects.CoolReadingResolves | services/engine-rust/src/domain/rules.rs:154-164 | below threshold minus margin no alert of its asset and kind stays open, the one that was is resolved with its reason, and no other alert changes |
| AlertEffects.CoolReadingAnnounces | services/engine-rust/src/adapters/postgres/ingest_repo.rs:675-714 | that resolution is written once to the history and once to the outbox |
| AlertEffects.LukewarmReadingIsQuiet | services/engine-rust/src/domain/rules.rs:129-164 | in between, or without a temperature, no alert changes |
| AlertEffects.ReadingRefusedExactly | services/engine-rust/src/adapters/postgres/ingest_repo.rs:57-137 | an uncoded delivery is refused exactly for an unknown site, or for opening a threshold alert on the reserved site asset |
| AlertEffects.AlertInsertedExactly | services/engine-rust/src/adapters/postgres/ingest_repo.rs:567-603 | an alert is inserted exactly for a known site and asset, the reserved one exactly for a site outage, unless one of its asset and kind is open or an edge record's already exists |
| AlertEffects.FirstSmsAlerts | services/api-go/internal/services/fallback.go:33-117 | a first SMS that is accepted is stored with its receipt and linked to an alert of the kind its code stands for: its own, the open one, or one new one |
| AlertEffects.FirstSmsAcceptedExactly | services/api-go/internal/services/fallback.go:33-142 | a first SMS is accepted exactly if its asset is known at the site and may raise the code, its temperature is there when it must be, and its row and receipt fit; a matching asset is never refused |
| AlertEffects.FirstReplayAlerts | services/engine-rust/src/adapters/postgres/ingest_repo.rs:84-99 | the first replay of an event is stored stamped and linked to an alert of the kind its code stands for |
| AlertEffects.ReplayNeedsOwnKey | services/engine-rust/src/adapters/postgres/ingest_repo.rs:183-205 | an alarm reading whose source is not the key of a record of its own site is refused |
| AlertEffects.ReplayAcceptedExactly | services/engine-rust/src/adapters/postgres/ingest_repo.rs:183-297 | with such a key a replay is taken exactly if its event is stored with the same identity, or neither key nor record is stored and its alert is known or may be opened |
| AlertEffects.ReplayRowExactly | services/engine-rust/src/adapters/postgres/ingest_repo.rs:232-269 | a replay row is inserted if the tables allow it, stamped if the same row is linked to the same alert, and refused otherwise |
| AlertEffects.CodedReadingIsAlarm | services/engine-rust/src/domain/rules.rs:36-80 | a coded reading is that alarm exactly if its asset type may raise the code and a battery alarm carries its temperature; otherwise it is treated as uncoded |
| AlertEffects.UserResolves | services/api-go/internal/repository/postgres/alerts.go:194-231 | a user closes an open alert once, with the words given; anything else is refused unchanged |
| Payments.PaymentService.ApplyPayment | services/api-go/internal/services/payments.go:73-186 | the transaction writes everything a first payment needs, returns what is stored for a repeat, and changes nothing on failure |
| Payments.PaymentService.ReplayPriorResult | services/api-go/internal/repository/postgres/payments.go:334-389 | a repeat only reads |
| Payments.BalancesAreSums | services/api-go/internal/repository/postgres/payments.go:84-90 | in every run each balance has grown by exactly the sum of its credits, in energy and money |
| Payments.OneCreditPerPayment | services/api-go/internal/repository/postgres/payments.go:22-30 | one payment per provider and reference, and exactly one credit per payment, for its amount |
| Payments.RepeatReturnsStored | services/api-go/internal/services/payments.go:75-86 | an identical repeat succeeds under any tariff or assignment, returns the stored rows and writes nothing |
| Payments.RepeatAgreesWithFirst | services/api-go/internal/repository/postgres/payments.go:334-389 | first result and any later repeat agree on payment, credit and reconnect |
| Payments.MismatchRefusedForever | services/api-go/internal/services/payments.go:188-202 | after a success, any later command under the same reference is refused if and only if it disagrees with the stored payment; either way nothing changes |
| Payments.ReconnectsCounted | services/api-go/internal/services/payments.go:146-158 | in every run there are exactly as many reconnects as new payments that lifted an empty balance of an open relay above zero |
| Payments.EnergyIsWorthTheAmount | services/api-go/internal/services/payments.go:119-122 | the energy granted is worth the amount paid, to half of the stored precision |
| PaymentEffects.CreditedEnergyIsWorth | services/api-go/internal/services/payments.go:119-145 | the energy that any successful first payment grants is worth the amount at the price of the directory's tariff, to half of the stored precision |
| PaymentEffects.FirstPaymentWrites | services/api-go/internal/services/payments.go:87-186 | a first payment adds one payment as commanded, one credit that names the directory's tariff and assignment, and one audit row |
| PaymentEffects.FirstPaymentBalances | services/api-go/internal/repository/postgres/payments.go:84-90 | the balance of the assignment grows by the credited energy and the amount; every other balance stays |
| PaymentEffects.FirstPaymentReconnects | services/api-go/internal/services/payments.go:146-158 | a reconnect is commanded, announced and audited exactly if the relay is open and the balance held no energy; payment and credit are announced either way |
| PaymentEffects.FirstPaymentAccepted | services/api-go/internal/services/payments.go:73-126 | a command under a new reference succeeds exactly if it is complete and confirmed, the customer has an assignment and a usable tariff in its currency, and the amount buys a stored unit of energy |
| PaymentEffects.EveryCreditIsWorthItsPayment | services/api-go/internal/services/payments.go:119-145 | in every run each credit is that of the step that first used its payment's reference, names that step's tariff, and its energy is worth the amount at that tariff |
| SiteHealth.RowsPersist | services/api-go/internal/services/heartbeat.go:17-38 | redelivery, reordering and conflicts never move a stored heartbeat |
| SiteHealth.RowsAreStores | services/api-go/internal/domain/heartbeat.go:24-47 | every stored contact and expiry is that of one delivery that stored it |
| SiteHealth.HeartbeatKeysDistinct | services/api-go/internal/domain/heartbeat.go:30-36 | over all sites and gateways, heartbeats the webhook accepts have the same key only if site, gateway and sequence are the same |
| SiteHealth.DeliveredIsStored | services/api-go/internal/services/heartbeat.go:17-38 | of a heartbeat delivered in a consistent log of any number of sites, however often, one delivery stored it |
| SiteHealth.EverySiteIsListed | services/api-go/internal/repository/postgres/sites.go:57-62 | whatever is stored, each site is listed with the expiry of a latest heartbeat of its own, or with none |
| SiteHealth.RegularGatewayUnexpired | services/api-go/internal/domain/heartbeat.go:24-28 | for every delivery log with repeats and reordering, heartbeats leaving at most two intervals apart and arriving in time leave an unexpired row at every moment between them |
| SiteHealth.RegularGatewayNeverOffline | services/api-go/internal/services/sites.go:56-71 | so such a gateway is never reported offline between them |
| SiteHealth.HiddenUnlessLatestExpiresLast | services/api-go/internal/repository/postgres/sites.go:57-62 | for every table and site, ties included: the site is never listed offline while one of its heartbeats is unexpired, exactly if each of its latest contacts expires last |
| SiteHealth.NeverHiddenExactly | services/api-go/internal/repository/postgres/sites.go:57-62 | the same for every delivery log of any number of sites, in terms of the contacts and intervals delivered for the site |
| SiteHealth.ShorterIntervalHidesLonger | services/api-go/internal/repository/postgres/sites.go:57-62 | a log of heartbeats the webhook accepts, a site and a time at which an unexpired heartbeat is stored and the site is offline under every threshold |
| SiteHealth.MarkHealth | services/api-go/internal/services/sites.go:36-53 | listing fills in the status of every item and nothing else |
| SiteHealth.ReportedExactly | services/api-go/internal/services/sites.go:59-71 | a site is live exactly with recent contact, fresh events and a queue that does not grow, and offline exactly without recent contact and without an unexpired heartbeat |
| SiteHealth.DeliveryWrites | services/api-go/internal/services/heartbeat.go:17-56 | one delivery writes a row vouching from the earlier clock for two and a half intervals, and a receipt; it is refused exactly for a conflict of key, columns or provider id, and then writes nothing |

## Left out

- Uploader.Client.DrainOnce: requires rejection texts the store accepts, because beyond that length draining does not terminate, and that nothing else is queued meanwhile; `Uploader.RoundSpendsTries` covers every reply.
- SiteHealth.RegularGatewayNeverOffline: requires one interval for all heartbeats of that site, a gateway clock that is behind by no more than the slack, and sequences and provider ids that are not reused; without the first it is false.
- EndToEnd.AppliedAtMostOnce: requires that only the site's own gateway publishes under its event keys, which the ingestion service's authentication is for.
- SmsMessages.CriticalRoundTrip: the platform's decimal parser is modelled for plain decimals only, without exponents, hexadecimal digits or infinities; the printer never produces those.
- Payments.EnergyIsWorthTheAmount: uses exact reals for the quotient that the service computes in floating point, then the column's rounding to six decimals.
- Statement-level interleaving of two database transactions, including the lost race on inserting a payment: every transaction is one atomic step.
- Failures of SQLite, Postgres or the filesystem beyond a write that does not happen, and commits whose outcome is unknown.
- Overflow of 64-bit capacity arithmetic and of stored counters.
- The order in which restart recovery visits rows: the statement names none, and the model uses sequence order.
- `MarkUploaded`, `Ack` and `Expire`: the agent never calls them, so the uploaded and expired states are never reached.
- Queue statistics other than the state classification, rate-limit statistics and the monthly SMS budget warning.
- Disk, page and WAL measurement: free and used bytes are inputs of each insert.
- Reading and normalizing: the collector is given each reading with its normalized event, or that it is unusable.
- Configuration changes between restarts, site identity checks and schema migrations: one valid configuration and site for a whole run.
- Sub-millisecond time.
- JSON, protobuf, base64url (section 5 of RFC 4648) and time formatting: taken as inverse pairs.
- Unicode white space: trimming is modelled for ASCII.
- Sender identity, signatures, API keys, HTTP, MQTT and modem commands; message texts of rejections are inputs.
- Kafka offsets: the topic is a set from which anything may be delivered any number of times.
- Claims on the outbox: messages are counted where they are written.
- Meter state tables of the engine: a stored reading is represented by its source identity.
- The lookups of assignment and tariff: a payment is given what they answer; emergency advances and manual adjustments of balances are not modelled.
