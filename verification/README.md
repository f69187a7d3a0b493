# The at-least-once order pipeline, verified

An order event is published to a partitioned Kafka log or an SQS queue. A consumer claims its event ID in
PostgreSQL, writes the order, notifies a downstream service, marks the claim completed, and only then acknowledges
the message. Calls fail, processes crash between any two of these steps, messages come again, and what cannot be
handled goes to a dead-letter queue (DLQ). This project models that pipeline and proves what it keeps over whole
runs. `dafny verify dfyconfig.toml` checks everything.

## How it is built

- **Tables** (`OrderTables`). `orders` and `processed_events` are maps; `store`, `mark_completed` and `discard` are
  three atomic functions on them, and methods of the class `PostgresOrderStore`. Each applies as a whole, is refused by
  a constraint, or raises before or after taking effect. The claim insert may be taken as atomic by section 13.2.1 of
  the PostgreSQL 16 documentation (Read Committed): `ON CONFLICT DO NOTHING` waits for a concurrent claim to end.
- **Kafka protocol** (`KafkaProtocol`). One partition and its consumer as a transition system; a step is one external
  call. `committed` is the broker's offset and survives a crash. `position` lives in the consumer: a poll advances it
  whatever becomes of the record, and only a new consumer sets it back. `KafkaInvariants` is what every step keeps,
  `KafkaHistory` what a run has done, `KafkaTheorems` the guarantees over whole runs, `KafkaRefinement` the comparison
  with one fault-free pass (`Fold`).
- **Consumer class** (`KafkaOrderConsumer`). The imperative `process_one`, with its poll loop and its retry loop, driven
  by an arbitrary fault oracle. Its contract is that it is a run of the protocol whose calls fail as the oracle says.
  `KafkaCall` and `KafkaEvidence` hold the theorems about one call, `NotificationClient` the HTTP client's inner loop.
- **Many partitions** (`Partitions`, `KafkaCluster`). The partitions' consumers interleave over one database at the
  granularity of transactions.
- **Workers** (`ConsumerControls`, `KafkaWorker`, `SqsWorker`). The continuous loops, which read the pause flag and use
  the same consumer again after an error, interleaved with the dashboard's writes to the flag.
- **SQS** (`SqsProtocol`, `SqsTheorems`, `SqsOrderConsumer`). Any number of competing workers, visibility that may expire
  in the middle of a call, stale receipt handles, redrive after `maxReceiveCount` receives.
- **Publisher and API** (`OrderPublisher`, `EndToEnd`). Concurrent requests on one shared producer, and the way from a
  202 to the order's row or its dead letter.
- **Test helpers** (`TopicNames`, `EventProbe`, `Eventually`).

## What the code does not keep

The design decisions and the contracts promise more than the code keeps in five places. The model follows the code;
each place has a witness and the exact condition.

- D-033 (docs/decisions.md:285-290) has a failure leave the offset uncommitted, so that the record is delivered again.
  That needs a new consumer: the local worker polls on with the old one, whose position has moved past the record, and
  the next commit acknowledges both. `LossIff` gives the exact condition, `WorkerCanLose` the run; with a new consumer
  after every error the promise holds, `RebuildLosesNothing` and `RedeliveredBeforePassed`.
- D-042 (docs/decisions.md:348-353) has the clean-up discard an event's pending rows. It also removes a completed order
  when `mark_completed` raised after taking effect, or when `store` of a redelivered, completed event raised.
  `RevokedExactlyBy` and `RevocableIff` say when; `CompletionIsPermanent` says what rules it out.
- The returned `duplicate` (src/order_app/order_processing/kafka_order_consumer.py:63-74) is meant for an event seen
  before. When a store call writes its row and then raises, the retry finds its own row, and `duplicate` is true for a
  first delivery: `EvidenceIsTrue` for one call, `FalseDuplicateIff` for a configuration.
- Every positive amount passes the event contract, but one below half a cent rounds to zero and breaks
  `CHECK (amount > 0)`: `AcceptedAmounts`. It is never stored, `RefusedValuesNeverStored`, and is dead-lettered,
  `TinyAmountIsDeadLettered`.
- A request may be answered 503 although its own record is in the log, because `flush` counts everyone's records:
  `DeliveredButRefusedIff` and `RefusedIff` say exactly when, `LoggedButUnavailable` shows it.

## Model

| member | source | states |
|---|---|---|
| OrderTables.AcceptedAmounts | src/order_app/order_processing/postgres_order_store.py:71 | the `amount` column takes exactly the amounts whose value rounded half up to cents is positive and fits NUMERIC(18, 2), that is 0.005 <= amount < 10^16 - 0.005; a smaller positive amount is a valid event that can never be stored |
| OrderTables.StoredIffFits | src/order_app/order_processing/postgres_order_store.py:68-78 | which new orders the columns and constraints accept, in explicit terms: in matched tables an unclaimed event is stored, with exactly its two rows, if and only if 0.005 <= amount < 10^16 - 0.005, no ID contains NUL and no row has its order ID |
| OrderTables.StoreKeepsMatched | src/order_app/order_processing/postgres_order_store.py:95-157 | `store` keeps the two tables matched: each claim has exactly one order that names it, and conversely |
| OrderTables.MarkKeepsMatched | src/order_app/order_processing/postgres_order_store.py:159-185 | `mark_completed` keeps them matched |
| OrderTables.DiscardKeepsMatched | src/order_app/order_processing/postgres_order_store.py:187-209 | `discard` keeps them matched and leaves no row of its event in either table |
| OrderTables.UnclaimedHasNoTrace | src/order_app/order_processing/postgres_order_store.py:187-209 | in matched tables an event without a claim has no order row either, so discarding it changes nothing |
| OrderTables.DiscardRemovesOnePair | src/order_app/order_processing/postgres_order_store.py:187-209 | discarding a claimed event removes exactly one row from each table |
| OrderTables.CountsAgree | src/order_app/order_processing/postgres_order_store.py:287-313 | `order_count` equals `processed_event_count` in matched tables |
| OrderTables.OtherEventsUntouched | src/order_app/order_processing/postgres_order_store.py:105-209 | handling one event leaves every row of every other event alone, even when both carry the same order ID |
| OrderTables.DiscardUndoesStore | src/order_app/order_processing/postgres_order_store.py:187-209 | for an event that was not claimed, `discard` undoes `store`, and `store` followed by `mark_completed` |
| OrderTables.EveryInterleavingMatches | src/order_app/order_processing/postgres_order_store.py:95-209 | from empty tables, any interleaving of the three transactions by any number of workers keeps the tables matched and equally long |
| OrderTables.BystandersUntouched | src/order_app/order_processing/postgres_order_store.py:95-209 | no sequence of transactions on other events changes the rows of a given event |
| OrderTables.PostgresOrderStore.Initialize | src/order_app/order_processing/postgres_order_store.py:54-93 | missing tables are created empty, existing ones keep their rows |
| OrderTables.PostgresOrderStore.Store | src/order_app/order_processing/postgres_order_store.py:95-157 | claim and order row are written together or not at all; the reply says whether the event was new and whether downstream work remains; a call that does not raise stores a new order exactly if amount, texts and order ID fit, as `StoredIffFits` spells out, and otherwise a broken constraint rolls back; an exception leaves the rows as they were or fully written |
| OrderTables.PostgresOrderStore.MarkCompleted | src/order_app/order_processing/postgres_order_store.py:159-185 | sets the claim to completed, or raises for an unknown event; an exception leaves it untouched or fully done |
| OrderTables.PostgresOrderStore.Discard | src/order_app/order_processing/postgres_order_store.py:187-209 | deletes the event's rows from both tables, in one transaction |
| KafkaProtocol.StepCommits | src/order_app/order_processing/kafka_order_consumer.py:219-254 | each step of a `process_one` commits at most one transaction, which depends on the step and the message in hand and never on the tables |
| KafkaInvariants.OrderlyStep | src/order_app/order_processing/kafka_order_consumer.py:158-322 | every step keeps the offsets and the stage facts: the message in hand is the last one polled, notify and mark_completed run on a pending row, publication only without a claim, and a commit only after a dead letter or with the event completed |
| KafkaInvariants.SoundAlways | src/order_app/order_processing/kafka_order_consumer.py:158-322 | these facts and the matched tables hold after every run, whatever fails and wherever the process crashes |
| KafkaHistory.AccountedAlways | src/order_app/order_processing/kafka_order_consumer.py:181-282 | after every run each offset the group or the running consumer has passed is settled (completed at some time, or dead-lettered with acknowledgement), in hand, or one whose call raised while the consumer polled on |
| KafkaHistory.BalancedAlways | src/order_app/order_processing/kafka_order_consumer.py:224-241 | exact accounting of the downstream effect: successful notifications of an event = completions lost after a notification + discards of its completed row + 1 if it is completed + 1 if it is between notification and completion |
| KafkaHistory.TraceableAlways | src/order_app/order_processing/kafka_order_consumer.py:284-312 | after every run each DLQ record is a faithful copy, there are at most as many per offset as deliveries that no longer await one, and each order row was written for a delivered record |
| KafkaTheorems.TablesAlwaysMatch | src/order_app/order_processing/postgres_order_store.py:287-313 | the two tables match and are equally long after every Kafka run |
| KafkaTheorems.LostOnlyIfSkipped | src/order_app/order_processing/kafka_order_consumer.py:181-256 | a record below the committed offset that was neither completed nor dead-lettered is one whose `process_one` raised while the same consumer polled on, and a later record has been committed |
| KafkaTheorems.RebuildLosesNothing | docs/decisions.md:285-290 | if every error is followed by a new consumer, every record below the committed offset was completed at some time or has an acknowledged DLQ record, with or without a DLQ configured and whatever fails |
| KafkaTheorems.RedeliveredBeforePassed | src/order_app/order_processing/kafka_order_consumer.py:250-256 | redelivery: a record whose call raised before its commit took effect is polled again before the group passes it, if the consumer is rebuilt after errors |
| KafkaTheorems.LossIff | src/order_app/local_lab/consumer_worker.py:53-63 | exact condition: some run loses the record at an offset if and only if the worker polls on after errors and a later record can be committed, which with a DLQ is any later record, and without one an order that can be completed under another event ID |
| KafkaTheorems.LosingRun | src/order_app/local_lab/consumer_worker.py:53-63 | the witness: under that condition a run without any crash that loses the record |
| KafkaTheorems.NotifiedExactlyOnce | src/order_app/order_processing/kafka_order_consumer.py:224-231 | when nothing fails or crashes between a notification and its completion and `store` never raises for another reason than a constraint, a completed event has been notified exactly once, any other not at all (once if between the two) |
| KafkaTheorems.RevokedExactlyBy | src/order_app/order_processing/kafka_order_consumer.py:232-249 | a completed row disappears exactly at a `discard` that takes effect in a `process_one` for the same event whose `store` raised, or whose `mark_completed` raised after taking effect |
| KafkaTheorems.CompletionIsPermanent | src/order_app/order_processing/kafka_order_consumer.py:223-249 | if `store` raises only for constraints and a raising `mark_completed` leaves the row alone, a completed event stays completed through every continuation |
| KafkaTheorems.RevocableIff | src/order_app/order_processing/kafka_order_consumer.py:232-249 | exact condition: some run deletes a completed order again if and only if a DLQ is configured and the log holds a storable order |
| KafkaTheorems.RefusedValuesNeverStored | src/order_app/order_processing/postgres_order_store.py:68-74 | an order whose values the columns refuse in every record that carries its event ID never has a row, in any run, and is never completed |
| KafkaTheorems.PublishFindsNoRows | src/order_app/order_processing/kafka_order_consumer.py:240-242 | cleanup comes before publication: whenever a DLQ record is published, neither table holds a row of its event |
| KafkaTheorems.DeadLettersAndRowsAreGenuine | src/order_app/order_processing/kafka_order_consumer.py:296-310 | over whole runs: a DLQ record names a real offset and carries that record's key, IDs and payload; never more of them than deliveries of the offset; each order row holds the values of a delivered, parsed, storable record |
| KafkaTheorems.MalformedPassedOnlyByDeadLetter | src/order_app/order_processing/kafka_order_consumer.py:204-217 | with a new consumer after every error, the group passes an unparseable record only after an acknowledged DLQ record that carries it |
| KafkaRefinement.FoldAllCompleted | src/order_app/order_processing/kafka_order_consumer.py:219-231 | a fault-free pass over the log leaves no claim pending |
| KafkaRefinement.TinyAmountIsDeadLettered | src/order_app/order_processing/kafka_order_consumer.py:240-249 | a clean pass dead-letters an order of less than half a cent, unless an earlier record with its event ID has a larger amount |
| KafkaRefinement.StoreNearClean | src/order_app/order_processing/postgres_order_store.py:105-157 | a `store` that meets the tables of a clean pass, with or without its own leftovers, is refused, finds its event completed, or leaves exactly the pending row |
| KafkaRefinement.AlwaysNearCleanPass | src/order_app/order_processing/kafka_order_consumer.py:219-282 | with a DLQ, a new consumer after every error and faults within the retry budget, every reachable database is that of a clean pass up to the committed offset, or with the next record's pending row, or one record further |
| KafkaRefinement.DrainedEqualsCleanPass | src/order_app/order_processing/kafka_order_consumer.py:219-282 | so a drained run ends in the tables and the dead-lettered offsets of one fault-free pass, however often it crashed, retried or was redelivered |
| KafkaRefinement.CanAlwaysDrain | src/order_app/order_processing/kafka_order_consumer.py:219-282 | and no such run reaches a state from which the log can no longer be drained to that result |
| Partitions.ApplyOnPart | src/order_app/order_processing/postgres_order_store.py:95-209 | a transaction on an event of one partition is the same transaction on that partition's rows, and leaves all other partitions' rows alone |
| Partitions.AgreeOnParts | src/order_app/order_processing/postgres_order_store.py:68-91 | tables that agree on every partition's rows are equal |
| KafkaCluster.EachPartitionRunsAlone | src/order_app/messaging/event_publishers.py:177-195 | keyed by order ID, in every interleaving each partition's rows, offsets, DLQ records and consumer are those of its own steps run alone |
| KafkaCluster.InterleavingsAgree | src/order_app/messaging/event_publishers.py:177-195 | interleaving independence: any two drained interleavings of the partitions' consumers end in the same two tables and the same dead-lettered offsets |
| KafkaCluster.WithoutKeyingInterleavingsDisagree | src/order_app/messaging/event_publishers.py:177 | the key is needed: two orders with one order ID on two partitions have two fault-free drained interleavings that end in different tables |
| KafkaCall.CommitClosesCall | src/order_app/order_processing/kafka_order_consumer.py:198-282 | in every call of `process_one` a commit is the last step; right before it the effects completed or the broker acknowledged a dead letter, and for a parsed event the discard came right before that |
| KafkaCall.AttemptsAreMaximal | src/order_app/order_processing/kafka_order_consumer.py:232-249 | for every call that returned or raised: each attempt but the last failed retryably below the limit; the last one completed the effects, failed for good, or was the last allowed; their number is that of the store calls, at most the limit, and the last step and every DLQ record of the call carry it |
| KafkaCall.EvidenceIsTrue | src/order_app/order_processing/kafka_order_consumer.py:224-265 | on a return that is not dead-lettered, `duplicate` holds exactly if the row was there when the call began or a store call of this very call wrote it and then raised; `attempts` is the number of store calls, at most the limit |
| KafkaCall.FirstReplyIsRemembered | src/order_app/order_processing/kafka_order_consumer.py:224-227 | throughout a call `initial_is_new` is the answer of the first store call of this call that returned one, and unset before any has |
| KafkaCall.DeadLettersTellWhy | src/order_app/order_processing/kafka_order_consumer.py:296-310 | every DLQ record of a call names the failure of the step that ended its last attempt - the store that raised, the store that was refused, the notification, or the completion - with the number of store calls; that of an unparseable record names the parse failure and one attempt |
| KafkaOrderConsumer.NewsIsFirst | src/order_app/order_processing/kafka_order_consumer.py:177-196 | the polls before the deadline: nothing comes of them exactly if none raises and none brings a record; otherwise the first that does either decides |
| KafkaOrderConsumer.EvidenceIsTruthful | src/order_app/order_processing/kafka_order_consumer.py:256-265 | the returned evidence: the event's ID, or none for an unparseable record; the record's offset; the number of store calls, or one; `duplicate` as `EvidenceIsTrue` says, and for a dead-lettered record exactly if the first store call that returned found the claim |
| KafkaEvidence.FalseDuplicateIff | src/order_app/order_processing/kafka_order_consumer.py:63-74 | exact condition: some first delivery returns with `duplicate` set if and only if the policy allows a second attempt and the log holds a storable order |
| KafkaEvidence.FalseDuplicateRun | src/order_app/order_processing/kafka_order_consumer.py:224-226 | the witness: the store call writes the row and raises retryably, and the retry finds the row |
| NotificationClient.NestedLoopsFlatten | src/order_app/order_processing/notification_client.py:50-76 | the client's loop inside the consumer's behaves as one loop over the product of the limits: success exactly if fewer than a*r POSTs fail first, then F/a + 1 attempts and F + 1 POSTs, else a*r POSTs and r attempts |
| NotificationClient.OrderNotificationClient.Create | src/order_app/order_processing/notification_client.py:23-36 | a timeout or an attempt limit that is not positive is refused |
| NotificationClient.OrderNotificationClient.Notify | src/order_app/order_processing/notification_client.py:38-76 | POSTs up to the first success, at most `max_attempts` times, and raises only when all of them failed; an exception that is not an HTTP error leaves at once, also after earlier failed POSTs of the call |
| KafkaOrderConsumer.Broker.Commit | src/order_app/order_processing/kafka_order_consumer.py:267-282 | a commit moves the group's offset to the record after the message; one that raises may have done so |
| KafkaOrderConsumer.Broker.PublishFailure | src/order_app/order_processing/retry_and_dead_letter.py:114-163 | a publication appends the failure to the DLQ topic; one that raises may have done so |
| KafkaOrderConsumer.KafkaOrderConsumer.constructor | src/order_app/order_processing/kafka_order_consumer.py:121-150 | a new consumer resumes at the committed offset: one `Start` step of the protocol, wherever the consumer before it crashed |
| KafkaOrderConsumer.KafkaOrderConsumer.CallStore | src/order_app/order_processing/kafka_order_consumer.py:224-227 | the store call is one protocol step with the store's reply |
| KafkaOrderConsumer.KafkaOrderConsumer.CallNotify | src/order_app/order_processing/kafka_order_consumer.py:228-229 | the notification is one protocol step, which fails exactly when the client raises |
| KafkaOrderConsumer.KafkaOrderConsumer.CallMark | src/order_app/order_processing/kafka_order_consumer.py:230 | the completion is one protocol step, and never meets an unknown event |
| KafkaOrderConsumer.KafkaOrderConsumer.CompleteEffects | src/order_app/order_processing/kafka_order_consumer.py:227-230 | notify, if there is a downstream, then mark_completed, as a walk of the protocol whose calls fail as the oracle says |
| KafkaOrderConsumer.KafkaOrderConsumer.Attempt | src/order_app/order_processing/kafka_order_consumer.py:223-231 | one pass through the try block: store, remember the first `is_new`, then the effects unless the event is completed |
| KafkaOrderConsumer.KafkaOrderConsumer.RetryEffects | src/order_app/order_processing/kafka_order_consumer.py:219-254 | the retry loop: ends with the first attempt that succeeds, fails for good or uses up the limit, as a walk of the protocol |
| KafkaOrderConsumer.KafkaOrderConsumer.Finish | src/order_app/order_processing/kafka_order_consumer.py:256-265 | the final commit: the evidence is returned exactly when the commit did not raise, with the event's ID, offset, first `is_new`, attempts and dead-lettering of the call; the DLQ stays as it is |
| KafkaOrderConsumer.KafkaOrderConsumer.DeadLetterCall | src/order_app/order_processing/kafka_order_consumer.py:284-322 | publish, then commit only once the broker has acknowledged; dead-lettered evidence exactly when neither raised; the one DLQ record added carries the offset, the error and the attempts of the call |
| KafkaOrderConsumer.KafkaOrderConsumer.GiveUp | src/order_app/order_processing/kafka_order_consumer.py:240-249 | discard before the dead-letter path; an error of either leaves the offset uncommitted |
| KafkaOrderConsumer.KafkaOrderConsumer.HandleEvent | src/order_app/order_processing/kafka_order_consumer.py:219-265 | retry loop, then commit, dead-letter path or error |
| KafkaOrderConsumer.KafkaOrderConsumer.HandleRecord | src/order_app/order_processing/kafka_order_consumer.py:198-265 | parse, or dead-letter the unparseable record |
| KafkaOrderConsumer.KafkaOrderConsumer.ProcessOne | src/order_app/order_processing/kafka_order_consumer.py:158-265 | it times out exactly if no poll raises or brings a record, a poll error ends it exactly if none before brought a record, and otherwise it takes the next record of the log; the call is then a run of the protocol whose external calls fail as the oracle says; what it returns is truthful evidence (`EvidenceIsTruthful`); with only failing POSTs it behaves as the single flattened loop |
| KafkaOrderConsumer.KafkaOrderConsumer.PollOn | src/order_app/local_lab/consumer_worker.py:61-63 | using the consumer again after an error does not rewind its position |
| KafkaWorker.PauseSafety | src/order_app/local_lab/consumer_worker.py:53-58 | between a committed pause and the next resume at most one record is polled, only by a call whose flag read came before the pause; no other record gains effects, is dead-lettered or is committed |
| ConsumerControls.ConsumerControlStore.Initialize | src/order_app/local_lab/consumer_control_store.py:20-45 | both brokers have a row afterwards; a row that was there keeps its flag, so a worker that starts does not resume a paused consumer, and a new row is not paused |
| ConsumerControls.ConsumerControlStore.SetPaused | src/order_app/local_lab/consumer_control_store.py:47-68 | commits one write for a known broker with a row, and raises otherwise without a change |
| ConsumerControls.ConsumerControlStore.IsPaused | src/order_app/local_lab/consumer_control_store.py:70-90 | returns what the last committed write for the broker said, not paused before any; raises for an unknown broker or a missing row |
| ConsumerControls.LastWriteWins | src/order_app/local_lab/consumer_control_store.py:47-90 | a write holds until the next one for the same broker, whatever is written for the other |
| ConsumerControls.NeverPaused | src/order_app/local_lab/consumer_control_store.py:20-45 | a consumer that nobody has paused is not paused |
| KafkaWorker.TryProcess | src/order_app/local_lab/consumer_worker.py:57-70 | one `process_one`; an error is swallowed and the same consumer is used again |
| KafkaWorker.RunKafkaWorker | src/order_app/local_lab/consumer_worker.py:53-70 | every round is the dashboard's writes, one flag read, more writes at any time during the rest of the round and, unless the flag said paused, one `process_one`, each round from the state the one before left; the loop never stops or creates a consumer |
| KafkaWorker.WriteDuringCall | src/order_app/local_lab/consumer_worker.py:54-58 | a write of the dashboard at any moment of a call has the effect it would have after the call |
| KafkaWorker.RoundsArePlayed | src/order_app/local_lab/consumer_worker.py:53-70 | the rounds together are one run of worker and dashboard, without a crash or a new consumer |
| KafkaWorker.WorkerRunsTheProtocol | src/order_app/local_lab/consumer_worker.py:53-70 | every run of worker and dashboard is a run of the protocol, so all theorems about runs apply to the worker |
| KafkaWorker.ProtocolRunIsPlayed | src/order_app/local_lab/consumer_worker.py:53-70 | conversely an unpaused worker can take every run of the protocol |
| KafkaWorker.UnpausedWorkerTakesRecords | src/order_app/local_lab/consumer_worker.py:53-70 | a worker that is never paused takes the next record of the log in every round whose polls bring one, whatever its calls do |
| KafkaWorker.WorkerCanLose | src/order_app/local_lab/consumer_worker.py:53-63 | a worker that never crashes and is never paused can lose any record that a later one can pass: with a DLQ, as the local worker has, every record but the last |
| SqsWorker.PauseSafety | src/order_app/local_lab/consumer_worker.py:91-103 | the same for the SQS worker: after a committed pause at most one message is received until the next resume, only if its flag read came before the pause; no other event gains effects and no other message is deleted |
| SqsWorker.WorkerRunsTheProtocol | src/order_app/local_lab/consumer_worker.py:91-103 | every run of SQS worker, queue and dashboard is a run of the protocol |
| SqsWorker.ProtocolRunIsPlayed | src/order_app/local_lab/consumer_worker.py:91-103 | conversely an unpaused SQS worker can take every run of the protocol with one worker |
| SqsWorker.WorkerCanDelete | src/order_app/local_lab/consumer_worker.py:91-103 | so between two calls it can delete any visible message below the limit whose event is claimed or can be stored, with the event completed |
| SqsTheorems.StatusClimbs | src/order_app/order_processing/postgres_order_store.py:105-185 | without `discard` a row only climbs from absent over pending to completed |
| SqsTheorems.SafeAlways | src/order_app/order_processing/sqs_order_consumer.py:38-57 | for any number of competing workers, expiries and stale handles: receive counts stay within the redrive limit, a deleted message's event is completed, and a worker that deletes holds a completed event |
| SqsTheorems.StoreErrorsUnreachable | src/order_app/order_processing/postgres_order_store.py:126-129 | in SQS runs neither the vanished claim nor the unknown event of mark_completed can be met |
| SqsTheorems.RunsOnlyClimb | src/order_app/order_processing/sqs_order_consumer.py:38-57 | from any state on, statuses only climb, no message disappears or changes, and deleted and dead-lettered are final |
| SqsTheorems.DeletedMeansCompletedForever | src/order_app/order_processing/sqs_order_consumer.py:50-56 | a deleted message's event is completed, however the run goes on |
| SqsTheorems.TablesAlwaysMatch | src/order_app/order_processing/postgres_order_store.py:287-313 | the two tables match and are equally long after every SQS run |
| SqsTheorems.MeasureDecreases | src/order_app/local_lab/resource_setup.py:82-94 | every step other than a send lowers one measure over remaining receives, visibility and worker stages |
| SqsTheorems.RunsAreFinite | src/order_app/local_lab/resource_setup.py:82-94 | so without new sends a run is at most as long as the measure of its first state |
| SqsTheorems.RunLength | src/order_app/local_lab/resource_setup.py:82-94 | an explicit bound for every run without new sends: messages * (7 * maxReceiveCount + 2) + 5 * workers |
| SqsTheorems.ReceivesAreCounted | src/order_app/local_lab/resource_setup.py:90 | a message is received as often as its receive count says, never more than maxReceiveCount times |
| SqsTheorems.TotalReceivesBounded | src/order_app/local_lab/resource_setup.py:90 | all workers together receive at most maxReceiveCount times the number of messages |
| SqsTheorems.AlwaysFailingIsNeverDeleted | src/order_app/order_processing/sqs_order_consumer.py:49-56 | a message whose store call always raises, for whatever reason, is never deleted, and no worker comes past its store call |
| SqsTheorems.PoisonIsNeverDeleted | src/order_app/order_processing/sqs_order_consumer.py:49-56 | in particular a message that never parses, or whose event ID only comes with values the columns refuse |
| SqsTheorems.QuiescentOutcome | src/order_app/local_lab/resource_setup.py:82-94 | at quiescence a message is deleted with its event completed, or in the DLQ after exactly maxReceiveCount receives; a message whose store call always raises, for whatever reason, is always the latter |
| SqsTheorems.QuiescentPoison | src/order_app/local_lab/resource_setup.py:82-94 | in particular an unparseable message or one with values the columns refuse |
| SqsTheorems.CanBeDeleted | src/order_app/order_processing/sqs_order_consumer.py:38-57 | from every state with an idle worker, any visible message below the limit whose event is claimed or can be stored is deleted by some run, with its event completed |
| SqsTheorems.CanQuiesce | src/order_app/local_lab/resource_setup.py:82-94 | from every state some run without new sends comes to rest |
| SqsTheorems.MessagesAreThoseSent | src/order_app/order_processing/sqs_order_consumer.py:38-57 | after every run the queue holds the bodies sent, in order and unchanged, and a message just sent is visible and not yet received |
| SqsOrderConsumer.Queue.ReceiveMessage | src/order_app/order_processing/sqs_order_consumer.py:38-48 | receiving hides a visible message below the redrive limit and hands out the newest receipt handle |
| SqsOrderConsumer.Queue.DeleteMessage | src/order_app/order_processing/sqs_order_consumer.py:53-56 | the newest handle deletes; a stale one may or may not; a message already gone stays gone |
| SqsOrderConsumer.SqsOrderConsumer.CallEffects | src/order_app/order_processing/sqs_order_consumer.py:50-52 | store and mark_completed as steps of the SQS protocol, with any steps of others before each; they succeed exactly if the store call does not raise, the tables it finds hold the claim or accept the order, and the completion does not raise or is not needed |
| SqsOrderConsumer.SqsOrderConsumer.ProcessOne | src/order_app/order_processing/sqs_order_consumer.py:25-57 | receive, parse, store, mark, and only then delete, as a run of one of n workers: its calls fail as the oracle says, and other workers, senders, expiries and the redrive act between them; the event ID is returned exactly if a message could be received, none of the three calls raises, and its order is claimed or accepted by the tables the store call finds; then the event is completed, and the message deleted, always if nobody else acts, and otherwise unless its handle had gone stale or the message was redriven |
| OrderPublisher.AcceptedIsLogged | src/order_app/messaging/event_publishers.py:189-229 | over any interleaving of requests on one shared producer, an accepted request's own record is in the log under its order-ID key, at the offset of its receipt, and stays there |
| OrderPublisher.RefusedIff | src/order_app/messaging/event_publishers.py:197-218 | exact condition in every reachable state, appended or not: the flush answers 503 if and only if it raises, the own report is missing or an error, or another request's record is still queued |
| OrderPublisher.DeliveredButRefusedIff | src/order_app/messaging/event_publishers.py:203-208 | so a returned flush refuses a request whose own record was delivered, and is in the log, if and only if another request's record is queued |
| OrderPublisher.LoggedButUnavailable | src/order_app/messaging/event_publishers.py:203-208 | the witness: two requests, the first one logged and reported, and refused |
| OrderPublisher.KafkaEventPublisher.AwaitReports | src/order_app/messaging/event_publishers.py:183-197 | the callback collects the reports of its own record and no other |
| OrderPublisher.KafkaEventPublisher.PublishOrderCreated | src/order_app/messaging/event_publishers.py:156-229 | a receipt only after the own delivery report with nothing queued and no error, and then the record is in the log; produce, whatever happens meanwhile and the end of the flush are the only steps |
| OrderPublisher.CreateOrder | src/order_app/order_api/http_api.py:84-114 | 202 exactly when the publisher returned, and then the order's record is in the log; 503 otherwise |
| EndToEnd.AcceptedOrderIsSettled | src/order_app/order_api/http_api.py:101-114 | once the group has passed an accepted order's offset, with a new consumer after every error, its event has been completed or a DLQ record carries it |
| EndToEnd.FoldHandles | src/order_app/order_processing/kafka_order_consumer.py:219-249 | a clean pass completes every order of the log or dead-letters its record |
| EndToEnd.AcceptedOrderSurvivesDraining | src/order_app/order_api/http_api.py:101-114 | after a drained run with faults within the retry budget every accepted order is completed in the tables, or its offset is in the DLQ |
| TopicNames.NormalizeGivesNormalForm | tests/helpers/kafka.py:61-64 | for every input: legal alphabet, no two adjacent separators, none at either end |
| TopicNames.FixedPointIffNormalForm | tests/helpers/kafka.py:61-64 | the fixed points of the normaliser are exactly the names in that form |
| TopicNames.NormalizeIsIdempotent | tests/helpers/kafka.py:61-64 | normalising twice is normalising once |
| TopicNames.NormalizeIsCanonical | tests/helpers/kafka.py:25-26 | the two regular expressions and the strip amount to one pass: words stay, a gap between words becomes its lone separator or one hyphen, outer gaps go |
| TopicNames.UniqueNameIsNormal | tests/helpers/kafka.py:48-58 | every returned name is a fixed point of at most 249 characters: the base, cut only as far as the limit demands, a hyphen and the token, never the "t" fallback; the error is raised exactly for tokens of 248 characters or more |
| TopicNames.NameShowsItsInputs | tests/helpers/kafka.py:29-58 | the name ends with what the supplied token comes to, or with a random one if that is nothing; it begins with what prefix and test name come to, cut only as far as the limit demands, or with the default if that is nothing |
| TopicNames.LegalCharacters | tests/helpers/kafka.py:25-26 | the alphabet of topic names and their separators, character by character |
| TopicNames.RandomNamesAreDistinct | tests/helpers/kafka.py:48-58 | names drawn with different random tokens differ, whatever the tests are called |
| EventProbe.KafkaEventProbe.Start | tests/helpers/kafka.py:238-271 | succeeds exactly if some poll is followed by an assignment and none up to it raises; every record polled until then is kept, in order, for the first wait |
| EventProbe.KafkaEventProbe.Next | tests/helpers/kafka.py:305-315 | pending records come before polled ones |
| EventProbe.KafkaEventProbe.Show | tests/helpers/kafka.py:304-320 | the records shown and then those pending are exactly those polled, in order; the first match is returned, and a timeout shows the number of records of this call and the last of them, as many as the limit allows |
| EventProbe.KafkaEventProbe.WaitForEvent | tests/helpers/kafka.py:273-328 | the same over an implicit start and the wait |
| EventProbe.LastOfAppend | tests/helpers/kafka.py:300-302 | a bounded deque keeps the last n of everything appended |
| Eventually.Eventually | tests/helpers/client_stub.py:69-91 | at most ceil(timeout / interval) + 1 observations; the first accepted value is returned; a timeout only after the whole timeout with every observation rejected |
| Eventually.WaitedLongEnough | tests/helpers/client_stub.py:81-84 | while time remains, the n-th observation comes after n - 1 whole intervals |
| Eventually.Intervals | tests/helpers/client_stub.py:69-91 | the least whole number of intervals that covers the timeout |

## Left out

- JSON, JSON Schema and typed-model validation: a body is an order event or text that does not parse. Amounts are finite reals, and the currency is taken to fit `CHAR(3)`, as the contract's pattern demands.
- Rebalancing, fencing of zombie consumers, replication, and `read_committed` with its gaps in the offsets: one consumer per partition over a dense log. This is the broker's behaviour.
- `offset_reset="latest"`: a group without a committed offset starts at the beginning, the default.
- Backoff durations and wall clocks. Deadlines are the polls before them; `Eventually` takes an abstract monotonic clock.
- The record headers, the DLQ record's ID, timestamp and error text, and the producer behind `publish_failure`, which acknowledges by the same rule as the order publisher. In the Kafka model a publication appends, raises, or appends and raises.
- `run_sqs_worker` as a method: `SqsWorker` has its loop as a transition system.
- Database errors while the pause flag is read end the worker. In the protocol that is a crash.
- SQS FIFO groups and deduplication, `list_orders`, `fetch_order`, `has_processed`, the schema helpers, the dashboard, resource provisioning and configuration: one-branch plumbing.
- API answers other than 202 and 503, such as request validation.
- Unicode lower-casing is a parameter of the topic-name lemmas; of it they use that it leaves legal text alone.
- `RecordingHttpStub` and `match_order_created_event` of the test helpers: the answers of the downstream service are a parameter instead.
- SqsOrderConsumer.SqsOrderConsumer.ProcessOne: others act between its calls, but not between the two statements of one store call; the protocol has that interleaving, and its theorems cover it.
- KafkaRefinement.DrainedEqualsCleanPass: stated with a DLQ, because without one a refused record is never passed and no run over it drains.
- KafkaOrderConsumer.KafkaOrderConsumer.ProcessOne: the flattened-loop clause is for an event that `store` accepts and calls that do not fail other than by HTTP errors; the refinement clause is for every oracle.
