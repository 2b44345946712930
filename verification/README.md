# Translation queue: a model and its proofs

This project models the work-distribution core of the EDC translation service and proves what it keeps.

- **The durable queue** (`DurableTables`, `DurableQueue`). Four tables: jobs, work rows, results and dead
  letters. Workers claim rows under a lease, ack or nack them, and rows are retried after a delay, reclaimed
  after a visibility timeout, or dead-lettered after a number of attempts. Each SQL statement is a function on
  the tables and a method that updates them in place; `Submit`, `Poll`, `Ack` and `Nack` are transactions with
  the rollback of the original. A run is the list of committed transactions, by any workers in any
  interleaving, stale ones included; the class carries its run as ghost history, so every theorem about runs
  holds of every object at all times.
- **Theorems about every run** (`DurableSafety`, `DurableAccounting`, `DurableContents`, `JobMachine`). Table
  invariants, exact attempt accounting, pacing of claims, frozen terminal rows, what each column means in terms of
  the run, and the one-variable job machine that the tables refine exactly when acks come in time.
- **The worker loops** (`LocalWorker`, `DurableWorker`, `ImpatientWorker`). `run_once`, `run_until_idle` and
  `run_forever` on the in-process queue, and the draining worker on the durable queue: retries run out, and a drain is a sort.
- **The work item** (`WorkItems`) and the message form that ties a payload to its row.
- **Kafka** (`FanOut`, `SegmentIds`, `Reassembly`, `KafkaSteps`, `KafkaSerials`,
  `KafkaQueue`). Fan-out of a document into
  segments, reassembly planning, and the buffered queue with its IO loop as interleaved steps, with a serial number
  on every single item.
- **Sessions and tokens** (`Base64Url`, `SessionTokens`, `TokenStore`). base64url as it is printed and parsed
  (section 5 of RFC 4648), the session JWT (RFC 7519), and the API token store with its audit log.
- **Text batches** (`TextBatch`, `TextEncoding`, `Unicode`). The batch runner with per-file failure, and
  encoding detection with the UTF-8 and UTF-16 codecs it is measured against.

`Wrappers`, `Bytes`, `WorkerResults`, `Principals` and `SortedStrings` are shared definitions; `SortedStrings` is code-point order, the order
Python's `sorted` puts texts in.

## What the code does not do

Some properties one would expect are false of the code. The model keeps the code's behaviour; each is stated
with its exact condition.

- A dead job can come back to life. `ack` saves the result and marks the job succeeded without looking at the
  lease; only the row update is fenced. `JobMachine.StaleAckRevivesDeadJob` gives the run;
  `JobMachine.AckKeepsCouplingIffInTime` and `JobMachine.RefinesIffAcksAreInTime` say that the tables stay in step
  with the job machine exactly when the acking worker still holds the lease or the job has already succeeded.
- The attempt counter can pass `max_attempts`, because claiming does not look at it: a claim takes it past the limit
  exactly when it reclaims a running row whose attempts are used up (`DurableAccounting.ClaimPassesLimitIff`), so a
  row is past the limit exactly when that has happened in the run (`DurableAccounting.AttemptsPassLimitIff`).
  `JobMachine.StaleRunUpToReclaim` gives a run with two attempts under a limit of one.
- `run_until_idle` need not finish its rows. It sleeps only between idle polls:
  `(max_idle_polls - 1) * poll_interval >= retry_delay` is enough to finish every queue whose rows are due within one
  such delay (`DurableWorker.RunUntilIdle`). With shorter sleeps it is not: when no other time passes, the loop's
  transactions on a single item that fails once are those of `ImpatientWorker.ImpatientRun`, and they leave the item
  queued (`ImpatientWorker.ImpatientWorkerLeavesRowWaiting`). With the default `max_idle_polls = 1` that is so for
  every positive delay.
- The fence knows workers, not claims: an ack or nack changes a row exactly when its worker is the one that claimed
  the row last (`DurableContents.FenceIsTheLease`), so a worker that lost a lease and won it back settles the new
  claim with the old item (`JobMachine.OldItemSettlesRegainedClaim`).
- Ack and nack believe the item. One that pairs the work id of one row with the job id of another ends a row whose
  own job goes on, in the state of `JobMachine.CrossingItemBreaksInvariant`; `DurableSafety.AckKeepsInvIff` and
  `DurableSafety.NackKeepsInvIff` say exactly when. No poll hands one out.
- On the durable path a job is never `running`: it stays `queued` until an ack or the final nack.
- Sorting segment ids as text gives the fan-out order exactly up to 999,999 segments
  (`SegmentIds.TextOrderIsFanOutOrderIff`).
- Reassembly depends on the order of results exactly when two results for one segment disagree on success
  (`Reassembly.OrderIsIrrelevantIffResultsAgree`).
- An item changes on its way through the Kafka topic unless it has a job id and none of the fields the envelope
  leaves out (`KafkaSteps.WireIsLosslessIff`), and its work id survives only when it is the default one
  (`KafkaSteps.WireKeepsIdsIff`).
- A token's last use can disagree with the audit log when a token is saved again with another last use than the store
  has, or a use is recorded by hand that the store does not have (`TokenStore.LastUsedAgreesWithLogIff`); saving a
  token anew can undo its revocation (`TokenStore.StepKeepsRevokedIff`), and then it authenticates again
  (`TokenStore.SavingAnewRevivesToken`). In runs that only issue, use and revoke
  tokens neither happens (`TokenStore.LastUsedAgreesWithLog`, `TokenStore.RevokedForGoodWhenIssuedOnce`).
- A single NUL-free ASCII character is not read back from BOM-less UTF-16, two bytes being too few for the
  pattern (`TextEncoding.AsciiReadsBackIff`), and a text that begins with U+FEFF is not read back from UTF-8
  (`TextEncoding.Utf8ReadsBackIff`).
- A batch whose every file was converted still ends failed when its manifest cannot be written
  (`TextBatch.Run`).
- An item whose processing raises is gone from the in-process queue, neither acked nor nacked
  (`LocalWorker.RunUntilIdle`), and `run_forever` does not end unless it has a stop signal, a limit within the
  queue or an item that raises (`LocalWorker.ForeverEndsIffItHasAReason`).

## Model

| member | source | states |
|---|---|---|
| `WorkItems.MessageRoundTrip` | edc_translation/jobs.py:97-160 | encoding a valid item succeeds, decoding the message succeeds, encoding again gives the same message, and job id, work id, document id and source language are unchanged |
| `WorkItems.RoundTripIsIdentityIffCanonical` | edc_translation/jobs.py:97-151 | the decoded item equals the original exactly when the original's optional identity fields were filled in and agreed |
| `WorkItems.WorkIdIsNeverEmpty` | edc_translation/jobs.py:123-129 | the work id is never empty, and defaults to the job id with a suffix |
| `WorkItems.IdsCanBeToldIff` | edc_translation/jobs.py:119-129 | which items have a job id and a work id that can be told: those with one of their own, one in the metadata, or a document id |
| `WorkItems.IdsInOrder` | edc_translation/jobs.py:119-129 | the job id is the item's own, else the one its metadata names, else its document id; the work id is the item's own, else the job id with a suffix |
| `WorkItems.LanguageInOrder` | edc_translation/jobs.py:179-187 | the language is the item's own, else the bundle's primary one, else the first that a span names, else "und" |
| `WorkItems.MessageTells` | edc_translation/jobs.py:135-151 | an item is encoded exactly when it has a document id, and each field of the message is the item's resolved field of that name |
| `WorkItems.DecodesIff` | edc_translation/jobs.py:97-117 | a message decodes if and only if every required key is there and its document id, if it names one, is the bundle's |
| `WorkItems.DecodingTells` | edc_translation/jobs.py:97-117 | each field of the decoded item, with the default for each key that may be missing |
| `DurableSafety.EveryRunIsSafe` | edc_translation/postgres_backend.py:177-343 | in every state of every run: one row per job; a row is locked exactly when it is running; succeeded rows have succeeded jobs; failed jobs have failed rows; a job has a result if it succeeded and none while queued; a job is never running; a work id has one dead letter if its row failed and none otherwise |
| `DurableSafety.StepKeepsInv` | edc_translation/postgres_backend.py:795-836 | submit, poll, ack and nack, with their rollbacks, each keep the invariant |
| `DurableSafety.ClaimKeepsInv` | edc_translation/postgres_backend.py:261-286 | claiming or reclaiming a row keeps the invariant |
| `DurableSafety.AckKeepsInvIff` | edc_translation/postgres_backend.py:1092-1124 | for any item whatever, an ack keeps the invariant if and only if it does not end the row of another job that has not succeeded |
| `DurableSafety.NackKeepsInvIff` | edc_translation/postgres_backend.py:1126-1155 | for any item whatever, with or without a document id, a nack keeps the invariant if and only if it does not bury the row of one job while failing another, with the first still queued or the second's row not failed |
| `DurableSafety.AckKeepsInv` | edc_translation/postgres_backend.py:1092-1124 | an ack by anyone, lease or no lease, keeps the invariant |
| `DurableSafety.NackKeepsInv` | edc_translation/postgres_backend.py:1126-1155 | a nack keeps the invariant: the row fails, is dead-lettered once and its job fails, together or not at all |
| `DurableSafety.EveryPolledItemIsCoherent` | edc_translation/postgres_backend.py:1079-1090 | in every run the payload of a row decodes, without error, to an item with the row's own work id and job id |
| `DurableSafety.EveryPayloadAgrees` | edc_translation/postgres_backend.py:1158-1165 | the same of all rows at once, kept by every transaction |
| `DurableSafety.EveryJobHasItsRow` | edc_translation/postgres_backend.py:795-836 | jobs and the job ids of work rows are the same set in every run, so a failed submit leaves neither behind |
| `DurableAccounting.RowStep` | edc_translation/postgres_backend.py:261-317 | every transaction changes a given row in one of seven ways, each with its status, lease, counter and due time before and after |
| `DurableAccounting.AttemptAccounting` | edc_translation/postgres_backend.py:261-317 | attempts = fenced failures + reclaims + (1 if running or succeeded), in every run |
| `DurableAccounting.AttemptsAreBounded` | edc_translation/postgres_backend.py:300-317 | with one shared limit m >= 1: queued rows have attempts < m, failed rows >= m, fenced failures (and one more if held) never exceed m, attempts never exceed m + reclaims |
| `DurableAccounting.ClaimPassesLimitIff` | edc_translation/postgres_backend.py:261-286 | a claim takes the counter past the shared limit if and only if the row is running with its attempts used up |
| `DurableAccounting.AttemptsPassLimitIff` | edc_translation/postgres_backend.py:261-317 | in every run a row is past the limit if and only if such a reclaim of it has happened |
| `DurableAccounting.ClaimsAreSpaced` | edc_translation/postgres_backend.py:261-317 | the claim times of a row agree with its counter, lease and due time, and are spaced by the shorter of visibility timeout and retry delay |
| `DurableAccounting.PacingBound` | edc_translation/postgres_backend.py:261-317 | claim k+1 of a row comes no earlier than its creation plus k times the shorter of the two waits |
| `DurableAccounting.TerminalRowsAreFrozen` | edc_translation/postgres_backend.py:289-317 | once succeeded or failed, a row is never changed again by any worker |
| `DurableAccounting.PrefixesAreRuns` | edc_translation/postgres_backend.py:1062-1155 | every prefix of a run is a run |
| `DurableContents.EveryRowHasItsSubmit` | edc_translation/postgres_backend.py:795-836 | every row is the work of one submit of the run and keeps its job, payload, priority and creation time through all claims, acks and nacks; its job names the document of that submit |
| `DurableContents.LastFailureIsRemembered` | edc_translation/postgres_backend.py:300-317 | in every run a row's last error is that of the last nack that changed it, and its due time the one that nack set; a row never nacked has no error and has been due since it was created |
| `DurableContents.LockIsTheLastClaimants` | edc_translation/postgres_backend.py:261-286 | a running row is locked by the worker that claimed it last |
| `DurableContents.FenceIsTheLease` | edc_translation/postgres_backend.py:289-317 | in every run an ack or nack that is not rolled back changes its row if and only if the row is running and the worker is its last claimant |
| `DurableContents.LastWordDecides` | edc_translation/postgres_backend.py:236-258 | a job's status, completion time and error are those of the last ack or final nack of the run, or it is still queued |
| `DurableContents.ResultIsOfTheLastAck` | edc_translation/postgres_backend.py:320-343 | a job has a result exactly when it was ever acked; it is the bundle of its last ack, under that item's document, and the job refers to it by the name of the results table and its id |
| `DurableContents.LettersAreCopies` | edc_translation/postgres_backend.py:585-598 | every dead letter is and stays the copy of its failed row: job, payload, attempts and error |
| `JobMachine.RowsFollowTheMachine` | edc_translation/postgres_backend.py:261-317 | every work row moves absent, waiting, leased, then back to waiting or on to done or dead |
| `JobMachine.AckKeepsCouplingIffInTime` | edc_translation/postgres_backend.py:1098-1120 | an ack, of a known row or not, keeps job status, result and dead letters a function of the row's phase if and only if its worker holds the lease, the job has already succeeded, or there is no such job |
| `JobMachine.StepKeepsCouplingIffInTime` | edc_translation/postgres_backend.py:1079-1155 | the same for every transaction: submits, polls and nacks always keep it |
| `JobMachine.RefinesIffAcksAreInTime` | edc_translation/postgres_backend.py:236-258 | a run shows the one-variable job machine in every state if and only if every ack in it came in time |
| `JobMachine.FinishedJobsStayFinished` | edc_translation/postgres_backend.py:1092-1155 | in such a run a finished job keeps its status for good and has either one result or one dead letter, never both |
| `JobMachine.StaleRunUpToReclaim` | edc_translation/postgres_backend.py:261-286 | a run in which a reclaim takes a row to two attempts under a limit of one |
| `JobMachine.StaleAckRevivesDeadJob` | edc_translation/postgres_backend.py:1098-1120 | a five-step run in which a stale ack leaves a dead-lettered row with a succeeded job and a saved result |
| `JobMachine.OldItemSettlesRegainedClaim` | edc_translation/postgres_backend.py:289-297 | a run in which a worker loses its lease, wins it back and settles the new claim with the item of its first poll |
| `JobMachine.CrossingItemBreaksInvariant` | edc_translation/postgres_backend.py:1092-1155 | a run after which the ack, and the nack, of an item with one row's work id and another's job id each break the invariant |
| `DurableQueues.SomeRowIsNext` | edc_translation/postgres_backend.py:263-276 | some claimable row comes first by priority descending and creation time, whenever there is one |
| `DurableQueues.NothingFoundIff` | edc_translation/postgres_backend.py:263-276 | a poll finds nothing if and only if every row not locked by a concurrent claim must wait: queued and not yet due, running within its lease, whoever holds it, or finished |
| `DurableQueues.NextRowIff` | edc_translation/postgres_backend.py:263-276 | a row may be claimed if and only if it need not wait and no row that need not wait has a higher priority, or the same and an earlier creation |
| `DurableTables.SubmitTells` | edc_translation/postgres_backend.py:795-836 | a submit goes through if and only if the item has a document id, a priority that fits the column and an unused job id and work id; every column of the job and the row it adds |
| `DurableTables.SubmitFailsInOrder` | edc_translation/postgres_backend.py:795-836 | which error a failing submit reports: known job before bad priority before known row |
| `DurableTables.AckTells` | edc_translation/postgres_backend.py:1092-1124 | an ack goes through if and only if there is a bundle, a document id and a known job; the result saved, every column of the job, and the row, which changes exactly under the worker's lock |
| `DurableTables.FencedNack` | edc_translation/postgres_backend.py:1126-1155 | a nack of a row the worker has not locked changes nothing, and fails only when no work id can be told |
| `DurableTables.NackTells` | edc_translation/postgres_backend.py:300-317 | with attempts left a nack changes the row's status, due time, last error and lock, and nothing else anywhere |
| `DurableTables.FinalNackTells` | edc_translation/postgres_backend.py:1126-1155 | with the attempts used up it also adds the one letter and fails the job, or is rolled back when the job id cannot be told |
| `DurableQueues.DurableQueue.constructor` | edc_translation/postgres_backend.py:27-175 | the tables start empty, with no history |
| `DurableQueues.DurableQueue.InsertJob` | edc_translation/postgres_backend.py:177-192 | inserts a queued job, or fails on a duplicate id and changes nothing |
| `DurableQueues.DurableQueue.EnqueueWork` | edc_translation/postgres_backend.py:195-207 | inserts a queued row due now, or fails on a bad priority, duplicate work id or unknown job |
| `DurableQueues.DurableQueue.SaveResult` | edc_translation/postgres_backend.py:320-343 | inserts or replaces the result of a known job |
| `DurableQueues.DurableQueue.MarkJobSucceeded` | edc_translation/postgres_backend.py:236-246 | marks the job succeeded, completed now, with its result reference and no error, whatever it was before |
| `DurableQueues.DurableQueue.MarkJobFailed` | edc_translation/postgres_backend.py:249-258 | marks the job failed, completed now, with the error |
| `DurableQueues.DurableQueue.MarkWorkSucceeded` | edc_translation/postgres_backend.py:289-297 | fenced by the lock: succeeded and unlocked, or nothing |
| `DurableQueues.DurableQueue.MarkWorkFailed` | edc_translation/postgres_backend.py:300-317 | fenced by the lock: failed at the attempt limit, else queued again after the retry delay; returns the new status or nothing |
| `DurableQueues.DurableQueue.InsertDeadLetter` | edc_translation/postgres_backend.py:585-598 | copies the row's ids, payload and attempts into one more dead letter |
| `DurableQueues.DurableQueue.Submit` | edc_translation/postgres_backend.py:795-836 | job and row are inserted together, or every error leaves the tables as they were; the step joins the run |
| `DurableQueues.DurableQueue.Poll` | edc_translation/postgres_backend.py:1079-1090 | finds nothing only if every row not locked by others must wait; else claims one that need not, first by priority and then by age, among them a lease of this very worker that ran out; the claimed row gets the worker's lock and one more attempt, no other row changes; returns the row's own decoded item, and decoding never fails |
| `DurableQueues.DurableQueue.Ack` | edc_translation/postgres_backend.py:1092-1124 | result and job unconditionally, row under the fence, all or nothing; a missing bundle, document id or job is an error that changes nothing |
| `DurableQueues.DurableQueue.Nack` | edc_translation/postgres_backend.py:1126-1155 | row under the fence; dead letter and job failure exactly when the row failed for good; an item whose work id, or whose job id when it is needed, cannot be told is an error that changes nothing |
| `DurableWorker.BudgetUpdate` | edc_translation/postgres_backend.py:300-317 | changing one row changes the sum of attempts left by that row's change |
| `DurableWorker.RoundStep` | edc_translation/worker.py:274-284 | a claim with any ack or nack moves one row by one attempt and lowers the sum of attempts left |
| `DurableWorker.SettlingRecords` | edc_translation/postgres_backend.py:1092-1155 | settling an attempt saves a translation under its job and document with the job succeeded, or keeps the error on the row, and on the last attempt also on the job and in a dead letter; other jobs and results are untouched |
| `DurableWorker.RoundKeepsOutcomes` | edc_translation/worker.py:296-315 | what is saved for earlier results of the loop survives every later round |
| `DurableWorker.RunOnce` | edc_translation/worker.py:274-284 | either nothing is claimable and nothing changes, or one round is completed on the next row; the result carries the ids and the outcome of the item that row's own payload holds; its translation is what is saved for its job, its error what the row, and at the last attempt the job and the dead letter, record |
| `DurableWorker.DrainIsSort` | edc_translation/postgres_backend.py:261-286 | a drain that ends with every row finished has taken a permutation of the queued rows in claim order, and all of them succeeded |
| `DurableWorker.RoundKeepsDraining` | edc_translation/worker.py:296-315 | a round keeps the loop's account of budget, due times and drained rows |
| `DurableWorker.RoundKeepsAccounts` | edc_translation/worker.py:296-315 | a round keeps the correspondence of results, processing and succeeded rows |
| `DurableWorker.RunUntilIdle` | edc_translation/worker.py:286-315 | argument errors change nothing; the number of rounds is at most the attempts left and at most the item limit; every result is what processing made of its own row's item, and the rows that succeeded are those with a successful result; at the end every translation produced is the one saved for its job, and the last failure of every row is the error it records; uncut, only rows waiting out a delay remain; when the sleeps between the last idle polls outlast the retry delay every row ends succeeded or failed, for any pattern of failures; with every item succeeding the work ids returned are the queued rows sorted, each once, all succeeded, and those of a drain cut short come ahead of everything still queued |
| `ImpatientWorker.ImpatientWorkerLeavesRowWaiting` | edc_translation/worker.py:286-315 | for every retry delay and sleeps that together fall short of it, a run in which the worker goes idle and a failed row is left queued |
| `LocalWorker.LocalWorkQueue.Push` | edc_translation/worker.py:147-149 | appends a valid item, refuses an invalid one |
| `LocalWorker.LocalWorkQueue.Poll` | edc_translation/worker.py:151-154 | removes and returns the oldest item, or none |
| `LocalWorker.LocalWorkQueue.Ack` | edc_translation/worker.py:156-158 | records the result as acked |
| `LocalWorker.LocalWorkQueue.Nack` | edc_translation/worker.py:160-162 | records the result as nacked |
| `LocalWorker.FiltersPartition` | edc_translation/worker.py:274-284 | the acked and the nacked results together are all results, each once |
| `LocalWorker.FiltersTell` | edc_translation/worker.py:274-284 | exactly the results that carry a translation are acked, exactly those with an error nacked |
| `LocalWorker.RunOnce` | edc_translation/worker.py:274-284 | takes one item and acks or nacks it by its result; an item that raises is neither |
| `LocalWorker.RunUntilIdle` | edc_translation/worker.py:286-315 | argument errors, in order, change nothing; always ends; takes exactly a prefix in order, as long as the limit or the queue, leaves exactly the rest, acks and nacks the in-order filters of the results; when an item raises, stops just after it |
| `LocalWorker.ForeverEndsIffItHasAReason` | edc_translation/worker.py:317-355 | the endless loop ends if and only if it has a stop signal, a limit within the queue, or an item that raises |
| `LocalWorker.ForeverTakes` | edc_translation/worker.py:317-355 | one item a turn while there are any; the loop stops for nothing but the flag, read once a turn, or the limit, and throws only for an item before both |
| `LocalWorker.RunForever` | edc_translation/worker.py:317-355 | the same contract for the calls that end, with the turn at which they end: uncut by an error it has taken the whole queue, its limit, or one item for each reading of the flag; with a sink, results go there and the list is empty |
| `LocalWorker.LoopsAgree` | edc_translation/worker.py:286-355 | with the same limit within the queue and no stop signal, both loops return the same thing and leave the same queue |
| `SegmentIds.SegmentIdsAreDistinct` | edc_translation/kafka_backend.py:383-389 | different segment numbers, however large, have different ids |
| `SegmentIds.SameWidthOrder` | edc_translation/kafka_backend.py:389 | zero-padded numbers of one width compare as text as they compare as numbers |
| `SegmentIds.TextOrderIsFanOutOrderIff` | edc_translation/kafka_backend.py:383-448 | the ids of a fan-out are ascending as text if and only if there are at most 999,999 |
| `FanOuts.FanOut` | edc_translation/kafka_backend.py:358-396 | every segment has the ids of its own stride of the spans, one by one, and their texts on lines of their own; together they are the document's ids in order and its newline-joined text; every segment but the last has exactly the given number of spans; ids are numbered in order; each field of a header is the item's own of that name; one empty segment when there are no spans; fails exactly on a bad stride, an invalid item or a span without id |
| `FanOuts.Chunked` | edc_translation/kafka_backend.py:379-396 | the stride loop: segment i holds the ids and texts of the i-th stride, and the last is neither empty nor too long |
| `FanOuts.SingleChunks` | edc_translation/kafka_backend.py:383-389 | with one span a segment, segment i has the id and the text of span i, the text empty where the span has none |
| `SortedStrings.AscendingIsSorted` | edc_translation/kafka_backend.py:440-448 | a strictly ascending list is what sorting its members gives |
| `SortedStrings.LeTells` | edc_translation/kafka_backend.py:440-448 | one text comes before another exactly when it is a prefix of it or has the lower character where they first differ |
| `Reassembly.BySegmentKeepsTheLast` | edc_translation/kafka_backend.py:430-434 | for each segment of the job the dictionary holds the status of its last result, and nothing for the others |
| `Reassembly.PlanTells` | edc_translation/kafka_backend.py:435-452 | the plan names the job and the expected segments; both sorted lists are strictly ascending; received, missing and failed hold exactly the segments with a result of this job, the expected ones without, and those whose last result is no success; ready exactly when the last two are empty |
| `Reassembly.MissingOfAppend` | edc_translation/kafka_backend.py:435-439 | the missing list keeps the order and the repetitions of the expected one |
| `Reassembly.ReadyIff` | edc_translation/kafka_backend.py:422-452 | ready exactly when every expected segment has a result and no received segment's last result is other than succeeded |
| `Reassembly.SameReportsSamePlan` | edc_translation/kafka_backend.py:422-452 | permuting, repeating or mixing in other jobs' results leaves the plan identical when results for a segment agree |
| `Reassembly.OrderIsIrrelevantIffResultsAgree` | edc_translation/kafka_backend.py:430-452 | all permutations give the same plan if and only if no two results for one segment disagree on success |
| `Reassembly.AppendingShrinksMissing` | edc_translation/kafka_backend.py:435-439 | more results only strike segments off the missing list, in order |
| `Reassembly.FanOutComesBackInOrder` | edc_translation/kafka_backend.py:383-452 | one success per segment of a fan-out makes the plan ready, and up to 999,999 segments it lists them in fan-out order |
| `KafkaSteps.WireIsLosslessIff` | edc_translation/kafka_backend.py:706-759 | exactly which items cross the topic unchanged |
| `KafkaSteps.WireKeepsIdsIff` | edc_translation/kafka_backend.py:706-759 | exactly which items keep their job and work ids across the topic |
| `KafkaSteps.EnvelopeTells` | edc_translation/kafka_backend.py:743-759 | each field of the envelope is the item's own of that name, and the job id "unknown" where it has none |
| `KafkaSteps.OpeningTells` | edc_translation/kafka_backend.py:706-741 | each field of the item made from an envelope, with nothing in those it does not carry |
| `KafkaSteps.OneMoreDecoded` | edc_translation/kafka_backend.py:563-572 | records are taken one by one: a job envelope becomes an item, another record is skipped |
| `KafkaSteps.StepConserves` | edc_translation/kafka_backend.py:523-674 | every step keeps the count of every item and loses at most one per failed send |
| `KafkaSteps.EveryRunConserves` | edc_translation/kafka_backend.py:523-674 | over every interleaving, submitted and foreign items = buffer + submit queue + unread topic + poll queue + polled + lost, counted by wire form; lost never exceeds failed sends |
| `KafkaSerials.EveryItemIsInOnePlace` | edc_translation/kafka_backend.py:523-674 | over every interleaving each single submitted item and foreign record, told apart by a serial number, is in exactly one of buffer, submit queue, unread topic, poll queue, polled, lost and skipped, once, and what is there is that very item, as submitted or as the topic carries it |
| `KafkaSteps.EveryRunKeepsOrder` | edc_translation/kafka_backend.py:523-674 | over every interleaving no queue reorders: what left each queue is a prefix of what entered it |
| `KafkaSteps.WithoutBrokerFirstInFirstOut` | edc_translation/kafka_backend.py:611-674 | with no broker, polls return exactly the submitted items in submit order |
| `KafkaQueues.KafkaWorkQueue.Accounted` | edc_translation/kafka_backend.py:472-674 | at all times the object's history is conserved and in order, and every single item is in one place |
| `KafkaQueues.KafkaWorkQueue.Submit` | edc_translation/kafka_backend.py:611-635 | buffers the item locally without a library or a connection, else queues its envelope; the other queues stay as they are; one submit step of the model |
| `KafkaQueues.KafkaWorkQueue.Poll` | edc_translation/kafka_backend.py:664-674 | returns the oldest buffered item, else with the library there the oldest consumed one, else none; that one item, and no other, leaves its queue and is what the history says was polled |
| `KafkaQueues.KafkaWorkQueue.DrainSubmits` | edc_translation/kafka_backend.py:544-559 | sends the oldest envelopes, up to the limit, in order |
| `KafkaQueues.KafkaWorkQueue.SendRaises` | edc_translation/kafka_backend.py:544-559 | a failed send takes one envelope off the queue, stored or lost, and disconnects |
| `KafkaQueues.KafkaWorkQueue.EnqueueBatch` | edc_translation/kafka_backend.py:563-572 | enqueues what decodes, in order, and skips the rest |
| `KafkaQueues.KafkaWorkQueue.ConsumeBatch` | edc_translation/kafka_backend.py:560-574 | reads at most five records, advances past all of them and enqueues those that decode; the topic and the other queues stay as they are |
| `Base64Url.PaddingIsRestored` | edc_translation/auth.py:647-653 | the padding put back before decoding is the padding stripped after encoding |
| `Base64Url.B64IsClean` | edc_translation/auth.py:647-648 | the encoded text is ASCII, without dots or pads |
| `Base64Url.DecodeUndoesB64` | edc_translation/auth.py:647-653 | every byte string comes back from its stripped base64url text |
| `Base64Url.SymbolCodes` | edc_translation/auth.py:647-648 | the alphabet is that of base64url in RFC 4648, by character code |
| `Base64Url.QuadHoldsThreeBytes` | edc_translation/auth.py:647-648 | four symbols hold three bytes, first bits first: read as numbers they are equal |
| `SessionTokens.SplitUndoesJoin` | edc_translation/auth.py:551-571 | splitting a token joined from dot-free header and payload gives the three parts back |
| `SessionTokens.SessionRoundTrip` | edc_translation/auth.py:535-596 | for every principal, secret, lifetime and times, a created token parses to the same subject, tenant, roles and scopes before it expires and is rejected as expired from then on |
| `SessionTokens.AcceptedIsSigned` | edc_translation/auth.py:569-580 | a token is accepted only if its signature is the HMAC, under the secret it is checked with, of its header and claims |
| `SessionTokens.AcceptedIsAsClaimed` | edc_translation/auth.py:581-596 | and only with an HS256 header and an expiry ahead; subject, tenant, roles and scopes are those its claims name |
| `SessionTokens.OtherSecretsReject` | edc_translation/auth.py:569-580 | checked with any other secret a created token is rejected for its signature, unless that secret gives the same HMAC |
| `SessionTokens.CreatedTokenCarries` | edc_translation/auth.py:535-562 | header, claims and signature of a created token: all six claims, the lists sorted, signed with the secret |
| `SessionTokens.SignatureIsDetermined` | edc_translation/auth.py:569-580 | two accepted tokens over the same header and payload are the same token |
| `SessionTokens.AcceptanceEndsAtExpiry` | edc_translation/auth.py:583-596 | an accepted token, however made, gives the same principal at every time before the expiry it carries and is rejected as expired from then on |
| `TokenStore.IdsDistinctAndLogGrows` | edc_translation/auth.py:335-361 | over every run token ids stay distinct and the log of every prefix is a prefix of the log |
| `TokenStore.SaveAgreesIffFaithful` | edc_translation/auth.py:335-346 | in a store that agrees with its log a save keeps it so exactly when the record has the last use the store has for its id, none for a new id |
| `TokenStore.LastUsedAgreesWithLog` | edc_translation/auth.py:335-488 | over every run of saving fresh ids unused, authenticating and revoking, each token's last use is the time of its last use event |
| `TokenStore.LastUsedAgreesWithLogIff` | edc_translation/auth.py:335-488 | over runs of any operations that holds throughout exactly when every save carries the last use the store has for its id and every use recorded by hand repeats one the store has |
| `TokenStore.StepKeepsRevokedIff` | edc_translation/auth.py:378-420 | an operation keeps a token revoked exactly when it does not save it anew without its revocation |
| `TokenStore.SavingAnewRevivesToken` | edc_translation/auth.py:335-346 | for every token: saved, revoked and saved anew as it was, it is refused after the revocation and authenticates again after the save |
| `TokenStore.RevocationIsForGood` | edc_translation/auth.py:378-488 | a revoked token never authenticates again unless it is saved anew without its revocation |
| `TokenStore.RevokedForGoodWhenIssuedOnce` | edc_translation/auth.py:378-488 | so in runs where each id is saved once a revoked token never authenticates again |
| `TokenStore.AuthenticationTells` | edc_translation/auth.py:70-74 | the first token that verifies is accepted if and only if it is not revoked and its expiry lies ahead; only its own last use changes; the attempt is logged once, as a use at that time or as a denial with its reason |
| `TokenStore.UnknownTextIsNotFound` | edc_translation/auth.py:422-488 | a text that verifies against no stored hash is not found, and neither tokens nor log change |
| `TokenStore.SaveTells` | edc_translation/auth.py:335-346 | a save takes out the token of that id, leaves the others in order and puts the record last; the log is unchanged |
| `TokenStore.JsonTokenAuditStore.SaveToken` | edc_translation/auth.py:335-346 | replaces the token of that id, at the end of the list |
| `TokenStore.JsonTokenAuditStore.RecordAuditEvent` | edc_translation/auth.py:356-361 | appends the event |
| `TokenStore.JsonTokenAuditStore.RevokeToken` | edc_translation/auth.py:378-420 | marks every token of that id revoked now, leaves the others as they are and logs one revocation by the actor, or finds none and changes nothing |
| `TokenStore.JsonTokenAuditStore.PrincipalFromToken` | edc_translation/auth.py:422-488 | decides by the first token that verifies: used and logged, or denied and logged, or not found |
| `Unicode.DecodeUndoesUtf8` | edc_translation/text_batch.py:271-275 | strict UTF-8 decoding gives back every text from its UTF-8 bytes |
| `Unicode.DecodeUndoesUtf16` | edc_translation/text_batch.py:258-282 | the same for UTF-16 of either byte order, surrogate pairs included |
| `Unicode.EncodeUndoesDecode` | edc_translation/text_batch.py:271-275 | what strict UTF-8 decoding accepts is, byte for byte, the UTF-8 of the text it gives |
| `Unicode.DecodesIffEncoded` | edc_translation/text_batch.py:271-275 | so it accepts exactly the UTF-8 of texts: no overlong form, no surrogate, nothing cut short |
| `Unicode.KnownEncodings` | edc_translation/text_batch.py:258-282 | the encodings of four code points, one of each length, and both byte orders |
| `TextEncoding.VerdictsExclude` | edc_translation/text_batch.py:648-658 | no byte string matches both null-byte patterns |
| `TextEncoding.Utf8ReadsBackIff` | edc_translation/text_batch.py:258-282 | a NUL-free text in any script is read back from its UTF-8 bytes exactly when it does not begin with U+FEFF, and then under the utf-8 label |
| `TextEncoding.Utf16IsRecognisedIff` | edc_translation/text_batch.py:648-658 | BOM-less UTF-16 is recognised for what it is exactly when over 30% of its units have a zero high byte and under 5% a zero low byte |
| `TextEncoding.Utf16ReadsBack` | edc_translation/text_batch.py:258-282 | such a text is read back from BOM-less UTF-16 of either byte order |
| `TextEncoding.LatinReadsBack` | edc_translation/text_batch.py:258-282 | every NUL-free Latin-1 text of two or more characters is among them |
| `TextEncoding.AsciiReadsBackIff` | edc_translation/text_batch.py:258-282 | a NUL-free ASCII text is read back from BOM-less UTF-16 exactly when it is not a single character |
| `TextEncoding.MarkedUtf8ReadsBack` | edc_translation/text_batch.py:258-260 | every text behind a UTF-8 byte order mark is labelled by it with certainty and read back |
| `TextEncoding.MarkedUtf16ReadsBack` | edc_translation/text_batch.py:258-262 | the same behind a UTF-16 mark of either byte order |
| `TextEncoding.FallbacksInOrder` | edc_translation/text_batch.py:268-282 | NUL-free bytes without a mark that are no text's UTF-8 are code page 1252 if it defines them all, else what the charset library says, else Latin-1 |
| `TextBatch.TextFileBatchRepository.AddFileResult` | edc_translation/text_batch.py:180-188 | records the result and keeps the counters equal to the number of results and of failures |
| `TextBatch.TextFileBatchRepository.MarkFailed` | edc_translation/text_batch.py:222-230 | marks the job failed and completed with the error |
| `TextBatch.ProcessFiles` | edc_translation/text_batch.py:448-558 | records one result per file, in order, up to the first file that ends the loop, that one included exactly if it failed; returns that file's error, or none when every file was passed |
| `TextBatch.FirstStopTells` | edc_translation/text_batch.py:448-558 | the loop ends at the first file without a relative path, or the first to fail if it is not to go on after failures, and passes all others |
| `TextBatch.VerdictIff` | edc_translation/text_batch.py:433-581 | succeeded and completed-with-errors, each if and only if: the run began, its manifest could be written if asked for, and every file was converted, or some failed while it was to go on |
| `TextBatch.Run` | edc_translation/text_batch.py:414-581 | for every pattern of failures the job ends terminal with exactly the status its outcome calls for, and a failed one with the error of what stopped it: the target, the discovery, the output directory, the first file to end the loop, or the manifest; its results are those of the files up to the one that ended the loop, neither more nor fewer, with counters that agree; it names a manifest exactly when it got through its files and one was asked for |
| `TextBatch.StatusTells` | edc_translation/text_batch.py:180-230 | succeeded and completed-with-errors mean all files processed, with no or some failures; without continue-on-error at most one failure is recorded, it is the last entry, and the job failed |

## Left out

- DurableSafety.EveryRunIsSafe: the acks and nacks of a run are of items that do not pair two rows, as no polled item does (`DurableSafety.EveryPolledItemIsCoherent`); `DurableSafety.AckKeepsInvIff` and `DurableSafety.NackKeepsInvIff` say exactly what the others do to the invariant.
- DurableQueues.DurableQueue.Ack: after an item that pairs two rows the new state is stated, but the history ends there.
- DurableQueues.DurableQueue.Nack: the same.
- ImpatientWorker.ImpatientWorkerLeavesRowWaiting: is about the list of transactions the loop makes when no time passes but its own sleeps; that the loop makes them is not proved.
- DurableWorker.RunUntilIdle: is about one worker that does not crash and starts with no row leased, which is where retry termination and the sort are promised; other workers meanwhile are covered by the theorems about every run. The poll interval is in whole seconds of the queue's clock.
- LocalWorker.RunForever: models the calls that end; `LocalWorker.ForeverEndsIffItHasAReason` says exactly which do not.
- KafkaSteps.EveryRunConserves: counts items by the form they have after the topic, because the topic drops fields; `KafkaSerials.EveryItemIsInOnePlace` tells them apart. Each record is read once, so redelivery after a reconnect is not covered.
- SessionTokens.SessionRoundTrip: JSON, HMAC-SHA-256 and `int(text)` are parameters; JSON is assumed to round-trip.
- TextEncoding.Utf16IsRecognisedIff: compares the null ratios as real numbers, not as floating-point ones.
- Postgres itself: transactions are atomic steps in commit order, their clock does not go back along it, and rows locked by a concurrent claim are a parameter of the poll; rows that tie in the claim's order may come out in either order.
- Job columns that no property here speaks of (target language, provider, tenant, metadata, updated-at), the metadata of results, and the connection and row-decoding helpers.
- Marking a job running and other direct writes to the job repository, which the durable queue does not do.
- Dead-letter and result publishing on Kafka, the choice of topic by event type, the segment path of envelope decoding, auto-commit of offsets, and the repository record a submit may create beside the queue entry.
- The translation itself, document validation and HTTP: processing an item is an arbitrary function, and so are the time it takes and what the charset library guesses.
- PBKDF2 (token verification is an arbitrary predicate), the JSON file under the token store and its locking, and listing or filtering tokens and events.
- Clearing the batch repository during a run, batch logs, timestamps and output writing; file discovery and each file's conversion are parameters.
- Model prewarming, health endpoints, the command line, the FastAPI, MCP and admin surfaces, the outbox and the other stores.
