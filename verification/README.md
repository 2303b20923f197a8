# Verified model of the account service's transaction worker

The account service submits extrinsics to a Frequency chain on behalf of providers and reports their
outcome to the provider's webhook. Its worker holds no transaction state in memory: four protocols
meet in a handful of Redis structures. This project models them in Dafny and proves what they keep
over whole runs.

1. **Publish, watch, scan, notify.** The publisher submits a transaction and stores an entry (birth,
   death, success event, reference id) in the watch list. A scan walks the chain block by block,
   skipping ahead to the smallest birth, matches the watched hashes, classifies the outcome, posts
   notifications, adds the withdrawn capacity to an epoch counter, expires dead entries, commits the
   deletions last, and only then stores the block's number as last seen.
2. **Capacity gate.** A job is admitted while the epoch counter, which the notifier writes behind the
   chain, is below a limit. A refusal pauses the queue and arms one named timer.
3. **Nonce leasing.** A Redis script leases the first nonce of a window of fifty keys that expire by
   themselves.
4. **Batch handover.** Two Redis scripts fill an open batch and hand it over to a locked slot.
5. **Webhook health check.** Two counters of consecutive outcomes and one timer with a capped
   exponential backoff.

## How the model is built

| file | module | what it holds |
|---|---|---|
| `Chain.dfy` | `Chain` | blocks, events, matching, sums of withdrawn capacity |
| `Transactions.dfy` | `Transactions` | jobs, watch-list entries, event reading, notification bodies |
| `BlockPass.dfy` | `BlockPass` | the effect of a block and of a range of blocks; its declarative reading; skip-ahead |
| `CapacityGate.dfy` | `CapacityGate` | the admission test and its effect on queue and timers |
| `Publisher.dfy` | `Publisher` | the shared Redis keys and the publisher, as classes |
| `Notifier.dfy` | `Notifier` | the notifier and its scan loop, as a class with its loops |
| `Protocol.dfy` | `Protocol` | publisher, scanner, chain and crashes as a step system; its safety invariant |
| `Accounting.dfy` | `Accounting` | invariants about notifications and counters; every reachable state |
| `Guarantees.dfy` | `Guarantees` | the guarantees over whole runs |
| `Overshoot.dfy` | `Overshoot` | how far an epoch can overshoot its limit |
| `NonceLeases.dfy` | `NonceLeases` | the nonce service, its script, runs of many callers |
| `Batches.dfy` | `Batches` | the batch scripts and runs of them |
| `HealthCheck.dfy` | `HealthCheck` | the health checker, its sessions and its delays |

Code that updates fields or Redis keys in place is a class whose methods have the source's loops and
branches; each is proved equal to a specification function, and the lemmas are about those functions.
Concurrency is in `Protocol`: publishing, chain growth, finalization and crashes interleave with every
part of a scan. The two views are tied by `Guarantees.UninterleavedPass`: a block's steps with nothing
in between have exactly the effect proved of the class method `TxnNotifier.ProcessCurrentBlock`. The scan's
other steps go where the scan loop goes (`Guarantees.StepsGoWhereLoopGoes`), and a job is admitted exactly when
the publisher's check admits it (`Overshoot.AdmissionIsStep`).

A step of `Protocol` covers a stretch of awaits of which only one effect is visible. A scan parameter
check is one step because the watch list only shrinks through the scan itself and the chain only grows.
An exception that a scan does not swallow ends the process, so it is the `Crash` step. A crash inside
the webhook retry loop appears as a crash after the pass: the pass counts as made, its deletion is not
committed.

## Assumptions

- The chain is append-only, a hash is included at most once, and epochs do not decrease along it.
- A transaction is included only strictly between its birth and its death and above the head at which
  it was published; its birth is at or below the finalized head then. Submitting and storing the entry
  is one step, although the write at `publisher.service.ts:117` is not awaited.
- One scan at a time: the guard is read at `blockchain-scanner.service.ts:45` and set after an await, at
  line 54. One notifier process per Redis.
- A dispatch error is a module error (`notifier.service.ts:154`).
- The event filter at `notifier.service.ts:131` compares the phase's index with a pair of hash and
  number; it is read as comparing the number.
- A 32-byte hash is the number it encodes; `section.method` names are an enumeration; `u128` amounts
  are naturals.
- Whether a scan is limited to finalized blocks is a parameter, `onlyFinalized`. The code passes it the
  trust-unfinalized setting itself (`notifier.service.ts:53`), the opposite of `ENVIRONMENT.md:9`; the
  statements cover both values.
- Issued capacity is fixed within an epoch, and may differ between epochs. The expiry of the epoch counters is not modelled; the code
  gives `SETEX` milliseconds where it takes seconds (`notifier.service.ts:69-70`), a thousand epochs.
- A check reads the epoch and that epoch's counter at one moment (`publisher.service.ts:199`, `203` are two
  awaits), and in `Protocol` a job is admitted only by a check whose queries succeed; one whose query fails
  admits regardless of the counter (`CapacityGate.Answers`), and is not counted by the overshoot bound.
- The boot reads the finalized head and stores it at one moment (`notifier.service.ts:31-32`): what is
  published or finalized in between lies above the head that was read.
- Capacity checks run one at a time.
- The scheduler registry raises an error when an unknown name is deleted or a known one added, and keeps
  a timer's name after it has fired.
- A Redis key with expiry `t` exists while now < t, and clocks do not run backwards.
- Node queries of a scan are answers per block number, so the chain may grow while a scan runs.

## Findings

Each of these is a property one would expect and the code does not have; the lemma named gives the
condition under which it holds, or the input for which it fails.

- **Boot race.** With an empty watch list at startup the notifier sets last seen to the finalized head
  (`notifier.service.ts:28-32`). A job published between the two awaits is never found if its block is
  finalized in between (`Guarantees.BootRaceMisses`). Over all sequences of steps, no transaction is ever
  missed iff no boot-time write skips past a watched one (`Guarantees.NothingMissedIffBootsSafe`); the
  other theorems about runs are stated for exactly those sequences (`Protocol.IsRun`). A write is safe
  whatever block comes first iff everything published since the read is dead already
  (`Guarantees.BootSafeIffNoneCanFollow`).
- **Fractional percentage.** A percentage that is not whole makes `BigInt` throw while chain capacity
  remains; the error is caught and the job is admitted (`CapacityGate.GateOpenMeaning`, third clause), with
  the queue left as it was. So once the chain's capacity is used up and the queue paused, the timer's own
  check cannot wake it when capacity is back (`CapacityGate.FractionStrands`).
- **Stranded queue.** The registered name of a timer that has fired wakes nothing, and the queue's pause
  outlives the process. A check run by the fired timer, or at startup on a paused queue, that fails in any
  way leaves the queue paused with nothing to wake it; so does a job's check whose resume fails, since the
  timer is already deleted. These are all the ways (`CapacityGate.AwakeUnlessStranded`, an equivalence for
  each event, and `CapacityGate.AlwaysAwakeIffNoneStrands` over all sequences).
- **Repeated notification.** A crash between a notification and the commit repeats it, and nothing bounds
  how often (`Guarantees.NotifiedAnyNumberOfTimes`); the number of passes is exact
  (`Guarantees.CrashesLoseNothing`), and one iff no crash fell between the transaction's own handling and
  its commit (`Guarantees.NotifiedExactlyOnce`). A crash between a successful counter update and the commit
  has the block counted again, by exactly its amount (`Guarantees.CapacityConserved`).
- **No retries, no notification.** With `HEALTH_CHECK_MAX_RETRIES` = 0 no webhook post is attempted and
  the entry is removed all the same (`Notifier.AttemptedMeaning`).
- **Fallback nonce.** When all fifty keys are live the service returns the chain nonce plus fifty without
  leasing it: in a burst, two calls get the same nonce iff both come after the fiftieth
  (`NonceLeases.SameNonceIffFallback`).
- **Locked batch.** The header of `lockBatch.lua` says a still locked batch's data is returned; within the
  interval the script returns a bare -2, and handing the data out after it does not renew the lock
  (`Batches.LockedRowsWithheld`).
- **Second health-check session.** The timer's name is never removed when a session ends, so starting
  another raises an error; but the timer is set before the error is raised, and the session runs all the
  same (`HealthCheck.NextSessionThrowsAndRuns`).
- **Health-check session restarted.** A start while a timer is pending leaves two timers, and nothing else
  does (`HealthCheck.OneTimerIffTimely`). The old one outlives the new session's first check iff that check
  ends the session at once (`HealthCheck.OldTimerOutlives`), and then the signal is emitted twice
  (`HealthCheck.SignalRepeated`). Nothing in the repository emits the event that starts a session.
- **Retry interval.** `webhookRetryIntervalSeconds` is passed as milliseconds
  (`provider-webhook.service.ts:90`); the model passes it on unchanged.
- **Slices.** The `slice` calls at `notifier.service.ts:230` and `245` remove nothing, so a matched entry
  also meets the expiry test and may be deleted twice; harmless (`Protocol.CommitRemoves`).

## Model

| member | source | states |
|---|---|---|
| Chain.MatchesExactly | apps/worker/src/transaction_notifier/notifier.service.ts:118-123 | a position is matched iff it lies in the block and its hash is pending |
| Chain.MatchedHashes | apps/worker/src/transaction_notifier/notifier.service.ts:118-123 | the hashes at the matched positions are exactly the pending hashes that the block includes |
| Chain.EventsOfMeaning | apps/worker/src/transaction_notifier/notifier.service.ts:140-142 | the events read for an extrinsic are found at increasing positions of the block, each is a record of that extrinsic, and every record of that extrinsic is among them |
| Chain.WithdrawnIsSum | apps/worker/src/transaction_notifier/notifier.service.ts:134-136 | what a block withdraws for a set of transactions is the sum of the amounts of all CapacityWithdrawn records of theirs, each at its own position |
| Chain.WithdrawnInBlock | apps/worker/src/transaction_notifier/notifier.service.ts:129-136 | transactions included in one block withdrew in that block's epoch what the block withdrew for them, and in no other |
| Transactions.HandleSiwfTxnResult | libs/common/src/blockchain/blockchain.service.ts:330-352 | the loop over a sign-up's events computes the specification that SiwfResultMeaning characterises |
| Transactions.SiwfResultMeaning | libs/common/src/blockchain/blockchain.service.ts:330-352 | identifier and address are those of the last MsaCreated event and undefined iff there is none; likewise the handle and HandleClaimed, and the provider and DelegationGranted |
| Transactions.FindEventFirst | apps/worker/src/transaction_notifier/notifier.service.ts:145-149 | the lookup finds the first event with the name, and nothing iff no event has it |
| Transactions.ClassifyMeaning | apps/worker/src/transaction_notifier/notifier.service.ts:145-226 | success is reported iff the success event is present and no failure event is; failure iff a failure event is present |
| Transactions.ClassifiedInBlock | apps/worker/src/transaction_notifier/notifier.service.ts:140-152 | over the block's own records: success iff the extrinsic emitted an event with the stored name and no ExtrinsicFailed |
| Transactions.SuccessMeaning | apps/worker/src/transaction_publisher/publisher.service.ts:75-103 | from the job to the block: an entry is classified a success iff its transaction did not fail and emitted BatchCompleted for a sign-up, a PublicKeyAdded for an added key, a HandleClaimed for the handle types |
| Transactions.UnknownTypeBare | apps/worker/src/transaction_notifier/notifier.service.ts:160-207 | a type the publisher never writes would be reported with its reference id alone |
| Transactions.PublisherWritesPublishableTypes | apps/worker/src/transaction_publisher/publisher.service.ts:75-114 | an entry is written for every type but SIWF_SIGNIN, with every field of the job, and with BatchCompleted for a sign-up, PublicKeyAdded for an added key and HandleClaimed for the two handle types |
| Transactions.NotificationFields | apps/worker/src/transaction_notifier/notifier.service.ts:160-208 | a success notification carries the stored reference id, type and provider; handle and key ones the fields of the first event of their kind and no others; sign-up ones the identifier and account of the last MsaCreated and the handle of the last HandleClaimed event, undefined iff there is none |
| BlockPass.ScanMeetsSpec | libs/common/src/utils/blockchain-scanner.service.ts:69-77 | a scan of (a, b] leaves exactly the entries that no block of it includes and that outlive b, notifies exactly for the entries remaining before each block, and counts exactly what those withdrew |
| BlockPass.MatchedIffAlive | apps/worker/src/transaction_notifier/notifier.service.ts:118-247 | an entry included at k is matched there iff no earlier scanned block included it and none expired it, even if it expires at k itself |
| BlockPass.SkipAheadRefines | apps/worker/src/transaction_notifier/notifier.service.ts:95-109 | scanning from the larger of last seen and the smallest birth gives the same list, counters and notifications as scanning every block after last seen |
| BlockPass.ReprocessingIsIdle | apps/worker/src/transaction_notifier/notifier.service.ts:111-251 | processing a block twice, with unconcerned entries published in between, changes nothing the second time |
| BlockPass.ExpiryEmptiesList | apps/worker/src/transaction_notifier/notifier.service.ts:238-247 | once a block at or above every death is processed the list is empty |
| BlockPass.MatchedPasses | apps/worker/src/transaction_notifier/notifier.service.ts:139-231 | the loop over the matched positions makes the same notifications, in the same order, as a walk over all extrinsics |
| CapacityGate.GateOpenMeaning | apps/worker/src/transaction_publisher/publisher.service.ts:204-220 | in the configuration's terms: an amount admits iff used < amount; a whole percentage p iff 100 (used + 1) <= issued * p; a fractional one always |
| CapacityGate.AnswersMeaning | apps/worker/src/transaction_publisher/publisher.service.ts:204-220 | in numbers: if no query fails a job is admitted iff capacity remains and used < amount, or 100 (used + 1) <= issued * p for a whole percentage p; a failing query admits |
| CapacityGate.CompletesMeaning | apps/worker/src/transaction_publisher/publisher.service.ts:197-269 | a check stops early iff a query fails, or the percentage is fractional while capacity remains, or a call of the branch it takes fails |
| CapacityGate.CheckLeaves | apps/worker/src/transaction_publisher/publisher.service.ts:222-265 | a completed check pauses the queue iff it refuses, with the timer set for the blocks left of the epoch at 12000 milliseconds each; an admission deletes the timer and retries the capacity failures, also if its resume fails; any other failure changes nothing |
| CapacityGate.CapacityFailuresMeaning | apps/worker/src/transaction_publisher/publisher.service.ts:248-251 | the jobs retried are all those that failed for lack of capacity and no others, in order |
| CapacityGate.AwakeUnlessStranded | apps/worker/src/transaction_publisher/publisher.service.ts:222-271 | a job's check leaves a paused queue with a timer yet to fire iff it is not a failing resume of a paused queue; a check run by the fired timer or at startup does so, on a paused queue, iff it completes |
| CapacityGate.AlwaysAwakeIffNoneStrands | apps/worker/src/transaction_publisher/publisher.service.ts:195-272 | over any sequence of job checks, fired timers and restarts a paused queue always has its timer armed iff no event of those kinds strands it |
| CapacityGate.FractionStrands | apps/worker/src/transaction_publisher/publisher.service.ts:209-239 | with no failing call at all: a fractional percentage, capacity used up and back in the next epoch, leave the queue paused with no timer armed |
| CapacityGate.FailedCheckStrands | apps/worker/src/transaction_publisher/publisher.service.ts:237-269 | a refusal followed by any check of the timer or of a restart that does not complete leaves the queue paused with no timer armed |
| CapacityGate.PausedIffTimerRegistered | apps/worker/src/transaction_publisher/publisher.service.ts:222-266 | once a check completes, whatever events and failures came before, the queue is paused iff the capacity timer is registered, iff it is armed, iff that check refused |
| CapacityGate.OneTimer | apps/worker/src/transaction_publisher/publisher.service.ts:229-263 | no sequence of events touches a timer other than the one named capacity timer; only a restart loses the others |
| Publisher.TransactionPublisher.CheckCapacity | apps/worker/src/transaction_publisher/publisher.service.ts:195-272 | the answer and the new queue, registry and armed timer, for every limit and every failing call |
| Publisher.TransactionPublisher.RetryCapacityFailures | apps/worker/src/transaction_publisher/publisher.service.ts:248-258 | exactly the jobs that failed for lack of capacity are retried, in order |
| Publisher.TransactionPublisher.Process | apps/worker/src/transaction_publisher/publisher.service.ts:62-126 | which of the four endings a job has; a submitted one, and only it, adds its own entry, every field and each type's success event given, under its own hash; counters and last seen stay |
| Notifier.EventsOfRelevant | apps/worker/src/transaction_notifier/notifier.service.ts:130-142 | filtering the events twice, by all matched extrinsics and by one, gives that extrinsic's own events |
| Notifier.TotalOfRelevant | apps/worker/src/transaction_notifier/notifier.service.ts:130-136 | the block total is the sum of what the pending extrinsics withdrew, each event once |
| Notifier.AttemptedMeaning | apps/worker/src/transaction_notifier/notifier.service.ts:210-223 | a body is posted at all iff retries are allowed, delivered at most once, and given up only after the maximum number of failures |
| Notifier.AliveBeforeLatest | apps/worker/src/transaction_notifier/notifier.service.ts:85-93 | while the list-empty check lets a scan go on, the scan is below the latest death |
| Notifier.TxnNotifier.Hvals | apps/worker/src/transaction_notifier/notifier.service.ts:113-115 | all entries of the list and nothing else, in any order |
| Notifier.TxnNotifier.GetLastSeenBlockNumber | apps/worker/src/transaction_notifier/notifier.service.ts:95-109 | the stored number, or the smallest birth if that is larger |
| Notifier.TxnNotifier.SetEpochCapacity | apps/worker/src/transaction_notifier/notifier.service.ts:60-74 | the epoch's counter gains the amount and no other changes; a failing update changes nothing |
| Notifier.TxnNotifier.BuildResponse | apps/worker/src/transaction_notifier/notifier.service.ts:160-208 | the body the switch builds is the one NotificationFields describes |
| Notifier.TxnNotifier.Notify | apps/worker/src/transaction_notifier/notifier.service.ts:210-223 | one delivery is added, whose attempts stop at the first success or at the maximum |
| Notifier.TxnNotifier.HandleMatch | apps/worker/src/transaction_notifier/notifier.service.ts:139-226 | one matched extrinsic makes its pass iff it succeeded |
| Notifier.TxnNotifier.HandleMatches | apps/worker/src/transaction_notifier/notifier.service.ts:139-231 | the match loop queues the deletion of exactly the matched hashes and makes their passes in order |
| Notifier.TxnNotifier.MatchedPositions | apps/worker/src/transaction_notifier/notifier.service.ts:117-123 | the search by snapshot entries finds exactly the watched positions |
| Notifier.TxnNotifier.CountWithdrawn | apps/worker/src/transaction_notifier/notifier.service.ts:129-136 | a block with matches adds to its epoch exactly what the watched extrinsics withdrew |
| Notifier.TxnNotifier.QueueExpired | apps/worker/src/transaction_notifier/notifier.service.ts:236-247 | the expiry loop adds exactly the dead entries to the queued deletions |
| Notifier.TxnNotifier.ProcessMatches | apps/worker/src/transaction_notifier/notifier.service.ts:117-234 | deletions, counter and passes of a block's matches, nothing at all when there is none |
| Notifier.TxnNotifier.ProcessCurrentBlock | apps/worker/src/transaction_notifier/notifier.service.ts:111-251 | the block's whole effect on list, counters and notifications is the specification that ScanMeetsSpec iterates |
| Notifier.TxnNotifier.ScanBlock | libs/common/src/utils/blockchain-scanner.service.ts:70-72 | one turn extends the scanned range by one block and stores its number |
| Notifier.TxnNotifier.ScanLoop | libs/common/src/utils/blockchain-scanner.service.ts:69-77 | the loop processes a contiguous range of available blocks, stops only for an empty list or the end of the chain, and ends by the latest death even on a chain without end |
| Notifier.TxnNotifier.Scan | libs/common/src/utils/blockchain-scanner.service.ts:44-94 | a scan processes (from, to], starting after the larger of last seen and the smallest birth, at most max(1, latest death - last seen) blocks; in finalized-only mode only finalized ones; last seen becomes the last block processed |
| Protocol.BaseStep | apps/worker/src/transaction_notifier/notifier.service.ts:95-251 | every step, publishing during boot included, keeps the safety invariant, a boot-time skip provided it passes over nothing watched: watched transactions are included only ahead of the scan, the snapshot misses nothing of its block, what has left the list was included or can no longer be |
| Protocol.CommitRemoves | apps/worker/src/transaction_notifier/notifier.service.ts:228-250 | the deletions remove exactly the snapshot entries that the block includes or expires, and keep everything published since |
| Accounting.NextIsWatched | apps/worker/src/transaction_notifier/notifier.service.ts:143-144 | the lookup by hash never misses, and no extrinsic is handled twice in a block |
| Accounting.PassesTrueStep | apps/worker/src/transaction_notifier/notifier.service.ts:139-231 | every step keeps: each pass reports what the chain holds for its transaction |
| Accounting.NotifiedStep | apps/worker/src/transaction_notifier/notifier.service.ts:139-250 | each step keeps the number of passes of a transaction exact: one for each crash that found it handled and uncommitted, one more once it is settled, none without a success on the chain |
| Accounting.BalancedStep | apps/worker/src/transaction_notifier/notifier.service.ts:60-74 | each step keeps an epoch's balance exact: counter plus lost updates equals what accounted transactions withdrew plus what crashes after the counter update had counted for nothing |
| Accounting.Reachable | apps/worker/src/transaction_notifier/notifier.service.ts:95-251 | every state of every run satisfies the safety invariant, and its passes are true |
| Guarantees.WatchedAheadOfScan | apps/worker/src/transaction_notifier/notifier.service.ts:95-251 | a watched transaction is included only above last seen and above every block ever committed |
| Guarantees.LeavesAtItsBlock | apps/worker/src/transaction_notifier/notifier.service.ts:228-250 | an entry leaves only at a commit: of the block that includes it, or of one at or past its death, and then no later block ever includes it |
| Guarantees.CommitTakesItsBlock | apps/worker/src/transaction_notifier/notifier.service.ts:228-250 | a commit removes every watched transaction of its block and keeps every entry published since the snapshot |
| Guarantees.ReprocessingMatchesNothing | apps/worker/src/transaction_notifier/notifier.service.ts:111-251 | in any reachable state, processing any committed block again notifies and counts nothing, and only expires entries already dead |
| Guarantees.NotifiedExactlyOnce | apps/worker/src/transaction_notifier/notifier.service.ts:145-250 | a transaction off the list with a success on the chain was notified in exactly one pass iff no crash fell between its own handling and its commit; without a success in none; and every pass reports what the chain holds |
| Guarantees.CrashesLoseNothing | apps/worker/src/transaction_notifier/notifier.service.ts:125-250 | with crashes anywhere: the number of passes is exactly the crashes between handling and commit plus one once handled or off the list, so no success leaves the list un-notified; and what the transactions off the list withdrew is counted but for lost updates |
| Guarantees.ReportableMeaning | apps/worker/src/transaction_notifier/notifier.service.ts:139-226 | the chain holds a success to report for a published transaction iff it emitted, at its place, what its type calls for and did not fail |
| Guarantees.NotifiedIffSucceeded | apps/worker/src/transaction_notifier/notifier.service.ts:139-250 | an included transaction that has left the list was notified iff it emitted what its type calls for and did not fail |
| Guarantees.PassContents | apps/worker/src/transaction_notifier/notifier.service.ts:139-208 | every pass ever made is for a transaction that sits in its block and succeeded there, and its fields are what that transaction emitted |
| Guarantees.NotifiedAnyNumberOfTimes | apps/worker/src/transaction_notifier/notifier.service.ts:210-250 | for every n there is a run that notifies one transaction in n passes |
| Guarantees.CapacityConserved | apps/worker/src/transaction_notifier/notifier.service.ts:60-136 | at every moment an epoch counter plus the updates lost for good equals what the accounted transactions withdrew in that epoch's blocks, failed ones included, plus what was counted for blocks that a crash has counted again |
| Guarantees.CountersNeverFall | apps/worker/src/transaction_notifier/notifier.service.ts:60-74 | along any run no epoch counter falls |
| Guarantees.ClosedGateStaysClosed | apps/worker/src/transaction_publisher/publisher.service.ts:206-220 | once the limit test fails in an epoch, it fails at every later check of that epoch, whatever the thresholds of other epochs |
| Guarantees.LastSeenRises | libs/common/src/utils/blockchain-scanner.service.ts:71-72 | storing a block's number raises last seen; only the boot-time skip can lower it; in finalized-only mode it never falls nor passes the finalized head |
| Guarantees.StepsGoWhereLoopGoes | libs/common/src/utils/blockchain-scanner.service.ts:58-77 | the steps of the protocol's scan start, go on and stop exactly where the scan loop of the class does, given the same answers of the node |
| Guarantees.BootRaceMisses | apps/worker/src/transaction_notifier/notifier.service.ts:28-33 | a run in which a job published during boot is left behind last seen |
| Guarantees.NothingMissedIffBootsSafe | apps/worker/src/transaction_notifier/notifier.service.ts:26-33 | of all sequences of steps, those in which no watched transaction is ever left at or below last seen are exactly those whose boot-time skips pass over none |
| Guarantees.BootSafeIffNoneCanFollow | apps/worker/src/transaction_notifier/notifier.service.ts:28-33 | a boot about to write is safe, whatever block is built and finalized before the write, iff everything published meanwhile is dead already |
| Guarantees.UninterleavedPass | apps/worker/src/transaction_notifier/notifier.service.ts:111-251 | a block's steps with nothing in between do to list, counters and notifications what processing the block does |
| Overshoot.BudgetStep | apps/worker/src/transaction_publisher/publisher.service.ts:195-220 | every step keeps an epoch's spending plus the waiting jobs' allowance within the budget of that epoch's own threshold |
| Overshoot.AdmissionIsStep | apps/worker/src/transaction_publisher/publisher.service.ts:195-220 | with its queries answered from the state, the publisher's check admits a job iff admission is a step of the protocol, so the bounds speak of this check |
| Overshoot.OvershootBounded | apps/worker/src/transaction_publisher/publisher.service.ts:195-220 | with at most k admitted and unaccounted transactions of cost at most c, an epoch's spending never exceeds max(limit - 1, 0) + k c plus what lost updates hid, nor its counter that bound plus what crashes repeated; the limits of other epochs do not matter |
| NonceLeases.AllocatesLeastFree | libs/common/src/services/nonce.service.ts:34-46 | a lease goes to the least nonce from the chain's on without a live one; the unleased fallback is returned iff all fifty are live |
| NonceLeases.NonceService.GetNextPossibleKeys | libs/common/src/services/nonce.service.ts:49-56 | fifty consecutive keys from the given nonce |
| NonceLeases.NonceService.IncrementNonce | lua/incrementNonce.lua:10-23 | the first key without a live lease is leased and its position returned; -1, and no change, iff there is none |
| NonceLeases.NonceService.GetNextNonce | libs/common/src/services/nonce.service.ts:34-46 | service and script together make the allocation that AllocatesLeastFree describes |
| NonceLeases.LeasesSeparated | lua/incrementNonce.lua:14-23 | over any callers and chain nonces two leases of one nonce are at least the lease time apart |
| NonceLeases.LiveWasLeased | lua/incrementNonce.lua:14-23 | a live lease was there at the start or was taken within the lease time |
| NonceLeases.FallbackAfterFifty | libs/common/src/services/nonce.service.ts:39-42 | the fallback is returned only after fifty distinct calls leased within one lease time |
| NonceLeases.GapFreeBurst | libs/common/src/services/nonce.service.ts:34-46 | with no live lease at the start, a burst of up to fifty calls is given consecutive nonces from the chain's on |
| NonceLeases.BurstGiven | libs/common/src/services/nonce.service.ts:34-46 | what every call of a burst from no live lease is given: consecutive leased nonces up to the fiftieth, then always the same unleased fallback |
| NonceLeases.SameNonceIffFallback | libs/common/src/services/nonce.service.ts:39-42 | two calls of such a burst are given the same nonce iff fifty calls came before both, and then neither holds a lease |
| Batches.BatchKeys.AddToBatch | lua/addToBatch.lua:19-34 | the reply and all four keys after an add, the missing row count included |
| Batches.BatchKeys.LockBatch | lua/lockBatch.lua:25-50 | the reply and all four keys after a lock, script errors included |
| Batches.SlotsConsistent | lua/lockBatch.lua:41-48 | in every reachable state metadata and rows exist together in each slot, a locked batch has its timestamp, and no script fails |
| Batches.RowCountBoundsRows | lua/addToBatch.lua:21-33 | in the open and in the locked batch the row count is at least the number of rows, with equality iff no job was added twice |
| Batches.BatchesConserved | lua/lockBatch.lua:41-50 | a lock and a release keep the list of all batches ever as it is; an add changes only the open one |
| Batches.FirstWriteStays | lua/addToBatch.lua:33 | once written a job's data stays in its batch through later adds to it, locking and release |
| Batches.AcceptedAddKept | lua/addToBatch.lua:19-34 | after every accepted add its job has, ever after, the data first written for it in the batch open then |
| Batches.AddRefused | lua/addToBatch.lua:23-26 | an add is refused iff a batch is open whose metadata has no row count, and then changes nothing |
| Batches.AddReplies | lua/addToBatch.lua:20-34 | every add replies with its number among the adds accepted into its batch |
| Batches.OpenersMetadataKept | lua/addToBatch.lua:21-32 | while a batch is open its metadata is that of the add that opened it, but for the row count, which is the number of adds |
| Batches.StoredWasAdded | lua/addToBatch.lua:33 | whatever is stored was put there by an add of that job and data |
| Batches.LockTakesWholeBatch | lua/lockBatch.lua:25-50 | a lock is granted iff a batch is open and none is locked; it moves the whole batch and returns exactly its rows and its metadata with the time of the lock; otherwise nothing changes |
| Batches.LockedMetadataIsOpeners | lua/lockBatch.lua:41-50 | until the release the locked metadata is that of the add that opened the batch, with the number of its adds and the time of the lock |
| Batches.LockFails | lua/lockBatch.lua:31-42 | the script fails iff locked metadata lacks its timestamp, changing nothing, or the open batch has no rows, with the metadata already renamed |
| Batches.LockedBatchUntouched | lua/lockBatch.lua:30-39 | until released, a locked batch stays as it is |
| Batches.LockedRowsWithheld | lua/lockBatch.lua:25-39 | between a lock and its release: no open batch, reply 0; within the interval, no data; after it, the same rows and timestamp to every caller |
| HealthCheck.ProviderWebhookService.Reschedule | libs/common/src/services/provider-webhook.service.ts:70-80 | the timer registered under the name is cleared and a new one set and registered, or, before anything is set, an error raised if there is no such name |
| HealthCheck.ProviderWebhookService.CheckProviderWebhook | libs/common/src/services/provider-webhook.service.ts:47-94 | counters, timers and signal after one check |
| HealthCheck.ProviderWebhookService.StartWebhookHealthCheck | libs/common/src/services/provider-webhook.service.ts:96-105 | counters reset and a timer set to check at once; it is registered if the name is free, and otherwise runs unregistered while an error is raised |
| HealthCheck.CountersAreTrailingRuns | libs/common/src/services/provider-webhook.service.ts:47-94 | in any session started while no timer is pending: until a run is long enough, the counters are the lengths of the trailing runs, nothing is emitted, and exactly one timer is pending |
| HealthCheck.TrailingMeaning | libs/common/src/services/provider-webhook.service.ts:47-59 | the length of a trailing run: that many equal outcomes at the end, and a different one before them |
| HealthCheck.LastDelay | libs/common/src/services/provider-webhook.service.ts:75-103 | the delay of the timer pending in a session: zero at first, the configured interval after a success, the failure's own delay after a failure |
| HealthCheck.FirstLongRunDecides | libs/common/src/services/provider-webhook.service.ts:61-93 | the first failure run of max(1, maxRetries) shuts down, the first success run of the threshold resumes, whichever comes first; no timer is left pending and no check follows |
| HealthCheck.EndsIffDecided | libs/common/src/services/provider-webhook.service.ts:61-93 | a session is over, with no timer pending, iff some prefix of its outcomes ends in such a run; until then no check raises an error |
| HealthCheck.CheckThrows | libs/common/src/services/provider-webhook.service.ts:61-92 | a check raises an error iff it does not end the session and the name is not registered; the outcome is then counted and no timer set |
| HealthCheck.NextSessionThrowsAndRuns | libs/common/src/services/provider-webhook.service.ts:96-105 | starting a session after one that ended raises an error, yet its check is set, and it goes just as the first: over iff decided, with counters equal to the trailing runs until then |
| HealthCheck.OneTimerIffTimely | libs/common/src/services/provider-webhook.service.ts:70-105 | over any sequence of starts and fired timers there is never more than one timer pending iff no session is started while one is |
| HealthCheck.OldTimerOutlives | libs/common/src/services/provider-webhook.service.ts:61-105 | if a session is started while the registered timer is pending, that timer outlives the first check of the new session iff the check ends it at once |
| HealthCheck.SignalRepeated | libs/common/src/services/provider-webhook.service.ts:61-105 | and then a check does follow the end of the session, and the same signal is emitted twice |
| HealthCheck.DelaysRiseToCap | libs/common/src/services/provider-webhook.service.ts:75-78 | along a failure streak delays never fall and never pass the cap |
| HealthCheck.TimeToShutdown | libs/common/src/services/provider-webhook.service.ts:61-80 | if every request fails, shutdown comes after exactly max(1, maxRetries) checks, and the time waited is the sum of the delays between them |
| HealthCheck.TotalDelayClosedForm | libs/common/src/services/provider-webhook.service.ts:75-78 | that sum is 2^u - 1 seconds for the u uncapped delays plus the cap for each of the others |
| HealthCheck.TotalDelayBounded | libs/common/src/services/provider-webhook.service.ts:75-78 | n delays sum to at most n times the cap |

## Left out

- Notifier.TxnNotifier.ProcessCurrentBlock: as a class method it assumes that nothing is published meanwhile; interleavings and crashes are in `Protocol`, and `Guarantees.UninterleavedPass` joins the two.
- Notifier.TxnNotifier.Scan: likewise; a scan interrupted by an exception is the `Crash` step of `Protocol`.
- Overshoot.OvershootBounded: the bound takes the load and the cost as assumptions on every state of the run, since nothing in the worker limits either.
- Notifier.TxnNotifier.Notify: whether a post succeeds is nondeterministic; HTTP itself is not part of this model.
- Batches.BatchKeys.AddToBatch: a `rowCount` stored as JSON null is not modelled, only a missing one; the release of a locked batch is an assumed step, as no caller of the scripts is in the repository.
- HealthCheck.ProviderWebhookService.CheckProviderWebhook: configured counts and intervals are whole numbers.
- Reorganisations of unfinalized blocks, and several notifier processes on one Redis: the code has no mechanism for either.
- The capacity and epoch queries of `blockchain.service.ts`, era decoding, signing and event decoding: parameters of the model.
- `handlePublishHandleTxResult` and `handlePublishKeyTxResult`: one branch each, folded into the notification body.
- `getWebhookList`, `createWebhookRsp` by itself, `updateLastProcessed.lua`, the base consumers, Redis watchdogs: one-branch members.
- BullMQ internals, job deduplication, controllers, DTOs, configuration loading, the mock webhook server, load scripts and deployment files.
