# Verified models of the Intevia core protocols

Dafny models of the parts of the Intevia repository whose correctness is a matter of protocol or of
reconciliation, with proofs of what they promise. `dafny verify dfyconfig.toml` checks everything.

## The email outbox

`email_foundation` keeps an outbox in database tables. Several workers and requesters run short transactions
against the same rows: `claim` leases a row, charges the day's capacity and opens or resumes a numbered attempt;
`deliver` is fenced by the lease and sends inside a savepoint; `recover` takes back expired leases and reconciles
uncertain acceptance; `housekeeping` erases payloads but keeps the rows; `request_verification` and
`verify_address` change the challenge underneath all of them.

* `OutboxModel` holds the rows and, beside them, a history that no operation reads (claims, sends, captures,
  accepted and issued challenges, and what every drawn identifier was used for).
* `OutboxTransactions` says what each atomic block does, as a function from the tables before to the tables after.
  A crash inside a block is a block that did not happen; the inner savepoint undoes the capture only.
* `OutboxInvariant` is what every committed state satisfies, kept by every transaction.
* `OutboxRuns` puts the transactions in any order, by anybody, into runs from the empty tables. Database time does
  not run backwards, settings do not change during a run, drawn identifiers are fresh, and digests are injective.
* `OutboxTheorems` states the promises over whole runs: capture at most once, fencing, conservation of the attempt
  budget, reserved capacity, an honest `claim`, no blind resend, safe challenges, tombstones.
* `OutboxChallenges` follows a verification challenge, and a row whose challenge has ended, through whatever others
  do.
* `OutboxClaiming`, `OutboxDelivery`, `OutboxRecovering`, `OutboxRequesting` and `OutboxErasing` say what each
  operation answers, on the columns of the rows and the recorded past alone: when a row is taken, when a message is
  captured, when a request is granted, what is taken away, and that every retry is made.
* `OutboxStore` is the worker and the service as they run: a class whose methods update the tables field by field,
  each proved to have exactly the effect of its transaction function. `recover` and `housekeeping` let other workers
  act between their transactions. `OutboxWorker` is one whole pass of a worker.

Two facts about the code that the proofs bring out. The branch of `claim` that fails a row whose attempts are
exhausted is never taken while the settings stay as they are (`NeverExhausted`). And on a row whose acceptance is
uncertain the local capture backend always answers ABSENT, truthfully (`CaptureLookupIsTrue`), because the savepoint
has undone the capture in every case that leaves a row uncertain.

## The verdict on a test log

`VerdictParse` models `join_description_lines` and `parse` from recognised lines and failure heads on: grouping by
test, one record per reported test, and the reconciliation of every total. `VerdictOutcome` is the accounting of one
test's status events against its failure blocks. `VerdictClassify` is the route's decision, and `VerdictAnswers` says
of all three answers when they are given, on the log, the summary and the question alone (`Answers`); an ordinary PASS
is given exactly for a clean run (`PassIffClean`). `IsolationVerdict` recomputes the
isolation verdict from checkpoint records; its PASS is exactly a partition of the collected tests.

## Databases on a shared server

A verification run creates and drops databases on a server where others do so too. `DatabaseOwnership` has the
server, the run's receipts and records, what others may do, and the invariant; `DatabaseRoute` has the methods of the
route and of the owned test runner, each a stretch of a run, with others acting between any two statements except
between a CREATE and the reading of the new oid, and between the check of an oid and the DROP that follows;
`DatabaseRuns` states over whole runs that only databases the run created, and whose identity it confirmed, are ever
dropped. CLEAN means that none of these is left. It also means that no database is left whose CREATE was sent but
never confirmed, with one exception. Cleanup settles a name under which such a database stands if and only if the
readable file shows no creation receipt for it and a refused collision (`HiddenIff`). One call of the owned runner
writes an attempt or a refusal into its file, so this takes two calls on one file: `CollisionHidesACreation` is such a
run, and with one call for each file CLEAN leaves nothing (`FinaliseCleanup`). Which calls raise, and whether a CREATE
fails or its reply or process is lost, are inputs of the methods, so their contracts say what is done in each case.

## Formats, vocabulary and version chains

`Bytes`, `ByteFormats` and `BlobBatch` model the parsers for git's status list, tree objects and blob batches, each
with its rendering and both directions of the round trip. A tree object cut short inside its last object name is
accepted by `parse_tree` (`TruncatedTreeParses`); `TreeIff` says of the data exactly which are: whole renderings, and
renderings cut short by one to twenty bytes at the end.
`AuthorityFacts` and `AuthorityTable` model the vocabulary of authority references: the strict check of the producer
refines what the compatible reader can read, no reference matches two entries of the table, and for role events and
role definitions what the producer may report is said exactly. `VersionChains` and
`CourseBook` model the append-only chains of course versions and activity transitions, and the guarded pointer to a
course's current version. `Prelude` and `Ordering` are shared vocabulary.

## Model

| member | source | states |
|---|---|---|
| OutboxTheorems.AtMostOneCapture | email_foundation/worker.py:164-240 | over a whole run, in every interleaving of every transaction, an intent's capture is created by at most one transaction |
| OutboxTheorems.OnlyDeliveryCaptures | email_foundation/worker.py:177-239 | a capture appears only by a delivery under a running lease, to a recipient who is not barred, for a notice only at the verified address and with a qualified audience; and none was ever there before |
| OutboxDelivery.DeliveredIff | email_foundation/worker.py:130-240 | a delivery succeeds, and captures the payload with its digest and time, if and only if its lease is held and runs, the recipient is not barred, the payload is there and for the address under challenge or the verified one with a qualified audience, and the backend raises nothing |
| OutboxDelivery.LeaseIsNeeded | email_foundation/worker.py:179-189 | without the running lease a delivery changes nothing |
| OutboxDelivery.RefusedDelivery | email_foundation/worker.py:190-205 | a delivery that could not succeed under its lease sends nothing and suppresses the row, or fails it exactly when the audience check of a notice at its verified address raised, each with its code |
| OutboxDelivery.FailedDelivery | email_foundation/worker.py:213-240 | whatever the backend raises leaves no capture, one send and one spent attempt, and the row suppressed, uncertain, or, not accepted, queued while budget is left and failed after, each with its code |
| OutboxTheorems.CaptureMeansAccepted | email_foundation/backend.py:47-85 | while a capture exists its intent is accepted and it has the digest of the message that was enqueued; an intent not accepted was never captured |
| OutboxTheorems.BatchIsIdempotent | email_foundation/backend.py:47-75 | a batch is captured under its own intents with its own digests, earlier captures stay, and repeating it succeeds without effect |
| OutboxTheorems.HeldLease | email_foundation/worker.py:89-127 | a held lease means a queued row and exactly one attempt in the table carrying it: the row's newest, claimed and not started |
| OutboxTheorems.NoStartedAttempt | email_foundation/worker.py:179-239 | no committed state shows a started attempt; a claimed attempt is one whose row holds its lease |
| OutboxTheorems.DeliveryOutcome | email_foundation/worker.py:206-240 | a permitted delivery is accepted exactly when the backend raises nothing, no earlier capture standing in its way; after any exception there is no capture, one spent attempt, and a retry only with budget, after the retry interval |
| OutboxTheorems.BudgetConserved | email_foundation/worker.py:65-73 | attempts of an unfinished intent are numbered 1..count without a gap, sends are the count less a pending newest attempt, and the count never exceeds the maximum |
| OutboxTheorems.NeverExhausted | email_foundation/worker.py:65-73 | with constant settings an open row always has budget, so the exhaustion branch is dead |
| OutboxTheorems.ResumableIsPending | email_foundation/worker.py:65-73 | the row that `claim` resumes is exactly the one whose newest attempt never reached the backend, under its own number |
| OutboxTheorems.ClaimIsHonest | email_foundation/worker.py:31-109 | the complete effect of a claim, on the columns of the rows: which row, under which number, what it closed on the way, what it charged, and, when it finds nothing, that no row waits, the day is spent, or only notices wait and their share is spent |
| OutboxClaiming.WorkTaken | email_foundation/worker.py:31-109 | a granted claim took a requested or queued row without a lease whose time had come and whose challenge could still be answered, resumed or under the next number, and no waiting row that is left goes before it: essential first, then older, then by key |
| OutboxClaiming.NothingWaits | email_foundation/worker.py:37-88 | a claim that finds nothing leaves no waiting row that the claims made that day leave room for |
| OutboxClaiming.OthersPassedOver | email_foundation/worker.py:49-64 | besides the row it takes a claim only closes rows whose challenge can no longer be answered |
| OutboxClaiming.ClaimTakesFirst | email_foundation/worker.py:31-109 | with a lawful reserve, room on the day and an answerable challenge a claim takes exactly the first waiting row |
| OutboxClaiming.RetriedAfterRefusal | email_foundation/worker.py:218-226 | a message the backend did not accept is claimed again under the next number when its turn comes at or after the retry time |
| OutboxClaiming.RetriedAfterReclaim | email_foundation/worker.py:265-316 | a lease that ran out is taken back and claimed again at once under the same number |
| OutboxClaiming.RetriedAfterRequeue | email_foundation/worker.py:281-312 | a row that recovery queued again is claimed under the next number after the retry interval |
| OutboxTheorems.LeaseNeverReturns | email_foundation/worker.py:92-127 | a lease that was drawn and is not held by an intent is never held by it again |
| OutboxTheorems.StaleLeaseIsFenced | email_foundation/worker.py:179-189 | once a lease is cleared or replaced, delivering under it changes nothing in any later state |
| OutboxTheorems.OneWorkerActs | email_foundation/worker.py:179-189 | of two drawn, different leases for one intent one is dead: from now on, in every later state of the run, delivering under it changes nothing |
| OutboxTheorems.CapacityHolds | email_foundation/models.py:148-159 | on every day of every run claims stay within the total, notices leave the reserve, and the stored counters equal the claims made, so the current day's was never reset |
| OutboxTheorems.EssentialIsNotStarved | email_foundation/worker.py:74-88 | while fewer than the reserve of essential claims were made that day, a claim that finds nothing leaves no essential row waiting |
| OutboxTheorems.NoBlindResend | email_foundation/worker.py:243-320 | over every transaction: an uncertain row is moved exactly by its own recovery on a conclusive answer, and queued again exactly when an adapter authoritative about absence and capturing locally answered ABSENT and budget is left |
| OutboxTheorems.NoBlindResendInRuns | email_foundation/worker.py:281-312 | over runs: a row that was uncertain and is queued later was requeued in between by such a recovery, with budget left and never captured |
| OutboxTheorems.TurnMeans | email_foundation/worker.py:265-316 | what the report of one recovery transaction means: counted exactly when the row changed, an uncertain row exactly when it is uncertain no more, an expired lease always; an uncounted one changed nothing |
| OutboxTheorems.CaptureLookupIsTrue | email_foundation/backend.py:77-85 | on every uncertain row the capture backend answers ABSENT, and indeed nothing was ever captured for it |
| OutboxTheorems.ExpiredIsReclaimed | email_foundation/worker.py:265-316 | an expired lease is reclaimed at once, under the same attempt number, without asking the adapter |
| OutboxTheorems.ReclaimedNow | email_foundation/worker.py:265-316 | after its own recovery transaction a lease that had expired at the scan is gone, whoever reclaimed it |
| OutboxTheorems.StaysGone | email_foundation/worker.py:265-316 | a lease that is gone does not come back while other workers act |
| OutboxTheorems.ExpiredFirst | email_foundation/worker.py:250-263 | the scan lists every expired lease before every uncertain row |
| OutboxTheorems.ScanDone | email_foundation/worker.py:250-320 | a scan worked through, or one that reached an uncertain row, has left no lease that was expired at the scan |
| OutboxRecovering.ScanOrder | email_foundation/worker.py:250-263 | the scan finds exactly the leases that ran out and the uncertain rows, the former first and the older first among either |
| OutboxRecovering.RecoveredIff | email_foundation/worker.py:265-316 | a recovery changes a row exactly when its lease ran out, or it is uncertain and the answer is conclusive |
| OutboxRecovering.ReclaimLeaves | email_foundation/worker.py:265-316 | a lease that ran out leaves the row waiting at once under the same number, and nothing else changed |
| OutboxRecovering.ReconciliationLeaves | email_foundation/worker.py:281-316 | an uncertain row that is moved is accepted, queued for after the retry interval, or failed for want of budget, and its attempt is over with the same code |
| OutboxTheorems.CapturedWhileLive | email_foundation/worker.py:130-148 | a verification message is captured only while its challenge is the recipient's live, unexpired, unanswered one for that address |
| OutboxChallenges.JustIssued | email_foundation/service.py:249-283 | after a granted request its row can be delivered at once, carrying its own payload, and every row the identity was waiting for is closed |
| OutboxChallenges.RequestThenVerify | email_foundation/service.py:217-311 | with any transactions of others between a granted request and its answer: the answer is accepted exactly when the identity is active, the challenge was not replaced or answered before, has not expired, and the token is its own; it then verifies exactly the proposed address, ends the challenge and closes the waiting rows |
| OutboxRequesting.VerificationGrantedIff | email_foundation/service.py:217-283 | over every run, a request under an unused key is granted if and only if it is admitted, its key is lawful, the template is as it was, every earlier challenge of the identity lies at least the resend interval back and fewer than the daily limit were issued that day; otherwise it leaves no trace |
| OutboxRequesting.VerificationStored | email_foundation/service.py:249-283 | what a granted request leaves: an untouched row ready at once, the new challenge on record, the waiting rows of the identity closed, and nothing else changed |
| OutboxRequesting.MessageStoredIff | email_foundation/service.py:101-200 | a message under an unused key is stored if and only if it is approved, its recipient has a verified address and its key is lawful; the row is untouched, ready at once and goes to that address |
| OutboxChallenges.ChallengeEndsBy | email_foundation/service.py:217-311 | over every transaction, a challenge stays as it is, is replaced by a new one of its own identity no sooner than allowed, is answered in time by its own token, or is cleared after it expired |
| OutboxChallenges.IdleIsLeftAlone | email_foundation/worker.py:130-148 | no transaction takes up a row whose challenge has ended |
| OutboxChallenges.ReachKeepsQuiet | email_foundation/worker.py:130-148 | over any stretch of a run: a challenge that is there was never altered, and such rows stay untouched |
| OutboxChallenges.EndedIsRedacted | email_foundation/worker.py:361-396 | a row whose challenge had ended at the scan is redacted by its own erasing transaction at the latest |
| OutboxTheorems.AcceptedOnce | email_foundation/service.py:286-311 | each challenge is accepted at most once in a run |
| OutboxTheorems.ChallengesAreLimited | email_foundation/service.py:217-283 | new challenges of an identity never exceed the daily limit and are at least the resend interval apart |
| OutboxTheorems.Absorbing | email_foundation/worker.py:112-127 | terminal states are never left, terminal times are set exactly there, erased payloads are terminal, and no intent disappears or changes its key, fingerprint or digest |
| OutboxTheorems.OneIntentPerKey | email_foundation/service.py:78-98 | a request key names one intent and fingerprint forever |
| OutboxTheorems.ReplayIsFree | email_foundation/service.py:233-241 | a replayed request changes nothing: the same fingerprint returns the stored intent, another is refused; for a message the fingerprint covers recipient, category, payload and the act it is about, and approval and a verified address are asked for again |
| OutboxTheorems.RedactedNow | email_foundation/worker.py:361-396 | a row finished and aged at the scan is redacted by its own erasing transaction at the latest |
| OutboxTheorems.ErasureMeans | email_foundation/worker.py:361-411 | an erasing transaction reports true exactly when the payload was there and is gone, and false only when it did nothing |
| OutboxErasing.ErasedIff | email_foundation/worker.py:361-385 | it erases exactly a payload that is still there, that nobody holds or doubts, of a row finished at or before the cutoff or with a challenge that can no longer be answered |
| OutboxErasing.ErasureLeaves | email_foundation/worker.py:385-411 | what is left: the row blanked, and closed if it waited; no capture and no attempt of a row finished long enough; of any other the attempts and a blanked capture with its digest and time; and an expired challenge that the row carries gone from the address record |
| OutboxErasing.NothingReadable | email_foundation/worker.py:385-400 | in every state of every run nothing of a redacted message is left in the row or its capture, and until then the capture is the message itself |
| OutboxErasing.CandidateIff | email_foundation/worker.py:339-360 | the scan finds exactly such rows |
| OutboxErasing.OnlyOldIsDeleted | email_foundation/worker.py:412-429 | the closing deletions touch no attempt or capture of an unfinished row, and none from after the cutoff |
| OutboxErasing.NothingOldIsLeft | email_foundation/worker.py:412-429 | unless cut short by the limit they leave none from before it, and no capacity row from before its day |
| OutboxTheorems.AttemptsLeft | email_foundation/worker.py:412-429 | a bounded deletion of attempts removes exactly the chosen old ones, and none is left unless there were more than the limit |
| OutboxTheorems.CapturesLeft | email_foundation/worker.py:412-429 | the same for captures |
| OutboxRuns.ApplyKeeps | email_foundation/worker.py:31-429 | every transaction keeps the invariant, and between its states nothing absorbing is undone, the past only grows and leases are fresh or kept |
| OutboxRuns.RunKeeps | email_foundation/worker.py:31-429 | the same over any stretch of any run |
| OutboxInvariant.ClaimKeeps | email_foundation/worker.py:31-109 | a claim, its loop included, keeps the invariant |
| OutboxInvariant.DeliverKeeps | email_foundation/worker.py:164-240 | a delivery keeps the invariant in every outcome |
| OutboxInvariant.RecoverKeeps | email_foundation/worker.py:265-316 | a recovery transaction keeps the invariant for every adapter and answer |
| OutboxInvariant.EraseKeeps | email_foundation/worker.py:361-411 | an erasing transaction keeps the invariant |
| OutboxInvariant.RequestVerificationKeeps | email_foundation/service.py:217-283 | a verification request keeps the invariant, the limits on challenges included |
| OutboxInvariant.VerifyAddressKeeps | email_foundation/service.py:286-311 | answering a challenge keeps the invariant |
| OutboxInvariant.RequestMessageKeeps | email_foundation/service.py:101-200 | a message request keeps the invariant |
| OutboxTransactions.CloseShrinks | email_foundation/worker.py:35-73 | closing an obsolete row leaves strictly fewer open rows, so the loop of `claim` ends |
| OutboxStore.Store.Claim | email_foundation/worker.py:31-109 | the loop, its rollback included, has exactly the effect of the claim transaction |
| OutboxStore.Store.ClaimOnce | email_foundation/worker.py:35-48 | one turn of the loop: the first eligible row in order is judged, and a turn that goes round again has closed a row |
| OutboxStore.Store.ClaimRow | email_foundation/worker.py:49-109 | what one turn makes of the row it picked, in each of the five cases |
| OutboxStore.Store.TakeCapacity | email_foundation/worker.py:74-88 | the day's row is created when missing and charged exactly when its category has room |
| OutboxStore.Store.TakeLease | email_foundation/worker.py:89-108 | the updates of row and attempt make up the leased intent, resumed or with a new attempt |
| OutboxStore.Store.Finish | email_foundation/worker.py:112-127 | row and attempt give up the lease together |
| OutboxStore.Store.Deliver | email_foundation/worker.py:164-240 | exactly the effect of the delivery transaction, and no missing row or attempt under the invariant |
| OutboxStore.Store.SendUnderLease | email_foundation/worker.py:206-240 | the sending block writes the marker, one send and the outcome, and nothing else |
| OutboxStore.Store.SendInSavepoint | email_foundation/worker.py:213-236 | an exception out of the backend restores the captures and nothing else; the outcome fixes the next state |
| OutboxStore.Store.SendMessages | email_foundation/backend.py:47-75 | the loop captures the whole batch or reports the refusal |
| OutboxStore.Store.RecoverOne | email_foundation/worker.py:265-316 | exactly the effect of one recovery transaction |
| OutboxStore.Store.Recover | email_foundation/worker.py:243-320 | a trace of one transaction for each scanned row in order, others acting before each; the result counts exactly the rows that changed, so rows that stay uncertain do not consume the limit; it stops only at the limit, and otherwise every lease expired at the scan has been reclaimed |
| OutboxStore.Store.RecoverAt | email_foundation/worker.py:265-316 | one more row of the scan, after whatever others did: exactly its recovery transaction with its report, and its lease, if it had expired, is gone, and earlier ones stay gone |
| OutboxStore.Store.RecoverAll | email_foundation/worker.py:264-320 | the loop counts the transactions that changed their row, and stops at the limit or has worked through the scan |
| OutboxStore.Store.EraseOne | email_foundation/worker.py:361-411 | exactly the effect of one erasing transaction |
| OutboxStore.Store.EraseAll | email_foundation/worker.py:360-411 | a trace of one erasing transaction for each scanned row in order, counting those that erased; after it every scanned row is redacted |
| OutboxStore.Store.Housekeeping | email_foundation/worker.py:339-429 | the oldest erasable rows up to the limit, ended challenges included, are redacted and their captures unreadable, and the count is exact; then exactly the chosen old attempts and captures, as many as there are or the limit allows, and all old buckets are gone |
| OutboxStore.Store.OldestFirst | email_foundation/worker.py:357-359 | no candidate left for later is older than one taken now |
| OutboxStore.Store.DeleteOld | email_foundation/worker.py:412-429 | the three deletions in order, each of exactly what was old when it ran, others acting in between |
| OutboxStore.Store.Enqueue | email_foundation/service.py:78-98 | one row per request key: stored, found again, or refused on another fingerprint |
| OutboxStore.Store.SuppressVerification | email_foundation/service.py:203-214 | closes exactly the identity's waiting verification rows |
| OutboxStore.Store.RequestVerification | email_foundation/service.py:217-283 | exactly the effect of the request transaction, with nothing changed on a refusal |
| OutboxStore.Store.VerifyAddress | email_foundation/service.py:286-311 | exactly the effect of answering a challenge |
| OutboxStore.Store.RequestMessage | email_foundation/service.py:101-200 | exactly the effect of the request transaction |
| OutboxWorker.RunWorker | email_foundation/worker.py:323-336 | a stretch of a run that recovers first, then claims at most `limit` rows, draws no identifier beyond those claims, leaves none of them under a running lease, and stops short only on a claim that honestly found nothing or on a misconfiguration |
| OutboxWorker.StaysLetGo | email_foundation/worker.py:323-336 | a lease of this worker that was given up or ran out is never running again, whatever others do |
| OutboxWorker.DeliveryLetsGo | email_foundation/worker.py:164-240 | after its delivery a lease is held by nobody, whether it was used, refused or found gone |
| VerdictParse.JoinDescriptionLines | verification/parse_results.py:53-67 | every line survives in order; a pair is a header without a status and the description that follows, and no such pair is left apart |
| VerdictParse.GroupEvents | verification/parse_results.py:75-101 | ids in order of first appearance, each with exactly its events in log order |
| VerdictParse.GroupBlocks | verification/parse_results.py:103-132 | every recognised block lands with its test, every other is counted |
| VerdictParse.EventsAddUp | verification/parse_results.py:203-207 | per-test counts add up to the count over the log: grouping loses and invents no event |
| VerdictParse.BlocksAddUp | verification/parse_results.py:196-202 | the same for failure blocks |
| VerdictParse.SumEvents | verification/parse_results.py:203-207 | the sums over the per-test records equal the counts over the log |
| VerdictParse.SumBlocks | verification/parse_results.py:196-202 | the counts over all collected blocks equal the counts over the log |
| VerdictParse.Parse | verification/parse_results.py:70-231 | records and every line of the reconciliation, from the log's own counts |
| VerdictParse.LogConserves | verification/parse_results.py:163-214 | if every test is lawful and every block is matched, the log has as many FAIL events as FAIL blocks and as many ERROR events as ERROR blocks |
| VerdictOutcome.EventsMatchBlocks | verification/outcome.py:27-60 | in a lawful test FAIL events (main and sub-test) equal FAIL blocks, and ERROR events ERROR blocks |
| VerdictOutcome.LawfulIff | verification/outcome.py:27-60 | the accounting accepts exactly the lawful tests, said by positions and multiplicities: every failing sub-test has its own block, at most one block stands outside teardown, and a status that is not a failure comes first and alone |
| VerdictOutcome.QuietExcludes | verification/outcome.py:27-60 | a lawful test with a non-failure status has it once, first, and no failure but in teardown |
| VerdictOutcome.OkMeans | verification/outcome.py:63-86 | a lawful `ok` is exactly one `ok` main event, in first position, with only teardown blocks besides |
| VerdictOutcome.LabelIff | verification/outcome.py:63-86 | what each label of a lawful test says, by events and blocks; the conditions exclude each other, so the order of the checks does not matter |
| VerdictOutcome.GreenIff | verification/outcome.py:27-86 | lawful, unblemished and labelled ok or skipped is exactly: no block at all and one `ok`, one `skipped`, or only skipped sub-tests |
| VerdictClassify.Tally | verification/route.py:691-714 | the loop collects exactly the failing, skipping and reported tests, and notices an unpermitted skip |
| VerdictClassify.Classify | verification/route.py:683-755 | the decision as a function of the parsed log and the question asked, whose answers `VerdictAnswers.Answers` characterises |
| VerdictClassify.PassIffClean | verification/route.py:683-755 | an ordinary PASS is given exactly when no failure block exists, the collected tests are reported once each and green, every skip is permitted, and summary and exit status agree |
| VerdictClassify.ExpectedFailurePass | verification/route.py:739-744 | a PASS of a run meant to fail, without fail-fast: every collected target failed in its body, no ERROR entry and no skip exist |
| VerdictAnswers.Answers | verification/route.py:683-755 | FAIL exactly when the log settles the question (skips allowed, no stale permit, everything accounted for, all collected tests or a stopped prefix) and a failure stands in it, or, for a run meant to fail, not every target failed by assertion in its body; PASS exactly for a clean run, or when every target failed so; INCOMPLETE is what is left |
| VerdictAnswers.PermittedIff | verification/route.py:689-706 | a skip is permitted exactly when the last entry for the test, under its full name, holds in this mode |
| VerdictAnswers.ReconIff | verification/parse_results.py:196-214 | the log reconciles exactly when the summary agrees with every count, every head belongs to a reported test, every test is lawful and the tests are the collected ones; all but the last is what a fail-fast prefix needs |
| IsolationVerdict.ReadIsolation | verification/route.py:992-1044 | the verdict over exactly the readable records bound to this run, or a problem |
| IsolationVerdict.PassIffPartition | verification/route.py:1011-1040 | PASS exactly when the CP-A records split the collected tests, one record each, into established and lawfully not applicable, and the suite-wide conditions hold |
| IsolationVerdict.ReasonsMean | verification/route.py:1011-1040 | every other verdict gives each reason exactly when the records show it |
| IsolationVerdict.PassCounts | verification/route.py:1041-1043 | on PASS checkpoints = established + not applicable and applicable = established |
| DatabaseOwnership.ReceiptsAreComplete | verification/ownership.py:48-65 | a file read without a problem shows exactly this run's receipts |
| DatabaseOwnership.OthersKeep | verification/ownership.py:80-110 | other clients can neither break the invariant nor bring a confirmed database back |
| DatabaseOwnership.DropKeeps | verification/route.py:1073-1084 | dropping keeps the invariant exactly for a database this run confirmed |
| DatabaseOwnership.AllClear | verification/route.py:1325-1335 | with every fixture name and every creation receipt settled no confirmed database is left |
| DatabaseOwnership.OnlyHiddenAreLeft | verification/route.py:1325-1335 | with every record, creation receipt and file without a refused collision settled, every database of the run that is left is hidden: attempted, never confirmed, and a refused collision in every file announced for it |
| DatabaseOwnership.FileShows | verification/route.py:1182-1190 | a readable file shows a creation receipt or a refused collision exactly when the run wrote one into it |
| DatabaseOwnership.HiddenIff | verification/route.py:1190-1203 | cleanup settles a name under which a database of the run still stands if and only if the file shows no creation receipt for the name and a refused collision |
| DatabaseOwnership.JudgedIff | verification/route.py:1178-1212 | the decision on a name, by the lines of its file: dropped exactly when every line is the run's own and the database stands with the oid of the last creation receipt; settled exactly when nothing is there, or no creation but some refusal is on record |
| DatabaseOwnership.MayDropIsOwned | verification/route.py:1204-1211 | what cleanup may drop stands under the name and is a database the run confirmed under that name by a receipt in the file |
| DatabaseRuns.EvidenceIsOwnership | verification/ownership.py:99-110 | a receipt or record that matches the current oid is never about somebody else's database |
| DatabaseRuns.StepKeeps | verification/route.py:1047-1246 | every step of the route, of the runner and of others, each guarded by what the code looks at before it, keeps the invariant |
| DatabaseRuns.RunKeeps | verification/route.py:1047-1335 | the invariant holds throughout every run, and whatever the run created has an oid above all those it found |
| DatabaseRuns.OwnedDropsOnly | verification/route.py:1073-1084 | over every run, every DROP hit a database that a CREATE of this run had made under that name after the run began |
| DatabaseRuns.OthersAreUntouched | verification/route.py:1047-1084 | a database the run has not confirmed (colliding, replaced, unconfirmed) survives every step of the run |
| DatabaseRuns.NothingUntraced | verification/route.py:1047-1071 | every database the run ever created, confirmed or not, is gone or stands under its name with a record, an attempt in the file announced for it, or a creation receipt that leads cleanup to it |
| DatabaseRuns.CollisionHidesACreation | verification/route.py:1196-1201 | a concrete run of guarded steps, two calls on one receipts file, after which cleanup settles the name of the run's own database without dropping it |
| DatabaseRuns.EarlierIsNotLost | verification/route.py:1073-1084 | what existed before the run and is gone was dropped by others |
| DatabaseRoute.Route.ReadReceiptsOf | verification/ownership.py:48-65 | the loop reads up to the first line that is unreadable or another run's |
| DatabaseRoute.Route.GuardedDrop | verification/route.py:1073-1084 | a stretch of a run with exactly one DROP, of the owned oid under its name, when that is what it finds, and none otherwise; settled means no database of the run is left under the name |
| DatabaseRoute.Route.CreateFixture | verification/route.py:1047-1071 | a stretch of a run without a DROP whose whole effect is given for every way it can go: not connected, name taken, taken meanwhile, CREATE failed, reply lost, process lost, confirmed; the record always tells the truth, and a result is a fresh confirmed database |
| DatabaseRoute.Route.IssueFixture | verification/route.py:1059-1071 | from CREATE on, the record says exactly what is known: refused, unknown, created or confirmed, in each case with its whole effect |
| DatabaseRoute.Route.SendFixture | verification/route.py:1060-1071 | the CREATE of a free name: nothing, a database under the next oid whose creation or confirmation may be lost, or a confirmed record of exactly that oid |
| DatabaseRoute.Route.WriteCreatedReceipt | verification/route.py:1086-1090 | a receipt written outside the runner names a confirmed fixture and its oid, in a new file, and is a step of a run |
| DatabaseRoute.Route.DropFixture | verification/route.py:1073-1084 | a fixture is recorded as dropped exactly when its own database was dropped, and then nothing of the run is left under its name |
| DatabaseRoute.Route.CreateTestDatabase | verification/ownership.py:80-97 | never drops; keepdb is refused, a name in use gets its refusal receipt, a free one its attempt before the CREATE; a success is a fresh database with its creation receipt in the file, also under the name of a live fixture; nothing else is changed |
| DatabaseRoute.Route.IssueDatabase | verification/ownership.py:90-97 | from CREATE on, nothing is dropped when the name was taken meanwhile, and a success is confirmed by its receipt |
| DatabaseRoute.Route.SendDatabase | verification/ownership.py:90-97 | the CREATE of a free name and, if nothing gets lost, the receipt of exactly the oid it was given |
| DatabaseRoute.Route.WriteCreated | verification/ownership.py:93-96 | the creation receipt names the oid read right after CREATE |
| DatabaseRoute.Route.DestroyTestDatabase | verification/ownership.py:99-110 | drops exactly when the oid under the name is the one in the last creation receipt of a readable file, and then exactly that database, and writes the receipt that says what it did |
| DatabaseRoute.Route.CleanupOne | verification/route.py:1178-1212 | when nothing raises: exactly what the file and the server showed is done, a database that may be dropped and still has its oid is dropped, anything else is left as it was, and the report says so; resolved means no database of the run is left under the name, for a name with a creation receipt always, for any other unless the file shows a refused collision |
| DatabaseRoute.Route.CleanupFixture | verification/route.py:1214-1231 | a confirmed fixture that still has its oid is dropped, nothing else is; resolved, for a record whose CREATE was issued, exactly when no database is under its name, and then none that the run created under it is left |
| DatabaseRoute.Route.CleanupReceiptFile | verification/route.py:1233-1246 | the announced name and once each every name with a creation receipt in the file are visited, only the former when a line is not the run's own; resolved exactly when every visit is; then every name with a creation receipt is settled, and the announced name too unless a collision was refused |
| DatabaseRoute.Route.FinaliseCleanup | verification/route.py:1325-1335 | NOT CLEAN exactly when one visit is not resolved, every announced name and every fixture record having its visit; CLEAN, or nothing to clean, means no database with a confirmed oid of this run exists any more, that every other database of the run that is left is hidden, and that none is left when no file was written into by two calls; nothing to clean exactly without records |
| ByteFormats.ParseStatusZ | verification/route.py:251-271 | the index loop computes the entries of the split input, or the same error |
| ByteFormats.StatusRoundTrip | verification/route.py:251-271 | parsing a rendered status list, renames and copies included, returns exactly its entries |
| ByteFormats.NothingElseParses | verification/route.py:251-271 | whatever parses consists of well-formed entries that use up every non-empty piece of the input in order |
| ByteFormats.ParseTree | verification/bootstrap.py:143-154 | the index loop computes the entries of the data, or the same error |
| ByteFormats.TreeRoundTrip | verification/bootstrap.py:143-154 | parsing a rendered tree object returns exactly its entries |
| ByteFormats.EntryRoundTrip | verification/bootstrap.py:143-154 | one rendered entry is read back, whatever follows it |
| ByteFormats.TreeIsExact | verification/bootstrap.py:143-154 | whatever parses is the rendering of its entries, well formed but for a last object name that may be cut short |
| ByteFormats.TreeIff | verification/bootstrap.py:143-154 | data are accepted if and only if they are a rendering of well-formed entries, whole or with at most the last object name cut off at the end; accepted and not a rendering if and only if one to twenty bytes are missing |
| ByteFormats.CutParses | verification/bootstrap.py:143-154 | every rendering cut short inside its last object name is accepted, with the entries it had but for that name |
| ByteFormats.AcceptedIsCut | verification/bootstrap.py:143-154 | whatever is accepted becomes a rendering when its last object name is filled up |
| ByteFormats.WholeIff | verification/bootstrap.py:143-154 | data are a whole rendering if and only if they parse with a last object name of full length |
| ByteFormats.TruncatedTreeParses | verification/bootstrap.py:143-154 | a concrete truncated object that is accepted |
| BlobBatch.ReadBatch | verification/bootstrap.py:180-193 | on success exactly the requested objects are there, each under its name |
| BlobBatch.BlobReadsBack | verification/bootstrap.py:180-193 | one rendered blob is read back at its place, whatever comes before and after |
| BlobBatch.BatchRoundTrip | verification/bootstrap.py:180-193 | reading a rendered batch returns exactly the blobs, newlines and NULs included |
| BlobBatch.OnlyTheNamedBlobs | verification/bootstrap.py:184-193 | no batch, however framed, is accepted with anything but the named blobs |
| Bytes.DecimalRoundTrip | verification/bootstrap.py:188 | the size of a header is read back |
| Bytes.LeadingWord | verification/bootstrap.py:185 | a header splits at white space into its words |
| AuthorityFacts.StrictRefinesCompatible | core/organism_authority_facts.py:713-734 | whatever the producer's check accepts selects a shape that admits every key, with any exact set met and every value lawful; a refusal is read as one, a qualified output never |
| AuthorityFacts.QualifiedIsReadable | core/organism_authority_facts.py:848-912 | the same for qualified outputs |
| AuthorityFacts.RefusalIsReadable | core/organism_authority_facts.py:848-866 | the same for refusals |
| AuthorityFacts.AtMostOneMatches | core/organism_authority_facts.py:680-700 | among entries kept apart by form or by a discriminator at most one matches any content |
| AuthorityTable.AtMostOneEntry | core/organism_authority_facts.py:343-606 | for every action of the table, every form and every content at most one entry matches, and selection returns exactly that one |
| AuthorityTable.ProposalsAreGrounded | core/organism_authority_facts.py:466-475 | exactly which proposals are accepted: the declared keys and no other, texts for references, a lawful topic, a policy letter, exactly one of configuration and default, and a target that names the role |
| AuthorityTable.DefinitionProposalsAreGrounded | core/organism_authority_facts.py:476-485 | exactly which proposals under a definition are accepted: real references, the coordinator's office when needed, a named role, and participation, custom-role and nominee evidence that fits what the target states |
| AuthorityTable.AssignmentsAreConsented | core/organism_authority_facts.py:486-495 | exactly which transitions are accepted: references, one of three kinds, an assignment with its proposal and a consent, and alternative-route evidence only with a real definition |
| AuthorityTable.RoleForms | core/organism_authority_facts.py:466-495 | which form a role event has, by its target; a proposal from an unknown source is never accepted |
| AuthorityTable.DefinitionsAreGrounded | core/organism_authority_facts.py:900-909 | exactly which recorded, amended and retired definitions are accepted |
| VersionChains.InsertKeeps | core/models.py:3239-3352 | an accepted row keeps every chain linear |
| VersionChains.WalkIsNumbered | core/models.py:3325-3337 | walking predecessors visits the numbers from 1 on, one row each, at strictly increasing times in a course |
| VersionChains.LookupAgreesWithWalk | core/models.py:3239-3288 | looking a version up by number gives the row that walking predecessors meets |
| VersionChains.OneChain | core/models.py:3239-3288 | each owner's rows are one unforked chain numbered 1..n |
| VersionChains.AcceptedIffAppends | core/models.py:3239-3337 | an insert is accepted exactly when it appends the next number to the head of its chain, or opens an empty one with a CREATE, along the workflow, under a request and a lineage not used before |
| VersionChains.OpensWithCreate | core/models.py:2734-2795 | by the edge constraint only CREATE leads from no state, and every state is one of the eight |
| VersionChains.EdgeIff | core/models.py:2747-2795 | the edge constraint is the workflow of activities: where each state can go, and the one action that leads there |
| VersionChains.StraightPath | core/models.py:2747-2850 | in a history where each transition starts where the last one ended, the number tells the state, and a declined or cancelled activity left the straight path at its last row |
| VersionChains.FinishedIsFinal | core/models.py:2747-2850 | in such a history nothing follows a completed, declined or cancelled activity, and none is longer than six rows |
| VersionChains.CheckRow | core/models.py:3306-3351 | the checks of `save`, in order, accept exactly the acceptable rows |
| VersionChains.Transitions.Insert | core/models.py:2673-2850 | the same table for activity transitions, edge constraint included: accepted rows are added, refusals change nothing |
| CourseBook.Courses.AddCourse | core/models.py:3133-3157 | a new course has no current version and a new identity |
| CourseBook.Courses.SaveCourse | core/models.py:3159-3174 | saving a stored course never changes it |
| CourseBook.Courses.InsertVersion | core/models.py:3348-3352 | a version is added exactly when acceptable, and nothing else changes |
| CourseBook.Courses.Advance | core/models.py:3176-3192 | the pointer moves to the version numbered right after it, exactly when the caller's view is current and the version is that one |
| CourseBook.SuccessorByNumber | core/models.py:3188-3190 | naming the current version as predecessor and being numbered right after it are the same |
| CourseBook.PointerTakesEveryStep | core/models.py:3176-3192 | over any history the pointer never goes back and never passes a version |
| CourseBook.HistoryKeeps | core/models.py:3121-3355 | over any history courses and versions are never removed or changed, but for the pointer |
| CourseBook.CurrentStaysBehind | core/models.py:3176-3192 | every version the pointer ever stood on is met walking back from where it stands |

## Left out

- Row locks, `skip_locked` and lock order: each transaction is one step. What `claim` and `recover` report assumes that no row is locked at the scan: with a lock held elsewhere `claim` can find nothing although a row is eligible, and `recover` can return less than the limit although a lease has expired.
- Hashing, UUIDs, clocks and JSON: digests are their pre-images, drawn identifiers are fresh (a worker's own UUIDs are never drawn by another), time is any non-decreasing sequence of readings.
- External email adapters: the backend captures locally in the same transaction, and `backend()` refuses others; at-most-once is not claimed for a provider outside the database. Its configuration checks are not modelled.
- Templates, audiences, packages, credentials, severance and address syntax: what they decide is an input of the requests and of the delivery.
- Attempts and captures are kept inside the intent that owns them, which builds in their foreign keys and the uniqueness of (intent, number); object identity and aliasing of rows are not modelled.
- Settings that change during a run: `NeverExhausted` and the budget bound are about constant settings.
- OutboxStore.Store.Housekeeping: when there are more old attempts or captures than the limit, which of them are deleted is left open. Rows created at the same second are taken in key order, where the source leaves the order open.
- Line and traceback recognition by regular expressions: recognised lines, heads and traceback mentions are the input of the parser model. The isolation text of each test, first-teardown index, lifecycle lines and totals by result are left out.
- VerdictClassify.Classify: the wording of reasons and the details returned beside the verdict are not modelled.
- IsolationVerdict.ReadIsolation: a CP-A record without its test name, on which the source raises, is not modelled, and neither is the order of the listed ids.
- Renaming of databases by other clients: others create and drop, which is what the oid checks are for.
- The template database, its final inspection and the name sweep of cleanup (`verification/isolation` is not part of this model).
- DatabaseRoute.Route.GuardedDrop: an exception inside it is an input of `CleanupOne` and `CleanupFixture`, before or after the DROP; in a check step's own drop it is not modelled.
- Reading commits and walking trees recursively in `materialise`, writing the files, and comparing inventories: input, output and equality of dictionaries.
- AuthorityFacts.StrictRefinesCompatible: the reader itself (`organism_authority._facts_read`) is not part of this model; what is proved is about the shape it walks. Relations, prefixes and messages are left out, and an unhashable value in a request's target, on which a membership test raises, reads as no member.
- CourseBook.Courses.Advance: the version passed in is as stored; a caller who changed it in memory is not modelled. Database aliases are left out, and text grammar is one flag per row.
- State continuity of activity transitions (each starting where the last one ended): the `clean` methods do not enforce it; `StraightPath` and `FinishedIsFinal` are about histories that have it.
- Views, forms, middleware, themes, migrations and triggers; `gate`, `qualification_planes` and `source_audit`: finite tables and plain comparisons.
