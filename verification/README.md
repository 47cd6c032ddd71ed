# Pingerus, verified

Pingerus probes web addresses on a schedule, notices when one goes up or down, and tells its owner.
This project models the part of it that has to survive crashes, lost commits and concurrent workers,
and proves what that part guarantees over every run:

* the **transactional outbox** with leases: table, worker loop, and any number of workers as a state
  machine (`OutboxTable`, `OutboxRunner`, `OutboxProtocol`, `OutboxInvariant`, `OutboxGuarantees`,
  `OutboxOrder`, `OutboxSpacing`, `OutboxHands`, `OutboxWindow`, `OutboxOnce`, `OutboxDrain`,
  `OutboxTogether`, `OutboxFinish`);
* the **status-change detector** on top of `WithTx`, and its composition with the outbox into one
  end-to-end statement (`Transactor`, `Detector`, `StatusEvents`, `EndToEnd`, `RunRecords`, `Liveness`);
* the **scheduler queue**: spacing of fetches and freedom from starvation (`Scheduler`,
  `SchedulerRuns`);
* **retry and backoff** and the **consumer loop** (`Retry`, `Consumer`);
* **auth**: access tokens down to base64url, decimal and JSON text, rotation of refresh tokens over
  whole runs, and the cookie header that carries them (`Base64Url`, `Decimal`, `Claims`, `Jwt`,
  `RefreshTokens`, `Cookie`).

`Prelude`, `Counting` and `Strings` hold what these share.  `dafny verify dfyconfig.toml` checks
everything.

Code that works step by step is modelled by classes and methods with loops: the tables, the worker
tick, `WithTx`, `HandleCheck`, `FetchDue`, `Do`, `Consume`, the token use case, `trimRight`,
`parseCookie`.  Each is proved against a specification function, which the theorems are about, and
states besides, field by field and in the numbers and names of the source, what it leaves behind.  Concurrency is a state machine whose steps carry every choice of the environment; the
worker's tick is proved to be a run of that machine, with other workers acting between any two of its
actions, in which the worker's own steps are the pick, one handler call per message, and the mark, and
the others take every step they can (`OutboxRunner.Runner.Tick`).

Everything from outside is a parameter: clocks, random draws, probe results, which rows other
transactions hold locked, whether a statement fails, whether a commit that reported an error became
durable, how many copies of a message an acknowledged or failed publish left in the broker.  HMAC and
SHA-256 are any function.  `now()` in the database is one clock that does not run backwards, counted
in whole microseconds.

## What turned out not to hold

* *Publishes per window of time.*  Picks of a row are more than a lease apart, but a worker may publish
  long after its pick.  If publishes come at most `delay` after their pick, W workers are guaranteed to
  keep a window T to n of them exactly when n >= 1 + (T + min(delay, W·(ttl + 1)))/(ttl + 1)
  (`WindowBound`); any number of workers, exactly when n >= 1 + (T + delay)/(ttl + 1)
  (`WindowBoundForAny`).  So the bound 1 + T/ttl holds for every T exactly when `delay` is at most one
  clock unit, however many workers there are (`CountBound`).  Publishes can even coincide
  (`StalledWorkerCoincides`): W workers that all stall can publish at one moment, and one of them that
  fails to mark can pick and publish again at that moment, W + 1 in all.  The guaranteed gap is
  ttl + 1 - delay (`PublishSpacing`).  Counted by the start of their leases the publishes do keep
  1 + T/ttl (`PublishesPerLeaseWindow`).
* *Consumers that start at the end of the log* commit past messages they were never handed if they
  restart before their first commit.  Committing is free of gaps exactly with `FromBeginning`
  (`GaplessIff`), which both services set (`internal/config/ping-worker/config.go:22`,
  `internal/config/email-notifier/config.go:22`).
* *A message whose handler failed* may never be retried.  A message that was fetched can be fetched
  again exactly while nothing is committed past it and, if nothing is committed at all, with
  `FromBeginning` (`ComesBackIff`).
* *A commit that failed* is not repeated, although the log line at
  `internal/repository/kafka/consumer.go:151` says so.  Over any stretch of a run the committed offset
  of a partition moves exactly if a message of it is handled and its own commit reaches the broker
  (`CommittedMovesIff`).
* *The lower jitter bound* (1 - J)·d holds for every draw exactly when it is a whole number of
  nanoseconds; otherwise the conversion to `time.Duration` loses a fraction (`LowerBoundExact`).
* *A failed commit* is logged but `WithTx` returns nil (`internal/repository/postgres/transactor.go:47-59`);
  `HandleCheck` then reports success for a flip that was lost.  The next probe finds it again
  (`LostFlipIsRedetected`).
* *Overlap.*  Neither read is locked against the write that follows.  Two handlers of one check that
  read the same status announce the same flip twice exactly when both commit and both probes differ
  from it (`OverlappingHandlersRepeat`); two refreshes that look up one token leave two live tokens
  exactly when neither meets a failure of its own, in whatever order the rest of them goes
  (`OverlappingRefreshesFork`).
* *A refresh can end the session it was to prolong.*  Its caller is left with a live token exactly when
  the revocation was lost, or revocation and replacement were both acknowledged (`HolderCanGoOn`); after
  any other end the presented token is never accepted again and no token was handed out
  (`HolderShutOut`).  That includes a replacement that was stored but reported as failed: its row stays
  live, and nobody has its token (`OrphanedReplacement`).  No live row of the family is left exactly
  when the revocation reaches the database and the replacement does not (`LostReplacement`).

## Model

| member | source | states |
|---|---|---|
| `OutboxTable.SelectCandidates` | internal/repository/postgres/outbox.go:25-34 | the candidate query: eligible unlocked rows, earliest created first, up to the limit, leaving an eligible row behind only for a full batch of rows no younger |
| `OutboxTable.OutboxRepo.Enqueue` | internal/repository/postgres/outbox.go:56-66 | a new key becomes a CREATED row with the given kind and data, created and updated now; a known key changes nothing; an error may hide a durable insert |
| `OutboxTable.OutboxRepo.PickBatch` | internal/repository/postgres/outbox.go:68-108 | at most batch messages, those of distinct unlocked rows that are new or were leased more than ttl ago, each IN_PROGRESS since now and otherwise unchanged; such a row is left behind only for a full batch of rows no younger; after an error nothing changed, or a commit whose outcome was lost leased one possible pick |
| `OutboxTable.OutboxRepo.MarkSuccess` | internal/repository/postgres/outbox.go:110-123 | exactly those named rows that are still IN_PROGRESS become SUCCESS, updated now; no keys, no statement |
| `OutboxRunner.Runner.Tick` | internal/outbox/runner.go:92-160 | one tick, with other workers, clock and enqueues acting between any two of its actions, is a legal run of the protocol: the outcome of a script in which the others' steps offered between are taken whenever they are possible, and the worker's own are exactly the pick of the returned messages, one handler call for each in order, and the mark, or at most a pick whose rows it never saw; the messages are those of rows of the table; `okKeys` are the keys whose handler returned nil; in quiet surroundings it is a good tick |
| `OutboxRunner.Runner.DeliverAll` | internal/outbox/runner.go:112-150 | the dispatch loop, whatever happens in between: the worker's own steps are one handler call per message, in order, and the keys of nil results are remembered in order |
| `OutboxRunner.Runner.Pick` | internal/outbox/runner.go:101-108 | the pick of a tick, seen as a step of the protocol: the worker then holds exactly what was returned; a failed pick leaves it idle |
| `OutboxProtocol.RunAppend` | internal/outbox/runner.go:68-74 | runs of any number of workers compose: a run in two parts is a run from where the first part ended |
| `OutboxInvariant.StepInv` | internal/outbox/runner.go:101-156 | every step (enqueue, pick, publish, mark, crash, time) keeps the invariant tying rows, leases, each worker's hand and `okKeys`, and the broker together |
| `OutboxInvariant.RowLeased` | internal/repository/postgres/outbox.go:29-43 | the lease condition: picking an eligible row adds a lease more than ttl after the last one |
| `OutboxInvariant.PickExclusive` | internal/repository/postgres/outbox.go:31-43 | no two workers ever hold the same lease of a row |
| `OutboxInvariant.RunInv` | internal/outbox/runner.go:76-162 | the invariant over every interleaving of any number of workers |
| `OutboxGuarantees.SuccessWasPublished` | internal/outbox/runner.go:138-156 | in every reachable state a SUCCESS row had a handler call that returned nil and its message is in the broker |
| `OutboxGuarantees.NothingInvented` | internal/outbox/handler.go:56-72 | whatever is in the broker is the message of an enqueued row, its payload unchanged |
| `OutboxGuarantees.LeaseSpan` | internal/repository/postgres/outbox.go:27-43 | picks i and j of one row lie more than (j - i)·ttl apart, over every run |
| `OutboxGuarantees.PicksInWindow` | internal/repository/postgres/outbox.go:27-43 | at most 1 + T/ttl picks of a row within T |
| `OutboxGuarantees.CallsAndCopies` | internal/outbox/runner.go:114-150 | at most one handler call per pick of a row, and at most attempts copies of its message per pick |
| `OutboxSpacing.PublishesPerLeaseWindow` | internal/repository/postgres/outbox.go:24-47 | at most 1 + T/ttl successful publishes of a row belong to leases begun within T |
| `OutboxWindow.PublishesInWindow` | internal/outbox/runner.go:101-150 | counted by the time of the publish: at most 1 + (T + delay)/(ttl + 1), if none came more than delay after its pick |
| `OutboxHands.PublishesByHands` | internal/outbox/runner.go:68-74 | over any run of W workers, however late they publish: at most W + 1 + T/(ttl + 1) publishes of a row within T |
| `OutboxWindow.FullWindow` | internal/outbox/runner.go:101-150 | a reachable state of W workers in which 1 + (T + min(delay, W·(ttl + 1)))/(ttl + 1) publishes of one row fall within T |
| `OutboxWindow.WindowBound` | internal/outbox/runner.go:101-150 | W workers are guaranteed to publish a row at most n times within T if and only if n >= 1 + (T + min(delay, W·(ttl + 1)))/(ttl + 1) |
| `OutboxWindow.WindowBoundForAny` | internal/outbox/runner.go:101-150 | any number of workers, if and only if n >= 1 + (T + delay)/(ttl + 1) |
| `OutboxWindow.CountBound` | internal/repository/postgres/outbox.go:24-47 | for every number of workers, at most 1 + T/ttl publishes within every T are guaranteed if and only if publishes come within one clock unit of their pick |
| `OutboxSpacing.PublishSpacing` | internal/outbox/runner.go:101-150 | publishes under different leases are guaranteed to be gap apart if and only if gap <= ttl + 1 - delay |
| `OutboxWindow.StalledWorkerCoincides` | internal/outbox/runner.go:138-150 | for every number of workers, one included, a reachable state in which two successful publishes of one row happened at one moment |
| `OutboxOnce.RunAdvances` | internal/repository/postgres/outbox.go:18-54 | over any run no row is removed, no status moves back, a SUCCESS row is not picked again, nothing published is taken back |
| `OutboxOrder.EarliestFirst` | internal/repository/postgres/outbox.go:25-33 | in every run a pick leaves a free unlocked row behind only if its batch is full of rows whose enqueue carried no later time |
| `OutboxOnce.StillOurs` | internal/repository/postgres/outbox.go:27-43 | while a worker's lease has not run out, its pick is the latest of that row |
| `OutboxOnce.MarkedInTimeIsFinal` | internal/outbox/runner.go:138-156 | a row published and marked within its lease is never picked again, and if that was its first pick, it has exactly one handler call in its life, a successful one |
| `OutboxDrain.GoodTickEffect` | internal/outbox/runner.go:92-160 | an undisturbed tick turns exactly one due batch into SUCCESS and touches no other row |
| `OutboxDrain.TickDrains` | internal/outbox/runner.go:86-160 | with every unfinished row due, an undisturbed tick finishes min(batch, n) of n |
| `OutboxDrain.Drains` | internal/outbox/runner.go:86-160 | m undisturbed ticks, one after another and each of any worker, leave max(0, n - m·batch) unfinished rows |
| `OutboxDrain.DrainsCompletely` | internal/outbox/runner.go:86-160 | ceil(n/batch) undisturbed ticks turn every row into SUCCESS |
| `OutboxDrain.WaitingMakesDue` | internal/repository/postgres/outbox.go:27-31 | once more than a lease has gone by in a reachable state, every unfinished row is due |
| `OutboxTogether.PickTakesWaiting` | internal/repository/postgres/outbox.go:25-43 | within a lease, a pick takes a full batch of the rows nobody has taken up, or all of them, and none that another worker has |
| `OutboxTogether.DrainsTogether` | internal/outbox/runner.go:68-74 | any number of workers, their steps interleaved in any way within a lease and without failures: m picks leave max(0, n - m·batch) unfinished rows once all are idle again |
| `OutboxFinish.FinishableIff` | internal/outbox/runner.go:86-160 | from a reachable state, whatever has failed, some continuation without new rows turns every row into SUCCESS if and only if every row is of known kind with data that decodes |
| `StatusEvents.DispatchMarshalled` | internal/outbox/handler.go:59-66 | the event that was marshalled is the event that is published if and only if its check id fits int32 |
| `StatusEvents.DispatchIff` | internal/outbox/handler.go:57-69 | a row is published as m if and only if it is of kind 1 and its fields, where present, have the right type and range, with missing ones zero and the check id cut to 32 bits |
| `StatusEvents.MarshalFields` | internal/outbox/handler.go:17-22 | the event has exactly the fields check_id, old, new and at |
| `StatusEvents.EventKeyInjective` | internal/services/ping-worker/handler.go:89 | equal idempotency keys mean the same check at the same nanosecond |
| `StatusEvents.EventKeyText` | internal/services/ping-worker/handler.go:89 | the key is the text status:<check id>:<nanoseconds> |
| `Transactor.Database.WithTx` | internal/repository/postgres/transactor.go:31-60 | begin, run the function up to its first failure, roll back or commit; a commit that fails is not reported |
| `Transactor.AllOrNothing` | internal/repository/postgres/transactor.go:31-60 | with writes that join, the tables end as before or with every write; unchanged whenever the function or the commit failed; the error is returned exactly when begin or the function failed |
| `Transactor.UndoneIffJoined` | internal/repository/postgres/transactor.go:95-100 | a lost transaction leaves no trace, whatever tables and faults, if and only if every write of the function goes through `execQueryer` |
| `Transactor.FailureStays` | internal/repository/postgres/transactor.go:53-57 | nothing is executed after the statement that failed |
| `Detector.Handler.HandleCheck` | internal/services/ping-worker/handler.go:27-102 | an error exactly when the check cannot be read; otherwise a run with the probe's status, code and latency is added once, unless that insert fails, and once more with a committed flip, which also sets the status and adds an outbox row with the event under its key; nothing else changes |
| `Detector.HandledEffect` | internal/services/ping-worker/handler.go:42-97 | on a committed flip the new status, the second copy of the run and the outbox row appear together; in every other case statuses and outbox are untouched |
| `Detector.EdgesAlternate` | internal/services/ping-worker/handler.go:50-63 | the edge detector's events alternate, begin with a rise, and end at the last result |
| `Detector.RefinesEdgeDetector` | internal/services/ping-worker/handler.go:50-97 | serial handlers under any failures enqueue exactly the edges of the results that took effect, and the stored status is the last of those |
| `Detector.WithoutFailures` | internal/services/ping-worker/handler.go:51-63 | without failures the events are the edges of the probe results |
| `Detector.LostFlipIsRedetected` | internal/services/ping-worker/handler.go:65-97 | a lost transaction changes neither status nor outbox, and the next probe with the same result writes the lost event |
| `Detector.OverlappingHandlersRepeat` | internal/services/ping-worker/handler.go:31-63 | two handlers of one check that read the same status both write the event of the same flip if and only if both transactions commit and both probes differ from that status |
| `EndToEnd.FinishTables` | internal/services/ping-worker/handler.go:65-97 | what a handler's transaction does to the tables is, on the outbox, an enqueue step of the protocol |
| `EndToEnd.RunInv` | internal/services/ping-worker/handler.go:27-102 | checks created and deleted, handlers overlapping each other and the workers, any failures: outbox rows are the committed flips, one for one, in every reachable state |
| `EndToEnd.FlipChain` | internal/services/ping-worker/handler.go:50-97 | in every reachable state the committed flips of a check are the edges of its effective results; they alternate from a rise and end at the stored status |
| `RunRecords.FlipsAreOnRecord` | internal/services/ping-worker/handler.go:65-75 | in every reachable state a check that exists has at least as many runs that ended up, and down, as it had flips that way; so every flip of it has a run with its new status |
| `EndToEnd.OnlyFlipsDelivered` | internal/outbox/handler.go:56-72 | every delivery is a committed flip with check, old and new status intact |
| `EndToEnd.DeliveredAreTheFlips` | internal/outbox/runner.go:112-156 | whenever all rows are SUCCESS, the deliveries as a set are exactly the committed flips, and no two flips share one |
| `EndToEnd.NotifierSeesAll` | internal/services/email-notifier/controller.go:43-66 | the notifier's filters drop no delivery |
| `Liveness.EveryFlipCanBeDelivered` | internal/outbox/runner.go:86-160 | from every reachable state of checks, handlers and workers, some continuation without new flips makes the deliveries exactly the flips committed so far |
| `Scheduler.SelectDue` | internal/repository/postgres/check_repo.go:43-50 | due active unlocked checks in order of next_run up to the limit; one is left behind only for a full batch no later than it |
| `Scheduler.CheckRepo.Create` | internal/repository/postgres/check_repo.go:85-96 | a new check is active and due at once; a negative interval is stored as zero |
| `Scheduler.CheckRepo.FetchDue` | internal/repository/postgres/check_repo.go:161-207 | as many of the due active unlocked checks as the limit says (100 if it is not positive), or all of them, earliest first and none later than one left behind; each runs next one interval of seconds from now, nothing else changes; after an error nothing, or an unreported bump of one such fetch |
| `Scheduler.Usecase.Tick` | internal/services/scheduler/usecase.go:21-70 | fetched = sent + errs and the published ids are the fetched ones that were acknowledged; if the fetch failed, one error, no publish, and the table as it was or with one possible fetch bumped unreported |
| `SchedulerRuns.StepsAreCalls` | internal/repository/postgres/check_repo.go:85-96 | the steps of the runs are what creating and fetching do to the table |
| `SchedulerRuns.FetchSpacing` | internal/repository/postgres/check_repo.go:52-57 | over every run of any number of schedulers fetches i and j of a check are at least (j - i) intervals apart, and at most 1 + T/interval fall within T |
| `SchedulerRuns.StepAhead` | internal/repository/postgres/check_repo.go:43-57 | no step puts a check ahead of an overdue one, and a full tick that passes it over removes limit checks from before it |
| `SchedulerRuns.NoStarvation` | internal/repository/postgres/check_repo.go:43-57 | an overdue check with r active checks at or before it is fetched or deleted within floor(r/L) + 1 full ticks, those whose caller asks for at least L checks |
| `Retry.Do` | internal/obs/retry/retrier.go:64-117 | between 1 and max(1, attempts) calls; nil if and only if the last call returned nil; the loop ends for success, an error not to be retried, the limit or cancellation only; the waits are those of the backoff |
| `Retry.JitterBounds` | internal/obs/retry/retrier.go:32-36 | a jittered delay lies strictly below (1 + J)·d and above (1 - J)·d less one nanosecond, for every draw |
| `Retry.LowerBoundExact` | internal/obs/retry/retrier.go:32-36 | (1 - J)·d is a lower bound for every draw if and only if it is a whole number |
| `Retry.SumClosedForm` | internal/obs/retry/retrier.go:24-37 | the first n capped delays add up to a geometric sum and the cap for the rest |
| `Retry.TotalWait` | internal/obs/retry/retrier.go:84-114 | the waits of a call lie within (1 ± J) of the sum of capped delays, up to truncation |
| `Retry.ExhaustedMessage` | internal/obs/retry/kafka_policy.go:11-17 | a message whose six attempts fail waits at least 4.96 s and less than 7.44 s |
| `Retry.PublishWithRetry` | internal/outbox/handler.go:36-54 | under the Kafka policy at most six calls; six failures without cancellation mean the last error after 4.96 to 7.44 s of waiting; nothing is called after a success |
| `Retry.ExhaustedBatch` | internal/obs/retry/kafka_policy.go:11-17 | n exhausted messages surely wait less than the 30 s lease if and only if n <= 4 |
| `Consumer.Loop.Turn` | internal/repository/kafka/consumer.go:94-153 | one turn is one step of the machine; a failed fetch waits the current backoff, which then doubles up to 5 s, a fetched message sets it to 0.2 s; the loop stops exactly on a failed fetch or commit with a cancelled context |
| `Consumer.Loop.Consume` | internal/repository/kafka/consumer.go:77-154 | the loop is a trace of the machine for as many turns as it takes; it stops early only on a cancelled context; if nothing can be fetched it waits 0.2, 0.4, 0.8, 1.6 and 3.2 s, and 5 s from then on |
| `Consumer.BackoffDoubles` | internal/repository/kafka/consumer.go:105-115 | after k fetch failures in a row the backoff is min(5 s, 200 ms·2^k) |
| `Consumer.StepKeeps` | internal/repository/kafka/consumer.go:94-153 | every step keeps, for each partition, that all from the last start to the position was handed out and the offset below the committed one handled |
| `Consumer.NeverBack` | internal/repository/kafka/consumer.go:146-152 | over any run, restarts included, a committed offset never decreases |
| `Consumer.CommittedMovesIff` | internal/repository/kafka/consumer.go:146-152 | over any stretch of a run the committed offset of a partition has moved if and only if a message of it was handled and its commit reached the broker in that stretch |
| `Consumer.NothingSkipped` | internal/repository/kafka/consumer.go:36-39 | from the beginning: every message below the committed offset was handed to the handler, the last of them without error, and what was not handed out is still ahead |
| `Consumer.NothingSkippedAfterCommit` | internal/repository/kafka/consumer.go:36-39 | from the end: the same from the first attachment on, if no restart comes before the first commit |
| `Consumer.GaplessIff` | internal/repository/kafka/consumer.go:36-39 | commits never pass a message that was not handed out, in any run, if and only if `FromBeginning` is set |
| `Consumer.CommittedStaysBehind` | internal/repository/kafka/consumer.go:133-152 | from the commit of an offset on, every later state of the run, restarts included, is positioned past all messages below it |
| `Consumer.ComesBackIff` | internal/repository/kafka/consumer.go:133-152 | in every reachable state, a message fetched before is fetched again in some continuation if and only if nothing is committed past it and, while nothing is committed, the group starts from the beginning |
| `Strings.TrimRight` | internal/services/api-gateway/auth/util.go:95-101 | the loop gives the one prefix that does not end in the character and is followed by it only |
| `Base64Url.TrimGivesRaw` | internal/services/api-gateway/auth/util.go:84-87 | trimmed padded base64url is unpadded base64url for every byte string |
| `Base64Url.AlphabetOfStandard` | internal/services/api-gateway/auth/util.go:84-87 | the alphabet is that of table 2 in section 5 of RFC 4648 |
| `Base64Url.GroupSpellsNumber` | internal/services/api-gateway/auth/util.go:84-87 | four characters spell the number that their three bytes do, most significant first |
| `Base64Url.TwoSpellNumber` | internal/services/api-gateway/auth/util.go:84-87 | so do the three of two bytes, with the bits left over zero |
| `Base64Url.OneSpellsNumber` | internal/services/api-gateway/auth/util.go:84-87 | and the two of one byte |
| `Base64Url.BreaksSkipped` | internal/services/api-gateway/auth/util.go:27-37 | line breaks in a coded text count for nothing |
| `Base64Url.DecodeInverts` | internal/services/api-gateway/auth/util.go:84-87 | `RawURLEncoding` decoding inverts `base64URL` |
| `Base64Url.OnlyAlphabet` | internal/services/api-gateway/auth/util.go:84-87 | the output has characters of the alphabet only, no dot and no padding |
| `Base64Url.DecodeAccepts` | internal/services/api-gateway/auth/util.go:27-30 | a text without line breaks decodes if and only if it is of the alphabet and its length is not one more than a multiple of four |
| `Base64Url.ReencodesIff` | internal/services/api-gateway/auth/util.go:27-37 | an accepted text is the coding of what it decodes to if and only if the unused bits of its last character are zero |
| `Decimal.FormatParse` | internal/services/api-gateway/auth/usecase.go:145 | `ParseInt` returns the number `FormatInt` printed if it fits 64 bits, and an error otherwise |
| `Decimal.ParseIff` | internal/services/api-gateway/auth/usecase.go:145 | `ParseInt` accepts exactly an optional sign and at least one digit, for a number that fits 64 bits |
| `Decimal.FormatGrows` | internal/services/api-gateway/auth/usecase.go:115 | `FormatInt` in terms of the ten digits |
| `Decimal.FormatInjective` | internal/services/api-gateway/auth/usecase.go:115 | no two numbers print alike |
| `Claims.UnmarshalMarshalled` | internal/services/api-gateway/auth/util.go:39-42 | claims survive their JSON text if and only if their times fit 64 bits |
| `Claims.ScanPrintedMembers` | internal/services/api-gateway/auth/util.go:39-42 | printed members of an object are scanned back, one by one |
| `Claims.MarshalText` | internal/domain/auth/domain.go:7-11 | the text of claims, with the names sub, iat and exp |
| `Claims.UnmarshalPrinted` | internal/services/api-gateway/auth/util.go:39-42 | reading a printed object comes to what its members come to |
| `Claims.AssignIff` | internal/services/api-gateway/auth/util.go:39-42 | members give claims if and only if those of known names have the right type and range; each claim is the last value given, null giving none, or zero |
| `Jwt.TokenParts` | internal/services/api-gateway/auth/util.go:55-68 | a signed token splits into exactly three parts: coded header, payload and signature |
| `Jwt.ParseSigned` | internal/services/api-gateway/auth/util.go:18-53 | parsing a signed token with the same secret gives its claims exactly from the second of issue to that of expiry, and names the error otherwise |
| `Jwt.AcceptedIff` | internal/services/api-gateway/auth/util.go:18-53 | for every token: it is accepted with claims c if and only if it is h.p.sig without further dots, sig decodes to the MAC of h.p under the secret, p decodes to c, and the time is from iat to exp |
| `Jwt.AccessIff` | internal/services/api-gateway/auth/usecase.go:140-150 | for every token: `ParseAccess` yields id if and only if the token is accepted in this second and its subject denotes id |
| `Jwt.IssuedText` | internal/services/api-gateway/auth/util.go:55-68 | the first part of an issued token decodes to the standard header, the second to the claims of the user, the second of issue and that of expiry |
| `Jwt.AccessRoundTrip` | internal/services/api-gateway/auth/usecase.go:112-150 | for every 64-bit user id `ParseAccess` on an issued token returns it at every second from iat to exp, and nothing at any other time |
| `Jwt.NoTampering` | internal/services/api-gateway/auth/util.go:25-34 | an accepted token that bears an issued signature is the issued one, header and claims, or its signing input is another message with the same MAC |
| `RefreshTokens.RowAppended` | internal/repository/postgres/refresh_token_repo.go:30-35 | storing a fresh live row keeps hashes distinct, exchanged rows revoked, and at most one child per row; no other row changes |
| `RefreshTokens.RefreshTokenRepo.FindValid` | internal/repository/postgres/refresh_token_repo.go:37-50 | some row of the hash that is neither revoked nor expired on the database clock, or nothing because there is none or the query failed |
| `RefreshTokens.RefreshTokenRepo.Revoke` | internal/repository/postgres/refresh_token_repo.go:52-61 | every row of the hash is revoked, no other row changes |
| `RefreshTokens.Usecase.IssueTokens` | internal/services/api-gateway/auth/usecase.go:112-138 | tokens exactly if there are random bytes and the insert is acknowledged; the access token speaks for this user from the second of issue until the access lifetime is over and at no other time; the row holds the coded digest of the new token and expires after the refresh lifetime; an insert that reports an error may still have stored it |
| `RefreshTokens.Usecase.SignIn` | internal/services/api-gateway/auth/usecase.go:66-80 | wrong credentials change nothing; otherwise such tokens are issued to the account |
| `RefreshTokens.Usecase.Refresh` | internal/services/api-gateway/auth/usecase.go:82-103 | tokens for the user of the presented row exactly if it is found unrevoked and unexpired on both clocks and revocation, random bytes and insert all succeed; the table after every failure; invalid credentials exactly if nothing acceptable is found |
| `RefreshTokens.Usecase.Logout` | internal/services/api-gateway/auth/usecase.go:105-110 | an empty token is no error and no change; otherwise every row of its coded digest is revoked and nothing else changes |
| `RefreshTokens.FreshBytesFreshHash` | internal/services/api-gateway/auth/util.go:70-82 | different random bytes give different stored hashes unless the digest collides |
| `RefreshTokens.StepKeeps` | internal/services/api-gateway/auth/usecase.go:82-138 | every call keeps: hashes distinct, an exchanged row revoked and of the same user, no row exchanged twice; rows stay and revocation is never undone |
| `RefreshTokens.NeverAfterRevocation` | internal/services/api-gateway/auth/usecase.go:86-94 | once a token is revoked no later refresh with it succeeds or changes anything, over every serial run |
| `RefreshTokens.Spends` | internal/services/api-gateway/auth/usecase.go:95-110 | a refresh that succeeds or whose revocation reaches the database revokes its token, and so does a logout |
| `RefreshTokens.AtMostOneExchange` | internal/services/api-gateway/auth/usecase.go:82-103 | each raw token makes `Refresh` succeed at most once in any serial run |
| `RefreshTokens.LiveTokenWorks` | internal/services/api-gateway/auth/usecase.go:82-103 | a live token that nothing fails is exchanged for a live token of the same user |
| `RefreshTokens.FamilyIsPath` | internal/services/api-gateway/auth/usecase.go:95-102 | the tokens descended from one sign-in have at most one member at each depth |
| `RefreshTokens.Families` | internal/services/api-gateway/auth/usecase.go:82-138 | in every reachable state tokens of one sign-in form a path, belong to one user, and at most one of them is not revoked |
| `RefreshTokens.HolderCanGoOn` | internal/services/api-gateway/auth/usecase.go:95-102 | an accepted refresh leaves its caller with a live token, the presented one or the one it got, if and only if the revocation was lost, or revocation and replacement were both acknowledged |
| `RefreshTokens.HolderShutOut` | internal/services/api-gateway/auth/usecase.go:86-102 | otherwise, over any serial run, no token was handed out and the presented one is never accepted again |
| `RefreshTokens.OrphanedReplacement` | internal/services/api-gateway/auth/usecase.go:134-136 | an insert carried out but reported as failed leaves a live row whose token nobody has, and its caller without one |
| `RefreshTokens.LostReplacement` | internal/services/api-gateway/auth/usecase.go:95-101 | an accepted refresh leaves the table without a live row of the family if and only if the revocation reached the database and the replacement did not |
| `RefreshTokens.DeadForever` | internal/services/api-gateway/auth/usecase.go:86-101 | over any serial run a family without a live token never gets one again |
| `RefreshTokens.LostReplacementEndsSession` | internal/services/api-gateway/auth/usecase.go:95-101 | after such a refresh every later state of the run has no live row in that family |
| `RefreshTokens.OverlappingRefreshesFork` | internal/services/api-gateway/auth/usecase.go:87-102 | two refreshes that both look the token up before either revokes it leave two live tokens of that user, however the rest of their statements mixes, if and only if each revocation is acknowledged and each new row is stored |
| `Strings.SplitJoin` | internal/services/api-gateway/auth/util.go:19 | splitting a text joined from parts without the separator gives the parts |
| `Strings.JoinSplit` | internal/services/api-gateway/auth/controller.go:217 | joining what a split gave is the text again |
| `Strings.CutJoined` | internal/services/api-gateway/auth/controller.go:219 | splitting in two at the first '=' undoes joining with '=' |
| `Strings.TrimmedOneWay` | internal/services/api-gateway/auth/controller.go:219 | trimming takes off all white space at both ends and nothing else, in the one way there is |
| `Cookie.ParseCookie` | internal/services/api-gateway/auth/controller.go:216-225 | the value of the first part of the header that is about the name, "" if none is |
| `Cookie.FirstInIff` | internal/services/api-gateway/auth/controller.go:216-225 | for every header: the value of its first part about the name, and "" if no part is |
| `Cookie.ValueInIff` | internal/services/api-gateway/auth/controller.go:219-222 | a part is about a name exactly if, white space aside, it is the name, '=' and the value |
| `Cookie.FirstStored` | internal/services/api-gateway/auth/controller.go:216-225 | for every list of well-formed pairs joined by "; " that is the first value stored under the name, "" when absent |
| `Cookie.GetRefreshFromCtx` | internal/services/api-gateway/auth/controller.go:193-214 | forwarded cookies first, then direct ones, then the first x-refresh-token value; empty values are passed over |
| `Cookie.RefreshFromWhere` | internal/services/api-gateway/auth/controller.go:193-214 | the first forwarded header that gives the cookie a value, else the first direct one, else the first x-refresh-token header, else nothing |
| `Cookie.TokenComesBack` | internal/services/api-gateway/auth/controller.go:159-214 | a refresh token set as a cookie comes back as issued, among any other cookies, through the gateway or directly |

## Left out

- Kafka, PostgreSQL, SMTP and HTTP themselves: they are steps that succeed, fail, or fail late; isolation between statements is that of the row locks the queries take.
- Logging, tracing, metrics and trace headers (columns `traceparent`, `tracestate`, `baggage`): no effect on the state modelled.
- Configuration, wiring, topic creation, gRPC and protobuf encoding, the other API calls, the frontend.
- Order of publication: the outer SELECT of a pick has no ORDER BY and workers run in parallel, so nothing is claimed about it.
- OutboxWindow.WindowBound: the pause between two ticks of a worker is not modelled, so a worker may pick again at the moment it is done.
- How long calls take: `Retry` bounds the waits between attempts, not the attempts.
- Nested `WithTx`: the inner call would commit the outer transaction; the repository never nests it.
- API `UpdateCheck` and the `LastStatus` it writes: excluded from the flip chain, which it would break.
- Handlers of one check at the same time, and refreshes of one token at the same time, beyond the lemmas that show what goes wrong.
- JSON text of the outbox payload: the column is JSONB and the model keeps the object; a time whose year JSON cannot express is not modelled.
- Rows of `checks` whose `next_run` is NULL (no code path writes one), and `updated_at` of checks.
- Timestamps of runs, names and addresses of checks, `normalizeURL`, e-mail normalisation, bcrypt: no property here depends on them.
- `SignUp`: it creates a user and then issues tokens as `SignIn` does; runs cover it as a sign-in.
- Deletion of a user, which removes that user's refresh tokens.
- Kafka offsets with gaps (compaction, transactions), rebalancing between several members of a group, log retention.
- Retry.Next: floating-point rounding, and delays for which base·2^attempt reaches 2^63 nanoseconds.
- Claims.UnmarshalMarshalled: for subjects of printable ASCII without characters that JSON escapes; the parser accepts flat objects without escapes, fractions and exponents, and matches names in either case of ASCII letters only.
- Jwt.NoTampering: how hard it is to find two messages with one MAC, or to guess a signature, is not part of this model.
- RefreshTokens.AtMostOneExchange: for serial runs in which the hash of a new token is not in the table yet.
- EndToEnd.FlipChain: two committed flips of one check are assumed not to have the same nanosecond, so that keys are fresh; the clock may be set back.
