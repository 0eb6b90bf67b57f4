# Verified models of the OpenVibe SDK's algorithms

Under its HTTP wrappers the SDK holds a number of algorithms with real state: a durable event pipeline, a resource
governor with two stores, a job queue, a planner with learning and escalation, stream parsers, resumable streams, rate
limits, a consent cache, a replay memory and a small linker. This project models each of them in Dafny and proves what
their comments and documentation promise. Every module begins with what it models and what its inputs stand for.

Where the source updates an object in place there is a `class` with the same fields; where it loops, a `method` with a
loop; each is proved equal to a specification function, and the promises are lemmas about those functions and about runs
of them. Protocols are state machines: a step is one statement, script or handler transaction, and a run is any list of
possible steps, crashes included.

| file | what it models |
|---|---|
| Governor, GovernorLedger, GovernorWindows, GovernorLeases, GovernorRefinement | reserve, commit and release over several windows, leases; the ledger; what limits and leases mean to who asks; the Lua scripts against the in-process store |
| Outbox, SerialFlush, EventsWalk, Pipeline, PipelineRecovery | the transactional outbox and its relay, the flush queue, the page walk, the inbox, all of them end to end, and what every state of them can still do |
| Queue, QueueTimes, QueueWorker, MemoryQueue | the durable queue on Valkey, when it lets a job run, the handlers one worker runs, and the in-process queue |
| Sse, SseStandard, ExchangeSse, Jobs | parseSSE and what the standard reads, sseChunks, and the events of a job over dropped connections |
| Canonical, CanonicalText | the printer a plan's signature covers, and its text |
| Learning, Planner, PlannerCosts, PlannerScores, Sieve, Placement, Escalation, PlanAi, PlanAiLaws | decayed success counts, plan and what its costs and scores mean, place, escalate, planAi and its objectives in numbers |
| Money | integer nano-USD |
| Limits, SharedLimits | the per-actor limiter and its shared store |
| Consent, ConsentRuns, ConsentLaws | the consent cache, checks in flight, and what a yes rests on |
| Assertions | subject assertions and the memory of their jtis |
| Bundle | the browser bundle's closure and loader |
| Prelude | optional values, decimal numbers, products of reals |

`dafny verify dfyconfig.toml` checks the whole project.

## Conventions

- Numbers that JavaScript keeps as floats are reals; token counts, ids and times in milliseconds are integers, and the
  places where the source floors, rounds, truncates or takes a ceiling are written out.
- `0.5 ** x` is any function of the elapsed time that is multiplicative and in (0, 1]; the printer of a JSON number is
  any injective one that uses only the characters of a number; the language's sort is any function that returns a
  permutation, sorted when the comparator is an order.
- The clock of one process never runs back. On Valkey the server's clock is the caller's.
- An expiry instant belongs to the time after: at that instant a counter, reservation, lease or answer is gone.
- A position of the event log stands for an opaque cursor.

## What the proofs found

- Leases (src/govern.js:109-115): the script sets the expiry of the whole set from the latest lease, so a shorter lease
  can make the server forget a longer one. The two stores agree on every run exactly when the ttls asked on a key lie
  within 5 s of each other (`GovernorRefinement.StoresAgreeIff`).
- Replays (src/govern.js:44, :63): settling deletes the reservation, so a repeated key is charged again after a commit.
  The header comment says a retried charge counts once; it does exactly while the reservation is open
  (`GovernorLedger.ReplayOnlyWhileOpen`), and after a commit it counts twice (`GovernorLedger.RetryCountsTwice`).
- parseSSE (src/realtime.js:214, :222-229): the events and the retry times are each the same for every chunking, but a
  retry is reported while its chunk is read and events are yielded after it, so where the text is cut can decide which of
  the two the caller sees first (`Sse.CutDecidesOrder`). Every cut shows the same order exactly when no event of the text
  comes before a retry time (`Sse.SeenAlikeIff`), and one cut shows the order of the text exactly when no chunk has an
  event before a retry time (`Sse.SeenInOrderIff`).
- parseSSE against the standard (src/realtime.js:181, :202, :225): a lone \r at the very end is held back, which loses an
  event exactly when that \r is a blank line after data (`SseStandard.AgreesWithStandard`,
  `SseStandard.HeldBackHappens`), and an event with a type and no data is yielded (`SseStandard.TypeAloneHappens`); with
  nothing held back, all events are the standard's exactly when each has data (`SseStandard.AllAgreeIff`).
- Job events (src/jobs.js:157-162): the loop ends because each delivering connection advances in the log. A server that
  mixes in messages without an id can keep it going for ever; there is a bound exactly when every such message ends the
  iteration (`Jobs.TerminatesIff`).
- Queue (src/queue.js:111-117): a job slower than visibilityMs is reclaimed while it runs; it is never lost, but it can
  be done and delayed at once (`Queue.SlowHandlerDuplicates`). Jobs are in one place on every run exactly when the
  handlers' time limit is at most visibilityMs (`Queue.OnePlaceIff`).
- Queue (src/queue.js:92-117): a comment says concurrency is bounded by `active`, but a read that is blocked and a reclaim
  ask for the free places at the same time, so a worker can run its concurrency once for each request under way. It is
  kept on every run exactly when they never overlap (`QueueWorker.ActiveIff`).
- planAi (src/placement.js:914-929): the comparator is an order exactly when no three candidates go in a circle, under
  every objective (`PlanAi.AnyOrderIff`), and then nobody comes before the head of the ranking (`PlanAi.HeadIsFirst`).
  For the cost-only objectives the one circle is a twist: a slower and a faster candidate of known latency and one
  price, with one of unknown latency between them by name (`PlanAi.OrderIff`, `PlanAi.MixedLatenciesCycle`). Under each
  weighted objective the 5% tolerance makes others, also among candidates of known latency and ample evidence
  (`PlanAi.WeightedObjectivesCycle`).
- planAi (src/placement.js:743): `allow_restricted: true` leaves restricted rights out and lets nobody in
  (`PlanAi.AllowRestrictedExcludes`); the model follows the code.
- Money (src/cost.js:57, :129): the rounding is a ceiling for amounts that are not negative; nanoUsd refuses negative
  strings but lets a negative number or bigint through (`Money.RoundsUpIff`, `Money.WireRoundTrip`).
- Assertions (src/assertions.js:276-282): the time check reads the clock before it waits for a key and the replay memory
  reads it afterwards; no assertion is accepted twice exactly when no check waits more than 39.001 s
  (`Assertions.NoReplayIff`).
- Limits (src/limits.js:59-67): an actor is evicted exactly when maxActors others come after its last request
  (`Limits.EvictionIff`), so a limit holds for an actor with fewer others between its requests (`Limits.ActorIsLimited`).
- Outbox (src/outbox.js:95-97): no row is in two batches on any run exactly when every batch settles within its lease
  (`Pipeline.ApartIff`).
- Consent (src/consent.js:80): the ttl is counted from the arrival of an answer, so a cached yes is never older than
  ttlMs (`ConsentRuns.CachedYesIsNew`), but the request behind it can be older by the timeout
  (`ConsentRuns.SlowAnswerIsOld`). Every yes rests on a request younger than ttlMs exactly when the timeout is 0
  (`ConsentRuns.YesAgeIff`), and createConsent refuses a timeout of 0 (src/consent.js:51), so the code never meets it.
- Consent (src/consent.js:65-69): keyOf joins its parts with separator characters; the text names one key unless a part
  holds them (`Consent.KeyTextUnique`, `Consent.OptsTextUnique`, `Consent.KeyTextClashes`).

## Model

| member | source | states |
|---|---|---|
| Governor.WindowsForGood | src/govern.js:27-34 | one slot for each limited window and no other, with its limit and the time left to its end |
| Governor.WindowsShared | src/govern.js:23-34 | windows are whole minutes, hours, days and 30 days, and all requests of one of them, and no others, have one counter |
| Governor.MemoryStore.SweepExpired | src/govern.js:40 | in place, exactly the counters and reservations whose instant has come are gone |
| Governor.MemoryStore.Reserve | src/govern.js:42-56 | the Maps and the answer after a reserve: replay, refusal at the first full window, or every window charged and the reservation open |
| Governor.MemoryStore.Settle | src/govern.js:57-65 | the Maps after a commit or release, and false once the reservation has ended |
| Governor.MemoryStore.UsedAt | src/govern.js:66 | reading sweeps first, and a missing counter reads 0 |
| Governor.MemoryStore.Lease | src/govern.js:67-73 | dead leases go before the count, and a lease is refused at the maximum |
| Governor.MemoryStore.Unlease | src/govern.js:74 | exactly the named lease is gone |
| Governor.ValkeyStore.Reserve | src/govern.js:78-94 | the server's keys and the answer after the RESERVE script, expiry times included |
| Governor.ValkeyStore.ShiftAll | src/govern.js:104-107 | every listed counter moves by the difference, never below 0, a missing one being made without expiry |
| Governor.ValkeyStore.Settle | src/govern.js:95-108 | the server's keys and the answer after the SETTLE script |
| Governor.ValkeyStore.UsedAt | src/govern.js:135 | what a GET sees after expiry |
| Governor.ValkeyStore.Lease | src/govern.js:109-115 | the server's keys and the answer after the LEASE script |
| Governor.ValkeyStore.Unlease | src/govern.js:137 | exactly the named member is gone |
| GovernorLedger.ClampIsIdle | src/govern.js:62 | on balanced books no settlement would take a counter of an open window below 0 |
| GovernorLedger.StepKeeps | src/govern.js:42-66 | every operation at a later instant keeps the books: counters, open reservations and ledger stay in step |
| GovernorLedger.BooksBalance | src/govern.js:42-66 | on every run a live counter equals open reservations + committed actuals + lapsed reservations, and the next settlement is never clamped |
| GovernorLedger.RefusalIsFree | src/govern.js:45-48 | a refusal or replay moves no counter; a refusal names a window that is really full, a grant fits every window |
| GovernorLedger.ReplayOnlyWhileOpen | src/govern.js:44 | a repeated key is free exactly while some entry of it is open and alive |
| GovernorLedger.RetryCountsTwice | src/govern.js:44-63 | a charge repeated after its commit is no replay: the counter holds both |
| GovernorLedger.SettlesOnce | src/govern.js:57-65 | a settlement succeeds exactly when a live entry is open, settles that entry, and no later one succeeds |
| GovernorLedger.SettledIsFinal | src/govern.js:63 | no operation ever changes a settled entry |
| GovernorLedger.UsedWithinOverrun | src/govern.js:61-62 | use exceeds the limit by at most what commits took above their reservations |
| GovernorWindows.WindowIsLimited | src/govern.js:27-56 | on every run, of all that somebody is granted within one minute, hour, day or 30 days no more stands than the limit and what commits used above their reservations |
| GovernorLeases.LeaseGrantedIff | src/govern.js:67-74 | on every run a lease is granted exactly when fewer than the maximum of those granted before are neither over nor given back |
| GovernorLeases.ScriptGrantsIff | src/govern.js:109-137 | and so it is by the scripts, for steady ttls |
| GovernorRefinement.GrantAgrees | src/govern.js:87-93 | a grant keeps the two stores' counters, expiry instants and reservations related |
| GovernorRefinement.ReserveAgrees | src/govern.js:78-94 | on related stores RESERVE answers as the Maps do and leaves them related |
| GovernorRefinement.SettleAgrees | src/govern.js:95-108 | on related stores SETTLE answers as the Maps do, although it may recreate a counter of a window that is over |
| GovernorRefinement.LeaseExact | src/govern.js:109-115 | a granted lease leaves both stores with the same leases for ever exactly when no older lease outlives it by more than the grace |
| GovernorRefinement.StepAgrees | src/govern.js:78-139 | every operation of the two stores gives one answer and keeps them related |
| GovernorRefinement.SameAnswers | src/govern.js:38-139 | on every run with a monotone clock and steady lease ttls, all answers of the two stores are equal |
| GovernorRefinement.GapDiverges | src/govern.js:113-115 | three leases that tell the stores apart once two ttls on one key differ by more than 5 s |
| GovernorRefinement.StoresAgreeIff | src/govern.js:38-139 | for ttls from low to high the stores agree on every run exactly when high - low is at most 5 s |
| Outbox.BackoffBounded | src/outbox.js:129 | no backoff exceeds the largest of the list |
| Outbox.PauseMs | src/outbox.js:134-137 | a pause is what the answer says, at most an hour, and a minute without a usable answer |
| Outbox.PermanentIff | src/outbox.js:46-51 | refused for good: a 4xx other than 401, 408, 425, 429 and a 409 without events.loop_detected, and no failure of the token endpoint |
| Outbox.TallyCoversAll | src/outbox.js:164-184 | sent, failed and rejected add up to the batch |
| Outbox.PendingFalls | src/outbox.js:164-184 | a settled batch lowers the pending rows by exactly the rows sent or rejected |
| Outbox.Relay.Enqueue | src/outbox.js:139-145 | one new row due at once, unless the event id is already there |
| Outbox.Relay.Claim | src/outbox.js:147-155 | the first rows neither sent nor rejected that are due, in order of id, at most a batch, due again only when the lease is over; nothing else changes |
| Outbox.Relay.MarkFailure | src/outbox.js:157-162 | rejected for good exactly after such a refusal, else due again after the backoff of its attempts; one attempt more |
| Outbox.Relay.PublishRows | src/outbox.js:164-184 | every row of a batch settled exactly once and as the answer that decides it says, its own after a split: sent, rejected exactly after a refusal for good, or due again; a 429 pauses the relay; the counts are those of the rows; a row is marked sent only if Events holds it |
| Outbox.Relay.PublishEach | src/outbox.js:176-177 | the split of a refused batch publishes each row once, settles it by its own answer and sums the counts |
| Outbox.Relay.FailAll | src/outbox.js:178-181 | a failed batch is rejected or due again as a whole, and counted so |
| Outbox.Relay.Turn | src/outbox.js:189-194 | one round of the pass: pending rows fall by those sent and rejected, settled rows are left alone |
| Outbox.Relay.DoFlush | src/outbox.js:186-197 | a pass ends; pending rows fall by exactly its totals; without failure or pause no row due at its start is left pending; while paused it does nothing |
| SerialFlush.Flusher.Call | src/outbox.js:38-42 | the state after a flush() call, with the pass it starts or joins |
| SerialFlush.Flusher.PassEnds | src/outbox.js:39 | a settled pass frees the slot and changes no other pass |
| SerialFlush.Flusher.Continue | src/outbox.js:40 | the queued callers start the next pass, or wait behind the one that runs |
| SerialFlush.ApplyKeeps | src/outbox.js:36-45 | every event keeps: passes never overlap, and each call waits or has a pass |
| SerialFlush.EveryRun | src/outbox.js:32-45 | on every run one pass at a time, and each call's pass starts no earlier than the call |
| SerialFlush.SharedPass | src/outbox.js:40-41 | calls that wait together are answered by one and the same pass |
| SerialFlush.ContinueServes | src/outbox.js:40 | a continuation that finds no pass running answers its whole queue at once |
| EventsWalk.MatchingIs | src/events.js:226 | the items of a page are exactly the matching positions, in order, once each |
| EventsWalk.HandlePage | src/events.js:226 | the loop body sees a page's items in order, up to the one it breaks on |
| EventsWalk.Iterate | src/events.js:220-234 | the walk handles exactly the matching events of a contiguous range, in order, and the saved cursor never passes what was handled; one that breaks off has saved the start of its page, and one that ends by itself all of it |
| EventsWalk.Inbox.Once | src/outbox.js:240-247 | an effect and its receipt together or neither: a duplicate and a throwing handler change nothing |
| Pipeline.ApplyKeeps | src/outbox.js:139-197 | every step of producers, relays, Events and consumers keeps the pipeline's invariants |
| Pipeline.ExactlyOnce | src/outbox.js:230-247 | over every interleaving an effect happens at most once, only for a committed transaction, and every wanted event before a saved cursor has had its effect unless reported gone |
| Pipeline.NoRowLost | src/outbox.js:85-98 | Events holds each committed event at most once; a row marked sent is held; an event Events lacks still has its unsent row |
| Pipeline.NoDoubleSend | src/outbox.js:95-97 | if every batch settles within some h of at most the lease, no row is in two batches |
| Pipeline.SlowBatchTwice | src/outbox.js:147-155 | with batches that may settle within any longer h, a run puts one row in two of them |
| Pipeline.ApartIff | src/outbox.js:95-97 | no row is in two batches on any run exactly when batches settle within a time of at most the lease |
| Pipeline.DueAgain | src/outbox.js:147-160 | a pending row is due again within the longer of the lease and the largest backoff |
| PipelineRecovery.Recovers | src/outbox.js:85-98 | no reachable state is a dead end: though every transaction, relay and consumer dies, a run goes on to where each committed event is held or refused for good and each consumer has had the effects it wants |
| PipelineRecovery.JoinsAnywhere | src/events.js:193-197 | at any position, the end of the log included, a consumer can join and then get all it wants from there on |
| PipelineRecovery.CatchUp | src/events.js:213-233 | a walk leaves the cursor at the end of the log, however the log is cut into pages |
| PipelineRecovery.InOrder | src/outbox.js:147-155 | on every run an event id has at most one row, a batch holds between one row and batchSize, and no cursor or walk lies before where its consumer joined |
| PipelineRecovery.RowIfCommitted | src/outbox.js:86-88 | a transaction leaves a new row, due at once, exactly if it commits |
| PipelineRecovery.MarkIs | src/outbox.js:172-173 | marking sent settles the answered rows alone and leaves the rest of the batch as it was |
| PipelineRecovery.FailIs | src/outbox.js:158-159 | a failed row is rejected, or waits as its attempts when claimed say; the rest of the batch is as it was |
| PipelineRecovery.SettlesAsOneRelay | src/outbox.js:157-161 | where no other relay has settled the row meanwhile, it is settled as by a relay alone |
| PipelineRecovery.PruneTakesOldSent | src/outbox.js:226 | pruning takes the rows sent before the instant and no other |
| Queue.Backoff | src/queue.js:19 | between one second and five minutes |
| Queue.BackoffGrows | src/queue.js:19 | doubling until the cap, and never falling |
| Queue.PromoteRecovers | src/queue.js:22-31 | cutting at the first three bars gives back attempt, maximum and JSON for every JSON, one with bars in it too, and the numbers read back |
| Queue.WrittenReads | src/queue.js:22-31 | a written entry, moved by the script and read by run, is the same entry exactly when its attempt and maximum are not 0 |
| Queue.PromoteMovesText | src/queue.js:22-69 | on every run a promotion puts in the stream the entry that run reads from the text the script moves |
| QueueTimes.WaitIs | src/queue.js:19 | a second after the first try, then twice as long each time, at most five minutes |
| QueueTimes.DelayIsKept | src/queue.js:53-60 | on every run a delayed job is neither in the stream nor at work before its delay is over |
| QueueTimes.NextTryWaits | src/queue.js:76-83 | after a failure no later try is in the stream or at work before the wait for that try is over |
| QueueTimes.NeverStuck | src/queue.js:63-117 | on every run, whatever died, an accepted job is done, is dead, or can still be done |
| Queue.NeverLost | src/queue.js:53-117 | whatever crashes and however slow the handlers, an accepted job is somewhere, on a try between 1 and its maximum, and dead only on its last |
| Queue.ExactlyOnePlace | src/queue.js:63-117 | if handlers settle within some h of at most visibilityMs each accepted job is in exactly one place and its try is one more than its recorded failures |
| Queue.SlowHandlerDuplicates | src/queue.js:111-117 | handlers that settle within any h above visibilityMs can leave one job both done and delayed |
| Queue.OnePlaceIff | src/queue.js:63-117 | each job is in one place on every run exactly when the handlers' time limit is at most visibilityMs |
| QueueWorker.ActiveIff | src/queue.js:92-117 | with requests of reads and reclaims under way at a time, no run has more handlers at work than a bound exactly when it is at least that many times the concurrency; the concurrency itself is kept exactly when they never overlap |
| MemoryQueue.AddKeeps | src/queue.js:155-161 | adding keeps the ledger and leaves no ready job beside a free worker |
| MemoryQueue.FireKeeps | src/queue.js:158 | a timer that fires keeps them |
| MemoryQueue.SettleKeeps | src/queue.js:168-172 | a handler that settles keeps them |
| MemoryQueue.WorkerKeeps | src/queue.js:175 | a new worker keeps them |
| MemoryQueue.Queue.PumpWorker | src/queue.js:165-174 | the loop starts ready jobs in order until the worker is full, stopped or out of jobs |
| MemoryQueue.Queue.KickAll | src/queue.js:154 | every worker is pumped, in the order they came |
| MemoryQueue.Queue.Add | src/queue.js:155-161 | the state after an add: each id in exactly one place, no more handlers than allowed |
| MemoryQueue.Queue.Fire | src/queue.js:158 | the state after a timer |
| MemoryQueue.Queue.Settle | src/queue.js:168-172 | done, dead exactly on the last try, or a timer for the next; then its worker pumps |
| MemoryQueue.Queue.Process | src/queue.js:162-175 | the state after a new worker |
| MemoryQueue.Queue.Stop | src/queue.js:178 | a stopped worker starts nothing more |
| Sse.Parser.TakeLine | src/realtime.js:200-215 | one line: the field it sets, the event it queues or the retry time it reports at once |
| Sse.RetryIff | src/realtime.js:214 | a retry time is reported exactly for the word, a colon, perhaps a space, and digits |
| Sse.Parser.FeedChunk | src/realtime.js:222-229 | one chunk: every line it completes is taken, its retry times reported on the way, and then its events are yielded |
| Sse.Parser.Run | src/realtime.js:219-230 | what reaches the caller of a whole stream, in the order in which it does |
| Sse.DrainThen | src/realtime.js:223-228 | draining, then draining what is left with more text, is draining it all: a break split between chunks included |
| Sse.ChunkInvariance | src/realtime.js:181-189 | for every way of cutting the text the events, the retry times (each in order) and the parser's state are those of one pass |
| Sse.SeenHolds | src/realtime.js:214-229 | what the caller sees holds exactly those events and those retry times |
| Sse.SeenInOrderIff | src/realtime.js:214-229 | the caller sees events and retry times in the order of the text exactly when no chunk dispatches an event before a retry line of the same chunk |
| Sse.SeenAlikeIff | src/realtime.js:214-229 | every way of cutting a text shows the caller one and the same sequence exactly when no event of the text comes before a retry time |
| Sse.CutDecidesOrder | src/realtime.js:214-229 | an event and a retry time seen in one order in one chunk and in the other in two |
| Sse.RoundTrip | src/realtime.js:190-239 | events written as a stream, cut anywhere and parsed are the same events |
| SseStandard.LinesAgree | src/realtime.js:223-228 | the lines are those of section 9.2.6 of the WHATWG HTML Living Standard, but for a final \r, which is held back |
| SseStandard.AgreesWithStandard | src/realtime.js:181-215 | for every text and cut: leaving out events without data, the events are those of section 9.2.6 of the WHATWG HTML Living Standard unless the text ends in a \r that is a blank line after an event with data; exactly then the last one is missing |
| SseStandard.AllAgreeIff | src/realtime.js:202 | where no event is held back, all the events are the standard's exactly when every one of them has data |
| SseStandard.HeldBackHappens | src/realtime.js:225 | a text whose last event the standard has and the parser still holds |
| SseStandard.TypeAloneHappens | src/realtime.js:202 | a text with an event of a type and no data, which the parser yields and the standard does not |
| ExchangeSse.ParseSse | src/exchange.js:206-215 | the chunks of the data lines of a text, in order |
| ExchangeSse.ReadJoin | src/exchange.js:235-241 | text that ends a line may be read on its own |
| ExchangeSse.StripsReadsSame | src/exchange.js:234 | leaving a \r before a line end in place, or dropping it, gives the same chunks |
| ExchangeSse.SseChunks | src/exchange.js:221-245 | for every way of cutting the text the chunks are those parseSse reads in the whole text |
| Jobs.Events | src/jobs.js:140-177 | what the reconnect loop yields, the id to resume from and how it ends |
| Jobs.ReadAdvances | src/jobs.js:153-165 | one connection yields exactly the next stretch of the log, skipping what was yielded before |
| Jobs.Contiguous | src/jobs.js:130-139 | whatever connections drop or repeat, the yielded events are a contiguous run of the log just after the starting id, once and in order |
| Jobs.Reattach | src/jobs.js:136-137 | reattaching with the last yielded id continues the same run |
| Jobs.FinishedIsComplete | src/jobs.js:152-164 | unless the caller aborts, an iteration that finishes has yielded everything after its start |
| Jobs.Terminates | src/jobs.js:144-176 | the loop ends: at most (events left) x (maxReconnects + 1) + maxReconnects connections |
| Jobs.WithoutIdsForever | src/jobs.js:157-162 | a message that carries no id and does not end the iteration resets the failure count for ever |
| Jobs.TerminatesIff | src/jobs.js:144-176 | there is a bound on the connections exactly when every message without an id ends the iteration |
| Canonical.QuotedUnique | src/placement.js:1026 | a printed string is read back in one way, whatever follows it |
| Canonical.Unambiguous | src/placement.js:1023-1027 | two printed values with a following text are equal only if they mean the same and the following texts are equal |
| Canonical.SamePrint | src/placement.js:1025 | values equal up to the order of keys, at any depth, print alike |
| Canonical.SortSorted | src/placement.js:1025 | sorting distinct keys puts them in strict order of code units |
| Canonical.SortKeepsMap | src/placement.js:1025 | sorting the keys changes no meaning |
| Canonical.BindsOneBody | src/placement.js:1021-1035 | two well-formed values print alike exactly when they are equal up to the order of keys, so a signature over the text binds one body |
| CanonicalText.WordsAre | src/placement.js:1026 | null, true and false are printed as these words |
| CanonicalText.ArrayIs | src/placement.js:1024 | an array is its items in order, with commas between, in square brackets |
| CanonicalText.ObjectIs | src/placement.js:1025 | an object is its fields by key in order, as key, colon, value, with commas between, in braces |
| CanonicalText.EscapeIs | src/placement.js:1026 | the two-character escapes, small hexadecimal digits for the other controls and for half a pair of surrogates, and every other unit as it is |
| Learning.Learn | src/placement.js:243-258 | the table after one try: its first matching row decayed and counted, or a new row |
| Learning.DecayTwice | src/placement.js:228-234 | decaying in two steps is decaying once |
| Learning.HistoryIsExact | src/placement.js:239-258 | over any choice of persons, options and kinds, the counts read later equal the sum over every try of the decay since it |
| Learning.OneRowEach | src/placement.js:248-255 | a history leaves one row per person, option and kind |
| Learning.HistoryIsSane | src/placement.js:251-252 | successes never exceed tries, and neither is negative |
| Learning.ReadLevel | src/placement.js:280-284 | the level read is the first of the kind chain with any weight |
| Learning.ChainIs | src/placement.js:261-269 | the kind as it is, then without its last piece, and so on up, then every kind |
| Learning.PartsJoin | src/placement.js:264 | a dot only divides: the pieces of two kinds with a dot between them are the pieces of both |
| Learning.LevelIs | src/placement.js:279-285 | the level read is the first of the chain with any weight |
| Learning.SuccessOf | src/placement.js:277-300 | the estimate over the rows of that level, the person's and everyone else's |
| Learning.EvidenceIsFound | src/placement.js:280-285 | if an option has any weight at all, the level that is read has some |
| Learning.ClampIsIdle | src/placement.js:298-299 | with a prior in [0, 1] the mean lies in [0, 1] without the clamp |
| Learning.NearOwnRate | src/placement.js:297-298 | however many tries others made, the mean is within (k + 20) / (k + 20 + nP) of the person's own rate |
| Learning.MeanIs | src/placement.js:294-300 | own tries in full, others' for twenty at most, and four assumed tries at the prior or two at 0.7 |
| Learning.EstimateFollowsHistory | src/placement.js:271-300 | from the whole history: the estimate is that mean of the decayed tries, in [0, 1] and near the person's rate |
| Planner.MarginalIsFair | src/placement.js:64-79 | marginal cost charges exactly the units past the allowance: 0 while it lasts, the full rate once the forecast exceeds it, and never less for more units |
| Planner.MarginalGrows | src/placement.js:64-79 | a fuller period never makes the same work cheaper |
| Planner.OwnedLoadGrows | src/placement.js:81-92 | owned capacity is free until busy, never dearer than its maximum, and never cheaper when busier |
| Planner.ExcludedIff | src/placement.js:103-125 | no reason is given exactly when every hard constraint holds |
| Planner.OpenIff | src/placement.js:154-173 | an offer competes exactly when it passes every constraint, is priced, fits the ceiling and has a chance |
| Planner.RankSorts | src/placement.js:188 | the ranking is a sorted permutation of the candidates |
| PlannerScores.CheaperLeads | src/placement.js:157-185 | under cheapest, of two competing offers the one with the lower cost per success is ranked first, unless they differ by no more than a thousandth of the largest and the rounding |
| PlannerScores.FasterLeads | src/placement.js:157-185 | under lowest-latency the same for the latency, an unknown one counting as the largest |
| PlannerScores.WeightsDecide | src/placement.js:177-187 | under any other objective the weighted advantages decide, each a share of the largest |
| PlannerScores.WorseNeverAhead | src/placement.js:177-188 | under no objective, with weights that are not negative, is an offer ahead of one it is worse than in both |
| PlannerCosts.FirstOfBest | src/placement.js:188 | of candidates nobody is ahead of, the first offered leads the ranking |
| PlannerScores.BestIsSelected | src/placement.js:177-201 | where nothing binds the work, cheapest selects the offer with the least cost per success and lowest-latency the fastest, to a thousandth of the largest |
| PlannerCosts.LatencyIs | src/placement.js:96-101 | the latency of the operation, else the least p95, else none |
| PlannerCosts.OwnedCost | src/placement.js:86-92 | owned capacity is free up to the busy mark, rises with the square of the way to the full mark, and then costs its maximum |
| PlannerCosts.CardCost | src/placement.js:47-79 | work on a rate card costs the rate for exactly those units that go beyond the allowance after the expected use of the period |
| PlannerCosts.UnitCost | src/placement.js:129-136 | without a card the price by the unit, and without that none: never assumed free |
| PlannerCosts.VerdictIsTrue | src/placement.js:104-165 | the reason given for leaving an offer out is true of it |
| PlannerCosts.AuthorityKeeps | src/placement.js:190-193 | critical work and correctness stay with the authority while it competes, else where they run |
| PlannerCosts.PrivateStays | src/placement.js:152-153 | private and first-party work that names no trust goes to first-party capacity only |
| Planner.Compete | src/placement.js:168-173 | the filter keeps the competing candidates in order |
| Planner.ScoreEach | src/placement.js:177-187 | the loop writes every candidate's score in place, against the largest cost and latency of all; what the scores mean is PlannerScores |
| Planner.Plan | src/placement.js:145-202 | the selection, the verdict on every offer and the ranking; which offers these are is PlannerScores.BestIsSelected, LeavesOnlyForGain and PlannerCosts.AuthorityKeeps |
| Planner.SelectionIsSafe | src/placement.js:16-18 | the selection passes every gate, is priced, fits the ceiling and has a chance |
| Planner.NothingSelectedIff | src/placement.js:175 | nothing is selected exactly when no offer is selectable |
| Planner.LeavesOnlyForGain | src/placement.js:189-197 | a competing current placement is left exactly when the best other lowers the score by at least minGain |
| Planner.GainMeans | src/placement.js:195-196 | a gain of minGain is a score of at most (1 - minGain) of the current one |
| Planner.ReplanIsStable | src/placement.js:190-197 | planning again with the answer as current gives the same answer |
| Sieve.Screen | src/placement.js:432-440 | the first loop: rejections with their true reasons, once each, and the survivors in order |
| Sieve.Bar | src/placement.js:442-451 | the second loop: what is below the bar rejected, the rest kept, and the best of what is below, ties to the first name |
| Sieve.Standings | src/placement.js:457-469 | the third loop: each option above the bar ranked, unpriced or rejected with the planner's reason |
| Sieve.SiftAll | src/placement.js:432-469 | the three loops together |
| Sieve.EveryoneAccounted | src/placement.js:428-469 | with distinct ids, rejected exactly when there is a reason and ranked exactly when it competes |
| Placement.Place | src/placement.js:421-524 | the selection of plan over what rules and bar leave, with every offer accounted for and the ranked options, with their scores and costs per success, in order of score, latency and name |
| Placement.ScreenedIff | src/placement.js:313-347 | no rule keeps an offer out exactly when it is not excluded, is the person's own if it is anybody's or nothing may go to the cloud, is uncensored only if allowed, and is not streaming for work that needs a GPU or two cores |
| Placement.WantedIs | src/placement.js:326-334 | the requirements after the rules: trust, ceiling, residency and objective as the rules say, and nothing else changed |
| Placement.RuleIsTrue | src/placement.js:337-347 | the reason a rule gives is true of the offer |
| Placement.RankedFollowsPlan | src/placement.js:470 | each ranked option is one of plan's candidates, and of two the one plan puts ahead comes first |
| Placement.SelectedMayRun | src/placement.js:455 | what is selected passes rules, bar and hard constraints |
| Placement.OwnMachinesOnly | src/placement.js:337-347 | a user-owned machine is selected, ranked or named as fallback only for the person who owns it |
| Placement.RulesHold | src/placement.js:325-347 | what is selected keeps every rule: no cloud, only free, cost ceilings, region, uncensored models, streaming machines |
| Placement.EveryOfferAccounted | src/placement.js:432-469 | an offer is ranked exactly when it breaks no rule, meets the bar, has a chance, passes every constraint, and has a price within the ceiling; neither ranked nor rejected means its price is unknown |
| Placement.StandingIs | src/placement.js:459-467 | a ranked option stands there with its own chance, cost and cost per success |
| Placement.FallbackIs | src/placement.js:442-451 | there is a fallback exactly when none meets the bar, and it is the likeliest that breaks no rule, ties to the first name |
| Escalation.Exclude | src/placement.js:551-564 | the next exclusion list: what was rejected, what failed, and a refusing provider's offers |
| Escalation.LearnFailure | src/placement.js:536-542 | the failed try is learned when an option, a person and a time are known |
| Escalation.Escalate | src/placement.js:531-582 | the next placement, or, after two escalations, the question to the person |
| Escalation.FailedIs | src/placement.js:536-538 | what failed is the first offer that goes by the named key, as id or id and tag, else the key itself |
| Escalation.TryIs | src/placement.js:539-542 | the failure is learned under the option's id and tag, as a try that did not succeed |
| Escalation.ExcludedIff | src/placement.js:551-564 | the next try leaves out exactly what was left out or rejected before, what failed, and a refuser's offers |
| Escalation.NextCallIs | src/placement.js:565-569 | lowest latency exactly after a timeout, the bar a tenth higher exactly after a failure of quality, and otherwise the same call |
| Escalation.ExcludedStaysOut | src/placement.js:338 | what is excluded is named nowhere, and rejected wherever it is offered |
| Escalation.RefuserIsLeftOut | src/placement.js:561-564 | after a refusal none of that provider's offers is named in the next answer |
| Escalation.RunsAreChains | src/placement.js:526-582 | every run of place and escalate is a chain of the kind the following hold of |
| Escalation.ThreeTries | src/placement.js:543-549 | at most three tries: from the third failure on nothing is selected |
| Escalation.RejectedGrows | src/placement.js:552 | the rejected set only grows until the person is asked |
| Escalation.NeverAgain | src/placement.js:560 | what failed is never selected, ranked or named as fallback again |
| Escalation.TriesAreDistinct | src/placement.js:536-560 | no two tries of a chain run on the same offer |
| Escalation.BarNeverFalls | src/placement.js:565-567 | the quality bar never falls, and a failure of quality raises it by 0.1 for good |
| Escalation.LearnedOnce | src/placement.js:526-530 | the outcomes hold each failure of the chain exactly once, in order |
| PlanAi.GatesIff | src/placement.js:726-778 | no reason exactly when every gate holds |
| PlanAi.AllowRestrictedExcludes | src/placement.js:738-745 | allow_restricted lets nobody in and leaves restricted rights of an unpaid route out |
| PlanAi.InIff | src/placement.js:855-880 | a candidate is scored exactly when it passes the gates, has a rate, fits the ceiling and has a chance |
| PlanAiLaws.QualityIs | src/placement.js:702-720 | the prior when little or nothing was measured, no chance when no success was, else the measurement as far as it is trusted and the prior for the rest |
| PlanAiLaws.LimitIs | src/placement.js:784-794 | a ceiling in dollars is the least whole number of nano-USD that reaches it |
| PlanAiLaws.ReasonIsTrue | src/placement.js:726-880 | the reason given for leaving a candidate out is true of it |
| PlanAiLaws.ThrowsIff | src/placement.js:854-880 | an exception exactly for a candidate past the gates with a rate, or a ceiling, that is no amount |
| PlanAi.Sift | src/placement.js:854-880 | the loop over the candidates: scored, rejected once each, or an exception for a malformed amount |
| PlanAi.Plan | src/placement.js:817-993 | the chosen candidate, its estimate, the rejections and the scored candidates |
| PlanAi.EveryoneAnswered | src/placement.js:846-959 | with distinct ids chosen plus rejected are exactly the candidates, nobody twice |
| PlanAi.ChosenIsEligible | src/placement.js:955 | the chosen candidate passes every gate and the ceiling, and the estimate is its expected cost |
| PlanAi.NothingChosenIff | src/placement.js:882-887 | nothing is chosen exactly when nobody is eligible |
| PlanAiLaws.AnswerIsTrue | src/placement.js:846-959 | every rejection of the answer carries a true reason, or another candidate was chosen |
| PlanAi.ThinEvidenceIsIgnored | src/placement.js:692-719 | below the sample floor, another positive p_success or any confidence leaves the whole answer unchanged |
| PlanAi.SparseHasPrice | src/placement.js:896-897 | a sparse candidate that competes always has a cost at the prior |
| PlanAi.AnyOrderIff | src/placement.js:914-929 | under every objective the comparator is a strict order exactly when no three candidates go in one of five kinds of circle: about the 5% tolerance, about equal costs, or about an unknown latency |
| PlanAiLaws.DifferentPrices | src/placement.js:892-925 | the cheaper comes first unless the other is faster by a sixth of the largest latency (balanced) or a sixteenth (fastest), or likelier by a sixteenth (best); sparse candidates are priced at the prior |
| PlanAiLaws.SamePrice | src/placement.js:926-928 | at one price the faster comes first where both latencies are known and differ, else the first by name |
| PlanAiLaws.GainIs | src/placement.js:946-948 | the gain is how much cheaper, in thousandths of the current price, toward zero |
| PlanAi.OrderIff | src/placement.js:914-929 | for the cost-only objectives that is: exactly when no three candidates of one price are twisted by an unknown latency |
| PlanAi.UniformIsOrder | src/placement.js:914-929 | so it is when latencies are all known or all unknown |
| PlanAi.MixedLatenciesCycle | src/placement.js:926-928 | for every price three candidates, one of unknown latency, that come before one another in a circle |
| PlanAi.WeightedObjectivesCycle | src/placement.js:854-929 | under each weighted objective three candidates that pass every gate, with known latencies, ample evidence and the default floor, are scored by the loop and come before one another in a circle |
| PlanAi.HeadIsFirst | src/placement.js:914-929 | under any objective, where there is no circle nobody comes before the head of the ranking |
| PlanAi.FirstWins | src/placement.js:889-951 | under any objective, where there is no circle: the candidate before all others is chosen, or the current one, kept exactly when the gain is below minGain |
| PlanAi.CheapestWins | src/placement.js:889-951 | for the cost-only objectives, unless three candidates are twisted, nobody has a lower cost per success than the head of the ranking, and the current one is kept exactly when the gain is below minGain |
| Money.WireRoundTrip | src/cost.js:36-46 | an amount written as the wire string reads back exactly when it is not negative; a negative one is refused as a string and accepted as a bigint or a number |
| Money.AmountIs | src/cost.js:36-46 | what is an amount: a bigint, a whole number, or nothing but digits between white space; what is missing is 0 |
| Money.RoundUpIsCeiling | src/cost.js:57 | the written division is the exact ceiling for amounts that are not negative |
| Money.CeilingUnique | src/cost.js:57 | an amount has only one exact ceiling |
| Money.RoundsUpIff | src/cost.js:57 | below zero it is the ceiling exactly above -d or at remainder 1 |
| Money.ChargeRoundsUp | src/cost.js:48-58 | a charge is at least the exact price and less than one nano-USD above it |
| Money.SplittingCosts | src/cost.js:53-58 | splitting tokens over n charges costs at least as much and at most n - 1 nano-USD more |
| Money.SplittingIsTight | src/cost.js:53-58 | n charges of one token reach that bound |
| Money.ExpectedCostNano | src/cost.js:99-108 | the loop over the four token classes and the fee, or an error at the first malformed amount; its value is RequestCosts |
| Money.RequestCosts | src/cost.js:48-108 | a request costs the fee and, class by class, the least whole number of nano-USD that covers its tokens at the flat rate, else the nested one, else 0 |
| Money.RefusedIff | src/cost.js:77-108 | it is refused exactly when the fee or some rate is not an amount, whatever is counted |
| Money.RequestRoundsUp | src/cost.js:77-108 | a request costs its exact price or more, and less than four nano-USD more; each rate is the flat one, else the nested one, else 0 |
| Money.NoCostIff | src/cost.js:125-128 | there is no cost per success exactly without a chance, or when chance and floor both round to nothing |
| Money.PerSuccessIsCeiling | src/cost.js:126-129 | the cost per success is the exact ceiling of cost over divisor |
| Money.PerSuccessIs | src/cost.js:119-130 | the ceiling of the cost over the larger of chance and floor, rounded to billionths |
| Money.PerSuccessOrder | src/cost.js:119-130 | it never falls when the attempt gets dearer and never rises with the chance |
| Money.PerSuccessBounds | src/cost.js:110-130 | for chances up to 1 it is at least the cost, and at the default floor at most ten times it |
| Limits.ActorLimiter.Touch | src/limits.js:59-67 | the key moves to the end, a new one possibly pushing the oldest out |
| Limits.ActorLimiter.Check | src/limits.js:100-107 | windows rolled over and checked: the full window with the longest wait, the first of equals |
| Limits.ActorLimiter.Count | src/limits.js:109 | every window counts the request once |
| Limits.ActorLimiter.Local | src/limits.js:96-112 | the counters and the decision after one request |
| Limits.WorstIs | src/limits.js:100-108 | admitted exactly when no window is full; a refusal names a full one, and no full one waits longer |
| Limits.RefusedCountsNothing | src/limits.js:108 | after a refusal every later request is decided as if it had not been made |
| Limits.RetryAfterIsExact | src/limits.js:104-105 | with positive limits and no other request the actor is refused at every second of the wait and admitted at its end |
| Limits.SlotCounts | src/limits.js:99-109 | a slot counts exactly what was admitted in its window, never more than the maximum |
| Limits.AtMostTwice | src/limits.js:101-109 | any interval as long as a window admits at most twice its maximum |
| Limits.HitKeeps | src/limits.js:59-67 | the map stays within its bound and the actor just seen is last in line |
| Limits.CountedAlone | src/limits.js:96-112 | an actor that is never evicted is counted as if it were alone |
| Limits.ActorIsLimited | src/limits.js:96-112 | among any requests of any actors, one has at most twice the maximum admitted in any such interval, if fewer than maxActors others come between two of its requests |
| Limits.EvictionIff | src/limits.js:64 | an actor is evicted exactly when maxActors other actors have made a request since its last one |
| Limits.NeverEvictedIff | src/limits.js:59-67 | an actor is never evicted exactly when after each of its requests fewer than maxActors others come before its next |
| SharedLimits.LimitStore.Hit | src/limits.js:122-156 | the server's keys and the decision after the script |
| SharedLimits.HitSame | src/limits.js:122-136 | one request on related counters gets one decision and keeps them related |
| SharedLimits.StoreAgrees | src/limits.js:119-136 | on every run the script decides as the actor's own counters would, whoever else makes requests |
| SharedLimits.StoresDecideAlike | src/limits.js:119-156 | the shared store and the in-process limiter give the same decision to every actor that has fewer than maxActors others between its requests |
| Consent.KeyTextUnique | src/consent.js:69 | the text of a key names one subject, purpose and options where no purpose holds the separator, and no subject or no options do |
| Consent.KeyTextClashes | src/consent.js:69 | with a separator in a subject two keys can share a text |
| Consent.OptsTextUnique | src/consent.js:65-68 | the text of the options names kind, client and feature where kind and client hold no NUL |
| Consent.ConsentCache.FreshAt | src/consent.js:71-76 | an answer only before it expires; an expired one is dropped |
| Consent.ConsentCache.RememberAt | src/consent.js:78-87 | only an answer of the current generation is stored, for ttlMs, and the cache trimmed |
| Consent.ConsentCache.Trim | src/consent.js:82-86 | over the limit, expired answers go first, then the oldest |
| Consent.ConsentCache.OnChange | src/consent.js:204-219 | a new generation, and exactly the answers the change concerns are gone |
| Consent.ChangeDrops | src/consent.js:204-219 | after a change exactly the answers for another subject or purpose are left; none when it does not name both |
| ConsentRuns.ReplyKeepsCache | src/consent.js:173-180 | a late answer leaves every cached yes newer than all changes that concern it |
| ConsentRuns.RevocationHolds | src/consent.js:199-219 | a check begun after a change says yes only if the Network said yes to a request started after that change |
| ConsentLaws.RevocationBinds | src/consent.js:165-219 | when a check begun after a revocation says yes to somebody it concerns, an answer of the Network said yes to a request started after it |
| ConsentLaws.SaidIsSaid | src/consent.js:120-143 | what counts as said was said, by an answer that names that subject true |
| ConsentLaws.UnknownIsNo | src/consent.js:153-160 | a check for a purpose other than the four asks nobody and answers no for everybody |
| ConsentLaws.KnownLooks | src/consent.js:165-170 | what is fresh comes from the cache, and exactly the others are asked for |
| ConsentLaws.BatchIs | src/consent.js:171-172 | in order, 500 at a time |
| ConsentLaws.NoAnswerIsNo | src/consent.js:173-180 | a batch without an answer is a no for everybody in it and is not remembered |
| ConsentLaws.AnswerIsGiven | src/consent.js:173-180 | an answered batch gives everybody in it what the answer says |
| ConsentRuns.YesIsFresh | src/consent.js:71-87 | every yes rests on a request started less than ttlMs plus the timeout before the check |
| ConsentRuns.SlowAnswerIsOld | src/consent.js:78-87 | a run whose cached yes has only a request ttlMs + timeout - 1 old behind it |
| ConsentRuns.YesAgeIff | src/consent.js:71-87 | every yes of every run is younger than an age exactly when the age is at least ttlMs plus the timeout; younger than ttlMs exactly when the timeout is 0 |
| ConsentRuns.CachedYesIsNew | src/consent.js:71-87 | a yes taken from the cache was stored, by an answer that said it, less than ttlMs before the check |
| ConsentRuns.CacheStaysBounded | src/consent.js:78-87 | on every run the cache holds at most 10,000 answers, each once |
| ConsentRuns.EveryoneIsAnswered | src/consent.js:165-180 | every subject of a check has an answer or waits in a batch still to come |
| ConsentRuns.Filter | src/consent.js:196 | the allowed subjects of the list |
| ConsentRuns.DistinctlyIs | src/consent.js:193 | the distinct non-empty subjects in the order of their first occurrence |
| ConsentRuns.AllowedIs | src/consent.js:191-197 | exactly the allowed subjects, in order |
| Assertions.Verifier.Prune | src/assertions.js:271-274 | exactly the jtis older than the window are forgotten |
| Assertions.Verifier.Verify | src/assertions.js:276-284 | the refusal, or acceptance with the jti remembered |
| Assertions.PassesIff | src/assertions.js:208-258 | an assertion passes exactly when it is signed by a known key, in time to ten seconds, from the issuer and for an audience asked for, names a person and services, and is carried by a service it lists or that minted it |
| Assertions.CodeIsTrue | src/assertions.js:208-258 | the code of a refusal is true of the assertion |
| Assertions.Remembered | src/assertions.js:263-274 | an accepted jti is remembered until the window has passed |
| Assertions.ChecksAreClose | src/assertions.js:233-236 | two uses that pass the time checks lie less than 81 s apart |
| Assertions.AcceptedOnce | src/assertions.js:262-289 | an assertion that lives a minute is never accepted twice when no check waits more than 39.001 s for its key |
| Assertions.LongerDelayReplays | src/assertions.js:276-282 | with any longer delay it can be |
| Assertions.LongerDelayHasWitness | src/assertions.js:233-236 | and there is such an assertion |
| Assertions.NoReplayIff | src/assertions.js:262-289 | on every run no assertion is accepted twice exactly when the delay is at most 39.001 s |
| Assertions.MemoryIsRecent | src/assertions.js:271-274 | after a use the memory holds only the window |
| Bundle.Collector.Run | scripts/browser-bundle.js:47-59 | visit: the shared list after it, or a refusal |
| Bundle.CollectsReachable | scripts/browser-bundle.js:43-62 | the bundle holds exactly the modules reachable from the entry, each once, the entry first |
| Bundle.RefusesIff | scripts/browser-bundle.js:49-57 | collecting fails exactly when something reachable is refused or cannot be resolved |
| Bundle.Loader.Run | scripts/browser-bundle.js:85-92 | the emitted loader: what it enters, finds in its cache and leaves |
| Bundle.TableLoads | scripts/browser-bundle.js:67-71 | on equal caches the table does for an index what a cached require does for the file |
| Bundle.BundleLoadsTheSame | scripts/browser-bundle.js:64-93 | from the entry the table loads the same modules in the same order as a cached require, cycles included |

## Left out

- GovernorRefinement.SameAnswers: asks that the lease ttls on one key lie within the script's 5 s grace, because the stores differ otherwise; GapDiverges gives the run and StoresAgreeIff the exact condition.
- GovernorLedger.BooksBalance: the books are those of the in-process store; the scripts share them through SameAnswers.
- Queue.ExactlyOnePlace: needs every handler to settle, or its worker to die, within visibilityMs; OnePlaceIff shows that nothing less will do.
- Queue.NeverLost: a MULTI that takes effect while its reply is lost is not modelled; streams below MAXLEN, attempts of at least 1, and uids that do not repeat, as the source assumes.
- Pipeline.ExactlyOnce: Events remembers event ids for ever, and a claim takes any due rows up to a batch, which covers SKIP LOCKED in any order.
- PipelineRecovery.Recovers: says that such a run exists, not that the processes take it; that is up to their timers, which are left out.
- Outbox.Relay.DoFlush: the database does not fail inside a pass; a relay that dies anywhere is a Crash step of the pipeline.
- SerialFlush.EveryRun: a flush() called from the synchronous start of the pass itself is not modelled.
- Sse.ChunkInvariance: the text is already decoded; a character split between two byte chunks is the decoder's concern.
- Jobs.Terminates: needs a server that replays an honest log and numbers its messages; TerminatesIff says exactly which messages may go without a number.
- PlanAi.FirstWins: only where no three candidates go in a circle, which is exactly where the comparator is an order (AnyOrderIff); elsewhere the answer is up to the language's sort. Affinity is null.
- PlanAi.CheapestWins: only for the cost-only objectives; the others put a dearer candidate first when its lead is above the tolerance (FirstWins).
- PlanAi.AnyOrderIff: an objective named like a built-in property of a JavaScript object ("constructor") finds no weights there and is not modelled.
- Placement.Place: the sentence for the person and the display names are not modelled.
- Limits.ActorIsLimited: an evicted actor starts afresh; EvictionIff says when that happens. A fractional limit acts as the whole number above it.
- ConsentRuns.YesAgeIff: an answer that arrives after its timeout is assumed never to win the race against it.
- MemoryQueue.Queue.Settle: the counters, and `active--` with the pump, are two microtasks of the source; here they are one step.
- Assertions.AcceptedOnce: the minting service is assumed to give an assertion at most a minute, and one jti belongs to one assertion.
- The governor: createGovernor's argument checks, the hash of a reservation's id, usage samples, and the precision of INCRBYFLOAT, which is exact here.
- The outbox: prepare() and trace fields of an envelope, timers (start, stop, kick), the kept counts, and the DDL.
- The in-process queue: dedupe ids and error texts; the durable queue's dedupe keys and statistics.
- Plans: signing, verifying and holding a signed plan, beyond the text that is signed; rendezvous hashing and pickTwo.
- Regular expressions over names and reasons (safeName, safeReason), and the record builders of rate cards and snapshots.
- Consent: mock(), the once-a-minute log, and the shape checks of an answer, which count as no answer.
- Limits: the choice of an actor from a request, and falling back to the process's own counters when Valkey fails.
- HTTP, sockets, DOM, the file system, tokens and cryptography: inputs, or nondeterministic steps.
- The per-service wrappers (blog, deals, trade, space, tips, live, chat, bot, wiki and similar): path building and argument checks only.
