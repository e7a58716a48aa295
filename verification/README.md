# Verified model of a WhatsApp gateway's state machines

The gateway (a NestJS server, a React dashboard and SDKs) is mostly plumbing around a few small state
machines whose correctness is an argument over every run. This project models those and proves what they
are for. `dafny verify dfyconfig.toml` checks everything (Dafny 4.11).

Each module pairs a specification on values (a step function, and runs as sequences of events) with the
program in its own form: a class whose fields the callbacks update, or a method with the source's loop.
Every method's contract equates the new state with the specification's step, and a `Drive` method does so
for whole runs, so the theorems about runs hold of the class. A property that is false as the source's
documentation states it is kept false: a lemma gives the input, another the exact condition.

| module | source | what is proved |
|---|---|---|
| `InflightBudget` | in-flight request-body budget | what each request reserves, from its raw headers; the counters are the sums of live reservations; both limits hold after every callback; release happens exactly once; the reaper fires exactly on three silent polls |
| `MessageReplay` | optimistic writes over an in-flight page | no write is lost or applied twice, from an identity test and one subscription per key |
| `BootMigrations` | boot migrations under an advisory lock (section 13.3.5 of the PostgreSQL documentation) | mutual exclusion and exactly-once, in-order commits for any number of replicas with failures and crashes anywhere; which dropped sessions break either, exactly; how each boot ends, exactly |
| `ScrollAnchor` | reading position in a chat thread | the exact displacement of every item over any run; a watched item is held still exactly when every growth above it was caught |
| `Backport` | file-by-file patch of a dependency | success means every site landed; the exit code, exactly; when a best-effort exit is honest, exactly |
| `TextPatch`, `StatusPatch`, `ReadySyncPatch` | exact-text patches | which sources are patched, exactly; refusal changes nothing, success is stable, edits are reversible; when a nested find still reads as patched, exactly |
| `Retry` | Go SDK retry loop (idempotent methods, section 9.2.2 of RFC 9110) | the doubling loop in int64, exactly when it is exact; what is re-sent, exactly; which policies stop at a cancellation, exactly |
| `WebVersion` | WhatsApp Web version resolver | the settled pick, and every fetch's outcome by it; when a call fetches, exactly; one fetch, one answer, one version per process |
| `InfraForm` | configuration form hydration | refetches are invisible after the lock, exactly when; what a save persists |
| `EnvLayers` | environment layering | pinned means out of the saved file's reach, exactly; when the two loaders agree, exactly |

Facts about the code that the proofs bring out:

- A fetcher that throws before it suspends leaves the resolver's in-flight slot holding a settled promise
  for the life of the process: every later caller gets null (`ThrowingFetcherExactly`, `StuckForever`).
- If the first saved configuration names no engine, the form locks with the engine radio unseeded, and a
  later refetch still moves it (`FrozenExactly`, `LateSeedAfterLock`). The gateway's own endpoint always names
  one (src/modules/infra/infra-config.controller.ts:170), and then nothing moves after the lock
  (`LockedFormStays`). Whichever of the two queries answers last decides the database host, Redis address and
  local path (`ArrivalOrderExactly`).
- Several media items above the reader that decode in one frame can be judged wrongly, because the later ones
  are measured before the earlier ones' corrections are applied (`DecodesInOneFrame`, `SecondDecodeMissed`).
- After the patch tools have written, a failing temp-directory cleanup or artifact scan raises an error
  without the partial-tree tag, so a best-effort run exits 0 over it (`BestEffortExactly`).
- The ready-sync script says that each replacement contains its find; the completion-marker one does not.
  Its counting is right in both cases, unless cutting a find out of the source joins up another one
  (`AppliedExactly`), as it does for every find that stands inside a broken copy of itself
  (`BrokenCopyReadsUnapplied`, `NestedFindReadsUnapplied`).
- During a saved restore, two loads before one frame make the second callback lower the flag while the first
  one's scroll event is still due; that event is then taken for the reader's, which ends the restore and
  overwrites the saved position (`RestoreSurvivesExactly`, `TwoLoadsForgetTheSpot`).
- If the server drops the lock session of a replica that is inside the migrations, any other replica can enter
  beside it (`ExclusionExactly`) and, while anything is left to commit, both can commit the same migration
  (`ExactlyOnceExactly`, `DisasterCommitsTwice`).
- A cancellation at the very instant a retry timer fires can let one more request out, the last one, because
  Go's select may take the timer (`ResendAfterCancellationExactly`, `ResendAtTheFiringInstant`). With a backoff
  that is not positive, and a transport that answers on a context already done, a request can outlive its
  cancellation for all its retries; one that honours the context ends it at the next attempt
  (`HonouredCancellationEnds`). Without such a transport it can happen exactly to policies that are uncapped or
  whose doubling reaches 2^62 below the cap (`CancellationStopsExactly`, `OverflowOutlivesCancellation`). Among
  capped policies these are the ones whose delay is at some attempt not the documented one
  (`CappedBackoffExactly`).
- The writes queued for replay are required to be idempotent. Each being so is not enough for a page that
  already reflects some of them (`IdempotentWritesCanClash`); a queue that is harmless to replay is
  (`AbsorbsExactly`), and writes that also commute make one (`OrderlessAbsorbs`).
- A blank line in `.env` pins its key even for keys whose blank process value counts as unset
  (`BlankPinsExactly`).

## Model

| member | source | states |
|---|---|---|
| InflightBudget.CapWithinBudget | src/config/inflight-body-budget.ts:135-149 | for every budget and share, the per-client cap and the chunked opening reservation fit the budget; a share of 1 or more gives the whole budget |
| InflightBudget.ConfiguredLimits | src/config/inflight-body-budget.ts:135-149 | in the operator's terms: the per-client cap is budget * share rounded down and at least 1, the whole budget for a share above 1; the opening reservation is the budget clamped to 1 byte and 1 MiB |
| InflightBudget.HeadersDecide | src/config/inflight-body-budget.ts:182-204 | what a request reserves and whether it counts as compressed follow from its raw headers: n for a usable length n, the opening reservation for a chunked body without one, otherwise 0 |
| InflightBudget.AdmissionExactly | src/config/inflight-body-budget.ts:182-228 | from the raw headers and the live sums: 415, 503, a dropped socket or admission, each exactly when; an admission raises aggregate and client by what the headers reserve, and arms the reaper if and only if that is positive |
| InflightBudget.DeclaredLengthExactly | src/config/inflight-body-budget.ts:335-339 | a declared length is n if and only if the header is the number n and n is a non-negative safe integer |
| InflightBudget.LengthIndicates | src/config/inflight-body-budget.ts:197-203 | a usable length or chunked encoding always indicates a body, and so does the first length too large to be usable |
| InflightBudget.StepKeepsInv | src/config/inflight-body-budget.ts:214-321 | whichever callback comes next, aggregate and every client stay within their limits, every tracked client has a live request, every client holding bytes is tracked, at most 10,000 are tracked |
| InflightBudget.ReconcileKeepsInv | src/config/inflight-body-budget.ts:273-295 | mid-stream growth past either limit leaves a ledger in which both limits hold again |
| InflightBudget.RunKeepsInv | src/config/inflight-body-budget.ts:131-332 | the budget bound over any interleaving of any number of requests' callbacks |
| InflightBudget.DrainedIsEmpty | src/config/inflight-body-budget.ts:238-251 | once every request is released the aggregate is 0 and the client map empty |
| InflightBudget.OtherClientAdmitted | src/config/inflight-body-budget.ts:214-228 | while one client holds all live bytes, another's uncompressed request of at most min(cap, budget - cap) bytes is admitted if the map has room |
| InflightBudget.AdmitKeepsInv | src/config/inflight-body-budget.ts:189-228 | admission keeps both limits, adds exactly the reservation of an uncompressed body, and every refusal leaves the ledger as it was |
| InflightBudget.StepKeepsRequest | src/config/inflight-body-budget.ts:230-256 | a callback touches only its own request; a release is final and freezes the reservation; a disarmed reaper stays disarmed |
| InflightBudget.ReleasedExactlyOnce | src/config/inflight-body-budget.ts:238-256 | over any run a request's bytes leave the counters once if it ever ended, never otherwise |
| InflightBudget.TerminalReleases | src/config/inflight-body-budget.ts:252-256 | after any terminal event the request has been decremented exactly once, whatever came before |
| InflightBudget.ChunkedReservationGrows | src/config/inflight-body-budget.ts:269-278 | a reservation never shrinks while the socket counter does not, and covers the bytes seen at the last poll with progress |
| InflightBudget.ChunkedAlwaysHolds | src/config/inflight-body-budget.ts:187-187 | over every run a live chunked request without a usable length holds at least 1 byte, and at least what the last poll with progress saw |
| InflightBudget.PollExactly | src/config/inflight-body-budget.ts:297-319 | one poll of an armed request: the reservation becomes the larger of the opening one and the bytes that came; it is released exactly when over a limit or silent for 15 s; it stays armed exactly while incomplete |
| InflightBudget.StallClock | src/config/inflight-body-budget.ts:297-320 | the reaper's last byte count and last progress time are a function of the polled readings alone |
| InflightBudget.ReapedIffThreeSilentPolls | src/config/inflight-body-budget.ts:297-320 | with polls on time, the next poll reaps if and only if it is the third in a row to read the same count |
| InflightBudget.SilentIsReaped | src/config/inflight-body-budget.ts:315-318 | a silent, incomplete, body-carrying request is released after any poll at least 15 s past its last progress, whatever other requests do |
| InflightBudget.BodyBudget.constructor | src/config/inflight-body-budget.ts:131-149 | starts with counters equal to the empty ledger's sums and the derived limits |
| InflightBudget.BodyBudget.CurrentBytes | src/config/inflight-body-budget.ts:329-329 | the aggregate counter is the sum of all reservations still held, within 0 and the budget |
| InflightBudget.BodyBudget.ClientBytes | src/config/inflight-body-budget.ts:330-330 | a client's counter, absent counting as 0, is the sum over its unreleased requests, within its cap |
| InflightBudget.BodyBudget.OnRequest | src/config/inflight-body-budget.ts:182-204 | from the raw headers on, the aggregate grows by exactly what they reserve, the reaper is armed exactly when that is positive, and the answer is the ledger's |
| InflightBudget.BodyBudget.Middleware | src/config/inflight-body-budget.ts:205-325 | the answer from running counters is the ledger's admission decision (415, 503, dropped socket or next) and keeps conservation |
| InflightBudget.BodyBudget.ReleaseBytes | src/config/inflight-body-budget.ts:241-251 | both counters stay equal to the sums, and a second call changes nothing |
| InflightBudget.BodyBudget.OnTerminal | src/config/inflight-body-budget.ts:252-256 | each of the five listeners has the ledger's release as its whole effect |
| InflightBudget.BodyBudget.OnBodyEnd | src/config/inflight-body-budget.ts:321-321 | the end of the body disarms the reaper and moves no counter |
| InflightBudget.BodyBudget.Resize | src/config/inflight-body-budget.ts:276-284 | moving a reservation keeps both counters equal to the sums and returns that client's new sum |
| InflightBudget.BodyBudget.ReconcileUndeclared | src/config/inflight-body-budget.ts:273-295 | reconciling from counters gives the ledger's reconciliation, abort included |
| InflightBudget.BodyBudget.OnPoll | src/config/inflight-body-budget.ts:297-319 | one timer callback, in every branch, is the ledger's poll |
| InflightBudget.BodyBudget.Drive | src/config/inflight-body-budget.ts:182-325 | conservation over whole runs: any sequence of callbacks leaves the counters equal to the sums |
| MessageReplay.InFlightRun | dashboard/src/hooks/useChatMessages.ts:174-191 | through writes, pauses and resumes of one fetch, content and queue are exactly the writes made so far |
| MessageReplay.NoLostWrite | dashboard/src/hooks/useChatMessages.ts:174-216 | over every run of writes, pauses, resumes and restarts, when a fetch settles the idle cache holds every queued write, once and in order, over whatever page landed, or over the starting value if the fetch failed |
| MessageReplay.WriteTakesEffect | dashboard/src/hooks/useChatMessages.ts:178-185 | in every state a write to a chat with data leaves that data transformed, whatever the fetch is doing, is queued exactly when a fetch is out, and touches no other chat |
| MessageReplay.IdleRunFolds | dashboard/src/hooks/useChatMessages.ts:178-185 | a chat idle throughout a run ends at its starting value with every write applied in order, and nothing queued |
| MessageReplay.ReflectedPageSettles | dashboard/src/hooks/useChatMessages.ts:171-173 | over a page that already reflects a first part of the queue each write still takes effect once, if each first part is harmless to replay over its own result |
| MessageReplay.AbsorbsExactly | dashboard/src/hooks/useChatMessages.ts:171-173 | a queue and its first parts absorb theirs if and only if each of them is harmless to replay |
| MessageReplay.OrderlessAbsorbs | dashboard/src/hooks/useChatMessages.ts:171-173 | idempotent writes any two of which commute make a queue whose first parts are all harmless to replay |
| MessageReplay.IdempotentWritesCanClash | dashboard/src/hooks/useChatMessages.ts:171-173 | two idempotent writes whose replay over a page reflecting both changes it |
| MessageReplay.IdleHasNothingQueued | dashboard/src/hooks/useChatMessages.ts:144-164 | in every reachable state an idle chat, and one without data, has no queued write |
| MessageReplay.StepKeepsQuiescent | dashboard/src/hooks/useChatMessages.ts:166-180 | no write creates a slice; only a landing page gives an empty one data |
| MessageReplay.ChatCache.WriteMessagesCache | dashboard/src/hooks/useChatMessages.ts:174-191 | a write to a chat with data transforms it at once in every fetch state, to one without data does nothing; it queues exactly when the fetch is not idle, with one subscription per non-empty queue |
| MessageReplay.ChatCache.ScheduleReplayOnSettle | dashboard/src/hooks/useChatMessages.ts:144-164 | after it the key has exactly one listener, also when called redundantly |
| MessageReplay.ChatCache.ReplayWritesLostToFetch | dashboard/src/hooks/useChatMessages.ts:207-216 | clears the queue; folds it over the cached object exactly when that object is not the one the last queued write produced |
| MessageReplay.ChatCache.Unsubscribe | dashboard/src/hooks/useChatMessages.ts:150-160 | removes the key's one listener and its tracking, and no other |
| MessageReplay.ChatCache.OnCacheEvent | dashboard/src/hooks/useChatMessages.ts:147-162 | removal drops queue and subscription without touching the cache; a settle replays; anything else does nothing |
| MessageReplay.ChatCache.RestartFetch | dashboard/src/hooks/useChatMessages.ts:155-158 | a fetch replaced without passing through idle leaves content, queue and subscription in place |
| MessageReplay.ChatCache.Settle | dashboard/src/hooks/useChatMessages.ts:193-216 | by identity alone the class reaches the specified settled content, for a landed page and for a failure |
| MessageReplay.ChatCache.RemoveQuery | dashboard/src/hooks/useChatMessages.ts:149-154 | removal leaves neither slice, queue, subscription nor listener |
| MessageReplay.ChatCache.MountEffect | dashboard/src/hooks/useChatMessages.ts:94-112 | the mount effect's second chance never changes anything |
| MessageReplay.ChatCache.Drive | dashboard/src/hooks/useChatMessages.ts:124-216 | every run of the cache, over any number of chats, is a run of the specification |
| BootMigrations.LedgerStep | src/database/pg-boot-migrations.ts:62-65 | the ledger only grows, only by the next migrations of the chain, and only by a replica inside runMigrations |
| BootMigrations.StepSafe | src/database/pg-boot-migrations.ts:53-122 | every operation outcome, crash and restart of any replica keeps the safety invariant |
| BootMigrations.CrashesAreUndisturbing | src/database/pg-boot-migrations.ts:66-70 | runs whose only troubles are failed operations and crashes satisfy the run theorems' hypothesis |
| BootMigrations.RunSafe | src/database/pg-boot-migrations.ts:53-122 | the safety invariant over every run of any number of replicas |
| BootMigrations.AtMostOneInside | src/database/pg-boot-migrations.ts:60-71 | at most one replica is inside runMigrations |
| BootMigrations.PostgresOnlyWhenMigrated | src/database/pg-boot-migrations.ts:123-123 | a postgres DataSource is handed out only over the full ledger, each migration once and in order, with its pool open |
| BootMigrations.FailingExitDestroys | src/database/pg-boot-migrations.ts:75-122 | a replica that throws or falls back has called destroy on the postgres DataSource it made; the pool survives only if that call itself failed |
| BootMigrations.LockFreeUnlessLeaked | src/database/pg-boot-migrations.ts:65-74 | once all boots are over the lock is held if and only if some session's end() failed while holding it |
| BootMigrations.ExclusionExactly | src/database/pg-boot-migrations.ts:60-71 | after any event in a safe state, every further run keeps at most one replica inside if and only if the event did not drop the session of a replica inside, or there is no other replica |
| BootMigrations.ExactlyOnceExactly | src/database/pg-boot-migrations.ts:60-71 | and every further run records the chain once and in order if and only if the same holds or nothing was left to commit |
| BootMigrations.DisasterCommitsTwice | src/database/pg-boot-migrations.ts:60-71 | a run of two fresh replicas that reaches two inside and then records migration 0 twice |
| BootMigrations.SystemRunsProgram | src/database/pg-boot-migrations.ts:53-123 | over every run a live replica stands where the program stands after its own operations since its last restart, its ledger read having returned what was missing at that moment |
| BootMigrations.ExitExactly | src/database/pg-boot-migrations.ts:53-123 | from the outcomes alone: postgres if and only if every operation through the last migration succeeded; SQLite if and only if the first failure was an authentication failure after the construction and the fallback succeeded; thrown if and only if the construction failed, or that failure was another one, or the fallback failed |
| BootMigrations.RunExitExactly | src/database/pg-boot-migrations.ts:53-123 | the same of every replica that ends in any run of any number of replicas, from its own operations since its last restart |
| BootMigrations.BootAttempt.RunMigrations | src/database/pg-boot-migrations.ts:63-64 | however the chain ends, control goes to the unlock with that outcome |
| BootMigrations.BootAttempt.MigrateUnderLock | src/database/pg-boot-migrations.ts:62-71 | the inner finally always unlocks, swallows the unlock's failure and keeps the original one |
| BootMigrations.BootAttempt.WithLockClient | src/database/pg-boot-migrations.ts:59-74 | the middle finally always ends the session, from a failed connect or lock too |
| BootMigrations.BootAttempt.CreateBootDataSource | src/database/pg-boot-migrations.ts:40-124 | which of the three ends it comes to, exactly, from the script of outcomes, and that it performs exactly the operations of the control automaton |
| ScrollAnchor.JudgedExactly | dashboard/src/hooks/useChatScrollPosition.ts:91-120 | a decode counts as above exactly when its box ended at or above the top edge before it grew |
| ScrollAnchor.StepSlip | dashboard/src/hooks/useChatScrollPosition.ts:234-257 | every event moves an item's settled place by exactly its slip and keeps all owed corrections within the content |
| ScrollAnchor.WritesAreExact | dashboard/src/hooks/useChatScrollPosition.ts:155-162 | along any run no correcting write is clamped, and the remembered position is the one being read |
| ScrollAnchor.DisplacementIsSlip | dashboard/src/hooks/useChatScrollPosition.ts:300-350 | with nothing owed at either end, an item's screen displacement is exactly the run's total slip |
| ScrollAnchor.SlipIsMiss | dashboard/src/hooks/useChatScrollPosition.ts:300-333 | besides the reader's own scroll an event only pushes a watched item down, and leaves it in place if and only if growth above it ended at or above the edge or fell inside a page's fetch |
| ScrollAnchor.BelowIsNotJudged | dashboard/src/hooks/useChatScrollPosition.ts:79-93 | growth at or below a visible item is never taken for growth above the reader |
| ScrollAnchor.ReaderHeldStill | dashboard/src/hooks/useChatScrollPosition.ts:234-347 | over any run, the reader's scrolls included, a watched item moves by what was scrolled and no more if and only if every growth above it was caught; scrollTop then gained exactly that growth and the scrolls |
| ScrollAnchor.JudgedWhenNothingOwed | dashboard/src/hooks/useChatScrollPosition.ts:322-333 | with nothing owed every decode above the item at the top edge is judged rightly |
| ScrollAnchor.DecodesInOneFrame | dashboard/src/hooks/useChatScrollPosition.ts:341-345 | for any number of decodes before one frame, in any order: the next is judged rightly exactly when its box, with all growth so far at or above it, ended at or above the edge; otherwise it slips by all it grew |
| ScrollAnchor.SecondDecodeMissed | dashboard/src/hooks/useChatScrollPosition.ts:341-345 | a thread and a run of two decodes and their frame after which the reader sits 30 lower |
| ScrollAnchor.ScrollPosition.WriteScrollTop | dashboard/src/hooks/useChatScrollPosition.ts:155-162 | after the browser's clamp the flag is up exactly when this write moved the position, and a scroll event is due if it did or one was due already |
| ScrollAnchor.RestoreSurvivesExactly | dashboard/src/hooks/useChatScrollPosition.ts:140-146 | with no scroll of the reader's, any run of loads and frames keeps a pending restore and the saved position if and only if no frame finds two or more loads waiting while the position is not yet where the content lets the target be |
| ScrollAnchor.TwoLoadsForgetTheSpot | dashboard/src/hooks/useChatScrollPosition.ts:300-309 | a spot saved at 900 that two loads before one frame overwrite with 200 |
| ScrollAnchor.ScrollPosition.RenderFrame | dashboard/src/hooks/useChatScrollPosition.ts:182-192 | a browser frame during a restore, its scroll event and then its callbacks, is the theory's frame, the one that ends the restore included |
| ScrollAnchor.ScrollPosition.DriveRestore | dashboard/src/hooks/useChatScrollPosition.ts:284-309 | every restoring run of the hook is a run of the theory |
| ScrollAnchor.ScrollPosition.PinToBottom | dashboard/src/hooks/useChatScrollPosition.ts:164-170 | ends pinned, as far down as the browser scrolls |
| ScrollAnchor.ScrollPosition.OnScroll | dashboard/src/hooks/useChatScrollPosition.ts:182-192 | its own write's event only lowers the flag; a genuine one cancels the restore, pins if and only if at most 24 px are left below the viewport, and is remembered |
| ScrollAnchor.ScrollPosition.ScrollLoadFrame | dashboard/src/hooks/useChatScrollPosition.ts:182-192 | the reader scrolls, an item decodes, its frame runs: more than 24 px up he moves by the growth of an item above his position and by nothing else; any nearer he ends at the new bottom |
| ScrollAnchor.ScrollPosition.LoadThenFrame | dashboard/src/hooks/useChatScrollPosition.ts:300-347 | one decode and its frame: a pinned thread follows to its bottom, a reader is held |
| ScrollAnchor.ScrollPosition.RestoreEffect | dashboard/src/hooks/useChatScrollPosition.ts:197-222 | a loaded chat with a saved position goes back to it unpinned, one without goes to the bottom pinned, anything else stays put; the other chat's page is forgotten; saved positions stay |
| ScrollAnchor.ScrollPosition.OlderPageEffect | dashboard/src/hooks/useChatScrollPosition.ts:234-257 | only the falling edge of an awaited fetch corrects, by the growth since the request, and saves the corrected spot |
| ScrollAnchor.ScrollPosition.OnOlderMessagesRequested | dashboard/src/hooks/useChatScrollPosition.ts:259-264 | snapshots the height the landing is measured against |
| ScrollAnchor.ScrollPosition.OnMediaLoad | dashboard/src/hooks/useChatScrollPosition.ts:300-350 | schedules the restore, the re-pin or, for a reader, a correction by what the item grew exactly when it ended at or above his position before |
| ScrollAnchor.ScrollPosition.ApplyCorrection | dashboard/src/hooks/useChatScrollPosition.ts:334-347 | adds to the live position, and does nothing if another chat is on screen by then |
| ScrollAnchor.ScrollPosition.RunFrame | dashboard/src/hooks/useChatScrollPosition.ts:303-347 | each frame callback re-checks its reason before writing, with the effect of each of the three |
| ScrollAnchor.ScrollPosition.ReaderScrolls | dashboard/src/hooks/useChatScrollPosition.ts:182-192 | a genuine scroll away from the bottom moves position and memory together and leaves every owed correction owed |
| ScrollAnchor.ScrollPosition.Drive | dashboard/src/hooks/useChatScrollPosition.ts:122-353 | every reading session of the hook is a run of the theory |
| Backport.RequiredSitesCoverThePatch | scripts/patch-wwebjs-201832.js:45-66 | every normalized file has its entry among the required sites, and only one |
| Backport.SuccessMeansLanded | scripts/patch-wwebjs-201832.js:214-301 | over any tree and any behaviour of the tools, success is reported only if every site landed; a skip changed nothing; an apply left no artifact |
| Backport.BestEffortIsHonest | scripts/patch-wwebjs-201832.js:303-330 | absent an untagged failure, a best-effort exit 0 means a whole tree or one this run did not touch |
| Backport.BestEffortExactly | scripts/patch-wwebjs-201832.js:136-148 | that promise holds for all trees and honest tools if and only if neither temp cleanup nor artifact scan fails where reachable |
| Backport.ExitExactly | scripts/patch-wwebjs-201832.js:303-330 | from the tree and the tools: without the flag exit 0 if and only if every site landed and the run ended normally; with it also for exactly the failures not tagged as partial |
| Backport.HalfPatchedFailsForever | scripts/patch-wwebjs-201832.js:214-234 | once a tree is half-patched no later run touches it and every one exits 1, best effort or not |
| Backport.WholeTreeStandsDown | scripts/patch-wwebjs-201832.js:214-236 | a whole tree is skipped, unchanged, by every later run |
| Backport.KilledMidway | scripts/patch-wwebjs-201832.js:197-202 | a killed applier leaves a tree that passes for patched only between the Message.js and Utils.js writes, and a whole one only at the end |
| Backport.FaithfulRunApplies | scripts/patch-wwebjs-201832.js:238-301 | the real applier on a pristine tree, by either tool, lands every site, and the next run stands down |
| Backport.Checkout.MissingSites | scripts/patch-wwebjs-201832.js:221-221 | returns exactly the required sites whose marker is absent |
| Backport.Checkout.ApplyWithGit | scripts/patch-wwebjs-201832.js:172-190 | which git failures are tagged as leaving a partial tree |
| Backport.Checkout.VerifyAndClean | scripts/patch-wwebjs-201832.js:274-295 | scan, per-site verification and clean-up, with every point at which each can fail or be killed |
| Backport.Checkout.ApplyBackport | scripts/patch-wwebjs-201832.js:192-301 | the script in place on the tree is the specified run |
| Backport.Checkout.EntryPoint | scripts/patch-wwebjs-201832.js:303-330 | exit code and reported success, exactly, from the tree and the tools; what it reports is whole, a half-patched tree always exits 1, and exit 0 is honest under the exact condition |
| TextPatch.CountZero | scripts/patch-wwebjs-status.js:119-121 | a split count of zero means the text is absent |
| TextPatch.CountOne | scripts/patch-wwebjs-status.js:119-121 | for a text that cannot overlap itself, a split count of one means exactly one position |
| TextPatch.EditsProgress | scripts/patch-wwebjs-status.js:158-161 | part-way through a group the applied replacements stand once each and the remaining edits are still unpatched |
| TextPatch.EditsUndone | scripts/patch-wwebjs-ready-sync.js:115-117 | undoing the edits in reverse restores the source exactly |
| StatusPatch.SuccessIsStable | scripts/patch-wwebjs-status.js:140-176 | a successful run leaves every group applied, and the next run resolves to the same text with nothing applied |
| StatusPatch.AppliedIsStable | scripts/patch-wwebjs-status.js:129-138 | a file that reads as applied is resolved unchanged |
| StatusPatch.ResolvesExactly | scripts/patch-wwebjs-status.js:146-175 | a run goes through if and only if each group, in the source as found, has all its finds once and no replacement or all replacements once and no find; it applies exactly the groups that are not there yet |
| StatusPatch.GroupKept | scripts/patch-wwebjs-status.js:100-104 | applying one group leaves a separate one done if and only if it was, and unpatched if and only if it was |
| StatusPatch.TwoGroupsAreClean | scripts/patch-wwebjs-status.js:105-117 | what the theorems ask of the groups is met by two groups of one edit and of two |
| StatusPatch.Script.ApplyGroup | scripts/patch-wwebjs-status.js:159-161 | the in-memory replacements, in order |
| StatusPatch.Script.ResolveGroups | scripts/patch-wwebjs-status.js:146-175 | the group loop is the specified resolution, with one write at the end and none on refusal |
| StatusPatch.Script.ApplyStatusPatches | scripts/patch-wwebjs-status.js:140-176 | refused exactly when some group is in neither shape, the file then byte for byte unchanged; resolved: it reads as applied, by the groups that were missing; already applied: nothing changes |
| ReadySyncPatch.OutcomesExactly | scripts/patch-wwebjs-ready-sync.js:104-124 | it applies exactly where every find stands once and no replacement does, and stands down exactly where every replacement stands once and cutting it out leaves no find |
| ReadySyncPatch.AppliedExactly | scripts/patch-wwebjs-ready-sync.js:85-125 | after an applied run each replacement stands once, and the file reads as applied if and only if cutting each find out of the original leaves none |
| ReadySyncPatch.NeverAppliedTwice | scripts/patch-wwebjs-ready-sync.js:98-125 | whatever the source, a run after an applied one writes nothing, and skips or refuses by the same condition |
| ReadySyncPatch.AppliedIsReversible | scripts/patch-wwebjs-ready-sync.js:114-119 | undoing the edits of an applied run restores the original source |
| ReadySyncPatch.BrokenCopyReadsUnapplied | scripts/patch-wwebjs-ready-sync.js:105-119 | for any edits: a source the script patches in which a find stands inside a broken copy of itself reads as not applied afterwards |
| ReadySyncPatch.NestedFindReadsUnapplied | scripts/patch-wwebjs-ready-sync.js:105-119 | every find of two characters or more has such a source: the edit is applied there and the tree it leaves reads as not applied |
| ReadySyncPatch.Script.ApplyReadySyncPatch | scripts/patch-wwebjs-ready-sync.js:98-125 | one write, only when all counts agree; refused and skipped runs leave the file as it was |
| Retry.Wrap64 | sdk/go/retry.go:117-119 | int64 two's-complement wrap-around, the identity within range |
| Retry.Backoff | sdk/go/retry.go:112-128 | the loop, in wrapping int64 arithmetic, with its early and late caps |
| Retry.DoubledIsShift | sdk/go/retry.go:110-111 | repeated doubling is the documented base * 2^attempt |
| Retry.CappedBackoffExactly | sdk/go/retry.go:110-128 | for every capped policy the delay is min(base * 2^attempt, MaxDelay) at every attempt if and only if no doubling reaches 2^62 below the cap |
| Retry.CappedBackoffIsExact | sdk/go/retry.go:110-128 | in particular for MaxDelay up to 2^62 and a base below it |
| Retry.BackoffIsMonotone | sdk/go/retry.go:112-128 | under such a cap the delay is positive, never decreases and never exceeds the cap |
| Retry.UncappedBackoff | sdk/go/retry.go:112-128 | without a cap the delay is the doubled base cut to 64 bits, exact if and only if it fits |
| Retry.RetryableStatus | sdk/go/retry.go:97-108 | membership in the policy's statuses, or in the five defaults when none are given |
| Retry.RetryMiddleware | sdk/go/retry.go:151-217 | for every server and one cancellation instant it ends at the first attempt that does not continue, returning that attempt's reply, a body error exactly when the body could not be had, with exactly the policy's waits |
| Retry.AttemptsBounded | sdk/go/retry.go:186-188 | at most max(0, MaxRetries) + 1 sends, and the end is unique |
| Retry.ResentOnlyWhenSafe | sdk/go/retry.go:44-52 | nothing follows a cancellation or deadline error; another network error is followed only for idempotent methods; a response only if listed, and outside the idempotent set only a 429 or 503 |
| Retry.RetriedExactly | sdk/go/retry.go:166-188 | while the context outlives the wait, an attempt is followed by another if and only if a retry is left, the body could be had, and it ended in a network error under an idempotent method or a listed status, under another method 429 or 503 |
| Retry.WaitExactly | sdk/go/retry.go:192-198 | a wait is the backoff, or a Retry-After that is longer if the policy respects it |
| Retry.OneClock | sdk/go/retry.go:207-213 | on the clock of trips and waits made, a request ends cancelled only if its context ended by the end of its last wait, and an earlier wait ends by then or by its own beginning |
| Retry.NothingSentAfterCancellation | sdk/go/retry.go:207-213 | with positive delays nothing is sent later than the cancellation, and at that very instant only the last attempt |
| Retry.ResendAfterCancellationExactly | sdk/go/retry.go:207-213 | with positive delays a wait of a context ending by its firing instant is followed by another attempt if and only if it ends at that instant and select takes the timer; that attempt is the last |
| Retry.ResendAtTheFiringInstant | sdk/go/retry.go:207-213 | the default policy and a cancellation at which one more request goes out |
| Retry.DoneContextExactly | sdk/go/retry.go:192-213 | a context already done when a wait starts stops the request, for every server, timing and pick, if and only if no backoff it can wait for is <= 0 |
| Retry.CancellationStopsExactly | sdk/go/retry.go:112-128 | that holds for every number of retries if and only if the policy is capped and no doubling reaches 2^62 below the cap |
| Retry.HonouredCancellationEnds | sdk/go/retry.go:167-173 | behind a transport that fails attempts whose context is done, under every policy the first attempt sent at or after the cancellation is the last |
| Retry.OverflowOutlivesCancellation | sdk/go/retry.go:112-128 | behind one that answers all the same, a policy and a cancellation after which all retries are still sent, however many |
| WebVersion.PickSettledWebVersion | src/engine/wa-web-version.ts:111-127 | the loop computes the specified pick |
| WebVersion.PickedIsNewestSettled | src/engine/wa-web-version.ts:102-127 | the pick is the first entry of maximal release time among non-beta, unexpired entries at least 12 h old; `currentVersion` exactly when there is none |
| WebVersion.UnqualifiedIsInvisible | src/engine/wa-web-version.ts:115-125 | inserting non-qualifying entries anywhere changes nothing |
| WebVersion.LoneBuildExactly | src/engine/wa-web-version.ts:115-125 | a build alone in the list is picked if and only if it starts with a digit, is no beta, was released at least 12 h ago and has not expired |
| WebVersion.OutcomeYields | src/engine/wa-web-version.ts:144-168 | a registry with a settled build yields the first newest one, one without its digit-leading current version or null, every other reply null |
| WebVersion.SettledFetchExactly | src/engine/wa-web-version.ts:142-172 | over every run a settled fetch has the value its own reply yields at the instant it came; a version is the cached one, and a null was recorded as a failure at that instant |
| WebVersion.FetchStartsExactly | src/engine/wa-web-version.ts:136-142 | after any run a call starts a fetch if and only if none has succeeded, none is running and none failed in the last 60 s |
| WebVersion.ResolverRuns | src/engine/wa-web-version.ts:22-35 | over every run with a suspending fetcher: fetches never overlap, none starts within 60 s of any earlier failure or after a success, all non-null answers of a process agree |
| WebVersion.CallersShare | src/engine/wa-web-version.ts:138-138 | while a fetch runs any number of callers get that fetch, and nothing else about the resolver changes |
| WebVersion.NothingIsRevised | src/engine/wa-web-version.ts:129-137 | a settled fetch, a cached version and the answers given never change |
| WebVersion.WaitersAndSuccessors | src/engine/wa-web-version.ts:136-172 | everyone waiting on a fetch, and everyone who calls before it settles, gets what it settled with, whatever follows; a success is every later answer |
| WebVersion.ThrowingFetcherExactly | src/engine/wa-web-version.ts:142-171 | a call keeps the resolver healthy if and only if its fetcher suspends or is not reached |
| WebVersion.StuckForever | src/engine/wa-web-version.ts:138-171 | otherwise no run ever starts another fetch and every later answer is null |
| WebVersion.ThrowingFetcherExample | src/engine/wa-web-version.ts:136-172 | the two-call run that shows it |
| WebVersion.Resolver.ResolveCurrentWebVersion | src/engine/wa-web-version.ts:136-172 | one call on the module's three variables is the specified step and answer |
| WebVersion.Resolver.OnReply | src/engine/wa-web-version.ts:147-169 | the settled value is what the reply yields; a version is cached, a null is recorded as a failure now and leaves the cache alone; the slot is freed |
| WebVersion.Resolver.Drive | src/engine/wa-web-version.ts:33-172 | every run of the module is a run of the specification |
| InfraForm.RefetchesAreInvisible | dashboard/src/hooks/useInfraConfigForm.ts:120-123 | from a frozen form, over any order of refetches and edits, the form is what the edits alone would give |
| InfraForm.FrozenExactly | dashboard/src/hooks/useInfraConfigForm.ts:125-134 | once both sources have resolved, no refetch changes a field if and only if the engine radio was seeded or clicked |
| InfraForm.LateSeedAfterLock | dashboard/src/hooks/useInfraConfigForm.ts:204-224 | the refetch that changes a locked form, for any first configuration without an engine |
| InfraForm.LockedFormStays | dashboard/src/hooks/useInfraConfigForm.ts:120-123 | for a gateway that always names the engine, once both sources have resolved no further order of refetches changes what the edits make of the form |
| InfraForm.KnownExactly | dashboard/src/hooks/useInfraConfigForm.ts:134-134 | the radio holds a real value exactly when the run has a click or a configuration naming an engine |
| InfraForm.RadioFollowsHistory | dashboard/src/hooks/useInfraConfigForm.ts:210-235 | over every run the radio shows the last click, else the first engine seeded, else the default, and the two refs say which |
| InfraForm.PayloadTypeExactly | dashboard/src/hooks/useInfraConfigForm.ts:256-273 | over every run a save sends the last clicked engine, else the first seeded one unless pinned at save time, else none |
| InfraForm.SecretsAreTyped | dashboard/src/hooks/useInfraConfigForm.ts:163-168 | over every run a secret field is exactly what the operator last typed, or its default |
| InfraForm.SecretsAreSaved | dashboard/src/hooks/useInfraConfigForm.ts:163-168 | over every run a save carries each secret as last typed, or its default |
| InfraForm.FirstSeedExactly | dashboard/src/hooks/useInfraConfigForm.ts:136-224 | the commit that brings both results, field by field: saved over running over default, toggles from the running status, secrets untouched |
| InfraForm.PayloadExactly | dashboard/src/hooks/useInfraConfigForm.ts:245-274 | a save carries both toggles and every field on screen except the live indicator and an engine nobody chose |
| InfraForm.EditsAreSaved | dashboard/src/hooks/useInfraConfigForm.ts:226-274 | after any refetches and edits of a frozen form a save carries what was last put into each field, and for one left alone what the form showed |
| InfraForm.SwitchesAreSaved | dashboard/src/hooks/useInfraConfigForm.ts:237-274 | and both switches as the operator last left them, switching Redis off having switched the queue off |
| InfraForm.ArrivalOrderExactly | dashboard/src/hooks/useInfraConfigForm.ts:136-202 | the two sources seed the same form in either order if and only if host, Redis address and local path do not disagree |
| InfraForm.InfraConfigForm.SeedFromStatus | dashboard/src/hooks/useInfraConfigForm.ts:139-161 | the live seed, and nothing once the form is locked |
| InfraForm.InfraConfigForm.SeedFromSaved | dashboard/src/hooks/useInfraConfigForm.ts:169-202 | the saved seed, empty strings leaving fields alone, and nothing once the form is locked |
| InfraForm.InfraConfigForm.SeedEngineType | dashboard/src/hooks/useInfraConfigForm.ts:219-224 | seeds once, never over a click |
| InfraForm.InfraConfigForm.OnCommit | dashboard/src/hooks/useInfraConfigForm.ts:139-224 | the four effects in order make the specified step |
| InfraForm.InfraConfigForm.UpdateEngineConfig | dashboard/src/hooks/useInfraConfigForm.ts:232-235 | only an edit of the type counts as a click |
| InfraForm.InfraConfigForm.ChangeRedisEnabled | dashboard/src/hooks/useInfraConfigForm.ts:237-241 | sets the switch; disabling Redis disables the queue, enabling leaves it |
| InfraForm.InfraConfigForm.BuildSavePayload | dashboard/src/hooks/useInfraConfigForm.ts:245-274 | both toggles and all fields as on screen, less the live indicator and, with pinned-ness read at this moment, an engine nobody chose |
| InfraForm.InfraConfigForm.Drive | dashboard/src/hooks/useInfraConfigForm.ts:73-274 | every run of the hook is a run of the specification |
| EnvLayers.Precedence | src/config/load-env.ts:10-13 | each key comes from the highest layer that has it |
| EnvLayers.PinnedExactly | src/config/env-precedence.ts:282-313 | a key is in the pinned snapshot if and only if no content of the saved file can change its final value |
| EnvLayers.UnpinnedIsSaved | src/config/load-env.ts:69-101 | an unpinned key ends with the saved file's value or absent |
| EnvLayers.OsProvidedExactly | src/config/env-precedence.ts:257-281 | a key is in the host snapshot if and only if no content of either file can change its final value; it is then pinned |
| EnvLayers.BlankPinsExactly | src/config/env-precedence.ts:308-310 | exactly when a blank process value pins, and that a blank line in .env always does |
| EnvLayers.CliAgreesExactly | src/database/load-cli-env.ts:6-20 | the CLI loader computes the application's map if and only if the saved file exists or every first-run default is shadowed |
| EnvLayers.BootsAgree | src/database/load-cli-env.ts:14-20 | after one application boot both loaders rebuild its environment |
| EnvLayers.Process.ClearBlankEnv | src/config/env-precedence.ts:248-255 | removes exactly the listed keys whose value trims to nothing |
| EnvLayers.Process.LoadEnvironment | src/config/load-env.ts:23-103 | final map, both snapshots and the created file, each from the state between the right two layers |
| EnvLayers.Process.LoadCliEnv | src/database/load-cli-env.ts:14-20 | the second implementation's final map |
| EnvLayers.BootAndAsk | src/config/env-precedence.ts:279-313 | after one boot the two snapshot questions answer exactly what the files can still change, and the final value follows |
| EnvLayers.SaveAndReboot | src/config/env-precedence.ts:257-301 | over a save and a restart a key reported pinned keeps its value whatever is written, any other takes the value written |

## Left out

- Real I/O: sockets, fetch, the file system, spawned processes, TypeORM and pg drivers, dotenv parsing and
  React's scheduler are outcomes chosen arbitrarily, under the assumptions below.
- Client-address resolution, header trimming, `parseBodyLimitBytes` and `resolveInflightBodyBudgetBytes`: a
  request arrives with its client key and numeric headers.
- JavaScript numbers are unbounded integers here, except in the share of the budget (a real) and the declared
  length (bounded as the code bounds it); Go's int64 wrap-around is modelled.
- NoLostWrite: assumes, as the source does, that a landed page is a new object, that a transform returns its
  argument exactly where it says so, and that the settle notification comes before any other writer.
- `updateCachedMessages`, `upsertCachedMessage` and the page helpers they call: a write is an arbitrary
  transform.
- Boot: the non-postgres path, the lock client's options, the transaction mode without transactions, and the
  rewrite of the saved file in the SQLite fallback. A crash ends both sessions at once and a transaction is all
  or nothing. The fallback is one operation: if its own `initialize` fails, its DataSource is not destroyed.
- RunSafe: assumes that the server does not drop a lock session under a running migration; ExclusionExactly and
  ExactlyOnceExactly say what happens otherwise.
- ReaderHeldStill: the container is mounted, heights are whole pixels, every media element was measured at
  insertion, and a decode and its load event are one step. A live message or growth below the reader during a
  page fetch moves the reader by exactly its slip (DisplacementIsSlip), as the source's comments accept. A scroll
  that reaches the bottom pins the thread and leaves the theory; the scroll event of the hook's own last write is
  taken to arrive before a genuine one.
- RestoreSurvivesExactly: a frame dispatches the scroll event that is due before it runs animation-frame callbacks,
  and runs all callbacks that are waiting, as browsers do.
- `onMessageAppended`: its decision function lives in another file; only its pin to the bottom is modelled.
- BestEffortIsHonest: assumes that all required files are readable and that git's refusal messages are emitted
  before it writes, as the script does.
- StatusPatch and ReadySyncPatch: that the texts do not interfere (no text overlaps itself or another edit's) is a
  hypothesis of the theorems; TwoGroupsAreClean gives an instance, and nothing here shows it of the shipped texts,
  which are not part of the model. JavaScript's `$` patterns in replacements are not modelled. The scripts' command
  lines are left out.
- ResentOnlyWhenSafe: the idempotent set is the code's; it lacks TRACE, which RFC 9110 counts as
  idempotent, so the code and the model treat TRACE as unsafe.
- RetryMiddleware: request cloning, body draining, logging and Retry-After parsing; a reply carries the parsed
  delay.
- ResendAfterCancellationExactly: the select is taken to be reached at the instant its timer is armed, and a timer
  to fire exactly on time; which of two ready cases it takes is arbitrary.
- ResolverRuns: assumes a positive clock that never goes back and a fetcher that suspends; the warnings, the
  abort timer, `buildRemotePin`, `resolveWebVersionPin` and `getEffectiveWebVersionInfo` are left out.
- RefetchesAreInvisible: edits made before both sources have resolved can still be overwritten by the later one;
  the source promises nothing about them.
- The curated list of blank-shadowed keys is a parameter; directory creation and permissions are left out.
- The engine registry, the other SDK services, the dashboard's rendering and the remaining NestJS modules: thin
  wrappers or user interface.
