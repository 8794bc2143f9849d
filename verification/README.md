# Reel pipeline: a Dafny model

The repository collects Reels from a browser feed, stores their sources, normalizes them with
competing workers, serves the result as a paged catalog and keeps an offline library in the
browser. These files model the parts of it whose correctness spans several functions or whole
runs, and prove what those parts promise.

- **Normalizer.** `NormalizerDb` has one function per transaction and the row invariant,
  `NormalizerEffects` writes out what each leaves in the rows, `NormalizerDbProofs` keeps the invariant,
  `NormalizerStore` is the same with rows assigned in place.
  `NormalizerSystem` interleaves any number of workers, reconcilers and collectors, with each
  transaction and each storage call as one step that may raise before or after taking effect;
  `NormalizerSafety`, `NormalizerRuns`, `NormalizerBounds`, `NormalizerFinals` and `NormalizerRace` prove what
  every run keeps, and `NormalizerOutcomes` what an attempt achieves. `NormalizerWorker` is `run_once` in its own
  control flow, shown to be a run of that system. `StagingKeys` is the text of object keys.
- **Collector.** `CollectorRuns` is the persistence with the books of every run, `CollectorPorts` the store and
  the feed, `CollectorEngine` the loop of `collect` with every port free to raise at every call. An engine that is
  `calm` meets no exception, cancellation or deadline; what it then achieves is stated beside what always holds.
- **Control plane.** `LoginSessions` with `LoginOutcomes`, `RateLimiter`, `Idempotency`, and the transition tables in `Transitions`.
- **Catalog.** `Base64Url` (section 5 of RFC 4648), `VideoCursor`, and `Catalog` for server and client together.
- **Offline library.** `OfflineReconcile` is the lifecycle run on its own, `OfflineThreads` any number of
  them call by call, `OfflineDownload` one download with those calls between its own, `OfflineHistory` whole
  histories; `OfflineLibrary` has the records, `LifecycleCoalescing` the coalescing of requests.
- **Small cores.** `FeedJson` and `ByteRanges` (section 14.1.2 of RFC 9110); `Texts` is shared.

`dafny verify dfyconfig.toml` checks the whole project.

## What the proofs found

- The reference check and the removal in `_compensate_final_if_unreferenced` are two steps. When two attempts
  in flight produce the same output, a READY reel can lose its object (`SharedOutputLosesFinal`). Over a whole run
  every video row and every commit about to be made keeps its object if and only if no such removal happens while a
  row names the object or another attempt is about to commit it (`FinalsSafeExactly`); with distinct outputs in
  flight it never does.
- `complete_run` assigns COMPLETED from any status. The engine only calls it on a running run.
- A deadline that has passed when the cooldown begins raises an exception that the outer handler reports as
  COLLECTOR_FAILED, not as a timeout (`Move`).
- An expiry found by a refused `create` or `activate` is rolled back with the refusal; `status` persists it.
- `downloadVideoForOffline` has no catch block before its `downloading` write, so an early throw can leave a
  completed record without media, or an orphan cache entry (`EarlyThrowExactly`, `ThrowCanLeaveCompletedRecord`).
- A reconciliation that overlaps a download can list its record as downloading, or not find it completed, and later
  delete the media the download has stored; the download then returns a completed record without media
  (`ReturnedIsCached`, `ReconcileCanLoseDownload`). The next run marks it failed.
- `updateOfflineVideo` gets and puts in two transactions, so a view recorded in between is overwritten
  (`SplitUpdateLosesView`). The results on views assume that no view falls there.
- A view after the final read does not stop the completing write: the record is completed and tombstoned, and the
  next run past the deadline deletes it.
- When reading a valid cached video raises during reconciliation, its media is deleted as an orphan while its
  record stays completed (`UnreadMediaIsLostExactly`).
- `mark_used` on a code the memory already holds does not renew it, and after the memory has forgotten a code the
  queue can hold it twice.
- The server's range parser also takes plus signs, underscores and spaces, and numbers beyond the safe integers, that
  the service worker's refuses; the worker takes numbers of more than 4300 digits (`PartExactly`, `ServerFollowsWorker`).

## Assumptions

- Clocks never go backwards, worker ids are distinct, and all instances share one clock. A lease may run out while
  its worker is alive.
- SHA-256 and the secret hashes are injective; UUIDs are fresh. HMAC and the JSON text of a cursor are functions
  whose reader undoes its writer for the instants of `datetime` and the UUIDs; `SoundIsMet` exhibits such functions.
  The texts of job ids and digests are injective and free of slashes; `DistinctIsMet` exhibits such texts.
- `commit_source` either commits or rolls back. The Collector's `publish` creates nothing when it raises and
  leaves an existing object alone, as the fixture storage does; in the normalizer's system publishing different
  content under an existing key is refused, as the MinIO adapter does.
- One Collector run at a time uses a given source key.
- One `updateOfflineVideo` call is atomic. One download of a video runs at a time, as the download queue has it.

## Model

| member | source | states |
|---|---|---|
| NormalizerDbProofs.ClaimKeepsInv | apps/api/app/instagram/normalizer/worker.py:194-238 | Claiming keeps the row invariant, moves job and reel only along the transition tables, and never takes the exhausted branch. |
| NormalizerDbProofs.RecoverKeepsInv | apps/api/app/instagram/normalizer/worker.py:258-281 | Recovering a stale running job keeps the row invariant and is legal. |
| NormalizerDbProofs.FinishFailureKeepsInv | apps/api/app/instagram/normalizer/worker.py:461-490 | A failure written by the job's owner leaves the reel SOURCE_READY with that reason and one new pending job with the same attempts exactly if it is retryable with attempts left, and otherwise FAILED, as RETRY_EXHAUSTED exactly if it was retryable; the row invariant is kept and the changes are legal, whoever calls it. |
| NormalizerDbProofs.CommitReadyKeepsInv | apps/api/app/instagram/normalizer/worker.py:384-420 | Committing READY keeps the row invariant and is legal, or leaves every row alone. |
| NormalizerDbProofs.CommitSourceKeepsInv | apps/api/app/instagram/collector/persistence.py:233-277 | A source commit keeps the row invariant and walks a legal path of statuses to SOURCE_READY with one fresh pending job. |
| NormalizerDbProofs.RecordFailureKeepsInv | apps/api/app/instagram/collector/persistence.py:296-313 | Recording a collection failure keeps the row invariant and is legal. |
| NormalizerDbProofs.StatusIsActiveJob | apps/api/app/instagram/normalizer/worker.py:199-235 | A reel is SOURCE_READY exactly when its only active job is pending, NORMALIZING exactly when it is running, and otherwise has no active job. |
| NormalizerDbProofs.ExhaustedBranchUnreachable | apps/api/app/instagram/normalizer/worker.py:212-220 | The exhausted branch of `claim` is never entered: every pending job has at most two attempts. |
| NormalizerStore.Store.SelectClaimable | apps/api/app/instagram/normalizer/worker.py:197-208 | The claim query finds the oldest claimable job that is not locked, or there is none. |
| NormalizerStore.Store.Claim | apps/api/app/instagram/normalizer/worker.py:194-238 | The in-place claim: exactly the oldest unlocked waiting job is running under this worker with one attempt more and the lease asked for, and its reel NORMALIZING; nothing changes when there is none. |
| NormalizerStore.RecoverFirstExact | apps/api/app/instagram/normalizer/worker.py:258-281 | Recovering any selection of running jobs one after another closes exactly those jobs, requeues or fails each of their reels by the attempts used, and touches no other job or reel. |
| NormalizerStore.Store.RecoverAll | apps/api/app/instagram/normalizer/worker.py:258-282 | The recovery loop over its selection, and the staging prefix of each recovered attempt. |
| NormalizerStore.Store.Reconcile | apps/api/app/instagram/normalizer/worker.py:240-286 | The reconcile transaction recovers exactly the unlocked running jobs whose lease ended before now. |
| NormalizerStore.Store.CommitReady | apps/api/app/instagram/normalizer/worker.py:384-420 | The in-place commit: job completed, reel READY with its video and its source marked for cleanup, video row there; every refusal leaves all rows. |
| NormalizerStore.Store.FinishFailure | apps/api/app/instagram/normalizer/worker.py:461-490 | The in-place failure transaction with the same two outcomes written out; nothing happens for a worker that no longer owns the job. |
| NormalizerStore.Store.CommitSource | apps/api/app/instagram/collector/persistence.py:225-277 | The in-place source commit on reel and job rows, or nothing. |
| NormalizerEffects.ClaimEffect | apps/api/app/instagram/normalizer/worker.py:194-238 | A claim hands out the job with its reel's source, one attempt more, worker and lease set, and changes no other row. |
| NormalizerEffects.RecoverEffect | apps/api/app/instagram/normalizer/worker.py:258-281 | Recovery closes the stale job and requeues its reel with one new job below three attempts, and fails it as RETRY_EXHAUSTED at three. |
| NormalizerEffects.FinishFailureEffect | apps/api/app/instagram/normalizer/worker.py:461-490 | The failure transaction's outcomes, row by row, and no change for any other worker. |
| NormalizerEffects.CommitReadyEffect | apps/api/app/instagram/normalizer/worker.py:384-420 | The commit's four outcomes, each exactly when, and the three rows of a success. |
| NormalizerEffects.CommitSourceEffect | apps/api/app/instagram/collector/persistence.py:233-277 | A source is committed for exactly the reels that are not durable, a failed one included, and leaves that source and one fresh job. |
| NormalizerEffects.ClearEffect | apps/api/app/instagram/normalizer/worker.py:422-459 | Both ways of clearing the cleanup flag of a READY reel leave it false and touch nothing else. |
| NormalizerEffects.RecordFailureEffect | apps/api/app/instagram/collector/persistence.py:296-313 | Only an early or new reel takes the failure; any other row is as it was. |
| NormalizerSafety.StepKeepsInv | apps/api/app/instagram/normalizer/worker.py:174-516 | Every action of every actor, in any state, keeps the system invariant; rows only move forward and, source commits aside, each status moves legally. |
| NormalizerRuns.ReachableStatuses | apps/api/app/instagram/normalizer/worker.py:194-282 | In every reachable interleaving a reel's status names its one active job, and attempts stay within three, pending ones within two. |
| NormalizerRuns.RunIsLegal | apps/api/app/instagram/transitions.py:63-95 | Every raw status assignment of every run is a step, or for a source commit a path, of the transition tables. |
| NormalizerRuns.RecoveryFences | apps/api/app/instagram/normalizer/worker.py:258-277 | Recovering a job fences the worker that held it. |
| NormalizerRuns.FencedForever | apps/api/app/instagram/normalizer/worker.py:386-389 | Until it claims anew, a fenced worker changes no job, reel or video row, whatever happens in between. |
| NormalizerRuns.CommittedAtMostOnce | apps/api/app/instagram/normalizer/worker.py:404-420 | A reel becomes READY at most once over a whole run, and not again once it is. |
| NormalizerOutcomes.ReasonCodes | apps/api/app/instagram/normalizer/worker.py:569-592 | The reason code of every kind of error, and which four kinds are retried. |
| NormalizerOutcomes.FailureOutcome | apps/api/app/instagram/normalizer/worker.py:461-490 | A worker that still owns its job and writes its failure leaves the reel claimable with the attempts used if the error is transient and one is left, and failed otherwise. |
| NormalizerOutcomes.AttemptFails | apps/api/app/instagram/normalizer/worker.py:174-192 | Over the step system: a claimed attempt that meets an error ends idle, with its reel waiting for the next attempt or failed accordingly. |
| NormalizerOutcomes.ThreeTransientFailures | apps/api/app/instagram/normalizer/worker.py:269-281 | Three transient failures in a row use up a reel, two do not. |
| NormalizerOutcomes.LeaseProtects | apps/api/app/instagram/normalizer/worker.py:244-256 | Until its lease runs out nobody takes a running job from its worker, whatever all the others do. |
| NormalizerOutcomes.SourceChecked | apps/api/app/instagram/normalizer/worker.py:328-340 | What the download finds decides where the worker goes: missing, wrong size, wrong hash, or on to the media tools. |
| NormalizerOutcomes.NormalizesVerifiedOnly | apps/api/app/instagram/normalizer/worker.py:328-340 | The media tools never see a source that was not read with its recorded size and hash. |
| NormalizerOutcomes.CommitsVerifiedOnly | apps/api/app/instagram/normalizer/worker.py:342-382 | No commit is attempted before the published object has been read as the worker's own output. |
| NormalizerOutcomes.RemovesUnreferencedOnly | apps/api/app/instagram/normalizer/worker.py:495-504 | A compensation removes an object only after it found no video row naming it. |
| NormalizerOutcomes.CompensatesOwnCopyOnly | apps/api/app/instagram/normalizer/worker.py:310-359 | Only an attempt that copied the object itself compensates. |
| NormalizerOutcomes.CleanupsExactly | apps/api/app/instagram/normalizer/worker.py:434-511 | A cleanup removes exactly the object it is about. |
| NormalizerOutcomes.UndisturbedAttempt | apps/api/app/instagram/normalizer/worker.py:174-326 | A waiting job that an idle worker claims and is left alone with ends completed, its reel READY with the stored video, source and staged copy gone, unless object or row of that video contradict the output or another reel has it. |
| NormalizerOutcomes.PipelineDelivers | apps/api/app/instagram/normalizer/worker.py:174-326 | So a source published and committed for a reel that is not durable is delivered by one undisturbed attempt. |
| NormalizerBounds.StepSpends | apps/api/app/instagram/normalizer/worker.py:212-223 | No action but a source commit raises a reel's attempt budget, and each claim spends from it. |
| NormalizerBounds.ClaimsWithinBudget | apps/api/app/instagram/normalizer/worker.py:212-223 | Over any run without a new source commit a reel is claimed at most as often as its budget says. |
| NormalizerBounds.ThreeClaimsPerSourceCommit | apps/api/app/instagram/normalizer/worker.py:269-281 | A source commit leads to at most three claims. |
| NormalizerBounds.StatusChangeLowersRank | apps/api/app/instagram/normalizer/worker.py:475-490 | Every change of an active reel's status lowers a rank between one and six. |
| NormalizerBounds.ChangesWithinRank | apps/api/app/instagram/normalizer/worker.py:194-282 | Over any run without a source commit of the reel its status changes at most as often as its rank says; a reel out of work stays out of work. |
| NormalizerBounds.SixChangesPerSourceCommit | apps/api/app/instagram/normalizer/worker.py:194-282 | After a source commit a reel's status changes at most six times, READY or FAILED included, until its source is committed again. |
| NormalizerFinals.SourceRemovedOnlyWhenDone | apps/api/app/instagram/normalizer/worker.py:422-459 | A source object disappears only when its reel is READY, or when the collector withdraws what it never committed. |
| NormalizerFinals.ReachableSources | apps/api/app/instagram/normalizer/worker.py:410-415 | In every reachable state an unfinished reel has its recorded source stored, and a READY reel whose source is still there has `source_cleanup_pending` set. |
| NormalizerFinals.StagingRemovedOnlyByItsAttempt | apps/api/app/instagram/normalizer/worker.py:506-511 | A staged object is removed only for the attempt that wrote it: by its worker or by the reconciler that recovered that attempt. |
| NormalizerFinals.FinalsSafeExactly | apps/api/app/instagram/normalizer/worker.py:310-359 | Over every run from an initial state, with nothing assumed of outputs: every video row and every commit about to be made has its object in every state if and only if no compensation removes an object while a video row names it or another attempt is about to commit it. |
| NormalizerFinals.FinalsStored | apps/api/app/instagram/normalizer/worker.py:342-420 | So if no attempt produces an output that another attempt in flight still holds, every video row of every reachable state names a stored object with the recorded hash and size, and every READY reel has such a row, whatever raises or crashes. |
| NormalizerRace.SharedOutputLosesFinal | apps/api/app/instagram/normalizer/worker.py:495-504 | Such a removal can happen: a run of two workers with the same output and leases of half an hour ends with a READY reel whose object is gone. |
| NormalizerWorker.World.DownloadAndVerifySource | apps/api/app/instagram/normalizer/worker.py:328-340 | The download and its checks leave the worker exactly where the step system says. |
| NormalizerWorker.World.PublishFinal | apps/api/app/instagram/normalizer/worker.py:342-359 | So does publication: copy unless present, verify either way, compensate only an own copy. |
| NormalizerWorker.World.CompensateFinal | apps/api/app/instagram/normalizer/worker.py:495-504 | Compensation never raises and ends with the original error. |
| NormalizerWorker.World.CommitOrCompensate | apps/api/app/instagram/normalizer/worker.py:310-322 | The commit and its handler. |
| NormalizerWorker.World.CleanupSourceAfterCommit | apps/api/app/instagram/normalizer/worker.py:422-432 | A failed source removal is swallowed; a failed flag update is raised. |
| NormalizerWorker.World.Emit | apps/api/app/instagram/normalizer/worker.py:529-544 | The progress callback may raise at each of its events; what it raises leads to the failure write and, after publication, to no compensation. |
| NormalizerWorker.World.ClaimNext | apps/api/app/instagram/normalizer/worker.py:194-238 | The claim leaves the worker with its claim or idle; undisturbed it finds a waiting job whenever there is one. |
| NormalizerWorker.World.Process | apps/api/app/instagram/normalizer/worker.py:288-326 | The whole attempt, with a cancellation check and an event at each of the places the worker has one. |
| NormalizerWorker.World.RunOnce | apps/api/app/instagram/normalizer/worker.py:174-192 | One round of the worker's control flow, among arbitrary other actors, is a run of the step system and ends idle, also when it raises. When nobody else acts and nothing raises it works exactly if a job waits, and delivers its reel if the video is acceptable. |
| StagingKeys.TextInjective | apps/api/app/instagram/normalizer/worker.py:304-307 | Different object keys have different texts: sources, staged and final objects never collide. |
| StagingKeys.ListingIsExact | apps/api/app/instagram/normalizer/worker.py:506-511 | Listing an attempt's prefix with its slash finds exactly that attempt's staged object. |
| CollectorRuns.AddItemKeepsBooks | apps/api/app/instagram/collector/persistence.py:416-445 | Adding an item under the table's constraints keeps every run's books balanced: positions 1..n, one counter per outcome, no reel twice, within the target. |
| CollectorRuns.NewRunKeepsBooks | apps/api/app/instagram/collector/persistence.py:46-59 | A new run starts with balanced, empty books. |
| CollectorRuns.Persistence.AddItem | apps/api/app/instagram/collector/persistence.py:416-445 | Adds the item at the next position and counts it, exactly when no constraint objects. |
| CollectorRuns.Persistence.CreateRun | apps/api/app/instagram/collector/persistence.py:46-59 | A running run with empty books, exactly unless the account has a queued or running one. |
| CollectorRuns.Persistence.AccountHasDurableReel | apps/api/app/instagram/collector/persistence.py:149-175 | Yes exactly if an item of a run of this very account acquired the reel and the reel is still durable with its source. |
| CollectorRuns.Persistence.CommitAvailable | apps/api/app/instagram/collector/persistence.py:214-223 | Links a reel that is still durable and finds room, exactly then; or changes nothing. |
| CollectorRuns.Persistence.CommitSource | apps/api/app/instagram/collector/persistence.py:225-284 | Reel, job and item together, exactly when the reel is not durable, the source not empty and there is room; or nothing. Other runs, items and sources are as before. |
| CollectorRuns.Persistence.RecordFailure | apps/api/app/instagram/collector/persistence.py:286-321 | The failed item and the reel row together, exactly when there is room; or nothing. |
| CollectorRuns.Persistence.CompleteIfAccountDurableTotal | apps/api/app/instagram/collector/persistence.py:353-364 | Completes a run exactly if it is running and its account owns exactly the desired number of reels. |
| CollectorRuns.OwnedExactly | apps/api/app/instagram/collector/persistence.py:149-175 | The set the total counts holds exactly the reels the account owns. |
| CollectorRuns.TotalAfterItem | apps/api/app/instagram/collector/persistence.py:366-414 | One more item raises an account's total by one exactly if a run of that account acquires by it a durable reel new to the account; otherwise it stays. |
| CollectorRuns.OwnsExactlyTotal | apps/api/app/instagram/collector/persistence.py:366-414 | So the total is the number of distinct reels owned. |
| CollectorRuns.Persistence.CompleteRun | apps/api/app/instagram/collector/persistence.py:346-351 | Completes a run whatever its status: a step of the transition table exactly when the run was RUNNING or COMPLETED already. |
| CollectorRuns.WroteBytes | apps/api/app/instagram/collector/persistence.py:225-284 | A call changes the bytes of the run's committed sources by exactly the source it committed. |
| CollectorPorts.SourceStorage.Publish | apps/api/app/instagram/collector/fixtures.py:226-235 | Creates the object or leaves an existing one alone, and nothing when it raises. |
| CollectorEngine.AttemptKeepsAccounted | apps/api/app/instagram/collector/service.py:171-264 | A closed attempt leaves every object the run created referenced, withdrawn, or with its delete on record as failed. |
| CollectorEngine.Engine.AcquireSource | apps/api/app/instagram/collector/service.py:171-264 | Publish, commit, compensate: for every failure at every stage that ledger holds, the temporary path is cleaned and bytes stay within the limit. The reel proceeds exactly when nothing went wrong; otherwise the stop reason names the deadline, the byte limit, the exception's own code or the stage, and a failed compensation. |
| CollectorEngine.Engine.Abandon | apps/api/app/instagram/collector/service.py:213-263 | The handlers: the stop reason for every fault at every stage, and the failure recorded with it on an early or new reel. |
| CollectorEngine.Engine.HandleReel | apps/api/app/instagram/collector/service.py:143-264 | One observed reel ends settled in the database, or the run stops with at most one failed item. Undisturbed, the account's own reel is skipped in continuation, a durable one linked, and any other acquired unless the byte limit stops the run. |
| CollectorPorts.Feed.Advance | apps/api/app/instagram/collector/service.py:538-540 | May be called only past a reel that the database has confirmed. |
| CollectorEngine.Engine.ConfirmTransition | apps/api/app/instagram/collector/service.py:481-575 | At most two advances, never past the remaining scroll actions, only past a settled reel; undisturbed, the first answer of the feed or else the second decides. |
| CollectorEngine.Engine.Conclude | apps/api/app/instagram/collector/service.py:265-289 | Success is declared only at the target, in continuation only at the exact account total, which is the only reason to refuse it undisturbed, and always by a legal transition of the run. |
| CollectorEngine.Engine.Move | apps/api/app/instagram/collector/service.py:299-348 | Deadline, advance, transition and scroll limits between a settled reel and the next candidate; undisturbed, nothing but a limit that is reached or the feed's answer stops there. |
| CollectorEngine.Engine.RunLoop | apps/api/app/instagram/collector/service.py:127-351 | The loop terminates; observations are settled reels plus at most one, within every limit; undisturbed it ends only at the target or for a limit, the total or the feed. |
| CollectorEngine.Engine.CollectRun | apps/api/app/instagram/collector/service.py:127-412 | The outer try: however the run ends, the outcomes below hold of rows, objects and summary. |
| CollectorEngine.Engine.Collect | apps/api/app/instagram/collector/service.py:86-412 | For all arguments and all port behaviours: rejected exactly for bad arguments; otherwise bounded observations, advances and bytes, accounted sources, cleaned temporaries, balanced books, a legal status for the run, and completion exactly at the target without failures. When nothing raises and nobody cancels, the run is completed or its reason holds: a limit is exactly reached, the account total differs, or the feed repeated itself, was invalid or had no more. |
| CollectorEngine.Engine.AmpleLimitsComplete | apps/api/app/instagram/collector/service.py:127-351 | So a run whose limits leave room for the target, with a feed that keeps answering with new canonical candidates, completes with exactly the target. |
| LoginSessions.EveryStepIsGood | apps/api/app/instagram/login_sessions.py:66-235 | From any good rows no operation breaks: `require_transition` never raises, no assertion fails, closed sessions stay closed, and the invariant is kept. |
| LoginSessions.ConnectingExactly | apps/api/app/instagram/login_sessions.py:104-112 | An account is CONNECTING exactly when it has an open session whose prior status was not CONNECTED. |
| LoginSessions.NoRunBreaks | apps/api/app/instagram/login_sessions.py:66-235 | Over every run: at most one open session per account, CONNECTING exactly when held, nothing breaks. |
| LoginSessions.RestKept | apps/api/app/instagram/login_sessions.py:213-235 | Only a completed login changes the status an account rests at. |
| LoginSessions.SessionPutsBack | apps/api/app/instagram/login_sessions.py:168-235 | A session that ends cancelled or expired leaves the account where it rested before `create`, in every run. |
| LoginSessions.SingleUse | apps/api/app/instagram/login_sessions.py:125-142 | A launch token activates its session at most once. |
| LoginSessions.LoginSessionService.CreateSession | apps/api/app/instagram/login_sessions.py:66-123 | The in-place create with its expiry loop; a refusal rolls all of it back. |
| LoginSessions.LoginSessionService.ActivateSession | apps/api/app/instagram/login_sessions.py:125-142 | The in-place activation; expiry found by a refused activation is rolled back. |
| LoginSessions.LoginSessionService.SessionStatusOf | apps/api/app/instagram/login_sessions.py:144-154 | The status query, which persists an expiry it finds. |
| LoginSessions.LoginSessionService.CancelSession | apps/api/app/instagram/login_sessions.py:168-186 | The in-place cancellation. |
| LoginSessions.LoginSessionService.CompleteSession | apps/api/app/instagram/login_sessions.py:188-211 | The in-place completion, equal to the specified one. |
| LoginOutcomes.CreateEffect | apps/api/app/instagram/login_sessions.py:66-123 | A session is created exactly with a time to live of 1 to 900 seconds, no unexpired open session of the account, and an account resting at DISCONNECTED or REAUTH_REQUIRED, or CONNECTED for a profile check: then one new PENDING session ends at now plus that time. |
| LoginOutcomes.RestExists | apps/api/app/instagram/login_sessions.py:104-112 | Every account rests at some status, so CreateEffect speaks of all of them. |
| LoginOutcomes.ActivateEffect | apps/api/app/instagram/login_sessions.py:125-142 | A session is activated exactly if it is PENDING, unexpired and the token is its own; nothing else changes. |
| LoginOutcomes.StatusEffect | apps/api/app/instagram/login_sessions.py:144-166 | A lapsed session expires and its account is put back; any other is answered as it is. |
| LoginOutcomes.CancelEffect | apps/api/app/instagram/login_sessions.py:168-186 | A live session is cancelled and its account put back; a lapsed one expires instead; a closed one stays. |
| LoginOutcomes.CompleteEffect | apps/api/app/instagram/login_sessions.py:188-211 | An ACTIVE session with time left completes and its account is CONNECTED without a reason; a lapsed one expires; any other answers its status. |
| LoginOutcomes.CompletionConnects | apps/api/app/instagram/login_sessions.py:188-211 | In every run a login completed in time leaves its account CONNECTED, and resting there. |
| LoginOutcomes.LoginConnects | apps/api/app/instagram/login_sessions.py:66-211 | From any reachable rows in which the account may start, create, activate and complete in time connect it. |
| RateLimiter.CleanupChangesNoDecision | apps/api/app/api/management.py:251-298 | Sweeping expired rows anywhere in a trace changes no admit or deny decision. |
| RateLimiter.AdmittedExactly | apps/api/app/api/management.py:251-298 | A request is refused exactly when the last window its own scope opened is less than a minute old and has admitted as many as its limit; other scopes and cleanups play no part. |
| RateLimiter.AtMostTwiceLessOne | apps/api/app/api/management.py:251-298 | In any half-open minute at most 2L - 1 requests of a scope are admitted, cleanups included. |
| RateLimiter.BoundIsReached | apps/api/app/api/management.py:251-298 | For every limit a trace reaches that bound. |
| RateLimiter.Limiter.Enforce | apps/api/app/api/management.py:272-291 | The in-place decision, equal to the specified one. |
| RateLimiter.Limiter.CleanupExpired | apps/api/app/api/management.py:196-200 | The in-place sweep of window rows. |
| Idempotency.OnlySuccessWrites | apps/api/app/api/management.py:317-358 | Without a first success nothing but expired rows changes; with one, exactly the action's effect and its record are added. |
| Idempotency.SweepExactly | apps/api/app/api/management.py:186-200 | What the sweep keeps. |
| Idempotency.FirstCallTakesEffect | apps/api/app/api/management.py:245-248 | A call takes effect exactly when its key has 8 to 128 ASCII characters, its session is not over, no live record has its scope and its action returns; then business state, reply and stored record are what they should be. |
| Idempotency.RefusedExactly | apps/api/app/api/management.py:317-372 | What every other call is told, and why. |
| Idempotency.TakesEffectExactly | apps/api/app/api/management.py:300-372 | In every trace that starts without a live record of its scope, a call takes effect exactly when key, session and action allow it and no call of its scope took effect in the 24 hours before: the first one runs, and so does one after the record's lifetime. |
| Idempotency.RepeatsChangeNothing | apps/api/app/api/management.py:334-338 | A repeat within 24 hours gets the stored reply, or a conflict for another body, and changes nothing beyond the sweep. |
| Idempotency.SucceedsOnce | apps/api/app/api/management.py:300-358 | No key succeeds twice within its lifetime. |
| Idempotency.TokenNeverReplayed | apps/api/app/api/management.py:340-342 | A replayed reply never holds the launch token. |
| Idempotency.ExactlyOnce | apps/api/app/api/management.py:300-372 | The database after a trace equals, up to expired rows, that of the trace without the repeats of successful calls. |
| Idempotency.ControlPlane.CleanupExpired | apps/api/app/api/management.py:186-200 | The in-place sweep keeps exactly the sessions that are not over and the live records of those. |
| Idempotency.ControlPlane.Idempotent | apps/api/app/api/management.py:300-372 | The in-place transaction, including the branch after a constraint violation. |
| Base64Url.DecodeUndoesEncode | apps/api/app/services/video_cursor.py:27-38 | Decoding undoes encoding for every non-empty byte string; the empty one is refused. |
| Base64Url.AcceptedExactly | apps/api/app/services/video_cursor.py:31-38 | The decoder accepts exactly non-empty alphabet text whose length does not leave one symbol over. |
| Base64Url.AlphabetTable | apps/api/app/services/video_cursor.py:27-28 | The alphabet is Table 2 of RFC 4648. |
| Base64Url.EncodesGroups | apps/api/app/services/video_cursor.py:27-28 | Every three bytes are encoded on their own. |
| Base64Url.FirstGroup | apps/api/app/services/video_cursor.py:27-28 | Each group's symbols are its bytes as one number, the most significant first, filled up with zero bits: section 4 of RFC 4648. |
| VideoCursor.DecodeUndoesEncode | apps/api/app/services/video_cursor.py:47-96 | Every position a `datetime` and a UUID can hold is read back from its cursor, within the length limit. |
| VideoCursor.EncodeInjective | apps/api/app/services/video_cursor.py:47-61 | Different positions have different cursors. |
| VideoCursor.AcceptedIsSigned | apps/api/app/services/video_cursor.py:64-81 | Accepted is exactly the text of at most 512 characters that carries the signature of its own readable payload. |
| Catalog.PageCorrect | apps/api/app/services/videos.py:83-91 | A page runs from the newest row to the oldest by creation time and then id, holds at most the limit, leaves out no row newer than one it holds, and announces a next page exactly when it leaves one out. |
| Catalog.Answered | apps/api/app/api/videos.py:34-49 | A response to a cursor the server itself gave is the page after that position, with a cursor for its last row exactly when there is more. |
| Catalog.Sorted | apps/api/app/repositories/videos.py:27-36 | The query order: descending, every row once. |
| Catalog.GatherRows | apps/web/lib/api/videos.ts:86-93 | One full page more keeps what the client holds: everything persistent is here or still to come. |
| Catalog.GatherCursors | apps/web/lib/api/videos.ts:80-93 | The cursor of a full page is never one requested before. |
| Catalog.GetEntireVideoCatalog | apps/web/lib/api/videos.ts:72-97 | Over a table others change between requests: terminates, never trips the repeated-cursor check, returns rows once, by creation time and then id descending, and none of the persistent ones is missed; on an unchanged table exactly the sorted catalog. |
| Catalog.FixedCatalog | apps/web/lib/api/videos.ts:72-97 | A descending list of catalog rows that misses no persistent one is, when nobody changes the table, the sorted catalog. |
| OfflineLibrary.SplitUpdateLosesView | apps/web/lib/offline/repository.ts:55-70 | `updateOfflineVideo` gets and puts in two transactions: with a view in between, the view survives exactly when the put is refused. |
| OfflineLibrary.ViewSetsDeadline | apps/web/lib/offline/repository.ts:77-101 | The first view sets the view, a deadline one hour later and a pending deletion, and nothing else; a later one changes nothing. |
| OfflineThreads.TaskKeeps | apps/web/lib/offline/view-lifecycle.ts:100-124 | Every view and every call of every overlapping lifecycle run and reconciliation, raising or not, keeps records acceptable, takes no view back and leaves no media beside a completed record of a deleted reel. |
| OfflineThreads.CachedExactly | apps/web/lib/offline/reconciliation.ts:66-116 | Under any such calls a video's media is there afterwards exactly when it was before and no delete took effect. |
| OfflineThreads.CompletedExactly | apps/web/lib/offline/reconciliation.ts:66-96 | A record is completed afterwards exactly when it was before and no settling or failure mark took effect. |
| OfflineThreads.ViewedExactly | apps/web/lib/offline/repository.ts:77-101 | A record is tombstoned afterwards exactly when it was before or a view was among the calls. |
| OfflineThreads.TasksCommute | apps/web/lib/offline/view-lifecycle.ts:100-124 | Calls on different videos commute, so a schedule may be read one video at a time. |
| OfflineThreads.RunAlone | apps/web/lib/offline/view-lifecycle.ts:100-124 | The calls of one undisturbed run do to each video what the loops compute. |
| OfflineThreads.ReconcileAlone | apps/web/lib/offline/reconciliation.ts:57-124 | So do those of one undisturbed reconciliation. |
| OfflineThreads.UnreadMediaIsLostExactly | apps/web/lib/offline/reconciliation.ts:80-116 | A valid copy whose read raises is deleted as an orphan beside its completed record: it survives a reconciliation exactly when it could be read. |
| OfflineThreads.StartsExpiryExactly | apps/web/lib/offline/view-lifecycle.ts:100-106 | A run begins to expire a cached valid video exactly when it was viewed, its deadline has come and it is not playing. |
| OfflineThreads.ActsKeepEarly | apps/web/lib/offline/view-lifecycle.ts:100-124 | Until its deadline a completed valid video keeps record and media through any views, lifecycle runs and reconciliations whose calls return, however they overlap. |
| OfflineThreads.RefusedDeleteIsNoted | apps/web/lib/offline/view-lifecycle.ts:107-122 | An expiry whose delete raises leaves the record marked as failed to delete, otherwise as it was, and due for the next run. |
| OfflineThreads.RefusedSettleIsNoted | apps/web/lib/offline/view-lifecycle.ts:107-122 | So does one whose completing write raises. |
| OfflineDownload.StartsExactly | apps/web/lib/offline/downloader.ts:185-224 | When a download gets as far as its `downloading` record, other tasks acting before each call. |
| OfflineDownload.FirstWriteQueues | apps/web/lib/offline/downloader.ts:205-207 | A video without a record gets a queued one before anything else is written. |
| OfflineDownload.ReturnsAtOnceExactly | apps/web/lib/offline/downloader.ts:189-203 | A download returns without a transfer exactly when the completed reel is there with valid media, unviewed. |
| OfflineDownload.FinishesExactly | apps/web/lib/offline/downloader.ts:226-287 | A started download returns exactly when the whole video was stored as video/mp4 with its declared size, counted and cached, nothing removed it before its validation, no later call raises and no view came by the final read. |
| OfflineDownload.ReturnedIsCached | apps/web/lib/offline/downloader.ts:195-287 | The returned record is completed, and exactly its bytes are cached under its own key if and only if no expiry or reconciliation deleted them between their validation and the completing write; it is tombstoned if and only if a view came after the final read. |
| OfflineDownload.ReconcileCanLoseDownload | apps/web/lib/offline/downloader.ts:256-287 | That can happen: a reconciliation that listed the record as downloading deletes the stored media as an orphan, and the download returns a completed record without media. |
| OfflineDownload.ThrowWithdraws | apps/web/lib/offline/downloader.ts:226-303 | Once started, a throw leaves no completed record and no cached bytes, unless the cache refused the delete, whatever other tasks did. |
| OfflineDownload.ThrowMarksFailed | apps/web/lib/offline/downloader.ts:288-303 | And the record is marked as failed with nothing downloaded, unless the reel was viewed or one of the last two calls raises. |
| OfflineDownload.EarlyThrowExactly | apps/web/lib/offline/downloader.ts:185-224 | Before that there is no catch block: exactly when such a throw leaves neither cached bytes nor a completed record, by the downloader's own calls and those of other tasks. |
| OfflineDownload.ThrowCanLeaveCompletedRecord | apps/web/lib/offline/downloader.ts:195-224 | An input on which it does not: a completed record is left without its media. |
| OfflineDownload.TombstoneRefuses | apps/web/lib/offline/downloader.ts:189-193 | A tombstoned record is refused without any change. |
| OfflineDownload.ViewWins | apps/web/lib/offline/downloader.ts:185-296 | A view between the first and the final read makes the download throw and withdraw. |
| OfflineDownload.DownloadKeeps | apps/web/lib/offline/downloader.ts:179-304 | Whatever fails and whatever other tasks do before each call, records stay acceptable, no view is taken back and a deleted reel has no media beside a completed record. |
| OfflineDownload.OthersUntouched | apps/web/lib/offline/downloader.ts:179-304 | No other video's record, media or pending calls are touched. |
| OfflineDownload.Store.DownloadVideoForOffline | apps/web/lib/offline/downloader.ts:179-304 | The in-place sequence of writes, with the other tasks between them. |
| OfflineReconcile.ReconciledAgrees | apps/web/lib/offline/reconciliation.ts:57-124 | Reconciliation makes cached ids and completed records the same set, each valid, none downloading. |
| OfflineReconcile.RunAgrees | apps/web/lib/offline/view-lifecycle.ts:100-124 | After an undisturbed offline run without faults library and cache agree and everything viewed, due and not playing is deleted and uncached. |
| OfflineReconcile.RunLosesNothingElse | apps/web/lib/offline/view-lifecycle.ts:100-124 | A valid completed video keeps record and media exactly unless it was viewed, its deadline has come and it is not playing; then it loses both. |
| OfflineReconcile.RunExactly | apps/web/lib/offline/view-lifecycle.ts:100-124 | What a run makes of every record and every cached medium, field by field. |
| OfflineReconcile.RunIsIdempotent | apps/web/lib/offline/view-lifecycle.ts:100-124 | A second run at the same time changes nothing. |
| OfflineReconcile.Lifecycle.ReconcileOfflineLibrary | apps/web/lib/offline/reconciliation.ts:57-124 | The two loops compute that result; with failing storage calls records are only marked failed and media only removed, and every valid completed video whose media could be read keeps both, exactly those where nothing else fails. |
| OfflineReconcile.Lifecycle.Run | apps/web/lib/offline/view-lifecycle.ts:100-124 | The expiry loop and the reconciliation after it, equal to the specified run; with failing storage calls nothing but overdue reels is deleted, and valid ones that are not overdue keep their record. |
| OfflineHistory.HistoryKeeps | apps/web/lib/offline/downloader.ts:179-304 | In every history from an empty library, of downloads with other tasks between their calls and of calls that stop anywhere, every record is acceptable and no deleted reel has media beside a completed record. |
| OfflineHistory.ViewsAreKept | apps/web/lib/offline/repository.ts:77-101 | A view is never taken back and its deadline never moves. |
| OfflineHistory.NeverBack | apps/web/lib/offline/downloader.ts:189-193 | A viewed reel that has lost its media never gets media or a completed record back, whatever is downloaded, expired or reconciled later, and wherever it stops. |
| OfflineHistory.RunRepairsAnyHistory | apps/web/lib/offline/view-lifecycle.ts:100-124 | After any history one undisturbed fault-free run restores agreement and is a fixed point, and a valid completed reel keeps record and media exactly unless it was overdue and not playing. |
| OfflineHistory.KeptUntilDeadline | apps/web/lib/offline/view-lifecycle.ts:100-124 | Over any history a completed valid reel keeps its media and, but for the marks of a view, its record until its deadline, through anything but failing calls on itself. |
| OfflineHistory.ViewedReelDisappears | apps/web/lib/offline/view-lifecycle.ts:100-124 | A viewed reel is gone for good after an undisturbed fault-free run past its deadline. |
| LifecycleCoalescing.NoRequestLost | apps/web/lib/offline/view-lifecycle.ts:91-98 | Whenever the lifecycle is idle, a run has started at or after every call. |
| LifecycleCoalescing.BurstCostsOneRun | apps/web/lib/offline/view-lifecycle.ts:91-98 | Any number of calls during one run cost one more run. |
| LifecycleCoalescing.NoIdleRuns | apps/web/lib/offline/view-lifecycle.ts:91-98 | No run starts on its own: there are never more runs than calls. |
| LifecycleCoalescing.ViewedReelLifecycle.RunSettled | apps/web/lib/offline/view-lifecycle.ts:93-96 | The settling of a run in place. |
| FeedJson.AuthenticatedFeedSource.Collect | apps/api/app/instagram/collector/runtime/feed_json.py:210-240 | The stack loop offers the codes of the recursive pre-order walk cut at 20,000 nodes, in its order. |
| FeedJson.PopAndPush | apps/api/app/instagram/collector/runtime/feed_json.py:215-240 | Popping a node and pushing its children reversed moves exactly that node from the walk's future to its past. |
| FeedJson.AfterBounded | apps/api/app/instagram/collector/runtime/feed_json.py:135-156 | In every history the queue holds at most 32 and the memory at most 64 codes, its set equal to its deque. |
| FeedJson.GetExactly | apps/api/app/instagram/collector/runtime/feed_json.py:226-227 | The value looked up is that of its own key, and none exactly when the key is absent. |
| FeedJson.OffersExactly | apps/api/app/instagram/collector/runtime/feed_json.py:226-232 | A node offers exactly the texts at its three keys that are 1 to 64 letters, digits, underscores or hyphens. |
| FeedJson.PendingInOrder | apps/api/app/instagram/collector/runtime/feed_json.py:95-156 | Whatever is taken, used, dropped or reset, what is pending is in the order of its arrival, no arrival twice. |
| FeedJson.OldestMakeRoom | apps/api/app/instagram/collector/runtime/feed_json.py:234-237 | As long as candidates only arrive, exactly the newest 32 are pending. |
| FeedJson.LaterIsNew | apps/api/app/instagram/collector/runtime/feed_json.py:66-103 | A candidate pending with an observation after a checkpoint was brought by a GraphQL response that arrived after it, and was not pending at it. |
| FeedJson.UsedStaysOut | apps/api/app/instagram/collector/runtime/feed_json.py:158-166 | After `mark_used` no pending candidate has that code for as long as the memory holds it. |
| FeedJson.MemoryLasts | apps/api/app/instagram/collector/runtime/feed_json.py:242-250 | How long that is: the i-th oldest code outlasts i new ones beyond the free room. |
| FeedJson.AuthenticatedFeedSource.Next | apps/api/app/instagram/collector/runtime/feed_json.py:95-128 | Each of the three calls takes the first entry that is not the previous code and, where asked, was observed strictly later or embedded, and leaves the rest; or there is none. |
| FeedJson.AuthenticatedFeedSource.ObserveEmbeddedCandidates | apps/api/app/instagram/collector/runtime/feed_json.py:135-156 | The first 32 embedded values are offered in order. |
| FeedJson.AuthenticatedFeedSource.MarkUsed | apps/api/app/instagram/collector/runtime/feed_json.py:158-166 | Remembers the code and drops its pending entries. |
| FeedJson.AuthenticatedFeedSource.Remember | apps/api/app/instagram/collector/runtime/feed_json.py:242-250 | The bounded memory in place. |
| FeedJson.AuthenticatedFeedSource.ObserveGraphql | apps/api/app/instagram/collector/runtime/feed_json.py:203-206 | A response counts as one observation later than any before, and its codes are offered under it. |
| FeedJson.AuthenticatedFeedSource.ResetForFeedNavigation | apps/api/app/instagram/collector/runtime/feed_json.py:76-85 | Drops the queue and the count of observations and keeps the memory. |
| ByteRanges.WorkerMeaning | apps/web/lib/pwa/offline-media-route.ts:28-59 | On grammatical headers with safe integers the worker's parser is the standard's meaning. |
| ByteRanges.WorkerAcceptsGrammarOnly | apps/web/lib/pwa/offline-media-route.ts:28-59 | It accepts no other header. |
| ByteRanges.ServerMeaning | apps/api/app/media/ranges.py:18-45 | On grammatical headers with readable numbers the server's parser is the standard's meaning. |
| ByteRanges.ServerFollowsWorker | apps/api/app/media/ranges.py:18-45 | What the worker accepts the server accepts with the same bounds, exactly when neither number has more than 4300 digits. |
| ByteRanges.ParsersAgree | apps/api/app/media/ranges.py:18-45 | On clean headers the two are the same function. |
| ByteRanges.ServerReadsErased | apps/api/app/media/ranges.py:18-45 | Whatever the server takes it reads as the standard reads the header without its spaces, plus signs and underscores. |
| ByteRanges.PartExactly | apps/web/lib/pwa/offline-media-route.ts:28-59 | The headers the server takes and the worker refuses are exactly those that hold a space, a plus sign or an underscore, or whose last number is no safe integer, and all of them beyond safe media sizes; otherwise the answers are the same. |
| ByteRanges.ServerTakesSigns | apps/api/app/media/ranges.py:30-40 | Such a header: one with a sign. |
| ByteRanges.PrintedRangeIsRead | apps/web/lib/pwa/offline-media-route.ts:28-59 | Both recover every printed range and clamp one past the end. |
| ByteRanges.AnswerIsSelected | apps/web/lib/pwa/offline-media-route.ts:112-151 | A grammatical range of safe numbers is answered with exactly the bytes the standard selects, under their own length and bounds, or 416; HEAD has the same head. |
| ByteRanges.PiecesJoin | apps/web/lib/pwa/offline-media-route.ts:132-147 | The answers to consecutive ranges join to the whole media, in no more requests than their sizes need. |

## Left out

- Other Collector runs writing rows between the engine's calls: normalizer workers and the cancel button do.
- Clearing or deleting offline records (`deleteOfflineVideo`, `clearOfflineVideos`), which can also drop tombstones.
- Interruptions while the Collector closes a run or summarizes it, and the recorder and transition diagnostics, which never affect the loop.
- Partial effects of a storage call: each call takes effect wholly or not at all. Only the cached entry after a failed cache put is arbitrary.
- `seed_file_with_result` as one more writer of videos and final objects; seeded rows are part of the initial state.
- Ties of `created_at` between jobs: jobs are ordered by creation.
- Media tools, the browser feed, probes and gestures: calls that return anything or raise.
- The retry of a rate-limit insert that lost a race: the losing transaction rolled back, so its retry is the next request.
- Pairing challenges in the expiry sweep, and response bodies too long for their column, which roll back like a failing action.
- The length and content rules of the JSON and ISO timestamp text inside a cursor.
- A `getPage` that answers with cursors of its own making: the client is modelled against this server.
- Dates, error codes and messages of an offline record beyond whether they are set, and the order of listings.
- The outbox sync of a lifecycle run, which is modelled offline; scheduling of later runs by timers.
- Unicode beyond Latin-1 in range headers, where Python also strips and reads other characters.
- Schema diagnostics of feed responses, and the classification of responses by URL.
- Routing, cookies, CSRF, origin checks, the login gateway, React components, the download queue and the reserve controller.
- Catalog.GetEntireVideoCatalog: rows that share an id across requests are assumed equal, because rows are inserted and never edited.
- Idempotency.ExactlyOnce: two calls of one scope are at most 24 hours apart and their session is unexpired, the lifetime the record has; the replies after an unrelated constraint violation are not compared.
- OfflineDownload.ThrowWithdraws: only after the `downloading` write; earlier throws have the exact condition of EarlyThrowExactly.
- OfflineHistory.KeptUntilDeadline: calls that raise are excluded, because a failed read loses valid media (UnreadMediaIsLostExactly).
- OfflineHistory.ViewsAreKept: with each update atomic; SplitUpdateLosesView says what happens otherwise.
- NormalizerSystem keeps no record of why a worker cleans its staging prefix, so there it may write its failure a second time, which the code does not.
- NormalizerFinals.FinalsStored: assumes that a produced output is none that another attempt in flight still holds; NormalizerRace shows the assumption is needed.
