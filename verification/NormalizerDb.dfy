/**
 The rows the normalizer works on and its database transactions. Every
 `sessions.begin()` block of the worker is one function from rows to rows: it
 commits as a whole or, when it raises, leaves the rows as they were.
 */
module NormalizerDb {
  import opened Options
  import opened Transitions

  const MAX_ATTEMPTS: nat := 3

  type Shortcode = string
  type WorkerId = int
  type JobId = nat
  type Bytes = seq<bv8>

  /** SHA-256, idealised as injective: a digest names exactly one byte string. */
  datatype Digest = Sha256(content: Bytes)

  /** Object keys by namespace; StagingKeys shows that their text forms do not overlap. */
  datatype ObjectKey =
    | SourceKey(shortcode: Shortcode)
    | StagingKey(job: JobId, attempt: nat)
    | FinalKey(sha: Digest)

  datatype Reason =
    | SourceMissing | SourceHashMismatch | SourceSizeMismatch
    | FfprobeFailed | FullDecodeFailed | IncompatibleOutput | NormalizationFailed
    | FinalObjectConflict | PostgresCommitFailure | WorkerCancelled | MinioTransientFailure
    | StaleLeaseRecovered | RetryExhausted | CollectorReason(code: StopReason)

  /** The Collector's reasons; any other runtime code is carried as text. */
  datatype StopReason =
    | TotalTimeoutReached | ObservationLimitReached | AdvanceLimitReached | RunByteLimitExceeded
    | DuplicateReel | InvalidReelCandidate | AuthenticatedFeedExhausted | TransitionFailed
    | DownloadFailed | ValidationFailed | StorageFailed | DatabaseWriteFailed | CompensationFailed
    | FinalDurableTotalMismatch | CancelledByUser | BrowserClosed | CollectorFailed
    | RuntimeCode(text: string)

  datatype Job = Job(
    reel: Shortcode,
    status: JobStatus,
    attempts: nat,
    reason: Option<Reason>,
    worker: Option<WorkerId>,
    lease: Option<int>,
    stagingAttempt: Option<nat>)

  datatype Source = Source(key: ObjectKey, sha: Digest, size: nat)

  datatype Reel = Reel(
    status: ReelStatus,
    source: Option<Source>,
    video: Option<ObjectKey>,
    cleanupPending: bool,
    reason: Option<Reason>)

  /** A catalog row; its object key is unique and identifies it. */
  datatype Video = Video(sha: Option<Digest>, size: nat)

  /** Jobs are appended and never deleted, so a job's id is its index and ids follow creation order. */
  datatype Db = Db(jobs: seq<Job>, reels: map<Shortcode, Reel>, videos: map<ObjectKey, Video>)

  /** What `claim` hands to the worker. */
  datatype Claim = Claim(job: JobId, reel: Shortcode, source: Source, attempt: nat)

  datatype CommitResult = Committed(db: Db) | NotOwner | Conflict | IntegrityError

  /******* Transactions *******/

  function NewJob(reel: Shortcode, attempts: nat): Job {
    Job(reel, Pending, attempts, None, None, None, None)
  }

  predicate Claimable(db: Db, j: JobId) {
    && j < |db.jobs|
    && db.jobs[j].status.Pending?
    && db.jobs[j].reel in db.reels
    && db.reels[db.jobs[j].reel].status.SourceReady?
  }

  /** `claim` on the row it selected; a missing required field raises and rolls back. */
  function ClaimTx(db: Db, j: JobId, w: WorkerId, leaseUntil: int): (Db, Option<Claim>)
    requires Claimable(db, j)
  {
    var job := db.jobs[j];
    var reel := db.reels[job.reel];
    if job.attempts + 1 > MAX_ATTEMPTS then
      (db.(jobs := db.jobs[j := job.(status := JobFailed, reason := Some(RetryExhausted))],
           reels := db.reels[job.reel := reel.(status := ReelFailed, reason := Some(RetryExhausted))]),
       None)
    else if reel.source.None? then
      (db, None)
    else
      (db.(jobs := db.jobs[j := job.(status := Running, attempts := job.attempts + 1, worker := Some(w),
                                     lease := Some(leaseUntil), stagingAttempt := Some(job.attempts + 1))],
           reels := db.reels[job.reel := reel.(status := Normalizing)]),
       Some(Claim(j, job.reel, reel.source.value, job.attempts + 1)))
  }

  predicate Stale(job: Job, now: int) {
    job.status.Running? && job.lease.Some? && job.lease.value < now
  }

  /** A failed or recovered job's row. */
  function ClosedJob(job: Job, status: JobStatus, reason: Option<Reason>): Job {
    job.(status := status, reason := reason, lease := None, worker := None)
  }

  /** The body of the reconcile loop for one stale job. */
  function RecoverTx(db: Db, j: JobId): Db
    requires j < |db.jobs|
  {
    var job := db.jobs[j];
    if job.reel !in db.reels then
      db
    else
      var reel := db.reels[job.reel];
      var closed := db.jobs[j := ClosedJob(job, JobFailed, Some(StaleLeaseRecovered))];
      if job.attempts < MAX_ATTEMPTS then
        db.(jobs := closed + [NewJob(job.reel, job.attempts)],
            reels := db.reels[job.reel := reel.(status := SourceReady)])
      else
        db.(jobs := closed,
            reels := db.reels[job.reel := reel.(status := ReelFailed, reason := Some(RetryExhausted))])
  }

  predicate OwnedRunning(db: Db, j: JobId, w: WorkerId) {
    j < |db.jobs| && db.jobs[j].status.Running? && db.jobs[j].worker == Some(w)
  }

  /** `_commit_ready`: insert or reuse the video row, then close reel and job together. */
  function CommitReadyTx(db: Db, c: Claim, w: WorkerId, output: Bytes): CommitResult {
    if !OwnedRunning(db, c.job, w) || c.reel !in db.reels then
      NotOwner
    else
      var key := FinalKey(Sha256(output));
      var video := if key in db.videos then db.videos[key] else Video(Some(Sha256(output)), |output|);
      if (video.sha.Some? && video.sha.value != Sha256(output)) || video.size != |output| then
        Conflict
      else if exists r :: r in db.reels && r != c.reel && db.reels[r].video == Some(key) then
        IntegrityError  // `video_id` is unique among reels
      else
        Committed(db.(
          jobs := db.jobs[c.job := ClosedJob(db.jobs[c.job], Completed, None)],
          reels := db.reels[c.reel := db.reels[c.reel].(status := Ready, video := Some(key),
                                                         reason := None, cleanupPending := true)],
          videos := db.videos[key := video]))
  }

  /** `_finish_failure`: close an owned running job and either requeue or fail its reel. */
  function FinishFailureTx(db: Db, c: Claim, w: WorkerId, reason: Reason, retryable: bool): Db {
    if !OwnedRunning(db, c.job, w) || c.reel !in db.reels then
      db
    else
      var job := db.jobs[c.job];
      var reel := db.reels[c.reel];
      var closed := db.jobs[c.job := ClosedJob(job, JobFailed, Some(reason))];
      if retryable && job.attempts < MAX_ATTEMPTS then
        db.(jobs := closed + [NewJob(c.reel, job.attempts)],
            reels := db.reels[c.reel := reel.(status := SourceReady, reason := Some(reason))])
      else
        db.(jobs := closed,
            reels := db.reels[c.reel := reel.(status := ReelFailed,
                                               reason := Some(if retryable then RetryExhausted else reason))])
  }

  /** The transaction after the worker's own source removal. */
  function ClearCleanupTx(db: Db, r: Shortcode): Db {
    if r in db.reels && db.reels[r].status.Ready? then
      db.(reels := db.reels[r := db.reels[r].(cleanupPending := false)])
    else
      db
  }

  /** The reconciler's version, which looks at the flag and not at the status. */
  function ReconcileClearTx(db: Db, r: Shortcode): Db {
    if r in db.reels && db.reels[r].cleanupPending then
      db.(reels := db.reels[r := db.reels[r].(cleanupPending := false)])
    else
      db
  }

  const NewReel := Reel(Discovered, None, None, false, None)

  /** The statuses `commit_source` walks through, beginning with the row's own. */
  function SourceCommitPath(db: Db, r: Shortcode): Option<seq<ReelStatus>> {
    var start := if r in db.reels then db.reels[r].status else Discovered;
    if start.ReelFailed? || start.Discovered? then Some([start, Downloading, SourceReady])
    else if start.Downloading? then Some([start, SourceReady])
    else None
  }

  /** `commit_source` on reel and job; None is its ValueError, which rolls back. */
  function CommitSourceTx(db: Db, r: Shortcode, content: Bytes): Option<Db> {
    if SourceCommitPath(db, r).None? then
      None
    else
      var reel := if r in db.reels then db.reels[r] else NewReel;
      Some(db.(
        jobs := db.jobs + [NewJob(r, 0)],
        reels := db.reels[r := reel.(status := SourceReady,
                                      source := Some(Source(SourceKey(r), Sha256(content), |content|)),
                                      reason := None)]))
  }

  /** `record_failure` on the reel row. */
  function RecordFailureTx(db: Db, r: Shortcode, reason: Reason): Db {
    var reel := if r in db.reels then db.reels[r] else NewReel;
    if reel.status.Discovered? || reel.status.Downloading? then
      db.(reels := db.reels[r := reel.(status := ReelFailed, reason := Some(reason))])
    else
      db.(reels := db.reels[r := reel])
  }

  /******* The invariant *******/

  predicate Active(job: Job) {
    job.status.Pending? || job.status.Running?
  }

  ghost predicate HasJob(db: Db, r: Shortcode, status: JobStatus) {
    exists j :: 0 <= j < |db.jobs| && db.jobs[j].reel == r && db.jobs[j].status == status
  }

  ghost predicate JobOk(db: Db, j: JobId)
    requires j < |db.jobs|
  {
    var job := db.jobs[j];
    && job.reel in db.reels
    && job.attempts <= MAX_ATTEMPTS
    && (job.status.Pending? ==>
          && job.attempts < MAX_ATTEMPTS && db.reels[job.reel].status.SourceReady?
          && job.worker.None? && job.lease.None?)
    && (job.status.Running? ==>
          && job.attempts > 0 && db.reels[job.reel].status.Normalizing?
          && job.worker.Some? && job.lease.Some? && job.stagingAttempt == Some(job.attempts))
    && (!Active(job) ==> job.worker.None? && job.lease.None?)
  }

  ghost predicate ReelOk(db: Db, r: Shortcode)
    requires r in db.reels
  {
    var reel := db.reels[r];
    && (reel.status.SourceReady? ==> HasJob(db, r, Pending))
    && (reel.status.Normalizing? ==> HasJob(db, r, Running))
    && (Durable(reel.status) ==> reel.source.Some?)
    && (reel.source.Some? ==> reel.source.value.key == SourceKey(r))
    && (reel.video.Some? <==> reel.status.Ready?)
    && (reel.video.Some? ==> reel.video.value in db.videos)
    && (reel.cleanupPending ==> reel.status.Ready?)
  }

  ghost predicate Apart(db: Db, i: JobId, j: JobId)
    requires i < |db.jobs| && j < |db.jobs|
  {
    Active(db.jobs[i]) && Active(db.jobs[j]) ==> db.jobs[i].reel != db.jobs[j].reel
  }

  /** No two active jobs share a reel. */
  ghost predicate UniqueActive(db: Db) {
    forall i, j :: 0 <= i < |db.jobs| && 0 <= j < |db.jobs| && i != j ==> Apart(db, i, j)
  }

  ghost predicate DbInv(db: Db) {
    && (forall j :: 0 <= j < |db.jobs| ==> JobOk(db, j))
    && (forall r :: r in db.reels ==> ReelOk(db, r))
    && UniqueActive(db)
  }
}
