/**
 Many workers, reconcilers and a collector over one database and one object
 store. Each transaction and each storage call is one action; the actions of
 different actors interleave freely, and any call may raise, with or without
 having taken effect.
 */
module NormalizerSystem {
  import opened Options
  import opened Transitions
  import opened NormalizerDb

  /******* Exceptions and their classification *******/

  datatype Error =
    | ObjectNotFound | HashMismatch | SizeMismatch | ProbeError | DecodeError
    | CompatibilityError | NormalizationError | FinalConflict | SqlError | Cancelled | OtherError

  function Classify(error: Error): (Reason, bool) {
    match error
    case ObjectNotFound => (SourceMissing, true)
    case HashMismatch => (SourceHashMismatch, false)
    case SizeMismatch => (SourceSizeMismatch, false)
    case ProbeError => (FfprobeFailed, false)
    case DecodeError => (FullDecodeFailed, false)
    case CompatibilityError => (IncompatibleOutput, false)
    case NormalizationError => (NormalizationFailed, false)
    case FinalConflict => (FinalObjectConflict, false)
    case SqlError => (PostgresCommitFailure, true)
    case Cancelled => (WorkerCancelled, true)
    case OtherError => (MinioTransientFailure, true)
  }

  /******* State *******/

  /** Where a worker stands in `run_once`; each phase names the call it makes next. */
  datatype Phase =
    | Idle
    | StatSource(c: Claim)
    | DownloadSource(c: Claim)
    | NormalizeMedia(c: Claim)
    | UploadStaging(c: Claim, out: Bytes)
    | StatFinal(c: Claim, out: Bytes)
    | CopyFinal(c: Claim, out: Bytes)
    | VerifyFinal(c: Claim, out: Bytes, created: bool)
    | CommitReady(c: Claim, out: Bytes, created: bool)
    | CheckReference(c: Claim, out: Bytes, error: Error)
    | RemoveFinal(c: Claim, out: Bytes, error: Error)
    | RemoveSource(c: Claim)
    | ClearCleanup(c: Claim)
    | FinishFailure(c: Claim, error: Error)
    | CleanStaging(c: Claim)

  /** A source the collector has published and not yet committed or withdrawn. */
  datatype Publication = Publication(content: Bytes, created: bool)

  datatype State = State(
    now: int,
    db: Db,
    objects: map<ObjectKey, Bytes>,
    workers: map<WorkerId, Phase>,
    swept: set<Shortcode>,                       // sources a reconciler has removed
    publishing: map<Shortcode, Publication>)

  function PhaseOf(s: State, w: WorkerId): Phase {
    if w in s.workers then s.workers[w] else Idle
  }

  function Become(s: State, w: WorkerId, phase: Phase): State {
    s.(workers := s.workers[w := phase])
  }

  function Without(objects: map<ObjectKey, Bytes>, key: ObjectKey): map<ObjectKey, Bytes> {
    map k | k in objects && k != key :: objects[k]
  }

  /** The output a worker has produced and may still publish, commit or compensate. */
  function Output(phase: Phase): Option<Bytes> {
    match phase
    case UploadStaging(_, out) => Some(out)
    case StatFinal(_, out) => Some(out)
    case CopyFinal(_, out) => Some(out)
    case VerifyFinal(_, out, _) => Some(out)
    case CommitReady(_, out, _) => Some(out)
    case CheckReference(_, out, _) => Some(out)
    case RemoveFinal(_, out, _) => Some(out)
    case _ => None
  }

  /******* Actions *******/

  datatype Action =
    | Tick(seconds: nat)
    | Publish(r: Shortcode, content: Bytes)
    | CommitSource(r: Shortcode)
    | Withdraw(r: Shortcode, deleted: bool)
    | RecordFailure(r: Shortcode, reason: Reason)
    | ClaimJob(w: WorkerId, j: JobId, leaseSeconds: nat)
    | Proceed(w: WorkerId)                              // the pending call returns
    | Produce(w: WorkerId, out: Bytes)                  // the media normalizer returns
    | Raise(w: WorkerId, error: Error, effect: bool)    // the pending call raises
    | StopBetween(w: WorkerId, error: Error)            // a check or the progress callback raises between calls
    | Crash(w: WorkerId)
    | Recover(j: JobId)
    | CleanStale(j: JobId)
    | SweepSource(r: Shortcode, ok: bool, effect: bool)
    | SweepClear(r: Shortcode)

  function Actor(a: Action): Option<WorkerId> {
    match a
    case ClaimJob(w, _, _) => Some(w)
    case Proceed(w) => Some(w)
    case Produce(w, _) => Some(w)
    case Raise(w, _, _) => Some(w)
    case StopBetween(w, _) => Some(w)
    case Crash(w) => Some(w)
    case _ => None
  }

  predicate Enabled(s: State, a: Action) {
    match a
    case Tick(_) => true
    case Publish(r, content) =>
      && r !in s.publishing
      && (r in s.db.reels ==> !Durable(s.db.reels[r].status))
      && (SourceKey(r) in s.objects ==> s.objects[SourceKey(r)] == content)
    case CommitSource(r) => r in s.publishing
    case Withdraw(r, _) => r in s.publishing
    case RecordFailure(r, _) => true
    case ClaimJob(w, j, _) => PhaseOf(s, w).Idle? && Claimable(s.db, j)
    case Proceed(w) => !PhaseOf(s, w).Idle? && !PhaseOf(s, w).NormalizeMedia?
    case Produce(w, _) => PhaseOf(s, w).NormalizeMedia?
    case Raise(w, _, _) => !PhaseOf(s, w).Idle?
    case StopBetween(w, _) => PhaseOf(s, w).CommitReady? || PhaseOf(s, w).RemoveSource? || PhaseOf(s, w).CleanStaging?
    case Crash(w) => true
    case Recover(j) => j < |s.db.jobs| && Stale(s.db.jobs[j], s.now)
    case CleanStale(j) => j < |s.db.jobs| && s.db.jobs[j].reason == Some(StaleLeaseRecovered)
    case SweepSource(r, _, _) => r in s.db.reels && s.db.reels[r].status.Ready?
    case SweepClear(r) => r in s.swept
  }

  function Apply(s: State, a: Action): State
    requires Enabled(s, a)
  {
    match a
    case Tick(seconds) => s.(now := s.now + seconds)
    case Publish(r, content) =>
      s.(objects := s.objects[SourceKey(r) := content],
         publishing := s.publishing[r := Publication(content, SourceKey(r) !in s.objects)])
    case CommitSource(r) => CommitPublished(s, r)
    case Withdraw(r, deleted) =>
      s.(objects := if s.publishing[r].created && deleted then Without(s.objects, SourceKey(r)) else s.objects,
         publishing := s.publishing - {r})
    case RecordFailure(r, reason) => s.(db := RecordFailureTx(s.db, r, reason))
    case ClaimJob(w, j, leaseSeconds) => ApplyClaim(s, w, j, leaseSeconds)
    case Proceed(w) => Return(s, w, PhaseOf(s, w))
    case Produce(w, out) => Become(s, w, UploadStaging(PhaseOf(s, w).c, out))
    case Raise(w, error, effect) => RaiseAt(s, w, PhaseOf(s, w), error, effect)
    case StopBetween(w, error) => Become(s, w, FinishFailure(PhaseOf(s, w).c, error))
    case Crash(w) => Become(s, w, Idle)
    case Recover(j) => s.(db := RecoverTx(s.db, j))
    case CleanStale(j) =>
      s.(objects := Without(s.objects, StagingKey(j, s.db.jobs[j].attempts)))
    case SweepSource(r, ok, effect) =>
      s.(objects := if ok || effect then Without(s.objects, SourceKey(r)) else s.objects,
         swept := if ok then s.swept + {r} else s.swept)
    case SweepClear(r) => s.(db := ReconcileClearTx(s.db, r))
  }

  /** `commit_source`; a ValueError leaves the rows alone and the publication to be withdrawn. */
  function CommitPublished(s: State, r: Shortcode): State
    requires r in s.publishing
  {
    match CommitSourceTx(s.db, r, s.publishing[r].content)
    case None => s
    case Some(db) => s.(db := db, publishing := s.publishing - {r})
  }

  function ApplyClaim(s: State, w: WorkerId, j: JobId, leaseSeconds: nat): State
    requires Claimable(s.db, j)
  {
    match ClaimTx(s.db, j, w, s.now + leaseSeconds)
    case (db, None) => s.(db := db)
    case (db, Some(c)) => Become(s.(db := db), w, StatSource(c))
  }

  /** The pending call of a worker returns with what the store or the database answers. */
  function Return(s: State, w: WorkerId, phase: Phase): State
    requires !phase.Idle? && !phase.NormalizeMedia?
  {
    match phase
    case StatSource(c) => Become(s, w, AfterStatSource(s.objects, c))
    case DownloadSource(c) => Become(s, w, AfterDownload(s.objects, c))
    case UploadStaging(c, out) =>
      Become(s.(objects := s.objects[StagingKey(c.job, c.attempt) := out]), w, StatFinal(c, out))
    case StatFinal(c, out) => Become(s, w, AfterStatFinal(s.objects, c, out))
    case CopyFinal(c, out) =>
      var staged := StagingKey(c.job, c.attempt);
      if staged !in s.objects then Become(s, w, FinishFailure(c, ObjectNotFound))
      else Become(s.(objects := s.objects[FinalKey(Sha256(out)) := s.objects[staged]]), w, VerifyFinal(c, out, true))
    case VerifyFinal(c, out, created) => Become(s, w, AfterVerify(s.objects, c, out, created))
    case CommitReady(c, out, created) => CommitReturns(s, w, c, out, created)
    case CheckReference(c, out, error) =>
      Become(s, w, if FinalKey(Sha256(out)) in s.db.videos then FinishFailure(c, error) else RemoveFinal(c, out, error))
    case RemoveFinal(c, out, error) =>
      Become(s.(objects := Without(s.objects, FinalKey(Sha256(out)))), w, FinishFailure(c, error))
    case RemoveSource(c) =>
      Become(s.(objects := Without(s.objects, c.source.key)), w, ClearCleanup(c))
    case ClearCleanup(c) => Become(s.(db := ClearCleanupTx(s.db, c.reel)), w, CleanStaging(c))
    case FinishFailure(c, error) =>
      var (reason, retryable) := Classify(error);
      Become(s.(db := FinishFailureTx(s.db, c, w, reason, retryable)), w, CleanStaging(c))
    case CleanStaging(c) =>
      Become(s.(objects := Without(s.objects, StagingKey(c.job, c.attempt))), w, Idle)
  }

  function AfterStatSource(objects: map<ObjectKey, Bytes>, c: Claim): Phase {
    if c.source.key !in objects then FinishFailure(c, ObjectNotFound)
    else if |objects[c.source.key]| != c.source.size then FinishFailure(c, SizeMismatch)
    else DownloadSource(c)
  }

  function AfterDownload(objects: map<ObjectKey, Bytes>, c: Claim): Phase {
    if c.source.key !in objects then FinishFailure(c, ObjectNotFound)
    else if |objects[c.source.key]| != c.source.size then FinishFailure(c, SizeMismatch)
    else if Sha256(objects[c.source.key]) != c.source.sha then FinishFailure(c, HashMismatch)
    else NormalizeMedia(c)
  }

  function AfterStatFinal(objects: map<ObjectKey, Bytes>, c: Claim, out: Bytes): Phase {
    var key := FinalKey(Sha256(out));
    if key !in objects then CopyFinal(c, out)
    else if |objects[key]| != |out| then FinishFailure(c, FinalConflict)
    else VerifyFinal(c, out, false)
  }

  /** After an exception past publication: compensate only what this attempt created. */
  function Compensate(c: Claim, out: Bytes, created: bool, error: Error): Phase {
    if created then CheckReference(c, out, error) else FinishFailure(c, error)
  }

  function AfterVerify(objects: map<ObjectKey, Bytes>, c: Claim, out: Bytes, created: bool): Phase {
    var key := FinalKey(Sha256(out));
    if key !in objects then Compensate(c, out, created, ObjectNotFound)
    else if Sha256(objects[key]) != Sha256(out) || |objects[key]| != |out| then
      Compensate(c, out, created, FinalConflict)
    else CommitReady(c, out, created)
  }

  function CommitReturns(s: State, w: WorkerId, c: Claim, out: Bytes, created: bool): State {
    match CommitReadyTx(s.db, c, w, out)
    case Committed(db) => Become(s.(db := db), w, RemoveSource(c))
    case NotOwner => Become(s, w, Compensate(c, out, created, Cancelled))
    case Conflict => Become(s, w, Compensate(c, out, created, FinalConflict))
    case IntegrityError => Become(s, w, Compensate(c, out, created, SqlError))
  }

  /** The pending call raises; `effect` says whether it took effect all the same. */
  function RaiseAt(s: State, w: WorkerId, phase: Phase, error: Error, effect: bool): State
    requires !phase.Idle?
  {
    match phase
    case StatSource(c) => Become(s, w, FinishFailure(c, error))
    case DownloadSource(c) => Become(s, w, FinishFailure(c, error))
    case NormalizeMedia(c) => Become(s, w, FinishFailure(c, error))
    case UploadStaging(c, out) =>
      Become(if effect then Return(s, w, phase) else s, w, FinishFailure(c, error))
    case StatFinal(c, _) => Become(s, w, FinishFailure(c, error))
    case CopyFinal(c, out) =>
      Become(if effect then Return(s, w, phase) else s, w, FinishFailure(c, error))
    case VerifyFinal(c, out, created) => Become(s, w, Compensate(c, out, created, error))
    case CommitReady(c, out, created) =>
      Become(if effect then CommitReturns(s, w, c, out, created) else s, w, Compensate(c, out, created, error))
    case CheckReference(c, _, first) => Become(s, w, FinishFailure(c, first))
    case RemoveFinal(c, _, first) =>
      Become(if effect then Return(s, w, phase) else s, w, FinishFailure(c, first))
    case RemoveSource(c) =>
      Become(if effect then Return(s, w, phase) else s, w, CleanStaging(c))
    case ClearCleanup(c) =>
      Become(if effect then Return(s, w, phase) else s, w, FinishFailure(c, error))
    case FinishFailure(c, _) =>
      Become(if effect then Return(s, w, phase) else s, w, CleanStaging(c))
    case CleanStaging(c) =>
      Become(if effect then Return(s, w, phase) else s, w, Idle)
  }

  /******* Runs *******/

  /** Whether the actions can be taken one after another. */
  ghost predicate ValidRun(s: State, run: seq<Action>)
    decreases |run|
  {
    run == [] || (Enabled(s, run[0]) && ValidRun(Apply(s, run[0]), run[1..]))
  }

  ghost function After(s: State, run: seq<Action>): State
    requires ValidRun(s, run)
    decreases |run|
  {
    if run == [] then s else After(Apply(s, run[0]), run[1..])
  }

  /** Video rows and objects seeded beforehand agree; nothing has been collected yet. */
  ghost predicate Initial(s: State) {
    && s.db.jobs == [] && s.db.reels == map[]
    && (forall k :: k in s.db.videos ==> VideoStored(s, k))
    && s.workers == map[] && s.swept == {} && s.publishing == map[]
  }

  /** The row's object exists under its content-addressed key, with the recorded hash and size. */
  ghost predicate VideoStored(s: State, k: ObjectKey)
    requires k in s.db.videos
  {
    && k.FinalKey? && k in s.objects
    && k.sha == Sha256(s.objects[k])
    && |s.objects[k]| == s.db.videos[k].size
    && (s.db.videos[k].sha.Some? ==> s.db.videos[k].sha.value == k.sha)
  }
}
