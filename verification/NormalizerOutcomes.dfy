/**
 What the pipeline is for: a published source that nobody disturbs becomes a
 READY reel with its video stored, and a failed attempt leaves its reel
 claimable again or failed, by the kind of error and the attempts used.
 */
module NormalizerOutcomes {
  import opened Options
  import opened Transitions
  import opened NormalizerDb
  import opened NormalizerEffects
  import opened NormalizerSystem
  import opened NormalizerSafety
  import opened NormalizerRuns

  /******* Failures *******/

  /** Errors that another attempt may not meet again. */
  predicate Transient(error: Error) {
    error == ObjectNotFound || error == SqlError || error == Cancelled || error == OtherError
  }

  /** The stable reason codes, one for each kind of error. */
  lemma ReasonCodes(error: Error)
    ensures Classify(error).1 <==> Transient(error)
    ensures Classify(error).0 == match error {
              case ObjectNotFound => SourceMissing
              case HashMismatch => SourceHashMismatch
              case SizeMismatch => SourceSizeMismatch
              case ProbeError => FfprobeFailed
              case DecodeError => FullDecodeFailed
              case CompatibilityError => IncompatibleOutput
              case NormalizationError => NormalizationFailed
              case FinalConflict => FinalObjectConflict
              case SqlError => PostgresCommitFailure
              case Cancelled => WorkerCancelled
              case OtherError => MinioTransientFailure
            }
  {
  }

  /** The reel waits for its next attempt: a worker may claim the given job of it. */
  ghost predicate WaitsWith(db: Db, r: Shortcode, j: JobId, attempts: nat) {
    && r in db.reels && db.reels[r].status.SourceReady?
    && j < |db.jobs| && db.jobs[j] == Job(r, Pending, attempts, None, None, None, None)
    && Claimable(db, j)
  }

  ghost predicate FailedWith(db: Db, r: Shortcode, reason: Reason) {
    r in db.reels && db.reels[r].status.ReelFailed? && db.reels[r].reason == Some(reason)
  }

  /** What a written failure leaves of its reel. */
  ghost predicate FailureLeft(db: Db, db': Db, c: Claim, error: Error) {
    if !Transient(error) then FailedWith(db', c.reel, Classify(error).0)
    else if c.attempt >= 3 then FailedWith(db', c.reel, RetryExhausted)
    else WaitsWith(db', c.reel, |db.jobs|, c.attempt) && db'.reels[c.reel].reason == Some(Classify(error).0)
  }

  predicate StillRunning(db: Db, j: JobId) {
    j < |db.jobs| && db.jobs[j].status.Running?
  }

  /**
   A worker that still owns its job and writes its failure leaves the reel
   claimable with the attempts used so far if the error is transient and one is
   left, and failed otherwise.
   */
  lemma FailureOutcome(s: State, w: WorkerId)
    requires SystemInv(s) && PhaseOf(s, w).FinishFailure? && StillRunning(s.db, PhaseOf(s, w).c.job)
    ensures var phase, s' := PhaseOf(s, w), Return(s, w, PhaseOf(s, w));
            && FailureLeft(s.db, s'.db, phase.c, phase.error)
            && s' == Become(s.(db := s'.db), w, CleanStaging(phase.c))
  {
    var phase := PhaseOf(s, w);
    PhaseFacts(s, w);
    DbOf(s);
    hide SystemInv;
    var (reason, retryable) := Classify(phase.error);
    FinishFailureEffect(s.db, phase.c, w, reason, retryable);
    ReasonCodes(phase.error);
    hide FinishFailureTx;
    hide DbInv;
    hide Classify;
    hide Transient;
    FailureLeaves(s.db, FinishFailureTx(s.db, phase.c, w, reason, retryable), phase.c, phase.error);
  }

  lemma FailureLeaves(db: Db, db': Db, c: Claim, error: Error)
    requires c.job < |db.jobs| && c.reel in db.reels && db.jobs[c.job].attempts == c.attempt
    requires FailureWritten(db, db', c, Classify(error).0, Transient(error))
    ensures FailureLeft(db, db', c, error)
  {
    hide Classify;
    hide Transient;
    if Transient(error) && c.attempt < 3 {
      var appended := [Job(c.reel, Pending, c.attempt, None, None, None, None)];
      assert forall i :: 0 <= i < |appended| ==> db'.jobs[|db.jobs| + i] == appended[i];
      assert appended[0] == db'.jobs[|db.jobs| + 0];
    }
  }

  /******* Leases *******/

  /** The worker's job is running under a lease. */
  predicate Leased(db: Db, j: JobId, w: WorkerId) {
    j < |db.jobs| && db.jobs[j].status.Running? && db.jobs[j].worker == Some(w) && db.jobs[j].lease.Some?
  }

  lemma LeaseStep(s: State, a: Action, w: WorkerId, j: JobId)
    requires Enabled(s, a) && Actor(a) != Some(w) && Leased(s.db, j, w)
    ensures s.now <= Apply(s, a).now
    ensures Apply(s, a).now <= s.db.jobs[j].lease.value ==>
              j < |Apply(s, a).db.jobs| && Apply(s, a).db.jobs[j] == s.db.jobs[j]
  {
    if a.Proceed? {
      ReturnSparesJob(s, a.w, PhaseOf(s, a.w), w, j);
    } else if a.Raise? {
      if !PhaseOf(s, a.w).NormalizeMedia? {
        ReturnSparesJob(s, a.w, PhaseOf(s, a.w), w, j);
      }
      RaiseShape(s, a.w, a.error, a.effect);
      hide RaiseAt;
    }
    hide Return;
  }

  lemma ReturnSparesJob(s: State, v: WorkerId, phase: Phase, w: WorkerId, j: JobId)
    requires !phase.Idle? && !phase.NormalizeMedia? && v != w && Leased(s.db, j, w)
    ensures var s' := Return(s, v, phase);
            s'.now == s.now && j < |s'.db.jobs| && s'.db.jobs[j] == s.db.jobs[j]
  {
  }

  /** Until its lease runs out nobody takes a running job from its worker, whatever the others do. */
  lemma {:induction false} LeaseProtects(s: State, run: seq<Action>, w: WorkerId, j: JobId)
    requires ValidRun(s, run) && Leased(s.db, j, w) && forall a :: a in run ==> Actor(a) != Some(w)
    requires After(s, run).now <= s.db.jobs[j].lease.value
    ensures s.now <= After(s, run).now
    ensures j < |After(s, run).db.jobs| && After(s, run).db.jobs[j] == s.db.jobs[j]
    ensures PhaseOf(After(s, run), w) == PhaseOf(s, w)
    decreases |run|
  {
    hide Apply;
    hide Enabled;
    hide PhaseOf;
    if run != [] {
      assert run[0] in run && forall a :: a in run[1..] ==> a in run;
      LeaseStep(s, run[0], w, j);
      OthersKeepPhase(s, run[0], w);
      TimeForward(Apply(s, run[0]), run[1..]);
      LeaseProtects(Apply(s, run[0]), run[1..], w, j);
    }
  }

  lemma {:induction false} TimeForward(s: State, run: seq<Action>)
    requires ValidRun(s, run)
    ensures s.now <= After(s, run).now
    decreases |run|
  {
    if run != [] {
      StepForward(s, run[0]);
      hide Apply;
      TimeForward(Apply(s, run[0]), run[1..]);
    }
  }

  lemma StepForward(s: State, a: Action)
    requires Enabled(s, a)
    ensures s.now <= Apply(s, a).now
  {
    if a.Raise? {
      RaiseShape(s, a.w, a.error, a.effect);
      hide RaiseAt;
    }
  }

  /******* Checks *******/

  /** Media tools see a source only once it has been read as recorded; otherwise the attempt fails for what was found. */
  lemma SourceChecked(s: State, w: WorkerId)
    requires PhaseOf(s, w).DownloadSource?
    ensures var (c, next) := (PhaseOf(s, w).c, PhaseOf(Apply(s, Proceed(w)), w));
            if c.source.key !in s.objects then next == FinishFailure(c, ObjectNotFound)
            else if |s.objects[c.source.key]| != c.source.size then next == FinishFailure(c, SizeMismatch)
            else if Sha256(s.objects[c.source.key]) != c.source.sha then next == FinishFailure(c, HashMismatch)
            else next == NormalizeMedia(c)
  {
  }

  lemma NormalizesVerifiedOnly(s: State, a: Action, w: WorkerId)
    requires Enabled(s, a) && !PhaseOf(s, w).NormalizeMedia? && PhaseOf(Apply(s, a), w).NormalizeMedia?
    ensures a == Proceed(w) && SourceReads(s.objects, PhaseOf(Apply(s, a), w).c.source)
  {
    if Actor(a) != Some(w) {
      OthersKeepPhase(s, a, w);
    } else if a.Raise? {
      RaiseShape(s, w, a.error, a.effect);
      hide RaiseAt;
    }
  }

  /** A worker is about to commit only once the published object has been read as its own output. */
  lemma CommitsVerifiedOnly(s: State, a: Action, w: WorkerId)
    requires Enabled(s, a) && !PhaseOf(s, w).CommitReady? && PhaseOf(Apply(s, a), w).CommitReady?
    ensures var out := PhaseOf(Apply(s, a), w).out;
            a == Proceed(w) && FinalKey(Sha256(out)) in s.objects && s.objects[FinalKey(Sha256(out))] == out
  {
    if Actor(a) != Some(w) {
      OthersKeepPhase(s, a, w);
    } else if a.Raise? {
      RaiseShape(s, w, a.error, a.effect);
      hide RaiseAt;
    }
  }

  /** A compensation removes an object only after it found no video row naming it, and only one this attempt copied. */
  lemma RemovesUnreferencedOnly(s: State, a: Action, w: WorkerId)
    requires Enabled(s, a) && !PhaseOf(s, w).RemoveFinal? && PhaseOf(Apply(s, a), w).RemoveFinal?
    ensures var out := PhaseOf(Apply(s, a), w).out;
            a == Proceed(w) && PhaseOf(s, w).CheckReference? && FinalKey(Sha256(out)) !in s.db.videos
  {
    if Actor(a) != Some(w) {
      OthersKeepPhase(s, a, w);
    } else if a.Raise? {
      RaiseOutcome(s, w, a.error, a.effect);
      hide RaiseAt;
    }
  }

  lemma CompensatesOwnCopyOnly(s: State, a: Action, w: WorkerId)
    requires Enabled(s, a) && !PhaseOf(s, w).CheckReference? && PhaseOf(Apply(s, a), w).CheckReference?
    ensures (PhaseOf(s, w).VerifyFinal? || PhaseOf(s, w).CommitReady?) && PhaseOf(s, w).created
  {
    if Actor(a) != Some(w) {
      OthersKeepPhase(s, a, w);
    } else if a.Raise? {
      RaiseOutcome(s, w, a.error, a.effect);
      hide RaiseAt;
    }
  }

  /** Where a raising call leads. */
  lemma RaiseOutcome(s: State, w: WorkerId, error: Error, effect: bool)
    requires Enabled(s, Raise(w, error, effect))
    ensures var (phase, phase') := (PhaseOf(s, w), PhaseOf(RaiseAt(s, w, PhaseOf(s, w), error, effect), w));
            && !phase'.RemoveFinal?
            && (phase'.CheckReference? ==> (phase.VerifyFinal? || phase.CommitReady?) && phase.created)
  {
    RaisedTo(s, w, error, effect);
    hide RaiseAt;
  }

  /******* What is cleaned up *******/

  /**
   The object that a cleanup is about is gone afterwards and every other one is
   as it was: the staged object of a recovered attempt, the source of a READY
   reel, and a source that was published and not committed.
   */
  lemma CleanupsExactly(s: State, a: Action)
    requires Enabled(s, a) && (a.CleanStale? || a.SweepSource? || a.Withdraw?)
    ensures var objects := Apply(s, a).objects;
            var (gone, removed) :=
              if a.CleanStale? then (StagingKey(a.j, s.db.jobs[a.j].attempts), true)
              else if a.SweepSource? then (SourceKey(a.r), a.ok || a.effect)
              else (SourceKey(a.r), a.deleted && s.publishing[a.r].created);
            && (removed ==> gone !in objects)
            && (forall key :: key in objects ==> key in s.objects && objects[key] == s.objects[key])
            && (forall key :: key in s.objects && key !in objects ==> key == gone && removed)
            && Apply(s, a).db == s.db
  {
  }

  /******* One attempt, undisturbed *******/

  /** The run has brought worker w to this phase, in state s but for the workers. */
  ghost predicate Reaches(start: State, run: seq<Action>, s: State, w: WorkerId, phase: Phase) {
    ValidRun(start, run) && After(start, run) == Become(s, w, phase)
  }

  lemma ReachesNext(start: State, run: seq<Action>, s: State, w: WorkerId, phase: Phase, s': State, phase': Phase)
    requires Reaches(start, run, s, w, phase) && !phase.Idle? && !phase.NormalizeMedia?
    requires Return(Become(s, w, phase), w, phase) == Become(s', w, phase')
    ensures Reaches(start, run + [Proceed(w)], s', w, phase')
  {
    hide ValidRun;
    hide After;
    hide Return;
    RunAppend(start, run, Proceed(w));
  }

  lemma ReachesMedia(start: State, run: seq<Action>, s: State, w: WorkerId, c: Claim, out: Bytes)
    requires Reaches(start, run, s, w, NormalizeMedia(c))
    ensures Reaches(start, run + [Produce(w, out)], s, w, UploadStaging(c, out))
  {
    hide ValidRun;
    hide After;
    RunAppend(start, run, Produce(w, out));
    assert Become(Become(s, w, NormalizeMedia(c)), w, UploadStaging(c, out)) == Become(s, w, UploadStaging(c, out));
  }

  lemma ReachesClaim(s: State, w: WorkerId, j: JobId, lease: nat)
    requires PhaseOf(s, w).Idle? && Claimable(s.db, j) && ClaimTx(s.db, j, w, s.now + lease).1.Some?
    ensures var (db, c) := ClaimTx(s.db, j, w, s.now + lease);
            Reaches(s, [ClaimJob(w, j, lease)], s.(db := db), w, StatSource(c.value))
  {
    hide ClaimTx;
    RunAppend(s, [], ClaimJob(w, j, lease));
    assert [] + [ClaimJob(w, j, lease)] == [ClaimJob(w, j, lease)];
  }

  /** The run goes on with nothing but returning calls of the worker, its media tools producing `out`. */
  predicate GoesOn(before: seq<Action>, run: seq<Action>, w: WorkerId, out: Bytes) {
    before <= run && forall i :: |before| <= i < |run| ==> run[i] == Proceed(w) || run[i] == Produce(w, out)
  }

  lemma GoesOnTrans(before: seq<Action>, mid: seq<Action>, run: seq<Action>, w: WorkerId, out: Bytes)
    requires GoesOn(before, mid, w, out) && GoesOn(mid, run, w, out)
    ensures GoesOn(before, run, w, out)
  {
  }

  /** The recorded source is stored as recorded. */
  predicate SourceReads(objects: map<ObjectKey, Bytes>, source: Source) {
    && source.key in objects && |objects[source.key]| == source.size && Sha256(objects[source.key]) == source.sha
  }

  lemma SourceCalls(s: State, w: WorkerId, c: Claim)
    requires SourceReads(s.objects, c.source)
    ensures Return(Become(s, w, StatSource(c)), w, StatSource(c)) == Become(s, w, DownloadSource(c))
    ensures Return(Become(s, w, DownloadSource(c)), w, DownloadSource(c)) == Become(s, w, NormalizeMedia(c))
  {
  }

  /** The claim, and the verified download of the recorded source. */
  lemma ClaimsAndReads(s: State, w: WorkerId, j: JobId, lease: nat) returns (run: seq<Action>, db: Db, c: Claim)
    requires SystemInv(s) && PhaseOf(s, w).Idle? && j < |s.db.jobs| && s.db.jobs[j].status.Pending?
    ensures c.job == j && ClaimHanded(s.db, c) && ClaimWritten(s.db, db, j, w, s.now + lease)
    ensures c.source.key == SourceKey(c.reel)
    ensures Reaches(s, run, s.(db := db), w, NormalizeMedia(c))
    ensures run == [ClaimJob(w, j, lease), Proceed(w), Proceed(w)]
  {
    hide *;
    db, c := Claims(s, w, j, lease);
    run := [ClaimJob(w, j, lease)];
    var begun := s.(db := db);
    SourceCalls(begun, w, c);
    ReachesNext(s, run, begun, w, StatSource(c), begun, DownloadSource(c));
    ReachesNext(s, run + [Proceed(w)], begun, w, DownloadSource(c), begun, NormalizeMedia(c));
    run := run + [Proceed(w)] + [Proceed(w)];
    assert run == [ClaimJob(w, j, lease), Proceed(w), Proceed(w)];
  }

  lemma Claims(s: State, w: WorkerId, j: JobId, lease: nat) returns (db: Db, c: Claim)
    requires SystemInv(s) && PhaseOf(s, w).Idle? && j < |s.db.jobs| && s.db.jobs[j].status.Pending?
    ensures c.job == j && ClaimHanded(s.db, c) && ClaimWritten(s.db, db, j, w, s.now + lease)
    ensures SourceReads(s.objects, c.source) && c.source.key == SourceKey(c.reel)
    ensures Reaches(s, [ClaimJob(w, j, lease)], s.(db := db), w, StatSource(c))
  {
    DbOf(s);
    hide SystemInv;
    ClaimEffect(s.db, j, w, s.now + lease);
    var (db1, claimed) := ClaimTx(s.db, j, w, s.now + lease);
    db, c := db1, claimed.value;
    ReachesClaim(s, w, j, lease);
    SourceHanded(s, j, c);
    hide ClaimWritten;
    hide ClaimTx;
    hide DbInv;
  }

  lemma SourceHanded(s: State, j: JobId, c: Claim)
    requires SystemInv(s) && j < |s.db.jobs| && s.db.jobs[j].status.Pending? && c.job == j && ClaimHanded(s.db, c)
    ensures SourceReads(s.objects, c.source) && c.source.key == SourceKey(c.reel)
  {
    SourceAt(s, j);
    hide SystemInv;
  }

  lemma SourceAt(s: State, j: JobId)
    requires SystemInv(s) && j < |s.db.jobs| && s.db.jobs[j].status.Pending?
    ensures var r := s.db.jobs[j].reel;
            && r in s.db.reels && s.db.reels[r].source.Some? && SourceKey(r) in s.objects
            && Sha256(s.objects[SourceKey(r)]) == s.db.reels[r].source.value.sha
            && |s.objects[SourceKey(r)]| == s.db.reels[r].source.value.size
            && s.db.reels[r].source.value.key == SourceKey(r)
  {
    assert JobOk(s.db, j);
    var r := s.db.jobs[j].reel;
    assert ReelOk(s.db, r) && SourceStored(s, r);
  }

  /** The objects once the output is staged and published. */
  function Published(objects: map<ObjectKey, Bytes>, c: Claim, out: Bytes): map<ObjectKey, Bytes> {
    objects[StagingKey(c.job, c.attempt) := out][FinalKey(Sha256(out)) := out]
  }

  lemma UploadCall(s: State, w: WorkerId, c: Claim, out: Bytes)
    ensures Return(Become(s, w, UploadStaging(c, out)), w, UploadStaging(c, out)) ==
            Become(s.(objects := s.objects[StagingKey(c.job, c.attempt) := out]), w, StatFinal(c, out))
  {
  }

  lemma StatFinalCall(s: State, w: WorkerId, c: Claim, out: Bytes)
    requires FinalKey(Sha256(out)) in s.objects ==> s.objects[FinalKey(Sha256(out))] == out
    ensures Return(Become(s, w, StatFinal(c, out)), w, StatFinal(c, out)) ==
            Become(s, w, if FinalKey(Sha256(out)) in s.objects then VerifyFinal(c, out, false) else CopyFinal(c, out))
  {
  }

  lemma CopyCall(s: State, w: WorkerId, c: Claim, out: Bytes)
    requires StagingKey(c.job, c.attempt) in s.objects && s.objects[StagingKey(c.job, c.attempt)] == out
    ensures Return(Become(s, w, CopyFinal(c, out)), w, CopyFinal(c, out)) ==
            Become(s.(objects := s.objects[FinalKey(Sha256(out)) := out]), w, VerifyFinal(c, out, true))
  {
  }

  lemma VerifyCall(s: State, w: WorkerId, c: Claim, out: Bytes, created: bool)
    requires FinalKey(Sha256(out)) in s.objects && s.objects[FinalKey(Sha256(out))] == out
    ensures Return(Become(s, w, VerifyFinal(c, out, created)), w, VerifyFinal(c, out, created)) ==
            Become(s, w, CommitReady(c, out, created))
  {
  }

  /** Normalization, staging, publication and verification. */
  lemma Publishes(s: State, start: State, before: seq<Action>, w: WorkerId, c: Claim, out: Bytes)
    returns (run: seq<Action>, created: bool)
    requires Reaches(start, before, s, w, NormalizeMedia(c))
    requires FinalKey(Sha256(out)) in s.objects ==> s.objects[FinalKey(Sha256(out))] == out
    ensures Reaches(start, run, s.(objects := Published(s.objects, c, out)), w, CommitReady(c, out, created))
    ensures GoesOn(before, run, w, out)
  {
    hide Reaches;
    hide Become;
    hide Return;
    ReachesMedia(start, before, s, w, c, out);
    run := before + [Produce(w, out)];
    var staged := s.(objects := s.objects[StagingKey(c.job, c.attempt) := out]);
    UploadCall(s, w, c, out);
    ReachesNext(start, run, s, w, UploadStaging(c, out), staged, StatFinal(c, out));
    run := run + [Proceed(w)];
    created := FinalKey(Sha256(out)) !in s.objects;
    var published := s.(objects := Published(s.objects, c, out));
    StatFinalCall(staged, w, c, out);
    if created {
      ReachesNext(start, run, staged, w, StatFinal(c, out), staged, CopyFinal(c, out));
      run := run + [Proceed(w)];
      CopyCall(staged, w, c, out);
      ReachesNext(start, run, staged, w, CopyFinal(c, out), published, VerifyFinal(c, out, created));
    } else {
      assert Published(s.objects, c, out) == staged.objects;
      ReachesNext(start, run, staged, w, StatFinal(c, out), published, VerifyFinal(c, out, created));
    }
    run := run + [Proceed(w)];
    VerifyCall(published, w, c, out, created);
    ReachesNext(start, run, published, w, VerifyFinal(c, out, created), published, CommitReady(c, out, created));
    run := run + [Proceed(w)];
  }

  /** The objects the attempt leaves: the published video, neither the source nor the staged copy. */
  function Finished(objects: map<ObjectKey, Bytes>, c: Claim, out: Bytes): map<ObjectKey, Bytes> {
    Without(Without(Published(objects, c, out), c.source.key), StagingKey(c.job, c.attempt))
  }

  lemma CommitCall(s: State, w: WorkerId, c: Claim, out: Bytes, created: bool)
    requires CommitReadyTx(s.db, c, w, out).Committed?
    ensures Return(Become(s, w, CommitReady(c, out, created)), w, CommitReady(c, out, created)) ==
            Become(s.(db := CommitReadyTx(s.db, c, w, out).db), w, RemoveSource(c))
  {
    hide CommitReadyTx;
  }

  lemma RemoveSourceCall(s: State, w: WorkerId, c: Claim)
    ensures Return(Become(s, w, RemoveSource(c)), w, RemoveSource(c)) ==
            Become(s.(objects := Without(s.objects, c.source.key)), w, ClearCleanup(c))
  {
    hide Without;
  }

  lemma ClearCleanupCall(s: State, w: WorkerId, c: Claim)
    ensures Return(Become(s, w, ClearCleanup(c)), w, ClearCleanup(c)) ==
            Become(s.(db := ClearCleanupTx(s.db, c.reel)), w, CleanStaging(c))
  {
    hide ClearCleanupTx;
  }

  lemma CleanStagingCall(s: State, w: WorkerId, c: Claim)
    ensures Return(Become(s, w, CleanStaging(c)), w, CleanStaging(c)) ==
            Become(s.(objects := Without(s.objects, StagingKey(c.job, c.attempt))), w, Idle)
  {
    hide Without;
  }

  /** The commit and the cleanup after it. */
  lemma Commits(s: State, start: State, before: seq<Action>, w: WorkerId, c: Claim, out: Bytes, created: bool)
    returns (run: seq<Action>)
    requires Reaches(start, before, s, w, CommitReady(c, out, created)) && CommitReadyTx(s.db, c, w, out).Committed?
    ensures Reaches(start, run, s.(db := ClearCleanupTx(CommitReadyTx(s.db, c, w, out).db, c.reel),
                                   objects := Without(Without(s.objects, c.source.key), StagingKey(c.job, c.attempt))),
                    w, Idle)
    ensures GoesOn(before, run, w, out)
  {
    hide Reaches;
    hide Become;
    hide Return;
    hide CommitReadyTx;
    hide ClearCleanupTx;
    hide Without;
    run := before;
    CommitCall(s, w, c, out, created);
    var ready := s.(db := CommitReadyTx(s.db, c, w, out).db);
    ReachesNext(start, run, s, w, CommitReady(c, out, created), ready, RemoveSource(c));
    run := run + [Proceed(w)];
    RemoveSourceCall(ready, w, c);
    var removed := ready.(objects := Without(s.objects, c.source.key));
    ReachesNext(start, run, ready, w, RemoveSource(c), removed, ClearCleanup(c));
    run := run + [Proceed(w)];
    ClearCleanupCall(removed, w, c);
    var cleared := removed.(db := ClearCleanupTx(ready.db, c.reel));
    ReachesNext(start, run, removed, w, ClearCleanup(c), cleared, CleanStaging(c));
    run := run + [Proceed(w)];
    CleanStagingCall(cleared, w, c);
    ReachesNext(start, run, cleared, w, CleanStaging(c),
                cleared.(objects := Without(removed.objects, StagingKey(c.job, c.attempt))), Idle);
    run := run + [Proceed(w)];
  }

  /** The reel is READY, names the stored video, and nothing of its processing is left. */
  ghost predicate Delivered(s: State, r: Shortcode, out: Bytes) {
    var key := FinalKey(Sha256(out));
    && r in s.db.reels
    && s.db.reels[r].status.Ready? && s.db.reels[r].video == Some(key)
    && !s.db.reels[r].cleanupPending && s.db.reels[r].reason.None?
    && key in s.objects && s.objects[key] == out
    && key in s.db.videos && s.db.videos[key].size == |out|
    && SourceKey(r) !in s.objects
  }

  lemma ClaimKeepsVideos(db: Db, db': Db, j: JobId, w: WorkerId, lease: int, r: Shortcode, out: Bytes)
    requires j < |db.jobs| && ClaimWritten(db, db', j, w, lease)
    requires VideoFits(db, out) && !VideoTaken(db, r, out)
    ensures VideoFits(db', out) && !VideoTaken(db', r, out)
  {
    forall q | q in db'.reels && q != r
      ensures db'.reels[q].video != Some(FinalKey(Sha256(out)))
    {
      assert q in db.reels && db'.reels[q].video == db.reels[q].video;
    }
  }

  /** What is asked of the video that the output would become. */
  ghost predicate Acceptable(s: State, r: Shortcode, out: Bytes) {
    && (FinalKey(Sha256(out)) in s.objects ==> s.objects[FinalKey(Sha256(out))] == out)
    && VideoFits(s.db, out) && !VideoTaken(s.db, r, out)
  }

  /**
   An idle worker that claims a waiting job and is left alone, with the media
   tools producing `out`, delivers it, unless the object or the row of that
   video contradicts the output or another reel has the video.
   */
  lemma UndisturbedAttempt(s: State, w: WorkerId, j: JobId, lease: nat, out: Bytes) returns (run: seq<Action>)
    requires SystemInv(s) && PhaseOf(s, w).Idle? && j < |s.db.jobs| && s.db.jobs[j].status.Pending?
    requires Acceptable(s, s.db.jobs[j].reel, out)
    ensures ValidRun(s, run) && GoesOn([ClaimJob(w, j, lease)], run, w, out)
    ensures var s' := After(s, run);
            && Delivered(s', s.db.jobs[j].reel, out) && PhaseOf(s', w).Idle?
            && j < |s'.db.jobs| && s'.db.jobs[j].status.Completed?
            && StagingKey(j, s.db.jobs[j].attempts + 1) !in s'.objects
  {
    var db, c, created;
    run, db, c := ClaimsAndReads(s, w, j, lease);
    var claimed := s.(db := db);
    ClaimedRows(s, run, db, w, j, lease, c, out);
    assert FinalKey(Sha256(out)) in s.objects ==> s.objects[FinalKey(Sha256(out))] == out;
    assert c.reel == s.db.jobs[j].reel && c.attempt == s.db.jobs[j].attempts + 1;
    var begun := run;
    assert GoesOn([ClaimJob(w, j, lease)], begun, w, out);
    hide *;
    run, created := Publishes(claimed, s, run, w, c, out);
    GoesOnTrans([ClaimJob(w, j, lease)], begun, run, w, out);
    var prepared := run;
    var published := claimed.(objects := Published(s.objects, c, out));
    CommitReadyEffect(db, c, w, out);
    run := Commits(published, s, run, w, c, out, created);
    GoesOnTrans([ClaimJob(w, j, lease)], prepared, run, w, out);
    var ready := CommitReadyTx(db, c, w, out).db;
    DeliveredBy(s, db, ready, w, c, out);
    EndsIdle(s, run, s.(db := ClearCleanupTx(ready, c.reel), objects := Without(Without(published.objects, c.source.key), StagingKey(c.job, c.attempt))), w, c, out);
  }

  /** A worker whose calls all return has only one way to go on until it is idle. */
  lemma {:induction false} OneWay(s: State, a: seq<Action>, b: seq<Action>, w: WorkerId, out: Bytes)
    requires ValidRun(s, a) && ValidRun(s, b) && GoesOn([], a, w, out) && GoesOn([], b, w, out)
    requires PhaseOf(After(s, a), w).Idle? && PhaseOf(After(s, b), w).Idle?
    ensures a == b
    decreases |a|
  {
    hide Apply;
    if a != [] && b != [] {
      assert a[0] == b[0];
      OneWay(Apply(s, a[0]), a[1..], b[1..], w, out);
      assert a == [a[0]] + a[1..] && b == [b[0]] + b[1..];
    }
  }

  /** Whatever way a calm attempt goes, it delivers what it can. */
  lemma CalmAttemptDelivers(s: State, w: WorkerId, j: JobId, lease: nat, out: Bytes, claimed: State, rest: seq<Action>)
    requires SystemInv(s) && PhaseOf(s, w).Idle? && j < |s.db.jobs| && s.db.jobs[j].status.Pending?
    requires Acceptable(s, s.db.jobs[j].reel, out)
    requires Enabled(s, ClaimJob(w, j, lease)) && claimed == Apply(s, ClaimJob(w, j, lease))
    requires ValidRun(claimed, rest) && GoesOn([], rest, w, out) && PhaseOf(After(claimed, rest), w).Idle?
    ensures var s' := After(claimed, rest);
            && Delivered(s', s.db.jobs[j].reel, out)
            && j < |s'.db.jobs| && s'.db.jobs[j].status.Completed?
  {
    hide SystemInv;
    hide Apply;
    hide Delivered;
    hide Acceptable;
    var run := UndisturbedAttempt(s, w, j, lease, out);
    assert run[0] == ClaimJob(w, j, lease);
    OneWay(claimed, run[1..], rest, w, out);
  }

  lemma ClaimedRows(s: State, run: seq<Action>, db: Db, w: WorkerId, j: JobId, lease: nat, c: Claim, out: Bytes)
    requires SystemInv(s) && j < |s.db.jobs| && c.job == j && ClaimHanded(s.db, c)
    requires ClaimWritten(s.db, db, j, w, s.now + lease) && Acceptable(s, s.db.jobs[j].reel, out)
    requires Reaches(s, run, s.(db := db), w, NormalizeMedia(c))
    ensures DbInv(db) && c.job < |db.jobs| && db.jobs[c.job].reel == c.reel
    ensures db.jobs[c.job].status.Running? && db.jobs[c.job].worker == Some(w)
    ensures VideoFits(db, out) && !VideoTaken(db, c.reel, out)
  {
    hide SystemInv;
    hide DbInv;
    hide Monotone;
    RunKeepsInv(s, run);
    DbOf(After(s, run));
    hide ValidRun;
    hide After;
    ClaimKeepsVideos(s.db, db, j, w, s.now + lease, c.reel, out);
    hide VideoFits;
    hide VideoTaken;
  }

  lemma EndsIdle(start: State, run: seq<Action>, s: State, w: WorkerId, c: Claim, out: Bytes)
    requires Reaches(start, run, s, w, Idle) && Delivered(s, c.reel, out)
    ensures var s' := After(start, run);
            ValidRun(start, run) && Delivered(s', c.reel, out) && PhaseOf(s', w).Idle? && s'.db == s.db && s'.objects == s.objects
  {
    hide ValidRun;
    hide After;
  }

  lemma DeliveredBy(s: State, db: Db, ready: Db, w: WorkerId, c: Claim, out: Bytes)
    requires c.job < |db.jobs| && c.reel in db.reels && ReadyWritten(db, ready, c, out) && VideoFits(db, out)
    requires c.source.key == SourceKey(c.reel)
    ensures var s' := s.(db := ClearCleanupTx(ready, c.reel), objects := Finished(s.objects, c, out));
            && Delivered(s', c.reel, out)
            && c.job < |s'.db.jobs| && s'.db.jobs[c.job].status.Completed?
            && StagingKey(c.job, c.attempt) !in s'.objects
            && s'.objects == Without(Without(Published(s.objects, c, out), c.source.key), StagingKey(c.job, c.attempt))
  {
  }

  /******* From the collector to READY *******/

  /**
   A source published and committed for a reel that is not durable yet, and one
   undisturbed attempt after it, deliver the reel.
   */
  lemma PipelineDelivers(s: State, r: Shortcode, content: Bytes, w: WorkerId, lease: nat, out: Bytes)
    returns (run: seq<Action>)
    requires SystemInv(s) && PhaseOf(s, w).Idle? && r !in s.publishing
    requires r in s.db.reels ==> !Durable(s.db.reels[r].status)
    requires SourceKey(r) in s.objects ==> s.objects[SourceKey(r)] == content
    requires Acceptable(s, r, out)
    ensures ValidRun(s, run) && Delivered(After(s, run), r, out)
  {
    var begun := [Publish(r, content), CommitSource(r)];
    var ready := Committed(s, r, content, w, out);
    var attempt := UndisturbedAttempt(ready, w, |s.db.jobs|, lease, out);
    hide SystemInv;
    hide Apply;
    hide Enabled;
    hide Delivered;
    RunsJoin(s, begun, attempt);
    run := begun + attempt;
  }

  lemma Committed(s: State, r: Shortcode, content: Bytes, w: WorkerId, out: Bytes) returns (ready: State)
    requires SystemInv(s) && PhaseOf(s, w).Idle? && r !in s.publishing
    requires r in s.db.reels ==> !Durable(s.db.reels[r].status)
    requires SourceKey(r) in s.objects ==> s.objects[SourceKey(r)] == content
    requires Acceptable(s, r, out)
    ensures ValidRun(s, [Publish(r, content), CommitSource(r)])
    ensures ready == After(s, [Publish(r, content), CommitSource(r)])
    ensures SystemInv(ready) && PhaseOf(ready, w).Idle? && Acceptable(ready, r, out)
    ensures |ready.db.jobs| == |s.db.jobs| + 1
    ensures ready.db.jobs[|s.db.jobs|].reel == r && ready.db.jobs[|s.db.jobs|].status.Pending?
  {
    var published := Apply(s, Publish(r, content));
    CommitSourceEffect(s.db, r, content);
    ready := Apply(published, CommitSource(r));
    PublishKeepsInv(s, r, content);
    CommitPublishedKeepsInv(published, r);
    RunOfTwo(s, Publish(r, content), CommitSource(r));
    hide SystemInv;
    hide ValidRun;
    hide After;
    hide CommitSourceTx;
    SourceKeepsVideos(s.db, ready.db, r, content, out);
    hide SourceWritten;
    hide VideoFits;
    hide VideoTaken;
    assert ready.objects == s.objects[SourceKey(r) := content];
  }

  lemma RunOfTwo(s: State, a: Action, b: Action)
    requires Enabled(s, a) && Enabled(Apply(s, a), b)
    ensures ValidRun(s, [a, b]) && After(s, [a, b]) == Apply(Apply(s, a), b)
  {
    hide Apply;
    hide Enabled;
    assert [a, b][1..] == [b] && [b][1..] == [];
    var mid := Apply(s, a);
    assert ValidRun(Apply(mid, b), []) && ValidRun(mid, [b]);
    assert After(mid, [b]) == After(Apply(mid, b), []);
  }

  lemma SourceKeepsVideos(db: Db, db': Db, r: Shortcode, content: Bytes, out: Bytes)
    requires SourceWritten(db, db', r, content) && VideoFits(db, out) && !VideoTaken(db, r, out)
    ensures VideoFits(db', out) && !VideoTaken(db', r, out)
    ensures |db'.jobs| == |db.jobs| + 1 && db'.jobs[|db.jobs|].reel == r && db'.jobs[|db.jobs|].status.Pending?
  {
    forall q | q in db'.reels && q != r
      ensures db'.reels[q].video != Some(FinalKey(Sha256(out)))
    {
      assert q in db.reels && db'.reels[q] == db.reels[q];
    }
  }

  lemma {:induction false} RunsJoin(s: State, first: seq<Action>, second: seq<Action>)
    requires ValidRun(s, first) && ValidRun(After(s, first), second)
    ensures ValidRun(s, first + second) && After(s, first + second) == After(After(s, first), second)
    decreases |first|
  {
    hide Apply;
    hide Enabled;
    if first == [] {
      assert first + second == second;
    } else {
      assert (first + second)[1..] == first[1..] + second;
      RunsJoin(Apply(s, first[0]), first[1..], second);
    }
  }

  /******* An attempt that fails *******/

  /** A claimed attempt whose first call raises, and whose failure and cleanup are written. */
  function FailingAttempt(w: WorkerId, j: JobId, lease: nat, error: Error): seq<Action> {
    [ClaimJob(w, j, lease)] + [Raise(w, error, false)] + [Proceed(w)] + [Proceed(w)]
  }

  lemma AttemptFails(s: State, w: WorkerId, j: JobId, lease: nat, error: Error)
    requires SystemInv(s) && PhaseOf(s, w).Idle? && j < |s.db.jobs| && s.db.jobs[j].status.Pending?
    ensures ValidRun(s, FailingAttempt(w, j, lease, error))
    ensures var s', used := After(s, FailingAttempt(w, j, lease, error)), s.db.jobs[j].attempts + 1;
            && SystemInv(s') && PhaseOf(s', w).Idle?
            && (if !Transient(error) then FailedWith(s'.db, s.db.jobs[j].reel, Classify(error).0)
                else if used >= 3 then FailedWith(s'.db, s.db.jobs[j].reel, RetryExhausted)
                else WaitsWith(s'.db, s.db.jobs[j].reel, |s.db.jobs|, used))
  {
    DbOf(s);
    ClaimEffect(s.db, j, w, s.now + lease);
    var (db1, handed) := ClaimTx(s.db, j, w, s.now + lease);
    ReachesClaim(s, w, j, lease);
    hide SystemInv;
    hide DbInv;
    hide ClaimTx;
    hide Reaches;
    hide ValidRun;
    hide After;
    hide ClaimWritten;
    hide Classify;
    hide Transient;
    AttemptFailsFrom(s, s.(db := db1), w, j, lease, handed.value, error);
  }

  lemma AttemptFailsFrom(s: State, claimed: State, w: WorkerId, j: JobId, lease: nat, c: Claim, error: Error)
    requires SystemInv(s) && j < |s.db.jobs| && c.job == j && ClaimHanded(s.db, c)
    requires ClaimWritten(s.db, claimed.db, j, w, s.now + lease)
    requires Reaches(s, [ClaimJob(w, j, lease)], claimed, w, StatSource(c))
    ensures ValidRun(s, [ClaimJob(w, j, lease)] + [Raise(w, error, false)] + [Proceed(w)] + [Proceed(w)])
    ensures var s' := After(s, [ClaimJob(w, j, lease)] + [Raise(w, error, false)] + [Proceed(w)] + [Proceed(w)]);
            SystemInv(s') && PhaseOf(s', w).Idle? && FailureLeft(claimed.db, s'.db, c, error) && |claimed.db.jobs| == |s.db.jobs|
  {
    var run := [ClaimJob(w, j, lease)];
    assert StillRunning(claimed.db, j) && |claimed.db.jobs| == |s.db.jobs|;
    hide *;
    ReachesRaise(s, run, claimed, w, c, error);
    run := run + [Raise(w, error, false)];
    var db := FailureCall(s, run, claimed, w, c, error);
    var written := claimed.(db := db);
    var cleaned := written.(objects := Without(written.objects, StagingKey(c.job, c.attempt)));
    ReachesNext(s, run, claimed, w, FinishFailure(c, error), written, CleanStaging(c));
    run := run + [Proceed(w)];
    CleanStagingCall(written, w, c);
    ReachesNext(s, run, written, w, CleanStaging(c), cleaned, Idle);
    run := run + [Proceed(w)];
    ReachedState(s, run, cleaned, w);
  }

  lemma FailureCall(start: State, run: seq<Action>, s: State, w: WorkerId, c: Claim, error: Error) returns (db: Db)
    requires SystemInv(start) && Reaches(start, run, s, w, FinishFailure(c, error)) && StillRunning(s.db, c.job)
    ensures FailureLeft(s.db, db, c, error)
    ensures Return(Become(s, w, FinishFailure(c, error)), w, FinishFailure(c, error)) ==
            Become(s.(db := db), w, CleanStaging(c))
  {
    hide SystemInv;
    hide Monotone;
    var failing := Become(s, w, FinishFailure(c, error));
    RunKeepsInv(start, run);
    hide ValidRun;
    hide After;
    FailureOutcome(failing, w);
    hide Return;
    hide FailureLeft;
    db := Return(failing, w, FinishFailure(c, error)).db;
    assert Become(failing.(db := db), w, CleanStaging(c)) == Become(s.(db := db), w, CleanStaging(c));
  }

  lemma ReachedState(start: State, run: seq<Action>, s: State, w: WorkerId)
    requires SystemInv(start) && Reaches(start, run, s, w, Idle)
    ensures ValidRun(start, run) && SystemInv(After(start, run)) && PhaseOf(After(start, run), w).Idle?
    ensures After(start, run).db == s.db
  {
    hide SystemInv;
    RunKeepsInv(start, run);
    hide ValidRun;
    hide After;
  }

  lemma ReachesRaise(start: State, run: seq<Action>, s: State, w: WorkerId, c: Claim, error: Error)
    requires Reaches(start, run, s, w, StatSource(c))
    ensures Reaches(start, run + [Raise(w, error, false)], s, w, FinishFailure(c, error))
  {
    hide ValidRun;
    hide After;
    RunAppend(start, run, Raise(w, error, false));
    assert Become(Become(s, w, StatSource(c)), w, FinishFailure(c, error)) == Become(s, w, FinishFailure(c, error));
  }

  /** Three attempts of a fresh job that each meet a transient error use up the reel; two do not. */
  lemma ThreeTransientFailures(s: State, w: WorkerId, j: JobId, lease: nat, e1: Error, e2: Error, e3: Error)
    requires SystemInv(s) && PhaseOf(s, w).Idle? && j < |s.db.jobs| && s.db.jobs[j].status.Pending?
    requires s.db.jobs[j].attempts == 0 && Transient(e1) && Transient(e2) && Transient(e3)
    ensures ValidRun(s, FailingAttempt(w, j, lease, e1))
    ensures var r, s1 := s.db.jobs[j].reel, After(s, FailingAttempt(w, j, lease, e1));
            && WaitsWith(s1.db, r, |s.db.jobs|, 1)
            && ValidRun(s1, FailingAttempt(w, |s.db.jobs|, lease, e2))
            && var s2 := After(s1, FailingAttempt(w, |s.db.jobs|, lease, e2));
               && WaitsWith(s2.db, r, |s1.db.jobs|, 2)
               && ValidRun(s2, FailingAttempt(w, |s1.db.jobs|, lease, e3))
               && FailedWith(After(s2, FailingAttempt(w, |s1.db.jobs|, lease, e3)).db, r, RetryExhausted)
  {
    hide SystemInv;
    hide ValidRun;
    hide After;
    hide FailingAttempt;
    hide Transient;
    hide Claimable;
    AttemptFails(s, w, j, lease, e1);
    var s1 := After(s, FailingAttempt(w, j, lease, e1));
    AttemptFails(s1, w, |s.db.jobs|, lease, e2);
    var s2 := After(s1, FailingAttempt(w, |s.db.jobs|, lease, e2));
    AttemptFails(s2, w, |s1.db.jobs|, lease, e3);
  }
}
