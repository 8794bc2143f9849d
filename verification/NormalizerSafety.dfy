/**
 What holds in every reachable interleaving of the pipeline, whatever raises,
 crashes or expires: legal statuses, fencing, bounded attempts, and the fate of
 source objects. No assumption on outputs is needed here.
 */
module NormalizerSafety {
  import opened Options
  import opened Transitions
  import opened NormalizerDb
  import opened NormalizerDbProofs
  import opened NormalizerSystem

  /******* The invariant *******/

  /** A worker's claim still describes its job's row; a running row is this worker's. */
  ghost predicate ClaimOk(db: Db, w: WorkerId, c: Claim) {
    && c.job < |db.jobs|
    && db.jobs[c.job].reel == c.reel
    && db.jobs[c.job].attempts == c.attempt
    && !db.jobs[c.job].status.Pending?
    && (db.jobs[c.job].status.Running? ==> db.jobs[c.job].worker == Some(w))
    && c.source.key == SourceKey(c.reel)
  }

  ghost predicate SourceGone(s: State, r: Shortcode) {
    r in s.db.reels && s.db.reels[r].status.Ready? && SourceKey(r) !in s.objects
  }

  ghost predicate PhaseOk(s: State, w: WorkerId) {
    var phase := PhaseOf(s, w);
    && (!phase.Idle? ==> ClaimOk(s.db, w, phase.c))
    && (phase.RemoveSource? || phase.ClearCleanup? ==>
          && s.db.jobs[phase.c.job].status.Completed?
          && phase.c.reel in s.db.reels && s.db.reels[phase.c.reel].status.Ready?)
    && (phase.ClearCleanup? ==> SourceGone(s, phase.c.reel))
  }

  ghost predicate DifferentJobs(s: State, v: WorkerId, w: WorkerId) {
    !PhaseOf(s, v).Idle? && !PhaseOf(s, w).Idle? ==> PhaseOf(s, v).c.job != PhaseOf(s, w).c.job
  }

  /** The stored source of a reel that still needs it is the recorded one. */
  ghost predicate SourceStored(s: State, r: Shortcode)
    requires r in s.db.reels
  {
    var reel := s.db.reels[r];
    && (reel.status.SourceReady? || reel.status.Normalizing? ==>
          && SourceKey(r) in s.objects && reel.source.Some?
          && Sha256(s.objects[SourceKey(r)]) == reel.source.value.sha
          && |s.objects[SourceKey(r)]| == reel.source.value.size)
    && (reel.status.Ready? && SourceKey(r) in s.objects ==> reel.cleanupPending)
  }

  ghost predicate PublicationOk(s: State, r: Shortcode)
    requires r in s.publishing
  {
    && (r in s.db.reels ==> !Durable(s.db.reels[r].status))
    && SourceKey(r) in s.objects && s.objects[SourceKey(r)] == s.publishing[r].content
  }

  ghost predicate SourcesOk(s: State) {
    && (forall r :: r in s.db.reels ==> SourceStored(s, r))
    && (forall r :: r in s.swept ==> SourceGone(s, r))
    && (forall r :: r in s.publishing ==> PublicationOk(s, r))
  }

  ghost predicate WorkersOk(s: State) {
    && (forall w :: PhaseOk(s, w))
    && (forall v, w :: v != w ==> DifferentJobs(s, v, w))
  }

  ghost predicate SystemInv(s: State) {
    DbInv(s.db) && WorkersOk(s) && SourcesOk(s)
  }

  /******* What no transaction ever undoes *******/

  ghost predicate JobMonotone(db: Db, db': Db, j: JobId)
    requires j < |db.jobs| && j < |db'.jobs|
  {
    var job, job' := db.jobs[j], db'.jobs[j];
    && job'.reel == job.reel
    && (!job.status.Pending? ==> job'.attempts == job.attempts && !job'.status.Pending?)
    && (job.status.Pending? && job'.status.Pending? ==> job'.attempts == job.attempts)
    && (job.status.Pending? && job'.status.Running? ==> job'.attempts == job.attempts + 1)
    && (!Active(job) ==> job' == job)
    && (job'.status.Running? && !job.status.Pending? ==> job.status.Running? && job'.worker == job.worker)
  }

  ghost predicate ReelMonotone(db: Db, db': Db, r: Shortcode)
    requires r in db.reels && r in db'.reels
  {
    db.reels[r].status.Ready? ==> db'.reels[r].status.Ready?
  }

  ghost predicate Monotone(db: Db, db': Db) {
    && |db.jobs| <= |db'.jobs|
    && (forall j :: 0 <= j < |db.jobs| ==> JobMonotone(db, db', j))
    && db.reels.Keys <= db'.reels.Keys
    && (forall r :: r in db.reels ==> ReelMonotone(db, db', r))
  }

  /** A durable reel was durable before; a clean READY reel was clean before; sources do not change. */
  ghost predicate Carries(db: Db, db': Db, r: Shortcode)
    requires r in db'.reels
  {
    var reel' := db'.reels[r];
    Durable(reel'.status) ==>
      && r in db.reels && Durable(db.reels[r].status)
      && (!reel'.status.Ready? ==> !db.reels[r].status.Ready? && reel'.source == db.reels[r].source)
      && (reel'.status.Ready? && !reel'.cleanupPending ==> db.reels[r].status.Ready? && !db.reels[r].cleanupPending)
  }

  ghost predicate CarriesAll(db: Db, db': Db) {
    forall r :: r in db'.reels ==> Carries(db, db', r)
  }

  ghost predicate TxOk(db: Db, db': Db) {
    DbInv(db') && Legal(db, db') && Monotone(db, db') && CarriesAll(db, db')
  }

  lemma ClaimTxOk(db: Db, j: JobId, w: WorkerId, lease: int)
    requires DbInv(db) && Claimable(db, j)
    ensures var (db', c) := ClaimTx(db, j, w, lease);
            TxOk(db, db') && c.Some? && c.value.job == j && ClaimOk(db', w, c.value)
  {
    hide DbInv;
    ClaimKeepsInv(db, j, w, lease);
  }

  lemma RecoverTxOk(db: Db, j: JobId)
    requires DbInv(db) && j < |db.jobs| && db.jobs[j].status.Running?
    ensures TxOk(db, RecoverTx(db, j))
  {
    hide DbInv;
    RecoverKeepsInv(db, j);
    JobRow(db, j);
  }

  lemma FinishFailureTxOk(db: Db, w: WorkerId, c: Claim, reason: Reason, retryable: bool)
    requires DbInv(db) && ClaimOk(db, w, c)
    ensures TxOk(db, FinishFailureTx(db, c, w, reason, retryable))
  {
    hide DbInv;
    FinishFailureKeepsInv(db, c, w, reason, retryable);
    JobRow(db, c.job);
  }

  lemma CommitReadyTxOk(db: Db, w: WorkerId, c: Claim, out: Bytes)
    requires DbInv(db) && ClaimOk(db, w, c)
    ensures var result := CommitReadyTx(db, c, w, out);
            result.Committed? ==>
              && TxOk(db, result.db)
              && db.jobs[c.job].status.Running? && result.db.jobs[c.job].status.Completed?
              && c.reel in result.db.reels && result.db.reels[c.reel].status.Ready?
  {
    hide DbInv;
    CommitReadyKeepsInv(db, c, w, out);
    JobRow(db, c.job);
  }

  lemma RecordFailureTxOk(db: Db, r: Shortcode, reason: Reason)
    requires DbInv(db)
    ensures TxOk(db, RecordFailureTx(db, r, reason))
  {
    hide DbInv;
    RecordFailureKeepsInv(db, r, reason);
  }

  lemma SameTxOk(db: Db)
    requires DbInv(db)
    ensures TxOk(db, db)
  {
  }

  /** Clearing a cleanup flag: as the other transactions, except for that one reel's flag. */
  lemma ClearTxOk(db: Db, db': Db, r: Shortcode)
    requires DbInv(db)
    requires db' == ClearCleanupTx(db, r) || db' == ReconcileClearTx(db, r)
    ensures DbInv(db') && Legal(db, db') && Monotone(db, db')
    ensures forall q :: q in db'.reels && q != r ==> Carries(db, db', q)
    ensures forall q :: q in db'.reels ==> q in db.reels && db'.reels[q].status == db.reels[q].status
  {
    hide DbInv;
    ClearCleanupKeepsInv(db, r);
    OnlyFlag(db, db', r);
    hide ClearCleanupTx;
    hide ReconcileClearTx;
    hide Legal;
  }

  lemma OnlyFlag(db: Db, db': Db, r: Shortcode)
    requires db' == ClearCleanupTx(db, r) || db' == ReconcileClearTx(db, r)
    ensures db'.jobs == db.jobs && db'.videos == db.videos && db'.reels.Keys == db.reels.Keys
    ensures forall q :: q in db.reels && q != r ==> db'.reels[q] == db.reels[q]
    ensures r in db.reels ==> db'.reels[r] == db.reels[r].(cleanupPending := db'.reels[r].cleanupPending)
    ensures r in db.reels ==> db'.reels[r].cleanupPending == db.reels[r].cleanupPending || !db'.reels[r].cleanupPending
  {
  }

  /******* Frames *******/

  ghost predicate GoneStays(s: State, s': State) {
    forall r :: SourceGone(s, r) ==> SourceGone(s', r)
  }

  lemma OtherWorkerStays(s: State, s': State, w: WorkerId)
    requires PhaseOk(s, w) && PhaseOf(s', w) == PhaseOf(s, w)
    requires Monotone(s.db, s'.db) && GoneStays(s, s')
    ensures PhaseOk(s', w)
  {
    var phase := PhaseOf(s, w);
    if !phase.Idle? {
      assert JobMonotone(s.db, s'.db, phase.c.job);
      if phase.c.reel in s.db.reels {
        assert ReelMonotone(s.db, s'.db, phase.c.reel);
      }
    }
  }

  /** Every worker but possibly one stays where it is. */
  lemma WorkersStay(s: State, s': State, actor: Option<WorkerId>)
    requires WorkersOk(s) && Monotone(s.db, s'.db) && GoneStays(s, s')
    requires forall w :: actor != Some(w) ==> PhaseOf(s', w) == PhaseOf(s, w)
    requires actor.Some? ==>
               && PhaseOk(s', actor.value)
               && forall v :: v != actor.value ==> DifferentJobs(s', v, actor.value)
    ensures WorkersOk(s')
  {
    forall w
      ensures PhaseOk(s', w)
    {
      if actor != Some(w) {
        OtherWorkerStays(s, s', w);
      }
    }
    forall v, w | v != w
      ensures DifferentJobs(s', v, w)
    {
      assert DifferentJobs(s, v, w);
      if actor == Some(v) {
        assert DifferentJobs(s', w, v);
      }
    }
  }

  /** A worker that goes idle or keeps its claim still differs from the others. */
  lemma KeepsClaim(s: State, s': State, w: WorkerId)
    requires WorkersOk(s) && forall v :: v != w ==> PhaseOf(s', v) == PhaseOf(s, v)
    requires PhaseOf(s', w).Idle? || (!PhaseOf(s, w).Idle? && PhaseOf(s', w).c == PhaseOf(s, w).c)
    ensures forall v :: v != w ==> DifferentJobs(s', v, w)
  {
    forall v | v != w
      ensures DifferentJobs(s', v, w)
    {
      assert DifferentJobs(s, v, w);
    }
  }

  /** Sources are neither added nor changed, and only those of READY reels are removed. */
  ghost predicate ObjectsKeepSource(s: State, s': State, r: Shortcode) {
    var key := SourceKey(r);
    && (key in s'.objects ==> key in s.objects && s'.objects[key] == s.objects[key])
    && (key in s.objects && key !in s'.objects ==> r in s.db.reels && s.db.reels[r].status.Ready?)
  }

  lemma SourceStays(s: State, s': State, r: Shortcode)
    requires r in s'.db.reels && Carries(s.db, s'.db, r) && ObjectsKeepSource(s, s', r)
    requires r in s.db.reels ==> SourceStored(s, r)
    ensures SourceStored(s', r)
  {
  }

  lemma SourcesStay(s: State, s': State)
    requires SourcesOk(s) && CarriesAll(s.db, s'.db) && Monotone(s.db, s'.db)
    requires s'.publishing == s.publishing && s'.swept == s.swept
    requires forall r :: ObjectsKeepSource(s, s', r)
    ensures SourcesOk(s') && GoneStays(s, s')
  {
    GoneIsForGood(s, s');
    forall r | r in s'.db.reels
      ensures SourceStored(s', r)
    {
      assert Carries(s.db, s'.db, r) && ObjectsKeepSource(s, s', r);
      SourceStays(s, s', r);
    }
    forall r | r in s'.publishing
      ensures PublicationOk(s', r)
    {
      assert PublicationOk(s, r) && ObjectsKeepSource(s, s', r);
      if r in s'.db.reels {
        assert Carries(s.db, s'.db, r);
      }
    }
  }

  lemma GoneIsForGood(s: State, s': State)
    requires Monotone(s.db, s'.db)
    requires forall r :: ObjectsKeepSource(s, s', r)
    ensures GoneStays(s, s')
  {
    forall r | SourceGone(s, r)
      ensures SourceGone(s', r)
    {
      assert ReelMonotone(s.db, s'.db, r) && ObjectsKeepSource(s, s', r);
    }
  }

  /** A transaction of an actor that is no worker. */
  lemma DbStepKeepsInv(s: State, s': State)
    requires SystemInv(s) && TxOk(s.db, s'.db)
    requires s' == s.(now := s'.now, db := s'.db)
    ensures SystemInv(s')
  {
    hide DbInv;
    assert forall r :: ObjectsKeepSource(s, s', r);
    SourcesStay(s, s');
    WorkersStay(s, s', None);
  }

  /** A worker moves on within its claim, possibly after a transaction and a storage call. */
  lemma WorkerStepKeepsInv(s: State, s': State, w: WorkerId)
    requires SystemInv(s) && TxOk(s.db, s'.db)
    requires s'.publishing == s.publishing && s'.swept == s.swept
    requires forall r :: ObjectsKeepSource(s, s', r)
    requires forall v :: v != w ==> PhaseOf(s', v) == PhaseOf(s, v)
    requires PhaseOf(s', w).Idle? || (!PhaseOf(s, w).Idle? && PhaseOf(s', w).c == PhaseOf(s, w).c)
    requires PhaseOk(s', w)
    ensures SystemInv(s')
  {
    hide DbInv;
    SourcesStay(s, s');
    KeepsClaim(s, s', w);
    WorkersStay(s, s', Some(w));
  }

  /******* One lemma per kind of action *******/

  lemma ClaimJobKeepsInv(s: State, w: WorkerId, j: JobId, leaseSeconds: nat)
    requires SystemInv(s) && Enabled(s, ClaimJob(w, j, leaseSeconds))
    ensures SystemInv(ApplyClaim(s, w, j, leaseSeconds))
    ensures TxOk(s.db, ApplyClaim(s, w, j, leaseSeconds).db)
  {
    hide DbInv;
    ClaimTxOk(s.db, j, w, s.now + leaseSeconds);
    var s' := ApplyClaim(s, w, j, leaseSeconds);
    assert forall r :: ObjectsKeepSource(s, s', r);
    SourcesStay(s, s');
    forall v | v != w
      ensures DifferentJobs(s', v, w)
    {
      assert PhaseOk(s, v);
    }
    WorkersStay(s, s', Some(w));
  }

  /** Calls that neither change rows nor sources: only the phase and perhaps other objects move. */
  lemma QuietStepKeepsInv(s: State, s': State, w: WorkerId)
    requires SystemInv(s) && s'.db == s.db && s'.publishing == s.publishing && s'.swept == s.swept
    requires forall r :: SourceKey(r) in s.objects <==> SourceKey(r) in s'.objects
    requires forall r :: SourceKey(r) in s.objects ==> s'.objects[SourceKey(r)] == s.objects[SourceKey(r)]
    requires forall v :: v != w ==> PhaseOf(s', v) == PhaseOf(s, v)
    requires var phase' := PhaseOf(s', w);
             phase'.Idle? || (!PhaseOf(s, w).Idle? && phase'.c == PhaseOf(s, w).c
                               && !phase'.RemoveSource? && !phase'.ClearCleanup?)
    ensures SystemInv(s') && TxOk(s.db, s'.db)
  {
    hide DbInv;
    SameTxOk(s.db);
    assert PhaseOk(s, w);
    assert forall r :: ObjectsKeepSource(s, s', r);
    WorkerStepKeepsInv(s, s', w);
  }

  lemma CommitReturnsKeepsInv(s: State, w: WorkerId)
    requires SystemInv(s) && PhaseOf(s, w).CommitReady?
    ensures var phase := PhaseOf(s, w);
            var s' := CommitReturns(s, w, phase.c, phase.out, phase.created);
            SystemInv(s') && TxOk(s.db, s'.db) && PhaseOf(s', w).c == phase.c
  {
    hide DbInv;
    var phase := PhaseOf(s, w);
    var s' := CommitReturns(s, w, phase.c, phase.out, phase.created);
    assert PhaseOk(s, w);
    var result := CommitReadyTx(s.db, phase.c, w, phase.out);
    if result.Committed? {
      CommitReadyTxOk(s.db, w, phase.c, phase.out);
      assert JobMonotone(s.db, s'.db, phase.c.job);
      assert forall r :: ObjectsKeepSource(s, s', r);
      WorkerStepKeepsInv(s, s', w);
    } else {
      QuietStepKeepsInv(s, s', w);
    }
  }

  lemma RemoveSourceKeepsInv(s: State, w: WorkerId)
    requires SystemInv(s) && PhaseOf(s, w).RemoveSource?
    ensures var s' := Return(s, w, PhaseOf(s, w));
            && SystemInv(s') && TxOk(s.db, s'.db) && PhaseOf(s', w) == ClearCleanup(PhaseOf(s, w).c)
  {
    hide DbInv;
    SameTxOk(s.db);
    var s' := Return(s, w, PhaseOf(s, w));
    assert PhaseOk(s, w);
    assert forall r :: ObjectsKeepSource(s, s', r);
    WorkerStepKeepsInv(s, s', w);
  }

  /** Clearing the flag is safe because the source is gone and stays gone. */
  lemma ClearKeepsInv(s: State, s': State, r: Shortcode, actor: Option<WorkerId>)
    requires SystemInv(s) && SourceGone(s, r)
    requires s'.db == ClearCleanupTx(s.db, r) || s'.db == ReconcileClearTx(s.db, r)
    requires s'.publishing == s.publishing && s'.swept == s.swept && s'.objects == s.objects
    requires forall w :: actor != Some(w) ==> PhaseOf(s', w) == PhaseOf(s, w)
    requires actor.Some? ==>
               && PhaseOf(s, actor.value).ClearCleanup?
               && PhaseOf(s', actor.value) == CleanStaging(PhaseOf(s, actor.value).c)
    ensures SystemInv(s') && Legal(s.db, s'.db) && Monotone(s.db, s'.db)
  {
    hide DbInv;
    hide Legal;
    ClearTxOk(s.db, s'.db, r);
    assert forall q :: ObjectsKeepSource(s, s', q);
    GoneIsForGood(s, s');
    forall q | q in s'.db.reels
      ensures SourceStored(s', q)
    {
      assert SourceStored(s, q) && ObjectsKeepSource(s, s', q);
      if q != r {
        assert Carries(s.db, s'.db, q);
        SourceStays(s, s', q);
      }
    }
    forall q | q in s'.publishing
      ensures PublicationOk(s', q)
    {
      assert PublicationOk(s, q);
    }
    if actor.Some? {
      var w := actor.value;
      assert PhaseOk(s, w);
      assert JobMonotone(s.db, s'.db, PhaseOf(s, w).c.job);
      KeepsClaim(s, s', w);
    }
    WorkersStay(s, s', actor);
  }

  lemma FinishFailureKeepsSystemInv(s: State, w: WorkerId)
    requires SystemInv(s) && PhaseOf(s, w).FinishFailure?
    ensures var s' := Return(s, w, PhaseOf(s, w));
            && SystemInv(s') && TxOk(s.db, s'.db) && PhaseOf(s', w) == CleanStaging(PhaseOf(s, w).c)
  {
    hide DbInv;
    var phase := PhaseOf(s, w);
    var (reason, retryable) := Classify(phase.error);
    assert PhaseOk(s, w);
    FinishFailureTxOk(s.db, w, phase.c, reason, retryable);
    var s' := Return(s, w, phase);
    assert JobMonotone(s.db, s'.db, phase.c.job);
    assert forall r :: ObjectsKeepSource(s, s', r);
    WorkerStepKeepsInv(s, s', w);
  }

  /** What every action guarantees about the rows it leaves behind. */
  ghost predicate RowsOk(db: Db, db': Db) {
    Legal(db, db') && Monotone(db, db')
  }

  lemma ReturnKeepsInv(s: State, w: WorkerId)
    requires SystemInv(s) && Enabled(s, Proceed(w))
    ensures var s' := Return(s, w, PhaseOf(s, w));
            SystemInv(s') && RowsOk(s.db, s'.db)
  {
    var phase := PhaseOf(s, w);
    hide SystemInv;
    hide TxOk;
    if phase.CommitReady? {
      CommitReturnsKeepsInv(s, w);
      TxRows(s.db, Return(s, w, phase).db);
    } else if phase.RemoveSource? {
      RemoveSourceKeepsInv(s, w);
      TxRows(s.db, Return(s, w, phase).db);
    } else if phase.ClearCleanup? {
      PhaseFacts(s, w);
      ClearKeepsInv(s, Return(s, w, phase), phase.c.reel, Some(w));
    } else if phase.FinishFailure? {
      FinishFailureKeepsSystemInv(s, w);
      TxRows(s.db, Return(s, w, phase).db);
    } else {
      QuietStepKeepsInv(s, Return(s, w, phase), w);
      TxRows(s.db, Return(s, w, phase).db);
    }
  }

  lemma TxRows(db: Db, db': Db)
    requires TxOk(db, db')
    ensures RowsOk(db, db')
  {
  }

  lemma PhaseFacts(s: State, w: WorkerId)
    requires SystemInv(s)
    ensures PhaseOk(s, w)
  {
  }

  /** Whether the pending call changes anything when it takes effect before raising. */
  predicate HasEffect(phase: Phase) {
    || phase.UploadStaging? || phase.CopyFinal? || phase.CommitReady? || phase.RemoveFinal?
    || phase.RemoveSource? || phase.ClearCleanup? || phase.FinishFailure? || phase.CleanStaging?
  }

  lemma ReturnKeepsClaim(s: State, w: WorkerId)
    requires Enabled(s, Proceed(w))
    ensures var phase, phase' := PhaseOf(s, w), PhaseOf(Return(s, w, PhaseOf(s, w)), w);
            if phase.CleanStaging? then phase'.Idle? else !phase'.Idle? && phase'.c == phase.c
  {
  }

  /** Where a raising call leads. */
  function RaisedPhase(phase: Phase, error: Error): Phase
    requires !phase.Idle?
  {
    match phase
    case StatSource(c) => FinishFailure(c, error)
    case DownloadSource(c) => FinishFailure(c, error)
    case NormalizeMedia(c) => FinishFailure(c, error)
    case UploadStaging(c, _) => FinishFailure(c, error)
    case StatFinal(c, _) => FinishFailure(c, error)
    case CopyFinal(c, _) => FinishFailure(c, error)
    case VerifyFinal(c, out, created) => Compensate(c, out, created, error)
    case CommitReady(c, out, created) => Compensate(c, out, created, error)
    case CheckReference(c, _, first) => FinishFailure(c, first)
    case RemoveFinal(c, _, first) => FinishFailure(c, first)
    case RemoveSource(c) => CleanStaging(c)
    case FinishFailure(c, _) => CleanStaging(c)
    case ClearCleanup(c) => FinishFailure(c, error)
    case CleanStaging(_) => Idle
  }

  lemma RaisedTo(s: State, w: WorkerId, error: Error, effect: bool)
    requires Enabled(s, Raise(w, error, effect))
    ensures PhaseOf(RaiseAt(s, w, PhaseOf(s, w), error, effect), w) == RaisedPhase(PhaseOf(s, w), error)
  {
    hide Return;
    hide CommitReturns;
    hide Compensate;
  }

  lemma RaiseShape(s: State, w: WorkerId, error: Error, effect: bool)
    requires Enabled(s, Raise(w, error, effect))
    ensures var phase := PhaseOf(s, w);
            var mid := if effect && HasEffect(phase) then Return(s, w, phase) else s;
            var s' := RaiseAt(s, w, phase, error, effect);
            var phase' := PhaseOf(s', w);
            && s' == Become(mid, w, phase')
            && !phase'.RemoveSource? && !phase'.ClearCleanup?
            && (if phase.CleanStaging? then phase'.Idle? else !phase'.Idle? && phase'.c == phase.c)
  {
    hide CommitReturns;
    hide Return;
    hide Without;
    var phase := PhaseOf(s, w);
    if effect && phase.CommitReady? {
      CommitIsReturn(s, w);
    }
  }

  lemma CommitIsReturn(s: State, w: WorkerId)
    requires PhaseOf(s, w).CommitReady?
    ensures var phase := PhaseOf(s, w);
            CommitReturns(s, w, phase.c, phase.out, phase.created) == Return(s, w, phase)
  {
  }

  lemma RaiseKeepsInv(s: State, w: WorkerId, error: Error, effect: bool)
    requires SystemInv(s) && Enabled(s, Raise(w, error, effect))
    ensures var s' := RaiseAt(s, w, PhaseOf(s, w), error, effect);
            SystemInv(s') && RowsOk(s.db, s'.db)
  {
    hide SystemInv;
    hide TxOk;
    hide RowsOk;
    hide Return;
    hide RaiseAt;
    var phase := PhaseOf(s, w);
    var s' := RaiseAt(s, w, phase, error, effect);
    RaiseShape(s, w, error, effect);
    if effect && HasEffect(phase) {
      ReturnKeepsInv(s, w);
      ReturnKeepsClaim(s, w);
      QuietStepKeepsInv(Return(s, w, phase), s', w);
    } else {
      SameRows(s.db);
      QuietStepKeepsInv(s, s', w);
    }
  }

  lemma SameRows(db: Db)
    ensures RowsOk(db, db)
  {
  }

  lemma PublishKeepsInv(s: State, r: Shortcode, content: Bytes)
    requires SystemInv(s) && Enabled(s, Publish(r, content))
    ensures SystemInv(Apply(s, Publish(r, content)))
  {
    hide DbInv;
    var s' := Apply(s, Publish(r, content));
    assert Monotone(s.db, s'.db);
    forall q | q in s'.db.reels
      ensures SourceStored(s', q)
    {
      assert SourceStored(s, q);
    }
    forall q | q in s'.publishing
      ensures PublicationOk(s', q)
    {
      assert q != r ==> PublicationOk(s, q);
    }
    WorkersStay(s, s', None);
  }

  lemma WithdrawKeepsInv(s: State, r: Shortcode, deleted: bool)
    requires SystemInv(s) && Enabled(s, Withdraw(r, deleted))
    ensures SystemInv(Apply(s, Withdraw(r, deleted)))
  {
    hide DbInv;
    var s' := Apply(s, Withdraw(r, deleted));
    assert Monotone(s.db, s'.db);
    assert PublicationOk(s, r);
    forall q | q in s'.db.reels
      ensures SourceStored(s', q)
    {
      assert SourceStored(s, q);
    }
    forall q | q in s'.publishing
      ensures PublicationOk(s', q)
    {
      assert PublicationOk(s, q);
    }
    WorkersStay(s, s', None);
  }

  lemma CommitSourceMonotone(db: Db, r: Shortcode, content: Bytes)
    requires DbInv(db) && CommitSourceTx(db, r, content).Some?
    ensures var db' := CommitSourceTx(db, r, content).value;
            && Monotone(db, db')
            && (forall q :: q in db'.reels && q != r ==> q in db.reels && db'.reels[q] == db.reels[q])
  {
    hide DbInv;
    CommitSourceKeepsInv(db, r, content);
  }

  lemma CommitPublishedKeepsInv(s: State, r: Shortcode)
    requires SystemInv(s) && r in s.publishing
    ensures SystemInv(CommitPublished(s, r)) && Monotone(s.db, CommitPublished(s, r).db)
    ensures CommitSourceTx(s.db, r, s.publishing[r].content).Some?
  {
    hide DbInv;
    var s' := CommitPublished(s, r);
    assert PublicationOk(s, r);
    assert CommitSourceTx(s.db, r, s.publishing[r].content).Some?;
    CommitSourceKeepsInv(s.db, r, s.publishing[r].content);
    CommitSourceMonotone(s.db, r, s.publishing[r].content);
    forall q | q in s'.db.reels
      ensures SourceStored(s', q)
    {
      assert q != r ==> SourceStored(s, q);
    }
    forall q | q in s'.publishing
      ensures PublicationOk(s', q)
    {
      assert PublicationOk(s, q);
    }
    assert forall q :: ObjectsKeepSource(s, s', q);
    GoneIsForGood(s, s');
    WorkersStay(s, s', None);
  }

  lemma SweepSourceKeepsInv(s: State, r: Shortcode, ok: bool, effect: bool)
    requires SystemInv(s) && Enabled(s, SweepSource(r, ok, effect))
    ensures SystemInv(Apply(s, SweepSource(r, ok, effect)))
  {
    hide DbInv;
    SameTxOk(s.db);
    var s' := Apply(s, SweepSource(r, ok, effect));
    assert forall q :: ObjectsKeepSource(s, s', q);
    var mid := s'.(swept := s.swept);
    assert forall q :: ObjectsKeepSource(s, mid, q);
    SourcesStay(s, mid);
    WorkersStay(s, s', None);
    forall q | q in s'.swept
      ensures SourceGone(s', q)
    {
      assert q != r ==> SourceGone(s, q);
    }
    assert forall q :: q in s'.db.reels ==> SourceStored(mid, q);
    assert forall q :: q in s'.publishing ==> PublicationOk(mid, q);
  }

  lemma CleanStaleKeepsInv(s: State, j: JobId)
    requires SystemInv(s) && Enabled(s, CleanStale(j))
    ensures SystemInv(Apply(s, CleanStale(j)))
  {
    hide DbInv;
    SameTxOk(s.db);
    var s' := Apply(s, CleanStale(j));
    assert forall q :: ObjectsKeepSource(s, s', q);
    SourcesStay(s, s');
    WorkersStay(s, s', None);
  }

  /** Every action keeps the invariant and what no transaction undoes. */
  lemma StepKeepsInv(s: State, a: Action)
    requires SystemInv(s) && Enabled(s, a)
    ensures SystemInv(Apply(s, a)) && Monotone(s.db, Apply(s, a).db)
    ensures !a.CommitSource? ==> Legal(s.db, Apply(s, a).db)
  {
    hide SystemInv;
    hide DbInv;
    SameRows(s.db);
    DbOf(s);
    match a
    case Tick(_) =>
      SameTxOk(s.db);
      DbStepKeepsInv(s, Apply(s, a));
    case Publish(r, content) => PublishKeepsInv(s, r, content);
    case CommitSource(r) => CommitPublishedKeepsInv(s, r);
    case Withdraw(r, deleted) => WithdrawKeepsInv(s, r, deleted);
    case RecordFailure(r, reason) =>
      RecordFailureTxOk(s.db, r, reason);
      DbStepKeepsInv(s, Apply(s, a));
    case ClaimJob(w, j, leaseSeconds) => ClaimJobKeepsInv(s, w, j, leaseSeconds);
    case Proceed(w) => ReturnKeepsInv(s, w);
    case Produce(w, _) => QuietStepKeepsInv(s, Apply(s, a), w);
    case Raise(w, error, effect) => RaiseKeepsInv(s, w, error, effect);
    case StopBetween(w, _) => QuietStepKeepsInv(s, Apply(s, a), w);
    case Crash(w) => QuietStepKeepsInv(s, Apply(s, a), w);
    case Recover(j) =>
      RecoverTxOk(s.db, j);
      DbStepKeepsInv(s, Apply(s, a));
    case CleanStale(j) => CleanStaleKeepsInv(s, j);
    case SweepSource(r, ok, effect) => SweepSourceKeepsInv(s, r, ok, effect);
    case SweepClear(r) =>
      SweptIsGone(s, r);
      ClearKeepsInv(s, Apply(s, a), r, None);
  }

  lemma DbOf(s: State)
    requires SystemInv(s)
    ensures DbInv(s.db)
  {
  }

  lemma SweptIsGone(s: State, r: Shortcode)
    requires SystemInv(s) && r in s.swept
    ensures SourceGone(s, r)
  {
  }

  lemma InitialInv(s: State)
    requires Initial(s)
    ensures SystemInv(s)
  {
  }
}
