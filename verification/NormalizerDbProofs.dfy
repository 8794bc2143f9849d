/**
 Every transaction keeps the row invariant and assigns statuses only along the
 transition tables, although the worker itself never consults them.
 */
module NormalizerDbProofs {
  import opened Options
  import opened Transitions
  import opened NormalizerDb
  import opened NormalizerEffects

  /******* Legality *******/

  ghost predicate JobStatusesLegal(db: Db, db': Db) {
    && |db.jobs| <= |db'.jobs|
    && (forall j :: 0 <= j < |db.jobs| ==>
          || db'.jobs[j].status == db.jobs[j].status
          || TransitionAllowed(JobTransitions, db.jobs[j].status, db'.jobs[j].status))
    && (forall j :: |db.jobs| <= j < |db'.jobs| ==> db'.jobs[j].status.Pending?)
  }

  ghost predicate ReelStatusesLegal(db: Db, db': Db) {
    && db.reels.Keys <= db'.reels.Keys
    && (forall r :: r in db.reels ==>
          || db'.reels[r].status == db.reels[r].status
          || TransitionAllowed(ReelTransitions, db.reels[r].status, db'.reels[r].status))
  }

  ghost predicate Legal(db: Db, db': Db) {
    JobStatusesLegal(db, db') && ReelStatusesLegal(db, db')
  }

  /** Consecutive statuses of a path are allowed transitions. */
  predicate LegalPath(path: seq<ReelStatus>) {
    forall i :: 0 < i < |path| ==> TransitionAllowed(ReelTransitions, path[i - 1], path[i])
  }

  /******* The shared shape of the worker's transactions *******/

  /** One active job and its reel change, and at most one job for the same reel is appended. */
  ghost predicate MovesOnly(db: Db, db': Db, j: JobId) {
    && j < |db.jobs|
    && db.jobs[j].reel in db.reels
    && |db.jobs| <= |db'.jobs| <= |db.jobs| + 1
    && (forall i :: 0 <= i < |db.jobs| && i != j ==> db'.jobs[i] == db.jobs[i])
    && (forall i :: |db.jobs| <= i < |db'.jobs| ==> db'.jobs[i].reel == db.jobs[j].reel)
    && db'.jobs[j].reel == db.jobs[j].reel
    && db'.reels.Keys == db.reels.Keys
    && (forall r :: r in db.reels && r != db.jobs[j].reel ==> db'.reels[r] == db.reels[r])
    && db.videos.Keys <= db'.videos.Keys
  }

  lemma MoveKeepsInv(db: Db, db': Db, j: JobId)
    requires DbInv(db) && MovesOnly(db, db', j) && Active(db.jobs[j])
    requires JobOk(db', j) && ReelOk(db', db.jobs[j].reel)
    requires |db'.jobs| > |db.jobs| ==> JobOk(db', |db.jobs|) && !Active(db'.jobs[j])
    ensures DbInv(db')
  {
    var r := db.jobs[j].reel;
    forall i | 0 <= i < |db'.jobs|
      ensures JobOk(db', i)
    {
      if i < |db.jobs| && i != j {
        assert JobOk(db, i);
        assert Apart(db, i, j);
      }
    }
    forall i, k | 0 <= i < |db'.jobs| && 0 <= k < |db'.jobs| && i != k
      ensures Apart(db', i, k)
    {
      if i < |db.jobs| && k < |db.jobs| {
        assert Apart(db, i, k);
      } else if i < |db.jobs| && i != j {
        assert Apart(db, i, j);
      } else if k < |db.jobs| && k != j {
        assert Apart(db, k, j);
      }
    }
    forall q | q in db'.reels
      ensures ReelOk(db', q)
    {
      if q != r {
        assert ReelOk(db, q);
        OtherReelKeepsItsJob(db, db', j, q, Pending);
        OtherReelKeepsItsJob(db, db', j, q, Running);
      }
    }
  }

  lemma OtherReelKeepsItsJob(db: Db, db': Db, j: JobId, r: Shortcode, status: JobStatus)
    requires MovesOnly(db, db', j) && r != db.jobs[j].reel
    ensures HasJob(db, r, status) ==> HasJob(db', r, status)
  {
    if HasJob(db, r, status) {
      var i :| 0 <= i < |db.jobs| && db.jobs[i].reel == r && db.jobs[i].status == status;
      assert db'.jobs[i] == db.jobs[i];
    }
  }

  lemma JobRow(db: Db, j: JobId)
    requires DbInv(db) && j < |db.jobs|
    ensures JobOk(db, j)
  {
  }

  lemma ReelRow(db: Db, r: Shortcode)
    requires DbInv(db) && r in db.reels
    ensures ReelOk(db, r)
  {
  }

  lemma HasJobAt(db: Db, j: JobId)
    requires j < |db.jobs|
    ensures HasJob(db, db.jobs[j].reel, db.jobs[j].status)
  {
  }

  /******* One lemma per transaction *******/

  lemma ClaimKeepsInv(db: Db, j: JobId, w: WorkerId, lease: int)
    requires DbInv(db) && Claimable(db, j)
    ensures var (db', c) := ClaimTx(db, j, w, lease);
            && DbInv(db') && Legal(db, db')
            && c.Some? && c.value.job == j && c.value.reel == db.jobs[j].reel
            && c.value.source.key == SourceKey(c.value.reel)
            && c.value.attempt == db.jobs[j].attempts + 1
            && OwnedRunning(db', j, w)
  {
    hide DbInv;
    JobRow(db, j);
    var (db', c) := ClaimTx(db, j, w, lease);
    ReelRow(db, db.jobs[j].reel);
    HasJobAt(db', j);
    MoveKeepsInv(db, db', j);
  }

  lemma RecoverKeepsInv(db: Db, j: JobId)
    requires DbInv(db) && j < |db.jobs| && db.jobs[j].status.Running?
    ensures var db' := RecoverTx(db, j);
            DbInv(db') && Legal(db, db') && db'.jobs[j].status.JobFailed?
  {
    hide DbInv;
    JobRow(db, j);
    var db' := RecoverTx(db, j);
    ReelRow(db, db.jobs[j].reel);
    if |db'.jobs| > |db.jobs| {
      HasJobAt(db', |db.jobs|);
    }
    MoveKeepsInv(db, db', j);
  }

  lemma FailureKeepsInv(db: Db, c: Claim, w: WorkerId, reason: Reason, retryable: bool)
    requires DbInv(db) && c.job < |db.jobs| && db.jobs[c.job].reel == c.reel && OwnedRunning(db, c.job, w)
    ensures var db' := FinishFailureTx(db, c, w, reason, retryable);
            DbInv(db') && Legal(db, db') && db'.jobs[c.job].status.JobFailed?
  {
    hide DbInv;
    JobRow(db, c.job);
    var db' := FinishFailureTx(db, c, w, reason, retryable);
    ReelRow(db, c.reel);
    if |db'.jobs| > |db.jobs| {
      HasJobAt(db', |db.jobs|);
    }
    MoveKeepsInv(db, db', c.job);
  }

  /** The failure transaction writes exactly what a failure is to leave, for the job's owner and nobody else. */
  lemma FinishFailureKeepsInv(db: Db, c: Claim, w: WorkerId, reason: Reason, retryable: bool)
    requires DbInv(db) && c.job < |db.jobs| && db.jobs[c.job].reel == c.reel
    ensures var db' := FinishFailureTx(db, c, w, reason, retryable);
            && DbInv(db') && Legal(db, db')
            && c.reel in db.reels
            && (if db.jobs[c.job].status.Running? && db.jobs[c.job].worker == Some(w)
                then db'.jobs[c.job].status.JobFailed? && FailureWritten(db, db', c, reason, retryable)
                else db' == db)
  {
    FinishFailureEffect(db, c, w, reason, retryable);
    hide DbInv;
    hide FailureWritten;
    if OwnedRunning(db, c.job, w) {
      FailureKeepsInv(db, c, w, reason, retryable);
    }
    hide FinishFailureTx;
  }

  lemma CommitReadyKeepsInv(db: Db, c: Claim, w: WorkerId, output: Bytes)
    requires DbInv(db) && c.job < |db.jobs| && db.jobs[c.job].reel == c.reel
    ensures var result := CommitReadyTx(db, c, w, output);
            result.Committed? ==>
              && OwnedRunning(db, c.job, w)
              && DbInv(result.db) && Legal(db, result.db)
              && result.db.jobs[c.job].status.Completed?
              && result.db.reels[c.reel].status.Ready?
  {
    hide DbInv;
    var result := CommitReadyTx(db, c, w, output);
    if result.Committed? {
      JobRow(db, c.job);
      ReelRow(db, c.reel);
      MoveKeepsInv(db, result.db, c.job);
    }
  }

  lemma ClearCleanupKeepsInv(db: Db, r: Shortcode)
    requires DbInv(db)
    ensures DbInv(ClearCleanupTx(db, r)) && Legal(db, ClearCleanupTx(db, r))
    ensures DbInv(ReconcileClearTx(db, r)) && Legal(db, ReconcileClearTx(db, r))
  {
    ReelEditKeepsInv(db, ClearCleanupTx(db, r), r);
    ReelEditKeepsInv(db, ReconcileClearTx(db, r), r);
  }

  /** Clearing the cleanup flag of one reel touches nothing else. */
  lemma ReelEditKeepsInv(db: Db, db': Db, r: Shortcode)
    requires DbInv(db)
    requires db' == db || (r in db.reels && db' == db.(reels := db.reels[r := db.reels[r].(cleanupPending := false)]))
    ensures DbInv(db') && Legal(db, db')
  {
    forall j | 0 <= j < |db'.jobs|
      ensures JobOk(db', j)
    {
      assert JobOk(db, j);
    }
    forall q | q in db'.reels
      ensures ReelOk(db', q)
    {
      assert ReelOk(db, q);
      assert forall status :: HasJob(db, q, status) ==> HasJob(db', q, status);
    }
    ApartStays(db, db');
  }

  lemma CommitSourceKeepsInv(db: Db, r: Shortcode, content: Bytes)
    requires DbInv(db) && CommitSourceTx(db, r, content).Some?
    ensures var db' := CommitSourceTx(db, r, content).value;
            var path := SourceCommitPath(db, r).value;
            && DbInv(db') && JobStatusesLegal(db, db')
            && LegalPath(path)
            && path[0] == (if r in db.reels then db.reels[r].status else Discovered)
            && path[|path| - 1] == db'.reels[r].status
            && (forall q :: q in db.reels && q != r ==> q in db'.reels && db'.reels[q] == db.reels[q])
  {
    var db' := CommitSourceTx(db, r, content).value;
    forall j | 0 <= j < |db.jobs|
      ensures JobOk(db', j) && (Active(db.jobs[j]) ==> db.jobs[j].reel != r)
    {
      assert JobOk(db, j);
      assert db'.jobs[j] == db.jobs[j];
    }
    HasJobAt(db', |db.jobs|);
    forall i, k | 0 <= i < |db'.jobs| && 0 <= k < |db'.jobs| && i != k
      ensures Apart(db', i, k)
    {
      if i < |db.jobs| && k < |db.jobs| {
        assert Apart(db, i, k);
      }
    }
    forall q | q in db'.reels
      ensures ReelOk(db', q)
    {
      if q in db.reels {
        assert ReelOk(db, q);
      }
      if q != r {
        AppendKeepsJobs(db, db', q, Pending);
        AppendKeepsJobs(db, db', q, Running);
      }
    }
  }

  lemma AppendKeepsJobs(db: Db, db': Db, r: Shortcode, status: JobStatus)
    requires db.jobs <= db'.jobs
    ensures HasJob(db, r, status) ==> HasJob(db', r, status)
  {
    if HasJob(db, r, status) {
      var i :| 0 <= i < |db.jobs| && db.jobs[i].reel == r && db.jobs[i].status == status;
      assert db'.jobs[i] == db.jobs[i];
    }
  }

  lemma RecordFailureKeepsInv(db: Db, r: Shortcode, reason: Reason)
    requires DbInv(db)
    ensures var db' := RecordFailureTx(db, r, reason);
            && DbInv(db') && Legal(db, db')
            && (r !in db.reels ==> TransitionAllowed(ReelTransitions, Discovered, db'.reels[r].status))
            && (r in db.reels && Durable(db.reels[r].status) ==> db' == db)
  {
    var db' := RecordFailureTx(db, r, reason);
    if r in db.reels && db.reels[r].status != Discovered && db.reels[r].status != Downloading {
      assert db'.reels == db.reels;
    } else {
      forall j | 0 <= j < |db'.jobs|
        ensures JobOk(db', j)
      {
        assert JobOk(db, j);
      }
      forall q | q in db'.reels
        ensures ReelOk(db', q)
      {
        if q in db.reels {
          assert ReelOk(db, q);
        }
        AppendKeepsJobs(db, db', q, Pending);
        AppendKeepsJobs(db, db', q, Running);
      }
      ApartStays(db, db');
    }
  }

  lemma ApartStays(db: Db, db': Db)
    requires UniqueActive(db) && db'.jobs == db.jobs
    ensures UniqueActive(db')
  {
    forall i, k | 0 <= i < |db'.jobs| && 0 <= k < |db'.jobs| && i != k
      ensures Apart(db', i, k)
    {
      assert Apart(db, i, k);
    }
  }

  /******* What the invariant says *******/

  /** The ids of a reel's active jobs. */
  ghost function ActiveJobs(db: Db, r: Shortcode): set<JobId> {
    set j | 0 <= j < |db.jobs| && db.jobs[j].reel == r && Active(db.jobs[j])
  }

  /**
   SOURCE_READY is having exactly one active job, a pending one; NORMALIZING is
   having exactly one active job, a running one; any other reel has none.
   */
  lemma StatusIsActiveJob(db: Db, r: Shortcode)
    requires DbInv(db) && r in db.reels
    ensures db.reels[r].status.SourceReady? <==>
            exists j :: ActiveJobs(db, r) == {j} && j < |db.jobs| && db.jobs[j].status.Pending?
    ensures db.reels[r].status.Normalizing? <==>
            exists j :: ActiveJobs(db, r) == {j} && j < |db.jobs| && db.jobs[j].status.Running?
    ensures !db.reels[r].status.SourceReady? && !db.reels[r].status.Normalizing? <==> ActiveJobs(db, r) == {}
  {
    var active := ActiveJobs(db, r);
    forall j | j in active
      ensures active == {j}
    {
      forall i | i in active
        ensures i == j
      {
        assert i != j ==> Apart(db, i, j);
      }
    }
    forall j | j in active
      ensures db.jobs[j].status.Pending? ==> db.reels[r].status.SourceReady?
      ensures db.jobs[j].status.Running? ==> db.reels[r].status.Normalizing?
    {
      assert JobOk(db, j);
    }
    assert ReelOk(db, r);
    if db.reels[r].status.SourceReady? {
      var j :| 0 <= j < |db.jobs| && db.jobs[j].reel == r && db.jobs[j].status.Pending?;
      assert j in active;
    }
    if db.reels[r].status.Normalizing? {
      var j :| 0 <= j < |db.jobs| && db.jobs[j].reel == r && db.jobs[j].status.Running?;
      assert j in active;
    }
  }

  /** The branch of `claim` for an exhausted job is unreachable. */
  lemma ExhaustedBranchUnreachable(db: Db, j: JobId)
    requires DbInv(db) && Claimable(db, j)
    ensures db.jobs[j].attempts + 1 <= MAX_ATTEMPTS
  {
    assert JobOk(db, j);
  }
}
