/**
 What each transaction writes, row by row: when it goes through, the fields of
 the rows it leaves, and that no other row changes.
 */
module NormalizerEffects {
  import opened Options
  import opened Transitions
  import opened NormalizerDb

  /** Job j and its reel are as given, at most one job is appended, and every other row is as it was. */
  ghost predicate Writes(db: Db, db': Db, j: JobId, job: Job, reel: Reel, appended: seq<Job>)
    requires j < |db.jobs|
  {
    && |db'.jobs| == |db.jobs| + |appended|
    && db'.jobs[j] == job
    && (forall i :: 0 <= i < |db.jobs| && i != j ==> db'.jobs[i] == db.jobs[i])
    && (forall i :: 0 <= i < |appended| ==> db'.jobs[|db.jobs| + i] == appended[i])
    && db'.reels.Keys == db.reels.Keys
    && db.jobs[j].reel in db.reels && db'.reels[db.jobs[j].reel] == reel
    && (forall r :: r in db.reels && r != db.jobs[j].reel ==> db'.reels[r] == db.reels[r])
  }

  /******* Claim *******/

  /** The job runs for `w` on its next attempt, under a lease, and its reel is normalizing. */
  ghost predicate ClaimWritten(db: Db, db': Db, j: JobId, w: WorkerId, leaseUntil: int)
    requires j < |db.jobs|
  {
    var job := db.jobs[j];
    && job.reel in db.reels && db'.videos == db.videos
    && var reel := db.reels[job.reel];
       Writes(db, db', j,
              Job(job.reel, Running, job.attempts + 1, job.reason, Some(w), Some(leaseUntil), Some(job.attempts + 1)),
              Reel(Normalizing, reel.source, reel.video, reel.cleanupPending, reel.reason), [])
  }

  /** What the worker is handed: its job's next attempt and the reel's recorded source. */
  ghost predicate ClaimHanded(db: Db, c: Claim) {
    && c.job < |db.jobs| && c.reel == db.jobs[c.job].reel && c.attempt == db.jobs[c.job].attempts + 1
    && c.reel in db.reels && db.reels[c.reel].source == Some(c.source)
  }

  /** A claim goes through for exactly the pending jobs, and hands it out. */
  lemma ClaimEffect(db: Db, j: JobId, w: WorkerId, leaseUntil: int)
    requires DbInv(db) && j < |db.jobs|
    ensures Claimable(db, j) <==> db.jobs[j].status.Pending?
    ensures db.jobs[j].status.Pending? ==>
              var (db', claimed) := ClaimTx(db, j, w, leaseUntil);
              && ClaimWritten(db, db', j, w, leaseUntil)
              && claimed.Some? && claimed.value.job == j && ClaimHanded(db, claimed.value)
  {
    assert JobOk(db, j) && ReelOk(db, db.jobs[j].reel);
  }

  /******* Failure *******/

  /**
   The job is closed with the reason. A retryable failure with attempts left
   puts the reel back with one fresh pending job that has used as many; any
   other fails the reel, as exhausted if it was retryable.
   */
  ghost predicate FailureWritten(db: Db, db': Db, c: Claim, reason: Reason, retryable: bool)
    requires c.job < |db.jobs| && c.reel in db.reels
  {
    var job, reel := db.jobs[c.job], db.reels[c.reel];
    var again := retryable && job.attempts < 3;
    && job.reel == c.reel
    && Writes(db, db', c.job,
              Job(job.reel, JobFailed, job.attempts, Some(reason), None, None, job.stagingAttempt),
              Reel(if again then SourceReady else ReelFailed, reel.source, reel.video, reel.cleanupPending,
                   Some(if !again && retryable then RetryExhausted else reason)),
              if again then [Job(c.reel, Pending, job.attempts, None, None, None, None)] else [])
    && db'.videos == db.videos
  }

  lemma FinishFailureEffect(db: Db, c: Claim, w: WorkerId, reason: Reason, retryable: bool)
    requires DbInv(db) && c.job < |db.jobs| && db.jobs[c.job].reel == c.reel
    ensures c.reel in db.reels
    ensures var db' := FinishFailureTx(db, c, w, reason, retryable);
            if db.jobs[c.job].status.Running? && db.jobs[c.job].worker == Some(w) then FailureWritten(db, db', c, reason, retryable)
            else db' == db
  {
    assert JobOk(db, c.job);
  }

  /** A recovered job: like a retryable failure for a stale lease, except for the reason a requeued reel keeps. */
  ghost predicate RecoveryWritten(db: Db, db': Db, j: JobId)
    requires j < |db.jobs|
  {
    var job := db.jobs[j];
    && job.reel in db.reels && db'.videos == db.videos
    && var reel, again := db.reels[job.reel], job.attempts < 3;
       Writes(db, db', j,
              Job(job.reel, JobFailed, job.attempts, Some(StaleLeaseRecovered), None, None, job.stagingAttempt),
              Reel(if again then SourceReady else ReelFailed, reel.source, reel.video, reel.cleanupPending,
                   if again then reel.reason else Some(RetryExhausted)),
              if again then [Job(job.reel, Pending, job.attempts, None, None, None, None)] else [])
  }

  lemma RecoverEffect(db: Db, j: JobId)
    requires j < |db.jobs| && db.jobs[j].reel in db.reels
    ensures RecoveryWritten(db, RecoverTx(db, j), j)
  {
  }

  /******* READY *******/

  /** The video row the output would insert or reuse does not contradict it, and no other reel has it. */
  ghost predicate VideoFits(db: Db, output: Bytes) {
    var key := FinalKey(Sha256(output));
    key in db.videos ==>
      && (db.videos[key].sha.None? || db.videos[key].sha == Some(Sha256(output)))
      && db.videos[key].size == |output|
  }

  ghost predicate VideoTaken(db: Db, r: Shortcode, output: Bytes) {
    exists q :: q in db.reels && q != r && db.reels[q].video == Some(FinalKey(Sha256(output)))
  }

  /** Job completed, reel READY with its video and its source marked for cleanup, and the video's row there. */
  ghost predicate ReadyWritten(db: Db, db': Db, c: Claim, output: Bytes)
    requires c.job < |db.jobs| && c.reel in db.reels
  {
    var job, reel, key := db.jobs[c.job], db.reels[c.reel], FinalKey(Sha256(output));
    && job.reel == c.reel
    && Writes(db, db', c.job,
              Job(job.reel, Completed, job.attempts, None, None, None, job.stagingAttempt),
              Reel(Ready, reel.source, Some(key), true, None), [])
    && db'.videos == if key in db.videos then db.videos else db.videos[key := Video(Some(Sha256(output)), |output|)]
  }

  /** The commit's four outcomes, each exactly when. */
  lemma CommitReadyEffect(db: Db, c: Claim, w: WorkerId, output: Bytes)
    requires DbInv(db) && c.job < |db.jobs| && db.jobs[c.job].reel == c.reel
    ensures c.reel in db.reels
    ensures var result := CommitReadyTx(db, c, w, output);
            if !(db.jobs[c.job].status.Running? && db.jobs[c.job].worker == Some(w)) then result == NotOwner
            else if !VideoFits(db, output) then result == Conflict
            else if VideoTaken(db, c.reel, output) then result == IntegrityError
            else result.Committed? && ReadyWritten(db, result.db, c, output)
  {
    assert JobOk(db, c.job);
  }

  /******* The collector's rows *******/

  /** The reel is SOURCE_READY with exactly this source and one fresh pending job; no other row changes. */
  ghost predicate SourceWritten(db: Db, db': Db, r: Shortcode, content: Bytes) {
    && db'.jobs == db.jobs + [Job(r, Pending, 0, None, None, None, None)]
    && db'.reels.Keys == db.reels.Keys + {r}
    && (forall q :: q in db.reels && q != r ==> db'.reels[q] == db.reels[q])
    && db'.reels[r] == Reel(SourceReady, Some(Source(SourceKey(r), Sha256(content), |content|)),
                            if r in db.reels then db.reels[r].video else None,
                            if r in db.reels then db.reels[r].cleanupPending else false, None)
    && db'.videos == db.videos
  }

  /** A source is committed for exactly the reels that are not durable yet, a failed one included. */
  lemma CommitSourceEffect(db: Db, r: Shortcode, content: Bytes)
    ensures CommitSourceTx(db, r, content).Some? <==>
            (r in db.reels ==> db.reels[r].status in {Discovered, Downloading, ReelFailed})
    ensures CommitSourceTx(db, r, content).Some? ==> SourceWritten(db, CommitSourceTx(db, r, content).value, r, content)
  {
  }

  /** An early or new reel fails with the reason; any other row is as it was. */
  lemma RecordFailureEffect(db: Db, r: Shortcode, reason: Reason)
    ensures var db' := RecordFailureTx(db, r, reason);
            && db'.jobs == db.jobs && db'.videos == db.videos
            && db'.reels.Keys == db.reels.Keys + {r}
            && (forall q :: q in db.reels && q != r ==> db'.reels[q] == db.reels[q])
            && db'.reels[r] == (if r !in db.reels then Reel(ReelFailed, None, None, false, Some(reason))
                                else if db.reels[r].status in {Discovered, Downloading} then
                                  Reel(ReelFailed, db.reels[r].source, db.reels[r].video, db.reels[r].cleanupPending, Some(reason))
                                else db.reels[r])
  {
  }

  /** Both clearing transactions leave the flag of a READY reel false and touch nothing else. */
  lemma ClearEffect(db: Db, r: Shortcode)
    requires DbInv(db) && r in db.reels && db.reels[r].status.Ready?
    ensures var cleared := db.(reels := db.reels[r := Reel(Ready, db.reels[r].source, db.reels[r].video, false, db.reels[r].reason)]);
            ClearCleanupTx(db, r) == cleared == ReconcileClearTx(db, r)
  {
    if !db.reels[r].cleanupPending {
      assert db.reels[r := db.reels[r].(cleanupPending := false)] == db.reels;
    }
  }
}
