/**
 The worker's transactions in the form the worker has them: rows of a database
 assigned field by field. Each method is proved against its transaction
 function and keeps the row invariant.
 */
module NormalizerStore {
  import opened Options
  import opened Transitions
  import opened NormalizerDb
  import opened NormalizerDbProofs
  import opened NormalizerEffects

  /******* What reconcile does to all the rows it selected *******/

  /** The unlocked stale jobs among the first n, in id order. */
  function StaleJobs(db: Db, now: int, locked: set<JobId>, n: nat): (stale: seq<JobId>)
    requires n <= |db.jobs|
    ensures forall j :: j in stale <==> 0 <= j < n && j !in locked && Stale(db.jobs[j], now)
    ensures forall i :: 0 <= i < |stale| ==> stale[i] < n
    ensures forall i, k :: 0 <= i < k < |stale| ==> stale[i] < stale[k]
  {
    if n == 0 then []
    else
      var before := StaleJobs(db, now, locked, n - 1);
      if n - 1 !in locked && Stale(db.jobs[n - 1], now) then before + [n - 1] else before
  }

  lemma StaleAreRunning(db: Db, now: int, locked: set<JobId>)
    ensures RunningJobs(db, StaleJobs(db, now, locked, |db.jobs|))
  {
    var stale := StaleJobs(db, now, locked, |db.jobs|);
    forall i | 0 <= i < |stale|
      ensures db.jobs[stale[i]].status.Running?
    {
      assert stale[i] in stale;
    }
  }

  /** `todo` lists running rows in id order. */
  ghost predicate RunningJobs(db: Db, todo: seq<JobId>) {
    && (forall i :: 0 <= i < |todo| ==> todo[i] < |db.jobs| && db.jobs[todo[i]].status.Running?)
    && (forall i, k :: 0 <= i < k < |todo| ==> todo[i] < todo[k])
  }

  /** The rows after the reconcile loop has handled the first n jobs of `todo`. */
  ghost function RecoverFirst(db: Db, todo: seq<JobId>, n: nat): (db': Db)
    requires RunningJobs(db, todo) && n <= |todo|
    ensures |db'.jobs| >= |db.jobs|
  {
    if n == 0 then db else RecoverTx(RecoverFirst(db, todo, n - 1), todo[n - 1])
  }

  /** What becomes of one recovered job: it is closed for good, and its reel is requeued or failed. */
  ghost predicate Recovered(db: Db, db': Db, j: JobId)
    requires j < |db.jobs| <= |db'.jobs|
  {
    var job := db.jobs[j];
    && db'.jobs[j] == ClosedJob(job, JobFailed, Some(StaleLeaseRecovered))
    && job.reel in db'.reels
    && (if job.attempts < MAX_ATTEMPTS then
          && db'.reels[job.reel].status.SourceReady?
          && Requeued(db, db', job)
        else
          && db'.reels[job.reel].status.ReelFailed?
          && db'.reels[job.reel].reason == Some(RetryExhausted))
  }

  /** A fresh pending job carries on with the attempts already used. */
  ghost predicate Requeued(db: Db, db': Db, job: Job) {
    exists k :: |db.jobs| <= k < |db'.jobs| && db'.jobs[k] == NewJob(job.reel, job.attempts)
  }

  ghost predicate Among(todo: seq<JobId>, n: nat, j: JobId)
    requires n <= |todo|
  {
    exists i :: 0 <= i < n && todo[i] == j
  }

  /** Rows after recovering the first n of `todo`, compared with the rows before. */
  ghost predicate RecoveredExactly(db: Db, db': Db, todo: seq<JobId>, n: nat)
    requires RunningJobs(db, todo) && n <= |todo|
  {
    && |db'.jobs| >= |db.jobs|
    && (forall i :: 0 <= i < n ==> Recovered(db, db', todo[i]))
    && (forall j :: 0 <= j < |db.jobs| && !Among(todo, n, j) ==> db'.jobs[j] == db.jobs[j])
    && (forall j :: |db.jobs| <= j < |db'.jobs| ==> db'.jobs[j].status.Pending?)
    && db'.reels.Keys == db.reels.Keys
    && (forall r :: r in db.reels && !ReelAmong(db, todo, n, r) ==> db'.reels[r] == db.reels[r])
    && db'.videos == db.videos
  }

  ghost predicate ReelAmong(db: Db, todo: seq<JobId>, n: nat, r: Shortcode)
    requires RunningJobs(db, todo) && n <= |todo|
  {
    exists i :: 0 <= i < n && db.jobs[todo[i]].reel == r
  }

  lemma RecoverOneShape(mid: Db, j: JobId)
    requires j < |mid.jobs| && mid.jobs[j].reel in mid.reels
    ensures var db' := RecoverTx(mid, j);
            && |db'.jobs| >= |mid.jobs| && Recovered(mid, db', j)
            && (forall i :: 0 <= i < |mid.jobs| && i != j ==> db'.jobs[i] == mid.jobs[i])
            && (forall i :: |mid.jobs| <= i < |db'.jobs| ==> db'.jobs[i].status.Pending?)
            && db'.reels.Keys == mid.reels.Keys && db'.videos == mid.videos
            && (forall r :: r in mid.reels && r != mid.jobs[j].reel ==> db'.reels[r] == mid.reels[r])
  {
    var db' := RecoverTx(mid, j);
    if mid.jobs[j].attempts < MAX_ATTEMPTS {
      assert db'.jobs[|mid.jobs|] == NewJob(mid.jobs[j].reel, mid.jobs[j].attempts);
    }
  }

  /** Rows of distinct running jobs with distinct, existing reels. */
  ghost predicate SeparateReels(db: Db, todo: seq<JobId>)
    requires RunningJobs(db, todo)
  {
    && (forall i :: 0 <= i < |todo| ==>
          && db.jobs[todo[i]].reel in db.reels
          && db.jobs[todo[i]].stagingAttempt == Some(db.jobs[todo[i]].attempts))
    && (forall i, k :: 0 <= i < k < |todo| ==> db.jobs[todo[i]].reel != db.jobs[todo[k]].reel)
  }

  lemma {:induction false} RecoverFirstExact(db: Db, todo: seq<JobId>, n: nat)
    requires RunningJobs(db, todo) && n <= |todo| && SeparateReels(db, todo)
    ensures RecoveredExactly(db, RecoverFirst(db, todo, n), todo, n)
  {
    hide RecoveredExactly;
    hide Recovered;
    hide RecoverTx;
    if n == 0 {
      NoneRecovered(db, todo);
    } else {
      RecoverFirstExact(db, todo, n - 1);
      var mid := RecoverFirst(db, todo, n - 1);
      MidRow(db, mid, todo, n);
      RecoverOneShape(mid, todo[n - 1]);
      OneMoreRecovered(db, mid, RecoverTx(mid, todo[n - 1]), todo, n);
    }
  }

  lemma NoneRecovered(db: Db, todo: seq<JobId>)
    requires RunningJobs(db, todo)
    ensures RecoveredExactly(db, db, todo, 0)
  {
  }

  lemma MidRow(db: Db, mid: Db, todo: seq<JobId>, n: nat)
    requires RunningJobs(db, todo) && 0 < n <= |todo| && SeparateReels(db, todo) && RecoveredExactly(db, mid, todo, n - 1)
    ensures todo[n - 1] < |mid.jobs| && mid.jobs[todo[n - 1]] == db.jobs[todo[n - 1]]
    ensures mid.jobs[todo[n - 1]].reel in mid.reels
  {
    hide Recovered;
    assert !Among(todo, n - 1, todo[n - 1]);
  }

  lemma OneMoreRecovered(db: Db, mid: Db, db': Db, todo: seq<JobId>, n: nat)
    requires RunningJobs(db, todo) && 0 < n <= |todo| && SeparateReels(db, todo) && RecoveredExactly(db, mid, todo, n - 1)
    requires |db'.jobs| >= |mid.jobs| && db' == RecoverTx(mid, todo[n - 1]) && Recovered(mid, db', todo[n - 1])
    requires forall i :: 0 <= i < |mid.jobs| && i != todo[n - 1] ==> db'.jobs[i] == mid.jobs[i]
    requires forall i :: |mid.jobs| <= i < |db'.jobs| ==> db'.jobs[i].status.Pending?
    requires db'.reels.Keys == mid.reels.Keys && db'.videos == mid.videos
    requires forall r :: r in mid.reels && r != mid.jobs[todo[n - 1]].reel ==> db'.reels[r] == mid.reels[r]
    ensures RecoveredExactly(db, db', todo, n)
  {
    MidRow(db, mid, todo, n);
    hide Among;
    hide ReelAmong;
    hide SeparateReels;
    hide Recovered;
    hide RecoverTx;
    RecoveredSoFar(db, mid, todo, n);
    JobsLeftAlone(db, mid, db', todo, n);
    ReelsLeftAlone(db, mid, db', todo, n);
    AppendedPending(db, mid, db', todo, n);
  }

  lemma AppendedPending(db: Db, mid: Db, db': Db, todo: seq<JobId>, n: nat)
    requires RunningJobs(db, todo) && 0 < n <= |todo| && RecoveredExactly(db, mid, todo, n - 1) && |db'.jobs| >= |mid.jobs|
    requires forall i :: 0 <= i < |mid.jobs| && i != todo[n - 1] ==> db'.jobs[i] == mid.jobs[i]
    requires forall i :: |mid.jobs| <= i < |db'.jobs| ==> db'.jobs[i].status.Pending?
    ensures forall i :: |db.jobs| <= i < |db'.jobs| ==> db'.jobs[i].status.Pending?
  {
    hide Recovered;
    hide Among;
    hide ReelAmong;
  }

  lemma RecoveredSoFar(db: Db, mid: Db, todo: seq<JobId>, n: nat)
    requires RunningJobs(db, todo) && 0 < n <= |todo| && SeparateReels(db, todo) && RecoveredExactly(db, mid, todo, n - 1)
    requires todo[n - 1] < |mid.jobs| <= |RecoverTx(mid, todo[n - 1]).jobs|
    requires Recovered(mid, RecoverTx(mid, todo[n - 1]), todo[n - 1])
    ensures |db.jobs| <= |RecoverTx(mid, todo[n - 1]).jobs|
    ensures forall i :: 0 <= i < n ==> Recovered(db, RecoverTx(mid, todo[n - 1]), todo[i])
  {
    hide Recovered;
    hide RecoverTx;
    var j := todo[n - 1];
    assert !Among(todo, n - 1, j);
    forall i | 0 <= i < n
      ensures Recovered(db, RecoverTx(mid, j), todo[i])
    {
      if i < n - 1 {
        RecoveredStays(db, mid, todo[i], j);
      } else {
        RecoveredLater(db, mid, j);
      }
    }
  }

  lemma JobsLeftAlone(db: Db, mid: Db, db': Db, todo: seq<JobId>, n: nat)
    requires RunningJobs(db, todo) && 0 < n <= |todo| && RecoveredExactly(db, mid, todo, n - 1) && |db'.jobs| >= |mid.jobs|
    requires forall i :: 0 <= i < |mid.jobs| && i != todo[n - 1] ==> db'.jobs[i] == mid.jobs[i]
    ensures forall j :: 0 <= j < |db.jobs| && !Among(todo, n, j) ==> db'.jobs[j] == db.jobs[j]
  {
    hide Recovered;
    hide ReelAmong;
    forall i | 0 <= i < |db.jobs| && !Among(todo, n, i)
      ensures db'.jobs[i] == db.jobs[i]
    {
      assert !Among(todo, n - 1, i) && i != todo[n - 1];
    }
  }

  lemma ReelsLeftAlone(db: Db, mid: Db, db': Db, todo: seq<JobId>, n: nat)
    requires RunningJobs(db, todo) && 0 < n <= |todo| && RecoveredExactly(db, mid, todo, n - 1)
    requires forall r :: r in mid.reels && r != db.jobs[todo[n - 1]].reel ==> r in db'.reels && db'.reels[r] == mid.reels[r]
    requires db'.reels.Keys == mid.reels.Keys
    ensures forall r :: r in db.reels && !ReelAmong(db, todo, n, r) ==> db'.reels[r] == db.reels[r]
  {
    hide Recovered;
    hide Among;
    forall r | r in db.reels && !ReelAmong(db, todo, n, r)
      ensures db'.reels[r] == db.reels[r]
    {
      assert !ReelAmong(db, todo, n - 1, r) && r != db.jobs[todo[n - 1]].reel;
    }
  }

  lemma {:induction false} RecoverFirstKeepsInv(db: Db, todo: seq<JobId>, n: nat)
    requires DbInv(db) && RunningJobs(db, todo) && n <= |todo|
    ensures DbInv(RecoverFirst(db, todo, n))
  {
    if n > 0 {
      RecoverFirstKeepsInv(db, todo, n - 1);
      NextRow(db, todo, n - 1);
      RecoverKeepsInv(RecoverFirst(db, todo, n - 1), todo[n - 1]);
    }
  }

  lemma RunningReels(db: Db, todo: seq<JobId>)
    requires DbInv(db) && RunningJobs(db, todo)
    ensures SeparateReels(db, todo)
  {
    forall i | 0 <= i < |todo|
      ensures && db.jobs[todo[i]].reel in db.reels
              && db.jobs[todo[i]].stagingAttempt == Some(db.jobs[todo[i]].attempts)
    {
      assert JobOk(db, todo[i]);
    }
    forall i, k | 0 <= i < k < |todo|
      ensures db.jobs[todo[i]].reel != db.jobs[todo[k]].reel
    {
      assert Apart(db, todo[i], todo[k]);
    }
  }

  /** The row the loop meets next is still as it was selected. */
  lemma NextRow(db: Db, todo: seq<JobId>, n: nat)
    requires DbInv(db) && RunningJobs(db, todo) && n < |todo|
    ensures var mid := RecoverFirst(db, todo, n);
            && mid.jobs[todo[n]] == db.jobs[todo[n]]
            && db.jobs[todo[n]].reel in mid.reels
            && db.jobs[todo[n]].stagingAttempt == Some(db.jobs[todo[n]].attempts)
  {
    RunningReels(db, todo);
    RecoverFirstExact(db, todo, n);
    assert !Among(todo, n, todo[n]);
  }

  lemma RecoveredStays(db: Db, mid: Db, i: JobId, j: JobId)
    requires i < |db.jobs| <= |mid.jobs| && j < |db.jobs| && i != j
    requires Recovered(db, mid, i) && mid.jobs[j] == db.jobs[j] && db.jobs[i].reel != db.jobs[j].reel
    ensures Recovered(db, RecoverTx(mid, j), i)
  {
    var db' := RecoverTx(mid, j);
    if db.jobs[i].attempts < MAX_ATTEMPTS {
      var k :| |db.jobs| <= k < |mid.jobs| && mid.jobs[k] == NewJob(db.jobs[i].reel, db.jobs[i].attempts);
      assert db'.jobs[k] == mid.jobs[k];
    }
  }

  lemma RecoveredLater(db: Db, mid: Db, j: JobId)
    requires j < |db.jobs| <= |mid.jobs| && mid.jobs[j] == db.jobs[j] && Recovered(mid, RecoverTx(mid, j), j)
    ensures Recovered(db, RecoverTx(mid, j), j)
  {
    var db' := RecoverTx(mid, j);
    if db.jobs[j].attempts < MAX_ATTEMPTS {
      assert db'.jobs[|mid.jobs|] == NewJob(db.jobs[j].reel, db.jobs[j].attempts);
    }
  }

  lemma PendingAreClaimable(db: Db)
    requires DbInv(db)
    ensures forall j :: 0 <= j < |db.jobs| ==> (Claimable(db, j) <==> db.jobs[j].status.Pending?)
  {
    forall j | 0 <= j < |db.jobs|
      ensures Claimable(db, j) <==> db.jobs[j].status.Pending?
    {
      ClaimEffect(db, j, 0, 0);
    }
  }

  /******* The store *******/

  class Store {
    var jobs: seq<Job>
    var reels: map<Shortcode, Reel>
    var videos: map<ObjectKey, Video>

    function Rows(): Db
      reads this
    {
      Db(jobs, reels, videos)
    }

    constructor (seeded: map<ObjectKey, Video>)
      ensures DbInv(Rows()) && Rows() == Db([], map[], seeded)
    {
      jobs, reels, videos := [], map[], seeded;
    }

    /** A pending job of a SOURCE_READY reel. */
    predicate Waiting(j: JobId)
      reads this
    {
      j < |jobs| && jobs[j].status == Pending && jobs[j].reel in reels && reels[jobs[j].reel].status == SourceReady
    }

    lemma WaitingIsClaimable()
      ensures forall j :: 0 <= j < |jobs| ==> (Waiting(j) <==> Claimable(Rows(), j))
    {
    }

    /** The SELECT of `claim`: the oldest such job that `skip_locked` does not pass over. */
    method SelectClaimable(locked: set<JobId>) returns (selected: Option<JobId>)
      ensures selected.None? ==> forall i :: 0 <= i < |jobs| && i !in locked ==> !Waiting(i)
      ensures selected.Some? ==>
                && Waiting(selected.value) && selected.value !in locked
                && (forall i :: 0 <= i < selected.value && i !in locked ==> !Waiting(i))
    {
      for j := 0 to |jobs|
        invariant forall i :: 0 <= i < j && i !in locked ==> !Waiting(i)
      {
        if j !in locked && Claimable(Rows(), j) {
          return Some(j);
        }
      }
      selected := None;
    }

    /** Claims the oldest pending job whose rows no other transaction has locked. */
    method Claim(w: WorkerId, now: int, leaseSeconds: nat, locked: set<JobId>) returns (claimed: Option<Claim>)
      requires DbInv(Rows())
      modifies this
      ensures DbInv(Rows()) && Legal(old(Rows()), Rows())
      ensures claimed.None? <==> forall i :: 0 <= i < |old(jobs)| && i !in locked ==> !old(jobs)[i].status.Pending?
      ensures claimed.None? ==> Rows() == old(Rows())
      ensures claimed.Some? ==>
                var j := claimed.value.job;
                && j < |old(jobs)| && j !in locked && old(jobs)[j].status.Pending?
                && (forall i :: 0 <= i < j && i !in locked ==> !old(jobs)[i].status.Pending?)
                && Claimable(old(Rows()), j) && (Rows(), claimed) == ClaimTx(old(Rows()), j, w, now + leaseSeconds)
                && ClaimHanded(old(Rows()), claimed.value)
                && ClaimWritten(old(Rows()), Rows(), j, w, now + leaseSeconds)
    {
      PendingAreClaimable(Rows());
      hide DbInv;
      hide Legal;
      hide ClaimWritten;
      hide ClaimHanded;
      hide ClaimTx;
      hide Claimable;
      WaitingIsClaimable();
      var selected := SelectClaimable(locked);
      if selected.None? {
        return None;
      }
      claimed := ClaimRow(selected.value, w, now + leaseSeconds);
    }

    method ClaimRow(j: JobId, w: WorkerId, leaseUntil: int) returns (claimed: Option<Claim>)
      requires DbInv(Rows()) && Claimable(Rows(), j)
      modifies this
      ensures DbInv(Rows()) && Legal(old(Rows()), Rows())
      ensures claimed.Some? && claimed.value.job == j
      ensures (Rows(), claimed) == ClaimTx(old(Rows()), j, w, leaseUntil)
      ensures ClaimHanded(old(Rows()), claimed.value)
      ensures ClaimWritten(old(Rows()), Rows(), j, w, leaseUntil)
    {
      ClaimKeepsInv(Rows(), j, w, leaseUntil);
      ClaimEffect(Rows(), j, w, leaseUntil);
      hide DbInv;
      hide Legal;
      hide ClaimWritten;
      var job, reel := jobs[j], reels[jobs[j].reel];
      var nextAttempt := job.attempts + 1;
      if nextAttempt > MAX_ATTEMPTS {
        assert false;  // see ExhaustedBranchUnreachable
      }
      jobs := jobs[j := job.(status := Running, attempts := nextAttempt, worker := Some(w),
                             lease := Some(leaseUntil), stagingAttempt := Some(nextAttempt))];
      reels := reels[job.reel := reel.(status := Normalizing)];
      claimed := Some(NormalizerDb.Claim(j, job.reel, reel.source.value, nextAttempt));
    }

    /** The body of the reconcile loop. */
    method RecoverOne(j: JobId) returns (prefix: Option<ObjectKey>)
      requires j < |jobs| && jobs[j].reel in reels
      modifies this
      ensures Rows() == RecoverTx(old(Rows()), j) && RecoveryWritten(old(Rows()), Rows(), j)
      ensures prefix == match old(jobs)[j].stagingAttempt
                        case None => None
                        case Some(attempt) => Some(StagingKey(j, attempt))
    {
      RecoverEffect(Rows(), j);
      hide RecoveryWritten;
      var job := jobs[j];
      var reel := reels[job.reel];
      prefix := if job.stagingAttempt.Some? then Some(StagingKey(j, job.stagingAttempt.value)) else None;
      jobs := jobs[j := job.(status := JobFailed, reason := Some(StaleLeaseRecovered), lease := None, worker := None)];
      if job.attempts < MAX_ATTEMPTS {
        reels := reels[job.reel := reel.(status := SourceReady)];
        jobs := jobs + [NewJob(job.reel, job.attempts)];
      } else {
        reels := reels[job.reel := reel.(status := ReelFailed, reason := Some(RetryExhausted))];
      }
    }

    /** The reconcile loop over the rows it selected. */
    method RecoverAll(stale: seq<JobId>) returns (stalePrefixes: seq<ObjectKey>)
      requires DbInv(Rows()) && RunningJobs(Rows(), stale)
      modifies this
      ensures Rows() == RecoverFirst(old(Rows()), stale, |stale|)
      ensures |stalePrefixes| == |stale|
      ensures forall i :: 0 <= i < |stale| ==> stalePrefixes[i] == StagingKey(stale[i], old(jobs)[stale[i]].attempts)
    {
      hide DbInv;
      hide RecoverTx;
      hide RecoveryWritten;
      ghost var before := Rows();
      stalePrefixes := [];
      for i := 0 to |stale|
        invariant |stalePrefixes| == i
        invariant Rows() == RecoverFirst(before, stale, i)
        invariant forall k :: 0 <= k < i ==> stalePrefixes[k] == StagingKey(stale[k], before.jobs[stale[k]].attempts)
      {
        NextRow(before, stale, i);
        var prefix := RecoverOne(stale[i]);
        if prefix.Some? {
          stalePrefixes := stalePrefixes + [prefix.value];
        }
      }
    }

    /** The reconcile transaction: every unlocked job whose lease ran out is closed for good. */
    method Reconcile(now: int, locked: set<JobId>) returns (recovered: nat, stalePrefixes: seq<ObjectKey>)
      requires DbInv(Rows())
      modifies this
      ensures DbInv(Rows())
      ensures var stale := StaleJobs(old(Rows()), now, locked, |old(jobs)|);
              && RunningJobs(old(Rows()), stale)
              && Rows() == RecoverFirst(old(Rows()), stale, |stale|)
              && RecoveredExactly(old(Rows()), Rows(), stale, |stale|)
              && (forall j :: j in stale <==>
                    && 0 <= j < |old(jobs)| && j !in locked && old(jobs)[j].status.Running?
                    && old(jobs)[j].lease.Some? && old(jobs)[j].lease.value < now)
              && recovered == |stale| == |stalePrefixes|
              && (forall i :: 0 <= i < |stale| ==>
                    stalePrefixes[i] == StagingKey(stale[i], old(jobs)[stale[i]].attempts))
    {
      hide DbInv;
      hide RecoverTx;
      hide RecoveredExactly;
      ghost var before := Rows();
      var stale := StaleJobs(Rows(), now, locked, |jobs|);
      assert forall j :: j in stale <==> 0 <= j < |jobs| && j !in locked && Stale(jobs[j], now);
      StaleAreRunning(before, now, locked);
      hide StaleJobs;
      stalePrefixes := RecoverAll(stale);
      recovered := |stale|;
      RunningReels(before, stale);
      RecoverFirstExact(before, stale, recovered);
      RecoverFirstKeepsInv(before, stale, recovered);
    }

    /** `_commit_ready`; a result other than Committed is an exception that rolled the transaction back. */
    method CommitReady(c: Claim, w: WorkerId, output: Bytes) returns (result: CommitResult)
      requires DbInv(Rows()) && c.job < |jobs| && jobs[c.job].reel == c.reel
      modifies this
      ensures result == CommitReadyTx(old(Rows()), c, w, output)
      ensures Rows() == if result.Committed? then result.db else old(Rows())
      ensures DbInv(Rows()) && Legal(old(Rows()), Rows())
      ensures c.reel in old(reels)
      ensures if !(old(jobs)[c.job].status.Running? && old(jobs)[c.job].worker == Some(w)) then result.NotOwner?
              else if !VideoFits(old(Rows()), output) then result.Conflict?
              else if VideoTaken(old(Rows()), c.reel, output) then result.IntegrityError?
              else result.Committed? && ReadyWritten(old(Rows()), Rows(), c, output)
    {
      CommitReadyEffect(Rows(), c, w, output);
      hide VideoFits;
      hide VideoTaken;
      hide ReadyWritten;
      CommitReadyKeepsInv(Rows(), c, w, output);
      ghost var before := Rows();
      if !OwnedRunning(Rows(), c.job, w) || c.reel !in reels {
        return NotOwner;
      }
      var key := FinalKey(Sha256(output));
      var video := if key in videos then videos[key] else Video(Some(Sha256(output)), |output|);
      if (video.sha.Some? && video.sha.value != Sha256(output)) || video.size != |output| {
        return Conflict;
      }
      if exists r :: r in reels && r != c.reel && reels[r].video == Some(key) {
        return IntegrityError;
      }
      var job := jobs[c.job];
      videos := videos[key := video];
      reels := reels[c.reel := reels[c.reel].(video := Some(key), status := Ready, reason := None,
                                               cleanupPending := true)];
      jobs := jobs[c.job := job.(status := Completed, reason := None, lease := None, worker := None)];
      result := Committed(Rows());
    }

    method FinishFailure(c: Claim, w: WorkerId, reason: Reason, retryable: bool)
      requires DbInv(Rows()) && c.job < |jobs| && jobs[c.job].reel == c.reel
      modifies this
      ensures Rows() == FinishFailureTx(old(Rows()), c, w, reason, retryable)
      ensures DbInv(Rows()) && Legal(old(Rows()), Rows())
      ensures c.reel in old(reels)
      ensures if old(jobs)[c.job].status.Running? && old(jobs)[c.job].worker == Some(w)
              then FailureWritten(old(Rows()), Rows(), c, reason, retryable)
              else Rows() == old(Rows())
    {
      hide FailureWritten;
      FinishFailureKeepsInv(Rows(), c, w, reason, retryable);
      if !OwnedRunning(Rows(), c.job, w) || c.reel !in reels {
        return;
      }
      var job, reel := jobs[c.job], reels[c.reel];
      jobs := jobs[c.job := job.(status := JobFailed, reason := Some(reason), lease := None, worker := None)];
      if retryable && job.attempts < MAX_ATTEMPTS {
        reels := reels[c.reel := reel.(status := SourceReady, reason := Some(reason))];
        jobs := jobs + [NewJob(c.reel, job.attempts)];
      } else {
        reels := reels[c.reel := reel.(status := ReelFailed,
                                        reason := Some(if retryable then RetryExhausted else reason))];
      }
    }

    /** The collector's source commit on reel and job rows. */
    method CommitSource(r: Shortcode, content: Bytes) returns (ok: bool)
      requires DbInv(Rows())
      modifies this
      ensures ok <==> CommitSourceTx(old(Rows()), r, content).Some?
      ensures Rows() == if ok then CommitSourceTx(old(Rows()), r, content).value else old(Rows())
      ensures DbInv(Rows())
      ensures ok <==> (r in old(reels) ==> old(reels)[r].status in {Discovered, Downloading, ReelFailed})
      ensures ok ==> SourceWritten(old(Rows()), Rows(), r, content)
    {
      CommitSourceEffect(Rows(), r, content);
      hide SourceWritten;
      if SourceCommitPath(Rows(), r).Some? {
        CommitSourceKeepsInv(Rows(), r, content);
      }
      ghost var before := Rows();
      var reel := if r in reels then reels[r] else NewReel;
      if reel.status.ReelFailed? || reel.status.Discovered? {
        reel := reel.(status := Downloading);
      } else if !reel.status.Downloading? {
        return false;
      }
      reel := reel.(status := SourceReady, source := Some(Source(SourceKey(r), Sha256(content), |content|)),
                    reason := None);
      reels := reels[r := reel];
      jobs := jobs + [NewJob(r, 0)];
      ok := true;
    }
  }
}
