/**
 The safety results over whole runs: every interleaving of actions from any
 state of the invariant, and so from any initial state.
 */
module NormalizerRuns {
  import opened Options
  import opened Transitions
  import opened NormalizerDb
  import opened NormalizerDbProofs
  import opened NormalizerSystem
  import opened NormalizerSafety

  /******* Reachable states *******/

  lemma {:induction false} RunAppend(s: State, run: seq<Action>, a: Action)
    requires ValidRun(s, run) && Enabled(After(s, run), a)
    ensures ValidRun(s, run + [a]) && After(s, run + [a]) == Apply(After(s, run), a)
    decreases |run|
  {
    hide Apply;
    hide Enabled;
    if run == [] {
      assert run + [a] == [a];
      assert ValidRun(Apply(s, a), []);
    } else {
      RunAppend(Apply(s, run[0]), run[1..], a);
      assert (run + [a])[1..] == run[1..] + [a];
    }
  }

  lemma {:induction false} RunKeepsInv(s: State, run: seq<Action>)
    requires SystemInv(s) && ValidRun(s, run)
    ensures SystemInv(After(s, run)) && Monotone(s.db, After(s, run).db)
    decreases |run|
  {
    hide SystemInv;
    if run == [] {
      SameRows(s.db);
    } else {
      StepKeepsInv(s, run[0]);
      RunKeepsInv(Apply(s, run[0]), run[1..]);
      MonotoneTransitive(s.db, Apply(s, run[0]).db, After(s, run).db);
    }
  }

  lemma MonotoneTransitive(a: Db, b: Db, c: Db)
    requires Monotone(a, b) && Monotone(b, c)
    ensures Monotone(a, c)
  {
    forall j | 0 <= j < |a.jobs|
      ensures JobMonotone(a, c, j)
    {
      assert JobMonotone(a, b, j) && JobMonotone(b, c, j);
    }
    forall r | r in a.reels
      ensures ReelMonotone(a, c, r)
    {
      assert ReelMonotone(a, b, r) && ReelMonotone(b, c, r);
    }
  }

  /**
   In every reachable state a reel is SOURCE_READY exactly when it has one
   active job and that job is pending, NORMALIZING exactly when it has one and
   it is running, and has none otherwise; no job ever uses a fourth attempt and
   no pending job has used its last.
   */
  lemma ReachableStatuses(s: State, run: seq<Action>)
    requires Initial(s) && ValidRun(s, run)
    ensures var db := After(s, run).db;
            && (forall r :: r in db.reels ==>
                  && (db.reels[r].status.SourceReady? <==> exists j :: SoleActiveJob(db, r, j, Pending))
                  && (db.reels[r].status.Normalizing? <==> exists j :: SoleActiveJob(db, r, j, Running))
                  && (!db.reels[r].status.SourceReady? && !db.reels[r].status.Normalizing?
                      <==> ActiveJobs(db, r) == {}))
            && (forall j :: 0 <= j < |db.jobs| ==>
                  && db.jobs[j].attempts <= 3
                  && (db.jobs[j].status.Pending? ==> db.jobs[j].attempts <= 2))
  {
    InitialInv(s);
    RunKeepsInv(s, run);
    var db := After(s, run).db;
    DbOf(After(s, run));
    forall r | r in db.reels
      ensures && (db.reels[r].status.SourceReady? <==> exists j :: SoleActiveJob(db, r, j, Pending))
              && (db.reels[r].status.Normalizing? <==> exists j :: SoleActiveJob(db, r, j, Running))
              && (!db.reels[r].status.SourceReady? && !db.reels[r].status.Normalizing? <==> ActiveJobs(db, r) == {})
    {
      StatusNamesSoleJob(db, r);
    }
    forall j | 0 <= j < |db.jobs|
      ensures db.jobs[j].attempts <= 3 && (db.jobs[j].status.Pending? ==> db.jobs[j].attempts <= 2)
    {
      JobRow(db, j);
    }
  }

  ghost predicate SoleActiveJob(db: Db, r: Shortcode, j: JobId, status: JobStatus) {
    j < |db.jobs| && ActiveJobs(db, r) == {j} && db.jobs[j].status == status
  }

  lemma StatusNamesSoleJob(db: Db, r: Shortcode)
    requires DbInv(db) && r in db.reels
    ensures db.reels[r].status.SourceReady? <==> exists j :: SoleActiveJob(db, r, j, Pending)
    ensures db.reels[r].status.Normalizing? <==> exists j :: SoleActiveJob(db, r, j, Running)
    ensures !db.reels[r].status.SourceReady? && !db.reels[r].status.Normalizing? <==> ActiveJobs(db, r) == {}
  {
    hide DbInv;
    StatusIsActiveJob(db, r);
    if j: JobId :| j < |db.jobs| && ActiveJobs(db, r) == {j} && db.jobs[j].status.Pending? {
      assert SoleActiveJob(db, r, j, Pending);
    }
    if j: JobId :| j < |db.jobs| && ActiveJobs(db, r) == {j} && db.jobs[j].status.Running? {
      assert SoleActiveJob(db, r, j, Running);
    }
  }

  /** Whether an action may follow the tables through more than one status, and does so. */
  ghost predicate LegalAction(s: State, a: Action)
    requires Enabled(s, a)
  {
    var db, db' := s.db, Apply(s, a).db;
    if a.CommitSource? then
      && JobStatusesLegal(db, db')
      && (forall q :: q in db.reels && q != a.r ==> q in db'.reels && db'.reels[q] == db.reels[q])
      && a.r in db'.reels
      && var first := if a.r in db.reels then db.reels[a.r].status else Discovered;
         exists path :: PathBetween(path, first, db'.reels[a.r].status)
    else
      Legal(db, db')
  }

  ghost predicate PathBetween(path: seq<ReelStatus>, first: ReelStatus, last: ReelStatus) {
    && |path| > 0 && path[0] == first && path[|path| - 1] == last && LegalPath(path)
  }

  /** Every raw status assignment of a run is a step the transition tables allow. */
  lemma {:induction false} RunIsLegal(s: State, run: seq<Action>, i: nat)
    requires SystemInv(s) && ValidRun(s, run) && i < |run|
    ensures ValidRun(s, run[..i]) && Enabled(After(s, run[..i]), run[i])
    ensures LegalAction(After(s, run[..i]), run[i])
    decreases |run|
  {
    hide SystemInv;
    if i == 0 {
      StepIsLegal(s, run[0]);
    } else {
      StepKeepsInv(s, run[0]);
      RunIsLegal(Apply(s, run[0]), run[1..], i - 1);
      assert run[..i][0] == run[0] && run[..i][1..] == run[1..][..i - 1];
    }
  }

  lemma StepIsLegal(s: State, a: Action)
    requires SystemInv(s) && Enabled(s, a)
    ensures LegalAction(s, a)
  {
    hide SystemInv;
    hide DbInv;
    StepKeepsInv(s, a);
    if a.CommitSource? {
      DbOf(s);
      CommitPublishedKeepsInv(s, a.r);
      var content := s.publishing[a.r].content;
      CommitSourceKeepsInv(s.db, a.r, content);
      var path := SourceCommitPath(s.db, a.r).value;
      assert PathBetween(path, if a.r in s.db.reels then s.db.reels[a.r].status else Discovered,
                         Apply(s, a).db.reels[a.r].status);
    }
  }

  /******* Fencing *******/

  /** The worker holds a claim whose job was closed under it, or holds none. */
  ghost predicate Fenced(s: State, w: WorkerId) {
    var phase := PhaseOf(s, w);
    !phase.Idle? ==> phase.c.job < |s.db.jobs| && s.db.jobs[phase.c.job].status.JobFailed?
  }

  lemma ReturnMovesOnly(s: State, w: WorkerId, v: WorkerId)
    requires Enabled(s, Proceed(w)) && v != w
    ensures PhaseOf(Return(s, w, PhaseOf(s, w)), v) == PhaseOf(s, v)
  {
  }

  lemma OthersKeepPhase(s: State, a: Action, w: WorkerId)
    requires Enabled(s, a) && Actor(a) != Some(w)
    ensures PhaseOf(Apply(s, a), w) == PhaseOf(s, w)
  {
    hide Return;
    hide RaiseAt;
    if a.Proceed? {
      ReturnMovesOnly(s, a.w, w);
    } else if a.Raise? {
      RaiseShape(s, a.w, a.error, a.effect);
      if a.effect && HasEffect(PhaseOf(s, a.w)) {
        ReturnMovesOnly(s, a.w, w);
      }
    }
  }

  lemma FencedStep(s: State, a: Action, w: WorkerId)
    requires SystemInv(s) && Enabled(s, a) && Fenced(s, w)
    requires a.ClaimJob? ==> a.w != w
    ensures Fenced(Apply(s, a), w)
    ensures Actor(a) == Some(w) ==> Apply(s, a).db == s.db
  {
    StepKeepsInv(s, a);
    hide DbInv;
    hide SystemInv;
    hide Apply;
    hide Enabled;
    hide Legal;
    PhaseFacts(s, w);
    if Actor(a) == Some(w) {
      FencedWorkerChangesNoRow(s, a, w);
    } else {
      OthersKeepPhase(s, a, w);
      var phase := PhaseOf(s, w);
      if !phase.Idle? {
        assert JobMonotone(s.db, Apply(s, a).db, phase.c.job);
      }
    }
  }

  lemma FencedWorkerChangesNoRow(s: State, a: Action, w: WorkerId)
    requires Enabled(s, a) && PhaseOk(s, w) && Fenced(s, w)
    requires Actor(a) == Some(w) && !a.ClaimJob?
    ensures Apply(s, a).db == s.db
    ensures PhaseOf(Apply(s, a), w).Idle? || (!PhaseOf(s, w).Idle? && PhaseOf(Apply(s, a), w).c == PhaseOf(s, w).c)
  {
    if a.Proceed? {
      ReturnKeepsClaim(s, w);
    } else if a.Raise? {
      RaiseShape(s, w, a.error, a.effect);
    }
  }

  /**
   Once a worker's job has been recovered, no later action of that worker on
   the claim it held changes any job, reel or video row, whatever happens in between.
   */
  lemma {:induction false} FencedForever(s: State, run: seq<Action>, w: WorkerId, i: nat)
    requires SystemInv(s) && ValidRun(s, run) && Fenced(s, w)
    requires forall k :: 0 <= k < |run| && run[k].ClaimJob? ==> run[k].w != w
    requires i < |run| && Actor(run[i]) == Some(w)
    ensures ValidRun(s, run[..i]) && Enabled(After(s, run[..i]), run[i])
    ensures Apply(After(s, run[..i]), run[i]).db == After(s, run[..i]).db
    decreases |run|
  {
    hide SystemInv;
    FencedStep(s, run[0], w);
    if i > 0 {
      StepKeepsInv(s, run[0]);
      FencedForever(Apply(s, run[0]), run[1..], w, i - 1);
      assert run[..i][0] == run[0] && run[..i][1..] == run[1..][..i - 1];
    }
  }

  lemma RecoveryFences(s: State, w: WorkerId, j: JobId)
    requires SystemInv(s) && Enabled(s, Recover(j))
    requires !PhaseOf(s, w).Idle? && PhaseOf(s, w).c.job == j
    ensures Fenced(Apply(s, Recover(j)), w)
  {
    hide SystemInv;
    hide DbInv;
    DbOf(s);
    RecoverKeepsInv(s.db, j);
  }

  /******* READY at most once *******/

  /** How often a reel becomes READY in a run. */
  ghost function TimesCommitted(s: State, run: seq<Action>, r: Shortcode): nat
    requires ValidRun(s, run)
    decreases |run|
  {
    if run == [] then 0
    else
      var s' := Apply(s, run[0]);
      (if IsReady(s', r) && !IsReady(s, r) then 1 else 0) + TimesCommitted(s', run[1..], r)
  }

  predicate IsReady(s: State, r: Shortcode) {
    r in s.db.reels && s.db.reels[r].status.Ready?
  }

  lemma {:induction false} CommittedAtMostOnce(s: State, run: seq<Action>, r: Shortcode)
    requires SystemInv(s) && ValidRun(s, run)
    ensures TimesCommitted(s, run, r) <= if IsReady(s, r) then 0 else 1
    decreases |run|
  {
    hide SystemInv;
    if run != [] {
      StepKeepsInv(s, run[0]);
      var s' := Apply(s, run[0]);
      if IsReady(s, r) {
        assert ReelMonotone(s.db, s'.db, r);
      }
      CommittedAtMostOnce(s', run[1..], r);
    }
  }
}
