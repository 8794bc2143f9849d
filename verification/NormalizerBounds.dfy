/**
 The pipeline makes progress: a source commit buys at most three claims of its
 reel, and every status change of an active reel uses up a bounded rank.
 */
module NormalizerBounds {
  import opened Options
  import opened Transitions
  import opened NormalizerDb
  import opened NormalizerDbProofs
  import opened NormalizerSystem
  import opened NormalizerSafety

  predicate ActiveFor(db: Db, r: Shortcode, j: int) {
    0 <= j < |db.jobs| && db.jobs[j].reel == r && Active(db.jobs[j])
  }

  /** The attempts a reel has left: three less those of its active job, none without one. */
  ghost function Budget(db: Db, r: Shortcode): nat {
    if exists j :: ActiveFor(db, r, j) then
      var j :| ActiveFor(db, r, j);
      if db.jobs[j].attempts <= MAX_ATTEMPTS then MAX_ATTEMPTS - db.jobs[j].attempts else 0
    else 0
  }

  lemma BudgetIs(db: Db, r: Shortcode, j: int)
    requires DbInv(db) && ActiveFor(db, r, j)
    ensures db.jobs[j].attempts <= MAX_ATTEMPTS && Budget(db, r) == MAX_ATTEMPTS - db.jobs[j].attempts
  {
    JobRow(db, j);
    forall i | ActiveFor(db, r, i)
      ensures i == j
    {
      assert i != j ==> Apart(db, i, j);
    }
  }

  /** The active job of `r` afterwards carries on from one before, `extra` attempts later. */
  ghost predicate CarriesOn(db: Db, db': Db, r: Shortcode, extra: nat) {
    forall j' :: ActiveFor(db', r, j') ==>
      exists j :: ActiveFor(db, r, j) && db.jobs[j].attempts + extra <= db'.jobs[j'].attempts
  }

  lemma CarriesOnSpends(db: Db, db': Db, r: Shortcode, extra: nat)
    requires DbInv(db) && DbInv(db') && CarriesOn(db, db', r, extra)
    requires extra <= Budget(db, r)
    ensures Budget(db', r) + extra <= Budget(db, r)
  {
    if j' :| ActiveFor(db', r, j') {
      var j :| ActiveFor(db, r, j) && db.jobs[j].attempts + extra <= db'.jobs[j'].attempts;
      BudgetIs(db, r, j);
      BudgetIs(db', r, j');
    }
  }

  lemma SameCarriesOn(db: Db, db': Db, r: Shortcode)
    requires db'.jobs == db.jobs
    ensures CarriesOn(db, db', r, 0)
  {
    forall j' | ActiveFor(db', r, j')
      ensures exists j :: ActiveFor(db, r, j) && db.jobs[j].attempts + 0 <= db'.jobs[j'].attempts
    {
      assert ActiveFor(db, r, j');
    }
  }

  /** A transaction that closes job j, appending at most one job with the same reel and attempts. */
  ghost predicate ClosesOrKeeps(db: Db, db': Db, j: JobId)
    requires j < |db.jobs|
  {
    && |db.jobs| <= |db'.jobs|
    && (forall i :: 0 <= i < |db.jobs| && i != j ==> db'.jobs[i] == db.jobs[i])
    && (db'.jobs[j] == db.jobs[j] || !Active(db'.jobs[j]))
    && (|db.jobs| < |db'.jobs| ==> Active(db.jobs[j]))
    && (forall i :: |db.jobs| <= i < |db'.jobs| ==>
          db'.jobs[i].reel == db.jobs[j].reel && db'.jobs[i].attempts == db.jobs[j].attempts)
  }

  lemma ClosingCarriesOn(db: Db, db': Db, j: JobId, r: Shortcode)
    requires j < |db.jobs| && ClosesOrKeeps(db, db', j)
    ensures CarriesOn(db, db', r, 0)
  {
    forall j' | ActiveFor(db', r, j')
      ensures exists i :: ActiveFor(db, r, i) && db.jobs[i].attempts + 0 <= db'.jobs[j'].attempts
    {
      if j' < |db.jobs| {
        assert ActiveFor(db, r, j');
      } else {
        assert ActiveFor(db, r, j);
      }
    }
  }

  /** Whether the action claims a job of reel r. */
  predicate Claims(s: State, a: Action, r: Shortcode) {
    a.ClaimJob? && a.j < |s.db.jobs| && s.db.jobs[a.j].reel == r
  }

  lemma ClaimSpends(s: State, w: WorkerId, j: JobId, leaseSeconds: nat, r: Shortcode)
    requires SystemInv(s) && Enabled(s, ClaimJob(w, j, leaseSeconds))
    ensures var extra := if s.db.jobs[j].reel == r then 1 else 0;
            && extra <= Budget(s.db, r)
            && CarriesOn(s.db, ApplyClaim(s, w, j, leaseSeconds).db, r, extra)
  {
    DbOf(s);
    hide SystemInv;
    hide DbInv;
    JobRow(s.db, j);
    ClaimKeepsInv(s.db, j, w, s.now + leaseSeconds);
    var db' := ApplyClaim(s, w, j, leaseSeconds).db;
    var extra := if s.db.jobs[j].reel == r then 1 else 0;
    if extra == 1 {
      assert ActiveFor(s.db, r, j);
      BudgetIs(s.db, r, j);
    }
    forall j' | ActiveFor(db', r, j')
      ensures exists i :: ActiveFor(s.db, r, i) && s.db.jobs[i].attempts + extra <= db'.jobs[j'].attempts
    {
      assert ActiveFor(s.db, r, j');
      if j' != j && extra == 1 {
        UniqueFor(s.db, r, j, j');
      }
    }
  }

  lemma UniqueFor(db: Db, r: Shortcode, i: int, j: int)
    requires DbInv(db) && ActiveFor(db, r, i) && ActiveFor(db, r, j)
    ensures i == j
  {
    hide DbInv;
    if i != j {
      DifferentReels(db, i, j);
    }
  }

  lemma DifferentReels(db: Db, i: JobId, j: JobId)
    requires DbInv(db) && i < |db.jobs| && j < |db.jobs| && i != j
    ensures Active(db.jobs[i]) && Active(db.jobs[j]) ==> db.jobs[i].reel != db.jobs[j].reel
  {
    assert Apart(db, i, j);
  }

  lemma CommitReturnsCloses(s: State, w: WorkerId, c: Claim, out: Bytes, created: bool)
    requires c.job < |s.db.jobs|
    ensures ClosesOrKeeps(s.db, CommitReturns(s, w, c, out, created).db, c.job)
  {
  }

  lemma FinishCloses(db: Db, c: Claim, w: WorkerId, reason: Reason, retryable: bool)
    requires c.job < |db.jobs| && db.jobs[c.job].reel == c.reel
    ensures ClosesOrKeeps(db, FinishFailureTx(db, c, w, reason, retryable), c.job)
  {
    var db' := FinishFailureTx(db, c, w, reason, retryable);
    forall i | |db.jobs| <= i < |db'.jobs|
      ensures db'.jobs[i].reel == db.jobs[c.job].reel && db'.jobs[i].attempts == db.jobs[c.job].attempts
    {
      assert i == |db.jobs| && db'.jobs[i] == NewJob(c.reel, db.jobs[c.job].attempts);
    }
  }

  lemma ReturnCloses(s: State, w: WorkerId)
    requires Enabled(s, Proceed(w)) && PhaseOk(s, w)
    ensures ClosesOrKeeps(s.db, Return(s, w, PhaseOf(s, w)).db, PhaseOf(s, w).c.job)
  {
    hide CommitReturns;
    var phase := PhaseOf(s, w);
    if phase.CommitReady? {
      CommitIsReturn(s, w);
      hide Return;
      CommitReturnsCloses(s, w, phase.c, phase.out, phase.created);
    } else if phase.FinishFailure? {
      var (reason, retryable) := Classify(phase.error);
      FinishCloses(s.db, phase.c, w, reason, retryable);
      hide FinishFailureTx;
      hide ClosesOrKeeps;
    } else {
      assert Return(s, w, phase).db.jobs == s.db.jobs;
    }
  }

  lemma OtherCommitCarriesOn(db: Db, r: Shortcode, q: Shortcode, content: Bytes)
    requires CommitSourceTx(db, q, content).Some? && q != r
    ensures CarriesOn(db, CommitSourceTx(db, q, content).value, r, 0)
  {
    var db' := CommitSourceTx(db, q, content).value;
    forall j' | ActiveFor(db', r, j')
      ensures exists i :: ActiveFor(db, r, i) && db.jobs[i].attempts + 0 <= db'.jobs[j'].attempts
    {
      assert ActiveFor(db, r, j');
    }
  }

  /** The attempts one action takes from the budget of a reel whose source is not being committed. */
  lemma StepSpends(s: State, a: Action, r: Shortcode)
    requires SystemInv(s) && Enabled(s, a) && a != CommitSource(r)
    ensures Budget(Apply(s, a).db, r) + (if Claims(s, a, r) then 1 else 0) <= Budget(s.db, r)
  {
    StepKeepsInv(s, a);
    DbOf(s);
    DbOf(Apply(s, a));
    hide SystemInv;
    hide DbInv;
    hide CarriesOn;
    var db, db' := s.db, Apply(s, a).db;
    var extra := if Claims(s, a, r) then 1 else 0;
    StepCarriesOn(s, a, r);
    CarriesOnSpends(db, db', r, extra);
  }

  lemma WorkerCarriesOn(s: State, w: WorkerId, r: Shortcode)
    requires Enabled(s, Proceed(w)) && PhaseOk(s, w)
    ensures CarriesOn(s.db, Return(s, w, PhaseOf(s, w)).db, r, 0)
  {
    hide Return;
    hide CarriesOn;
    ReturnCloses(s, w);
    ClosingCarriesOn(s.db, Return(s, w, PhaseOf(s, w)).db, PhaseOf(s, w).c.job, r);
  }

  lemma RaiseCarriesOn(s: State, w: WorkerId, error: Error, effect: bool, r: Shortcode)
    requires Enabled(s, Raise(w, error, effect)) && PhaseOk(s, w)
    ensures CarriesOn(s.db, RaiseAt(s, w, PhaseOf(s, w), error, effect).db, r, 0)
  {
    hide Return;
    hide RaiseAt;
    hide CarriesOn;
    RaiseShape(s, w, error, effect);
    SameCarriesOn(s.db, s.db, r);
    if effect && HasEffect(PhaseOf(s, w)) {
      WorkerCarriesOn(s, w, r);
    }
  }

  lemma RecoverCarriesOn(db: Db, j: JobId, r: Shortcode)
    requires j < |db.jobs| && db.jobs[j].status.Running?
    ensures CarriesOn(db, RecoverTx(db, j), r, 0)
  {
    RecoverCloses(db, j);
    ClosingCarriesOn(db, RecoverTx(db, j), j, r);
  }

  lemma RowEditsCarryOn(db: Db, q: Shortcode, reason: Reason, r: Shortcode)
    ensures CarriesOn(db, RecordFailureTx(db, q, reason), r, 0)
    ensures CarriesOn(db, ReconcileClearTx(db, q), r, 0)
  {
    SameCarriesOn(db, RecordFailureTx(db, q, reason), r);
    SameCarriesOn(db, ReconcileClearTx(db, q), r);
  }

  lemma CommitSourceCarriesOn(s: State, q: Shortcode, r: Shortcode)
    requires SystemInv(s) && q in s.publishing && q != r
    ensures CarriesOn(s.db, CommitPublished(s, q).db, r, 0)
  {
    CommitPublishedKeepsInv(s, q);
    OtherCommitCarriesOn(s.db, r, q, s.publishing[q].content);
  }

  /** The actions whose transaction may change rows. */
  predicate MayChangeRows(a: Action) {
    a.ClaimJob? || a.Proceed? || a.Raise? || a.CommitSource? || a.Recover? || a.RecordFailure? || a.SweepClear?
  }

  lemma OthersChangeNoRow(s: State, a: Action)
    requires Enabled(s, a) && !MayChangeRows(a)
    ensures Apply(s, a).db == s.db
  {
  }

  lemma WriterCarriesOn(s: State, a: Action, r: Shortcode)
    requires SystemInv(s) && Enabled(s, a) && a != CommitSource(r) && MayChangeRows(a) && !a.ClaimJob?
    ensures CarriesOn(s.db, Apply(s, a).db, r, 0)
  {
    hide SystemInv;
    hide CarriesOn;
    hide Return;
    hide RaiseAt;
    hide RecoverTx;
    hide RecordFailureTx;
    hide ReconcileClearTx;
    hide CommitPublished;
    if a.Proceed? {
      PhaseFacts(s, a.w);
      WorkerCarriesOn(s, a.w, r);
    } else if a.Raise? {
      PhaseFacts(s, a.w);
      RaiseCarriesOn(s, a.w, a.error, a.effect, r);
    } else if a.CommitSource? {
      CommitSourceCarriesOn(s, a.r, r);
    } else if a.Recover? {
      RecoverCarriesOn(s.db, a.j, r);
    } else if a.RecordFailure? {
      RowEditsCarryOn(s.db, a.r, a.reason, r);
    } else {
      RowEditsCarryOn(s.db, a.r, WorkerCancelled, r);
    }
  }

  lemma StepCarriesOn(s: State, a: Action, r: Shortcode)
    requires SystemInv(s) && Enabled(s, a) && a != CommitSource(r)
    ensures var extra := if Claims(s, a, r) then 1 else 0;
            extra <= Budget(s.db, r) && CarriesOn(s.db, Apply(s, a).db, r, extra)
  {
    hide SystemInv;
    hide CarriesOn;
    hide Budget;
    if a.ClaimJob? {
      ClaimSpends(s, a.w, a.j, a.leaseSeconds, r);
    } else {
      hide Apply;
      if MayChangeRows(a) {
        WriterCarriesOn(s, a, r);
      } else {
        OthersChangeNoRow(s, a);
        SameCarriesOn(s.db, Apply(s, a).db, r);
      }
    }
  }

  lemma RecoverCloses(db: Db, j: JobId)
    requires j < |db.jobs| && db.jobs[j].status.Running?
    ensures ClosesOrKeeps(db, RecoverTx(db, j), j)
  {
    var db' := RecoverTx(db, j);
    forall i | |db.jobs| <= i < |db'.jobs|
      ensures db'.jobs[i].reel == db.jobs[j].reel && db'.jobs[i].attempts == db.jobs[j].attempts
    {
      assert i == |db.jobs| && db'.jobs[i] == NewJob(db.jobs[j].reel, db.jobs[j].attempts);
    }
  }

  /** How often a run claims a job of reel r. */
  ghost function TimesClaimed(s: State, run: seq<Action>, r: Shortcode): nat
    requires ValidRun(s, run)
    decreases |run|
  {
    if run == [] then 0
    else (if Claims(s, run[0], r) then 1 else 0) + TimesClaimed(Apply(s, run[0]), run[1..], r)
  }

  lemma {:induction false} ClaimsWithinBudget(s: State, run: seq<Action>, r: Shortcode)
    requires SystemInv(s) && ValidRun(s, run) && CommitSource(r) !in run
    ensures TimesClaimed(s, run, r) <= Budget(s.db, r)
    decreases |run|
  {
    hide SystemInv;
    hide Budget;
    if run != [] {
      assert run[0] in run;
      StepSpends(s, run[0], r);
      StepKeepsInv(s, run[0]);
      ClaimsWithinBudget(Apply(s, run[0]), run[1..], r);
    }
  }

  /** A source commit leads to at most three claims of its reel until its source is committed again. */
  lemma ThreeClaimsPerSourceCommit(s: State, run: seq<Action>, r: Shortcode)
    requires SystemInv(s) && Enabled(s, CommitSource(r))
    requires ValidRun(Apply(s, CommitSource(r)), run) && CommitSource(r) !in run
    ensures TimesClaimed(Apply(s, CommitSource(r)), run, r) <= 3
  {
    hide SystemInv;
    hide DbInv;
    hide TimesClaimed;
    var s' := Apply(s, CommitSource(r));
    StepKeepsInv(s, CommitSource(r));
    CommitPublishedKeepsInv(s, r);
    assert ActiveFor(s'.db, r, |s.db.jobs|);
    DbOf(s');
    BudgetIs(s'.db, r, |s.db.jobs|);
    ClaimsWithinBudget(s', run, r);
  }

  /******* Termination *******/

  /** Zero exactly when the reel has no active job; running costs one more than pending. */
  ghost function Rank(db: Db, r: Shortcode): nat {
    if r !in db.reels then 0
    else match db.reels[r].status
         case SourceReady => 2 * Budget(db, r)
         case Normalizing => 2 * Budget(db, r) + 1
         case _ => 0
  }

  /** Every change of an active reel's status lowers its rank. */
  lemma StatusChangeLowersRank(s: State, a: Action, r: Shortcode)
    requires SystemInv(s) && Enabled(s, a) && a != CommitSource(r) && r in s.db.reels
    requires s.db.reels[r].status.SourceReady? || s.db.reels[r].status.Normalizing?
    ensures r in Apply(s, a).db.reels && 0 < Rank(s.db, r) <= 6
    ensures var status' := Apply(s, a).db.reels[r].status;
            if status' == s.db.reels[r].status then Rank(Apply(s, a).db, r) <= Rank(s.db, r)
            else Rank(Apply(s, a).db, r) < Rank(s.db, r)
  {
    StepKeepsInv(s, a);
    StepSpends(s, a, r);
    DbOf(s);
    DbOf(Apply(s, a));
    hide SystemInv;
    hide DbInv;
    hide Budget;
    hide Rank;
    if a.CommitSource? {
      CommitLeavesOthers(s, a.r, r);
    }
    hide Apply;
    hide Enabled;
    RankFalls(s.db, Apply(s, a).db, r);
  }

  lemma CommitLeavesOthers(s: State, q: Shortcode, r: Shortcode)
    requires Enabled(s, CommitSource(q)) && q != r && r in s.db.reels
    ensures r in Apply(s, CommitSource(q)).db.reels && Apply(s, CommitSource(q)).db.reels[r] == s.db.reels[r]
  {
  }

  lemma RankFalls(db: Db, db': Db, r: Shortcode)
    requires DbInv(db) && DbInv(db') && Monotone(db, db') && r in db.reels
    requires Legal(db, db') || (r in db'.reels && db'.reels[r] == db.reels[r])
    requires Budget(db', r) <= Budget(db, r)
    requires db.reels[r].status.SourceReady? || db.reels[r].status.Normalizing?
    ensures r in db'.reels && 0 < Rank(db, r) <= 6
    ensures if db'.reels[r].status == db.reels[r].status then Rank(db', r) <= Rank(db, r)
            else Rank(db', r) < Rank(db, r)
  {
    hide DbInv;
    hide Budget;
    RankPositive(db, r);
    assert ReelMonotone(db, db', r);
    if db.reels[r].status.SourceReady? && db'.reels[r].status.Normalizing? {
      NormalizingSpends(db, db', r);
    }
  }

  lemma RankPositive(db: Db, r: Shortcode)
    requires DbInv(db) && r in db.reels
    requires db.reels[r].status.SourceReady? || db.reels[r].status.Normalizing?
    ensures 0 < Rank(db, r) <= 6
  {
    ReelRow(db, r);
    var status := if db.reels[r].status.SourceReady? then Pending else Running;
    var j :| 0 <= j < |db.jobs| && db.jobs[j].reel == r && db.jobs[j].status == status;
    assert ActiveFor(db, r, j);
    BudgetIs(db, r, j);
    JobRow(db, j);
  }

  lemma NormalizingSpends(db: Db, db': Db, r: Shortcode)
    requires DbInv(db) && DbInv(db') && Monotone(db, db') && Legal(db, db') && r in db.reels && r in db'.reels
    requires db.reels[r].status.SourceReady? && db'.reels[r].status.Normalizing?
    ensures Budget(db', r) < Budget(db, r)
  {
    ReelRow(db, r);
    ReelRow(db', r);
    var i :| 0 <= i < |db.jobs| && db.jobs[i].reel == r && db.jobs[i].status.Pending?;
    var j :| 0 <= j < |db'.jobs| && db'.jobs[j].reel == r && db'.jobs[j].status.Running?;
    assert j < |db.jobs| && JobMonotone(db, db', j);
    assert ActiveFor(db, r, i) && ActiveFor(db, r, j) && ActiveFor(db', r, j);
    UniqueFor(db, r, i, j);
    BudgetIs(db, r, j);
    BudgetIs(db', r, j);
  }

  predicate Early(db: Db, r: Shortcode) {
    r in db.reels && (db.reels[r].status.Discovered? || db.reels[r].status.Downloading?)
  }

  /** Reels are early only until their first source commit, and no other transaction makes one early. */
  ghost predicate EarlyOnlyBefore(db: Db, db': Db) {
    forall r :: Early(db', r) ==> r in db.reels && db'.reels[r].status == db.reels[r].status
  }

  lemma ReturnEarly(s: State, w: WorkerId)
    requires Enabled(s, Proceed(w))
    ensures EarlyOnlyBefore(s.db, Return(s, w, PhaseOf(s, w)).db)
  {
    hide CommitReturns;
    var phase := PhaseOf(s, w);
    if phase.CommitReady? {
      CommitIsReturn(s, w);
      hide Return;
      CommitReadyEarly(s, w, phase.c, phase.out, phase.created);
    } else if phase.FinishFailure? {
      var (reason, retryable) := Classify(phase.error);
      FinishEarly(s.db, phase.c, w, reason, retryable);
      hide FinishFailureTx;
      hide EarlyOnlyBefore;
    } else if phase.ClearCleanup? {
      hide FinishFailureTx;
    } else {
      hide FinishFailureTx;
      hide ClearCleanupTx;
      assert Return(s, w, phase).db == s.db;
    }
  }

  lemma CommitReadyEarly(s: State, w: WorkerId, c: Claim, out: Bytes, created: bool)
    ensures EarlyOnlyBefore(s.db, CommitReturns(s, w, c, out, created).db)
  {
  }

  lemma FinishEarly(db: Db, c: Claim, w: WorkerId, reason: Reason, retryable: bool)
    ensures EarlyOnlyBefore(db, FinishFailureTx(db, c, w, reason, retryable))
  {
  }

  lemma CommitEarly(db: Db, r: Shortcode, content: Bytes)
    requires CommitSourceTx(db, r, content).Some?
    ensures EarlyOnlyBefore(db, CommitSourceTx(db, r, content).value)
  {
  }

  lemma StepEarly(s: State, a: Action)
    requires Enabled(s, a)
    ensures EarlyOnlyBefore(s.db, Apply(s, a).db)
  {
    hide Return;
    hide RaiseAt;
    hide CommitSourceTx;
    if a.Proceed? {
      ReturnEarly(s, a.w);
    } else if a.Raise? {
      RaiseShape(s, a.w, a.error, a.effect);
      if a.effect && HasEffect(PhaseOf(s, a.w)) {
        ReturnEarly(s, a.w);
      }
    } else if a.CommitSource? && CommitSourceTx(s.db, a.r, s.publishing[a.r].content).Some? {
      CommitEarly(s.db, a.r, s.publishing[a.r].content);
    }
  }

  /** How often the reel's status can still change before its source is committed again. */
  ghost function ChangesLeft(db: Db, r: Shortcode): nat {
    if Early(db, r) then 1 else Rank(db, r)
  }

  /** Whether a row of the reel is there before and after, with another status. */
  predicate StatusChanges(db: Db, db': Db, r: Shortcode) {
    r in db.reels && r in db'.reels && db'.reels[r].status != db.reels[r].status
  }

  lemma HasActiveJob(db: Db, r: Shortcode)
    requires DbInv(db) && Rank(db, r) > 0
    ensures exists j :: ActiveFor(db, r, j)
  {
    ReelRow(db, r);
    var status := if db.reels[r].status.SourceReady? then Pending else Running;
    var j :| 0 <= j < |db.jobs| && db.jobs[j].reel == r && db.jobs[j].status == status;
    assert ActiveFor(db, r, j);
  }

  predicate InWork(db: Db, r: Shortcode) {
    r in db.reels && (db.reels[r].status.SourceReady? || db.reels[r].status.Normalizing?)
  }

  lemma ActiveJobInWork(db: Db, r: Shortcode, j: int)
    requires DbInv(db) && ActiveFor(db, r, j)
    ensures InWork(db, r)
  {
    JobRow(db, j);
  }

  /** A reel out of work comes back to work only by a source commit. */
  lemma StaysOutOfWork(db: Db, db': Db, r: Shortcode)
    requires DbInv(db) && DbInv(db') && CarriesOn(db, db', r, 0) && !InWork(db, r)
    ensures !InWork(db', r) && Rank(db', r) == 0
  {
    if Rank(db', r) > 0 {
      HasActiveJob(db', r);
      var j' :| ActiveFor(db', r, j');
      var j :| ActiveFor(db, r, j) && db.jobs[j].attempts + 0 <= db'.jobs[j'].attempts;
      ActiveJobInWork(db, r, j);
    } else if InWork(db', r) {
      RankPositive(db', r);
    }
  }

  lemma StepChanges(s: State, a: Action, r: Shortcode)
    requires SystemInv(s) && Enabled(s, a) && a != CommitSource(r)
    ensures var db, db' := s.db, Apply(s, a).db;
            ChangesLeft(db', r) + (if StatusChanges(db, db', r) then 1 else 0) <= ChangesLeft(db, r)
  {
    StepKeepsInv(s, a);
    StepEarly(s, a);
    DbOf(s);
    DbOf(Apply(s, a));
    if InWork(s.db, r) {
      StatusChangeLowersRank(s, a, r);
    } else {
      StepCarriesOn(s, a, r);
      if a.CommitSource? && r in s.db.reels {
        CommitLeavesOthers(s, a.r, r);
      }
    }
    hide SystemInv;
    hide DbInv;
    hide Apply;
    hide Enabled;
    hide Rank;
    hide CarriesOn;
    hide Budget;
    ChangesFall(s.db, Apply(s, a).db, r);
  }

  lemma ChangesFall(db: Db, db': Db, r: Shortcode)
    requires DbInv(db) && DbInv(db') && Monotone(db, db') && EarlyOnlyBefore(db, db')
    requires if InWork(db, r) then
               && r in db'.reels
               && (if db'.reels[r].status == db.reels[r].status then Rank(db', r) <= Rank(db, r)
                   else Rank(db', r) < Rank(db, r))
             else exists extra :: CarriesOn(db, db', r, extra)
    requires r in db.reels ==> Legal(db, db') || (r in db'.reels && db'.reels[r] == db.reels[r])
    ensures ChangesLeft(db', r) + (if StatusChanges(db, db', r) then 1 else 0) <= ChangesLeft(db, r)
  {
    hide DbInv;
    hide Rank;
    if InWork(db, r) {
      assert !Early(db', r);
    } else {
      var extra :| CarriesOn(db, db', r, extra);
      assert CarriesOn(db, db', r, 0);
      StaysOutOfWork(db, db', r);
      if r in db.reels {
        assert ReelMonotone(db, db', r);
      }
    }
  }

  /** How often a run changes the status of reel r's row. */
  ghost function TimesChanged(s: State, run: seq<Action>, r: Shortcode): nat
    requires ValidRun(s, run)
    decreases |run|
  {
    if run == [] then 0
    else (if StatusChanges(s.db, Apply(s, run[0]).db, r) then 1 else 0) + TimesChanged(Apply(s, run[0]), run[1..], r)
  }

  lemma {:induction false} ChangesWithinRank(s: State, run: seq<Action>, r: Shortcode)
    requires SystemInv(s) && ValidRun(s, run) && CommitSource(r) !in run
    ensures TimesChanged(s, run, r) <= ChangesLeft(s.db, r)
    decreases |run|
  {
    hide SystemInv;
    hide ChangesLeft;
    hide Apply;
    hide Enabled;
    if run != [] {
      assert run[0] in run;
      StepChanges(s, run[0], r);
      StepKeepsInv(s, run[0]);
      ChangesWithinRank(Apply(s, run[0]), run[1..], r);
    }
  }

  /** After a source commit the reel's status changes at most six times until its source is committed again. */
  lemma SixChangesPerSourceCommit(s: State, run: seq<Action>, r: Shortcode)
    requires SystemInv(s) && Enabled(s, CommitSource(r))
    requires ValidRun(Apply(s, CommitSource(r)), run) && CommitSource(r) !in run
    ensures TimesChanged(Apply(s, CommitSource(r)), run, r) <= 6
  {
    hide SystemInv;
    hide DbInv;
    hide TimesChanged;
    var s' := Apply(s, CommitSource(r));
    StepKeepsInv(s, CommitSource(r));
    CommitPublishedKeepsInv(s, r);
    DbOf(s');
    RankPositive(s'.db, r);
    ChangesWithinRank(s', run, r);
  }
}
