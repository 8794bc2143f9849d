/**
 The objects themselves: when a source may disappear, whose staged object a
 cleanup removes, and exactly when every catalog row names a stored object with
 the recorded hash and size.
 */
module NormalizerFinals {
  import opened Options
  import opened Transitions
  import opened NormalizerDb
  import opened NormalizerDbProofs
  import opened NormalizerSystem
  import opened NormalizerSafety
  import opened NormalizerRuns

  /******* Sources *******/

  /**
   A source object disappears only when its reel is READY, or when the
   collector withdraws a publication it never committed; READY reels with a
   source left are marked for cleanup, and reels still to be normalized have
   their recorded source in the store.
   */
  lemma SourceRemovedOnlyWhenDone(s: State, a: Action, r: Shortcode)
    requires SystemInv(s) && Enabled(s, a)
    requires SourceKey(r) in s.objects && SourceKey(r) !in Apply(s, a).objects
    ensures IsReady(s, r) || (a.Withdraw? && a.r == r && s.publishing[r].created && !(r in s.db.reels && Durable(s.db.reels[r].status)))
  {
    hide Return;
    hide RaiseAt;
    hide CommitSourceTx;
    hide ClaimTx;
    if a.Proceed? {
      PhaseFacts(s, a.w);
      hide SystemInv;
      RemovalByReturn(s, a.w, SourceKey(r));
    } else if a.Raise? {
      PhaseFacts(s, a.w);
      hide SystemInv;
      RaiseShape(s, a.w, a.error, a.effect);
      RemovalByReturn(s, a.w, SourceKey(r));
    } else if a.Withdraw? {
      assert PublicationOk(s, a.r);
    }
  }

  /** The one key a worker's pending call can remove. */
  lemma RemovalByReturn(s: State, w: WorkerId, key: ObjectKey)
    requires !PhaseOf(s, w).Idle?
    ensures var phase := PhaseOf(s, w);
            Enabled(s, Proceed(w)) && key in s.objects && key !in Return(s, w, phase).objects ==>
              || (phase.RemoveFinal? && key == FinalKey(Sha256(phase.out)))
              || (phase.RemoveSource? && key == phase.c.source.key)
              || (phase.CleanStaging? && key == StagingKey(phase.c.job, phase.c.attempt))
  {
  }

  lemma ReachableSources(s: State, run: seq<Action>, r: Shortcode)
    requires Initial(s) && ValidRun(s, run) && r in After(s, run).db.reels
    ensures SourceStored(After(s, run), r)
  {
    InitialInv(s);
    RunKeepsInv(s, run);
  }

  /******* Staged objects *******/

  /**
   A staged object is removed only by the worker whose claim it belongs to,
   after its attempt, or by the reconciler that recovered exactly that attempt.
   */
  lemma StagingRemovedOnlyByItsAttempt(s: State, a: Action, j: JobId, attempt: nat)
    requires SystemInv(s) && Enabled(s, a)
    requires StagingKey(j, attempt) in s.objects && StagingKey(j, attempt) !in Apply(s, a).objects
    ensures || (Actor(a).Some? && !PhaseOf(s, Actor(a).value).Idle?
                && PhaseOf(s, Actor(a).value).c.job == j && PhaseOf(s, Actor(a).value).c.attempt == attempt)
            || (a == CleanStale(j) && j < |s.db.jobs|
                && s.db.jobs[j].reason == Some(StaleLeaseRecovered) && s.db.jobs[j].attempts == attempt)
  {
    hide Return;
    hide RaiseAt;
    hide CommitSourceTx;
    hide ClaimTx;
    if a.Proceed? {
      PhaseFacts(s, a.w);
      hide SystemInv;
      RemovalByReturn(s, a.w, StagingKey(j, attempt));
    } else if a.Raise? {
      PhaseFacts(s, a.w);
      hide SystemInv;
      RaiseShape(s, a.w, a.error, a.effect);
      RemovalByReturn(s, a.w, StagingKey(j, attempt));
    }
  }

  /******* Final objects *******/

  /** The final object of an output is stored as that output. */
  predicate FinalStored(s: State, out: Bytes) {
    FinalKey(Sha256(out)) in s.objects && s.objects[FinalKey(Sha256(out))] == out
  }

  /** Every catalog row, and every commit about to be made, has its object. */
  ghost predicate FinalsSafe(s: State) {
    && (forall k :: k in s.db.videos ==> VideoStored(s, k))
    && (forall v :: PhaseOf(s, v).CommitReady? ==> FinalStored(s, PhaseOf(s, v).out))
  }

  /** The final object an action removes, if any: the compensation's removal returns, or raises after it took effect. */
  function Removed(s: State, a: Action): Option<ObjectKey> {
    if (a.Proceed? || (a.Raise? && a.effect)) && PhaseOf(s, a.w).RemoveFinal?
    then Some(FinalKey(Sha256(PhaseOf(s, a.w).out))) else None
  }

  /** A removal while a catalog row names the object, or while another attempt is about to commit it. */
  ghost predicate UnsafeRemoval(s: State, a: Action) {
    Removed(s, a).Some? &&
    (Removed(s, a).value in s.db.videos || exists v :: AboutToCommit(s, v, Removed(s, a).value))
  }

  predicate AboutToCommit(s: State, v: WorkerId, key: ObjectKey) {
    PhaseOf(s, v).CommitReady? && FinalKey(Sha256(PhaseOf(s, v).out)) == key
  }

  /** What a worker has staged for copying is its output. */
  ghost predicate StagedOk(s: State, w: WorkerId) {
    var phase := PhaseOf(s, w);
    phase.StatFinal? || phase.CopyFinal? ==>
      var key := StagingKey(phase.c.job, phase.c.attempt);
      key in s.objects ==> s.objects[key] == phase.out
  }

  ghost predicate StagedInv(s: State) {
    forall w :: StagedOk(s, w)
  }

  /******* What one action does to final objects, rows and pending commits *******/

  predicate Backed(s: State, k: ObjectKey) {
    k.FinalKey? && k in s.objects && k.sha == Sha256(s.objects[k])
  }

  /** Final objects with the right content stay as they are, except the one removed. */
  ghost predicate FinalsKept(s: State, s': State, removed: Option<ObjectKey>) {
    forall k :: Backed(s, k) && removed != Some(k) ==> k in s'.objects && s'.objects[k] == s.objects[k]
  }

  /** Rows stay, and a new one is the actor's, of the output it is about to commit. */
  ghost predicate RowsMove(s: State, s': State, actor: Option<WorkerId>) {
    forall k :: k in s'.db.videos ==>
      || (k in s.db.videos && s'.db.videos[k] == s.db.videos[k])
      || (actor.Some? && AboutToCommit(s, actor.value, k)
          && s'.db.videos[k] == Video(Some(k.sha), |PhaseOf(s, actor.value).out|))
  }

  /** A worker that is newly about to commit has verified its object. */
  ghost predicate ReadyMoves(s: State, s': State) {
    forall v :: PhaseOf(s', v).CommitReady? ==> PhaseOf(s', v) == PhaseOf(s, v) || FinalStored(s', PhaseOf(s', v).out)
  }

  ghost predicate Moves(s: State, s': State, actor: Option<WorkerId>, removed: Option<ObjectKey>) {
    FinalsKept(s, s', removed) && RowsMove(s, s', actor) && ReadyMoves(s, s')
  }

  /** The key a worker's pending call removes. */
  function RemovedBy(phase: Phase): Option<ObjectKey> {
    if phase.RemoveFinal? then Some(FinalKey(Sha256(phase.out))) else None
  }

  lemma ReturnKeepsFinals(s: State, w: WorkerId)
    requires Enabled(s, Proceed(w)) && PhaseOk(s, w) && StagedOk(s, w)
    ensures FinalsKept(s, Return(s, w, PhaseOf(s, w)), RemovedBy(PhaseOf(s, w)))
  {
    hide CommitReadyTx;
    hide FinishFailureTx;
    hide ClearCleanupTx;
  }

  lemma ReturnMovesRows(s: State, w: WorkerId)
    requires Enabled(s, Proceed(w))
    ensures RowsMove(s, Return(s, w, PhaseOf(s, w)), Some(w))
  {
    if PhaseOf(s, w).CommitReady? {
      hide FinishFailureTx;
      hide ClearCleanupTx;
    } else {
      hide CommitReturns;
    }
  }

  lemma ReturnMovesReady(s: State, w: WorkerId)
    requires Enabled(s, Proceed(w))
    ensures ReadyMoves(s, Return(s, w, PhaseOf(s, w)))
  {
    var s' := Return(s, w, PhaseOf(s, w));
    forall v | PhaseOf(s', v).CommitReady?
      ensures PhaseOf(s', v) == PhaseOf(s, v) || FinalStored(s', PhaseOf(s', v).out)
    {
      if v != w {
        ReturnMovesOnly(s, w, v);
      } else {
        ReturnsReady(s, w);
      }
    }
  }

  lemma ReturnsReady(s: State, w: WorkerId)
    requires Enabled(s, Proceed(w)) && PhaseOf(Return(s, w, PhaseOf(s, w)), w).CommitReady?
    ensures var s' := Return(s, w, PhaseOf(s, w)); FinalStored(s', PhaseOf(s', w).out)
  {
    hide FinishFailureTx;
    hide ClearCleanupTx;
    hide CommitReadyTx;
  }

  lemma ReturnMoves(s: State, w: WorkerId)
    requires Enabled(s, Proceed(w)) && PhaseOk(s, w) && StagedOk(s, w)
    ensures Moves(s, Return(s, w, PhaseOf(s, w)), Some(w), RemovedBy(PhaseOf(s, w)))
  {
    hide Return;
    hide FinalsKept;
    hide RowsMove;
    hide ReadyMoves;
    ReturnKeepsFinals(s, w);
    ReturnMovesRows(s, w);
    ReturnMovesReady(s, w);
  }

  /** Going to a phase that is not about to commit changes nothing else. */
  lemma BecomeMoves(s: State, mid: State, w: WorkerId, phase': Phase, removed: Option<ObjectKey>)
    requires Moves(s, mid, Some(w), removed) && !phase'.CommitReady?
    ensures Moves(s, Become(mid, w, phase'), Some(w), removed)
  {
    var s' := Become(mid, w, phase');
    forall v | PhaseOf(s', v).CommitReady?
      ensures PhaseOf(s', v) == PhaseOf(s, v) || FinalStored(s', PhaseOf(s', v).out)
    {
      assert PhaseOf(s', v) == PhaseOf(mid, v);
    }
  }

  lemma ActorStaysPut(s: State, w: WorkerId)
    ensures Moves(s, s, Some(w), None)
  {
  }

  lemma RaiseOutput(s: State, w: WorkerId, error: Error, effect: bool)
    requires Enabled(s, Raise(w, error, effect))
    ensures var phase := PhaseOf(s, w);
            var phase' := PhaseOf(RaiseAt(s, w, phase, error, effect), w);
            && !phase'.StatFinal? && !phase'.CopyFinal? && !phase'.CommitReady? && !phase'.RemoveFinal?
            && (Output(phase').None? || Output(phase') == Output(phase))
  {
    RaisedTo(s, w, error, effect);
    hide RaiseAt;
  }

  lemma RaiseMoves(s: State, w: WorkerId, error: Error, effect: bool)
    requires Enabled(s, Raise(w, error, effect)) && PhaseOk(s, w) && StagedOk(s, w)
    ensures Moves(s, RaiseAt(s, w, PhaseOf(s, w), error, effect), Some(w), if effect then RemovedBy(PhaseOf(s, w)) else None)
  {
    hide Return;
    hide RaiseAt;
    hide Moves;
    hide PhaseOk;
    hide StagedOk;
    var phase := PhaseOf(s, w);
    var s' := RaiseAt(s, w, phase, error, effect);
    RaiseShape(s, w, error, effect);
    RaiseOutput(s, w, error, effect);
    if effect && HasEffect(phase) {
      ReturnMoves(s, w);
      BecomeMoves(s, Return(s, w, phase), w, PhaseOf(s', w), RemovedBy(phase));
    } else {
      ActorStaysPut(s, w);
      BecomeMoves(s, s, w, PhaseOf(s', w), None);
    }
  }

  lemma ClaimMoves(s: State, w: WorkerId, j: JobId, leaseSeconds: nat)
    requires Enabled(s, ClaimJob(w, j, leaseSeconds))
    ensures Moves(s, ApplyClaim(s, w, j, leaseSeconds), Some(w), None)
  {
    var s' := ApplyClaim(s, w, j, leaseSeconds);
    assert s'.db.videos == s.db.videos && s'.objects == s.objects;
    assert forall v :: PhaseOf(s', v).CommitReady? ==> PhaseOf(s', v) == PhaseOf(s, v);
  }

  lemma OthersMove(s: State, a: Action)
    requires Enabled(s, a) && Actor(a).None?
    ensures Moves(s, Apply(s, a), None, None)
  {
    assert Apply(s, a).workers == s.workers && Apply(s, a).db.videos == s.db.videos;
  }

  lemma StepMoves(s: State, a: Action)
    requires SystemInv(s) && StagedInv(s) && Enabled(s, a)
    ensures Moves(s, Apply(s, a), Actor(a), Removed(s, a))
  {
    if Actor(a).None? {
      OthersMove(s, a);
    } else {
      PhaseFacts(s, Actor(a).value);
      assert StagedOk(s, Actor(a).value);
      hide SystemInv;
      hide StagedInv;
      hide StagedOk;
      hide PhaseOk;
      hide Moves;
      hide Return;
      hide RaiseAt;
      hide ApplyClaim;
      if a.ClaimJob? {
        ClaimMoves(s, a.w, a.j, a.leaseSeconds);
      } else if a.Proceed? {
        ReturnMoves(s, a.w);
      } else if a.Raise? {
        RaiseMoves(s, a.w, a.error, a.effect);
      } else {
        ActorStaysPut(s, a.w);
        BecomeMoves(s, s, a.w, PhaseOf(Apply(s, a), a.w), None);
      }
    }
  }

  /******* Staging *******/

  /** Staged objects come only from the actor. */
  ghost predicate StagingStays(s: State, s': State, actor: Option<WorkerId>) {
    forall j, n :: StagingKey(j, n) in s'.objects ==>
      || (StagingKey(j, n) in s.objects && s'.objects[StagingKey(j, n)] == s.objects[StagingKey(j, n)])
      || (actor.Some? && !PhaseOf(s, actor.value).Idle? && PhaseOf(s, actor.value).c.job == j)
  }

  lemma StagedFrame(s: State, s': State, actor: Option<WorkerId>)
    requires WorkersOk(s) && StagedInv(s) && StagingStays(s, s', actor)
    requires forall w :: actor != Some(w) ==> PhaseOf(s', w) == PhaseOf(s, w)
    requires actor.Some? ==> StagedOk(s', actor.value)
    ensures StagedInv(s')
  {
    forall w
      ensures StagedOk(s', w)
    {
      if actor != Some(w) {
        assert StagedOk(s, w);
        if actor.Some? {
          assert DifferentJobs(s, w, actor.value);
        }
      }
    }
  }

  lemma ReturnStages(s: State, w: WorkerId)
    requires Enabled(s, Proceed(w)) && PhaseOk(s, w)
    ensures StagingStays(s, Return(s, w, PhaseOf(s, w)), Some(w))
  {
    hide CommitReadyTx;
    hide FinishFailureTx;
    hide ClearCleanupTx;
  }

  lemma ReturnStaged(s: State, w: WorkerId)
    requires Enabled(s, Proceed(w)) && StagedOk(s, w)
    ensures StagedOk(Return(s, w, PhaseOf(s, w)), w)
  {
    hide CommitReadyTx;
    hide FinishFailureTx;
    hide ClearCleanupTx;
  }

  lemma StepStages(s: State, a: Action)
    requires Enabled(s, a) && (Actor(a).Some? ==> PhaseOk(s, Actor(a).value) && StagedOk(s, Actor(a).value))
    ensures StagingStays(s, Apply(s, a), Actor(a))
    ensures Actor(a).Some? ==> StagedOk(Apply(s, a), Actor(a).value)
  {
    if a.Proceed? {
      hide Return;
      ReturnStages(s, a.w);
      ReturnStaged(s, a.w);
    } else if a.Raise? {
      hide Return;
      hide RaiseAt;
      RaiseShape(s, a.w, a.error, a.effect);
      RaiseOutput(s, a.w, a.error, a.effect);
      if a.effect && HasEffect(PhaseOf(s, a.w)) {
        ReturnStages(s, a.w);
      }
    } else {
      hide Return;
      hide RaiseAt;
    }
  }

  lemma StepKeepsStaged(s: State, a: Action)
    requires SystemInv(s) && StagedInv(s) && Enabled(s, a)
    ensures StagedInv(Apply(s, a))
  {
    assert WorkersOk(s);
    if Actor(a).Some? {
      PhaseFacts(s, Actor(a).value);
      assert StagedOk(s, Actor(a).value);
    }
    hide SystemInv;
    hide WorkersOk;
    hide StagedInv;
    StepStages(s, a);
    forall w | Actor(a) != Some(w)
      ensures PhaseOf(Apply(s, a), w) == PhaseOf(s, w)
    {
      OthersKeepPhase(s, a, w);
    }
    hide Apply;
    StagedFrame(s, Apply(s, a), Actor(a));
  }

  /******* When every row keeps its object *******/

  lemma MoveKeepsSafe(s: State, s': State, actor: Option<WorkerId>, removed: Option<ObjectKey>)
    requires FinalsSafe(s) && Moves(s, s', actor, removed)
    requires removed.Some? ==> removed.value !in s.db.videos && forall v :: !AboutToCommit(s, v, removed.value)
    ensures FinalsSafe(s')
  {
    forall k | k in s'.db.videos
      ensures VideoStored(s', k)
    {
      if k in s.db.videos && s'.db.videos[k] == s.db.videos[k] {
        assert VideoStored(s, k) && Backed(s, k);
      } else {
        var out := PhaseOf(s, actor.value).out;
        assert AboutToCommit(s, actor.value, k) && FinalStored(s, out) && Backed(s, k);
      }
    }
    forall v | PhaseOf(s', v).CommitReady?
      ensures FinalStored(s', PhaseOf(s', v).out)
    {
      if PhaseOf(s', v) == PhaseOf(s, v) {
        var out := PhaseOf(s, v).out;
        assert FinalStored(s, out) && Backed(s, FinalKey(Sha256(out))) && AboutToCommit(s, v, FinalKey(Sha256(out)));
      }
    }
  }

  lemma SafeStep(s: State, a: Action)
    requires SystemInv(s) && StagedInv(s) && FinalsSafe(s) && Enabled(s, a) && !UnsafeRemoval(s, a)
    ensures FinalsSafe(Apply(s, a))
  {
    StepMoves(s, a);
    hide SystemInv;
    hide StagedInv;
    hide FinalsSafe;
    hide Moves;
    hide Apply;
    hide Enabled;
    hide Removed;
    hide AboutToCommit;
    MoveKeepsSafe(s, Apply(s, a), Actor(a), Removed(s, a));
  }

  lemma RemovalTakesEffect(s: State, a: Action)
    requires Enabled(s, a) && Removed(s, a).Some?
    ensures var s' := Apply(s, a);
            && Removed(s, a).value !in s'.objects && s'.db == s.db
            && forall v :: v != a.w ==> PhaseOf(s', v) == PhaseOf(s, v)
  {
  }

  lemma UnsafeStep(s: State, a: Action)
    requires Enabled(s, a) && UnsafeRemoval(s, a)
    ensures !FinalsSafe(Apply(s, a))
  {
    RemovalTakesEffect(s, a);
    var key := Removed(s, a).value;
    var s' := Apply(s, a);
    hide Apply;
    if key in s.db.videos {
      assert !VideoStored(s', key);
    } else {
      var v :| AboutToCommit(s, v, key);
      assert v != a.w && PhaseOf(s', v) == PhaseOf(s, v);
      assert !FinalStored(s', PhaseOf(s', v).out);
    }
  }

  /** Every state of the run, the first and the last included. */
  ghost predicate AlwaysSafe(s: State, run: seq<Action>)
    requires ValidRun(s, run)
    decreases |run|
  {
    FinalsSafe(s) && (run == [] || AlwaysSafe(Apply(s, run[0]), run[1..]))
  }

  ghost predicate NeverUnsafe(s: State, run: seq<Action>)
    requires ValidRun(s, run)
    decreases |run|
  {
    run == [] || (!UnsafeRemoval(s, run[0]) && NeverUnsafe(Apply(s, run[0]), run[1..]))
  }

  lemma {:induction false} SafeExactly(s: State, run: seq<Action>)
    requires SystemInv(s) && StagedInv(s) && FinalsSafe(s) && ValidRun(s, run)
    ensures AlwaysSafe(s, run) <==> NeverUnsafe(s, run)
    decreases |run|
  {
    hide SystemInv;
    hide StagedInv;
    hide FinalsSafe;
    hide UnsafeRemoval;
    hide Apply;
    hide Enabled;
    if run != [] {
      var s' := Apply(s, run[0]);
      if UnsafeRemoval(s, run[0]) {
        UnsafeStep(s, run[0]);
      } else {
        SafeStep(s, run[0]);
        StepKeepsInv(s, run[0]);
        StepKeepsStaged(s, run[0]);
        SafeExactly(s', run[1..]);
      }
    }
  }

  lemma InitialFinals(s: State)
    requires Initial(s)
    ensures SystemInv(s) && StagedInv(s) && FinalsSafe(s)
  {
    InitialInv(s);
  }

  /**
   From an initial state, in every run, whatever raises, crashes or expires:
   every catalog row and every commit about to be made has its object in every
   state if and only if no compensation removes an object while a row names it
   or another attempt is about to commit it.
   */
  lemma FinalsSafeExactly(s: State, run: seq<Action>)
    requires Initial(s) && ValidRun(s, run)
    ensures AlwaysSafe(s, run) <==> NeverUnsafe(s, run)
  {
    InitialFinals(s);
    SafeExactly(s, run);
  }

  lemma {:induction false} SafeAtEnd(s: State, run: seq<Action>)
    requires ValidRun(s, run) && AlwaysSafe(s, run)
    ensures FinalsSafe(After(s, run))
    decreases |run|
  {
    hide FinalsSafe;
    hide Apply;
    hide Enabled;
    if run != [] {
      SafeAtEnd(Apply(s, run[0]), run[1..]);
    }
  }

  /******* Attempts with outputs of their own *******/

  ghost predicate OutputsDiffer(s: State, v: WorkerId, w: WorkerId) {
    Output(PhaseOf(s, v)).Some? && Output(PhaseOf(s, w)).Some? ==> Output(PhaseOf(s, v)) != Output(PhaseOf(s, w))
  }

  /** A worker about to remove its object has seen that no row names it. */
  ghost predicate Unreferenced(s: State, w: WorkerId) {
    PhaseOf(s, w).RemoveFinal? ==> FinalKey(Sha256(PhaseOf(s, w).out)) !in s.db.videos
  }

  ghost predicate FreshInv(s: State) {
    && (forall w :: Unreferenced(s, w))
    && (forall v, w :: v != w ==> OutputsDiffer(s, v, w))
  }

  /** The assumption: a produced output is none that another attempt still holds. */
  ghost predicate FreshOutput(s: State, a: Action) {
    a.Produce? ==> forall v :: v != a.w ==> Output(PhaseOf(s, v)) != Some(a.out)
  }

  ghost predicate FreshOutputs(s: State, run: seq<Action>)
    requires ValidRun(s, run)
    decreases |run|
  {
    run == [] || (FreshOutput(s, run[0]) && FreshOutputs(Apply(s, run[0]), run[1..]))
  }

  lemma FreshIsSafe(s: State, a: Action)
    requires FreshInv(s)
    ensures !UnsafeRemoval(s, a)
  {
    if Removed(s, a).Some? {
      assert Unreferenced(s, a.w);
      forall v
        ensures !AboutToCommit(s, v, Removed(s, a).value)
      {
        assert v == a.w || OutputsDiffer(s, v, a.w);
      }
    }
  }

  lemma ReturnKeepsOutput(s: State, w: WorkerId)
    requires Enabled(s, Proceed(w))
    ensures var phase' := PhaseOf(Return(s, w, PhaseOf(s, w)), w);
            && (Output(phase').None? || Output(phase') == Output(PhaseOf(s, w)))
            && Unreferenced(Return(s, w, PhaseOf(s, w)), w)
  {
    hide CommitReadyTx;
    hide FinishFailureTx;
    hide ClearCleanupTx;
  }

  /** The actor's output is the one it held, a new one of its own, or none. */
  lemma ActorOutput(s: State, a: Action)
    requires Enabled(s, a) && FreshOutput(s, a) && Actor(a).Some?
    ensures var w, s' := Actor(a).value, Apply(s, a);
            && (Output(PhaseOf(s', w)).None? || Output(PhaseOf(s', w)) == Output(PhaseOf(s, w))
                || forall v :: v != w ==> Output(PhaseOf(s, v)) != Output(PhaseOf(s', w)))
            && Unreferenced(s', w)
  {
    hide Return;
    hide RaiseAt;
    if a.Proceed? {
      ReturnKeepsOutput(s, a.w);
    } else if a.Raise? {
      RaiseOutput(s, a.w, a.error, a.effect);
    }
  }

  lemma FreshFrame(s: State, s': State, actor: Option<WorkerId>)
    requires FreshInv(s) && RowsMove(s, s', actor)
    requires forall w :: actor != Some(w) ==> PhaseOf(s', w) == PhaseOf(s, w)
    requires actor.Some? ==>
               var w := actor.value;
               && (Output(PhaseOf(s', w)).None? || Output(PhaseOf(s', w)) == Output(PhaseOf(s, w))
                   || forall v :: v != w ==> Output(PhaseOf(s, v)) != Output(PhaseOf(s', w)))
               && Unreferenced(s', w)
    ensures FreshInv(s')
  {
    forall w
      ensures Unreferenced(s', w)
    {
      if actor != Some(w) {
        assert Unreferenced(s, w);
        if actor.Some? {
          assert OutputsDiffer(s, w, actor.value);
        }
      }
    }
    forall v, w | v != w
      ensures OutputsDiffer(s', v, w)
    {
      assert OutputsDiffer(s, v, w);
    }
  }

  lemma FreshStep(s: State, a: Action)
    requires SystemInv(s) && StagedInv(s) && FreshInv(s) && Enabled(s, a) && FreshOutput(s, a)
    ensures FreshInv(Apply(s, a))
  {
    StepMoves(s, a);
    hide SystemInv;
    hide StagedInv;
    hide FreshInv;
    hide RowsMove;
    if Actor(a).Some? {
      ActorOutput(s, a);
    }
    forall w | Actor(a) != Some(w)
      ensures PhaseOf(Apply(s, a), w) == PhaseOf(s, w)
    {
      OthersKeepPhase(s, a, w);
    }
    hide Apply;
    hide FreshOutput;
    FreshFrame(s, Apply(s, a), Actor(a));
  }

  lemma {:induction false} FreshNeverUnsafe(s: State, run: seq<Action>)
    requires SystemInv(s) && StagedInv(s) && FreshInv(s) && ValidRun(s, run) && FreshOutputs(s, run)
    ensures NeverUnsafe(s, run)
    decreases |run|
  {
    hide SystemInv;
    hide StagedInv;
    hide FreshInv;
    hide FreshOutput;
    hide UnsafeRemoval;
    hide Apply;
    hide Enabled;
    if run != [] {
      FreshIsSafe(s, run[0]);
      StepKeepsInv(s, run[0]);
      StepKeepsStaged(s, run[0]);
      FreshStep(s, run[0]);
      FreshNeverUnsafe(Apply(s, run[0]), run[1..]);
    }
  }

  /**
   So where no attempt produces an output that another attempt in flight still
   holds, every catalog row of every reachable state has its object with the
   recorded hash and size, and every READY reel has such a row.
   */
  lemma FinalsStored(s: State, run: seq<Action>)
    requires Initial(s) && ValidRun(s, run) && FreshOutputs(s, run)
    ensures var s' := After(s, run);
            && (forall k :: k in s'.db.videos ==> VideoStored(s', k))
            && forall r :: IsReady(s', r) ==> s'.db.reels[r].video.Some? && s'.db.reels[r].video.value in s'.db.videos
  {
    InitialFinals(s);
    FinalsSafeExactly(s, run);
    FreshNeverUnsafe(s, run);
    SafeAtEnd(s, run);
    RunKeepsInv(s, run);
    var s' := After(s, run);
    DbOf(s');
    forall r | IsReady(s', r)
      ensures s'.db.reels[r].video.Some? && s'.db.reels[r].video.value in s'.db.videos
    {
      ReelRow(s'.db, r);
    }
  }
}
