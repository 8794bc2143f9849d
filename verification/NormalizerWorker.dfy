/**
 `run_once` with the worker's own control flow, over a world that other
 actors change before every call. Whatever the calls answer or raise, the
 worker only takes actions the step system allows, so every property of its
 runs holds of the worker as written.
 */
module NormalizerWorker {
  import opened Options
  import opened Transitions
  import opened NormalizerDb
  import opened NormalizerSystem
  import opened NormalizerSafety
  import opened NormalizerRuns
  import opened NormalizerOutcomes
  import opened NormalizerEffects

  /** One worker's process in its world; when it is calm no one else acts, no call raises and no one cancels. */
  class World {
    const w: WorkerId
    const calm: bool
    const product: Bytes  // what the media tools make of any source, when it is calm
    var s: State
    ghost const start: State
    ghost var trace: seq<Action>
    ghost var claimedAt: State    // the state right after the last claim
    ghost var since: seq<Action>  // the worker's calls since then, when it is calm

    ghost predicate Valid()
      reads this
    {
      && ValidRun(start, trace) && After(start, trace) == s
      && (calm ==> ValidRun(claimedAt, since) && After(claimedAt, since) == s && GoesOn([], since, w, product))
    }

    constructor (s: State, w: WorkerId, calm: bool, product: Bytes)
      ensures Valid() && this.s == start == s && trace == [] && this.w == w && this.calm == calm && this.product == product
    {
      this.s, start, trace, claimedAt, since := s, s, [], s, [];
      this.w, this.calm, this.product := w, calm, product;
    }

    method Act(a: Action)
      requires Valid() && Enabled(s, a) && (calm ==> a == Proceed(w) || a == Produce(w, product))
      modifies this`s, this`trace, this`since
      ensures Valid() && s == Apply(old(s), a) && trace == old(trace) + [a]
    {
      hide Apply;
      hide Enabled;
      RunAppend(start, trace, a);
      if calm {
        RunAppend(claimedAt, since, a);
      }
      s := Apply(s, a);
      trace := trace + [a];
      since := since + [a];
    }

    /** A claim begins a new attempt. */
    method TakeClaim(j: JobId, leaseSeconds: nat)
      requires Valid() && Enabled(s, ClaimJob(w, j, leaseSeconds))
      modifies this
      ensures Valid() && trace == old(trace) + [ClaimJob(w, j, leaseSeconds)]
      ensures s == Apply(old(s), ClaimJob(w, j, leaseSeconds)) == claimedAt
    {
      hide Apply;
      hide Enabled;
      RunAppend(start, trace, ClaimJob(w, j, leaseSeconds));
      s := Apply(s, ClaimJob(w, j, leaseSeconds));
      trace := trace + [ClaimJob(w, j, leaseSeconds)];
      claimedAt, since := s, [];
    }

    /** Other workers, reconcilers, collectors and the clock. */
    method Others()
      requires Valid()
      modifies this
      ensures Valid() && old(trace) <= trace && claimedAt == old(claimedAt) && PhaseOf(s, w) == old(PhaseOf(s, w))
      ensures calm ==> s == old(s)
    {
      hide Apply;
      hide PhaseOf;
      var n: nat := *;
      while n > 0
        invariant Valid() && old(trace) <= trace && claimedAt == old(claimedAt) && PhaseOf(s, w) == old(PhaseOf(s, w))
        invariant calm ==> s == old(s)
      {
        var a: Action := *;
        if !calm && Actor(a) != Some(w) && Enabled(s, a) {
          OthersKeepPhase(s, a, w);
          Act(a);
        }
        n := n - 1;
      }
    }

    /** The pending call of the worker: it returns or raises, in the world it then meets. */
    method Call() returns (raised: Option<Error>, seen: State)
      requires Valid() && !PhaseOf(s, w).Idle? && !PhaseOf(s, w).NormalizeMedia?
      modifies this
      ensures Valid() && old(trace) <= trace && claimedAt == old(claimedAt)
      ensures PhaseOf(seen, w) == old(PhaseOf(s, w))
      ensures match raised
              case None => s == Return(seen, w, PhaseOf(seen, w))
              case Some(error) =>
                || s == RaiseAt(seen, w, PhaseOf(seen, w), error, true)
                || s == RaiseAt(seen, w, PhaseOf(seen, w), error, false)
    {
      Others();
      seen := s;
      var fails: bool := *;
      if fails && !calm {
        var error: Error, effect: bool := *, *;
        raised := Some(error);
        Act(Raise(w, error, effect));
      } else {
        raised := None;
        Act(Proceed(w));
      }
    }

    /** A check that raises before the next call: cancellation, a probe, an incompatible output. */
    method Check(c: Claim, error: Error) returns (raised: bool)
      requires Valid() && BeforeUpload(PhaseOf(s, w), c)
      modifies this
      ensures Valid() && old(trace) <= trace && claimedAt == old(claimedAt)
      ensures PhaseOf(s, w) == if raised then FinishFailure(c, error) else old(PhaseOf(s, w))
    {
      raised := *;
      raised := raised && !calm;
      if raised {
        Act(Raise(w, error, false));
      }
    }

    /** `_emit`: the progress callback may raise, and what it raises is classified like any other error. */
    method Emit(c: Claim) returns (exn: Option<Error>)
      requires Valid() && (BeforeUpload(PhaseOf(s, w), c) || AfterPublication(PhaseOf(s, w), c))
      modifies this
      ensures Valid() && old(trace) <= trace && claimedAt == old(claimedAt)
      ensures PhaseOf(s, w) == if exn.Some? then FinishFailure(c, exn.value) else old(PhaseOf(s, w))
    {
      exn := *;
      if calm {
        exn := None;
      }
      if exn.Some? {
        if BeforeUpload(PhaseOf(s, w), c) {
          Act(Raise(w, exn.value, false));
        } else {
          Act(StopBetween(w, exn.value));
        }
      }
    }

    /** The cancellation check between publication and commit, outside the try: nothing is compensated. */
    method CancelledBeforeCommit(c: Claim, out: Bytes, created: bool) returns (cancelled: bool)
      requires Valid() && PhaseOf(s, w) == CommitReady(c, out, created)
      modifies this
      ensures Valid() && old(trace) <= trace && claimedAt == old(claimedAt)
      ensures PhaseOf(s, w) == if cancelled then FinishFailure(c, Cancelled) else CommitReady(c, out, created)
    {
      cancelled := *;
      cancelled := cancelled && !calm;
      if cancelled {
        Act(StopBetween(w, Cancelled));
      }
    }

    /** `_download_and_verify_source`. */
    method DownloadAndVerifySource(c: Claim) returns (exn: Option<Error>)
      requires Valid() && PhaseOf(s, w) == StatSource(c)
      modifies this
      ensures Valid() && old(trace) <= trace && claimedAt == old(claimedAt)
      ensures PhaseOf(s, w) == if exn.Some? then FinishFailure(c, exn.value) else NormalizeMedia(c)
    {
      var raised, seen := Call();  // stat
      if raised.Some? {
        return raised;
      }
      if c.source.key !in seen.objects {
        return Some(ObjectNotFound);
      }
      if |seen.objects[c.source.key]| != c.source.size {
        return Some(SizeMismatch);
      }
      raised, seen := Call();  // download_file
      if raised.Some? {
        return raised;
      }
      if c.source.key !in seen.objects {
        return Some(ObjectNotFound);
      }
      if |seen.objects[c.source.key]| != c.source.size {
        return Some(SizeMismatch);
      }
      if Sha256(seen.objects[c.source.key]) != c.source.sha {
        return Some(HashMismatch);
      }
      var unreadable := Check(c, ProbeError);
      exn := if unreadable then Some(ProbeError) else None;
    }

    /** `normalize_video`: it raises or produces output. */
    method NormalizeVideo(c: Claim) returns (exn: Option<Error>, out: Bytes)
      requires Valid() && PhaseOf(s, w) == NormalizeMedia(c)
      modifies this
      ensures Valid() && old(trace) <= trace && claimedAt == old(claimedAt)
      ensures PhaseOf(s, w) == if exn.Some? then FinishFailure(c, exn.value) else UploadStaging(c, out)
    {
      out, exn := *, *;
      if calm {
        out, exn := product, None;
      }
      Others();
      if exn.Some? {
        Act(Raise(w, exn.value, false));
      } else {
        Act(Produce(w, out));
      }
    }

    method UploadOutput(c: Claim, out: Bytes) returns (exn: Option<Error>)
      requires Valid() && PhaseOf(s, w) == UploadStaging(c, out)
      modifies this
      ensures Valid() && old(trace) <= trace && claimedAt == old(claimedAt)
      ensures PhaseOf(s, w) == if exn.Some? then FinishFailure(c, exn.value) else StatFinal(c, out)
    {
      var raised, seen := Call();
      exn := raised;
    }

    /** The media normalizer, its checks, and the upload of its output. */
    method NormalizeAndUpload(c: Claim) returns (exn: Option<Error>, out: Bytes)
      requires Valid() && PhaseOf(s, w) == NormalizeMedia(c)
      modifies this
      ensures Valid() && old(trace) <= trace && claimedAt == old(claimedAt)
      ensures PhaseOf(s, w) == if exn.Some? then FinishFailure(c, exn.value) else StatFinal(c, out)
    {
      hide PhaseOf;
      hide ValidRun;
      hide After;
      exn, out := NormalizeVideo(c);
      if exn.Some? {
        return;
      }
      exn := Emit(c);
      if exn.Some? {
        return;
      }
      var cancelled := Check(c, Cancelled);
      if cancelled {
        return Some(Cancelled), out;
      }
      var incompatible := Check(c, CompatibilityError);
      if incompatible {
        return Some(CompatibilityError), out;
      }
      exn := UploadOutput(c, out);
      if exn.None? {
        exn := Emit(c);
      }
    }

    /** `_compensate_final_if_unreferenced`; it never raises. */
    method CompensateFinal(c: Claim, out: Bytes, created: bool, error: Error)
      requires Valid() && PhaseOf(s, w) == Compensate(c, out, created, error)
      modifies this
      ensures Valid() && old(trace) <= trace && claimedAt == old(claimedAt) && PhaseOf(s, w) == FinishFailure(c, error)
    {
      if !created {
        return;
      }
      var raised, seen := Call();  // the reference check
      if raised.Some? || FinalKey(Sha256(out)) in seen.db.videos {
        return;
      }
      raised, seen := Call();  // remove
    }

    /** `_verify_final`, with the compensation that its caller attaches to a copy of its own. */
    method VerifyFinalObject(c: Claim, out: Bytes, created: bool) returns (exn: Option<Error>)
      requires Valid() && PhaseOf(s, w) == VerifyFinal(c, out, created)
      modifies this
      ensures Valid() && old(trace) <= trace && claimedAt == old(claimedAt)
      ensures PhaseOf(s, w) == if exn.Some? then FinishFailure(c, exn.value) else CommitReady(c, out, created)
    {
      var raised, seen := Call();
      var key := FinalKey(Sha256(out));
      exn := if raised.Some? then raised
             else if key !in seen.objects then Some(ObjectNotFound)
             else if Sha256(seen.objects[key]) != Sha256(out) || |seen.objects[key]| != |out| then Some(FinalConflict)
             else None;
      if exn.Some? {
        CompensateFinal(c, out, created, exn.value);
      }
    }

    /** `_publish_final`: copy unless the content-addressed object is there, and verify either way. */
    method PublishFinal(c: Claim, out: Bytes) returns (exn: Option<Error>, created: bool)
      requires Valid() && PhaseOf(s, w) == StatFinal(c, out)
      modifies this
      ensures Valid() && old(trace) <= trace && claimedAt == old(claimedAt)
      ensures PhaseOf(s, w) == if exn.Some? then FinishFailure(c, exn.value) else CommitReady(c, out, created)
    {
      hide ValidRun;
      hide After;
      created := false;
      var key := FinalKey(Sha256(out));
      var raised, seen := Call();  // stat
      if raised.Some? {
        return raised, false;
      }
      if key in seen.objects {
        if |seen.objects[key]| != |out| {
          return Some(FinalConflict), false;
        }
      } else {
        raised, seen := Call();  // copy
        if raised.Some? {
          return raised, false;
        }
        if StagingKey(c.job, c.attempt) !in seen.objects {
          return Some(ObjectNotFound), false;
        }
        created := true;
      }
      exn := VerifyFinalObject(c, out, created);
    }

    /** `_commit_ready` and the handler around it. */
    method CommitOrCompensate(c: Claim, out: Bytes, created: bool) returns (exn: Option<Error>)
      requires Valid() && PhaseOf(s, w) == CommitReady(c, out, created)
      modifies this
      ensures Valid() && old(trace) <= trace && claimedAt == old(claimedAt)
      ensures PhaseOf(s, w) == if exn.Some? then FinishFailure(c, exn.value) else RemoveSource(c)
    {
      hide CommitReadyTx;
      var raised, seen := Call();
      if raised.Some? {
        exn := raised;
      } else {
        match CommitReadyTx(seen.db, c, w, out) {
          case Committed(_) => return None;
          case NotOwner => exn := Some(Cancelled);
          case Conflict => exn := Some(FinalConflict);
          case IntegrityError => exn := Some(SqlError);
        }
      }
      CompensateFinal(c, out, created, exn.value);
    }

    /** `_cleanup_source_after_commit`: a failed removal is left to the reconciler. */
    method CleanupSourceAfterCommit(c: Claim) returns (exn: Option<Error>)
      requires Valid() && PhaseOf(s, w) == RemoveSource(c)
      modifies this
      ensures Valid() && old(trace) <= trace && claimedAt == old(claimedAt)
      ensures PhaseOf(s, w) == if exn.Some? then FinishFailure(c, exn.value) else CleanStaging(c)
    {
      var raised, seen := Call();  // remove
      if raised.Some? {
        return None;
      }
      raised, seen := Call();  // clear the pending flag
      exn := raised;
    }

    /** `_process` up to the publication of the output. */
    method Publish(c: Claim) returns (exn: Option<Error>, out: Bytes, created: bool)
      requires Valid() && PhaseOf(s, w) == StatSource(c)
      modifies this
      ensures Valid() && old(trace) <= trace && claimedAt == old(claimedAt)
      ensures PhaseOf(s, w) == if exn.Some? then FinishFailure(c, exn.value) else CommitReady(c, out, created)
    {
      hide PhaseOf;
      hide ValidRun;
      hide After;
      out, created := [], false;
      var cancelled := Check(c, Cancelled);
      if cancelled {
        return Some(Cancelled), out, created;
      }
      exn := SourceVerified(c);
      if exn.Some? {
        return;
      }
      exn, out := NormalizeAndUpload(c);
      if exn.Some? {
        return;
      }
      exn, created := PublishFinal(c, out);
      if exn.Some? {
        return;
      }
      exn := Emit(c);
    }

    method SourceVerified(c: Claim) returns (exn: Option<Error>)
      requires Valid() && PhaseOf(s, w) == StatSource(c)
      modifies this
      ensures Valid() && old(trace) <= trace && claimedAt == old(claimedAt)
      ensures PhaseOf(s, w) == if exn.Some? then FinishFailure(c, exn.value) else NormalizeMedia(c)
    {
      hide PhaseOf;
      hide ValidRun;
      hide After;
      exn := DownloadAndVerifySource(c);
      if exn.Some? {
        return;
      }
      exn := Emit(c);
      if exn.Some? {
        return;
      }
      var cancelled := Check(c, Cancelled);
      exn := if cancelled then Some(Cancelled) else None;
    }

    /** `_process`. */
    method Process(c: Claim) returns (exn: Option<Error>)
      requires Valid() && PhaseOf(s, w) == StatSource(c)
      modifies this
      ensures Valid() && old(trace) <= trace && claimedAt == old(claimedAt)
      ensures PhaseOf(s, w) == if exn.Some? then FinishFailure(c, exn.value) else CleanStaging(c)
    {
      hide PhaseOf;
      hide ValidRun;
      hide After;
      var out, created;
      exn, out, created := Publish(c);
      if exn.Some? {
        return;
      }
      var cancelled := CancelledBeforeCommit(c, out, created);
      if cancelled {
        return Some(Cancelled);
      }
      exn := CommitOrCompensate(c, out, created);
      if exn.Some? {
        return;
      }
      exn := Emit(c);
      if exn.Some? {
        return;
      }
      exn := CleanupSourceAfterCommit(c);
      if exn.None? {
        exn := Emit(c);
      }
    }

    /** `claim`; the row may be locked by another worker, unless it is calm. */
    method ClaimNext(leaseSeconds: nat) returns (claimed: Option<Claim>)
      requires Valid() && PhaseOf(s, w).Idle?
      modifies this
      ensures Valid() && old(trace) <= trace
      ensures PhaseOf(s, w) == if claimed.Some? then StatSource(claimed.value) else Idle
      ensures calm && SystemInv(old(s)) ==>
                if claimed.Some? then
                  && Enabled(old(s), ClaimJob(w, claimed.value.job, leaseSeconds))
                  && claimedAt == Apply(old(s), ClaimJob(w, claimed.value.job, leaseSeconds))
                else s == old(s) && forall j :: !Claimable(s.db, j)
    {
      Others();
      var j: JobId := *;  // the row the SELECT finds, if any
      if !Claimable(s.db, j) && calm {
        j := FirstClaimable();
      }
      claimed := None;
      if Claimable(s.db, j) {
        if SystemInv(s) {
          ClaimsSome(s, j, w, s.now + leaseSeconds);
        }
        TakeClaim(j, leaseSeconds);
        if !PhaseOf(s, w).Idle? {
          claimed := Some(PhaseOf(s, w).c);
        }
      }
    }

    method FirstClaimable() returns (j: JobId)
      ensures Claimable(s.db, j) || forall i :: !Claimable(s.db, i)
    {
      j := 0;
      while j < |s.db.jobs| && !Claimable(s.db, j)
        invariant forall i :: 0 <= i < j ==> !Claimable(s.db, i)
      {
        j := j + 1;
      }
    }

    /** `_finish_failure`, whose own failure is left to the lease. */
    method FinishWithFailure(c: Claim, error: Error)
      requires Valid() && PhaseOf(s, w) == FinishFailure(c, error)
      modifies this
      ensures Valid() && old(trace) <= trace && claimedAt == old(claimedAt) && PhaseOf(s, w) == CleanStaging(c)
    {
      var raised, seen := Call();
    }

    method CleanupStaging(c: Claim)
      requires Valid() && PhaseOf(s, w) == CleanStaging(c)
      modifies this
      ensures Valid() && old(trace) <= trace && claimedAt == old(claimedAt) && PhaseOf(s, w).Idle?
    {
      var raised, seen := Call();
    }

    /** The process drops the claim; the lease is what frees its job. */
    method Abandon()
      requires Valid() && !calm
      modifies this
      ensures Valid() && old(trace) <= trace && claimedAt == old(claimedAt) && PhaseOf(s, w).Idle?
    {
      Act(Crash(w));
    }

    /** The try of `run_once` with its handlers, whose own event may raise, and the cleanup that runs in any case. */
    method Attempt(c: Claim) returns (raised: bool)
      requires Valid() && PhaseOf(s, w) == StatSource(c)
      modifies this
      ensures Valid() && old(trace) <= trace && claimedAt == old(claimedAt) && PhaseOf(s, w).Idle?
      ensures calm ==> !raised
    {
      hide PhaseOf;
      hide ValidRun;
      hide After;
      raised := false;
      var exn := Process(c);
      if exn.Some? {
        FinishWithFailure(c, exn.value);
        raised := *;
        raised := raised && !calm;
      }
      CleanupStaging(c);
    }

    /**
     `run_once`. Every action it takes is one the step system allows, and it ends
     idle, also when it raises. When it is calm and a job waits, it works on
     one, and delivers its reel if the video it makes is acceptable.
     */
    method RunOnce(leaseSeconds: nat) returns (worked: bool, raised: bool, ghost j: JobId)
      requires Valid() && PhaseOf(s, w).Idle?
      modifies this
      ensures Valid() && old(trace) <= trace && PhaseOf(s, w).Idle?
      ensures SystemInv(start) ==> SystemInv(s)
      ensures calm && SystemInv(old(s)) && (exists i :: Claimable(old(s).db, i)) ==>
                && worked && !raised && Claimable(old(s).db, j)
                && (Acceptable(old(s), old(s).db.jobs[j].reel, product) ==>
                      && Delivered(s, old(s).db.jobs[j].reel, product)
                      && j < |s.db.jobs| && s.db.jobs[j].status.Completed?)
      ensures calm && SystemInv(old(s)) && (forall i :: !Claimable(old(s).db, i)) ==> !worked && !raised && s == old(s)
    {
      hide SystemInv;
      hide PhaseOf;
      hide ValidRun;
      hide After;
      hide Apply;
      hide Acceptable;
      hide Delivered;
      ghost var before := s;
      worked, raised, j := false, false, 0;
      var cancelled: bool := *;
      if !cancelled || calm {
        var claimed := ClaimNext(leaseSeconds);
        if claimed.Some? {
          j := claimed.value.job;
          raised := *;  // the callback's first event, outside the try
          raised := raised && !calm;
          if raised {
            Abandon();
          } else {
            raised := Attempt(claimed.value);
            worked := !raised;
          }
        }
      }
      if SystemInv(start) {
        RunKeepsInv(start, trace);
      }
      if calm && SystemInv(before) && worked && Acceptable(before, before.db.jobs[j].reel, product) {
        CalmAttemptDelivers(before, w, j, leaseSeconds, product, claimedAt, since);
      }
    }
  }

  /** In a consistent system the claim of a waiting job hands it out. */
  lemma ClaimsSome(s: State, j: JobId, w: WorkerId, lease: int)
    requires SystemInv(s) && Claimable(s.db, j)
    ensures ClaimTx(s.db, j, w, lease).1.Some? && ClaimTx(s.db, j, w, lease).1.value.job == j
  {
    DbOf(s);
    ClaimEffect(s.db, j, w, lease);
  }

  predicate BeforeUpload(phase: Phase, c: Claim) {
    || phase == StatSource(c)
    || phase == NormalizeMedia(c)
    || (phase.UploadStaging? && phase.c == c)
    || (phase.StatFinal? && phase.c == c)
  }

  /** The phases between two calls once the output is published, where nothing but the failure is written. */
  predicate AfterPublication(phase: Phase, c: Claim) {
    (phase.CommitReady? || phase.RemoveSource? || phase.CleanStaging?) && phase.c == c
  }
}
