/**
 The Collector's one long loop: observe a reel, acquire it, confirm it in the
 database, and only then move the feed on. Every port may raise at every call;
 `:= *` stands for whatever the browser, the downloader, the store or the clock answers.
 */
module CollectorEngine {
  import opened Options
  import opened Transitions
  import opened NormalizerDb
  import opened NormalizerEffects
  import opened CollectorRuns
  import opened CollectorPorts

  /******* Sources are referenced or withdrawn *******/

  /** A source object this run created is gone, or its delete raised, or its reel references it. */
  ghost predicate Accounted(shelf: Shelf, b: Books, r: RunId, key: ObjectKey) {
    || key !in shelf.objects
    || key in shelf.undeleted
    || (key.SourceKey? && SourceReferenced(b, r, key.shortcode))
  }

  ghost predicate AllAccounted(shelf: Shelf, b: Books, r: RunId) {
    forall key :: key in shelf.created ==> Accounted(shelf, b, r, key)
  }

  /** One attempt ended: any object it created is committed, withdrawn, or its delete raised. */
  ghost predicate AttemptClosed(shelf: Shelf, shelf': Shelf, reel: Shortcode, committed: bool) {
    && (forall key :: key in shelf'.created ==> key in shelf.created || key == SourceKey(reel))
    && shelf.undeleted <= shelf'.undeleted
    && (forall key :: key in shelf'.objects && key !in shelf.objects ==>
          key == SourceKey(reel) && (committed || key in shelf'.undeleted))
  }

  lemma AttemptKeepsAccounted(shelf: Shelf, shelf': Shelf, b: Books, b': Books, r: RunId, reel: Shortcode,
                              written: Option<ItemOutcome>)
    requires AllAccounted(shelf, b, r) && Wrote(b, b', r, reel, written)
    requires AttemptClosed(shelf, shelf', reel, written == Some(SourceCommitted))
    requires SourceKey(reel) in shelf'.created && SourceKey(reel) !in shelf.created && SourceKey(reel) in shelf'.objects ==>
               written == Some(SourceCommitted) || SourceKey(reel) in shelf'.undeleted
    ensures AllAccounted(shelf', b', r)
  {
    forall key | key in shelf'.created
      ensures Accounted(shelf', b', r, key)
    {
      if written == Some(SourceCommitted) && key == SourceKey(reel) {
        CommittedIsReferenced(b, b', r, reel);
      } else if key in shelf.created && key.SourceKey? {
        WroteKeepsSettled(b, b', r, reel, written, key.shortcode);
      }
    }
  }

  lemma CommittedIsReferenced(b: Books, b': Books, r: RunId, reel: Shortcode)
    requires Wrote(b, b', r, reel, Some(SourceCommitted))
    ensures SourceReferenced(b', r, reel)
  {
    var item := Item(r, reel, Total(b.runs[r]) + 1, SourceCommitted);
    assert item in b'.items;
  }

  lemma NothingWritten(b: Books, r: RunId, reel: Shortcode)
    requires r in b.runs
    ensures Wrote(b, b, r, reel, None)
  {
  }

  lemma StillThere(b: Books, b': Books, r: RunId, reel: Shortcode, written: Option<ItemOutcome>)
    requires Wrote(b, b', r, reel, written)
    ensures r in b'.runs
  {
  }

  /******* The loop's locals *******/

  datatype LoopEnd = TargetMet | Abandoned(reason: StopReason) | Threw(exn: Exn)

  /** A ValueError, a failed `create_run`, or the summary of a run. */
  datatype CollectResult =
    | Rejected
    | NotStarted
    | Summary(run: RunId, status: RunStatus, target: nat, committed: nat, available: nat, failed: nat,
              confirmedAdvances: nat, reason: Option<StopReason>, observations: nat, skipped: nat)

  datatype Tally = Tally(observations: nat, confirmedAdvances: nat, transitionOperations: nat, skipped: nat,
                         scrollActions: nat, committedBytes: nat, seen: set<Shortcode>)

  /** Observations are settled reels plus at most the one on which the run stopped. */
  ghost predicate Tallied(run: Run, t: Tally) {
    var settled := run.committed + run.available + t.skipped;
    && settled <= t.observations <= settled + 1
    && run.failed <= t.observations - settled
    && t.confirmedAdvances <= t.observations <= t.confirmedAdvances + 1
  }

  /** A completed run: target met exactly, no failures, and in continuation exactly the desired account total. */
  ghost predicate Achieved(b: Books, r: RunId, target: nat, desired: Option<nat>, t: Tally)
    requires r in b.runs
  {
    var run := b.runs[r];
    && run.status.RunCompleted? && run.failed == 0
    && run.committed + run.available == target
    && t.observations == target + t.skipped
    && (desired.Some? ==> OwnsExactly(b.runs, b.items, b.db, run.account, desired.value))
  }

  /******* What the feed answered *******/

  /** Every one of these reels was answered as a canonical candidate. */
  ghost predicate AllOffered(offers: seq<Option<Candidate>>, reels: set<Shortcode>) {
    forall reel :: reel in reels ==> Some(Candidate(reel, true)) in offers
  }

  ghost predicate LastRepeats(offers: seq<Option<Candidate>>) {
    offers != [] && offers[|offers| - 1].Some? && offers[|offers| - 1] in offers[..|offers| - 1]
  }

  predicate LastInvalid(offers: seq<Option<Candidate>>) {
    offers != [] && offers[|offers| - 1].Some? && !offers[|offers| - 1].value.canonical
  }

  predicate LastAbsent(offers: seq<Option<Candidate>>, n: nat) {
    |offers| >= n && forall i :: |offers| - n <= i < |offers| ==> offers[i].None?
  }

  predicate LastIs(offers: seq<Option<Candidate>>, reel: Shortcode) {
    offers != [] && offers[|offers| - 1] == Some(Candidate(reel, true))
  }

  /** No more advances than confirmed ones, unless the feed once answered nothing. */
  predicate ScrollsConfirmed(t: Tally, scrolls: int, offers: seq<Option<Candidate>>) {
    scrolls <= t.confirmedAdvances || None in offers
  }

  /** The reel about to be observed is the feed's last answer, and those seen are among the earlier ones. */
  ghost predicate Shown(offers: seq<Option<Candidate>>, t: Tally, reel: Shortcode) {
    && LastIs(offers, reel)
    && AllOffered(offers[..|offers| - 1], t.seen)
    && ScrollsConfirmed(t, t.scrollActions, offers)
  }

  /** Between two reels. */
  ghost predicate Followed(offers: seq<Option<Candidate>>, t: Tally) {
    AllOffered(offers, t.seen) && ScrollsConfirmed(t, t.scrollActions, offers)
  }

  lemma FollowedThenShown(offers: seq<Option<Candidate>>, answers: seq<Option<Candidate>>, t: Tally, t': Tally, next: Shortcode)
    requires Followed(offers, t) && LastIs(answers, next)
    requires t'.seen == t.seen && t'.confirmedAdvances == t.confirmedAdvances + 1
    requires t'.scrollActions <= t.scrollActions + 1 || None in answers
    ensures Shown(offers + answers, t', next)
  {
    var all := offers + answers;
    assert all[..|all| - 1] == offers + answers[..|answers| - 1];
    assert forall o :: o in offers ==> o in all[..|all| - 1];
    assert None in offers || None in answers ==> None in all;
  }

  lemma RejectedRepeats(offers: seq<Option<Candidate>>, answers: seq<Option<Candidate>>, reels: set<Shortcode>, reel: Shortcode)
    requires AllOffered(offers, reels) && reel in reels && LastIs(answers, reel)
    ensures LastRepeats(offers + answers)
  {
    var all := offers + answers;
    assert all[..|all| - 1] == offers + answers[..|answers| - 1];
  }

  lemma ShownThenFollowed(offers: seq<Option<Candidate>>, t: Tally, reel: Shortcode, t': Tally)
    requires Shown(offers, t, reel) && t'.seen == t.seen + {reel}
    requires t'.scrollActions == t.scrollActions && t'.confirmedAdvances == t.confirmedAdvances
    ensures Followed(offers, t')
    ensures reel in t.seen ==> LastRepeats(offers)
  {
    assert forall o :: o in offers[..|offers| - 1] ==> o in offers;
  }

  /******* One reel in a calm run *******/

  /**
   What becomes of an observed reel when nothing goes wrong: the account's own
   is skipped, a durable one is linked, and any other is acquired unless the
   byte limit stops the run.
   */
  ghost predicate Handled(b: Books, b': Books, r: RunId, reel: Shortcode, continuation: bool, limited: bool,
                          step: Step, skipped: bool, written: Option<ItemOutcome>)
    requires r in b.runs
  {
    if continuation && Owns(b.runs, b.items, b.db, b.runs[r].account, reel) then
      step.Proceed? && skipped && written.None? && Steady(b, b', r)
    else if !HasRoom(b.runs, b.items, r, reel) then true
    else if reel in b.db.reels && b.db.reels[reel].status in {SourceReady, Normalizing, Ready} then
      step.Proceed? && !skipped && written == Some(AlreadyAvailable) && Steady(b, b', r)
    else
      || (limited && step == Stop(RunByteLimitExceeded))
      || (step.Proceed? && !skipped && written == Some(SourceCommitted) && DurableReel(b'.db, reel) && Steady(b, b', r))
  }

  /** What becomes of a reel the account does not own, in terms of the rows when its status is looked at. */
  ghost predicate Settlement(b: Books, b': Books, r: RunId, reel: Shortcode, limited: bool,
                             step: Step, written: Option<ItemOutcome>) {
    && (reel in b.db.reels && Durable(b.db.reels[reel].status) && HasRoom(b.runs, b.items, r, reel) ==>
          step.Proceed? && written == Some(AlreadyAvailable) && Steady(b, b', r))
    && (CanCommit(b, r, reel) ==>
          || (limited && step == Stop(RunByteLimitExceeded))
          || (step.Proceed? && written == Some(SourceCommitted) && DurableReel(b'.db, reel) && Steady(b, b', r)))
  }

  /** The decision in terms of the rows before the reel. */
  lemma QuietHandled(b: Books, mid: Books, b': Books, r: RunId, reel: Shortcode, continuation: bool, limited: bool,
                     owned: bool, step: Step, skipped: bool, written: Option<ItemOutcome>)
    requires Quiet(b, mid, r) && (owned <==> continuation && Owns(b.runs, b.items, b.db, b.runs[r].account, reel))
    requires owned ==> step.Proceed? && skipped && written.None? && b' == mid
    requires !owned ==> !skipped && Settlement(mid, b', r, reel, limited, step, written)
    ensures Handled(b, b', r, reel, continuation, limited, step, skipped, written)
  {
    hide Owns;
    hide HasRoom;
    hide Steady;
    QuietCanCommit(b, mid, r, reel);
    UndisturbedIsSteady(b, mid, r);
    if Steady(mid, b', r) {
      QuietThenSteady(b, mid, b', r);
    }
  }

  predicate FreshRun(runs: map<RunId, Run>, r: RunId) {
    r in runs && runs[r].status.RunRunning? && Total(runs[r]) == 0
  }

  ghost predicate OthersKept(runs: map<RunId, Run>, runs': map<RunId, Run>, r: RunId) {
    && (forall q :: q in runs && q != r ==> q in runs' && runs'[q] == runs[q])
    && (r in runs ==> r in runs' && runs'[r].account == runs[r].account && runs'[r].target == runs[r].target)
  }

  lemma OthersKeptTrans(runs: map<RunId, Run>, mid: map<RunId, Run>, runs': map<RunId, Run>, r: RunId)
    requires OthersKept(runs, mid, r) && OthersKept(mid, runs', r)
    ensures OthersKept(runs, runs', r)
  {
  }

  lemma AccountKept(runs: map<RunId, Run>, runs': map<RunId, Run>, r: RunId)
    requires OthersKept(runs, runs', r) && r in runs
    ensures r in runs' && runs'[r].account == runs[r].account
  {
  }

  lemma RowWritten(b: Books, b': Books, r: RunId, reel: Shortcode, written: Option<ItemOutcome>)
    requires Wrote(b, b', r, reel, written)
    ensures r in b.runs && r in b'.runs
    ensures SameRow(if written.None? then b.runs[r] else Counted(b.runs[r], written.value), b'.runs[r])
    ensures OthersKept(b.runs, b'.runs, r)
  {
  }

  lemma Unwritten(shelf: Shelf, b: Books, b': Books, r: RunId, reel: Shortcode)
    requires AllAccounted(shelf, b, r) && Wrote(b, b', r, reel, None)
    ensures AllAccounted(shelf, b', r)
    ensures r in b.runs && r in b'.runs && SameRow(b.runs[r], b'.runs[r])
    ensures b'.runs[r].committed == b.runs[r].committed && b'.runs[r].available == b.runs[r].available
    ensures OthersKept(b.runs, b'.runs, r)
    ensures RunBytes(b'.items, b'.db, r) == RunBytes(b.items, b.db, r)
    ensures Settled(b, r, reel) ==> Settled(b', r, reel)
  {
    AccountedStays(shelf, b, b', r, reel, None);
    WroteBytes(b, b', r, reel, None);
    WroteKeepsSettled(b, b', r, reel, None, reel);
  }

  lemma AccountedIgnoresRuns(shelf: Shelf, b: Books, b': Books, r: RunId)
    requires AllAccounted(shelf, b, r) && b'.items == b.items && b'.db == b.db
    ensures AllAccounted(shelf, b', r)
  {
    forall key | key in shelf.created
      ensures Accounted(shelf, b', r, key)
    {
      assert Accounted(shelf, b, r, key);
    }
  }

  lemma DurableIgnoresStatus(runs: map<RunId, Run>, runs': map<RunId, Run>, items: seq<Item>, db: Db, r: RunId)
    requires r in runs && OthersKept(runs, runs', r) && runs'.Keys == runs.Keys
    ensures AccountDurable(runs', items, db, runs[r].account) == AccountDurable(runs, items, db, runs[r].account)
  {
  }

  lemma NothingCreated(shelf: Shelf, b: Books, r: RunId)
    requires shelf.created == {}
    ensures AllAccounted(shelf, b, r)
  {
  }

  /** A run whose counters are zero has no items, so it has committed no bytes. */
  lemma FreshRunBytes(b: Books, r: RunId)
    requires BooksOk(b.runs, b.items) && FreshRun(b.runs, r)
    ensures RunBytes(b.items, b.db, r) == 0
  {
    assert Balanced(b.items, r, b.runs[r]);
    NoItemsNoBytes(b.items, b.db, r);
  }

  lemma {:induction false} NoItemsNoBytes(items: seq<Item>, db: Db, r: RunId)
    requires ItemsOf(items, r) == []
    ensures RunBytes(items, db, r) == 0
  {
    if items != [] {
      var n := |items| - 1;
      NoItemsNoBytes(items[..n], db, r);
    }
  }

  /******* The engine *******/

  class Engine {
    const limits: Limits
    const persistence: Persistence
    const feed: Feed
    const storage: SourceStorage
    const calm: bool  // no port raises, the deadline does not come, no one cancels, and no durable reel fails

    constructor (limits: Limits, persistence: Persistence, feed: Feed, storage: SourceStorage, calm: bool)
      ensures this.limits == limits && this.persistence == persistence && this.feed == feed && this.storage == storage
      ensures this.calm == calm
    {
      this.limits, this.persistence, this.feed, this.storage, this.calm := limits, persistence, feed, storage, calm;
    }

    method DeadlineExpired() returns (expired: bool)
      ensures expired ==> limits.deadlineSeconds.Some? && !calm
    {
      var late: bool := *;
      expired := limits.deadlineSeconds.Some? && late && !calm;
    }

    /** Any port call that touches neither rows nor objects: it returns or raises, and meanwhile others act. */
    method Call(r: RunId) returns (exn: Option<Exn>)
      requires persistence.Valid() && r in persistence.runs
      modifies persistence`runs, persistence`db
      ensures persistence.Valid()
      ensures forall reel :: Wrote(old(persistence.Now()), persistence.Now(), r, reel, None)
      ensures calm ==> exn.None? && Undisturbed(old(persistence.Now()), persistence.Now())
    {
      persistence.Interfere(r, calm);
      exn := *;
      if calm {
        exn := None;
      }
    }

    /** `_raise_if_cancel_requested`: a missing run counts as cancelled; the probe itself may raise. */
    method CheckCancelled(r: RunId) returns (exn: Option<Exn>)
      requires persistence.Valid() && r in persistence.runs
      modifies persistence`runs, persistence`db
      ensures persistence.Valid()
      ensures forall reel :: Wrote(old(persistence.Now()), persistence.Now(), r, reel, None)
      ensures exn.None? ==> !persistence.runs[r].cancelRequested
      ensures calm && !old(persistence.runs[r].cancelRequested) ==>
                exn.None? && Undisturbed(old(persistence.Now()), persistence.Now())
    {
      exn := Call(r);
      if exn.None? && (r !in persistence.runs || persistence.runs[r].cancelRequested) {
        exn := Some(Interrupt);
      }
    }

    ghost predicate WithinBytes(bytes: int) {
      limits.maxRunBytes.Some? ==> bytes <= limits.maxRunBytes.value
    }

    ghost function BytesOf(r: RunId): nat
      reads persistence
    {
      RunBytes(persistence.items, persistence.db, r)
    }

    /******* Acquiring one source *******/

    /** A port call, optionally behind a cancellation check, in terms of the rows at an earlier moment. */
    method CallAfter(r: RunId, reel: Shortcode, cancellable: bool, ghost before: Books) returns (exn: Option<Exn>)
      requires persistence.Valid() && Wrote(before, persistence.Now(), r, reel, None)
      modifies persistence`runs, persistence`db
      ensures persistence.Valid() && Wrote(before, persistence.Now(), r, reel, None)
      ensures BytesOf(r) == RunBytes(before.items, before.db, r)
      ensures calm && Quiet(before, old(persistence.Now()), r) ==> exn.None? && Quiet(before, persistence.Now(), r)
    {
      hide BooksOk;
      hide RunBytes;
      ghost var mid := persistence.Now();
      if cancellable {
        exn := CheckCancelled(r);
      } else {
        exn := Call(r);
      }
      QuietThenWrote(before, mid, persistence.Now(), r, reel, None);
      WroteBytes(before, persistence.Now(), r, reel, None);
      if calm && Quiet(before, mid, r) {
        QuietTrans(before, mid, persistence.Now(), r);
      }
    }

    /** The same followed by `_require_deadline`. */
    method Guarded(r: RunId, reel: Shortcode, cancellable: bool, ghost before: Books) returns (exn: Option<Exn>)
      requires persistence.Valid() && Wrote(before, persistence.Now(), r, reel, None)
      modifies persistence`runs, persistence`db
      ensures persistence.Valid() && Wrote(before, persistence.Now(), r, reel, None)
      ensures calm && Quiet(before, old(persistence.Now()), r) ==> exn.None? && Quiet(before, persistence.Now(), r)
    {
      hide *;
      exn := CallAfter(r, reel, cancellable, before);
      if exn.None? {
        var expired := DeadlineExpired();
        if expired {
          exn := Some(DeadlineExceeded);
        }
      }
    }

    /** Download and validation: the first half of the try block. */
    method Fetch(r: RunId, reel: Shortcode, committedBytes: int, ghost before: Books)
      returns (a: Attempt, content: Bytes, ghost port: Port)
      requires persistence.Valid() && Wrote(before, persistence.Now(), r, reel, None)
      modifies persistence`runs, persistence`db
      ensures persistence.Valid() && Wrote(before, persistence.Now(), r, reel, None)
      ensures a.published.None? && !a.dbCommitted && !a.exn.None? == FaultAt(a, port) && a.bytes == committedBytes
      ensures a.exn.None? ==> WithinBytes(committedBytes + |content|) && !a.overBytes
      ensures port.ByteLimit? ==> limits.maxRunBytes.Some? && committedBytes + |content| > limits.maxRunBytes.value
      ensures calm && Quiet(before, old(persistence.Now()), r) ==>
                (a.exn.None? || port.ByteLimit?) && |content| > 0 && Quiet(before, persistence.Now(), r)
    {
      hide BooksOk;
      hide Wrote;
      hide Quiet;
      port, content := Downloads, *;  // what is validated, if it comes to that
      if calm && content == [] {
        content := [0];  // a validated source is not empty
      }
      a := Attempt(Download, false, None, false, committedBytes, None);
      var exn := Guarded(r, reel, true, before);
      if exn.Some? {
        a := a.(exn := exn);
        return;
      }
      exn := Guarded(r, reel, false, before);  // download
      if exn.Some? {
        a := a.(exn := exn);
        return;
      }
      a, port := a.(stage := Validation), Validations;
      exn := Guarded(r, reel, false, before);
      if exn.Some? {
        a := a.(exn := exn);
        return;
      }
      if limits.maxRunBytes.Some? && committedBytes + |content| > limits.maxRunBytes.value {
        a, port := a.(overBytes := true, exn := Some(LimitExceeded)), ByteLimit;
      }
    }

    /** Publication and commit: the second half of the try block. */
    method PublishAndCommit(r: RunId, reel: Shortcode, fetched: Attempt, content: Bytes, ghost before: Books)
      returns (a: Attempt, ghost port: Port)
      requires persistence.Valid() && Wrote(before, persistence.Now(), r, reel, None)
      requires fetched.published.None? && !fetched.dbCommitted && fetched.exn.None? && !fetched.overBytes
      modifies persistence, storage`objects, storage`created
      ensures persistence.Valid()
      ensures Wrote(before, persistence.Now(), r, reel, if a.dbCommitted then Some(SourceCommitted) else None)
      ensures a.bytes == fetched.bytes + if a.dbCommitted then |content| else 0
      ensures a.dbCommitted ==> NamesSource(persistence.db, reel)
                                && persistence.db.reels[reel].source.value.size == |content|
      ensures a.exn.None? ==> a.dbCommitted && DurableReel(persistence.db, reel)
      ensures !a.exn.None? == FaultAt(a, port) && !port.ByteLimit?
      ensures storage.created == old(storage.created) + if a.published == Some(true) then {SourceKey(reel)} else {}
      ensures a.published == Some(true) ==> SourceKey(reel) !in old(storage.objects)
      ensures forall key :: key in storage.objects ==>
                key in old(storage.objects) || (key == SourceKey(reel) && a.published == Some(true))
      ensures calm && Quiet(before, old(persistence.Now()), r) && |content| > 0 && CanCommit(before, r, reel) ==>
                a.exn.None? && Steady(before, persistence.Now(), r)
    {
      hide BooksOk;
      hide Wrote;
      hide CommitSourceTx;
      hide Quiet;
      hide Steady;
      hide CanCommit;
      a, port := fetched.(stage := Publication), Publications;
      var exn := Guarded(r, reel, true, before);
      if exn.Some? {
        a := a.(exn := exn);
        return;
      }
      var published := storage.Publish(SourceKey(reel), content, calm);
      if published.Raised? {
        a := a.(exn := Some(published.exn));
        return;
      }
      a, port := a.(published := Some(published.value)), Commits;
      exn := Guarded(r, reel, false, before);
      if exn.Some? {
        a := a.(exn := exn);
        return;
      }
      a := a.(stage := Database);
      a := Commit(r, reel, a, content, before);
    }

    /** `commit_source` and the deadline after it. */
    method Commit(r: RunId, reel: Shortcode, attempt: Attempt, content: Bytes, ghost before: Books) returns (a: Attempt)
      requires persistence.Valid() && Wrote(before, persistence.Now(), r, reel, None)
      requires attempt.exn.None? && !attempt.dbCommitted
      modifies persistence
      ensures persistence.Valid()
      ensures Wrote(before, persistence.Now(), r, reel, if a.dbCommitted then Some(SourceCommitted) else None)
      ensures a == attempt.(dbCommitted := a.dbCommitted, bytes := a.bytes, exn := a.exn)
      ensures a.bytes == attempt.bytes + if a.dbCommitted then |content| else 0
      ensures a.dbCommitted ==> NamesSource(persistence.db, reel)
                                && persistence.db.reels[reel].source.value.size == |content|
      ensures a.exn.None? ==> a.dbCommitted && DurableReel(persistence.db, reel)
      ensures a.dbCommitted && a.exn.Some? ==> a.exn.value.DeadlineExceeded?
      ensures calm && Quiet(before, old(persistence.Now()), r) && |content| > 0 && CanCommit(before, r, reel) ==>
                a.exn.None? && Steady(before, persistence.Now(), r)
    {
      hide BooksOk;
      hide Wrote;
      hide CommitSourceTx;
      hide HasRoom;
      hide Undisturbed;
      hide Steady;
      a := attempt;
      ghost var mid := persistence.Now();
      var raises: bool := *;
      if calm && Quiet(before, mid, r) {
        QuietCanCommit(before, mid, r, reel);
      }
      var ok := persistence.CommitSource(r, reel, content, raises && !calm);
      if !ok {
        var error: Exn := *;
        return a.(exn := Some(error));
      }
      QuietThenWrote(before, mid, persistence.Now(), r, reel, Some(SourceCommitted));
      if calm && Quiet(before, mid, r) {
        QuietThenSteady(before, mid, persistence.Now(), r);
      }
      a := a.(dbCommitted := true, bytes := a.bytes + |content|);
      var expired := DeadlineExpired();
      if expired {
        a := a.(exn := Some(DeadlineExceeded));
      }
    }

    /** The compensating delete: only of an object this attempt created and did not commit. */
    method Compensate(reel: Shortcode, a: Attempt) returns (failed: bool)
      modifies storage`objects, storage`undeleted
      ensures storage.objects.Keys <= old(storage.objects).Keys
      ensures storage.undeleted == old(storage.undeleted) + if failed then {SourceKey(reel)} else {}
      ensures failed ==> !a.dbCommitted && a.published == Some(true)
      ensures !a.dbCommitted && a.published == Some(true) && !failed ==> SourceKey(reel) !in storage.objects
      ensures a.dbCommitted || a.published != Some(true) ==> storage.Now() == old(storage.Now())
    {
      failed := false;
      if !a.dbCommitted && a.published == Some(true) {
        var ok := storage.Delete(SourceKey(reel));
        failed := !ok;
      }
    }

    /** The handlers of the try block: compensate, choose the reason, and record the failure if nothing was committed. */
    method Abandon(r: RunId, reel: Shortcode, a: Attempt, ghost port: Port, ghost before: Books)
      returns (step: Step, ghost written: Option<ItemOutcome>, ghost fault: Fault)
      requires FaultAt(a, port) && persistence.Valid()
      requires Wrote(before, persistence.Now(), r, reel, if a.dbCommitted then Some(SourceCommitted) else None)
      modifies persistence, storage`objects, storage`undeleted
      ensures persistence.Valid() && !step.Proceed?
      ensures fault == Fault(port, a.exn.value, fault.compensationFailed) && Answered(step, fault)
      ensures a.dbCommitted ==> fault == Fault(Commits, DeadlineExceeded, false)
      ensures port.ByteLimit? ==> step == Stop(RunByteLimitExceeded)
      ensures Wrote(before, persistence.Now(), r, reel, written)
      ensures if a.dbCommitted then written == Some(SourceCommitted) && persistence.Now() == old(persistence.Now())
              else written.None? || written == Some(ItemFailed)
      ensures written == Some(ItemFailed) ==>
                step.Stop? && FailureRecorded(old(persistence.db), persistence.db, reel, step.reason)
      ensures written.None? ==> persistence.db == old(persistence.db)
      ensures storage.objects.Keys <= old(storage.objects).Keys
      ensures storage.undeleted == old(storage.undeleted) + if fault.compensationFailed then {SourceKey(reel)} else {}
      ensures !a.dbCommitted && a.published == Some(true) && !fault.compensationFailed ==> SourceKey(reel) !in storage.objects
    {
      hide BooksOk;
      hide Wrote;
      hide RecordFailureTx;
      written := if a.dbCommitted then Some(SourceCommitted) else None;
      var compensationFailed := Compensate(reel, a);
      fault := Fault(port, a.exn.value, compensationFailed);
      if a.exn.value.Interrupt? {
        step := Throw(Interrupt);
        return;
      }
      var reason := FailureReason(a, a.exn.value, compensationFailed);
      step := Stop(reason);
      if !a.dbCommitted {
        ghost var mid := persistence.Now();
        RecordFailureEffect(mid.db, reel, CollectorReason(reason));
        var raises: bool := *;
        var recorded := persistence.RecordFailure(r, reel, reason, raises && !calm);
        if recorded {
          QuietThenWrote(before, mid, persistence.Now(), r, reel, Some(ItemFailed));
          written := Some(ItemFailed);
        }
      }
    }

    /** The try block and its handlers: every object it creates is committed, withdrawn, or its delete raised. */
    method Attempted(r: RunId, reel: Shortcode, committedBytes: int, ghost before: Books)
      returns (step: Step, bytes: int, ghost written: Option<ItemOutcome>, ghost fault: Option<Fault>)
      requires persistence.Valid() && Wrote(before, persistence.Now(), r, reel, None) && WithinBytes(committedBytes)
      modifies persistence, storage`objects, storage`created, storage`undeleted
      ensures persistence.Valid() && Wrote(before, persistence.Now(), r, reel, written)
      ensures written.None? || written == Some(SourceCommitted) || written == Some(ItemFailed)
      ensures WithinBytes(bytes)
      ensures if written == Some(SourceCommitted) then
                NamesSource(persistence.db, reel) && bytes == committedBytes + persistence.db.reels[reel].source.value.size
              else bytes == committedBytes
      ensures AttemptClosed(old(storage.Now()), storage.Now(), reel, written == Some(SourceCommitted))
      ensures SourceKey(reel) in storage.created && SourceKey(reel) !in old(storage.created) && SourceKey(reel) in storage.objects ==>
                written == Some(SourceCommitted) || SourceKey(reel) in storage.undeleted
      ensures storage.undeleted == old(storage.undeleted) +
                if fault.Some? && fault.value.compensationFailed then {SourceKey(reel)} else {}
      ensures fault.None? ==> step.Proceed? && written == Some(SourceCommitted) && DurableReel(persistence.db, reel)
      ensures fault.Some? ==>
                && Answered(step, fault.value) && !fault.value.port.Paths?
                && (written == Some(SourceCommitted) ==> fault.value == Fault(Commits, DeadlineExceeded, false))
      ensures fault.Some? && fault.value.port.ByteLimit? ==> limits.maxRunBytes.Some? && step == Stop(RunByteLimitExceeded)
      ensures calm && Quiet(before, old(persistence.Now()), r) && CanCommit(before, r, reel) ==>
                if fault.None? then Steady(before, persistence.Now(), r) else fault.value.port.ByteLimit?
    {
      hide BooksOk;
      hide Wrote;
      hide Quiet;
      hide Steady;
      hide CanCommit;
      hide Answered;
      hide FailureRecorded;
      hide DurableReel;
      fault := None;
      var a, content, port := Fetch(r, reel, committedBytes, before);
      if a.exn.None? {
        a, port := PublishAndCommit(r, reel, a, content, before);
      }
      step, bytes, written := Proceed, a.bytes, Some(SourceCommitted);
      if a.exn.Some? {
        ghost var met;
        step, written, met := Abandon(r, reel, a, port, before);
        fault := Some(met);
      }
    }

    /**
     The whole acquisition of one reel. Whatever happens, the object it may have
     created is referenced, withdrawn, or its delete raised, and its temporary
     path is cleaned; the reel proceeds exactly when nothing went wrong, and
     otherwise the run is told what did.
     */
    method AcquireSource(r: RunId, reel: Shortcode, committedBytes: int)
      returns (step: Step, bytes: int, ghost written: Option<ItemOutcome>, ghost fault: Option<Fault>)
      requires persistence.Valid() && r in persistence.runs
      requires committedBytes == BytesOf(r) && WithinBytes(committedBytes)
      requires AllAccounted(storage.Now(), persistence.Now(), r) && storage.issued <= storage.cleaned
      modifies persistence, storage
      ensures persistence.Valid()
      ensures Wrote(old(persistence.Now()), persistence.Now(), r, reel, written)
      ensures written.None? || written == Some(SourceCommitted) || written == Some(ItemFailed)
      ensures fault.None? ==> step.Proceed? && written == Some(SourceCommitted) && DurableReel(persistence.db, reel)
      ensures fault.Some? ==>
                && Answered(step, fault.value) && !step.Proceed?
                && (written == Some(SourceCommitted) ==> fault.value == Fault(Commits, DeadlineExceeded, false))
      ensures storage.undeleted == old(storage.undeleted) +
                if fault.Some? && fault.value.compensationFailed then {SourceKey(reel)} else {}
      ensures fault.Some? && fault.value.port.ByteLimit? ==> limits.maxRunBytes.Some? && step == Stop(RunByteLimitExceeded)
      ensures calm && !old(persistence.runs[r].cancelRequested) && CanCommit(old(persistence.Now()), r, reel) ==>
                if fault.None? then Steady(old(persistence.Now()), persistence.Now(), r) else fault.value.port.ByteLimit?
      ensures bytes == BytesOf(r) && WithinBytes(bytes)
      ensures AllAccounted(storage.Now(), persistence.Now(), r) && storage.issued <= storage.cleaned
    {
      hide BooksOk;
      hide RunBytes;
      hide AllAccounted;
      ghost var before, shelf := persistence.Now(), storage.Now();
      NothingWritten(before, r, reel);
      if !before.runs[r].cancelRequested {
        QuietNow(before, r);
      }
      hide Wrote;
      hide Quiet;
      hide Steady;
      hide CanCommit;
      hide DurableReel;
      hide AttemptClosed;
      hide NamesSource;
      var path := storage.TemporaryPath(reel, calm);
      if path.Raised? {
        step, bytes, written, fault := Throw(path.exn), committedBytes, None, Some(Fault(Paths, path.exn, false));
        return;
      }
      step, bytes, written, fault := Attempted(r, reel, committedBytes, before);
      storage.CleanupTemporary(path.value);
      WroteBytes(before, persistence.Now(), r, reel, written);
      AttemptKeepsAccounted(shelf, storage.Now(), before, persistence.Now(), r, reel, written);
    }

    /******* Moving the feed on *******/

    /** The feed's answers during one calm transition: the first one, or else the second, if the limit allows it. */
    ghost predicate Confirmed(t: Transition, answers: seq<Option<Candidate>>, remaining: Option<int>)
      requires t.Transition?
    {
      if feed.authenticated then
        && answers == [t.next] && t.consumed == 0
        && (t.next.None? ==> t.reason.AuthenticatedFeedExhausted?)
      else
        && |answers| == t.consumed <= 2
        && (forall i :: 0 <= i < |answers| - 1 ==> answers[i].None?)
        && (t.next.Some? ==> answers != [] && answers[|answers| - 1] == t.next)
        && (t.next.None? ==>
              && (forall i :: 0 <= i < |answers| ==> answers[i].None?)
              && (|| (t.reason.TransitionFailed? && t.consumed == 2)
                  || (t.reason.AdvanceLimitReached? && remaining == Some(t.consumed))))
    }

    /** `_confirm_transition`: at most two calls of advance(), never past the limit, and only past a settled reel. */
    method ConfirmTransition(r: RunId, current: Shortcode, remaining: Option<int>)
      returns (t: Transition, ghost answers: seq<Option<Candidate>>)
      requires persistence.Valid() && Settled(persistence.Now(), r, current) && r in persistence.runs
      requires remaining.Some? ==> remaining.value >= 0
      modifies feed`advances, feed`offers, persistence`runs, persistence`db
      ensures persistence.Valid() && Wrote(old(persistence.Now()), persistence.Now(), r, current, None)
      ensures old(feed.advances) <= feed.advances <= old(feed.advances) + 2
      ensures remaining.Some? ==> feed.advances - old(feed.advances) <= remaining.value
      ensures t.Transition? ==> feed.advances == old(feed.advances) + t.consumed
      ensures feed.offers == old(feed.offers) + answers
      ensures calm && !old(persistence.runs[r].cancelRequested) ==>
                && Quiet(old(persistence.Now()), persistence.Now(), r)
                && t.Transition? && Confirmed(t, answers, remaining)
    {
      hide BooksOk;
      hide Wrote;
      hide Settled;
      hide Quiet;
      hide Persistence.Now;
      hide Persistence.Valid;
      ghost var before := persistence.Now();
      persistence.Rows();
      NothingWritten(before, r, current);
      if !before.runs[r].cancelRequested {
        QuietNow(before, r);
      }
      answers := [];
      if feed.authenticated {
        var exn := CallAfter(r, current, false, before);
        if exn.Some? {
          t := Broken(exn.value);
          return;
        }
        var next := feed.Answer();
        t, answers := Transition(next, 0, AuthenticatedFeedExhausted), [next];
        return;
      }
      for attempt := 1 to 3
        invariant feed.advances == old(feed.advances) + (attempt - 1)
        invariant remaining.Some? ==> attempt - 1 <= remaining.value
        invariant persistence.Valid() && Wrote(before, persistence.Now(), r, current, None)
        invariant feed.offers == old(feed.offers) + answers && |answers| == attempt - 1
        invariant forall i :: 0 <= i < |answers| ==> answers[i].None?
        invariant calm && !before.runs[r].cancelRequested ==> Quiet(before, persistence.Now(), r)
      {
        if remaining.Some? && attempt > remaining.value {
          t := Transition(None, attempt - 1, AdvanceLimitReached);
          return;
        }
        var expired := DeadlineExpired();
        if expired {
          t := Transition(None, attempt - 1, TotalTimeoutReached);
          return;
        }
        WroteKeepsSettled(before, persistence.Now(), r, current, None, current);
        var broken, next := Scroll(r, current, before);
        if broken.Some? {
          t := Broken(broken.value);
          return;
        }
        answers := answers + [next];
        if next.Some? {
          t := Transition(next, attempt, TransitionFailed);
          return;
        }
        expired := DeadlineExpired();
        if expired {
          t := Transition(None, attempt, TotalTimeoutReached);
          return;
        }
      }
      t := Transition(None, 2, TransitionFailed);
    }

    /** One advance() and what the page shows after it. */
    method Scroll(r: RunId, current: Shortcode, ghost before: Books) returns (broken: Option<Exn>, next: Option<Candidate>)
      requires persistence.Valid() && Settled(persistence.Now(), r, current)
      requires Wrote(before, persistence.Now(), r, current, None)
      modifies feed`advances, feed`offers, persistence`runs, persistence`db
      ensures persistence.Valid() && Wrote(before, persistence.Now(), r, current, None)
      ensures feed.advances == old(feed.advances) + 1
      ensures feed.offers == old(feed.offers) + if broken.None? then [next] else []
      ensures calm && Quiet(before, old(persistence.Now()), r) ==> broken.None? && Quiet(before, persistence.Now(), r)
    {
      hide BooksOk;
      hide Wrote;
      hide Settled;
      hide Quiet;
      next := None;
      broken := feed.Advance(persistence, r, current, calm);
      if broken.None? {
        broken := CallAfter(r, current, false, before);
        if broken.None? {
          next := feed.Answer();
        }
      }
    }

    /******* One observed reel *******/

    /** Skip what the account owns, link what is already durable, acquire the rest. */
    method HandleReel(r: RunId, reel: Shortcode, continuation: bool, committedBytes: int)
      returns (step: Step, bytes: int, skipped: bool, ghost written: Option<ItemOutcome>)
      requires persistence.Valid() && r in persistence.runs
      requires committedBytes == BytesOf(r) && WithinBytes(committedBytes)
      requires AllAccounted(storage.Now(), persistence.Now(), r) && storage.issued <= storage.cleaned
      modifies persistence, storage
      ensures persistence.Valid()
      ensures Wrote(old(persistence.Now()), persistence.Now(), r, reel, written)
      ensures step.Proceed? ==> Settled(persistence.Now(), r, reel)
      ensures step.Proceed? ==> skipped == written.None? && (written.Some? ==> Acquisition(written.value))
      ensures !step.Proceed? ==> !skipped && written != Some(AlreadyAvailable)
      ensures skipped ==> continuation
      ensures calm && !old(persistence.runs[r].cancelRequested) ==>
                Handled(old(persistence.Now()), persistence.Now(), r, reel, continuation, limits.maxRunBytes.Some?,
                        step, skipped, written)
      ensures bytes == BytesOf(r) && WithinBytes(bytes)
      ensures AllAccounted(storage.Now(), persistence.Now(), r) && storage.issued <= storage.cleaned
    {
      hide BooksOk;
      hide RunBytes;
      hide AllAccounted;
      ghost var before := persistence.Now();
      NothingWritten(before, r, reel);
      StillThere(before, before, r, reel, None);
      ghost var quiet := calm && !before.runs[r].cancelRequested;
      hide Wrote;
      hide Quiet;
      hide Owns;
      hide Steady;
      hide Settled;
      hide HasRoom;
      hide CanCommit;
      hide DurableReel;
      hide Handled;
      written, skipped, bytes := None, false, committedBytes;
      var exn, owned := Look(r, reel, continuation, before);
      AccountedStays(storage.Now(), before, persistence.Now(), r, reel, None);
      if exn.Some? {
        return Throw(exn.value), bytes, false, None;
      }
      ghost var mid := persistence.Now();
      if owned {
        step, skipped := Proceed, true;
      } else {
        step, bytes, written := LinkOrAcquire(r, reel, committedBytes);
        QuietThenWrote(before, mid, persistence.Now(), r, reel, written);
      }
      if quiet {
        QuietHandled(before, mid, persistence.Now(), r, reel, continuation, limits.maxRunBytes.Some?, owned, step, skipped, written);
      }
    }

    /** By the reel's status in the database: a durable reel is linked, any other acquired. */
    method LinkOrAcquire(r: RunId, reel: Shortcode, committedBytes: int)
      returns (step: Step, bytes: int, ghost written: Option<ItemOutcome>)
      requires persistence.Valid() && r in persistence.runs
      requires committedBytes == BytesOf(r) && WithinBytes(committedBytes)
      requires AllAccounted(storage.Now(), persistence.Now(), r) && storage.issued <= storage.cleaned
      modifies persistence, storage
      ensures persistence.Valid()
      ensures Wrote(old(persistence.Now()), persistence.Now(), r, reel, written)
      ensures step.Proceed? ==> Settled(persistence.Now(), r, reel) && written.Some? && Acquisition(written.value)
      ensures !step.Proceed? ==> written != Some(AlreadyAvailable)
      ensures bytes == BytesOf(r) && WithinBytes(bytes)
      ensures AllAccounted(storage.Now(), persistence.Now(), r) && storage.issued <= storage.cleaned
      ensures calm && !old(persistence.runs[r].cancelRequested) ==>
                Settlement(old(persistence.Now()), persistence.Now(), r, reel, limits.maxRunBytes.Some?, step, written)
    {
      hide BooksOk;
      hide RunBytes;
      hide AllAccounted;
      hide Wrote;
      hide Steady;
      hide Settled;
      hide HasRoom;
      hide DurableReel;
      ghost var before := persistence.Now();
      if reel in persistence.db.reels && Durable(persistence.db.reels[reel].status) {
        step, written := LinkAvailable(r, reel);
        bytes := committedBytes;
        AccountedStays(storage.Now(), before, persistence.Now(), r, reel, written);
        WroteBytes(before, persistence.Now(), r, reel, written);
      } else {
        ghost var fault;
        step, bytes, written, fault := AcquireSource(r, reel, committedBytes);
        if written == Some(SourceCommitted) {
          AcquiredIsSettled(before, persistence.Now(), r, reel, written);
        }
      }
    }

    /** Whether the account owns the reel, and the calls before the reel's status is looked at. */
    method Look(r: RunId, reel: Shortcode, continuation: bool, ghost before: Books) returns (exn: Option<Exn>, owned: bool)
      requires persistence.Valid() && before == persistence.Now() && r in persistence.runs
      modifies persistence`runs, persistence`db, persistence`confirmedOwned
      ensures persistence.Valid() && Wrote(before, persistence.Now(), r, reel, None) && r in persistence.runs
      ensures BytesOf(r) == RunBytes(before.items, before.db, r)
      ensures owned ==> continuation && Settled(persistence.Now(), r, reel)
      ensures calm && !before.runs[r].cancelRequested ==>
                && exn.None? && Quiet(before, persistence.Now(), r) && !persistence.runs[r].cancelRequested
                && (owned <==> continuation && Owns(before.runs, before.items, before.db, before.runs[r].account, reel))
    {
      hide BooksOk;
      hide RunBytes;
      NothingWritten(before, r, reel);
      ghost var quiet := calm && !before.runs[r].cancelRequested;
      if quiet {
        QuietNow(before, r);
      }
      hide Wrote;
      hide Quiet;
      hide Owns;
      owned := false;
      if continuation {
        exn := CallAfter(r, reel, false, before);
        if exn.Some? {
          return;
        }
        RowWritten(before, persistence.Now(), r, reel, None);
        owned := AskOwned(r, reel, before);
      }
      ghost var asked := persistence.Now();
      RowWritten(before, asked, r, reel, None);
      exn := CallAfter(r, reel, false, before);  // pause_current and reel_status
      RowWritten(before, persistence.Now(), r, reel, None);
      if quiet {
        QuietCanCommit(before, persistence.Now(), r, reel);
      }
    }

    /** `account_has_durable_reel` for the run's account. */
    method AskOwned(r: RunId, reel: Shortcode, ghost before: Books) returns (owned: bool)
      requires persistence.Valid() && Wrote(before, persistence.Now(), r, reel, None)
      requires r in before.runs && r in persistence.runs
      modifies persistence`confirmedOwned
      ensures persistence.Valid() && Wrote(before, persistence.Now(), r, reel, None)
      ensures owned ==> (persistence.runs[r].account, reel) in persistence.confirmedOwned
      ensures calm && Quiet(before, old(persistence.Now()), r) ==>
                && Quiet(before, persistence.Now(), r)
                && (owned <==> Owns(before.runs, before.items, before.db, before.runs[r].account, reel))
    {
      hide BooksOk;
      hide Owns;
      if calm && Quiet(before, persistence.Now(), r) {
        UndisturbedOwner(before, persistence.Now(), before.runs[r].account, reel);
      }
      owned := persistence.AccountHasDurableReel(persistence.runs[r].account, reel);
    }

    method LinkAvailable(r: RunId, reel: Shortcode) returns (step: Step, ghost written: Option<ItemOutcome>)
      requires persistence.Valid() && r in persistence.runs
      modifies persistence`items, persistence`runs
      ensures persistence.Valid() && !step.Proceed? == written.None?
      ensures Wrote(old(persistence.Now()), persistence.Now(), r, reel, written)
      ensures step.Proceed? ==> written == Some(AlreadyAvailable) && Settled(persistence.Now(), r, reel)
      ensures step.Proceed? ==> Steady(old(persistence.Now()), persistence.Now(), r)
      ensures calm && reel in persistence.db.reels && Durable(persistence.db.reels[reel].status) ==>
                (HasRoom(old(persistence.runs), old(persistence.items), r, reel) ==> step.Proceed?)
    {
      hide BooksOk;
      hide HasRoom;
      hide Steady;
      ghost var before := persistence.Now();
      NothingWritten(before, r, reel);
      hide Wrote;
      var raises: bool := *;
      var ok := persistence.CommitAvailable(r, reel, raises && !calm);
      if ok {
        AcquiredIsSettled(before, persistence.Now(), r, reel, Some(AlreadyAvailable));
        return Proceed, Some(AlreadyAvailable);
      }
      var interrupted: bool := *;
      step, written := if interrupted then Throw(Interrupt) else Stop(DatabaseWriteFailed), None;
    }

    /******* The loop *******/

    /** Declares success once the target is met: in continuation only at exactly the desired account total. */
    method Conclude(r: RunId, desired: Option<nat>) returns (end: LoopEnd)
      requires persistence.Valid() && r in persistence.runs && persistence.runs[r].status.RunRunning?
      modifies persistence`runs
      ensures persistence.Valid() && r in persistence.runs
      ensures RunMovedLegally(old(persistence.runs), persistence.runs, r)
      ensures persistence.runs ==
                if end.TargetMet? then old(persistence.runs)[r := old(persistence.runs)[r].(status := RunCompleted)]
                else old(persistence.runs)
      ensures calm ==> end.TargetMet? || end == Abandoned(FinalDurableTotalMismatch)
      ensures end == Abandoned(FinalDurableTotalMismatch) ==>
                && desired.Some?
                && !OwnsExactly(persistence.runs, persistence.items, persistence.db, persistence.runs[r].account, desired.value)
      ensures end.TargetMet? && desired.Some? ==>
                && old(persistence.runs)[r].status.RunRunning?
                && OwnsExactly(old(persistence.runs), persistence.items, persistence.db,
                               old(persistence.runs)[r].account, desired.value)
    {
      hide BooksOk;
      var ok;
      var raises: bool := *;
      raises := raises && !calm;
      if desired.Some? {
        ok := persistence.CompleteIfAccountDurableTotal(r, desired.value, raises);
      } else {
        ok := persistence.CompleteRun(r, raises);
      }
      if ok {
        return TargetMet;
      }
      var interrupted: bool := *;
      end := if !raises then Abandoned(FinalDurableTotalMismatch)
             else if interrupted then Threw(Interrupt)
             else Abandoned(DatabaseWriteFailed);
    }

    /** From a settled reel to the next candidate, or to the end of the run. */
    method Move(r: RunId, current: Shortcode, confirmedAdvances: nat, transitionOperations: nat, scrollActions: nat,
                rejected: set<Shortcode>)
      returns (end: Option<LoopEnd>, next: Shortcode, consumed: nat, ghost answers: seq<Option<Candidate>>)
      requires persistence.Valid() && Settled(persistence.Now(), r, current) && r in persistence.runs
      requires WithinScrolls(scrollActions)
      modifies feed`advances, feed`offers, persistence`runs, persistence`db
      ensures persistence.Valid() && Wrote(old(persistence.Now()), persistence.Now(), r, current, None)
      ensures end.Some? ==> !end.value.TargetMet?
      ensures old(feed.advances) <= feed.advances <= old(feed.advances) + 2
      ensures WithinScrolls(scrollActions + (feed.advances - old(feed.advances)))
      ensures end.None? ==>
                && feed.advances == old(feed.advances) + consumed
                && confirmedAdvances < limits.maxAdvances
                && (limits.maxTransitionOperations.Some? ==> transitionOperations < limits.maxTransitionOperations.value)
                && next !in rejected
      ensures feed.offers == old(feed.offers) + answers
      ensures calm && !old(persistence.runs[r].cancelRequested) ==>
                && Quiet(old(persistence.Now()), persistence.Now(), r)
                && (end.Some? ==> MoveStopped(end.value, confirmedAdvances, transitionOperations, scrollActions,
                                              feed.advances - old(feed.advances), rejected, answers))
                && (end.None? ==> LastIs(answers, next) && (consumed <= 1 || None in answers))
    {
      hide *;
      ghost var before := persistence.Now();
      persistence.Rows();
      NothingWritten(before, r, current);
      ghost var quiet := calm && !before.runs[r].cancelRequested;
      if quiet {
        QuietNow(before, r);
        LimitsShow(confirmedAdvances, transitionOperations, scrollActions, rejected);
      }
      next, consumed, answers := current, 0, [];
      var expired := DeadlineExpired();
      if expired {
        end := Some(Abandoned(TotalTimeoutReached));
        return;
      }
      if confirmedAdvances >= limits.maxAdvances
         || (limits.maxTransitionOperations.Some? && transitionOperations >= limits.maxTransitionOperations.value) {
        end := Some(Abandoned(AdvanceLimitReached));
        return;
      }
      end := Pause(r, current, before);
      if end.Some? {
        return;
      }
      ghost var mid := persistence.Now();
      persistence.Rows();
      StillThere(before, mid, r, current, None);
      WroteKeepsSettled(before, mid, r, current, None, current);
      if quiet {
        QuietCanCommit(before, mid, r, current);
      }
      end, next, consumed, answers := Follow(r, current, confirmedAdvances, transitionOperations, scrollActions, rejected);
      ghost var now := persistence.Now();
      QuietThenWrote(before, mid, now, r, current, None);
      if quiet {
        QuietTwice(before, mid, now, r);
      }
    }

    /** The two limits that are checked before the feed is moved. */
    lemma LimitsShow(confirmedAdvances: nat, transitionOperations: nat, scrollActions: nat, rejected: set<Shortcode>)
      ensures confirmedAdvances >= limits.maxAdvances
              || (limits.maxTransitionOperations.Some? && transitionOperations >= limits.maxTransitionOperations.value) ==>
                MoveStopped(Abandoned(AdvanceLimitReached), confirmedAdvances, transitionOperations, scrollActions, 0, rejected, [])
    {
    }

    /** The transition itself and the judgement on the candidate it brings. */
    method Follow(r: RunId, current: Shortcode, ghost confirmedAdvances: nat, ghost transitionOperations: nat,
                  scrollActions: nat, rejected: set<Shortcode>)
      returns (end: Option<LoopEnd>, next: Shortcode, consumed: nat, ghost answers: seq<Option<Candidate>>)
      requires persistence.Valid() && Settled(persistence.Now(), r, current) && r in persistence.runs
      requires WithinScrolls(scrollActions)
      modifies feed`advances, feed`offers, persistence`runs, persistence`db
      ensures persistence.Valid() && Wrote(old(persistence.Now()), persistence.Now(), r, current, None)
      ensures end.Some? ==> !end.value.TargetMet?
      ensures old(feed.advances) <= feed.advances <= old(feed.advances) + 2
      ensures WithinScrolls(scrollActions + (feed.advances - old(feed.advances)))
      ensures end.None? ==> feed.advances == old(feed.advances) + consumed && next !in rejected
      ensures feed.offers == old(feed.offers) + answers
      ensures calm && !old(persistence.runs[r].cancelRequested) ==>
                && Quiet(old(persistence.Now()), persistence.Now(), r)
                && (end.Some? ==> MoveStopped(end.value, confirmedAdvances, transitionOperations, scrollActions,
                                              feed.advances - old(feed.advances), rejected, answers))
                && (end.None? ==> LastIs(answers, next) && (consumed <= 1 || None in answers))
    {
      hide BooksOk;
      hide Wrote;
      hide Settled;
      hide Quiet;
      next, consumed := current, 0;
      ghost var quiet := calm && !persistence.runs[r].cancelRequested;
      var t;
      t, answers := ConfirmTransition(r, current, if limits.maxScrollActions.None? then None
                                                  else Some(limits.maxScrollActions.value - scrollActions));
      if quiet {
        ConfirmedShows(t, answers, confirmedAdvances, transitionOperations, scrollActions, rejected);
      }
      hide Confirmed;
      if t.Broken? {
        end := Some(Threw(t.exn));
        return;
      }
      consumed := t.consumed;
      if t.next.None? {
        end := Some(Abandoned(t.reason));
      } else if !t.next.value.canonical {
        end := Some(Abandoned(InvalidReelCandidate));
      } else if t.next.value.shortcode in rejected {
        end := Some(Abandoned(DuplicateReel));
        assert quiet ==> LastIs(answers, t.next.value.shortcode);
      } else {
        end, next := None, t.next.value.shortcode;
      }
    }

    /** A calm transition without a next reel stops the run for a reason that its answers show. */
    lemma ConfirmedShows(t: Transition, answers: seq<Option<Candidate>>, confirmedAdvances: nat, transitionOperations: nat,
                         scrollActions: nat, rejected: set<Shortcode>)
      requires t.Transition? && (limits.maxScrollActions.Some? ==> scrollActions <= limits.maxScrollActions.value)
      requires Confirmed(t, answers, if limits.maxScrollActions.None? then None
                                     else Some(limits.maxScrollActions.value - scrollActions))
      ensures t.next.None? ==>
                MoveStopped(Abandoned(t.reason), confirmedAdvances, transitionOperations, scrollActions, t.consumed,
                            rejected, answers)
      ensures t.next.Some? ==> answers != [] && answers[|answers| - 1] == t.next && (t.consumed <= 1 || None in answers)
    {
      if t.consumed > 0 && answers[0].None? {
        assert answers[0] in answers;
      }
    }

    /** The cooldown, and the checks of deadline and cancellation before the feed is moved. */
    method Pause(r: RunId, current: Shortcode, ghost before: Books) returns (end: Option<LoopEnd>)
      requires persistence.Valid() && Wrote(before, persistence.Now(), r, current, None)
      modifies persistence`runs, persistence`db
      ensures persistence.Valid() && Wrote(before, persistence.Now(), r, current, None)
      ensures end.Some? ==> !end.value.TargetMet?
      ensures calm && Quiet(before, old(persistence.Now()), r) ==> end.None? && Quiet(before, persistence.Now(), r)
    {
      hide BooksOk;
      hide Wrote;
      hide Quiet;
      if limits.cooldownSeconds != 0.0 {
        var expired := DeadlineExpired();
        if expired {
          return Some(Threw(DeadlineExceeded));  // not caught as a timeout here
        }
        var exn := CallAfter(r, current, false, before);  // sleep
        if exn.Some? {
          return Some(Threw(exn.value));
        }
      }
      var expired := DeadlineExpired();
      if expired {
        return Some(Abandoned(TotalTimeoutReached));
      }
      var exn := CallAfter(r, current, true, before);
      end := if exn.Some? then Some(Threw(exn.value)) else None;
    }

    /** Why a calm run does not reach another reel, with the feed's answers since the last one. */
    ghost predicate MoveStopped(end: LoopEnd, confirmedAdvances: nat, transitionOperations: nat, scrollActions: nat,
                                scrolls: int, rejected: set<Shortcode>, answers: seq<Option<Candidate>>) {
      match end
      case Abandoned(AdvanceLimitReached) =>
        || confirmedAdvances >= limits.maxAdvances
        || (limits.maxTransitionOperations.Some? && transitionOperations >= limits.maxTransitionOperations.value)
        || (limits.maxScrollActions == Some(scrollActions + scrolls) && (scrolls == 0 || None in answers))
      case Abandoned(TransitionFailed) => !feed.authenticated && LastAbsent(answers, 2)
      case Abandoned(AuthenticatedFeedExhausted) => feed.authenticated && LastAbsent(answers, 1)
      case Abandoned(InvalidReelCandidate) => LastInvalid(answers)
      case Abandoned(DuplicateReel) => exists reel :: reel in rejected && LastIs(answers, reel)
      case _ => false
    }

    ghost predicate WithinScrolls(scrolls: int) {
      limits.maxScrollActions.Some? ==> scrolls <= limits.maxScrollActions.value
    }

    ghost predicate WithinObservations(observations: int) {
      && observations <= (if limits.maxAdvances < 0 then 0 else limits.maxAdvances) + 1
      && (limits.maxObservations.Some? ==> observations <= limits.maxObservations.value)
    }

    /** What holds at the head of the loop: every reel observed so far was settled and moved past. */
    ghost predicate Head(b: Books, r: RunId, target: nat, t: Tally) {
      && r in b.runs && b.runs[r].status.RunRunning?
      && b.runs[r].failed == 0
      && b.runs[r].committed + b.runs[r].available < target
      && t.observations == t.confirmedAdvances == t.transitionOperations
      && t.observations == b.runs[r].committed + b.runs[r].available + t.skipped
      && t.confirmedAdvances <= (if limits.maxAdvances < 0 then 0 else limits.maxAdvances)
      && (limits.maxObservations.Some? ==> t.observations <= limits.maxObservations.value)
      && t.committedBytes == RunBytes(b.items, b.db, r) && WithinBytes(t.committedBytes)
      && WithinScrolls(t.scrollActions)
    }

    /** What holds when the loop is left, however that happens. */
    ghost predicate Left(b: Books, r: RunId, target: nat, desired: Option<nat>, t: Tally, end: LoopEnd) {
      && r in b.runs
      && Tallied(b.runs[r], t)
      && WithinObservations(t.observations)
      && WithinBytes(RunBytes(b.items, b.db, r))
      && (if end.TargetMet? then Achieved(b, r, target, desired, t) else b.runs[r].status.RunRunning?)
    }

    /** What holds once the observed reel is settled and before the feed moves past it. */
    ghost predicate AfterReel(b: Books, r: RunId, target: nat, t: Tally) {
      && r in b.runs && b.runs[r].status.RunRunning?
      && b.runs[r].failed == 0
      && b.runs[r].committed + b.runs[r].available <= target
      && t.observations == t.confirmedAdvances + 1 == t.transitionOperations + 1
      && t.observations == b.runs[r].committed + b.runs[r].available + t.skipped
      && WithinObservations(t.observations)
      && t.committedBytes == RunBytes(b.items, b.db, r) && WithinBytes(t.committedBytes)
    }

    /** What holds of a calm run between its reels: whatever it holds is acquired, durable and seen, and there is room. */
    ghost predicate Fit(b: Books, r: RunId, target: nat, desired: Option<nat>, t: Tally) {
      && r in b.runs && b.runs[r].target >= target && !b.runs[r].cancelRequested && Sourced(b.db)
      && (desired.None? ==> t.skipped == 0)
      && forall item :: item in b.items && item.run == r ==>
           Acquisition(item.outcome) && item.reel in t.seen && DurableReel(b.db, item.reel)
    }

    /** The target is not met, and every observed reel counts. */
    predicate Unfinished(run: Run, target: nat, t: Tally) {
      run.committed + run.available < target && t.observations == run.committed + run.available + t.skipped
    }

    /** Why a calm run ends without having met its target: a limit that is reached, the total, or the feed. */
    ghost predicate Stopped(end: LoopEnd, b: Books, r: RunId, target: nat, desired: Option<nat>, t: Tally, scrolls: int,
                            offers: seq<Option<Candidate>>)
      requires r in b.runs
    {
      var run := b.runs[r];
      && (desired.None? ==> t.skipped == 0)
      && match end
         case TargetMet => true
         case Abandoned(ObservationLimitReached) =>
           Unfinished(run, target, t) && limits.maxObservations == Some(t.observations)
         case Abandoned(AdvanceLimitReached) =>
           && Unfinished(run, target, t) && t.observations == t.confirmedAdvances + 1
           && (|| t.confirmedAdvances >= limits.maxAdvances
               || (limits.maxTransitionOperations.Some? && t.confirmedAdvances >= limits.maxTransitionOperations.value)
               || (limits.maxScrollActions == Some(scrolls) && ScrollsConfirmed(t, scrolls, offers)))
         case Abandoned(RunByteLimitExceeded) => limits.maxRunBytes.Some?
         case Abandoned(FinalDurableTotalMismatch) =>
           && desired.Some? && run.committed + run.available >= target
           && !OwnsExactly(b.runs, b.items, b.db, run.account, desired.value)
         case Abandoned(DuplicateReel) => desired.None? && LastRepeats(offers)
         case Abandoned(InvalidReelCandidate) => LastInvalid(offers)
         case Threw(InvalidCandidate) => LastInvalid(offers)
         case Abandoned(TransitionFailed) => !feed.authenticated && LastAbsent(offers, 2)
         case Abandoned(AuthenticatedFeedExhausted) => feed.authenticated && LastAbsent(offers, 1)
         case _ => false
    }

    /** A calm run is fit for the shown reel, or over for a reason. */
    ghost predicate Going(over: Option<LoopEnd>, b: Books, r: RunId, target: nat, desired: Option<nat>, t: Tally, scrolls: int,
                          offers: seq<Option<Candidate>>, reel: Shortcode)
      requires r in b.runs
    {
      if over.Some? then Stopped(over.value, b, r, target, desired, t, scrolls, offers)
      else Fit(b, r, target, desired, t) && Shown(offers, t, reel)
    }

    lemma FitAtStart(b: Books, r: RunId, target: nat, desired: Option<nat>, t: Tally)
      requires BooksOk(b.runs, b.items) && FreshRun(b.runs, r) && t == Tally(0, 0, 0, 0, 0, 0, {})
      requires b.runs[r].target >= target && !b.runs[r].cancelRequested && Sourced(b.db)
      ensures Fit(b, r, target, desired, t)
    {
      assert Balanced(b.items, r, b.runs[r]);
      assert ItemsOf(b.items, r) == [];
    }

    lemma FitStays(b: Books, b': Books, r: RunId, target: nat, desired: Option<nat>, t: Tally)
      requires Fit(b, r, target, desired, t) && Quiet(b, b', r)
      ensures Fit(b', r, target, desired, t)
    {
    }

    lemma FitUncancelled(b: Books, r: RunId, target: nat, desired: Option<nat>, t: Tally)
      requires Fit(b, r, target, desired, t)
      ensures !b.runs[r].cancelRequested && (desired.None? ==> t.skipped == 0)
    {
    }

    /** In a calm run the account owns whatever the run holds. */
    lemma HeldIsOwned(b: Books, r: RunId, reel: Shortcode, target: nat, desired: Option<nat>, t: Tally)
      requires Fit(b, r, target, desired, t)
      ensures (exists item :: item in b.items && item.run == r && item.reel == reel) ==>
                reel in t.seen && Owns(b.runs, b.items, b.db, b.runs[r].account, reel)
    {
      if item :| item in b.items && item.run == r && item.reel == reel {
        assert Acquires(b.runs, item, b.runs[r].account, reel);
      }
    }

    /** A calm run has room for a reel it has not acquired, so the reel is skipped, linked or acquired, or bytes run out. */
    lemma FitHandled(b: Books, b': Books, r: RunId, reel: Shortcode, target: nat, desired: Option<nat>, t: Tally, t': Tally,
                     step: Step, skipped: bool, written: Option<ItemOutcome>)
      requires Fit(b, r, target, desired, t) && Head(b, r, target, t) && Wrote(b, b', r, reel, written)
      requires desired.None? ==> reel !in t.seen
      requires t'.seen == t.seen + {reel} && t'.skipped == t.skipped + if skipped then 1 else 0
      requires Handled(b, b', r, reel, desired.Some?, limits.maxRunBytes.Some?, step, skipped, written)
      ensures if step.Proceed? then Fit(b', r, target, desired, t')
              else step == Stop(RunByteLimitExceeded) && limits.maxRunBytes.Some?
    {
      hide RunBytes;
      HeldIsOwned(b, r, reel, target, desired, t);
      if !Owns(b.runs, b.items, b.db, b.runs[r].account, reel) || desired.None? {
        assert HasRoom(b.runs, b.items, r, reel);
      }
    }

    lemma HeadAtStart(b: Books, r: RunId, target: nat, desired: Option<nat>, t: Tally)
      requires Acceptable(limits, target, desired)
      requires BooksOk(b.runs, b.items) && FreshRun(b.runs, r) && t == Tally(0, 0, 0, 0, 0, 0, {})
      ensures Head(b, r, target, t) && WithinScrolls(0)
    {
      hide BooksOk;
      FreshRunBytes(b, r);
    }

    lemma HeadStays(b: Books, b': Books, r: RunId, reel: Shortcode, target: nat, t: Tally)
      requires Head(b, r, target, t) && Wrote(b, b', r, reel, None)
      ensures Head(b', r, target, t)
    {
      WroteBytes(b, b', r, reel, None);
    }

    lemma HeadRow(b: Books, r: RunId, target: nat, t: Tally)
      requires Head(b, r, target, t)
      ensures r in b.runs && (limits.maxObservations.Some? ==> t.observations <= limits.maxObservations.value)
    {
    }

    lemma HeadLeaves(b: Books, r: RunId, target: nat, desired: Option<nat>, t: Tally, end: LoopEnd)
      requires Head(b, r, target, t) && !end.TargetMet?
      ensures Left(b, r, target, desired, t, end)
    {
    }

    /** One more reel was counted as observed. */
    ghost predicate ReelCounted(t: Tally, t': Tally) {
      && (limits.maxObservations.Some? ==> t.observations < limits.maxObservations.value)
      && t'.observations == t.observations + 1
      && t'.confirmedAdvances == t.confirmedAdvances && t'.transitionOperations == t.transitionOperations
    }

    lemma HandledReel(b: Books, b': Books, r: RunId, reel: Shortcode, target: nat, desired: Option<nat>, t: Tally, t': Tally,
                      step: Step, written: Option<ItemOutcome>, end: LoopEnd)
      requires Head(b, r, target, t) && Wrote(b, b', r, reel, written) && ReelCounted(t, t')
      requires t'.committedBytes == RunBytes(b'.items, b'.db, r) && WithinBytes(t'.committedBytes)
      requires t'.skipped == t.skipped + if step.Proceed? && written.None? then 1 else 0
      requires step.Proceed? && written.Some? ==> Acquisition(written.value)
      requires !step.Proceed? ==> written != Some(AlreadyAvailable)
      requires !end.TargetMet?
      ensures if step.Proceed? then AfterReel(b', r, target, t') else Left(b', r, target, desired, t', end)
    {
      hide RunBytes;
      RowWritten(b, b', r, reel, written);
      hide Wrote;
    }

    lemma AfterReelRow(b: Books, r: RunId, target: nat, t: Tally)
      requires AfterReel(b, r, target, t)
      ensures r in b.runs && b.runs[r].status.RunRunning?
    {
    }

    lemma AfterReelStays(b: Books, b': Books, r: RunId, reel: Shortcode, target: nat, desired: Option<nat>, t: Tally,
                         end: LoopEnd)
      requires AfterReel(b, r, target, t) && Wrote(b, b', r, reel, None) && !end.TargetMet?
      ensures AfterReel(b', r, target, t) && Left(b', r, target, desired, t, end)
    {
      hide RunBytes;
      WroteBytes(b, b', r, reel, None);
      RowWritten(b, b', r, reel, None);
      hide Wrote;
    }

    /** The completing write turns a settled reel into a met target. */
    lemma ConcludedRun(b: Books, b': Books, r: RunId, target: nat, desired: Option<nat>, t: Tally)
      requires AfterReel(b, r, target, t) && b.runs[r].committed + b.runs[r].available >= target
      requires b' == b.(runs := b.runs[r := b.runs[r].(status := RunCompleted)])
      requires desired.Some? ==> OwnsExactly(b.runs, b.items, b.db, b.runs[r].account, desired.value)
      ensures Left(b', r, target, desired, t, TargetMet)
    {
      hide AccountDurable;
      hide OwnsExactly;
      DurableIgnoresStatus(b.runs, b'.runs, b.items, b.db, r);
      if desired.Some? {
        OwnsExactlyTotal(b.runs, b.items, b.db, b.runs[r].account, desired.value);
        OwnsExactlyTotal(b'.runs, b.items, b.db, b.runs[r].account, desired.value);
      }
    }

    lemma MovedOn(b: Books, b': Books, r: RunId, reel: Shortcode, target: nat, t: Tally, t': Tally)
      requires AfterReel(b, r, target, t) && Wrote(b, b', r, reel, None)
      requires b.runs[r].committed + b.runs[r].available < target
      requires t.confirmedAdvances < limits.maxAdvances && WithinScrolls(t'.scrollActions)
      requires t' == t.(confirmedAdvances := t.confirmedAdvances + 1,
                        transitionOperations := t.transitionOperations + 1, scrollActions := t'.scrollActions)
      ensures Head(b', r, target, t')
    {
      hide RunBytes;
      WroteBytes(b, b', r, reel, None);
      RowWritten(b, b', r, reel, None);
      hide Wrote;
    }

    /** The first half of a turn of `while True`: the checks and the observed reel. */
    method Observe(r: RunId, reel: Shortcode, target: nat, desired: Option<nat>, tally: Tally)
      returns (end: Option<LoopEnd>, t: Tally)
      requires persistence.Valid() && Head(persistence.Now(), r, target, tally)
      requires AllAccounted(storage.Now(), persistence.Now(), r) && storage.issued <= storage.cleaned
      modifies persistence, storage
      ensures persistence.Valid()
      ensures OthersKept(old(persistence.runs), persistence.runs, r)
      ensures AllAccounted(storage.Now(), persistence.Now(), r) && storage.issued <= storage.cleaned
      ensures if end.Some? then Left(persistence.Now(), r, target, desired, t, end.value)
              else AfterReel(persistence.Now(), r, target, t) && Settled(persistence.Now(), r, reel)
      ensures t.confirmedAdvances == tally.confirmedAdvances && t.scrollActions == tally.scrollActions
      ensures r in persistence.runs
      ensures calm && old(Fit(persistence.Now(), r, target, desired, tally)) && Shown(feed.offers, tally, reel) ==>
                if end.Some? then Stopped(end.value, persistence.Now(), r, target, desired, t, t.scrollActions, feed.offers)
                else Fit(persistence.Now(), r, target, desired, t) && Followed(feed.offers, t)
    {
      hide BooksOk;
      hide RunBytes;
      hide Settled;
      hide AllAccounted;
      hide Wrote;
      hide Head;
      hide Left;
      hide AfterReel;
      hide OthersKept;
      hide Fit;
      hide Shown;
      hide Followed;
      hide Stopped;
      ghost var fit := calm && Fit(persistence.Now(), r, target, desired, tally) && Shown(feed.offers, tally, reel);
      t := tally;
      end := CheckBefore(r, reel, target, desired, tally);
      ghost var mid := persistence.Now();
      if end.Some? {
        if fit {
          LimitStops(mid, r, target, desired, tally, feed.offers);
        }
        return;
      }
      t := t.(observations := t.observations + 1);
      if desired.None? && reel in t.seen {
        end := Some(Abandoned(DuplicateReel));
        SeenAgain(mid, r, reel, target, desired, tally, t);
        if fit {
          SeenStops(mid, r, reel, target, desired, tally, t, feed.offers);
        }
        return;
      }
      t := t.(seen := t.seen + {reel});
      end, t := ObserveNew(r, reel, target, desired, tally, t);
      OthersKeptTrans(old(persistence.runs), mid.runs, persistence.runs, r);
    }

    lemma LimitStops(b: Books, r: RunId, target: nat, desired: Option<nat>, t: Tally, offers: seq<Option<Candidate>>)
      requires Head(b, r, target, t) && Fit(b, r, target, desired, t) && limits.maxObservations == Some(t.observations)
      ensures Stopped(Abandoned(ObservationLimitReached), b, r, target, desired, t, t.scrollActions, offers)
    {
      hide RunBytes;
      hide OwnsExactly;
    }

    lemma SeenAgain(b: Books, r: RunId, reel: Shortcode, target: nat, desired: Option<nat>, t: Tally, t': Tally)
      requires Head(b, r, target, t) && ReelCounted(t, t')
      requires t'.committedBytes == t.committedBytes && t'.skipped == t.skipped
      ensures Left(b, r, target, desired, t', Abandoned(DuplicateReel))
    {
      hide RunBytes;
      NothingWritten(b, r, reel);
      HandledReel(b, b, r, reel, target, desired, t, t', Stop(DuplicateReel), None, Abandoned(DuplicateReel));
    }

    lemma SeenStops(b: Books, r: RunId, reel: Shortcode, target: nat, desired: Option<nat>, t: Tally, t': Tally,
                    offers: seq<Option<Candidate>>)
      requires Fit(b, r, target, desired, t) && Shown(offers, t, reel) && reel in t.seen && desired.None?
      requires t' == t.(observations := t'.observations)
      ensures Stopped(Abandoned(DuplicateReel), b, r, target, desired, t', t'.scrollActions, offers)
    {
      hide RunBytes;
      hide OwnsExactly;
      ShownThenFollowed(offers, t, reel, t.(seen := t.seen + {reel}));
    }

    /** Cancellation, deadline and observation limit, before a reel is counted. */
    method CheckBefore(r: RunId, reel: Shortcode, target: nat, desired: Option<nat>, t: Tally) returns (end: Option<LoopEnd>)
      requires persistence.Valid() && Head(persistence.Now(), r, target, t)
      requires AllAccounted(storage.Now(), persistence.Now(), r)
      modifies persistence`runs, persistence`db
      ensures persistence.Valid() && r in persistence.runs
      ensures OthersKept(old(persistence.runs), persistence.runs, r)
      ensures AllAccounted(storage.Now(), persistence.Now(), r)
      ensures Head(persistence.Now(), r, target, t)
      ensures end.Some? ==> Left(persistence.Now(), r, target, desired, t, end.value)
      ensures end.None? ==> (limits.maxObservations.Some? ==> t.observations < limits.maxObservations.value)
      ensures calm && old(Fit(persistence.Now(), r, target, desired, t)) ==>
                && Fit(persistence.Now(), r, target, desired, t)
                && (end.Some? ==> end == Some(Abandoned(ObservationLimitReached)) && limits.maxObservations == Some(t.observations))
    {
      hide *;
      ghost var before := persistence.Now();
      persistence.Rows();
      HeadRow(before, r, target, t);
      NothingWritten(before, r, reel);
      ghost var fit := calm && Fit(before, r, target, desired, t);
      if fit {
        FitUncancelled(before, r, target, desired, t);
        QuietNow(before, r);
      }
      var exn := CallAfter(r, reel, true, before);
      ghost var now := persistence.Now();
      persistence.Rows();
      Unwritten(storage.Now(), before, now, r, reel);
      HeadStays(before, now, r, reel, target, t);
      if fit {
        FitStays(before, now, r, target, desired, t);
      }
      var expired := DeadlineExpired();
      end := if exn.Some? then Some(Threw(exn.value))
             else if expired then Some(Abandoned(TotalTimeoutReached))
             else if limits.maxObservations.Some? && t.observations >= limits.maxObservations.value then
               Some(Abandoned(ObservationLimitReached))
             else None;
      if end.Some? {
        HeadLeaves(now, r, target, desired, t, end.value);
      }
    }

    /** The reel itself, once the checks are passed. */
    method ObserveNew(r: RunId, reel: Shortcode, target: nat, desired: Option<nat>, tally: Tally, counted: Tally)
      returns (end: Option<LoopEnd>, t: Tally)
      requires persistence.Valid() && Head(persistence.Now(), r, target, tally)
      requires AllAccounted(storage.Now(), persistence.Now(), r) && storage.issued <= storage.cleaned
      requires desired.None? ==> reel !in tally.seen
      requires ReelCounted(tally, counted)
      requires counted == tally.(observations := counted.observations, seen := tally.seen + {reel})
      modifies persistence, storage
      ensures persistence.Valid()
      ensures OthersKept(old(persistence.runs), persistence.runs, r)
      ensures AllAccounted(storage.Now(), persistence.Now(), r) && storage.issued <= storage.cleaned
      ensures if end.Some? then Left(persistence.Now(), r, target, desired, t, end.value)
              else AfterReel(persistence.Now(), r, target, t) && Settled(persistence.Now(), r, reel)
      ensures t.confirmedAdvances == tally.confirmedAdvances && t.scrollActions == tally.scrollActions
      ensures r in persistence.runs
      ensures calm && old(Fit(persistence.Now(), r, target, desired, tally)) && Shown(feed.offers, tally, reel) ==>
                if end.Some? then Stopped(end.value, persistence.Now(), r, target, desired, t, t.scrollActions, feed.offers)
                else Fit(persistence.Now(), r, target, desired, t) && Followed(feed.offers, t)
    {
      hide *;
      ghost var mid := persistence.Now();
      HeadBytes(r, target, tally);
      persistence.Rows();
      ghost var fit := calm && Fit(mid, r, target, desired, tally) && Shown(feed.offers, tally, reel);
      if fit {
        FitUncancelled(mid, r, target, desired, tally);
      }
      var step, bytes, skipped, written := HandleReel(r, reel, desired.Some?, counted.committedBytes);
      ghost var now := persistence.Now();
      persistence.Rows();
      BytesHere(r);
      RowWritten(mid, now, r, reel, written);
      t := counted.(committedBytes := bytes, skipped := counted.skipped + if skipped then 1 else 0);
      end := if step.Proceed? then None
             else Some(if step.Throw? then Threw(step.exn) else Abandoned(step.reason));
      ReelEnds(mid, now, r, reel, target, desired, tally, counted, t, step, skipped, written, end, feed.offers, fit);
    }

    /** What one handled reel makes of the loop's state. */
    lemma ReelEnds(b: Books, b': Books, r: RunId, reel: Shortcode, target: nat, desired: Option<nat>,
                   t: Tally, counted: Tally, t': Tally, step: Step, skipped: bool, written: Option<ItemOutcome>,
                   end: Option<LoopEnd>, offers: seq<Option<Candidate>>, fit: bool)
      requires Head(b, r, target, t) && Wrote(b, b', r, reel, written) && ReelCounted(t, counted)
      requires counted == t.(observations := counted.observations, seen := t.seen + {reel})
      requires t' == counted.(committedBytes := t'.committedBytes, skipped := t.skipped + if skipped then 1 else 0)
      requires t'.committedBytes == RunBytes(b'.items, b'.db, r) && WithinBytes(t'.committedBytes)
      requires step.Proceed? ==> skipped == written.None? && (written.Some? ==> Acquisition(written.value))
      requires !step.Proceed? ==> !skipped && written != Some(AlreadyAvailable)
      requires end == if step.Proceed? then None
                      else Some(if step.Throw? then Threw(step.exn) else Abandoned(step.reason))
      requires fit ==>
                 && Fit(b, r, target, desired, t) && Shown(offers, t, reel)
                 && (desired.None? ==> reel !in t.seen) && (skipped ==> desired.Some?)
                 && r in b.runs && Handled(b, b', r, reel, desired.Some?, limits.maxRunBytes.Some?, step, skipped, written)
      ensures r in b'.runs
      ensures if end.Some? then Left(b', r, target, desired, t', end.value) else AfterReel(b', r, target, t')
      ensures fit ==>
                if end.Some? then Stopped(end.value, b', r, target, desired, t', t'.scrollActions, offers)
                else Fit(b', r, target, desired, t') && Followed(offers, t')
    {
      hide RunBytes;
      hide Fit;
      hide Shown;
      hide Followed;
      hide Handled;
      hide Stopped;
      RowWritten(b, b', r, reel, written);
      HandledReel(b, b', r, reel, target, desired, t, t', step, written,
                  if end.Some? then end.value else Abandoned(CollectorFailed));
      hide Wrote;
      hide Head;
      if fit {
        FitReel(b, b', r, reel, target, desired, t, t', step, skipped, written, offers);
      }
    }

    lemma BytesHere(r: RunId)
      ensures BytesOf(r) == RunBytes(persistence.Now().items, persistence.Now().db, r)
    {
    }

    lemma HeadBytes(r: RunId, target: nat, t: Tally)
      requires Head(persistence.Now(), r, target, t)
      ensures r in persistence.runs && t.committedBytes == BytesOf(r) && WithinBytes(t.committedBytes)
    {
    }

    /** After a reel a calm run is fit again, or it has run out of bytes. */
    lemma FitReel(b: Books, b': Books, r: RunId, reel: Shortcode, target: nat, desired: Option<nat>, t: Tally, t': Tally,
                  step: Step, skipped: bool, written: Option<ItemOutcome>, offers: seq<Option<Candidate>>)
      requires Fit(b, r, target, desired, t) && Head(b, r, target, t) && Wrote(b, b', r, reel, written)
      requires (desired.None? ==> reel !in t.seen) && (skipped ==> desired.Some?) && Shown(offers, t, reel)
      requires t'.seen == t.seen + {reel} && t'.skipped == t.skipped + if skipped then 1 else 0
      requires t'.scrollActions == t.scrollActions && t'.confirmedAdvances == t.confirmedAdvances
      requires Handled(b, b', r, reel, desired.Some?, limits.maxRunBytes.Some?, step, skipped, written)
      ensures r in b'.runs
      ensures if step.Proceed? then Fit(b', r, target, desired, t') && Followed(offers, t')
              else
                && step == Stop(RunByteLimitExceeded)
                && Stopped(Abandoned(step.reason), b', r, target, desired, t', t'.scrollActions, offers)
    {
      hide RunBytes;
      hide OwnsExactly;
      RowWritten(b, b', r, reel, written);
      FitHandled(b, b', r, reel, target, desired, t, t', step, skipped, written);
      ShownThenFollowed(offers, t, reel, t');
      hide Wrote;
      hide Handled;
      hide Shown;
      hide Followed;
      hide Head;
      if !step.Proceed? {
        FitUncancelled(b, r, target, desired, t);
      }
    }

    /** The second half: conclude the run once the target is met, or move the feed on. */
    method FinishTurn(r: RunId, reel: Shortcode, target: nat, desired: Option<nat>, tally: Tally)
      returns (end: Option<LoopEnd>, next: Shortcode, t: Tally)
      requires persistence.Valid() && AfterReel(persistence.Now(), r, target, tally)
      requires Settled(persistence.Now(), r, reel) && WithinScrolls(tally.scrollActions)
      requires AllAccounted(storage.Now(), persistence.Now(), r)
      modifies persistence`runs, persistence`db, feed`advances, feed`offers
      ensures persistence.Valid()
      ensures OthersKept(old(persistence.runs), persistence.runs, r)
      ensures AllAccounted(storage.Now(), persistence.Now(), r)
      ensures old(feed.advances) <= feed.advances
      ensures WithinScrolls(tally.scrollActions + (feed.advances - old(feed.advances)))
      ensures if end.Some? then Left(persistence.Now(), r, target, desired, t, end.value)
              else
                && Head(persistence.Now(), r, target, t)
                && t.confirmedAdvances == tally.confirmedAdvances + 1 <= limits.maxAdvances
                && t.scrollActions == tally.scrollActions + (feed.advances - old(feed.advances))
      ensures r in persistence.runs
      ensures calm && old(Fit(persistence.Now(), r, target, desired, tally)) && old(Followed(feed.offers, tally)) ==>
                if end.Some? then Stopped(end.value, persistence.Now(), r, target, desired, t,
                                          tally.scrollActions + (feed.advances - old(feed.advances)), feed.offers)
                else Fit(persistence.Now(), r, target, desired, t) && Shown(feed.offers, t, next)
    {
      t, next := tally, reel;
      hide BooksOk;
      hide RunBytes;
      hide Settled;
      hide AllAccounted;
      hide AccountDurable;
      hide OwnsExactly;
      hide Wrote;
      hide Head;
      hide Left;
      hide AfterReel;
      hide OthersKept;
      hide Quiet;
      hide Fit;
      hide Followed;
      hide Shown;
      hide Stopped;
      hide MoveStopped;
      ghost var offers, fit := feed.offers, calm && Fit(persistence.Now(), r, target, desired, tally) && Followed(feed.offers, tally);
      var exn := ReadSummary(r, reel, target, desired, t);
      if exn.Some? {
        return Some(Threw(exn.value)), next, t;
      }
      ghost var mid := persistence.Now();
      if fit {
        FitUncancelled(mid, r, target, desired, t);
      }
      if persistence.runs[r].committed + persistence.runs[r].available >= target {
        end := ConcludeTurn(r, reel, target, desired, t);
      } else {
        ghost var answers;
        end, next, t, answers := MoveTurn(r, reel, target, desired, tally);
        if fit {
          FitMoves(mid, persistence.Now(), r, target, desired, tally, t, end, next, feed.advances - old(feed.advances), offers, answers);
        }
      }
      OthersKeptTrans(old(persistence.runs), mid.runs, persistence.runs, r);
    }

    /** `summary`, which may raise; the counters are those of the run's row. */
    method ReadSummary(r: RunId, reel: Shortcode, target: nat, desired: Option<nat>, t: Tally) returns (exn: Option<Exn>)
      requires persistence.Valid() && AfterReel(persistence.Now(), r, target, t)
      requires Settled(persistence.Now(), r, reel) && AllAccounted(storage.Now(), persistence.Now(), r)
      modifies persistence`runs, persistence`db
      ensures persistence.Valid() && r in persistence.runs
      ensures OthersKept(old(persistence.runs), persistence.runs, r)
      ensures Settled(persistence.Now(), r, reel) && AllAccounted(storage.Now(), persistence.Now(), r)
      ensures AfterReel(persistence.Now(), r, target, t)
      ensures exn.Some? ==> Left(persistence.Now(), r, target, desired, t, Threw(exn.value))
      ensures calm && old(Fit(persistence.Now(), r, target, desired, t)) ==>
                exn.None? && Fit(persistence.Now(), r, target, desired, t)
    {
      ghost var before := persistence.Now();
      NothingWritten(before, r, reel);
      hide BooksOk;
      hide RunBytes;
      hide Settled;
      hide AllAccounted;
      hide Wrote;
      hide Left;
      hide AfterReel;
      hide OthersKept;
      hide Quiet;
      hide Fit;
      ghost var fit := calm && Fit(before, r, target, desired, t);
      StillThere(before, before, r, reel, None);
      if fit {
        FitUncancelled(before, r, target, desired, t);
        QuietNow(before, r);
      }
      exn := CallAfter(r, reel, false, before);
      Unwritten(storage.Now(), before, persistence.Now(), r, reel);
      AfterReelStays(before, persistence.Now(), r, reel, target, desired, t, Threw(if exn.Some? then exn.value else Plain));
      if fit {
        FitStays(before, persistence.Now(), r, target, desired, t);
      }
    }

    method MoveTurn(r: RunId, reel: Shortcode, target: nat, desired: Option<nat>, tally: Tally)
      returns (end: Option<LoopEnd>, next: Shortcode, t: Tally, ghost answers: seq<Option<Candidate>>)
      requires persistence.Valid() && AfterReel(persistence.Now(), r, target, tally)
      requires persistence.runs[r].committed + persistence.runs[r].available < target
      requires Settled(persistence.Now(), r, reel) && WithinScrolls(tally.scrollActions)
      requires AllAccounted(storage.Now(), persistence.Now(), r)
      modifies persistence`runs, persistence`db, feed`advances, feed`offers
      ensures persistence.Valid() && r in persistence.runs
      ensures OthersKept(old(persistence.runs), persistence.runs, r)
      ensures AllAccounted(storage.Now(), persistence.Now(), r)
      ensures old(feed.advances) <= feed.advances
      ensures WithinScrolls(tally.scrollActions + (feed.advances - old(feed.advances)))
      ensures if end.Some? then t == tally && Left(persistence.Now(), r, target, desired, t, end.value)
              else
                && Head(persistence.Now(), r, target, t)
                && tally.confirmedAdvances < limits.maxAdvances
                && t == tally.(confirmedAdvances := tally.confirmedAdvances + 1,
                               transitionOperations := tally.transitionOperations + 1,
                               scrollActions := tally.scrollActions + (feed.advances - old(feed.advances)))
      ensures feed.offers == old(feed.offers) + answers
      ensures calm && !old(persistence.runs[r].cancelRequested) ==>
                && Quiet(old(persistence.Now()), persistence.Now(), r)
                && (end.Some? ==> MoveStopped(end.value, tally.confirmedAdvances, tally.transitionOperations, tally.scrollActions,
                                              feed.advances - old(feed.advances), if desired.None? then tally.seen else {}, answers))
                && (end.None? ==> LastIs(answers, next) && (t.scrollActions <= tally.scrollActions + 1 || None in answers))
    {
      hide *;
      t, next := tally, reel;
      ghost var before := persistence.Now();
      persistence.Rows();
      AfterReelRow(before, r, target, tally);
      var moved, candidate, consumed;
      moved, candidate, consumed, answers := Move(r, reel, t.confirmedAdvances, t.transitionOperations, t.scrollActions,
                                                  if desired.None? then t.seen else {});
      ghost var now := persistence.Now();
      persistence.Rows();
      Unwritten(storage.Now(), before, now, r, reel);
      end := moved;
      if moved.Some? {
        AfterReelStays(before, now, r, reel, target, desired, t, moved.value);
      } else {
        next := candidate;
        t := t.(confirmedAdvances := t.confirmedAdvances + 1,
                transitionOperations := t.transitionOperations + 1,
                scrollActions := t.scrollActions + consumed);
        MovedOn(before, now, r, reel, target, tally, t);
      }
    }

    lemma FitMoved(b: Books, r: RunId, target: nat, desired: Option<nat>, t: Tally, t': Tally)
      requires Fit(b, r, target, desired, t) && t'.seen == t.seen && t'.skipped == t.skipped
      ensures Fit(b, r, target, desired, t')
    {
    }

    lemma FitMoves(b: Books, b': Books, r: RunId, target: nat, desired: Option<nat>, t: Tally, t': Tally, end: Option<LoopEnd>,
                   next: Shortcode, scrolls: int, offers: seq<Option<Candidate>>, answers: seq<Option<Candidate>>)
      requires Fit(b, r, target, desired, t) && AfterReel(b, r, target, t) && Followed(offers, t) && Quiet(b, b', r)
      requires b.runs[r].committed + b.runs[r].available < target
      requires if end.Some? then
                 && t' == t
                 && MoveStopped(end.value, t.confirmedAdvances, t.transitionOperations, t.scrollActions, scrolls,
                                if desired.None? then t.seen else {}, answers)
               else
                 && t' == t.(confirmedAdvances := t.confirmedAdvances + 1,
                             transitionOperations := t.transitionOperations + 1, scrollActions := t'.scrollActions)
                 && LastIs(answers, next) && (t'.scrollActions <= t.scrollActions + 1 || None in answers)
      ensures r in b'.runs
      ensures if end.Some? then Stopped(end.value, b', r, target, desired, t', t.scrollActions + scrolls, offers + answers)
              else Fit(b', r, target, desired, t') && Shown(offers + answers, t', next)
    {
      FitStays(b, b', r, target, desired, t);
      assert b'.runs == b.runs && b'.items == b.items;
      hide RunBytes;
      hide OwnsExactly;
      hide Shown;
      hide Followed;
      hide MoveStopped;
      if end.Some? {
        MoveEnds(b', r, target, desired, t, end.value, scrolls, offers, answers);
      } else {
        FitMoved(b', r, target, desired, t, t');
        FollowedThenShown(offers, answers, t, t', next);
      }
    }

    /** Why the feed was not moved is why the run stops. */
    lemma MoveEnds(b: Books, r: RunId, target: nat, desired: Option<nat>, t: Tally, end: LoopEnd, scrolls: int,
                   offers: seq<Option<Candidate>>, answers: seq<Option<Candidate>>)
      requires Fit(b, r, target, desired, t) && Followed(offers, t) && t.transitionOperations == t.confirmedAdvances
      requires t.observations == t.confirmedAdvances + 1
      requires t.observations == b.runs[r].committed + b.runs[r].available + t.skipped
      requires b.runs[r].committed + b.runs[r].available < target
      requires MoveStopped(end, t.confirmedAdvances, t.transitionOperations, t.scrollActions, scrolls,
                           if desired.None? then t.seen else {}, answers)
      ensures Stopped(end, b, r, target, desired, t, t.scrollActions + scrolls, offers + answers)
    {
      hide RunBytes;
      hide OwnsExactly;
      var all := offers + answers;
      assert None in offers || None in answers ==> None in all;
      if end == Abandoned(DuplicateReel) {
        var reel :| reel in (if desired.None? then t.seen else {}) && LastIs(answers, reel);
        RejectedRepeats(offers, answers, t.seen, reel);
      }
    }

    method ConcludeTurn(r: RunId, reel: Shortcode, target: nat, desired: Option<nat>, t: Tally)
      returns (end: Option<LoopEnd>)
      requires persistence.Valid() && AfterReel(persistence.Now(), r, target, t)
      requires persistence.runs[r].committed + persistence.runs[r].available >= target
      requires AllAccounted(storage.Now(), persistence.Now(), r)
      modifies persistence`runs
      ensures persistence.Valid() && OthersKept(old(persistence.runs), persistence.runs, r)
      ensures AllAccounted(storage.Now(), persistence.Now(), r)
      ensures end.Some? && Left(persistence.Now(), r, target, desired, t, end.value)
      ensures r in persistence.runs
      ensures calm && (desired.None? ==> t.skipped == 0) ==>
                forall scrolls, offers :: Stopped(end.value, persistence.Now(), r, target, desired, t, scrolls, offers)
    {
      ghost var before := persistence.Now();
      NothingWritten(before, r, reel);
      StillThere(before, before, r, reel, None);
      hide BooksOk;
      hide RunBytes;
      hide AllAccounted;
      hide AccountDurable;
      hide OwnsExactly;
      hide Wrote;
      hide Left;
      hide AfterReel;
      var concluded := Conclude(r, desired);
      AccountedIgnoresRuns(storage.Now(), before, persistence.Now(), r);
      if concluded.TargetMet? {
        ConcludedRun(before, persistence.Now(), r, target, desired, t);
      } else {
        AfterReelStays(before, before, r, reel, target, desired, t, concluded);
      }
      end := Some(concluded);
    }

    /** The first two calls inside the outer try: the cancellation check and the feed's current candidate. */
    method FirstCandidate(r: RunId, target: nat, desired: Option<nat>, t: Tally)
      returns (end: Option<LoopEnd>, reel: Shortcode)
      requires persistence.Valid() && Head(persistence.Now(), r, target, t)
      requires AllAccounted(storage.Now(), persistence.Now(), r)
      modifies persistence`runs, persistence`db, feed`offers
      ensures persistence.Valid() && OthersKept(old(persistence.runs), persistence.runs, r)
      ensures AllAccounted(storage.Now(), persistence.Now(), r)
      ensures r in persistence.runs
      ensures if end.Some? then Left(persistence.Now(), r, target, desired, t, end.value)
              else Head(persistence.Now(), r, target, t)
      ensures calm && old(Fit(persistence.Now(), r, target, desired, t)) && t.seen == {} && t.scrollActions == 0 ==>
                Going(end, persistence.Now(), r, target, desired, t, 0, feed.offers, reel)
    {
      hide *;
      reel := "";
      ghost var before := persistence.Now();
      persistence.Rows();
      HeadRow(before, r, target, t);
      NothingWritten(before, r, reel);
      ghost var fit := calm && Fit(before, r, target, desired, t);
      if fit {
        FitUncancelled(before, r, target, desired, t);
        QuietNow(before, r);
      }
      var exn := CallAfter(r, reel, true, before);
      if exn.None? {
        exn := CallAfter(r, reel, false, before);
      }
      ghost var now := persistence.Now();
      persistence.Rows();
      Unwritten(storage.Now(), before, now, r, reel);
      HeadStays(before, now, r, reel, target, t);
      if fit {
        FitStays(before, now, r, target, desired, t);
        FitUncancelled(now, r, target, desired, t);
      }
      end := if exn.Some? then Some(Threw(exn.value)) else None;
      if exn.None? {
        var candidate := feed.Current();
        reel := candidate.shortcode;
        end := if candidate.canonical then None else Some(Threw(InvalidCandidate));
        if fit {
          FirstShown(now, r, target, desired, t, feed.offers, candidate);
        }
      }
      if end.Some? {
        HeadLeaves(now, r, target, desired, t, end.value);
      }
    }

    lemma FirstShown(b: Books, r: RunId, target: nat, desired: Option<nat>, t: Tally, offers: seq<Option<Candidate>>,
                     candidate: Candidate)
      requires r in b.runs && Fit(b, r, target, desired, t)
      requires offers != [] && offers[|offers| - 1] == Some(candidate)
      ensures t.seen == {} && t.scrollActions == 0 ==>
                Going(if candidate.canonical then None else Some(Threw(InvalidCandidate)), b, r, target, desired, t, 0, offers,
                      candidate.shortcode)
    {
      hide OwnsExactly;
    }

    /** A calm run with a row that has room for the target, in a database where every durable reel has its source. */
    ghost predicate Fair(r: RunId, target: int)
      reads persistence
    {
      && calm && Sourced(persistence.db)
      && r in persistence.runs && persistence.runs[r].target >= target && !persistence.runs[r].cancelRequested
    }

    /** The state of `while True`, before a turn or after the last one. */
    ghost predicate Looping(over: Option<LoopEnd>, b: Books, r: RunId, target: nat, desired: Option<nat>, t: Tally, scrolls: int,
                            offers: seq<Option<Candidate>>, reel: Shortcode, fair: bool) {
      && r in b.runs && WithinScrolls(scrolls)
      && (if over.Some? then Left(b, r, target, desired, t, over.value)
          else Head(b, r, target, t) && t.scrollActions == scrolls)
      && (fair ==> calm && Going(over, b, r, target, desired, t, scrolls, offers, reel))
    }

    /** One turn of `while True`. */
    method Turn(r: RunId, reel: Shortcode, target: nat, desired: Option<nat>, tally: Tally, ghost start: nat, ghost fair: bool)
      returns (end: Option<LoopEnd>, next: Shortcode, t: Tally)
      requires persistence.Valid()
      requires Looping(None, persistence.Now(), r, target, desired, tally, feed.advances - start, feed.offers, reel, fair)
      requires AllAccounted(storage.Now(), persistence.Now(), r) && storage.issued <= storage.cleaned
      modifies persistence, storage, feed`advances, feed`offers
      ensures persistence.Valid()
      ensures OthersKept(old(persistence.runs), persistence.runs, r)
      ensures AllAccounted(storage.Now(), persistence.Now(), r) && storage.issued <= storage.cleaned
      ensures old(feed.advances) <= feed.advances
      ensures end.None? ==> t.confirmedAdvances == tally.confirmedAdvances + 1 <= limits.maxAdvances
      ensures Looping(end, persistence.Now(), r, target, desired, t, feed.advances - start, feed.offers, next, fair)
    {
      hide BooksOk;
      hide RunBytes;
      hide Settled;
      hide AllAccounted;
      hide Head;
      hide Left;
      hide AfterReel;
      hide OthersKept;
      hide Fit;
      hide Shown;
      hide Followed;
      hide Stopped;
      next := reel;
      end, t := Observe(r, reel, target, desired, tally);
      if end.None? {
        ghost var mid, scrolled := persistence.runs, t.scrollActions;
        end, next, t := FinishTurn(r, reel, target, desired, t);
        assert scrolled + (feed.advances - old(feed.advances)) == feed.advances - start;
        OthersKeptTrans(old(persistence.runs), mid, persistence.runs, r);
      }
    }

    lemma StartsFair(r: RunId, target: nat, desired: Option<nat>, t: Tally)
      requires persistence.Valid() && FreshRun(persistence.runs, r) && Fair(r, target)
      requires t == Tally(0, 0, 0, 0, 0, 0, {})
      ensures calm && Fit(persistence.Now(), r, target, desired, t)
    {
      hide BooksOk;
      FitAtStart(persistence.Now(), r, target, desired, t);
    }

    /** The body of `collect` between the creation of the run and its handlers. */
    method RunLoop(r: RunId, target: nat, desired: Option<nat>)
      returns (end: LoopEnd, t: Tally)
      requires Acceptable(limits, target, desired)
      requires persistence.Valid() && FreshRun(persistence.runs, r)
      requires storage.created == {} && storage.issued <= storage.cleaned
      modifies persistence, storage, feed`advances, feed`offers
      ensures persistence.Valid()
      ensures OthersKept(old(persistence.runs), persistence.runs, r)
      ensures Left(persistence.Now(), r, target, desired, t, end)
      ensures old(feed.advances) <= feed.advances && WithinScrolls(feed.advances - old(feed.advances))
      ensures AllAccounted(storage.Now(), persistence.Now(), r) && storage.issued <= storage.cleaned
      ensures r in persistence.runs
      ensures old(Fair(r, target)) ==>
                Stopped(end, persistence.Now(), r, target, desired, t, feed.advances - old(feed.advances), feed.offers)
    {
      hide *;
      var over, reel;
      over, reel, t := Begin(r, target, desired);
      ghost var start, fair := feed.advances, old(Fair(r, target));
      while over.None?
        invariant persistence.Valid()
        invariant OthersKept(old(persistence.runs), persistence.runs, r)
        invariant AllAccounted(storage.Now(), persistence.Now(), r) && storage.issued <= storage.cleaned
        invariant start <= feed.advances
        invariant Looping(over, persistence.Now(), r, target, desired, t, feed.advances - start, feed.offers, reel, fair)
        decreases if over.Some? then 0 else 1, limits.maxAdvances - t.confirmedAdvances
      {
        ghost var head := persistence.runs;
        over, reel, t := Turn(r, reel, target, desired, t, start, fair);
        OthersKeptTrans(old(persistence.runs), head, persistence.runs, r);
      }
      end := over.value;
      LoopEnds(over, r, target, desired, t, feed.advances - start, feed.offers, reel, fair);
    }

    lemma LoopEnds(over: Option<LoopEnd>, r: RunId, target: nat, desired: Option<nat>, t: Tally, scrolls: int,
                   offers: seq<Option<Candidate>>, reel: Shortcode, fair: bool)
      requires over.Some? && Looping(over, persistence.Now(), r, target, desired, t, scrolls, offers, reel, fair)
      ensures r in persistence.runs && Left(persistence.Now(), r, target, desired, t, over.value) && WithinScrolls(scrolls)
      ensures fair ==> Stopped(over.value, persistence.Now(), r, target, desired, t, scrolls, offers)
    {
      hide Left;
      hide Stopped;
    }

    /** The state before the first turn. */
    method Begin(r: RunId, target: nat, desired: Option<nat>) returns (over: Option<LoopEnd>, reel: Shortcode, t: Tally)
      requires Acceptable(limits, target, desired)
      requires persistence.Valid() && FreshRun(persistence.runs, r) && storage.created == {}
      modifies persistence`runs, persistence`db, feed`offers
      ensures persistence.Valid() && OthersKept(old(persistence.runs), persistence.runs, r)
      ensures AllAccounted(storage.Now(), persistence.Now(), r)
      ensures Looping(over, persistence.Now(), r, target, desired, t, 0, feed.offers, reel, old(Fair(r, target)))
    {
      t := Tally(0, 0, 0, 0, 0, 0, {});
      HeadAtStart(persistence.Now(), r, target, desired, t);
      NothingCreated(storage.Now(), persistence.Now(), r);
      hide Fair;
      hide Fit;
      hide Going;
      hide BooksOk;
      hide AllAccounted;
      hide Head;
      hide Left;
      hide OthersKept;
      hide Acceptable;
      hide FreshRun;
      if Fair(r, target) {
        StartsFair(r, target, desired, t);
      }
      over, reel := FirstCandidate(r, target, desired, t);
    }

    /******* collect *******/

    /** `_summary`: counters as read back, or zeros when reading raises. */
    method Summarize(r: RunId, target: nat, status: RunStatus, reason: Option<StopReason>, t: Tally)
      returns (summary: CollectResult)
      ensures summary.Summary? && summary.run == r && summary.target == target
      ensures summary.status == status && summary.reason == reason
      ensures summary.confirmedAdvances == t.confirmedAdvances
              && summary.observations == t.observations && summary.skipped == t.skipped
      ensures || (summary.committed == summary.available == summary.failed == 0)
              || (r in persistence.runs
                  && summary.committed == persistence.runs[r].committed
                  && summary.available == persistence.runs[r].available
                  && summary.failed == persistence.runs[r].failed)
      ensures calm && r in persistence.runs ==>
                && summary.committed == persistence.runs[r].committed
                && summary.available == persistence.runs[r].available
                && summary.failed == persistence.runs[r].failed
    {
      var raised: bool := *;
      summary := Summary(r, status, target, 0, 0, 0, t.confirmedAdvances, reason, t.observations, t.skipped);
      if (!raised || calm) && r in persistence.runs {
        var run := persistence.runs[r];
        summary := summary.(committed := run.committed, available := run.available, failed := run.failed);
      }
    }

    /** The handlers of the outer try: which status the run is closed with, and why. */
    function Closing(end: LoopEnd): (RunStatus, Option<StopReason>) {
      match end
      case TargetMet => (RunCompleted, None)
      case Abandoned(reason) => (RunFailed, Some(reason))
      case Threw(InvalidCandidate) => (RunFailed, Some(InvalidReelCandidate))
      case Threw(Interrupt) => (RunCancelled, Some(CancelledByUser))
      case Threw(Coded(code)) => (if code.BrowserClosed? then RunCancelled else RunFailed, Some(code))
      case Threw(_) => (RunFailed, Some(CollectorFailed))
    }

    /** The closing write, which may be lost; it never reopens or completes a run. */
    method CloseRun(r: RunId, end: LoopEnd)
      requires persistence.Valid() && r in persistence.runs
      requires !end.TargetMet? ==> persistence.runs[r].status.RunRunning?
      modifies persistence`runs
      ensures persistence.Valid() && OthersKept(old(persistence.runs), persistence.runs, r)
      ensures calm && !end.TargetMet? ==> persistence.runs == old(persistence.runs)[r := old(persistence.runs)[r].(status := Closing(end).0)]
      ensures persistence.runs == old(persistence.runs)
              || (!end.TargetMet? && persistence.runs == old(persistence.runs)[r := old(persistence.runs)[r].(status := Closing(end).0)])
    {
      hide BooksOk;
      var (status, reason) := Closing(end);
      var raises: bool := *;
      raises := raises && !calm;
      if status.RunCancelled? {
        persistence.CancelRun(r, raises);
      } else if status.RunFailed? {
        persistence.FailRun(r, raises);
      }
    }

    /** What `collect` promises about one run, whichever way it ended. */
    ghost predicate Outcomes(b: Books, shelf: Shelf, r: RunId, target: nat, desired: Option<nat>, result: CollectResult,
                             advances: nat)
      requires result.Summary? && r in b.runs
    {
      var run := b.runs[r];
      var settled := run.committed + run.available + result.skipped;
      // bounded, commit-gated scrolling
      && WithinObservations(result.observations) && WithinScrolls(advances)
      && WithinBytes(RunBytes(b.items, b.db, r))
      && settled <= result.observations <= settled + 1
      && run.failed <= result.observations - settled
      && result.confirmedAdvances <= result.observations <= result.confirmedAdvances + 1
      // publish, commit, compensate
      && AllAccounted(shelf, b, r)
      // status: reported as completed exactly when the row is; otherwise a lost closing write leaves it running
      && (result.status.RunCompleted? <==> run.status.RunCompleted?)
      && (run.status == result.status || run.status.RunRunning?)
      && result.status in {RunCompleted, RunFailed, RunCancelled}
      && (result.reason.None? <==> result.status.RunCompleted?)
      && (result.status.RunCancelled? ==> result.reason.value in {CancelledByUser, BrowserClosed})
      && ((result.committed == run.committed && result.available == run.available && result.failed == run.failed)
          || result.committed == result.available == result.failed == 0)
      && (result.status.RunCompleted? ==>
            && result.reason.None? && run.failed == 0 && run.committed + run.available == target
            && result.observations == target + result.skipped
            && (desired.Some? ==> OwnsExactly(b.runs, b.items, b.db, run.account, desired.value)))
    }

    /** What a calm run ends with: its own row's counters and status, and no reason but a limit, the total or the feed. */
    ghost predicate Justified(b: Books, r: RunId, target: nat, desired: Option<nat>, result: CollectResult, scrolls: int,
                              offers: seq<Option<Candidate>>)
      requires result.Summary? && r in b.runs
    {
      var run := b.runs[r];
      var met := run.committed + run.available;
      && run.status == result.status
      && result.committed == run.committed && result.available == run.available && result.failed == run.failed
      && (desired.None? ==> result.skipped == 0)
      && (result.reason.None? <==> run.status.RunCompleted?)
      && (result.reason.Some? ==>
            match result.reason.value
            case ObservationLimitReached =>
              met < target && result.observations == met + result.skipped && limits.maxObservations == Some(result.observations)
            case AdvanceLimitReached =>
              && met < target && result.observations == met + result.skipped == result.confirmedAdvances + 1
              && (|| result.confirmedAdvances >= limits.maxAdvances
                  || (limits.maxTransitionOperations.Some? && result.confirmedAdvances >= limits.maxTransitionOperations.value)
                  || (limits.maxScrollActions == Some(scrolls) && (scrolls <= result.confirmedAdvances || None in offers)))
            case RunByteLimitExceeded => limits.maxRunBytes.Some?
            case FinalDurableTotalMismatch =>
              desired.Some? && met >= target && !OwnsExactly(b.runs, b.items, b.db, run.account, desired.value)
            case DuplicateReel => desired.None? && LastRepeats(offers)
            case InvalidReelCandidate => LastInvalid(offers)
            case TransitionFailed => !feed.authenticated && LastAbsent(offers, 2)
            case AuthenticatedFeedExhausted => feed.authenticated && LastAbsent(offers, 1)
            case _ => false)
    }

    /** What the loop left behind and the closing write make the outcomes. */
    lemma ClosedOutcomes(b: Books, b': Books, shelf: Shelf, r: RunId, target: nat, desired: Option<nat>, t: Tally, scrolls: nat,
                         end: LoopEnd, result: CollectResult)
      requires Left(b, r, target, desired, t, end) && WithinScrolls(scrolls) && AllAccounted(shelf, b', r)
      requires b' == b || (!end.TargetMet? && b' == b.(runs := b.runs[r := b.runs[r].(status := Closing(end).0)]))
      requires result.Summary? && result.status == Closing(end).0 && result.reason == Closing(end).1
      requires result.confirmedAdvances == t.confirmedAdvances && result.observations == t.observations
      requires result.skipped == t.skipped
      requires || result.committed == result.available == result.failed == 0
               || (result.committed == b'.runs[r].committed && result.available == b'.runs[r].available
                   && result.failed == b'.runs[r].failed)
      ensures Outcomes(b', shelf, r, target, desired, result, scrolls)
    {
      hide AllAccounted;
      hide OwnsExactly;
      hide RunBytes;
    }

    lemma LeftStatus(b: Books, r: RunId, target: nat, desired: Option<nat>, t: Tally, end: LoopEnd)
      requires Left(b, r, target, desired, t, end)
      ensures r in b.runs && if end.TargetMet? then b.runs[r].status.RunCompleted? else b.runs[r].status.RunRunning?
    {
    }

    lemma ClosedLegally(runs: map<RunId, Run>, b: Books, b': Books, r: RunId, target: nat, desired: Option<nat>, t: Tally,
                        end: LoopEnd)
      requires FreshRun(runs, r) && Left(b, r, target, desired, t, end)
      requires b' == b || (!end.TargetMet? && b' == b.(runs := b.runs[r := b.runs[r].(status := Closing(end).0)]))
      ensures RunMovedLegally(runs, b'.runs, r)
    {
      LeftStatus(b, r, target, desired, t, end);
      hide Left;
    }

    lemma FairIsCalm(r: RunId, target: int)
      requires Fair(r, target)
      ensures calm
    {
    }

    /** The reason a calm run is closed with is the one its loop ended for. */
    lemma StoppedIsJustified(b: Books, b': Books, r: RunId, target: nat, desired: Option<nat>, t: Tally, scrolls: int,
                             offers: seq<Option<Candidate>>, end: LoopEnd, result: CollectResult)
      requires r in b.runs && Stopped(end, b, r, target, desired, t, scrolls, offers)
      requires end.TargetMet? ==> b.runs[r].status.RunCompleted?
      requires b' == if end.TargetMet? then b else b.(runs := b.runs[r := b.runs[r].(status := Closing(end).0)])
      requires result.Summary? && result.status == Closing(end).0 && result.reason == Closing(end).1
      requires result.confirmedAdvances == t.confirmedAdvances && result.observations == t.observations
      requires result.skipped == t.skipped
      requires result.committed == b.runs[r].committed && result.available == b.runs[r].available
      requires result.failed == b.runs[r].failed
      ensures Justified(b', r, target, desired, result, scrolls, offers)
    {
      if desired.Some? && end == Abandoned(FinalDurableTotalMismatch) {
        DurableIgnoresStatus(b.runs, b'.runs, b.items, b.db, r);
        OwnsExactlyTotal(b.runs, b.items, b.db, b.runs[r].account, desired.value);
        OwnsExactlyTotal(b'.runs, b.items, b.db, b.runs[r].account, desired.value);
      }
      hide OwnsExactly;
      hide AccountDurable;
    }

    /**
     A calm run whose limits leave room for the target and whose feed keeps
     answering with new canonical candidates meets its target.
     */
    lemma AmpleLimitsComplete(b: Books, shelf: Shelf, r: RunId, target: nat, result: CollectResult, advances: nat,
                              offers: seq<Option<Candidate>>)
      requires result.Summary? && r in b.runs
      requires Outcomes(b, shelf, r, target, None, result, advances) && Justified(b, r, target, None, result, advances, offers)
      requires target - 1 <= limits.maxAdvances && limits.maxRunBytes.None?
      requires limits.maxTransitionOperations.Some? ==> target - 1 <= limits.maxTransitionOperations.value
      requires limits.maxScrollActions.Some? ==> target - 1 <= limits.maxScrollActions.value
      requires limits.maxObservations.Some? ==> target <= limits.maxObservations.value
      requires forall i :: 0 <= i < |offers| ==> offers[i].Some? && offers[i].value.canonical
      requires forall i, j :: 0 <= i < j < |offers| ==> offers[i] != offers[j]
      ensures result.status.RunCompleted? && result.committed + result.available == target == result.observations
    {
      NothingWrong(offers);
      hide AllAccounted;
      hide OwnsExactly;
      hide RunBytes;
      hide LastRepeats;
      hide LastInvalid;
      hide LastAbsent;
    }

    lemma NothingWrong(offers: seq<Option<Candidate>>)
      requires forall i :: 0 <= i < |offers| ==> offers[i].Some? && offers[i].value.canonical
      requires forall i, j :: 0 <= i < j < |offers| ==> offers[i] != offers[j]
      ensures !LastRepeats(offers) && !LastInvalid(offers) && !LastAbsent(offers, 1) && !LastAbsent(offers, 2) && None !in offers
    {
      if offers != [] {
        assert offers[|offers| - 1].Some?;
        var front := offers[..|offers| - 1];
        forall i | 0 <= i < |front|
          ensures front[i] != offers[|offers| - 1]
        {
          assert front[i] == offers[i];
        }
      }
    }

    /** `collect`, for an account whose queued run may have been claimed beforehand. */
    method Collect(account: AccountId, target: int, desired: Option<nat>, claimed: Option<RunId>, newId: RunId)
      returns (result: CollectResult)
      requires persistence.Valid()
      requires claimed.Some? ==> FreshRun(persistence.runs, claimed.value) && persistence.runs[claimed.value].account == account
      modifies persistence, storage, feed
      ensures persistence.Valid()
      ensures result.Rejected? <==> !Acceptable(limits, target, desired)
      ensures !result.Summary? ==>
                && persistence.Now() == old(persistence.Now()) && storage.objects == old(storage.objects)
                && feed.advances == old(feed.advances) && feed.closed == old(feed.closed)
      ensures result.Summary? ==>
                && result.run in persistence.runs && persistence.runs[result.run].account == account
                && RunMovedLegally(old(persistence.runs), persistence.runs, result.run)
                && (claimed.Some? ==> result.run == claimed.value)
                && OthersKept(old(persistence.runs), persistence.runs, result.run)
                && old(feed.advances) <= feed.advances
                && Outcomes(persistence.Now(), storage.Now(), result.run, target, desired, result,
                            feed.advances - old(feed.advances))
                && storage.issued <= storage.cleaned
                && feed.closed
      ensures calm && result.NotStarted? ==>
                && claimed.None?
                && (newId in old(persistence.runs)
                    || exists q :: q in old(persistence.runs) && old(persistence.runs)[q].account == account
                                   && old(persistence.runs)[q].status in {RunQueued, RunRunning})
      ensures calm && result.Summary? && Sourced(old(persistence.db))
              && (claimed.Some? ==> old(persistence.runs)[claimed.value].target >= target
                                    && !old(persistence.runs)[claimed.value].cancelRequested) ==>
                Justified(persistence.Now(), result.run, target, desired, result, feed.advances - old(feed.advances), feed.offers)
    {
      hide BooksOk;
      hide AllAccounted;
      hide AccountDurable;
      hide OwnsExactly;
      hide RunBytes;
      if !Acceptable(limits, target, desired) {
        return Rejected;
      }
      hide Acceptable;
      hide Outcomes;
      var created := claimed;
      if claimed.None? {
        var raises: bool := *;
        created := persistence.CreateRun(account, target, newId, raises && !calm);
        if created.None? {
          return NotStarted;
        }
      }
      var r := created.value;
      ghost var begun := persistence.runs;
      assert OthersKept(old(persistence.runs), begun, r);
      hide OthersKept;
      hide Justified;
      result := CollectRun(r, target, desired);
      assert r in old(persistence.runs) ==> begun == old(persistence.runs);
      hide RunMovedLegally;
      OthersKeptTrans(old(persistence.runs), begun, persistence.runs, r);
      AccountKept(begun, persistence.runs, r);
      feed.Close();
    }

    /** The outer try block on a running run with empty books. */
    method CollectRun(r: RunId, target: nat, desired: Option<nat>) returns (result: CollectResult)
      requires Acceptable(limits, target, desired) && persistence.Valid() && FreshRun(persistence.runs, r)
      modifies persistence, storage, feed`advances, feed`offers
      ensures persistence.Valid() && r in persistence.runs && result.Summary? && result.run == r
      ensures OthersKept(old(persistence.runs), persistence.runs, r)
      ensures RunMovedLegally(old(persistence.runs), persistence.runs, r)
      ensures old(feed.advances) <= feed.advances
      ensures Outcomes(persistence.Now(), storage.Now(), r, target, desired, result, feed.advances - old(feed.advances))
      ensures storage.issued <= storage.cleaned
      ensures old(Fair(r, target)) ==>
                Justified(persistence.Now(), r, target, desired, result, feed.advances - old(feed.advances), feed.offers)
    {
      hide *;
      ghost var begun, start, fair := persistence.runs, feed.advances, Fair(r, target);
      if fair {
        FairIsCalm(r, target);
      }
      NewLedger();
      var end, t := RunLoop(r, target, desired);
      ghost var left := persistence.runs;
      result := Close(r, target, desired, t, end, begun, feed.advances - start, feed.offers, fair);
      OthersKeptTrans(begun, left, persistence.runs, r);
    }

    /** This run's ledger starts empty. */
    ghost method NewLedger()
      modifies storage, feed`offers
      ensures storage.created == {} && storage.issued == {} && storage.cleaned == {} && feed.offers == []
      ensures storage.objects == old(storage.objects)
    {
      storage.created, storage.undeleted, storage.issued, storage.cleaned := {}, {}, {}, {};
      feed.offers := [];
    }

    /** The handlers of the outer try: the closing write and the summary. */
    method Close(r: RunId, target: nat, desired: Option<nat>, t: Tally, end: LoopEnd, ghost begun: map<RunId, Run>,
                 ghost scrolls: nat, ghost offers: seq<Option<Candidate>>, ghost fair: bool)
      returns (result: CollectResult)
      requires persistence.Valid() && FreshRun(begun, r) && r in persistence.runs
      requires Left(persistence.Now(), r, target, desired, t, end) && WithinScrolls(scrolls)
      requires AllAccounted(storage.Now(), persistence.Now(), r)
      requires fair ==> calm && Stopped(end, persistence.Now(), r, target, desired, t, scrolls, offers)
      modifies persistence`runs
      ensures persistence.Valid() && r in persistence.runs && result.Summary? && result.run == r
      ensures OthersKept(old(persistence.runs), persistence.runs, r)
      ensures RunMovedLegally(begun, persistence.runs, r)
      ensures Outcomes(persistence.Now(), storage.Now(), r, target, desired, result, scrolls)
      ensures fair ==> Justified(persistence.Now(), r, target, desired, result, scrolls, offers)
    {
      hide *;
      ghost var before := persistence.Now();
      persistence.Rows();
      LeftStatus(before, r, target, desired, t, end);
      CloseRun(r, end);
      ghost var now := persistence.Now();
      persistence.Rows();
      AccountedIgnoresRuns(storage.Now(), before, now, r);
      result := Summarize(r, target, Closing(end).0, Closing(end).1, t);
      ClosedOutcomes(before, now, storage.Now(), r, target, desired, t, scrolls, end, result);
      ClosedLegally(begun, before, now, r, target, desired, t, end);
      if fair {
        StoppedIsJustified(before, now, r, target, desired, t, scrolls, offers, end, result);
      }
    }
  }

  lemma AcquiredIsSettled(b: Books, b': Books, r: RunId, reel: Shortcode, written: Option<ItemOutcome>)
    requires Wrote(b, b', r, reel, written) && written.Some? && Acquisition(written.value)
    ensures Settled(b', r, reel)
  {
    var item := Item(r, reel, Total(b.runs[r]) + 1, written.value);
    assert item in b'.items;
  }

  lemma AccountedStays(shelf: Shelf, b: Books, b': Books, r: RunId, reel: Shortcode, written: Option<ItemOutcome>)
    requires AllAccounted(shelf, b, r) && Wrote(b, b', r, reel, written)
    ensures AllAccounted(shelf, b', r)
  {
    forall key | key in shelf.created
      ensures Accounted(shelf, b', r, key)
    {
      if key.SourceKey? {
        WroteKeepsSettled(b, b', r, reel, written, key.shortcode);
      }
    }
  }
}
