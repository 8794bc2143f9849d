/**
 The offline library over whole histories from an empty one: downloads that
 fail anywhere with other tasks acting before each of their calls, and between
 downloads any calls of any lifecycle runs and reconciliations, which may stop
 anywhere and finish much later.
 */
module OfflineHistory {
  import opened Options
  import opened OfflineLibrary
  import opened OfflineReconcile
  import opened OfflineThreads
  import opened OfflineDownload

  datatype Event =
    | Downloaded(id: VideoId, video: Video, script: Script)
    | Tasked(id: VideoId, task: Task)
    | LifecycleRun(now: Time, active: Option<VideoId>)  // a whole run in which nothing fails and nobody else acts

  const EMPTY_PAGE := Page(Lib(map[], map[]), map[])

  function Step(p: Page, e: Event): Page {
    match e
    case Downloaded(id, video, script) => Download(p, id, video, script).0
    case Tasked(id, task) => Act(p, id, task)
    case LifecycleRun(now, active) => p.(lib := Ran(p.lib, now, active))
  }

  function History(events: seq<Event>, n: nat): Page
    requires n <= |events|
  {
    if n == 0 then EMPTY_PAGE else Step(History(events, n - 1), events[n - 1])
  }

  lemma PageLib(p: Page)
    requires PageOk(p)
    ensures LibOk(p.lib) && DeletionsSettled(p.lib)
  {
    forall id | id in p.lib.records
      ensures RecordOk(id, p.lib.records[id])
      ensures p.lib.records[id].deletionState.DeletionDone? && p.lib.records[id].status.Completed? ==> id !in p.lib.cache
    {
      assert IdOk(p, id);
    }
  }

  lemma RunKeeps(p: Page, now: Time, active: Option<VideoId>)
    requires PageOk(p)
    ensures PageOk(p.(lib := Ran(p.lib, now, active))) && TombstonesKept(p.lib, Ran(p.lib, now, active))
  {
    PageLib(p);
    RunAgrees(p.lib, now, active);
    var p' := p.(lib := Ran(p.lib, now, active));
    forall id
      ensures IdOk(p', id)
    {
      assert IdOk(p, id);
      RunKeepsViews(p.lib, now, active, id);
    }
  }

  /** The run deletes only viewed reels and takes no view back. */
  lemma RunKeepsViews(lib: Lib, now: Time, active: Option<VideoId>, id: VideoId)
    ensures Viewed(lib, id) ==> Viewed(Ran(lib, now, active), id)
    ensures id in Ran(lib, now, active).records && Ran(lib, now, active).records[id].deletionState.DeletionDone? ==>
              id in lib.records && (lib.records[id].deletionState.DeletionDone? || Viewed(Ran(lib, now, active), id))
  {
  }

  lemma StepKeeps(p: Page, e: Event)
    requires PageOk(p)
    ensures PageOk(Step(p, e)) && TombstonesKept(p.lib, Step(p, e).lib)
  {
    hide PageOk;
    hide TombstonesKept;
    hide Download;
    hide Act;
    hide Ran;
    if e.Downloaded? {
      DownloadKeeps(p, e.id, e.video, e.script);
    } else if e.Tasked? {
      TaskKeeps(p, e.id, e.task);
    } else {
      RunKeeps(p, e.now, e.active);
    }
  }

  /** In every history every record is acceptable, and no deleted reel has media beside a completed record. */
  lemma {:induction false} HistoryKeeps(events: seq<Event>, n: nat)
    requires n <= |events|
    ensures PageOk(History(events, n))
    ensures LibOk(History(events, n).lib) && DeletionsSettled(History(events, n).lib)
  {
    hide Step;
    if n > 0 {
      HistoryKeeps(events, n - 1);
      StepKeeps(History(events, n - 1), events[n - 1]);
    }
    PageLib(History(events, n));
    hide PageOk;
    hide LibOk;
    hide DeletionsSettled;
  }

  lemma TombstonesTrans(lib: Lib, mid: Lib, lib': Lib)
    requires TombstonesKept(lib, mid) && TombstonesKept(mid, lib')
    ensures TombstonesKept(lib, lib')
  {
  }

  /** A view is never taken back and its deadline never moves. */
  lemma {:induction false} ViewsAreKept(events: seq<Event>, n: nat, m: nat)
    requires n <= m <= |events|
    ensures TombstonesKept(History(events, n).lib, History(events, m).lib)
  {
    hide Step;
    hide PageOk;
    if n < m {
      ViewsAreKept(events, n, m - 1);
      HistoryKeeps(events, m - 1);
      StepKeeps(History(events, m - 1), events[m - 1]);
      hide TombstonesKept;
      TombstonesTrans(History(events, n).lib, History(events, m - 1).lib, History(events, m).lib);
    }
  }

  /** Viewed, with no media and no record that claims any. */
  predicate Gone(lib: Lib, id: VideoId) {
    Viewed(lib, id) && !IsCompleted(lib, id) && id !in lib.cache
  }

  lemma StepLeavesGone(p: Page, e: Event, id: VideoId)
    requires PageOk(p) && Gone(p.lib, id)
    ensures Gone(Step(p, e).lib, id)
  {
    assert IdOk(p, id);
    if e.Downloaded? {
      if e.id == id {
        TombstoneRefuses(p, id, e.video, e.script);
      } else {
        OthersUntouched(p, e.id, e.video, e.script);
        assert SameEntry(p.lib, Download(p, e.id, e.video, e.script).0.lib, id);
      }
      hide Download;
    } else if e.Tasked? {
      if e.id == id {
        ActKeeps(p, id, e.task);
      } else {
        ActElsewhere(p, e.id, e.task);
        assert SameEntry(p.lib, Act(p, e.id, e.task).lib, id);
      }
      hide Act;
    }
    hide RecordOk;
  }

  /**
   A reel that was viewed and has lost its media never comes back, whatever is
   downloaded, reconciled or expired later, and wherever any of it stops.
   */
  lemma {:induction false} NeverBack(events: seq<Event>, n: nat, m: nat, id: VideoId)
    requires n <= m <= |events| && Gone(History(events, n).lib, id)
    ensures Gone(History(events, m).lib, id)
  {
    hide Step;
    hide Gone;
    hide PageOk;
    if n < m {
      NeverBack(events, n, m - 1, id);
      HistoryKeeps(events, m - 1);
      StepLeavesGone(History(events, m - 1), events[m - 1], id);
    }
  }

  /**
   After any history, one undisturbed run makes metadata and media agree with
   nothing overdue, costs no valid video that is not overdue, and a second run
   changes nothing.
   */
  lemma RunRepairsAnyHistory(events: seq<Event>, now: Time, active: Option<VideoId>, id: VideoId)
    ensures var lib := History(events, |events|).lib;
            var lib' := Ran(lib, now, active);
            && Agrees(lib')
            && (ViewExpired(lib', id, now) && active != Some(id) ==>
                  lib'.records[id].deletionState.DeletionDone? && id !in lib'.cache)
            && (ValidCompleted(lib, id) ==>
                  (ValidCompleted(lib', id) <==> !(ViewExpired(lib, id, now) && active != Some(id))))
            && Ran(lib', now, active) == lib'
  {
    var lib := History(events, |events|).lib;
    HistoryKeeps(events, |events|);
    hide PageOk;
    hide LibOk;
    hide DeletionsSettled;
    hide History;
    RunAgrees(lib, now, active);
    RunIsIdempotent(lib, now, active);
    if ValidCompleted(lib, id) {
      RunLosesNothingElse(lib, now, active, id);
    }
    hide Ran;
  }

  /** An event that leaves a video alone until the given time. */
  predicate Spares(p: Page, e: Event, id: VideoId, before: Time) {
    match e
    case Downloaded(other, _, _) => other != id || Viewed(p.lib, id)
    case Tasked(other, task) => other != id || Undue(task, id, before)
    case LifecycleRun(now, active) => now < before || active == Some(id)
  }

  lemma StepKeepsEarly(p: Page, e: Event, id: VideoId, before: Time)
    requires PageOk(p) && Kept(p, id, before) && Spares(p, e, id, before)
    ensures Kept(Step(p, e), id, before) && SameButViewed(p.lib, Step(p, e).lib, id)
  {
    StepKeeps(p, e);
    assert IdOk(Step(p, e), id);
    if e.Downloaded? {
      if e.id == id {
        TombstoneRefuses(p, id, e.video, e.script);
      } else {
        OthersUntouched(p, e.id, e.video, e.script);
        ElsewhereKeeps(p, Download(p, e.id, e.video, e.script).0, e.id, id, before);
      }
      hide Download;
    } else if e.Tasked? {
      if e.id == id {
        ActKeepsEarly(p, id, e.task, before);
      } else {
        ActElsewhere(p, e.id, e.task);
        ElsewhereKeeps(p, Act(p, e.id, e.task), e.id, id, before);
      }
      hide Act;
    } else {
      PageLib(p);
      RunLosesNothingElse(p.lib, e.now, e.active, id);
      hide Ran;
    }
    hide RecordOk;
  }

  lemma ElsewhereKeeps(p: Page, p': Page, other: VideoId, id: VideoId, before: Time)
    requires Elsewhere(p, p', other) && other != id && Kept(p, id, before) && IdOk(p', id)
    ensures Kept(p', id, before) && SameButViewed(p.lib, p'.lib, id)
  {
    assert SameEntry(p.lib, p'.lib, id) && SameThreads(p, p', id);
    hide IdOk;
  }

  /**
   Over a history a completed valid video keeps its record, but for a view, and
   its media until its deadline, through anything but failing calls on itself.
   */
  lemma {:induction false} KeptUntilDeadline(events: seq<Event>, n: nat, m: nat, id: VideoId, before: Time)
    requires n <= m <= |events| && Kept(History(events, n), id, before)
    requires forall k :: n <= k < m ==> Spares(History(events, k), events[k], id, before)
    ensures Kept(History(events, m), id, before)
    ensures SameButViewed(History(events, n).lib, History(events, m).lib, id)
  {
    hide Step;
    hide PageOk;
    if n < m {
      KeptUntilDeadline(events, n, m - 1, id, before);
      HistoryKeeps(events, m - 1);
      StepKeepsEarly(History(events, m - 1), events[m - 1], id, before);
    }
  }

  lemma RunMakesGone(lib: Lib, now: Time, active: Option<VideoId>, id: VideoId)
    requires LibOk(lib) && DeletionsSettled(lib) && ViewExpired(lib, id, now) && active != Some(id)
    ensures Gone(Ran(lib, now, active), id)
  {
    RunAgrees(lib, now, active);
    hide Ran;
    hide LibOk;
    assert ViewExpired(Ran(lib, now, active), id, now);
  }

  /** A viewed reel is gone for good once an undisturbed run has passed its deadline without it playing. */
  lemma ViewedReelDisappears(events: seq<Event>, n: nat, k: nat, m: nat, id: VideoId)
    requires n <= k < m <= |events| && events[k].LifecycleRun? && events[k].active != Some(id)
    requires ViewExpired(History(events, n).lib, id, events[k].now)
    ensures Gone(History(events, m).lib, id)
  {
    hide LibOk;
    hide PageOk;
    hide DeletionsSettled;
    hide Ran;
    hide Gone;
    ViewsAreKept(events, n, k);
    HistoryKeeps(events, k);
    RunMakesGone(History(events, k).lib, events[k].now, events[k].active, id);
    assert History(events, k + 1).lib == Ran(History(events, k).lib, events[k].now, events[k].active);
    NeverBack(events, k + 1, m, id);
  }
}
