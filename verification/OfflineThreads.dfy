/**
 The page's other tasks, call by call: views, and any number of overlapping
 lifecycle runs and reconciliations, each of which is at some storage call of
 its own for each video. A call may raise, with or without having taken effect.
 */
module OfflineThreads {
  import opened Options
  import opened OfflineLibrary
  import opened OfflineReconcile

  type AgentId = nat  // one call of `run` or of `reconcileOfflineLibrary`

  /** What a run does next for one video: the expiry of `run`, then the two loops of `reconcileOfflineLibrary`. */
  datatype Thread =
    | WillMarkDeleting
    | WillRemove
    | WillSettle
    | WillNote
    | WillList
    | WillDrop
    | WillFail
    | WillValidate(listed: Record)
    | WillListCache(keep: bool)
    | WillDropOrphan

  datatype Page = Page(lib: Lib, threads: map<(AgentId, VideoId), Thread>)

  datatype Task =
    | View(at: Time)
    | StartRun(agent: AgentId, now: Time, active: Option<VideoId>)
    | StartReconcile(agent: AgentId)
    | Advance(agent: AgentId, raises: bool, effect: bool)

  function Go(p: Page, agent: AgentId, id: VideoId, thread: Thread): Page {
    p.(threads := p.threads[(agent, id) := thread])
  }

  function Stop(p: Page, agent: AgentId, id: VideoId): Page {
    p.(threads := p.threads - {(agent, id)})
  }

  function Marked(lib: Lib, id: VideoId, state: DeletionState): Lib {
    if id in lib.records then Updated(lib, id, lib.records[id].(deletionState := state)) else lib
  }

  function Settled(lib: Lib, id: VideoId): Lib {
    if id in lib.records then Updated(lib, id, DeletedRecord(lib.records[id])) else lib
  }

  function WithFailure(lib: Lib, id: VideoId): Lib {
    if id in lib.records then Updated(lib, id, FailedRecord(lib.records[id])) else lib
  }

  /** What the pending call does to the library when it takes effect. */
  function Effect(lib: Lib, id: VideoId, thread: Thread): Lib {
    match thread
    case WillMarkDeleting => Marked(lib, id, Deleting)
    case WillRemove => Uncached(lib, id)
    case WillSettle => Settled(lib, id)
    case WillNote => Marked(lib, id, DeletionFailed)
    case WillDrop => Uncached(lib, id)
    case WillFail => WithFailure(lib, id)
    case WillDropOrphan => Uncached(lib, id)
    case _ => lib
  }

  /** Where the run goes from its pending call, given what that call saw; None is its end. */
  function Next(lib: Lib, id: VideoId, thread: Thread, raises: bool): Option<Thread> {
    match thread
    case WillMarkDeleting => if raises then None else Some(WillRemove)
    case WillRemove => Some(if raises then WillNote else WillSettle)
    case WillSettle => Some(if raises then WillNote else WillList)
    case WillNote => if raises then None else Some(WillList)
    case WillList => if raises then None else Some(Listed(lib, id))
    case WillDrop => Some(WillFail)
    case WillFail => Some(WillListCache(false))
    case WillValidate(listed) => Some(if raises then WillListCache(false) else Validated(lib, id, listed))
    case WillListCache(keep) => if raises || keep || id !in lib.cache then None else Some(WillDropOrphan)
    case WillDropOrphan => None
  }

  function Listed(lib: Lib, id: VideoId): Thread {
    if id !in lib.records then WillListCache(false)
    else if lib.records[id].status.Downloading? then WillDrop
    else if lib.records[id].status.Completed? then WillValidate(lib.records[id])
    else WillListCache(false)
  }

  /** A copy that is not there needs no delete; one of the wrong key, type or size does. */
  function Validated(lib: Lib, id: VideoId, listed: Record): Thread {
    if Valid(lib, id, listed.cacheKey, listed.contentType, listed.byteSize) then WillListCache(true)
    else if listed.cacheKey == Some(id) && listed.contentType.Mp4? && id !in lib.cache then WillFail
    else WillDrop
  }

  function Act(p: Page, id: VideoId, t: Task): Page {
    match t
    case View(at) => p.(lib := MarkViewed(p.lib, id, at))
    case StartRun(agent, now, active) =>
      if (agent, id) in p.threads then p
      else Go(p, agent, id, if Due(p.lib, id, now, active) then WillMarkDeleting else WillList)
    case StartReconcile(agent) => if (agent, id) in p.threads then p else Go(p, agent, id, WillList)
    case Advance(agent, raises, effect) =>
      if (agent, id) !in p.threads then p
      else
        var thread := p.threads[(agent, id)];
        var lib := if !raises || effect then Effect(p.lib, id, thread) else p.lib;
        var next := Next(p.lib, id, thread, raises);
        if next.None? then Stop(p.(lib := lib), agent, id) else Go(p.(lib := lib), agent, id, next.value)
  }

  function Acts(p: Page, id: VideoId, tasks: seq<Task>): Page
    decreases |tasks|
  {
    if tasks == [] then p else Acts(Act(p, id, tasks[0]), id, tasks[1..])
  }

  lemma {:induction false} ActsConcat(p: Page, id: VideoId, first: seq<Task>, second: seq<Task>)
    ensures Acts(p, id, first + second) == Acts(Acts(p, id, first), id, second)
    decreases |first|
  {
    hide Act;
    if first == [] {
      assert first + second == second;
    } else {
      assert (first + second)[1..] == first[1..] + second;
      ActsConcat(Act(p, id, first[0]), id, first[1..], second);
    }
  }

  /******* What holds between any two calls *******/

  /** An expiry that has begun. */
  predicate Expiring(thread: Thread) {
    thread.WillMarkDeleting? || thread.WillRemove? || thread.WillSettle? || thread.WillNote?
  }

  predicate Viewed(lib: Lib, id: VideoId) {
    id in lib.records && lib.records[id].viewedAt.Some?
  }

  ghost predicate IdOk(p: Page, id: VideoId) {
    && (id in p.lib.records ==>
          var r := p.lib.records[id];
          && RecordOk(id, r)
          && (r.deletionState.DeletionDone? ==> r.viewedAt.Some?)
          && (r.deletionState.DeletionDone? && r.status.Completed? ==> id !in p.lib.cache))
    && (forall agent :: (agent, id) in p.threads && Expiring(p.threads[(agent, id)]) ==> Viewed(p.lib, id))
  }

  ghost predicate PageOk(p: Page) {
    forall id :: IdOk(p, id)
  }

  /** What no task undoes: views stay, nothing becomes completed, and media only goes. */
  ghost predicate Later(p: Page, p': Page, id: VideoId) {
    && (id in p.lib.records <==> id in p'.lib.records)
    && (id in p.lib.records ==>
          var r, r' := p.lib.records[id], p'.lib.records[id];
          && (r.viewedAt.Some? ==> r'.viewedAt == r.viewedAt && r'.deleteAfter == r.deleteAfter)
          && (r'.status.Completed? ==> r.status.Completed?)
          && r'.byteSize == r.byteSize && r'.contentType == r.contentType
          && (r'.cacheKey == r.cacheKey || r'.cacheKey.None?))
    && (id in p'.lib.cache ==> id in p.lib.cache && p'.lib.cache[id] == p.lib.cache[id])
  }

  lemma LaterTrans(p: Page, mid: Page, p': Page, id: VideoId)
    requires Later(p, mid, id) && Later(mid, p', id)
    ensures Later(p, p', id)
  {
  }

  lemma EffectKeeps(p: Page, id: VideoId, thread: Thread)
    requires IdOk(p, id) && (Expiring(thread) ==> Viewed(p.lib, id))
    ensures var p' := p.(lib := Effect(p.lib, id, thread)); IdOk(p', id) && Later(p, p', id)
  {
  }

  lemma ActKeeps(p: Page, id: VideoId, t: Task)
    requires IdOk(p, id)
    ensures IdOk(Act(p, id, t), id) && Later(p, Act(p, id, t), id)
  {
    hide RecordOk;
    if t.Advance? && (t.agent, id) in p.threads {
      var thread := p.threads[(t.agent, id)];
      EffectKeeps(p, id, thread);
      hide Effect;
      NextExpires(p.lib, id, thread, t.raises);
      hide Next;
    } else if t.View? {
      ViewKeeps(p, id, t.at);
      hide MarkViewed;
    }
  }

  lemma ViewKeeps(p: Page, id: VideoId, at: Time)
    requires IdOk(p, id)
    ensures var p' := p.(lib := MarkViewed(p.lib, id, at));
            && IdOk(p', id) && Later(p, p', id)
            && (id in p.lib.records ==> Viewed(p'.lib, id))
  {
  }

  lemma NextExpires(lib: Lib, id: VideoId, thread: Thread, raises: bool)
    ensures var next := Next(lib, id, thread, raises); next.Some? && Expiring(next.value) ==> Expiring(thread)
  {
  }

  lemma {:induction false} ActsKeep(p: Page, id: VideoId, tasks: seq<Task>)
    requires IdOk(p, id)
    ensures IdOk(Acts(p, id, tasks), id) && Later(p, Acts(p, id, tasks), id)
    decreases |tasks|
  {
    hide IdOk;
    hide Act;
    if tasks != [] {
      ActKeeps(p, id, tasks[0]);
      ActsKeep(Act(p, id, tasks[0]), id, tasks[1..]);
      LaterTrans(p, Act(p, id, tasks[0]), Acts(p, id, tasks), id);
    }
  }

  /** A task on one video leaves record, media and pending calls of every other video alone. */
  ghost predicate Elsewhere(p: Page, p': Page, id: VideoId) {
    forall other :: other != id ==> SameEntry(p.lib, p'.lib, other) && SameThreads(p, p', other)
  }

  ghost predicate SameThreads(p: Page, p': Page, id: VideoId) {
    forall agent ::
      && ((agent, id) in p.threads <==> (agent, id) in p'.threads)
      && ((agent, id) in p.threads ==> p'.threads[(agent, id)] == p.threads[(agent, id)])
  }

  lemma ActElsewhere(p: Page, id: VideoId, t: Task)
    ensures Elsewhere(p, Act(p, id, t), id)
  {
    hide RecordOk;
    hide Next;
  }

  lemma ElsewhereTrans(p: Page, mid: Page, p': Page, id: VideoId)
    requires Elsewhere(p, mid, id) && Elsewhere(mid, p', id)
    ensures Elsewhere(p, p', id)
  {
    forall other | other != id
      ensures SameEntry(p.lib, p'.lib, other) && SameThreads(p, p', other)
    {
      assert SameEntry(p.lib, mid.lib, other) && SameEntry(mid.lib, p'.lib, other);
      assert SameThreads(p, mid, other) && SameThreads(mid, p', other);
    }
  }

  lemma {:induction false} ActsElsewhere(p: Page, id: VideoId, tasks: seq<Task>)
    ensures Elsewhere(p, Acts(p, id, tasks), id)
    decreases |tasks|
  {
    hide Act;
    if tasks != [] {
      ActElsewhere(p, id, tasks[0]);
      ActsElsewhere(Act(p, id, tasks[0]), id, tasks[1..]);
      hide Elsewhere;
      ElsewhereTrans(p, Act(p, id, tasks[0]), Acts(p, id, tasks), id);
    }
  }

  /** So a page stays acceptable when one video's facts do. */
  lemma PageFromId(p: Page, p': Page, id: VideoId)
    requires PageOk(p) && IdOk(p', id) && Elsewhere(p, p', id)
    requires Viewed(p.lib, id) ==>
               && Viewed(p'.lib, id)
               && p'.lib.records[id].viewedAt == p.lib.records[id].viewedAt
               && p'.lib.records[id].deleteAfter == p.lib.records[id].deleteAfter
    ensures PageOk(p') && TombstonesKept(p.lib, p'.lib)
  {
    forall other
      ensures IdOk(p', other)
    {
      if other != id {
        assert IdOk(p, other) && SameEntry(p.lib, p'.lib, other) && SameThreads(p, p', other);
      }
    }
    forall other | Viewed(p.lib, other)
      ensures && Viewed(p'.lib, other)
              && p'.lib.records[other].viewedAt == p.lib.records[other].viewedAt
              && p'.lib.records[other].deleteAfter == p.lib.records[other].deleteAfter
    {
      assert other != id ==> SameEntry(p.lib, p'.lib, other);
    }
  }

  /** Every task, in any state, keeps the page acceptable and takes no view back. */
  lemma TaskKeeps(p: Page, id: VideoId, t: Task)
    requires PageOk(p)
    ensures PageOk(Act(p, id, t)) && TombstonesKept(p.lib, Act(p, id, t).lib)
  {
    assert IdOk(p, id);
    hide IdOk;
    hide Act;
    ActKeeps(p, id, t);
    ActElsewhere(p, id, t);
    PageFromId(p, Act(p, id, t), id);
  }

  /**
   An expiry whose delete raises notes it and goes on to the reconciliation: the
   view, its deadline and everything else of the record stay, so the next run
   after the deadline tries again.
   */
  lemma RefusedDeleteIsNoted(p: Page, id: VideoId, agent: AgentId, effect: bool)
    requires IdOk(p, id) && (agent, id) in p.threads && p.threads[(agent, id)].WillMarkDeleting?
    ensures var p' := Acts(p, id, [Advance(agent, false, true), Advance(agent, true, effect), Advance(agent, false, true)]);
            && p' == Page(Lib(p.lib.records[id := p.lib.records[id].(deletionState := DeletionFailed)],
                              if effect then p.lib.cache - {id} else p.lib.cache),
                          p.threads[(agent, id) := WillList])
            && forall now, active :: active != Some(id) && p.lib.records[id].deleteAfter.value <= now ==>
                 Due(p'.lib, id, now, active)
  {
    var tasks := [Advance(agent, false, true), Advance(agent, true, effect), Advance(agent, false, true)];
    assert tasks[1..][1..][1..] == [];
    assert tasks[1..][0] == tasks[1] && tasks[1..][1..][0] == tasks[2];
    var marked := Act(p, id, tasks[0]);
    assert marked == Page(Lib(p.lib.records[id := p.lib.records[id].(deletionState := Deleting)], p.lib.cache),
                          p.threads[(agent, id) := WillRemove]);
    var refused := Act(marked, id, tasks[1]);
    assert refused.threads == p.threads[(agent, id) := WillNote];
    var noted := Act(refused, id, tasks[2]);
    assert noted.lib.records == p.lib.records[id := p.lib.records[id].(deletionState := DeletionFailed)];
    assert noted.threads == p.threads[(agent, id) := WillList];
    assert noted.lib.cache == if effect then p.lib.cache - {id} else p.lib.cache;
    hide Act;
    assert Acts(refused, id, tasks[1..][1..]) == Acts(noted, id, []) == noted;
    assert Acts(marked, id, tasks[1..]) == noted;
  }

  /** So does one whose completing write raises, with or without effect. */
  lemma RefusedSettleIsNoted(p: Page, id: VideoId, agent: AgentId, effect: bool)
    requires IdOk(p, id) && (agent, id) in p.threads && p.threads[(agent, id)].WillSettle?
    ensures var p' := Acts(p, id, [Advance(agent, true, effect), Advance(agent, false, true)]);
            && p' == Page(Lib(p.lib.records[id := (if effect then DeletedRecord(p.lib.records[id]) else p.lib.records[id])
                                                  .(deletionState := DeletionFailed)],
                              p.lib.cache),
                          p.threads[(agent, id) := WillList])
            && forall now, active :: active != Some(id) && p.lib.records[id].deleteAfter.value <= now ==>
                 Due(p'.lib, id, now, active)
  {
    var tasks := [Advance(agent, true, effect), Advance(agent, false, true)];
    assert tasks[1..][1..] == [] && tasks[1..][0] == tasks[1];
    var refused := Act(p, id, tasks[0]);
    assert refused.threads == p.threads[(agent, id) := WillNote];
    var noted := Act(refused, id, tasks[1]);
    assert noted.lib.records == p.lib.records[id := (if effect then DeletedRecord(p.lib.records[id]) else p.lib.records[id])
                                                    .(deletionState := DeletionFailed)];
    assert noted.threads == p.threads[(agent, id) := WillList];
    assert noted.lib.cache == p.lib.cache;
    hide Act;
    assert Acts(refused, id, tasks[1..]) == Acts(noted, id, []) == noted;
  }

  /******* When media goes, when a record stops being completed, when a view arrives *******/

  /** A delete of the video's media that takes effect. */
  predicate Removes(p: Page, id: VideoId, t: Task) {
    && t.Advance? && (!t.raises || t.effect) && (t.agent, id) in p.threads
    && var thread := p.threads[(t.agent, id)]; thread.WillRemove? || thread.WillDrop? || thread.WillDropOrphan?
  }

  predicate MediaRemoved(p: Page, id: VideoId, tasks: seq<Task>)
    decreases |tasks|
  {
    tasks != [] && (Removes(p, id, tasks[0]) || MediaRemoved(Act(p, id, tasks[0]), id, tasks[1..]))
  }

  lemma ActCaches(p: Page, id: VideoId, t: Task)
    ensures var p' := Act(p, id, t);
            && (id in p'.lib.cache <==> id in p.lib.cache && !Removes(p, id, t))
            && (id in p'.lib.cache ==> p'.lib.cache[id] == p.lib.cache[id])
  {
    hide RecordOk;
    hide Next;
  }

  /** The media is there afterwards exactly when it was before and no delete took effect. */
  lemma {:induction false} CachedExactly(p: Page, id: VideoId, tasks: seq<Task>)
    ensures var p' := Acts(p, id, tasks);
            && (id in p'.lib.cache <==> id in p.lib.cache && !MediaRemoved(p, id, tasks))
            && (id in p'.lib.cache ==> p'.lib.cache[id] == p.lib.cache[id])
    decreases |tasks|
  {
    hide Act;
    hide Removes;
    if tasks != [] {
      ActCaches(p, id, tasks[0]);
      CachedExactly(Act(p, id, tasks[0]), id, tasks[1..]);
    }
  }

  /** A write that takes the record out of `completed`. */
  predicate Uncompletes(p: Page, id: VideoId, t: Task) {
    && t.Advance? && (!t.raises || t.effect) && (t.agent, id) in p.threads
    && var thread := p.threads[(t.agent, id)]; thread.WillSettle? || thread.WillFail?
  }

  predicate StatusLost(p: Page, id: VideoId, tasks: seq<Task>)
    decreases |tasks|
  {
    tasks != [] && (Uncompletes(p, id, tasks[0]) || StatusLost(Act(p, id, tasks[0]), id, tasks[1..]))
  }

  predicate IsCompleted(lib: Lib, id: VideoId) {
    id in lib.records && lib.records[id].status.Completed?
  }

  lemma ActCompletes(p: Page, id: VideoId, t: Task)
    requires IdOk(p, id)
    ensures IsCompleted(Act(p, id, t).lib, id) <==> IsCompleted(p.lib, id) && !Uncompletes(p, id, t)
  {
    hide Next;
  }

  lemma {:induction false} CompletedExactly(p: Page, id: VideoId, tasks: seq<Task>)
    requires IdOk(p, id)
    ensures IsCompleted(Acts(p, id, tasks).lib, id) <==> IsCompleted(p.lib, id) && !StatusLost(p, id, tasks)
    decreases |tasks|
  {
    hide Act;
    hide IdOk;
    hide Uncompletes;
    if tasks != [] {
      ActCompletes(p, id, tasks[0]);
      ActKeeps(p, id, tasks[0]);
      CompletedExactly(Act(p, id, tasks[0]), id, tasks[1..]);
    }
  }

  predicate HasView(tasks: seq<Task>) {
    exists t :: t in tasks && t.View?
  }

  lemma ActViews(p: Page, id: VideoId, t: Task)
    requires IdOk(p, id) && id in p.lib.records
    ensures var p' := Act(p, id, t);
            id in p'.lib.records && (p'.lib.records[id].viewedAt.Some? <==> p.lib.records[id].viewedAt.Some? || t.View?)
  {
    hide Next;
  }

  /** A record is viewed afterwards exactly when it was before or a view was among them. */
  lemma {:induction false} ViewedExactly(p: Page, id: VideoId, tasks: seq<Task>)
    requires IdOk(p, id) && id in p.lib.records
    ensures var p' := Acts(p, id, tasks);
            && id in p'.lib.records
            && (p'.lib.records[id].viewedAt.Some? <==> p.lib.records[id].viewedAt.Some? || HasView(tasks))
            && (Tombstoned(p'.lib.records[id]) <==> p'.lib.records[id].viewedAt.Some?)
    decreases |tasks|
  {
    hide Act;
    if tasks != [] {
      ActViews(p, id, tasks[0]);
      ActKeeps(p, id, tasks[0]);
      ViewedExactly(Act(p, id, tasks[0]), id, tasks[1..]);
      assert HasView(tasks) <==> tasks[0].View? || HasView(tasks[1..]);
    }
  }

  /** Deleted, or about to be recorded as deleted, by an expiry whose delete came first. */
  ghost predicate DeletedSince(p: Page, id: VideoId) {
    || (id in p.lib.records && p.lib.records[id].deletionState.DeletionDone?)
    || exists agent :: (agent, id) in p.threads && p.threads[(agent, id)].WillSettle?
  }

  lemma ActDeletes(p: Page, id: VideoId, t: Task)
    requires DeletedSince(p, id) ==> id !in p.lib.cache
    ensures DeletedSince(Act(p, id, t), id) ==> id !in Act(p, id, t).lib.cache
  {
    hide RecordOk;
    ActCaches(p, id, t);
    var p' := Act(p, id, t);
    if DeletedSince(p', id) && !DeletedSince(p, id) {
      assert t.Advance? && (t.agent, id) in p.threads;
      var thread := p.threads[(t.agent, id)];
      assert thread != WillSettle;
      assert forall agent :: agent != t.agent && (agent, id) in p'.threads ==>
                (agent, id) in p.threads && p.threads[(agent, id)] == p'.threads[(agent, id)];
    }
  }

  lemma {:induction false} ActsDelete(p: Page, id: VideoId, tasks: seq<Task>)
    requires DeletedSince(p, id) ==> id !in p.lib.cache
    ensures DeletedSince(Acts(p, id, tasks), id) ==> id !in Acts(p, id, tasks).lib.cache
    decreases |tasks|
  {
    hide Act;
    hide DeletedSince;
    if tasks != [] {
      ActDeletes(p, id, tasks[0]);
      ActsDelete(Act(p, id, tasks[0]), id, tasks[1..]);
    }
  }

  /******* Until the deadline *******/

  /** A run begins to expire a cached valid video exactly when it was viewed, its deadline has come and it is not playing. */
  lemma StartsExpiryExactly(p: Page, id: VideoId, agent: AgentId, now: Time, active: Option<VideoId>)
    requires IdOk(p, id) && ValidCompleted(p.lib, id) && (agent, id) !in p.threads
    ensures var r, p' := p.lib.records[id], Act(p, id, StartRun(agent, now, active));
            && p'.lib == p.lib && (agent, id) in p'.threads
            && p'.threads[(agent, id)] ==
               if r.viewedAt.Some? && r.deleteAfter.Some? && r.deleteAfter.value <= now && active != Some(id)
               then WillMarkDeleting else WillList
  {
  }

  /** Runs that will find the video valid: none has listed it as anything else, or is expiring it. */
  ghost predicate Harmless(p: Page, id: VideoId) {
    forall agent :: (agent, id) in p.threads ==> HarmlessAt(p.lib, id, p.threads[(agent, id)])
  }

  predicate HarmlessAt(lib: Lib, id: VideoId, thread: Thread) {
    || thread == WillList
    || thread == WillListCache(true)
    || (thread.WillValidate? && Valid(lib, id, thread.listed.cacheKey, thread.listed.contentType, thread.listed.byteSize))
  }

  /** Its deadline, set or set by the next view, is not before the given time. */
  predicate NotDueBefore(lib: Lib, id: VideoId, before: Time) {
    id in lib.records && lib.records[id].viewedAt.Some? ==>
      lib.records[id].deleteAfter.Some? && lib.records[id].deleteAfter.value >= before
  }

  /** A view less than an hour before that time, a run before it or with the video playing, or a call that returns. */
  predicate Undue(t: Task, id: VideoId, before: Time) {
    match t
    case View(at) => at + 3600 >= before
    case StartRun(_, now, active) => now < before || active == Some(id)
    case StartReconcile(_) => true
    case Advance(_, raises, _) => !raises
  }

  /** The video is completed and valid, undue before that time, and no run will take it for anything else. */
  ghost predicate Kept(p: Page, id: VideoId, before: Time) {
    IdOk(p, id) && ValidCompleted(p.lib, id) && NotDueBefore(p.lib, id, before) && Harmless(p, id)
  }

  /** Media and record but for the marks of a view. */
  ghost predicate SameButViewed(lib: Lib, lib': Lib, id: VideoId)
    requires id in lib.records
  {
    && id in lib'.records
    && lib'.records[id] == lib.records[id].(viewedAt := lib'.records[id].viewedAt,
                                            deleteAfter := lib'.records[id].deleteAfter,
                                            deletionState := lib'.records[id].deletionState)
    && (id in lib.cache <==> id in lib'.cache)
    && (id in lib.cache ==> lib'.cache[id] == lib.cache[id])
  }

  lemma ActKeepsEarly(p: Page, id: VideoId, t: Task, before: Time)
    requires Kept(p, id, before) && Undue(t, id, before)
    ensures Kept(Act(p, id, t), id, before) && SameButViewed(p.lib, Act(p, id, t).lib, id)
  {
    hide RecordOk;
    ActKeeps(p, id, t);
    hide IdOk;
    var p' := Act(p, id, t);
    if t.View? {
      ViewKeepsEarly(p, id, t.at, before);
    } else if t.Advance? {
      AdvanceKeepsEarly(p, id, t, before);
    } else if t.StartRun? {
      StartKeepsEarly(p, id, t, before);
    }
  }

  lemma ViewKeepsEarly(p: Page, id: VideoId, at: Time, before: Time)
    requires Kept(p, id, before) && at + 3600 >= before
    ensures var p' := Act(p, id, View(at));
            && ValidCompleted(p'.lib, id) && NotDueBefore(p'.lib, id, before) && Harmless(p', id)
            && SameButViewed(p.lib, p'.lib, id)
  {
    ViewSetsDeadline(p.lib, id, at);
    hide MarkViewed;
  }

  lemma AdvanceKeepsEarly(p: Page, id: VideoId, t: Task, before: Time)
    requires Kept(p, id, before) && t.Advance? && !t.raises
    ensures var p' := Act(p, id, t);
            && ValidCompleted(p'.lib, id) && NotDueBefore(p'.lib, id, before) && Harmless(p', id)
            && p'.lib == p.lib
  {
    if (t.agent, id) in p.threads {
      var thread := p.threads[(t.agent, id)];
      assert HarmlessAt(p.lib, id, thread);
    }
  }

  lemma StartKeepsEarly(p: Page, id: VideoId, t: Task, before: Time)
    requires Kept(p, id, before) && t.StartRun? && Undue(t, id, before)
    ensures var p' := Act(p, id, t); p'.lib == p.lib && Harmless(p', id)
  {
    if (t.agent, id) !in p.threads {
      StartsExpiryExactly(p, id, t.agent, t.now, t.active);
    }
  }

  /**
   Until its deadline a completed valid video keeps record and media through
   any views, lifecycle runs and reconciliations whose calls return, however
   they overlap; it only gains its view.
   */
  lemma {:induction false} ActsKeepEarly(p: Page, id: VideoId, tasks: seq<Task>, before: Time)
    requires Kept(p, id, before) && forall t :: t in tasks ==> Undue(t, id, before)
    ensures Kept(Acts(p, id, tasks), id, before) && SameButViewed(p.lib, Acts(p, id, tasks).lib, id)
    decreases |tasks|
  {
    hide Act;
    hide Undue;
    if tasks != [] {
      assert tasks[0] in tasks && forall t :: t in tasks[1..] ==> t in tasks;
      ActKeepsEarly(p, id, tasks[0], before);
      ActsKeepEarly(Act(p, id, tasks[0]), id, tasks[1..], before);
    }
  }

  /******* Tasks on different videos *******/

  ghost predicate SameAt(p: Page, q: Page, id: VideoId) {
    SameEntry(p.lib, q.lib, id) && SameThreads(p, q, id)
  }

  lemma ActSees(p: Page, q: Page, id: VideoId, t: Task)
    requires SameAt(p, q, id)
    ensures SameAt(Act(p, id, t), Act(q, id, t), id)
  {
    hide RecordOk;
    if t.Advance? {
      if (t.agent, id) in p.threads {
        EffectSees(p.lib, q.lib, id, p.threads[(t.agent, id)]);
        hide Effect;
        assert Next(p.lib, id, p.threads[(t.agent, id)], t.raises) == Next(q.lib, id, p.threads[(t.agent, id)], t.raises);
        hide Next;
      }
    } else {
      hide Effect;
      hide Next;
    }
  }

  lemma EffectSees(lib: Lib, lib': Lib, id: VideoId, thread: Thread)
    requires SameEntry(lib, lib', id)
    ensures SameEntry(Effect(lib, id, thread), Effect(lib', id, thread), id)
  {
    hide RecordOk;
  }

  lemma SameEverywhere(p: Page, q: Page)
    requires forall id :: SameAt(p, q, id)
    ensures p == q
  {
    forall id: VideoId
      ensures id in p.lib.records <==> id in q.lib.records
      ensures id in p.lib.records ==> p.lib.records[id] == q.lib.records[id]
      ensures id in p.lib.cache <==> id in q.lib.cache
      ensures id in p.lib.cache ==> p.lib.cache[id] == q.lib.cache[id]
    {
      assert SameAt(p, q, id);
    }
    assert p.lib.records == q.lib.records && p.lib.cache == q.lib.cache;
    forall agent: AgentId, id: VideoId
      ensures (agent, id) in p.threads <==> (agent, id) in q.threads
      ensures (agent, id) in p.threads ==> p.threads[(agent, id)] == q.threads[(agent, id)]
    {
      assert SameAt(p, q, id);
    }
    SameMaps(p.threads, q.threads);
  }

  lemma SameMaps(m: map<(AgentId, VideoId), Thread>, n: map<(AgentId, VideoId), Thread>)
    requires forall a: AgentId, id: VideoId :: (a, id) in m <==> (a, id) in n
    requires forall a: AgentId, id: VideoId :: (a, id) in m ==> m[(a, id)] == n[(a, id)]
    ensures m == n
  {
    forall key: (AgentId, VideoId)
      ensures key in m <==> key in n
      ensures key in m ==> m[key] == n[key]
    {
      assert key == (key.0, key.1);
    }
  }

  /** Tasks on different videos commute: a schedule may be read one video at a time. */
  lemma TasksCommute(p: Page, a: VideoId, t: Task, b: VideoId, u: Task)
    requires a != b
    ensures Act(Act(p, a, t), b, u) == Act(Act(p, b, u), a, t)
  {
    hide Act;
    var x, y := Act(p, a, t), Act(p, b, u);
    ActElsewhere(p, a, t);
    ActElsewhere(p, b, u);
    ActElsewhere(x, b, u);
    ActElsewhere(y, a, t);
    ActSees(p, y, a, t);
    ActSees(p, x, b, u);
    forall id: VideoId
      ensures SameAt(Act(x, b, u), Act(y, a, t), id)
    {
      if id == a {
        assert SameEntry(x.lib, Act(x, b, u).lib, a) && SameThreads(x, Act(x, b, u), a);
      } else if id == b {
        assert SameEntry(y.lib, Act(y, a, t).lib, b) && SameThreads(y, Act(y, a, t), b);
      } else {
        assert SameEntry(p.lib, x.lib, id) && SameThreads(p, x, id);
        assert SameEntry(p.lib, y.lib, id) && SameThreads(p, y, id);
        assert SameEntry(x.lib, Act(x, b, u).lib, id) && SameThreads(x, Act(x, b, u), id);
        assert SameEntry(y.lib, Act(y, a, t).lib, id) && SameThreads(y, Act(y, a, t), id);
      }
    }
    SameEverywhere(Act(x, b, u), Act(y, a, t));
  }

  /******* Undisturbed runs *******/

  function Advances(agent: AgentId, n: nat): seq<Task> {
    if n == 0 then [] else [Advance(agent, false, true)] + Advances(agent, n - 1)
  }

  /** The run is over; what it leaves for the video. */
  ghost predicate Ends(p: Page, id: VideoId, agent: AgentId, n: nat, record: Option<Record>, media: Option<Media>) {
    var p' := Acts(p, id, Advances(agent, n));
    && (agent, id) !in p'.threads
    && (if record.None? then id !in p'.lib.records else id in p'.lib.records && p'.lib.records[id] == record.value)
    && (if media.None? then id !in p'.lib.cache else id in p'.lib.cache && p'.lib.cache[id] == media.value)
  }

  function RecordAt(lib: Lib, id: VideoId): Option<Record> {
    if id in lib.records then Some(lib.records[id]) else None
  }

  function MediaAt(lib: Lib, id: VideoId): Option<Media> {
    if id in lib.cache then Some(lib.cache[id]) else None
  }

  lemma OneMore(p: Page, id: VideoId, agent: AgentId, n: nat)
    ensures Acts(p, id, Advances(agent, n + 1)) == Acts(Act(p, id, Advance(agent, false, true)), id, Advances(agent, n))
  {
    var tasks := Advances(agent, n + 1);
    assert tasks[0] == Advance(agent, false, true) && tasks[1..] == Advances(agent, n);
    hide Act;
  }

  lemma {:induction false} Over(p: Page, id: VideoId, agent: AgentId, n: nat)
    requires (agent, id) !in p.threads
    ensures Ends(p, id, agent, n, RecordAt(p.lib, id), MediaAt(p.lib, id))
  {
    if n > 0 {
      OneMore(p, id, agent, n - 1);
      Over(p, id, agent, n - 1);
    }
  }

  lemma FromListCache(p: Page, id: VideoId, agent: AgentId, n: nat)
    requires (agent, id) in p.threads && p.threads[(agent, id)].WillListCache? && n >= 2
    ensures Ends(p, id, agent, n, RecordAt(p.lib, id), if p.threads[(agent, id)].keep then MediaAt(p.lib, id) else None)
  {
    var next := Act(p, id, Advance(agent, false, true));
    OneMore(p, id, agent, n - 1);
    OneMore(next, id, agent, n - 2);
    var last := Act(next, id, Advance(agent, false, true));
    if (agent, id) in next.threads {
      Over(last, id, agent, n - 2);
    } else {
      Over(next, id, agent, n - 1);
    }
    hide Acts;
  }

  lemma FromFail(p: Page, id: VideoId, agent: AgentId, n: nat)
    requires (agent, id) in p.threads && p.threads[(agent, id)].WillFail? && n >= 3
    requires id in p.lib.records && RecordOk(id, p.lib.records[id])
    ensures Ends(p, id, agent, n, Some(FailedRecord(p.lib.records[id])), None)
  {
    OneMore(p, id, agent, n - 1);
    FromListCache(Act(p, id, Advance(agent, false, true)), id, agent, n - 1);
    hide Acts;
  }

  lemma FromDrop(p: Page, id: VideoId, agent: AgentId, n: nat)
    requires (agent, id) in p.threads && p.threads[(agent, id)].WillDrop? && n >= 4
    requires id in p.lib.records && RecordOk(id, p.lib.records[id])
    ensures Ends(p, id, agent, n, Some(FailedRecord(p.lib.records[id])), None)
  {
    OneMore(p, id, agent, n - 1);
    FromFail(Act(p, id, Advance(agent, false, true)), id, agent, n - 1);
    hide Acts;
  }

  lemma FromValidate(p: Page, id: VideoId, agent: AgentId, n: nat)
    requires id in p.lib.records && RecordOk(id, p.lib.records[id])
    requires (agent, id) in p.threads && p.threads[(agent, id)] == WillValidate(p.lib.records[id]) && n >= 5
    ensures var r := p.lib.records[id];
            var valid := Valid(p.lib, id, r.cacheKey, r.contentType, r.byteSize);
            Ends(p, id, agent, n, Some(if valid then r else FailedRecord(r)), if valid then MediaAt(p.lib, id) else None)
  {
    OneMore(p, id, agent, n - 1);
    var next := Act(p, id, Advance(agent, false, true));
    var thread := next.threads[(agent, id)];
    if thread.WillListCache? {
      FromListCache(next, id, agent, n - 1);
    } else if thread.WillFail? {
      FromFail(next, id, agent, n - 1);
    } else {
      FromDrop(next, id, agent, n - 1);
    }
    hide Acts;
  }

  lemma FromList(p: Page, id: VideoId, agent: AgentId, n: nat)
    requires id in p.lib.records ==> RecordOk(id, p.lib.records[id])
    requires (agent, id) in p.threads && p.threads[(agent, id)].WillList? && n >= 6
    ensures var done := Reconciled(p.lib, {}); Ends(p, id, agent, n, RecordAt(done, id), MediaAt(done, id))
  {
    OneMore(p, id, agent, n - 1);
    var next := Act(p, id, Advance(agent, false, true));
    var thread := next.threads[(agent, id)];
    if thread.WillDrop? {
      FromDrop(next, id, agent, n - 1);
    } else if thread.WillValidate? {
      FromValidate(next, id, agent, n - 1);
    } else {
      FromListCache(next, id, agent, n - 1);
    }
    hide Acts;
    hide RecordOk;
  }

  lemma FromMark(p: Page, id: VideoId, agent: AgentId)
    requires (agent, id) in p.threads && p.threads[(agent, id)].WillMarkDeleting?
    requires id in p.lib.records && RecordOk(id, p.lib.records[id])
    ensures Ends(p, id, agent, 9, Some(DeletedRecord(p.lib.records[id])), None)
  {
    var marked := Act(p, id, Advance(agent, false, true));
    var removed := Act(marked, id, Advance(agent, false, true));
    var settled := Act(removed, id, Advance(agent, false, true));
    OneMore(p, id, agent, 8);
    OneMore(marked, id, agent, 7);
    OneMore(removed, id, agent, 6);
    FromList(settled, id, agent, 6);
    hide Acts;
  }

  /**
   A lifecycle run whose calls for a video all succeed with no other task in
   between does to that video what the loops of `run` and
   `reconcileOfflineLibrary` compute.
   */
  lemma RunAlone(p: Page, id: VideoId, agent: AgentId, now: Time, active: Option<VideoId>)
    requires IdOk(p, id) && (agent, id) !in p.threads
    ensures var p' := Acts(p, id, [StartRun(agent, now, active)] + Advances(agent, 9));
            SameEntry(p'.lib, Ran(p.lib, now, active), id) && (agent, id) !in p'.threads
  {
    var tasks := [StartRun(agent, now, active)] + Advances(agent, 9);
    var begun := Act(p, id, tasks[0]);
    assert tasks[1..] == Advances(agent, 9);
    if Due(p.lib, id, now, active) {
      FromMark(begun, id, agent);
    } else {
      FromList(begun, id, agent, 9);
    }
    hide Acts;
    hide RecordOk;
    hide Advances;
    RanAt(p.lib, id, now, active);
  }

  lemma RanAt(lib: Lib, id: VideoId, now: Time, active: Option<VideoId>)
    ensures var ran := Ran(lib, now, active);
            if Due(lib, id, now, active) then
              RecordAt(ran, id) == Some(DeletedRecord(lib.records[id])) && MediaAt(ran, id).None?
            else
              && RecordAt(ran, id) == RecordAt(Reconciled(lib, {}), id)
              && MediaAt(ran, id) == MediaAt(Reconciled(lib, {}), id)
  {
  }

  /** A reconciliation alone: as the loops of `reconcileOfflineLibrary` compute it. */
  lemma ReconcileAlone(p: Page, id: VideoId, agent: AgentId)
    requires IdOk(p, id) && (agent, id) !in p.threads
    ensures var p' := Acts(p, id, [StartReconcile(agent)] + Advances(agent, 6));
            SameEntry(p'.lib, Reconciled(p.lib, {}), id) && (agent, id) !in p'.threads
  {
    var tasks := [StartReconcile(agent)] + Advances(agent, 6);
    assert tasks[1..] == Advances(agent, 6);
    FromList(Act(p, id, tasks[0]), id, agent, 6);
    hide Acts;
    hide RecordOk;
    hide Advances;
  }

  /** The same with the read of the media, its second call, raising if `unread`. */
  function ReconcileReading(agent: AgentId, unread: bool): seq<Task> {
    [StartReconcile(agent), Advance(agent, false, true), Advance(agent, unread, false)] + Advances(agent, 2)
  }

  /**
   A failed read is not the same as an invalid copy, but it has the same effect
   on the media: a valid completed video survives a reconciliation exactly when
   its copy could be read. Its record then stays completed with nothing cached.
   */
  lemma UnreadMediaIsLostExactly(p: Page, id: VideoId, agent: AgentId, unread: bool)
    requires ValidCompleted(p.lib, id) && (agent, id) !in p.threads
    ensures var p' := Acts(p, id, ReconcileReading(agent, unread));
            && (agent, id) !in p'.threads
            && (ValidCompleted(p'.lib, id) <==> !unread)
            && RecordAt(p'.lib, id) == RecordAt(p.lib, id) && (unread ==> id !in p'.lib.cache)
  {
    var tasks := ReconcileReading(agent, unread);
    var begun := Act(p, id, tasks[0]);
    var listed := Act(begun, id, tasks[1]);
    var read := Act(listed, id, tasks[2]);
    assert tasks[1..][1..] == tasks[2..] && tasks[1..][1..][1..] == tasks[3..] && tasks[3..] == Advances(agent, 2);
    assert Acts(p, id, tasks) == Acts(begun, id, tasks[1..]);
    assert Acts(begun, id, tasks[1..]) == Acts(listed, id, tasks[2..]);
    assert Acts(listed, id, tasks[2..]) == Acts(read, id, tasks[3..]);
    FromListCache(read, id, agent, 2);
    hide Acts;
    hide RecordOk;
  }
}
