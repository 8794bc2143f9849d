/**
 One download into the offline library, for the one video it is about. Every
 storage, network and stream call may raise and the signal may abort; before
 every storage call the page's other tasks may act on the same video: views,
 expiries and reconciliations, call by call.
 */
module OfflineDownload {
  import opened Options
  import opened OfflineLibrary
  import opened OfflineThreads

  datatype Video = Video(title: Title, contentType: ContentType, byteSize: nat)

  /** What one call of `deleteCachedVideo` does. */
  datatype Deletion = Deletes | RaisesKeeping | RaisesDeleting

  /** Fetch, checks on the response, and streaming into the cache. */
  datatype Transfer =
    | Aborted                                // nothing was put: network error, abort, bad status, type or length
    | PutFailed(leftover: Option<Media>)     // the put raised; what is under the key now is anyone's guess
    | Stored(media: Media, counted: nat)     // the put resolved after this many bytes

  /** The downloader's storage calls after its first read; other tasks act before each. */
  datatype Point =
    | BeforeCheck | BeforeEarlyDelete | BeforeCreate | BeforeQuotaMark | BeforeStart
    | BeforePut | BeforeValidate | BeforeFinalRead | BeforeLateDelete | BeforeCommit
    | BeforeCleanup | BeforeLastRead | BeforeFailMark

  /** How every call of one download turns out, and what other tasks do before it. */
  datatype Script = Script(
    others: map<Point, seq<Task>>,
    readRaises: bool,
    checkRaises: bool,
    earlyDelete: Deletion,
    createRaises: bool,
    roomy: bool,
    quotaMarkRaises: bool,
    startRaises: bool,
    transfer: Transfer,
    validateRaises: bool,
    finalReadRaises: bool,
    lateDelete: Deletion,
    commitRaises: bool,
    cleanup: Deletion,
    lastReadRaises: bool,
    failMarkRaises: bool,
    now: Time)

  datatype Outcome = Returned(record: Record) | Threw

  /******* Specification *******/

  predicate MetadataOk(video: Video) {
    !video.title.blank && video.contentType.Mp4? && video.byteSize > 0
  }

  function QueuedRecord(video: Video): Record {
    Record(video.title, Mp4, video.byteSize, Queued, 0, None, None, false, None, None, NoDeletion)
  }

  function StartedRecord(r: Record, video: Video): Record {
    r.(title := video.title, contentType := Mp4, byteSize := video.byteSize, status := Downloading,
       downloadedBytes := 0, downloadedAt := None, cacheKey := None, failed := false)
  }

  function CompletedRecord(r: Record, id: VideoId, bytes: nat, now: Time): Record {
    r.(status := Completed, downloadedBytes := bytes, downloadedAt := Some(now), cacheKey := Some(id), failed := false)
  }

  function TasksAt(s: Script, point: Point): seq<Task> {
    if point in s.others then s.others[point] else []
  }

  /** The page when the call at `point` is made. */
  function At(p: Page, id: VideoId, s: Script, point: Point): Page {
    Acts(p, id, TasksAt(s, point))
  }

  function Evicted(p: Page, id: VideoId, deletion: Deletion): Page {
    if deletion.RaisesKeeping? then p else p.(lib := Uncached(p.lib, id))
  }

  function Put(p: Page, id: VideoId, record: Record): Page {
    p.(lib := p.lib.(records := p.lib.records[id := record]))
  }

  function Cached(p: Page, id: VideoId, media: Media): Page {
    p.(lib := p.lib.(cache := p.lib.cache[id := media]))
  }

  function MarkedFailed(p: Page, id: VideoId): Page {
    p.(lib := WithFailure(p.lib, id))
  }

  /** Up to the storage estimate; `existing` is what the first read saw. */
  datatype Prepared = Stopped(page: Page, outcome: Outcome) | Ready(page: Page)

  function Prepare(p: Page, id: VideoId, video: Video, s: Script): Prepared {
    if !MetadataOk(video) || s.readRaises then Stopped(p, Threw)
    else if id !in p.lib.records then
      var create := At(p, id, s, BeforeCreate);
      if s.createRaises || !RecordOk(id, QueuedRecord(video)) then Stopped(create, Threw)
      else Ready(Put(create, id, QueuedRecord(video)))
    else
      var existing := p.lib.records[id];
      if Tombstoned(existing) then Stopped(p, Threw)
      else if !existing.status.Completed? then Ready(p)
      else
        var check := At(p, id, s, BeforeCheck);
        if s.checkRaises then Stopped(check, Threw)
        else if Valid(check.lib, id, existing.cacheKey, existing.contentType, existing.byteSize) then
          Stopped(check, Returned(existing))
        else Ready(Evicted(At(check, id, s, BeforeEarlyDelete), id, s.earlyDelete))
  }

  /** The part before the try block: it ends the call early, or the record is marked as downloading. */
  datatype Begun = Early(page: Page, outcome: Outcome) | Started(page: Page)

  function Begin(p: Page, id: VideoId, video: Video, s: Script): Begun {
    match Prepare(p, id, video, s)
    case Stopped(page, outcome) => Early(page, outcome)
    case Ready(ready) =>
      if !s.roomy then
        var mark := At(ready, id, s, BeforeQuotaMark);
        Early(if s.quotaMarkRaises then mark else MarkedFailed(mark, id), Threw)
      else
        var start := At(ready, id, s, BeforeStart);
        if s.startRaises then Early(start, Threw)
        else if id !in start.lib.records then Started(start)
        else
          var record := StartedRecord(start.lib.records[id], video);
          if RecordOk(id, record) then Started(Put(start, id, record)) else Early(start, Threw)
  }

  /** The page when the stored media is validated, and when the tombstone is read for the last time. */
  function Validation(p: Page, id: VideoId, s: Script): Page
    requires s.transfer.Stored?
  {
    At(Cached(At(p, id, s, BeforePut), id, s.transfer.media), id, s, BeforeValidate)
  }

  function FinalRead(p: Page, id: VideoId, s: Script): Page
    requires s.transfer.Stored?
  {
    At(Validation(p, id, s), id, s, BeforeFinalRead)
  }

  /** The try block: it commits the record, or leaves the library to the catch block. */
  datatype Attempt = Done(page: Page, record: Record) | Abandon(page: Page)

  function Try(p: Page, id: VideoId, video: Video, s: Script): Attempt {
    var put := At(p, id, s, BeforePut);
    match s.transfer
    case Aborted => Abandon(put)
    case PutFailed(leftover) =>
      Abandon(if leftover.None? then put.(lib := Uncached(put.lib, id)) else Cached(put, id, leftover.value))
    case Stored(media, counted) =>
      if !media.contentType.Mp4? then Abandon(put)
      else
        var validation := Validation(p, id, s);
        if counted == 0 || counted != video.byteSize || s.validateRaises
           || !Valid(validation.lib, id, Some(id), Mp4, video.byteSize)
        then Abandon(validation)
        else if s.finalReadRaises then Abandon(FinalRead(p, id, s))
        else Commit(FinalRead(p, id, s), id, counted, s)
  }

  /** From the final read on. */
  function Commit(p: Page, id: VideoId, counted: nat, s: Script): Attempt {
    if id in p.lib.records && Tombstoned(p.lib.records[id]) then
      Abandon(Evicted(At(p, id, s, BeforeLateDelete), id, s.lateDelete))
    else
      var commit := At(p, id, s, BeforeCommit);
      if s.commitRaises || id !in commit.lib.records
         || !RecordOk(id, CompletedRecord(commit.lib.records[id], id, counted, s.now))
      then Abandon(commit)
      else
        var record := CompletedRecord(commit.lib.records[id], id, counted, s.now);
        Done(Put(commit, id, record), record)
  }

  /** The catch block. */
  function Catch(p: Page, id: VideoId, s: Script): Page {
    var read := At(Evicted(At(p, id, s, BeforeCleanup), id, s.cleanup), id, s, BeforeLastRead);
    if s.lastReadRaises || id !in read.lib.records || Tombstoned(read.lib.records[id]) then read
    else
      var mark := At(read, id, s, BeforeFailMark);
      if s.failMarkRaises then mark else MarkedFailed(mark, id)
  }

  function Download(p: Page, id: VideoId, video: Video, s: Script): (Page, Outcome) {
    match Begin(p, id, video, s)
    case Early(early, outcome) => (early, outcome)
    case Started(started) =>
      match Try(started, id, video, s)
      case Done(done, record) => (done, Returned(record))
      case Abandon(abandoned) => (Catch(abandoned, id, s), Threw)
  }

  /******* Other videos *******/

  /** Writing the record or the media of one video. */
  ghost predicate Edits(p: Page, p': Page, id: VideoId) {
    p'.threads == p.threads && forall other :: other != id ==> SameEntry(p.lib, p'.lib, other)
  }

  lemma EditElsewhere(p: Page, mid: Page, p': Page, id: VideoId)
    requires Elsewhere(p, mid, id) && Edits(mid, p', id)
    ensures Elsewhere(p, p', id)
  {
    assert Elsewhere(mid, p', id);
    ElsewhereTrans(p, mid, p', id);
  }

  lemma AtElsewhere(p: Page, mid: Page, id: VideoId, s: Script, point: Point)
    requires Elsewhere(p, mid, id)
    ensures Elsewhere(p, At(mid, id, s, point), id)
  {
    ActsElsewhere(mid, id, TasksAt(s, point));
    ElsewhereTrans(p, mid, At(mid, id, s, point), id);
  }

  lemma PrepareElsewhere(p: Page, id: VideoId, video: Video, s: Script)
    ensures Elsewhere(p, Prepare(p, id, video, s).page, id)
  {
    assert Elsewhere(p, p, id);
    hide At;
    hide Elsewhere;
    hide RecordOk;
    AtElsewhere(p, p, id, s, BeforeCreate);
    EditElsewhere(p, At(p, id, s, BeforeCreate), Put(At(p, id, s, BeforeCreate), id, QueuedRecord(video)), id);
    AtElsewhere(p, p, id, s, BeforeCheck);
    var check := At(p, id, s, BeforeCheck);
    AtElsewhere(p, check, id, s, BeforeEarlyDelete);
    var early := At(check, id, s, BeforeEarlyDelete);
    EditElsewhere(p, early, Evicted(early, id, s.earlyDelete), id);
  }

  lemma BeginElsewhere(p: Page, id: VideoId, video: Video, s: Script)
    ensures Elsewhere(p, Begin(p, id, video, s).page, id)
  {
    PrepareElsewhere(p, id, video, s);
    hide At;
    hide Elsewhere;
    hide Prepare;
    hide RecordOk;
    var ready := Prepare(p, id, video, s).page;
    AtElsewhere(p, ready, id, s, BeforeQuotaMark);
    var mark := At(ready, id, s, BeforeQuotaMark);
    EditElsewhere(p, mark, MarkedFailed(mark, id), id);
    AtElsewhere(p, ready, id, s, BeforeStart);
    var start := At(ready, id, s, BeforeStart);
    if id in start.lib.records {
      EditElsewhere(p, start, Put(start, id, StartedRecord(start.lib.records[id], video)), id);
    }
  }

  lemma TryElsewhere(p: Page, id: VideoId, video: Video, s: Script)
    ensures Elsewhere(p, Try(p, id, video, s).page, id)
  {
    assert Elsewhere(p, p, id);
    AtElsewhere(p, p, id, s, BeforePut);
    var put := At(p, id, s, BeforePut);
    hide At;
    hide Elsewhere;
    match s.transfer {
      case Aborted =>
      case PutFailed(leftover) =>
        EditElsewhere(p, put, Try(p, id, video, s).page, id);
      case Stored(media, counted) =>
        EditElsewhere(p, put, Cached(put, id, media), id);
        AtElsewhere(p, Cached(put, id, media), id, s, BeforeValidate);
        AtElsewhere(p, Validation(p, id, s), id, s, BeforeFinalRead);
        var read := FinalRead(p, id, s);
        CommitElsewhere(p, read, id, counted, s);
        hide Validation;
        hide FinalRead;
        hide Commit;
    }
  }

  lemma CommitElsewhere(p: Page, read: Page, id: VideoId, counted: nat, s: Script)
    requires Elsewhere(p, read, id)
    ensures Elsewhere(p, Commit(read, id, counted, s).page, id)
  {
    hide At;
    hide Elsewhere;
    hide RecordOk;
    AtElsewhere(p, read, id, s, BeforeLateDelete);
    AtElsewhere(p, read, id, s, BeforeCommit);
    var late, commit := At(read, id, s, BeforeLateDelete), At(read, id, s, BeforeCommit);
    if id in read.lib.records && Tombstoned(read.lib.records[id]) {
      EditElsewhere(p, late, Commit(read, id, counted, s).page, id);
    } else {
      EditElsewhere(p, commit, Commit(read, id, counted, s).page, id);
    }
  }

  lemma CatchElsewhere(p: Page, mid: Page, id: VideoId, s: Script)
    requires Elsewhere(p, mid, id)
    ensures Elsewhere(p, Catch(mid, id, s), id)
  {
    hide At;
    hide Elsewhere;
    hide RecordOk;
    AtElsewhere(p, mid, id, s, BeforeCleanup);
    var cleanup := At(mid, id, s, BeforeCleanup);
    EditElsewhere(p, cleanup, Evicted(cleanup, id, s.cleanup), id);
    AtElsewhere(p, Evicted(cleanup, id, s.cleanup), id, s, BeforeLastRead);
    var read := At(Evicted(cleanup, id, s.cleanup), id, s, BeforeLastRead);
    AtElsewhere(p, read, id, s, BeforeFailMark);
    var mark := At(read, id, s, BeforeFailMark);
    EditElsewhere(p, mark, MarkedFailed(mark, id), id);
  }

  /** A download touches no other video's record, media or pending calls. */
  lemma OthersUntouched(p: Page, id: VideoId, video: Video, s: Script)
    ensures Elsewhere(p, Download(p, id, video, s).0, id)
  {
    hide Begin;
    hide Try;
    hide Catch;
    hide Elsewhere;
    BeginElsewhere(p, id, video, s);
    var begun := Begin(p, id, video, s);
    if begun.Started? {
      TryElsewhere(begun.page, id, video, s);
      var tried := Try(begun.page, id, video, s);
      ElsewhereTrans(p, begun.page, tried.page, id);
      CatchElsewhere(p, tried.page, id, s);
    }
  }

  /******* What every stage keeps *******/

  /** Views are kept, and the video's facts hold. */
  ghost predicate Keeps(p: Page, p': Page, id: VideoId) {
    && IdOk(p', id)
    && (Viewed(p.lib, id) ==>
          && Viewed(p'.lib, id)
          && p'.lib.records[id].viewedAt == p.lib.records[id].viewedAt
          && p'.lib.records[id].deleteAfter == p.lib.records[id].deleteAfter)
    && (id in p.lib.records ==> id in p'.lib.records)
  }

  lemma KeepsTrans(p: Page, mid: Page, p': Page, id: VideoId)
    requires Keeps(p, mid, id) && Keeps(mid, p', id)
    ensures Keeps(p, p', id)
  {
  }

  lemma AtKeeps(p: Page, id: VideoId, s: Script, point: Point)
    requires IdOk(p, id)
    ensures Keeps(p, At(p, id, s, point), id) && Later(p, At(p, id, s, point), id)
  {
    ActsKeep(p, id, TasksAt(s, point));
    hide IdOk;
  }

  lemma DeletedKeeps(p: Page, id: VideoId, deletion: Deletion)
    requires IdOk(p, id)
    ensures Keeps(p, Evicted(p, id, deletion), id) && Later(p, Evicted(p, id, deletion), id)
  {
  }

  /** Writing a record that is acceptable and not completed, and that keeps view and deletion. */
  lemma PutKeeps(p: Page, id: VideoId, record: Record)
    requires IdOk(p, id) && RecordOk(id, record) && !record.status.Completed?
    requires if id in p.lib.records then
               var r := p.lib.records[id];
               record.viewedAt == r.viewedAt && record.deleteAfter == r.deleteAfter && record.deletionState == r.deletionState
             else record.deletionState.NoDeletion?
    ensures Keeps(p, Put(p, id, record), id)
  {
  }

  lemma MarkKeeps(p: Page, id: VideoId)
    requires IdOk(p, id)
    ensures Keeps(p, MarkedFailed(p, id), id) && Later(p, MarkedFailed(p, id), id)
    ensures !IsCompleted(MarkedFailed(p, id).lib, id)
  {
  }

  lemma PrepareKeeps(p: Page, id: VideoId, video: Video, s: Script)
    requires IdOk(p, id)
    ensures Keeps(p, Prepare(p, id, video, s).page, id)
    ensures Prepare(p, id, video, s).Ready? ==> id in Prepare(p, id, video, s).page.lib.records
  {
    hide At;
    hide IdOk;
    AtKeeps(p, id, s, BeforeCreate);
    AtKeeps(p, id, s, BeforeCheck);
    var create, check := At(p, id, s, BeforeCreate), At(p, id, s, BeforeCheck);
    AtKeeps(check, id, s, BeforeEarlyDelete);
    DeletedKeeps(At(check, id, s, BeforeEarlyDelete), id, s.earlyDelete);
    if id !in p.lib.records && RecordOk(id, QueuedRecord(video)) {
      PutKeeps(create, id, QueuedRecord(video));
    }
    hide RecordOk;
  }

  lemma BeginKeeps(p: Page, id: VideoId, video: Video, s: Script)
    requires IdOk(p, id)
    ensures Keeps(p, Begin(p, id, video, s).page, id)
    ensures Begin(p, id, video, s).Started? ==> Downloads(Begin(p, id, video, s).page, id, video)
  {
    hide At;
    hide IdOk;
    hide Keeps;
    PrepareKeeps(p, id, video, s);
    var prepared := Prepare(p, id, video, s);
    assert IdOk(prepared.page, id) by { KeepsIdOk(p, prepared.page, id); }
    hide Prepare;
    AtKeeps(prepared.page, id, s, BeforeQuotaMark);
    AtKeeps(prepared.page, id, s, BeforeStart);
    var mark, start := At(prepared.page, id, s, BeforeQuotaMark), At(prepared.page, id, s, BeforeStart);
    KeepsIdOk(prepared.page, mark, id);
    KeepsIdOk(prepared.page, start, id);
    KeepsTrans(p, prepared.page, mark, id);
    KeepsTrans(p, prepared.page, start, id);
    MarkKeeps(mark, id);
    KeepsTrans(p, mark, MarkedFailed(mark, id), id);
    if id in start.lib.records && RecordOk(id, StartedRecord(start.lib.records[id], video)) {
      PutKeeps(start, id, StartedRecord(start.lib.records[id], video));
      KeepsTrans(p, start, Put(start, id, StartedRecord(start.lib.records[id], video)), id);
    }
    hide RecordOk;
  }

  lemma KeepsIdOk(p: Page, p': Page, id: VideoId)
    requires Keeps(p, p', id)
    ensures IdOk(p', id)
  {
  }

  /** The record says `downloading`, whatever views it has met. */
  predicate Downloads(p: Page, id: VideoId, video: Video) {
    && id in p.lib.records && p.lib.records[id].status.Downloading?
    && var r := p.lib.records[id];
       && r.title == video.title && r.contentType.Mp4? && r.byteSize == video.byteSize
       && r.downloadedBytes == 0 && r.downloadedAt.None? && r.cacheKey.None? && !r.failed
  }

  /** A record under download or marked failed meanwhile: nobody completes it but the downloader. */
  ghost predicate Underway(p: Page, id: VideoId, video: Video) {
    && IdOk(p, id) && id in p.lib.records && !p.lib.records[id].status.Completed?
    && p.lib.records[id].byteSize == video.byteSize
  }

  lemma AtUnderway(p: Page, id: VideoId, video: Video, s: Script, point: Point)
    requires Underway(p, id, video)
    ensures var p' := At(p, id, s, point); Underway(p', id, video) && Keeps(p, p', id)
    ensures var p' := At(p, id, s, point); id in p'.lib.cache ==> id in p.lib.cache && p'.lib.cache[id] == p.lib.cache[id]
  {
    AtKeeps(p, id, s, point);
    hide At;
    hide RecordOk;
  }

  lemma CachedUnderway(p: Page, id: VideoId, video: Video, media: Option<Media>)
    requires Underway(p, id, video)
    ensures var p' := if media.None? then p.(lib := Uncached(p.lib, id)) else Cached(p, id, media.value);
            Underway(p', id, video) && Keeps(p, p', id)
  {
    hide RecordOk;
  }

  lemma DeletedUnderway(p: Page, id: VideoId, video: Video, deletion: Deletion)
    requires Underway(p, id, video)
    ensures var p' := Evicted(p, id, deletion);
            && Underway(p', id, video) && Keeps(p, p', id)
            && (!deletion.RaisesKeeping? ==> id !in p'.lib.cache)
  {
    hide RecordOk;
  }

  lemma ValidationUnderway(p: Page, id: VideoId, video: Video, s: Script)
    requires Underway(p, id, video) && s.transfer.Stored?
    ensures var v, r := Validation(p, id, s), FinalRead(p, id, s);
            && Underway(v, id, video) && Keeps(p, v, id)
            && Underway(r, id, video) && Keeps(p, r, id) && Keeps(v, r, id)
  {
    hide At;
    hide Underway;
    hide Keeps;
    AtUnderway(p, id, video, s, BeforePut);
    var put := At(p, id, s, BeforePut);
    CachedUnderway(put, id, video, Some(s.transfer.media));
    var cached := Cached(put, id, s.transfer.media);
    AtUnderway(cached, id, video, s, BeforeValidate);
    var v := Validation(p, id, s);
    AtUnderway(v, id, video, s, BeforeFinalRead);
    KeepsTrans(p, put, cached, id);
    KeepsTrans(p, cached, v, id);
    KeepsTrans(p, v, FinalRead(p, id, s), id);
  }

  /** A commit completes a record without a tombstone at the final read; if it was deleted since, its media is gone. */
  lemma CommitKeeps(p: Page, id: VideoId, video: Video, counted: nat, s: Script)
    requires Underway(p, id, video)
    ensures var tried := Commit(p, id, counted, s);
            && Keeps(p, tried.page, id)
            && (tried.Abandon? ==> Underway(tried.page, id, video))
            && (tried.Done? ==> !Tombstoned(p.lib.records[id]))
  {
    hide At;
    AtUnderway(p, id, video, s, BeforeLateDelete);
    AtUnderway(p, id, video, s, BeforeCommit);
    var late, commit := At(p, id, s, BeforeLateDelete), At(p, id, s, BeforeCommit);
    DeletedUnderway(late, id, video, s.lateDelete);
    hide Keeps;
    KeepsTrans(p, late, Evicted(late, id, s.lateDelete), id);
    if !Tombstoned(p.lib.records[id]) && RecordOk(id, CompletedRecord(commit.lib.records[id], id, counted, s.now)) {
      CommitAfterDeletion(p, id, video, s);
      CompletedKeeps(commit, id, CompletedRecord(commit.lib.records[id], id, counted, s.now));
      KeepsTrans(p, commit, Put(commit, id, CompletedRecord(commit.lib.records[id], id, counted, s.now)), id);
    }
    hide RecordOk;
    hide IdOk;
  }

  lemma CommitAfterDeletion(p: Page, id: VideoId, video: Video, s: Script)
    requires Underway(p, id, video) && !Tombstoned(p.lib.records[id])
    ensures var commit := At(p, id, s, BeforeCommit);
            id in commit.lib.records && commit.lib.records[id].deletionState.DeletionDone? ==> id !in commit.lib.cache
  {
    assert !DeletedSince(p, id);
    ActsDelete(p, id, TasksAt(s, BeforeCommit));
    hide Acts;
  }

  lemma CompletedKeeps(p: Page, id: VideoId, record: Record)
    requires IdOk(p, id) && RecordOk(id, record) && id in p.lib.records
    requires p.lib.records[id].deletionState.DeletionDone? ==> id !in p.lib.cache
    requires var r := p.lib.records[id];
             record.viewedAt == r.viewedAt && record.deleteAfter == r.deleteAfter && record.deletionState == r.deletionState
    ensures Keeps(p, Put(p, id, record), id)
  {
  }

  lemma TryKeeps(p: Page, id: VideoId, video: Video, s: Script)
    requires Underway(p, id, video)
    ensures var tried := Try(p, id, video, s);
            && Keeps(p, tried.page, id)
            && (tried.Abandon? ==> Underway(tried.page, id, video))
  {
    hide At;
    hide Underway;
    hide Keeps;
    AtUnderway(p, id, video, s, BeforePut);
    var put := At(p, id, s, BeforePut);
    match s.transfer {
      case Aborted =>
      case PutFailed(leftover) =>
        CachedUnderway(put, id, video, leftover);
        KeepsTrans(p, put, Try(p, id, video, s).page, id);
      case Stored(media, counted) =>
        ValidationUnderway(p, id, video, s);
        var read := FinalRead(p, id, s);
        CommitKeeps(read, id, video, counted, s);
        hide Validation;
        hide FinalRead;
        hide Commit;
        KeepsTrans(p, read, Commit(read, id, counted, s).page, id);
    }
  }

  /** Nothing half-done: no cached bytes without a completed record, unless the cache refused the delete. */
  ghost predicate Withdrawn(lib: Lib, id: VideoId, cleanup: Deletion) {
    && (!cleanup.RaisesKeeping? ==> id !in lib.cache)
    && !IsCompleted(lib, id)
  }

  lemma CatchKeeps(p: Page, id: VideoId, video: Video, s: Script)
    requires Underway(p, id, video)
    ensures Keeps(p, Catch(p, id, s), id) && Withdrawn(Catch(p, id, s).lib, id, s.cleanup)
  {
    hide At;
    hide IdOk;
    hide RecordOk;
    AtUnderway(p, id, video, s, BeforeCleanup);
    var cleanup := At(p, id, s, BeforeCleanup);
    DeletedUnderway(cleanup, id, video, s.cleanup);
    var deleted := Evicted(cleanup, id, s.cleanup);
    AtUnderway(deleted, id, video, s, BeforeLastRead);
    var read := At(deleted, id, s, BeforeLastRead);
    AtUnderway(read, id, video, s, BeforeFailMark);
    var mark := At(read, id, s, BeforeFailMark);
    MarkKeeps(mark, id);
    hide MarkedFailed;
    KeepsTrans(p, cleanup, deleted, id);
    KeepsTrans(p, deleted, read, id);
    KeepsTrans(p, read, mark, id);
    KeepsTrans(p, mark, MarkedFailed(mark, id), id);
  }

  /******* What a download promises *******/

  lemma DownloadKeepsId(p: Page, id: VideoId, video: Video, s: Script)
    requires IdOk(p, id)
    ensures Keeps(p, Download(p, id, video, s).0, id)
    ensures Begin(p, id, video, s).Started? && Download(p, id, video, s).1.Threw? ==>
              Withdrawn(Download(p, id, video, s).0.lib, id, s.cleanup)
  {
    hide Begin;
    hide Try;
    hide Catch;
    hide Withdrawn;
    BeginKeeps(p, id, video, s);
    var begun := Begin(p, id, video, s);
    if begun.Started? {
      TryKeeps(begun.page, id, video, s);
      var tried := Try(begun.page, id, video, s);
      if tried.Abandon? {
        CatchKeeps(tried.page, id, video, s);
        hide Keeps;
        KeepsTrans(begun.page, tried.page, Catch(tried.page, id, s), id);
      }
      hide Keeps;
      KeepsTrans(p, begun.page, Download(p, id, video, s).0, id);
    }
  }

  /** Whatever fails and whatever other tasks do, the page stays acceptable and no view is taken back. */
  lemma DownloadKeeps(p: Page, id: VideoId, video: Video, s: Script)
    requires PageOk(p)
    ensures PageOk(Download(p, id, video, s).0) && TombstonesKept(p.lib, Download(p, id, video, s).0.lib)
  {
    assert IdOk(p, id);
    DownloadKeepsId(p, id, video, s);
    OthersUntouched(p, id, video, s);
    hide Download;
    hide IdOk;
    PageFromId(p, Download(p, id, video, s).0, id);
  }

  /** Once the download had started, a throw withdraws everything, whatever happened in between. */
  lemma ThrowWithdraws(p: Page, id: VideoId, video: Video, s: Script)
    requires IdOk(p, id) && Begin(p, id, video, s).Started? && Download(p, id, video, s).1.Threw?
    ensures Withdrawn(Download(p, id, video, s).0.lib, id, s.cleanup)
  {
    DownloadKeepsId(p, id, video, s);
  }

  /** A tombstoned record is never downloaded again: nothing changes. */
  lemma TombstoneRefuses(p: Page, id: VideoId, video: Video, s: Script)
    requires id in p.lib.records && Tombstoned(p.lib.records[id])
    ensures Download(p, id, video, s) == (p, Threw)
  {
  }

  /** A download starts exactly when its metadata and the record it would write are acceptable and no early call fails. */
  lemma StartsExactly(p: Page, id: VideoId, video: Video, s: Script)
    requires IdOk(p, id)
    ensures Begin(p, id, video, s).Started? <==>
              && MetadataOk(video) && video.title.length <= 255
              && !s.readRaises && s.roomy && !s.startRaises
              && (if id in p.lib.records then
                    && !Tombstoned(p.lib.records[id])
                    && (p.lib.records[id].status.Completed? ==>
                          !s.checkRaises && (!ValidCompleted(p.lib, id) || MediaRemoved(p, id, TasksAt(s, BeforeCheck))))
                  else !s.createRaises)
  {
    hide Acts;
    hide MediaRemoved;
    CachedExactly(p, id, TasksAt(s, BeforeCheck));
    PrepareKeeps(p, id, video, s);
    hide TasksAt;
    var prepared := Prepare(p, id, video, s);
    if prepared.Ready? {
      StartsOnceReady(prepared.page, id, video, s);
    }
    hide StartedRecord;
    hide At;
  }

  lemma StartsOnceReady(ready: Page, id: VideoId, video: Video, s: Script)
    requires IdOk(ready, id) && id in ready.lib.records && MetadataOk(video)
    ensures var start := At(ready, id, s, BeforeStart);
            && id in start.lib.records
            && (RecordOk(id, StartedRecord(start.lib.records[id], video)) <==> video.title.length <= 255)
  {
    AtKeeps(ready, id, s, BeforeStart);
    hide At;
  }

  /** A delete of the media takes effect between its validation and the completing write. */
  ghost predicate RemovedInWindow(p: Page, id: VideoId, s: Script)
    requires s.transfer.Stored?
  {
    MediaRemoved(Validation(p, id, s), id, TasksAt(s, BeforeFinalRead) + TasksAt(s, BeforeCommit))
  }

  lemma WindowPages(p: Page, id: VideoId, s: Script)
    requires s.transfer.Stored?
    ensures var v, commit := Validation(p, id, s), At(FinalRead(p, id, s), id, s, BeforeCommit);
            && (id in commit.lib.cache <==> id in v.lib.cache && !RemovedInWindow(p, id, s))
            && (id in commit.lib.cache ==> commit.lib.cache[id] == v.lib.cache[id])
  {
    var v := Validation(p, id, s);
    ActsConcat(v, id, TasksAt(s, BeforeFinalRead), TasksAt(s, BeforeCommit));
    CachedExactly(v, id, TasksAt(s, BeforeFinalRead) + TasksAt(s, BeforeCommit));
    hide Validation;
    hide Acts;
    hide MediaRemoved;
  }

  lemma TryDone(p: Page, id: VideoId, video: Video, s: Script)
    requires Underway(p, id, video) && Try(p, id, video, s).Done?
    ensures s.transfer.Stored? && s.transfer.counted == video.byteSize
    ensures var v, read := Validation(p, id, s), FinalRead(p, id, s);
            && Valid(v.lib, id, Some(id), Mp4, video.byteSize)
            && id in read.lib.records && !Tombstoned(read.lib.records[id])
            && var commit := At(read, id, s, BeforeCommit);
               && id in commit.lib.records
               && Try(p, id, video, s).record == CompletedRecord(commit.lib.records[id], id, video.byteSize, s.now)
               && Try(p, id, video, s).page == Put(commit, id, Try(p, id, video, s).record)
  {
    ValidationUnderway(p, id, video, s);
    hide Validation;
    hide FinalRead;
    hide At;
    hide RecordOk;
    hide Keeps;
    hide CompletedRecord;
  }

  /**
   A download that ran to its end leaves the record it returns completed, and
   that record's bytes are cached under its own key if and only if no expiry or
   reconciliation deleted them between their validation and the completing
   write; the record is tombstoned if and only if a view came after the final
   read. A record returned at once was completed before, with valid media.
   */
  lemma ReturnedIsCached(p: Page, id: VideoId, video: Video, s: Script)
    requires IdOk(p, id) && Download(p, id, video, s).1.Returned?
    ensures var (p', outcome) := Download(p, id, video, s);
            var r := outcome.record;
            && r.status.Completed? && r.downloadedBytes == r.byteSize
            && match Begin(p, id, video, s) {
                 case Early(_, _) =>
                   && id in p.lib.records && r == p.lib.records[id] && !Tombstoned(r)
                   && Valid(p'.lib, id, r.cacheKey, r.contentType, r.byteSize)
                 case Started(started) =>
                   && id in p'.lib.records && p'.lib.records[id] == r && r.byteSize == video.byteSize
                   && r.downloadedAt == Some(s.now) && r.cacheKey == Some(id) && !r.failed
                   && s.transfer.Stored?
                   && (ValidCompleted(p'.lib, id) <==> !RemovedInWindow(started, id, s))
                   && (Tombstoned(r) <==> HasView(TasksAt(s, BeforeCommit)))
               }
  {
    hide Catch;
    hide Try;
    match Begin(p, id, video, s) {
      case Early(_, _) =>
        hide At;
      case Started(started) =>
        BeginKeeps(p, id, video, s);
        hide Begin;
        CommittedIsCached(started, id, video, s);
        hide RemovedInWindow;
        hide ValidCompleted;
        hide HasView;
        hide Tombstoned;
    }
  }

  lemma CommittedIsCached(p: Page, id: VideoId, video: Video, s: Script)
    requires Underway(p, id, video) && Try(p, id, video, s).Done?
    ensures s.transfer.Stored?
    ensures var done := Try(p, id, video, s);
            && done.record.status.Completed? && done.record.downloadedBytes == done.record.byteSize == video.byteSize
            && id in done.page.lib.records && done.page.lib.records[id] == done.record
            && done.record.downloadedAt == Some(s.now) && done.record.cacheKey == Some(id) && !done.record.failed
            && (ValidCompleted(done.page.lib, id) <==> !RemovedInWindow(p, id, s))
            && (Tombstoned(done.record) <==> HasView(TasksAt(s, BeforeCommit)))
  {
    TryDone(p, id, video, s);
    WindowPages(p, id, s);
    ValidationUnderway(p, id, video, s);
    var read := FinalRead(p, id, s);
    ViewedExactly(read, id, TasksAt(s, BeforeCommit));
    AtUnderway(read, id, video, s, BeforeCommit);
    hide Try;
    hide Validation;
    hide FinalRead;
    hide Acts;
    hide HasView;
    hide RemovedInWindow;
    hide Keeps;
  }

  /** The page once the media is stored. */
  function AfterPut(p: Page, id: VideoId, s: Script): Page
    requires s.transfer.Stored?
  {
    Cached(At(p, id, s, BeforePut), id, s.transfer.media)
  }

  /**
   A download that started returns exactly when the whole video was stored as
   video/mp4 with the size its metadata names, counted byte by byte, no delete
   removed it before its validation, none of the later calls raises, and no one
   has viewed the reel by the final read.
   */
  lemma FinishesExactly(p: Page, id: VideoId, video: Video, s: Script)
    requires IdOk(p, id) && Begin(p, id, video, s).Started?
    ensures var started := Begin(p, id, video, s).page;
            Download(p, id, video, s).1.Returned? <==>
              && s.transfer.Stored? && s.transfer.media.contentType.Mp4?
              && s.transfer.media.size == s.transfer.counted == video.byteSize
              && !MediaRemoved(AfterPut(started, id, s), id, TasksAt(s, BeforeValidate))
              && !s.validateRaises && !s.finalReadRaises && !s.commitRaises
              && !Viewed(started.lib, id)
              && !HasView(TasksAt(s, BeforePut) + TasksAt(s, BeforeValidate) + TasksAt(s, BeforeFinalRead))
  {
    BeginKeeps(p, id, video, s);
    StartsExactly(p, id, video, s);
    StartedUnderway(p, id, video, s);
    var started := Begin(p, id, video, s).page;
    hide Begin;
    hide Catch;
    if s.transfer.Stored? {
      ViewsBefore(s);
      StoredExactly(started, id, video, s);
      FinalReadExactly(started, id, video, s);
      ValidationUnderway(started, id, video, s);
      CommitsExactly(FinalRead(started, id, s), id, video, s.transfer.counted, s);
    }
    hide Validation;
    hide FinalRead;
    hide Commit;
    hide MediaRemoved;
    hide HasView;
    hide RecordOk;
    hide Viewed;
    hide Tombstoned;
  }

  /** A download returns without a transfer exactly when the reel is there, whole, and nothing is due to it. */
  lemma ReturnsAtOnceExactly(p: Page, id: VideoId, video: Video, s: Script)
    requires IdOk(p, id)
    ensures Begin(p, id, video, s).Early? && Download(p, id, video, s).1.Returned? <==>
              && MetadataOk(video) && !s.readRaises && !s.checkRaises
              && ValidCompleted(p.lib, id) && !Tombstoned(p.lib.records[id])
              && !MediaRemoved(p, id, TasksAt(s, BeforeCheck))
  {
    CachedExactly(p, id, TasksAt(s, BeforeCheck));
    hide Acts;
    hide MediaRemoved;
    hide Try;
    hide Catch;
  }

  /** After a throw the record is marked as failed, unless the reel was viewed or one of the last two calls raises. */
  lemma ThrowMarksFailed(p: Page, id: VideoId, video: Video, s: Script)
    requires IdOk(p, id) && Begin(p, id, video, s).Started? && Download(p, id, video, s).1.Threw?
    ensures var p' := Download(p, id, video, s).0;
            && id in p'.lib.records
            && (!s.lastReadRaises && !s.failMarkRaises && !Viewed(p'.lib, id) ==>
                  var r := p'.lib.records[id];
                  r.status.Failed? && r.downloadedBytes == 0 && r.downloadedAt.None? && r.cacheKey.None? && r.failed)
  {
    StartedUnderway(p, id, video, s);
    var started := Begin(p, id, video, s).page;
    hide Begin;
    TryKeeps(started, id, video, s);
    CatchMarks(Try(started, id, video, s).page, id, video, s);
    hide Try;
    hide Catch;
    hide Viewed;
  }

  lemma CatchMarks(p: Page, id: VideoId, video: Video, s: Script)
    requires Underway(p, id, video)
    ensures var p' := Catch(p, id, s);
            && id in p'.lib.records
            && (!s.lastReadRaises && !s.failMarkRaises && !Viewed(p'.lib, id) ==>
                  var r := p'.lib.records[id];
                  r.status.Failed? && r.downloadedBytes == 0 && r.downloadedAt.None? && r.cacheKey.None? && r.failed)
  {
    hide Acts;
    AtUnderway(p, id, video, s, BeforeCleanup);
    var cleanup := At(p, id, s, BeforeCleanup);
    DeletedUnderway(cleanup, id, video, s.cleanup);
    var deleted := Evicted(cleanup, id, s.cleanup);
    AtUnderway(deleted, id, video, s, BeforeLastRead);
    ViewedExactly(deleted, id, TasksAt(s, BeforeLastRead));
    var read := At(deleted, id, s, BeforeLastRead);
    assert Tombstoned(read.lib.records[id]) <==> Viewed(read.lib, id);
    hide At;
    AtUnderway(read, id, video, s, BeforeFailMark);
    MarkKeeps(At(read, id, s, BeforeFailMark), id);
  }

  /** A video without a record gets a queued one, with nothing of it downloaded, before anything else is written. */
  lemma FirstWriteQueues(p: Page, id: VideoId, video: Video, s: Script)
    requires id !in p.lib.records && Prepare(p, id, video, s).Ready?
    ensures var create := At(p, id, s, BeforeCreate);
            Prepare(p, id, video, s).page ==
              create.(lib := Lib(create.lib.records[id := Record(video.title, Mp4, video.byteSize, Queued, 0, None, None, false,
                                                                 None, None, NoDeletion)],
                                 create.lib.cache))
  {
    hide At;
  }

  lemma ViewsBefore(s: Script)
    ensures var tasks := TasksAt(s, BeforePut) + TasksAt(s, BeforeValidate) + TasksAt(s, BeforeFinalRead);
            HasView(tasks) <==>
              HasView(TasksAt(s, BeforePut)) || HasView(TasksAt(s, BeforeValidate)) || HasView(TasksAt(s, BeforeFinalRead))
  {
  }

  /** A started download has its record, with the size its metadata names. */
  lemma StartedUnderway(p: Page, id: VideoId, video: Video, s: Script)
    requires IdOk(p, id) && Begin(p, id, video, s).Started?
    ensures var started := Begin(p, id, video, s).page;
            Underway(started, id, video) && video.byteSize > 0
  {
    BeginKeeps(p, id, video, s);
    KeepsIdOk(p, Begin(p, id, video, s).page, id);
    StartsExactly(p, id, video, s);
    hide Begin;
    hide IdOk;
  }

  lemma StoredExactly(p: Page, id: VideoId, video: Video, s: Script)
    requires Underway(p, id, video) && s.transfer.Stored?
    ensures Valid(Validation(p, id, s).lib, id, Some(id), Mp4, video.byteSize) <==>
              && s.transfer.media.contentType.Mp4? && s.transfer.media.size == video.byteSize
              && !MediaRemoved(AfterPut(p, id, s), id, TasksAt(s, BeforeValidate))
  {
    CachedExactly(AfterPut(p, id, s), id, TasksAt(s, BeforeValidate));
    hide Acts;
    hide MediaRemoved;
  }

  lemma FinalReadExactly(p: Page, id: VideoId, video: Video, s: Script)
    requires Underway(p, id, video) && s.transfer.Stored?
    ensures var read := FinalRead(p, id, s);
            && id in read.lib.records
            && (Tombstoned(read.lib.records[id]) <==>
                  || Viewed(p.lib, id) || HasView(TasksAt(s, BeforePut))
                  || HasView(TasksAt(s, BeforeValidate)) || HasView(TasksAt(s, BeforeFinalRead)))
  {
    hide HasView;
    ValidationUnderway(p, id, video, s);
    AtUnderway(p, id, video, s, BeforePut);
    ViewedExactly(p, id, TasksAt(s, BeforePut));
    var put := At(p, id, s, BeforePut);
    CachedUnderway(put, id, video, Some(s.transfer.media));
    ViewedExactly(AfterPut(p, id, s), id, TasksAt(s, BeforeValidate));
    ViewedExactly(Validation(p, id, s), id, TasksAt(s, BeforeFinalRead));
    hide Acts;
    hide Keeps;
    hide RecordOk;
  }

  lemma CommitsExactly(p: Page, id: VideoId, video: Video, counted: nat, s: Script)
    requires Underway(p, id, video) && id in p.lib.records
    ensures Commit(p, id, counted, s).Done? <==>
              !Tombstoned(p.lib.records[id]) && !s.commitRaises && counted == video.byteSize
  {
    AtUnderway(p, id, video, s, BeforeCommit);
    hide At;
    hide Keeps;
  }

  /** The points at which a view still stops the download. */
  predicate StopsAt(p: Page, id: VideoId, point: Point) {
    || point in {BeforeStart, BeforePut, BeforeValidate, BeforeFinalRead}
    || (point in {BeforeCheck, BeforeEarlyDelete} && id in p.lib.records && p.lib.records[id].status.Completed?)
  }

  /** A view before the final read wins: the download throws and its media goes. */
  lemma ViewWins(p: Page, id: VideoId, video: Video, s: Script, point: Point)
    requires IdOk(p, id) && Begin(p, id, video, s).Started?
    requires StopsAt(p, id, point) && HasView(TasksAt(s, point))
    ensures Download(p, id, video, s).1.Threw?
    ensures Withdrawn(Download(p, id, video, s).0.lib, id, s.cleanup)
  {
    BeginKeeps(p, id, video, s);
    var started := Begin(p, id, video, s).page;
    if point in {BeforeCheck, BeforeEarlyDelete, BeforeStart} {
      ViewBeforeStart(p, id, video, s, point);
    }
    ViewStops(started, id, video, s, point);
    DownloadKeepsId(p, id, video, s);
    hide Begin;
    hide Try;
    hide Catch;
    hide Withdrawn;
  }

  lemma ViewAt(p: Page, id: VideoId, s: Script, point: Point)
    requires IdOk(p, id) && id in p.lib.records && HasView(TasksAt(s, point))
    ensures Viewed(At(p, id, s, point).lib, id)
  {
    ViewedExactly(p, id, TasksAt(s, point));
    hide Acts;
  }

  lemma ViewBeforeStart(p: Page, id: VideoId, video: Video, s: Script, point: Point)
    requires IdOk(p, id) && Begin(p, id, video, s).Started?
    requires StopsAt(p, id, point) && point in {BeforeCheck, BeforeEarlyDelete, BeforeStart} && HasView(TasksAt(s, point))
    ensures Viewed(Begin(p, id, video, s).page.lib, id)
  {
    hide At;
    hide IdOk;
    hide RecordOk;
    hide HasView;
    PrepareKeeps(p, id, video, s);
    var ready := Prepare(p, id, video, s).page;
    if point == BeforeStart {
      ViewAt(ready, id, s, BeforeStart);
    } else {
      var check := At(p, id, s, BeforeCheck);
      AtKeeps(p, id, s, BeforeCheck);
      if point == BeforeCheck {
        ViewAt(p, id, s, BeforeCheck);
      } else {
        ViewAt(check, id, s, BeforeEarlyDelete);
      }
      AtKeeps(check, id, s, BeforeEarlyDelete);
      DeletedKeeps(At(check, id, s, BeforeEarlyDelete), id, s.earlyDelete);
    }
    AtKeeps(ready, id, s, BeforeStart);
  }

  lemma ViewStops(p: Page, id: VideoId, video: Video, s: Script, point: Point)
    requires Underway(p, id, video)
    requires Viewed(p.lib, id) || (point in {BeforePut, BeforeValidate, BeforeFinalRead} && HasView(TasksAt(s, point)))
    ensures Try(p, id, video, s).Abandon?
  {
    if Try(p, id, video, s).Done? {
      TryDone(p, id, video, s);
      ViewReachesFinalRead(p, id, video, s, point);
    }
  }

  lemma ViewReachesFinalRead(p: Page, id: VideoId, video: Video, s: Script, point: Point)
    requires Underway(p, id, video) && s.transfer.Stored?
    requires Viewed(p.lib, id) || (point in {BeforePut, BeforeValidate, BeforeFinalRead} && HasView(TasksAt(s, point)))
    ensures Viewed(FinalRead(p, id, s).lib, id)
  {
    hide At;
    hide HasView;
    var put := At(p, id, s, BeforePut);
    AtUnderway(p, id, video, s, BeforePut);
    var cached := Cached(put, id, s.transfer.media);
    CachedUnderway(put, id, video, Some(s.transfer.media));
    AtUnderway(cached, id, video, s, BeforeValidate);
    var v := Validation(p, id, s);
    AtUnderway(v, id, video, s, BeforeFinalRead);
    if Viewed(p.lib, id) {
    } else if point == BeforePut {
      ViewAt(p, id, s, point);
    } else if point == BeforeValidate {
      ViewAt(cached, id, s, point);
    } else {
      ViewAt(v, id, s, point);
    }
    hide RecordOk;
  }

  /******* Throws before the try block *******/

  datatype Gap = Gap(page: Page, tasks: seq<Task>)

  function GapAt(p: Page, s: Script, point: Point): Gap {
    Gap(p, TasksAt(s, point))
  }

  /** Where other tasks act while the download prepares, and on which pages. */
  function PrepareGaps(p: Page, id: VideoId, video: Video, s: Script): seq<Gap> {
    if !MetadataOk(video) || s.readRaises then []
    else if id !in p.lib.records then [GapAt(p, s, BeforeCreate)]
    else if Tombstoned(p.lib.records[id]) || !p.lib.records[id].status.Completed? then []
    else
      [GapAt(p, s, BeforeCheck)]
      + if Prepare(p, id, video, s).Ready? then [GapAt(At(p, id, s, BeforeCheck), s, BeforeEarlyDelete)] else []
  }

  function EarlyGaps(p: Page, id: VideoId, video: Video, s: Script): seq<Gap> {
    var prepared := Prepare(p, id, video, s);
    PrepareGaps(p, id, video, s)
    + if prepared.Ready? then [GapAt(prepared.page, s, if s.roomy then BeforeStart else BeforeQuotaMark)] else []
  }

  ghost predicate SomeRemoval(gaps: seq<Gap>, id: VideoId) {
    exists g :: g in gaps && MediaRemoved(g.page, id, g.tasks)
  }

  ghost predicate SomeStatusLost(gaps: seq<Gap>, id: VideoId) {
    exists g :: g in gaps && StatusLost(g.page, id, g.tasks)
  }

  lemma MoreGaps(gaps: seq<Gap>, g: Gap, id: VideoId)
    ensures SomeRemoval(gaps + [g], id) <==> SomeRemoval(gaps, id) || MediaRemoved(g.page, id, g.tasks)
    ensures SomeStatusLost(gaps + [g], id) <==> SomeStatusLost(gaps, id) || StatusLost(g.page, id, g.tasks)
  {
    hide MediaRemoved;
    hide StatusLost;
    assert g in gaps + [g];
  }

  lemma NoGaps(id: VideoId)
    ensures !SomeRemoval([], id) && !SomeStatusLost([], id)
  {
  }

  lemma AtExactly(p: Page, id: VideoId, s: Script, point: Point)
    requires IdOk(p, id)
    ensures var p' := At(p, id, s, point);
            && IdOk(p', id)
            && (id in p'.lib.cache <==> id in p.lib.cache && !MediaRemoved(p, id, TasksAt(s, point)))
            && (IsCompleted(p'.lib, id) <==> IsCompleted(p.lib, id) && !StatusLost(p, id, TasksAt(s, point)))
  {
    ActsKeep(p, id, TasksAt(s, point));
    CachedExactly(p, id, TasksAt(s, point));
    CompletedExactly(p, id, TasksAt(s, point));
  }

  /** What is left of media and completed record once the download has prepared. */
  ghost predicate Left(p: Page, p': Page, id: VideoId, gaps: seq<Gap>, deleted: bool, failed: bool) {
    && (id in p'.lib.cache <==> id in p.lib.cache && !SomeRemoval(gaps, id) && !deleted)
    && (IsCompleted(p'.lib, id) <==> IsCompleted(p.lib, id) && !SomeStatusLost(gaps, id) && !failed)
  }

  lemma LeftNext(p: Page, mid: Page, id: VideoId, gaps: seq<Gap>, deleted: bool, s: Script, point: Point)
    requires Left(p, mid, id, gaps, deleted, false) && IdOk(mid, id)
    ensures Left(p, At(mid, id, s, point), id, gaps + [GapAt(mid, s, point)], deleted, false)
  {
    AtExactly(mid, id, s, point);
    MoreGaps(gaps, GapAt(mid, s, point), id);
    hide At;
    hide SomeRemoval;
    hide SomeStatusLost;
    hide MediaRemoved;
    hide StatusLost;
    hide IsCompleted;
  }

  /** The early delete of a bad copy was made and took effect. */
  predicate EarlyDeleted(p: Page, id: VideoId, video: Video, s: Script) {
    IsCompleted(p.lib, id) && Prepare(p, id, video, s).Ready? && !s.earlyDelete.RaisesKeeping?
  }

  predicate QuotaMarked(p: Page, id: VideoId, video: Video, s: Script) {
    Prepare(p, id, video, s).Ready? && !s.roomy && !s.quotaMarkRaises
  }

  lemma PrepareLeaves(p: Page, id: VideoId, video: Video, s: Script)
    requires IdOk(p, id)
    ensures Left(p, Prepare(p, id, video, s).page, id, PrepareGaps(p, id, video, s), EarlyDeleted(p, id, video, s), false)
  {
    NoGaps(id);
    assert Left(p, p, id, [], false, false);
    hide At;
    hide Left;
    hide RecordOk;
    hide IdOk;
    var prepared := Prepare(p, id, video, s);
    if !MetadataOk(video) || s.readRaises {
    } else if id !in p.lib.records {
      var create := At(p, id, s, BeforeCreate);
      LeftNext(p, p, id, [], false, s, BeforeCreate);
      assert [] + [GapAt(p, s, BeforeCreate)] == [GapAt(p, s, BeforeCreate)];
      LeftQueued(p, create, id, [GapAt(p, s, BeforeCreate)], QueuedRecord(video));
    } else if !Tombstoned(p.lib.records[id]) && p.lib.records[id].status.Completed? {
      var check := At(p, id, s, BeforeCheck);
      LeftNext(p, p, id, [], false, s, BeforeCheck);
      assert [] + [GapAt(p, s, BeforeCheck)] == [GapAt(p, s, BeforeCheck)];
      AtKeeps(p, id, s, BeforeCheck);
      if prepared.Ready? {
        LeftNext(p, check, id, [GapAt(p, s, BeforeCheck)], false, s, BeforeEarlyDelete);
        var early := At(check, id, s, BeforeEarlyDelete);
        LeftDeleted(p, early, id, PrepareGaps(p, id, video, s), s.earlyDelete);
      } else {
        assert [GapAt(p, s, BeforeCheck)] + [] == [GapAt(p, s, BeforeCheck)];
      }
    }
  }

  lemma LeftQueued(p: Page, mid: Page, id: VideoId, gaps: seq<Gap>, record: Record)
    requires Left(p, mid, id, gaps, false, false) && id !in p.lib.records && !record.status.Completed?
    ensures Left(p, Put(mid, id, record), id, gaps, false, false)
  {
  }

  lemma LeftDeleted(p: Page, mid: Page, id: VideoId, gaps: seq<Gap>, deletion: Deletion)
    requires Left(p, mid, id, gaps, false, false)
    ensures Left(p, Evicted(mid, id, deletion), id, gaps, !deletion.RaisesKeeping?, false)
  {
  }

  lemma LeftFailed(p: Page, mid: Page, id: VideoId, gaps: seq<Gap>, deleted: bool)
    requires Left(p, mid, id, gaps, deleted, false) && IdOk(mid, id)
    ensures Left(p, MarkedFailed(mid, id), id, gaps, deleted, true)
  {
  }

  /**
   A throw before the download started has no catch block behind it. It leaves
   the library withdrawn if and only if the video had no cached bytes, or they
   were deleted by the early cleanup or by another task, and its record was not
   completed, or was marked as failed for want of room or taken out of
   `completed` by another task.
   */
  lemma EarlyThrowExactly(p: Page, id: VideoId, video: Video, s: Script)
    requires IdOk(p, id) && Begin(p, id, video, s).Early? && Download(p, id, video, s).1.Threw?
    ensures var gaps := EarlyGaps(p, id, video, s);
            Withdrawn(Download(p, id, video, s).0.lib, id, Deletes) <==>
              && (id !in p.lib.cache || SomeRemoval(gaps, id) || EarlyDeleted(p, id, video, s))
              && (!IsCompleted(p.lib, id) || SomeStatusLost(gaps, id) || QuotaMarked(p, id, video, s))
  {
    PrepareLeaves(p, id, video, s);
    PrepareKeeps(p, id, video, s);
    var prepared := Prepare(p, id, video, s);
    var gaps, deleted := PrepareGaps(p, id, video, s), EarlyDeleted(p, id, video, s);
    if prepared.Ready? {
      var ready := prepared.page;
      LeftNext(p, ready, id, gaps, deleted, s, BeforeStart);
      LeftNext(p, ready, id, gaps, deleted, s, BeforeQuotaMark);
      AtKeeps(ready, id, s, BeforeQuotaMark);
      LeftFailed(p, At(ready, id, s, BeforeQuotaMark), id, gaps + [GapAt(ready, s, BeforeQuotaMark)], deleted);
    } else {
      assert gaps + [] == gaps;
    }
    hide At;
    hide Prepare;
    hide PrepareGaps;
    hide SomeRemoval;
    hide SomeStatusLost;
    hide IsCompleted;
    hide MarkedFailed;
    hide GapAt;
    hide RecordOk;
    hide EarlyDeleted;
  }

  /******* Inputs on which a download does not keep what it promises *******/

  const QUIET: Script := Script(map[], false, false, Deletes, false, true, false, false, Aborted, false, false,
                        Deletes, false, Deletes, false, false, 0)

  /** A throw can leave a completed record without its media: the cached copy was bad and the next write failed. */
  lemma ThrowCanLeaveCompletedRecord()
    ensures var r := Record(Title(false, 5), Mp4, 10, Completed, 10, Some(1), Some(7), false, None, None, NoDeletion);
            var p := Page(Lib(map[7 := r], map[7 := Media(Mp4, 9)]), map[]);
            var (p', outcome) := Download(p, 7, Video(Title(false, 5), Mp4, 10), QUIET.(startRaises := true));
            PageOk(p) && outcome.Threw? && IsCompleted(p'.lib, 7) && 7 !in p'.lib.cache
  {
  }

  const CLIP := Video(Title(false, 5), Mp4, 10)

  /** The reconciliation that undoes a download: it finds the record `downloading`, and deletes the media as an orphan. */
  const RACE: Script := QUIET.(transfer := Stored(Media(Mp4, 10), 10),
                       others := map[BeforePut := [StartReconcile(1)] + Advances(1, 3), BeforeCommit := Advances(1, 2)])

  const STORED := Lib(map[7 := FailedRecord(StartedRecord(QueuedRecord(CLIP), CLIP))], map[7 := Media(Mp4, 10)])

  lemma RaceBegins()
    ensures Begin(Page(Lib(map[], map[]), map[]), 7, CLIP, RACE) ==
            Started(Page(Lib(map[7 := StartedRecord(QueuedRecord(CLIP), CLIP)], map[]), map[]))
  {
    hide Advances;
  }

  lemma RaceValidates()
    ensures var started := Page(Lib(map[7 := StartedRecord(QueuedRecord(CLIP), CLIP)], map[]), map[]);
            FinalRead(started, 7, RACE) == Page(STORED, map[(1, 7) := WillListCache(false)])
  {
    RaceReconciles();
    hide Acts;
    hide Advances;
    NoTasks(Cached(Page(Lib(STORED.records, map[]), map[(1, 7) := WillListCache(false)]), 7, Media(Mp4, 10)));
  }

  lemma NoTasks(p: Page)
    ensures Acts(p, 7, []) == p
  {
  }

  lemma RaceReconciles()
    ensures var started := Page(Lib(map[7 := StartedRecord(QueuedRecord(CLIP), CLIP)], map[]), map[]);
            At(started, 7, RACE, BeforePut) == Page(Lib(STORED.records, map[]), map[(1, 7) := WillListCache(false)])
  {
    var started := Page(Lib(map[7 := StartedRecord(QueuedRecord(CLIP), CLIP)], map[]), map[]);
    var tasks := TasksAt(RACE, BeforePut);
    var first := Act(started, 7, StartReconcile(1));
    assert tasks[0] == StartReconcile(1) && tasks[1..] == Advances(1, 3);
    OneMore(first, 7, 1, 2);
    var listed := Act(first, 7, Advance(1, false, true));
    assert listed.threads == map[(1, 7) := WillDrop];
    OneMore(listed, 7, 1, 1);
    var dropped := Act(listed, 7, Advance(1, false, true));
    assert dropped.threads == map[(1, 7) := WillFail];
    OneMore(dropped, 7, 1, 0);
    var failed := Act(dropped, 7, Advance(1, false, true));
    assert failed == Page(Lib(STORED.records, map[]), map[(1, 7) := WillListCache(false)]);
    assert Acts(failed, 7, Advances(1, 0)) == failed;
    assert At(started, 7, RACE, BeforePut) == failed;
  }

  lemma RaceDeletes()
    ensures At(Page(STORED, map[(1, 7) := WillListCache(false)]), 7, RACE, BeforeCommit) == Page(Lib(STORED.records, map[]), map[])
  {
    var read := Page(STORED, map[(1, 7) := WillListCache(false)]);
    OneMore(read, 7, 1, 1);
    var listed := Act(read, 7, Advance(1, false, true));
    assert listed.threads == map[(1, 7) := WillDropOrphan];
    OneMore(listed, 7, 1, 0);
    var dropped := Act(listed, 7, Advance(1, false, true));
    assert dropped == Page(Lib(STORED.records, map[]), map[]);
    assert Acts(dropped, 7, Advances(1, 0)) == dropped;
  }

  /** From an empty library: the download returns a completed record, and its media is gone. */
  lemma ReconcileCanLoseDownload()
    ensures var p := Page(Lib(map[], map[]), map[]);
            var (p', outcome) := Download(p, 7, CLIP, RACE);
            && PageOk(p) && outcome.Returned? && p'.lib.records == map[7 := outcome.record]
            && outcome.record.status.Completed? && !Tombstoned(outcome.record) && 7 !in p'.lib.cache
  {
    RaceBegins();
    RaceValidates();
    RaceDeletes();
    var started := Page(Lib(map[7 := StartedRecord(QueuedRecord(CLIP), CLIP)], map[]), map[]);
    hide At;
    hide FinalRead;
    hide Begin;
    RaceIsValid(started);
    hide Validation;
    assert Try(started, 7, CLIP, RACE) == Commit(FinalRead(started, 7, RACE), 7, 10, RACE);
  }

  lemma RaceIsValid(started: Page)
    requires FinalRead(started, 7, RACE) == Page(STORED, map[(1, 7) := WillListCache(false)])
    ensures Valid(Validation(started, 7, RACE).lib, 7, Some(7), Mp4, 10)
  {
    hide Validation;
    assert Acts(Validation(started, 7, RACE), 7, []) == Validation(started, 7, RACE);
  }

  /******* The downloader, writing metadata and media in sequence *******/

  class Store {
    var records: map<VideoId, Record>
    var cache: map<VideoId, Media>
    var threads: map<(AgentId, VideoId), Thread>

    function Contents(): Page
      reads this
    {
      Page(Lib(records, cache), threads)
    }

    constructor (p: Page)
      ensures Contents() == p
    {
      records, cache, threads := p.lib.records, p.lib.cache, p.threads;
    }

    /** `putOfflineVideo`; false is an exception. */
    method PutOfflineVideo(id: VideoId, record: Record, raises: bool) returns (ok: bool)
      modifies this`records
      ensures ok <==> !raises && RecordOk(id, record)
      ensures records == if ok then old(records)[id := record] else old(records)
    {
      ok := !raises && RecordOk(id, record);
      if ok {
        records := records[id := record];
      }
    }

    /** `updateOfflineVideo`; a missing record is no exception and nothing is written. */
    method UpdateOfflineVideo(id: VideoId, patch: Record -> Record, raises: bool)
      returns (ok: bool, updated: Option<Record>)
      modifies this`records
      ensures ok <==> !raises && (id in old(records) ==> RecordOk(id, patch(old(records)[id])))
      ensures updated.Some? <==> ok && id in old(records)
      ensures updated.Some? ==> updated.value == patch(old(records)[id]) && records == old(records)[id := updated.value]
      ensures updated.None? ==> records == old(records)
    {
      ok, updated := !raises, None;
      if ok && id in records {
        var patched := patch(records[id]);
        ok := RecordOk(id, patched);
        if ok {
          records := records[id := patched];
          updated := Some(patched);
        }
      }
    }

    method DeleteCachedVideo(id: VideoId, deletion: Deletion)
      modifies this`cache
      ensures Contents() == Evicted(old(Contents()), id, deletion)
    {
      if !deletion.RaisesKeeping? {
        cache := cache - {id};
      }
    }

    /** What other tasks of the page do before the next call. */
    method Others(id: VideoId, s: Script, point: Point)
      modifies this
      ensures Contents() == At(old(Contents()), id, s, point)
    {
      var tasks := TasksAt(s, point);
      ghost var before := Contents();
      assert tasks[..0] == [];
      for i := 0 to |tasks|
        invariant Contents() == Acts(before, id, tasks[..i])
      {
        var p := Act(Contents(), id, tasks[i]);
        assert tasks[..i + 1] == tasks[..i] + [tasks[i]];
        ActsConcat(before, id, tasks[..i], [tasks[i]]);
        assert [tasks[i]][1..] == [];
        records, cache, threads := p.lib.records, p.lib.cache, p.threads;
      }
      assert tasks[..|tasks|] == tasks;
    }

    /** Up to the storage estimate; None is a download that goes on. */
    method PrepareDownload(id: VideoId, video: Video, s: Script) returns (outcome: Option<Outcome>)
      modifies this
      ensures Prepare(old(Contents()), id, video, s) ==
                if outcome.Some? then Stopped(Contents(), outcome.value) else Ready(Contents())
    {
      hide At;
      if !MetadataOk(video) || s.readRaises {
        return Some(Threw);
      }
      var existing := if id in records then Some(records[id]) else None;
      if existing.Some? && Tombstoned(existing.value) {
        return Some(Threw);
      }
      if existing.Some? && existing.value.status.Completed? {
        Others(id, s, BeforeCheck);
        if s.checkRaises {
          return Some(Threw);
        }
        if Valid(Contents().lib, id, existing.value.cacheKey, existing.value.contentType, existing.value.byteSize) {
          return Some(Returned(existing.value));
        }
        Others(id, s, BeforeEarlyDelete);
        DeleteCachedVideo(id, s.earlyDelete);
      }
      if existing.None? {
        Others(id, s, BeforeCreate);
        var put := PutOfflineVideo(id, QueuedRecord(video), s.createRaises);
        if !put {
          return Some(Threw);
        }
      }
      outcome := None;
    }

    /** The storage estimate and the `downloading` write; None is a download that has started. */
    method BeginDownload(id: VideoId, video: Video, s: Script) returns (outcome: Option<Outcome>)
      modifies this
      ensures Begin(old(Contents()), id, video, s) ==
                if outcome.Some? then Early(Contents(), outcome.value) else Started(Contents())
    {
      hide At;
      hide Prepare;
      outcome := PrepareDownload(id, video, s);
      if outcome.Some? {
        return;
      }
      if !s.roomy {
        Others(id, s, BeforeQuotaMark);
        var ok, marked := UpdateOfflineVideo(id, FailedRecord, s.quotaMarkRaises);
        return Some(Threw);
      }
      Others(id, s, BeforeStart);
      var ok, started := UpdateOfflineVideo(id, r => StartedRecord(r, video), s.startRaises);
      outcome := if ok then None else Some(Threw);
    }

    method DownloadVideoForOffline(id: VideoId, video: Video, s: Script) returns (outcome: Outcome)
      modifies this
      ensures (Contents(), outcome) == Download(old(Contents()), id, video, s)
    {
      hide Begin;
      hide Try;
      hide Catch;
      var early := BeginDownload(id, video, s);
      if early.Some? {
        return early.value;
      }
      outcome := Transfer(id, video, s);
      if outcome.Threw? {
        CatchError(id, s);
      }
    }

    /** The try block. */
    method Transfer(id: VideoId, video: Video, s: Script) returns (outcome: Outcome)
      modifies this
      ensures Try(old(Contents()), id, video, s) ==
                if outcome.Threw? then Abandon(Contents()) else Done(Contents(), outcome.record)
    {
      hide At;
      hide Commit;
      outcome := Threw;
      Others(id, s, BeforePut);
      if s.transfer.Aborted? || (s.transfer.Stored? && !s.transfer.media.contentType.Mp4?) {
        return;
      }
      if s.transfer.PutFailed? {
        cache := if s.transfer.leftover.Some? then cache[id := s.transfer.leftover.value] else cache - {id};
        return;
      }
      cache := cache[id := s.transfer.media];
      var actualByteSize := s.transfer.counted;
      Others(id, s, BeforeValidate);
      if actualByteSize == 0 || actualByteSize != video.byteSize {
        return;
      }
      if s.validateRaises || !Valid(Contents().lib, id, Some(id), Mp4, video.byteSize) {
        return;
      }
      Others(id, s, BeforeFinalRead);
      if s.finalReadRaises {
        return;
      }
      outcome := CommitDownload(id, actualByteSize, s);
    }

    /** The final read and the completing write. */
    method CommitDownload(id: VideoId, actualByteSize: nat, s: Script) returns (outcome: Outcome)
      modifies this
      ensures Commit(old(Contents()), id, actualByteSize, s) ==
                if outcome.Threw? then Abandon(Contents()) else Done(Contents(), outcome.record)
    {
      hide At;
      outcome := Threw;
      if id in records && Tombstoned(records[id]) {
        Others(id, s, BeforeLateDelete);
        DeleteCachedVideo(id, s.lateDelete);
        return;
      }
      Others(id, s, BeforeCommit);
      var ok, completed := UpdateOfflineVideo(id, r => CompletedRecord(r, id, actualByteSize, s.now), s.commitRaises);
      if completed.Some? {
        outcome := Returned(completed.value);
      }
    }

    method CatchError(id: VideoId, s: Script)
      modifies this
      ensures Contents() == Catch(old(Contents()), id, s)
    {
      hide At;
      Others(id, s, BeforeCleanup);
      DeleteCachedVideo(id, s.cleanup);
      Others(id, s, BeforeLastRead);
      if s.lastReadRaises || id !in records || Tombstoned(records[id]) {
        return;
      }
      Others(id, s, BeforeFailMark);
      var ok, marked := UpdateOfflineVideo(id, FailedRecord, s.failMarkRaises);
    }
  }
}
