/**
 The browser's offline library: metadata records in IndexedDB beside media in
 Cache Storage. One `updateOfflineVideo` call is atomic.
 */
module OfflineLibrary {
  import opened Options

  type VideoId = nat  // a normalized id; its media path determines it
  type Time = int

  /** "video/mp4", whatever its case and parameters, or anything else. */
  datatype ContentType = Mp4 | OtherType

  datatype Status = Queued | Downloading | Completed | Failed | Deleted

  datatype DeletionState = NoDeletion | DeletionPending | Deleting | DeletionDone | DeletionFailed

  datatype Title = Title(blank: bool, length: nat)

  datatype Record = Record(
    title: Title,
    contentType: ContentType,
    byteSize: nat,
    status: Status,
    downloadedBytes: nat,
    downloadedAt: Option<Time>,
    cacheKey: Option<VideoId>,
    failed: bool,  // whether an error code and time are set
    viewedAt: Option<Time>,
    deleteAfter: Option<Time>,
    deletionState: DeletionState)

  datatype Media = Media(contentType: ContentType, size: nat)

  datatype Lib = Lib(records: map<VideoId, Record>, cache: map<VideoId, Media>)

  /** `assertOfflineVideoRecord`: what every stored record satisfies. */
  predicate RecordOk(id: VideoId, r: Record) {
    && !r.title.blank && r.title.length <= 255
    && r.contentType.Mp4?
    && r.byteSize > 0
    && (r.viewedAt.Some? ==> r.deleteAfter.Some? && r.deleteAfter.value >= r.viewedAt.value)
    && (r.cacheKey.Some? ==> r.cacheKey.value == id)
    && (r.status.Completed? ==> r.cacheKey.Some? && r.downloadedAt.Some? && r.downloadedBytes == r.byteSize)
  }

  ghost predicate LibOk(lib: Lib) {
    forall id :: id in lib.records ==> RecordOk(id, lib.records[id])
  }

  predicate Tombstoned(r: Record) {
    r.viewedAt.Some? || r.deletionState.DeletionDone?
  }

  /** A deleted reel has no media left even if a late download has completed its record again. */
  ghost predicate DeletionsSettled(lib: Lib) {
    forall id :: id in lib.records && lib.records[id].deletionState.DeletionDone? && lib.records[id].status.Completed? ==>
                   id !in lib.cache
  }

  /** `validateCachedVideo`. */
  predicate Valid(lib: Lib, id: VideoId, cacheKey: Option<VideoId>, contentType: ContentType, byteSize: nat) {
    && cacheKey == Some(id) && contentType.Mp4?
    && id in lib.cache && lib.cache[id].contentType.Mp4? && lib.cache[id].size == byteSize
  }

  predicate ValidCompleted(lib: Lib, id: VideoId) {
    && id in lib.records && lib.records[id].status.Completed?
    && Valid(lib, id, lib.records[id].cacheKey, lib.records[id].contentType, lib.records[id].byteSize)
  }

  /** `updateOfflineVideo`: nothing when the record is missing or the patched record is refused. */
  function Updated(lib: Lib, id: VideoId, patched: Record): Lib {
    if id in lib.records && RecordOk(id, patched) then lib.(records := lib.records[id := patched]) else lib
  }

  /** The patch of `markFailed`. */
  function FailedRecord(r: Record): Record {
    r.(status := Failed, downloadedBytes := 0, downloadedAt := None, cacheKey := None, failed := true)
  }

  function Uncached(lib: Lib, id: VideoId): Lib {
    lib.(cache := lib.cache - {id})
  }

  const HOUR: int := 3600

  /** `markOfflineVideoViewed`, in seconds. */
  function MarkViewed(lib: Lib, id: VideoId, at: Time): Lib {
    if id !in lib.records || lib.records[id].viewedAt.Some? then lib
    else
      Updated(lib, id, lib.records[id].(viewedAt := Some(at), deleteAfter := Some(at + HOUR),
                                        deletionState := DeletionPending))
  }

  /** The first view sets the view, a deadline one hour later and a pending deletion; it changes nothing else. */
  lemma ViewSetsDeadline(lib: Lib, id: VideoId, at: Time)
    requires id in lib.records ==> RecordOk(id, lib.records[id])
    ensures MarkViewed(lib, id, at) ==
              if id !in lib.records || lib.records[id].viewedAt.Some? then lib
              else
                var r := lib.records[id];
                Lib(lib.records[id := Record(r.title, r.contentType, r.byteSize, r.status, r.downloadedBytes, r.downloadedAt,
                                             r.cacheKey, r.failed, Some(at), Some(at + 3600), DeletionPending)],
                    lib.cache)
  {
  }

  /** Record and media of one video are as before. */
  ghost predicate SameEntry(lib: Lib, lib': Lib, id: VideoId) {
    && (id in lib.records <==> id in lib'.records)
    && (id in lib.records ==> lib'.records[id] == lib.records[id])
    && (id in lib.cache <==> id in lib'.cache)
    && (id in lib.cache ==> lib'.cache[id] == lib.cache[id])
  }

  /** Tombstones are never taken back: once viewed, a record keeps its view and its deadline. */
  ghost predicate TombstonesKept(lib: Lib, lib': Lib) {
    forall id :: id in lib.records && lib.records[id].viewedAt.Some? ==>
      && id in lib'.records
      && lib'.records[id].viewedAt == lib.records[id].viewedAt
      && lib'.records[id].deleteAfter == lib.records[id].deleteAfter
  }

  /** `updateOfflineVideo` as its two transactions leave it: the record got from `read`, patched, is put into `lib`. */
  function PutAfterGet(read: Lib, lib: Lib, id: VideoId, patch: Record -> Record): Lib
    requires id in read.records
  {
    var patched := patch(read.records[id]);
    if RecordOk(id, patched) then lib.(records := lib.records[id := patched]) else lib
  }

  /**
   With a view between its get and its put, an update that leaves views alone
   keeps the view if and only if it is refused: a put that goes through takes
   the view back.
   */
  lemma SplitUpdateLosesView(read: Lib, id: VideoId, at: Time, patch: Record -> Record)
    requires id in read.records && RecordOk(id, read.records[id])
    requires read.records[id].viewedAt.None? && patch(read.records[id]).viewedAt.None?
    ensures var lib := MarkViewed(read, id, at);
            && lib.records[id].viewedAt == Some(at)
            && (PutAfterGet(read, lib, id, patch).records[id].viewedAt == Some(at)
                <==> !RecordOk(id, patch(read.records[id])))
  {
  }
}
