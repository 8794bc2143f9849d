/**
 Reconciliation of metadata and media, and the lifecycle run that expires
 viewed reels and then reconciles. The run is the offline one: no outbox sync.
 */
module OfflineReconcile {
  import opened Options
  import opened OfflineLibrary

  /******* Specification of reconciliation *******/

  /** The record after reconciliation; reading the media of the ids in `unread` raises. */
  function ReconciledRecord(lib: Lib, id: VideoId, unread: set<VideoId>): Record
    requires id in lib.records
  {
    var r := lib.records[id];
    if r.status.Downloading? then FailedRecord(r)
    else if r.status.Completed? && id !in unread && !ValidCompleted(lib, id) then FailedRecord(r)
    else r
  }

  function Reconciled(lib: Lib, unread: set<VideoId>): Lib {
    Lib(map id | id in lib.records :: ReconciledRecord(lib, id, unread),
        map id | id in lib.cache && ValidCompleted(lib, id) && id !in unread :: lib.cache[id])
  }

  /** Metadata and media agree: exactly the completed records are cached, each with exactly its bytes. */
  ghost predicate Agrees(lib: Lib) {
    && (forall id :: id in lib.cache <==> id in lib.records && lib.records[id].status.Completed?)
    && (forall id :: id in lib.cache ==> ValidCompleted(lib, id))
    && (forall id :: id in lib.records ==> !lib.records[id].status.Downloading?)
  }

  lemma ReconciledKeepsMetadata(lib: Lib, unread: set<VideoId>)
    requires LibOk(lib)
    ensures LibOk(Reconciled(lib, unread)) && TombstonesKept(lib, Reconciled(lib, unread))
    ensures DeletionsSettled(lib) ==> DeletionsSettled(Reconciled(lib, unread))
  {
  }

  lemma ReconciledAgrees(lib: Lib)
    ensures Agrees(Reconciled(lib, {}))
  {
    var lib' := Reconciled(lib, {});
    forall id
      ensures id in lib'.cache <==> id in lib'.records && lib'.records[id].status.Completed?
      ensures id in lib'.cache ==> ValidCompleted(lib', id)
    {
    }
  }

  /** No valid completed media is lost, and a second reconciliation changes nothing. */
  lemma ReconciledLosesNothingValid(lib: Lib, id: VideoId)
    requires ValidCompleted(lib, id)
    ensures ValidCompleted(Reconciled(lib, {}), id)
    ensures Reconciled(lib, {}).records[id] == lib.records[id] && Reconciled(lib, {}).cache[id] == lib.cache[id]
  {
  }

  lemma AgreesIsFixpoint(lib: Lib)
    requires Agrees(lib)
    ensures Reconciled(lib, {}) == lib
  {
    var lib' := Reconciled(lib, {});
    assert lib'.records == lib.records;
    assert lib'.cache == lib.cache;
  }

  /** A valid completed video survives exactly when its copy could be read; otherwise its record stays and its media goes. */
  ghost predicate LosesExactlyUnread(lib: Lib, lib': Lib, unread: set<VideoId>) {
    forall id :: ValidCompleted(lib, id) ==>
      && id in lib'.records && lib'.records[id] == lib.records[id]
      && (ValidCompleted(lib', id) <==> id !in unread)
      && (id in unread ==> id !in lib'.cache)
  }

  /******* Specification of the lifecycle run *******/

  /** What the expiry loop deletes. */
  predicate Due(lib: Lib, id: VideoId, now: Time, active: Option<VideoId>) {
    && id in lib.records
    && lib.records[id].viewedAt.Some?
    && lib.records[id].deleteAfter.Some? && lib.records[id].deleteAfter.value <= now
    && !lib.records[id].deletionState.DeletionDone?
    && active != Some(id)
  }

  function DeletedRecord(r: Record): Record {
    r.(status := Deleted, cacheKey := None, downloadedBytes := 0, downloadedAt := None, deletionState := DeletionDone)
  }

  function Expired(lib: Lib, now: Time, active: Option<VideoId>): Lib {
    Lib(map id | id in lib.records :: if Due(lib, id, now, active) then DeletedRecord(lib.records[id]) else lib.records[id],
        map id | id in lib.cache && !Due(lib, id, now, active) :: lib.cache[id])
  }

  function Ran(lib: Lib, now: Time, active: Option<VideoId>): Lib {
    Reconciled(Expired(lib, now, active), {})
  }

  lemma ExpiredKeepsMetadata(lib: Lib, now: Time, active: Option<VideoId>)
    requires LibOk(lib)
    ensures LibOk(Expired(lib, now, active)) && TombstonesKept(lib, Expired(lib, now, active))
    ensures DeletionsSettled(lib) ==> DeletionsSettled(Expired(lib, now, active))
  {
  }

  /** After a run in which no storage call fails, library and cache agree and nothing due is left. */
  lemma RunAgrees(lib: Lib, now: Time, active: Option<VideoId>)
    requires LibOk(lib) && DeletionsSettled(lib)
    ensures var lib' := Ran(lib, now, active);
            && Agrees(lib') && LibOk(lib') && DeletionsSettled(lib') && TombstonesKept(lib, lib')
            && (forall id :: ViewExpired(lib', id, now) && active != Some(id) ==>
                  lib'.records[id].deletionState.DeletionDone? && id !in lib'.cache)
  {
    var expired := Expired(lib, now, active);
    var lib' := Ran(lib, now, active);
    ExpiredKeepsMetadata(lib, now, active);
    ReconciledKeepsMetadata(expired, {});
    ReconciledAgrees(expired);
    forall id: VideoId | ViewExpired(lib', id, now) && active != Some(id)
      ensures lib'.records[id].deletionState.DeletionDone? && id !in lib'.cache
    {
      assert id in expired.records && expired.records[id].deletionState.DeletionDone?;
    }
  }

  predicate ViewExpired(lib: Lib, id: VideoId, now: Time) {
    && id in lib.records && lib.records[id].viewedAt.Some?
    && lib.records[id].deleteAfter.Some? && lib.records[id].deleteAfter.value <= now
  }

  /**
   A valid completed video keeps record and media through a run unless it was
   viewed, its deadline has come, and it is not playing; then it loses both.
   */
  lemma RunLosesNothingElse(lib: Lib, now: Time, active: Option<VideoId>, id: VideoId)
    requires ValidCompleted(lib, id)
    ensures var r, lib' := lib.records[id], Ran(lib, now, active);
            var overdue := r.viewedAt.Some? && r.deleteAfter.Some? && r.deleteAfter.value <= now && active != Some(id);
            && (!overdue ==>
                  && id in lib'.records && lib'.records[id] == r
                  && id in lib'.cache && lib'.cache[id] == lib.cache[id]
                  && ValidCompleted(lib', id))
            && (overdue && DeletionsSettled(lib) ==>
                  && id !in lib'.cache && id in lib'.records
                  && lib'.records[id].status.Deleted? && lib'.records[id].deletionState.DeletionDone?)
  {
    if Due(lib, id, now, active) {
    } else {
      ReconciledLosesNothingValid(Expired(lib, now, active), id);
    }
  }

  /** The media of a record is there, as video/mp4 and with the recorded size. */
  predicate Whole(lib: Lib, id: VideoId)
    requires id in lib.records
  {
    var r := lib.records[id];
    && r.cacheKey == Some(id) && r.contentType.Mp4?
    && id in lib.cache && lib.cache[id].contentType.Mp4? && lib.cache[id].size == r.byteSize
  }

  /**
   What a run makes of each video. An overdue one is deleted, media and all;
   one left downloading, or completed without its whole media, has failed; any
   other record is as it was. Media stays exactly with the completed records
   that are left.
   */
  lemma RunExactly(lib: Lib, now: Time, active: Option<VideoId>, id: VideoId)
    ensures var lib' := Ran(lib, now, active);
            if id !in lib.records then id !in lib'.records && id !in lib'.cache
            else
              var r := lib.records[id];
              var overdue := r.viewedAt.Some? && r.deleteAfter.Some? && r.deleteAfter.value <= now && active != Some(id)
                             && !r.deletionState.DeletionDone?;
              && id in lib'.records
              && lib'.records[id] == (
                   if overdue then
                     Record(r.title, r.contentType, r.byteSize, Deleted, 0, None, None, r.failed, r.viewedAt, r.deleteAfter,
                            DeletionDone)
                   else if r.status.Downloading? || (r.status.Completed? && !Whole(lib, id)) then
                     Record(r.title, r.contentType, r.byteSize, Failed, 0, None, None, true, r.viewedAt, r.deleteAfter,
                            r.deletionState)
                   else r)
              && (id in lib'.cache <==> !overdue && r.status.Completed? && Whole(lib, id))
              && (id in lib'.cache ==> lib'.cache[id] == lib.cache[id])
  {
  }

  lemma NothingDue(lib: Lib, now: Time, active: Option<VideoId>)
    requires forall id :: !Due(lib, id, now, active)
    ensures Expired(lib, now, active) == lib
  {
    hide Due;
    assert Expired(lib, now, active).records == lib.records;
    assert Expired(lib, now, active).cache == lib.cache;
  }

  /** A second run at the same time changes nothing. */
  lemma RunIsIdempotent(lib: Lib, now: Time, active: Option<VideoId>)
    requires LibOk(lib) && DeletionsSettled(lib)
    ensures Ran(Ran(lib, now, active), now, active) == Ran(lib, now, active)
  {
    var lib' := Ran(lib, now, active);
    RunAgrees(lib, now, active);
    hide Agrees;
    hide LibOk;
    hide Reconciled;
    hide Expired;
    forall id: VideoId
      ensures !Due(lib', id, now, active)
    {
      assert ViewExpired(lib', id, now) && active != Some(id) ==> lib'.records[id].deletionState.DeletionDone?;
    }
    NothingDue(lib', now, active);
    AgreesIsFixpoint(lib');
  }

  /******* Halfway through the loops *******/

  predicate Dropped(lib: Lib, id: VideoId, unread: set<VideoId>) {
    && id in lib.records
    && ReconciledRecord(lib, id, unread) != lib.records[id]
  }

  /** The library after the record loop has handled the ids in `done`. */
  function Midway(lib: Lib, unread: set<VideoId>, done: set<VideoId>): Lib {
    Lib(map id | id in lib.records :: if id in done then ReconciledRecord(lib, id, unread) else lib.records[id],
        map id | id in lib.cache && !(id in done && Dropped(lib, id, unread)) :: lib.cache[id])
  }

  function ExpiredOne(lib: Lib, id: VideoId): Lib
    requires id in lib.records
  {
    Lib(lib.records[id := DeletedRecord(lib.records[id])], lib.cache - {id})
  }

  /** The library after the expiry loop has handled the ids in `done`. */
  function HalfExpired(lib: Lib, now: Time, active: Option<VideoId>, done: set<VideoId>): Lib {
    Lib(map id | id in lib.records :: if id in done && Due(lib, id, now, active) then DeletedRecord(lib.records[id])
                                     else lib.records[id],
        map id | id in lib.cache && !(id in done && Due(lib, id, now, active)) :: lib.cache[id])
  }

  /** What holds even when storage calls fail: records are as before or marked failed, and media is only removed. */
  ghost predicate OnlyRetreats(lib: Lib, lib': Lib) {
    && lib'.records.Keys == lib.records.Keys
    && (forall id :: id in lib.records ==>
          lib'.records[id] == lib.records[id] || lib'.records[id] == FailedRecord(lib.records[id]))
    && (forall id :: id in lib'.cache ==> id in lib.cache && lib'.cache[id] == lib.cache[id])
  }

  /******* The loops, with any storage call failing *******/

  class Lifecycle {
    var records: map<VideoId, Record>
    var cache: map<VideoId, Media>
    var activeVideoId: Option<VideoId>

    function Contents(): Lib
      reads this
    {
      Lib(records, cache)
    }

    constructor (lib: Lib)
      ensures Contents() == lib && activeVideoId.None?
    {
      records, cache, activeVideoId := lib.records, lib.cache, None;
    }

    /** False is an exception, after which the entry may or may not be gone. */
    method DeleteCachedVideo(id: VideoId) returns (ok: bool)
      modifies this`cache
      ensures cache == old(cache) - {id} || (!ok && cache == old(cache))
    {
      ok := *;
      var effect: bool := *;
      if ok || effect {
        cache := cache - {id};
      }
    }

    /** False is an exception and leaves the record alone. */
    method Update(id: VideoId, patched: Record) returns (ok: bool)
      requires id in records && RecordOk(id, patched)
      modifies this`records
      ensures records == if ok then old(records)[id := patched] else old(records)
    {
      ok := *;
      if ok {
        records := records[id := patched];
      }
    }

    /** One record of the reconcile loop. */
    method ReconcileRecord(id: VideoId, unread: set<VideoId>) returns (valid: bool, faulted: bool)
      requires id in records && RecordOk(id, records[id])
      modifies this`records, this`cache
      ensures OnlyRetreats(old(Contents()), Contents())
      ensures valid <==> ValidCompleted(old(Contents()), id) && id !in unread
      ensures valid ==> Contents() == old(Contents())
      ensures SameElsewhere(old(Contents()), Contents(), id)
      ensures !faulted ==>
                && records == old(records)[id := ReconciledRecord(old(Contents()), id, unread)]
                && cache == if Dropped(old(Contents()), id, unread) then old(cache) - {id} else old(cache)
    {
      var record := records[id];
      valid, faulted := false, false;
      if record.status.Downloading? {
        var deleted := DeleteCachedVideo(id);
        var marked := Update(id, FailedRecord(record));
        return false, !deleted || !marked;
      }
      if !record.status.Completed? || id in unread {
        assert records[id := record] == records;
        return;
      }
      if Valid(Contents(), id, record.cacheKey, record.contentType, record.byteSize) {
        assert records[id := record] == records;
        return true, false;
      }
      if id in cache {
        var deleted := DeleteCachedVideo(id);
        faulted := !deleted;
      } else {
        assert cache - {id} == cache;
      }
      var marked := Update(id, FailedRecord(record));
      faulted := faulted || !marked;
    }

    /** The first loop of `reconcileOfflineLibrary`. */
    method ReconcileRecords(unread: set<VideoId>) returns (validCompletedIds: set<VideoId>, faulted: bool)
      requires LibOk(Contents())
      modifies this`records, this`cache
      ensures RecordsDone(old(Contents()), Contents(), unread, old(records).Keys, {}, validCompletedIds, faulted)
    {
      ghost var before := Contents();
      var todo := records.Keys;
      ghost var done: set<VideoId> := {};
      validCompletedIds, faulted := {}, false;
      NothingDone(before, unread);
      hide RecordsDone;
      hide RecordOk;
      hide LibOk;
      hide SameElsewhere;
      hide ValidCompleted;
      hide ReconciledRecord;
      hide OnlyRetreats;
      hide Dropped;
      while todo != {}
        invariant done !! todo && done + todo == before.records.Keys
        invariant RecordsDone(before, Contents(), unread, done, todo, validCompletedIds, faulted)
        decreases |todo|
      {
        var id :| id in todo;
        ghost var mid := Contents();
        NextRecord(before, mid, unread, done, todo, validCompletedIds, faulted, id);
        var valid, failed := ReconcileRecord(id, unread);
        RecordDone(before, mid, Contents(), unread, done, todo, validCompletedIds, faulted, id, valid, failed);
        faulted := faulted || failed;
        if valid {
          validCompletedIds := validCompletedIds + {id};
        }
        done, todo := done + {id}, todo - {id};
      }
      assert done == before.records.Keys;
    }

    /** The second loop: media that no valid completed record claims is deleted. */
    method DeleteOrphans(validCompletedIds: set<VideoId>) returns (faulted: bool)
      modifies this`cache
      ensures cache.Keys <= old(cache).Keys && forall id :: id in cache ==> cache[id] == old(cache)[id]
      ensures forall id :: id in validCompletedIds && id in old(cache) ==> id in cache
      ensures !faulted ==> cache.Keys <= validCompletedIds
    {
      ghost var before := cache;
      faulted := *;
      if faulted {
        return;  // listing the cache raised
      }
      var todo := cache.Keys - validCompletedIds;
      while todo != {}
        invariant cache.Keys <= before.Keys && forall id :: id in cache ==> cache[id] == before[id]
        invariant forall id :: id in validCompletedIds && id in before ==> id in cache
        invariant todo !! validCompletedIds
        invariant !faulted ==> cache.Keys <= validCompletedIds + todo
        decreases |todo|
      {
        var id :| id in todo;
        var deleted := DeleteCachedVideo(id);
        faulted := faulted || !deleted;
        todo := todo - {id};
      }
    }

    /** `reconcileOfflineLibrary`. */
    method ReconcileOfflineLibrary(unread: set<VideoId>) returns (faulted: bool)
      requires LibOk(Contents())
      modifies this`records, this`cache
      ensures OnlyRetreats(old(Contents()), Contents())
      ensures !faulted ==> Contents() == Reconciled(old(Contents()), unread)
      ensures !faulted ==> LosesExactlyUnread(old(Contents()), Contents(), unread)
      ensures forall id :: ValidCompleted(old(Contents()), id) && id !in unread ==> ValidCompleted(Contents(), id)
    {
      hide LosesExactlyUnread;
      ghost var before := Contents();
      var validCompletedIds;
      validCompletedIds, faulted := ReconcileRecords(unread);
      ghost var mid := Contents();
      var failed := DeleteOrphans(validCompletedIds);
      AllDone(before, mid, Contents(), unread, validCompletedIds, faulted, failed);
      faulted := faulted || failed;
    }

    /** One due record of the lifecycle run: delete its media, then settle its tombstone. */
    method ExpireRecord(id: VideoId) returns (threw: bool, faulted: bool)
      requires id in records && RecordOk(id, records[id])
      modifies this`records, this`cache
      ensures threw ==> faulted
      ensures id in records && RecordOk(id, records[id]) && records == old(records)[id := records[id]]
      ensures SameElsewhere(old(Contents()), Contents(), id)
      ensures !faulted ==> Contents() == ExpiredOne(old(Contents()), id)
    {
      var record := records[id];
      var ok := Update(id, record.(deletionState := Deleting));
      if !ok {
        assert records == records[id := record];
        return true, true;
      }
      var removed := DeleteCachedVideo(id);
      if removed {
        ok := Update(id, DeletedRecord(records[id]));
        if ok {
          return false, false;
        }
      }
      ok := Update(id, records[id].(deletionState := DeletionFailed));
      threw, faulted := !ok, true;
    }

    method ExpireIfDue(id: VideoId, now: Time) returns (threw: bool, faulted: bool)
      requires id in records && LibOk(Contents())
      modifies this`records, this`cache
      ensures threw ==> faulted
      ensures LibOk(Contents()) && records.Keys == old(records).Keys
      ensures SameElsewhere(old(Contents()), Contents(), id)
      ensures !Due(old(Contents()), id, now, activeVideoId) ==> Contents() == old(Contents())
      ensures !faulted ==>
                Contents() == if Due(old(Contents()), id, now, activeVideoId) then ExpiredOne(old(Contents()), id)
                              else old(Contents())
    {
      hide RecordOk;
      threw, faulted := false, false;
      if Due(Contents(), id, now, activeVideoId) {
        threw, faulted := ExpireRecord(id);
      }
    }

    /** The loop of `run` over viewed records past their deadline. */
    method ExpireRecords(now: Time) returns (threw: bool, faulted: bool)
      requires LibOk(Contents())
      modifies this`records, this`cache
      ensures LibOk(Contents())
      ensures !threw && !faulted ==> Contents() == Expired(old(Contents()), now, activeVideoId)
      ensures LeavesUndue(old(Contents()), Contents(), now, activeVideoId, {})
    {
      ghost var before := Contents();
      var todo := records.Keys;
      ghost var done: set<VideoId> := {};
      threw, faulted := false, false;
      HalfExpiredEnds(before, now, activeVideoId);
      hide HalfExpired;
      hide Expired;
      hide Due;
      hide LibOk;
      hide LeavesUndue;
      hide SameElsewhere;
      NothingLeft(before, now, activeVideoId, todo);
      while todo != {} && !threw
        invariant done !! todo && done + todo == before.records.Keys == records.Keys
        invariant LibOk(Contents()) && (threw ==> faulted)
        invariant !faulted ==> Contents() == HalfExpired(before, now, activeVideoId, done)
        invariant LeavesUndue(before, Contents(), now, activeVideoId, todo)
        decreases |todo|
      {
        var id :| id in todo;
        ghost var mid := Contents();
        var failed;
        threw, failed := ExpireIfDue(id, now);
        faulted := faulted || failed;
        OneLessLeft(before, mid, Contents(), now, activeVideoId, todo, id);
        if !faulted {
          DueUnchanged(before, mid, now, activeVideoId, done, id);
          HalfExpiredStep(before, mid, Contents(), now, activeVideoId, done, id);
        }
        done, todo := done + {id}, todo - {id};
      }
      assert !threw ==> done == before.records.Keys;
      FewerLeft(before, Contents(), now, activeVideoId, todo);
    }

    /** `run` while offline: a faulted expiry that does not raise still goes on to reconcile. */
    method Run(now: Time, unread: set<VideoId>) returns (threw: bool, faulted: bool)
      requires LibOk(Contents())
      modifies this`records, this`cache
      ensures !threw && !faulted ==>
                Contents() == Reconciled(Expired(old(Contents()), now, activeVideoId), unread)
      ensures forall id :: ValidCompleted(old(Contents()), id) ==>
                id in unread || Overdue(old(Contents()), id, now, activeVideoId) || ValidCompleted(Contents(), id)
    {
      ghost var before := Contents();
      threw, faulted := ExpireRecords(now);
      UndueStaysValid(before, Contents(), now, activeVideoId);
      if !threw {
        var failed := ReconcileOfflineLibrary(unread);
        faulted := faulted || failed;
      }
    }
  }

  /** Viewed, with a deadline that has come, and not playing. */
  predicate Overdue(lib: Lib, id: VideoId, now: Time, active: Option<VideoId>) {
    ViewExpired(lib, id, now) && active != Some(id)
  }

  /** Whatever failed, entries that are not due, or not handled yet, are as they were. */
  ghost predicate LeavesUndue(lib: Lib, lib': Lib, now: Time, active: Option<VideoId>, todo: set<VideoId>) {
    forall id :: id in todo || !Due(lib, id, now, active) ==> SameEntry(lib, lib', id)
  }

  lemma NothingLeft(lib: Lib, now: Time, active: Option<VideoId>, todo: set<VideoId>)
    ensures LeavesUndue(lib, lib, now, active, todo)
  {
  }

  lemma FewerLeft(lib: Lib, lib': Lib, now: Time, active: Option<VideoId>, todo: set<VideoId>)
    requires LeavesUndue(lib, lib', now, active, todo)
    ensures LeavesUndue(lib, lib', now, active, {})
  {
  }

  lemma OneLessLeft(lib: Lib, mid: Lib, lib': Lib, now: Time, active: Option<VideoId>, todo: set<VideoId>, id: VideoId)
    requires LeavesUndue(lib, mid, now, active, todo) && id in todo && SameElsewhere(mid, lib', id)
    requires !Due(mid, id, now, active) ==> lib' == mid
    ensures LeavesUndue(lib, lib', now, active, todo - {id})
  {
    assert SameEntry(lib, mid, id);
    assert Due(mid, id, now, active) == Due(lib, id, now, active);
    hide Due;
    forall other | other in todo - {id} || !Due(lib, other, now, active)
      ensures SameEntry(lib, lib', other)
    {
      assert SameEntry(lib, mid, other);
      assert other != id ==> SameEntry(mid, lib', other);
    }
  }

  lemma UndueStaysValid(lib: Lib, lib': Lib, now: Time, active: Option<VideoId>)
    requires LeavesUndue(lib, lib', now, active, {})
    ensures forall id :: ValidCompleted(lib, id) && !Overdue(lib, id, now, active) ==> ValidCompleted(lib', id)
  {
    forall id | ValidCompleted(lib, id) && !Overdue(lib, id, now, active)
      ensures ValidCompleted(lib', id)
    {
      assert SameEntry(lib, lib', id);
    }
  }

  /** Only one entry differs. */
  ghost predicate SameElsewhere(lib: Lib, lib': Lib, id: VideoId) {
    forall other :: other != id ==> SameEntry(lib, lib', other)
  }

  /** The entries of the given ids are as before. */
  ghost predicate Untouched(lib: Lib, lib': Lib, ids: set<VideoId>) {
    forall id :: id in ids ==> SameEntry(lib, lib', id)
  }

  /** Where the record loop stands. */
  ghost predicate RecordsDone(before: Lib, now: Lib, unread: set<VideoId>, done: set<VideoId>, todo: set<VideoId>,
                              valid: set<VideoId>, faulted: bool) {
    && OnlyRetreats(before, now)
    && Untouched(before, now, todo)
    && Untouched(before, now, valid)
    && (forall id :: id in valid <==> id in done && ValidCompleted(before, id) && id !in unread)
    && (!faulted ==> now == Midway(before, unread, done))
  }

  lemma NothingDone(before: Lib, unread: set<VideoId>)
    ensures RecordsDone(before, before, unread, {}, before.records.Keys, {}, false)
  {
    assert Midway(before, unread, {}) == before;
  }

  /** The next record and its media are still as they were listed. */
  lemma NextRecord(before: Lib, now: Lib, unread: set<VideoId>, done: set<VideoId>, todo: set<VideoId>,
                   valid: set<VideoId>, faulted: bool, id: VideoId)
    requires LibOk(before) && RecordsDone(before, now, unread, done, todo, valid, faulted)
    requires id in todo && todo <= before.records.Keys
    ensures id in now.records && RecordOk(id, now.records[id])
    ensures ValidCompleted(now, id) == ValidCompleted(before, id)
    ensures ReconciledRecord(now, id, unread) == ReconciledRecord(before, id, unread)
    ensures Dropped(now, id, unread) == Dropped(before, id, unread)
  {
    hide RecordOk;
  }

  lemma RetreatsTrans(lib: Lib, mid: Lib, lib': Lib)
    requires OnlyRetreats(lib, mid) && OnlyRetreats(mid, lib')
    ensures OnlyRetreats(lib, lib')
  {
  }

  /** One more record handled. */
  lemma MidwayStep(lib: Lib, unread: set<VideoId>, done: set<VideoId>, id: VideoId)
    requires id in lib.records && id !in done
    ensures var mid, next := Midway(lib, unread, done), Midway(lib, unread, done + {id});
            && next.records == mid.records[id := ReconciledRecord(lib, id, unread)]
            && next.cache == if Dropped(lib, id, unread) then mid.cache - {id} else mid.cache
  {
    hide ReconciledRecord;
    hide Dropped;
  }

  lemma MidwayNext(before: Lib, mid: Lib, now: Lib, unread: set<VideoId>, done: set<VideoId>, id: VideoId)
    requires id in before.records && id !in done && mid == Midway(before, unread, done)
    requires now.records == mid.records[id := ReconciledRecord(before, id, unread)]
    requires now.cache == if Dropped(before, id, unread) then mid.cache - {id} else mid.cache
    ensures now == Midway(before, unread, done + {id})
  {
    MidwayStep(before, unread, done, id);
    hide Midway;
  }

  lemma UntouchedElsewhere(before: Lib, mid: Lib, now: Lib, id: VideoId, ids: set<VideoId>)
    requires Untouched(before, mid, ids) && SameElsewhere(mid, now, id)
    ensures Untouched(before, now, ids - {id})
  {
    forall other | other in ids - {id}
      ensures SameEntry(before, now, other)
    {
      assert SameEntry(before, mid, other) && SameEntry(mid, now, other);
    }
  }

  lemma RecordDone(before: Lib, mid: Lib, now: Lib, unread: set<VideoId>, done: set<VideoId>, todo: set<VideoId>,
                   valid: set<VideoId>, faulted: bool, id: VideoId, isValid: bool, failed: bool)
    requires RecordsDone(before, mid, unread, done, todo, valid, faulted) && id in todo && done !! todo && todo <= before.records.Keys
    requires OnlyRetreats(mid, now) && SameElsewhere(mid, now, id)
    requires isValid <==> ValidCompleted(before, id) && id !in unread
    requires isValid ==> now == mid
    requires !failed ==>
               && now.records == mid.records[id := ReconciledRecord(before, id, unread)]
               && now.cache == if Dropped(before, id, unread) then mid.cache - {id} else mid.cache
    ensures RecordsDone(before, now, unread, done + {id}, todo - {id}, valid + if isValid then {id} else {}, faulted || failed)
  {
    hide OnlyRetreats;
    hide Midway;
    hide ReconciledRecord;
    hide Dropped;
    hide ValidCompleted;
    RetreatsTrans(before, mid, now);
    if !faulted && !failed {
      MidwayNext(before, mid, now, unread, done, id);
    }
    UntouchedElsewhere(before, mid, now, id, todo);
    UntouchedElsewhere(before, mid, now, id, valid);
    hide SameElsewhere;
    assert id !in valid && valid - {id} == valid;
    if isValid {
      UntouchedBoth(before, mid, todo, valid, id);
    }
    hide Untouched;
  }

  lemma UntouchedBoth(before: Lib, mid: Lib, todo: set<VideoId>, valid: set<VideoId>, id: VideoId)
    requires Untouched(before, mid, todo) && Untouched(before, mid, valid) && id in todo
    ensures Untouched(before, mid, valid + {id})
  {
  }

  /** One more record of the expiry loop. */
  lemma HalfExpiredStep(lib: Lib, mid: Lib, next: Lib, now: Time, active: Option<VideoId>, done: set<VideoId>, id: VideoId)
    requires id in lib.records && id !in done && mid == HalfExpired(lib, now, active, done) && id in mid.records
    requires next == if Due(lib, id, now, active)
                     then ExpiredOne(mid, id) else mid
    ensures next == HalfExpired(lib, now, active, done + {id})
  {
    hide Due;
    hide DeletedRecord;
    var goal := HalfExpired(lib, now, active, done + {id});
    assert mid.records[id] == lib.records[id];
    assert next.records == goal.records;
    assert next.cache == goal.cache;
  }

  lemma DueUnchanged(lib: Lib, mid: Lib, now: Time, active: Option<VideoId>, done: set<VideoId>, id: VideoId)
    requires id in lib.records && id !in done && mid == HalfExpired(lib, now, active, done)
    ensures id in mid.records && mid.records[id] == lib.records[id]
    ensures Due(mid, id, now, active) == Due(lib, id, now, active)
  {
  }

  lemma HalfExpiredEnds(lib: Lib, now: Time, active: Option<VideoId>)
    ensures HalfExpired(lib, now, active, {}) == lib
    ensures HalfExpired(lib, now, active, lib.records.Keys) == Expired(lib, now, active)
  {
    hide DeletedRecord;
    assert HalfExpired(lib, now, active, {}).records == lib.records;
    assert HalfExpired(lib, now, active, {}).cache == lib.cache;
    assert HalfExpired(lib, now, active, lib.records.Keys).cache == Expired(lib, now, active).cache;
  }

  /** Whatever else fails, a valid video whose media could be read keeps record and media. */
  lemma ReadableSurvives(before: Lib, mid: Lib, now: Lib, unread: set<VideoId>, valid: set<VideoId>, faulted: bool)
    requires RecordsDone(before, mid, unread, before.records.Keys, {}, valid, faulted)
    requires now.records == mid.records
    requires now.cache.Keys <= mid.cache.Keys && forall id :: id in now.cache ==> now.cache[id] == mid.cache[id]
    requires forall id :: id in valid && id in mid.cache ==> id in now.cache
    ensures forall id :: ValidCompleted(before, id) && id !in unread ==> ValidCompleted(now, id)
  {
    forall id | ValidCompleted(before, id) && id !in unread
      ensures ValidCompleted(now, id)
    {
      assert id in valid && id in mid.cache;
    }
  }

  /** Both loops done without a fault: exactly the reconciled library. */
  lemma AllDone(before: Lib, mid: Lib, now: Lib, unread: set<VideoId>, valid: set<VideoId>, faulted: bool, failed: bool)
    requires RecordsDone(before, mid, unread, before.records.Keys, {}, valid, faulted)
    requires now.records == mid.records
    requires now.cache.Keys <= mid.cache.Keys && forall id :: id in now.cache ==> now.cache[id] == mid.cache[id]
    requires forall id :: id in valid && id in mid.cache ==> id in now.cache
    requires !failed ==> now.cache.Keys <= valid
    ensures OnlyRetreats(before, now)
    ensures !faulted && !failed ==> now == Reconciled(before, unread) && LosesExactlyUnread(before, now, unread)
    ensures forall id :: ValidCompleted(before, id) && id !in unread ==> ValidCompleted(now, id)
  {
    ReadableSurvives(before, mid, now, unread, valid, faulted);
    if !faulted && !failed {
      var goal := Reconciled(before, unread);
      assert now.records == goal.records;
      forall id
        ensures id in now.cache <==> id in goal.cache
        ensures id in now.cache ==> now.cache[id] == goal.cache[id]
      {
        assert id in valid ==> id in before.cache && id in mid.cache;
      }
      assert now.cache == goal.cache;
    }
  }
}
