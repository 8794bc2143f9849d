/**
 What the Collector talks to: the source store with a ledger of what a run
 created, the feed with a record of what it answered, and the exceptions that
 any call may raise. `calm` calls do not raise.
 */
module CollectorPorts {
  import opened Options
  import opened Transitions
  import opened NormalizerDb
  import opened CollectorRuns

  /** A feed candidate; `canonical` is the verdict of `validate_candidate` on shortcode and URL. */
  datatype Candidate = Candidate(shortcode: Shortcode, canonical: bool)

  datatype Exn = Interrupt | DeadlineExceeded | LimitExceeded | InvalidCandidate | Coded(code: StopReason) | Plain

  datatype Outcome<+T> = Returned(value: T) | Raised(exn: Exn)

  datatype Limits = Limits(
    maxTarget: int,
    maxAdvances: int,
    maxTransitionOperations: Option<int>,
    maxScrollActions: Option<int>,
    maxRunBytes: Option<int>,
    cooldownSeconds: real,
    deadlineSeconds: Option<real>,
    maxObservations: Option<int>)

  predicate PositiveIfSet(limit: Option<int>) {
    limit.Some? ==> limit.value >= 1
  }

  /** The arguments `collect` accepts; anything else is a ValueError. */
  predicate Acceptable(limits: Limits, target: int, desired: Option<int>) {
    && 1 <= target <= limits.maxTarget
    && PositiveIfSet(limits.maxRunBytes)
    && limits.cooldownSeconds >= 0.0
    && PositiveIfSet(limits.maxTransitionOperations)
    && PositiveIfSet(limits.maxScrollActions)
    && (limits.deadlineSeconds.Some? ==> limits.deadlineSeconds.value > 0.0)
    && PositiveIfSet(limits.maxObservations)
    && (desired.Some? ==> desired.value >= target)
  }

  /******* Ports *******/

  /** The objects, those a publish created, and those whose compensating delete raised. */
  datatype Shelf = Shelf(objects: map<ObjectKey, Bytes>, created: set<ObjectKey>, undeleted: set<ObjectKey>)

  class SourceStorage {
    var objects: map<ObjectKey, Bytes>
    ghost var created: set<ObjectKey>    // objects that a publish created
    ghost var undeleted: set<ObjectKey>  // objects whose compensating delete raised
    ghost var issued: set<Shortcode>     // temporary paths handed out
    ghost var cleaned: set<Shortcode>    // temporary paths whose cleanup was requested

    ghost function Now(): Shelf
      reads this
    {
      Shelf(objects, created, undeleted)
    }

    method TemporaryPath(reel: Shortcode, calm: bool) returns (path: Outcome<Shortcode>)
      modifies this`issued
      ensures calm ==> path.Returned?
      ensures issued == old(issued) + if path.Returned? then {reel} else {}
      ensures path.Returned? ==> path.value == reel
    {
      var exn: Option<Exn> := *;
      if exn.Some? && !calm {
        return Raised(exn.value);
      }
      issued := issued + {reel};
      path := Returned(reel);
    }

    /** Stores nothing when it raises and leaves an existing object alone; answers whether it created the object. */
    method Publish(key: ObjectKey, content: Bytes, calm: bool) returns (published: Outcome<bool>)
      modifies this`objects, this`created
      ensures calm ==> published.Returned?
      ensures published.Raised? ==> objects == old(objects) && created == old(created)
      ensures published.Returned? ==>
                && published.value == (key !in old(objects))
                && objects == (if published.value then old(objects)[key := content] else old(objects))
                && created == old(created) + if published.value then {key} else {}
    {
      var exn: Option<Exn> := *;
      if exn.Some? && !calm {
        return Raised(exn.value);
      }
      if key in objects {
        return Returned(false);
      }
      objects := objects[key := content];
      created := created + {key};
      published := Returned(true);
    }

    method Delete(key: ObjectKey) returns (ok: bool)
      modifies this`objects, this`undeleted
      ensures objects == old(objects) || objects == old(objects) - {key}
      ensures ok ==> objects == old(objects) - {key}
      ensures undeleted == old(undeleted) + if ok then {} else {key}
    {
      ok := *;
      var effect: bool := *;
      if ok || effect {
        objects := objects - {key};
      }
      if !ok {
        undeleted := undeleted + {key};
      }
    }

    /** Requested on every path out; an exception is swallowed. */
    method CleanupTemporary(path: Shortcode)
      modifies this`cleaned
      ensures cleaned == old(cleaned) + {path}
    {
      cleaned := cleaned + {path};
    }
  }

  class Feed {
    const authenticated: bool  // whether next_from_authenticated_feed exists
    var advances: nat          // calls of advance()
    var closed: bool
    ghost var offers: seq<Option<Candidate>>  // every answer so far, the first one from current()

    constructor (authenticated: bool)
      ensures this.authenticated == authenticated && advances == 0 && !closed && offers == []
    {
      this.authenticated := authenticated;
      advances, closed := 0, false;
      offers := [];
    }

    /** What the page shows; `validate_candidate` is still to judge it. */
    method Answer() returns (next: Option<Candidate>)
      modifies this`offers
      ensures offers == old(offers) + [next]
    {
      next := *;
      offers := offers + [next];
    }

    method Current() returns (candidate: Candidate)
      modifies this`offers
      ensures offers == old(offers) + [Some(candidate)]
    {
      candidate := *;
      offers := offers + [Some(candidate)];
    }

    /** Moves the browser on. It may be asked to only once the current reel is settled in the database. */
    method Advance(persistence: Persistence, r: RunId, current: Shortcode, calm: bool) returns (done: Option<Exn>)
      requires Settled(persistence.Now(), r, current)
      modifies this`advances
      ensures advances == old(advances) + 1
      ensures calm ==> done.None?
    {
      advances := advances + 1;
      var exn: Option<Exn> := *;
      done := if calm then None else exn;
    }

    method Close()
      modifies this`closed
      ensures closed
    {
      closed := true;
    }
  }

  /** What `_confirm_transition` returns, or the exception it lets through; `consumed` is then what it had used. */
  datatype Transition = Transition(next: Option<Candidate>, consumed: nat, reason: StopReason) | Broken(exn: Exn)

  /** How the handling of one observed reel ends. */
  datatype Step = Proceed | Stop(reason: StopReason) | Throw(exn: Exn)

  datatype Stage = Download | Validation | Publication | Database

  /** The local state of one acquisition, as its exception handler finds it. */
  datatype Attempt = Attempt(
    stage: Stage,
    overBytes: bool,
    published: Option<bool>,  // created_by_attempt
    dbCommitted: bool,
    bytes: int,
    exn: Option<Exn>)

  /** The reason an abandoned acquisition is recorded with. */
  function FailureReason(a: Attempt, exn: Exn, compensationFailed: bool): StopReason {
    if exn.DeadlineExceeded? then TotalTimeoutReached
    else if a.overBytes then RunByteLimitExceeded
    else if exn.Coded? then exn.code
    else if a.published.Some? then
      if compensationFailed then CompensationFailed else DatabaseWriteFailed
    else if a.stage.Validation? then ValidationFailed
    else if a.stage.Publication? then StorageFailed
    else DownloadFailed
  }

  /** Where an acquisition met an exception; everything after the publication counts as the commit. */
  datatype Port = Paths | Downloads | Validations | ByteLimit | Publications | Commits

  datatype Fault = Fault(port: Port, exn: Exn, compensationFailed: bool)

  /** How the handler finds the attempt's locals after a fault. */
  predicate FaultAt(a: Attempt, port: Port) {
    && a.exn.Some?
    && (a.overBytes <==> port.ByteLimit?)
    && (a.published.Some? <==> port.Commits?)
    && (a.dbCommitted ==> port.Commits? && a.exn.value.DeadlineExceeded?)
    && match port
       case Paths => false
       case Downloads => a.stage.Download?
       case Validations => a.stage.Validation?
       case ByteLimit => a.exn.value.LimitExceeded?
       case Publications => a.stage.Publication?
       case Commits => true
  }

  /** What a fault makes of the run: the reason names the deadline, the limit, the exception's own code, or the port. */
  predicate Answered(step: Step, fault: Fault) {
    if fault.exn.Interrupt? then step == Throw(Interrupt)
    else
      match fault.port
      case Paths => step == Throw(fault.exn)
      case ByteLimit => step == Stop(RunByteLimitExceeded)
      case _ =>
        if fault.exn.DeadlineExceeded? then step == Stop(TotalTimeoutReached)
        else if fault.exn.Coded? then step == Stop(fault.exn.code)
        else
          && (fault.port.Downloads? ==> step == Stop(DownloadFailed))
          && (fault.port.Validations? ==> step == Stop(ValidationFailed))
          && (fault.port.Publications? ==> step == Stop(StorageFailed))
          && (fault.port.Commits? ==> step == Stop(if fault.compensationFailed then CompensationFailed else DatabaseWriteFailed))
  }

  /** The failed item of an abandoned reel: an early or new reel row has failed with the reason, any other is untouched. */
  ghost predicate FailureRecorded(db: Db, db': Db, reel: Shortcode, reason: StopReason) {
    && reel in db'.reels
    && (forall q :: q in db.reels && q != reel ==> q in db'.reels && db'.reels[q] == db.reels[q])
    && if reel in db.reels && db.reels[reel].status !in {Discovered, Downloading} then db'.reels[reel] == db.reels[reel]
       else db'.reels[reel].status.ReelFailed? && db'.reels[reel].reason == Some(CollectorReason(reason))
  }
}
