/**
 The shared fixed-window limiter of the management API. Its rows live in a
 table that an expiry cleanup may sweep between any two requests. Times are
 microseconds of one clock that never goes backwards.
 */
module RateLimiter {
  import opened Options

  const MINUTE: int := 60_000_000

  type Scope = string  // stored as a hash, idealised as injective

  datatype Window = Window(started: int, count: nat)

  type Table = map<Scope, Window>

  datatype Event = Request(scope: Scope, limit: nat, at: int) | Cleanup(at: int)

  /******* Specification *******/

  /** One request: its scope's new row, and whether it is admitted. */
  function Admit(window: Option<Window>, limit: nat, now: int): (Window, bool) {
    if window.None? || window.value.started + MINUTE <= now then (Window(now, 1), true)
    else if window.value.count >= limit then (window.value, false)
    else (window.value.(count := window.value.count + 1), true)
  }

  function Row(table: Table, scope: Scope): Option<Window> {
    if scope in table then Some(table[scope]) else None
  }

  /** `_cleanup_expired_locked` on this table. */
  function Swept(table: Table, now: int): Table {
    map scope | scope in table && table[scope].started > now - MINUTE :: table[scope]
  }

  function Step(table: Table, e: Event): Table {
    match e
    case Request(scope, limit, at) => table[scope := Admit(Row(table, scope), limit, at).0]
    case Cleanup(at) => Swept(table, at)
  }

  function After(trace: seq<Event>, n: nat): Table
    requires n <= |trace|
  {
    if n == 0 then map[] else Step(After(trace, n - 1), trace[n - 1])
  }

  /** The decision on the n-th event, a request. */
  predicate Admitted(trace: seq<Event>, n: nat)
    requires n < |trace| && trace[n].Request?
  {
    Admit(Row(After(trace, n), trace[n].scope), trace[n].limit, trace[n].at).1
  }

  predicate Clocked(trace: seq<Event>) {
    forall i, j :: 0 <= i < j < |trace| ==> trace[i].at <= trace[j].at
  }

  /******* Cleanup changes no decision *******/

  function WithoutCleanups(trace: seq<Event>): (requests: seq<Event>)
    ensures |requests| <= |trace|
  {
    if trace == [] then []
    else
      var n := |trace| - 1;
      WithoutCleanups(trace[..n]) + if trace[n].Cleanup? then [] else [trace[n]]
  }

  /** The part of a row that still matters at a time. */
  function Live(window: Option<Window>, now: int): Option<Window> {
    if window.Some? && window.value.started + MINUTE > now then window else None
  }

  ghost predicate Alike(table: Table, other: Table, now: int) {
    forall scope :: Live(Row(table, scope), now) == Live(Row(other, scope), now)
  }

  lemma AlikeLater(table: Table, other: Table, now: int, later: int)
    requires Alike(table, other, now) && now <= later
    ensures Alike(table, other, later)
  {
    forall scope
      ensures Live(Row(table, scope), later) == Live(Row(other, scope), later)
    {
      assert Live(Row(table, scope), now) == Live(Row(other, scope), now);
    }
  }

  lemma StepAlike(table: Table, other: Table, e: Event)
    requires Alike(table, other, e.at)
    ensures e.Request? ==> Alike(Step(table, e), Step(other, e), e.at)
    ensures e.Cleanup? ==> Alike(Step(table, e), other, e.at)
    ensures e.Request? ==> Admit(Row(table, e.scope), e.limit, e.at).1 == Admit(Row(other, e.scope), e.limit, e.at).1
  {
    forall scope
      ensures e.Request? ==> Live(Row(Step(table, e), scope), e.at) == Live(Row(Step(other, e), scope), e.at)
      ensures e.Cleanup? ==> Live(Row(Step(table, e), scope), e.at) == Live(Row(other, scope), e.at)
    {
      assert Live(Row(table, scope), e.at) == Live(Row(other, scope), e.at);
    }
    if e.Request? {
      assert Live(Row(table, e.scope), e.at) == Live(Row(other, e.scope), e.at);
    }
  }

  lemma {:induction false} CleanupLeavesAlike(trace: seq<Event>, now: int)
    requires Clocked(trace) && forall i :: 0 <= i < |trace| ==> trace[i].at <= now
    ensures Alike(After(trace, |trace|), After(WithoutCleanups(trace), |WithoutCleanups(trace)|), now)
  {
    if trace != [] {
      var n := |trace| - 1;
      var e := trace[n];
      var before, requests := trace[..n], WithoutCleanups(trace);
      CleanupLeavesAlike(before, e.at);
      AfterPrefix(trace, before, n);
      if e.Request? {
        AfterPrefix(requests, WithoutCleanups(before), |requests| - 1);
      } else {
        assert requests == WithoutCleanups(before);
      }
      StepAlike(After(trace, n), After(WithoutCleanups(before), |WithoutCleanups(before)|), e);
      AlikeLater(After(trace, n + 1), After(requests, |requests|), e.at, now);
    }
  }

  lemma {:induction false} AfterPrefix(trace: seq<Event>, before: seq<Event>, n: nat)
    requires n <= |before| <= |trace| && forall i :: 0 <= i < n ==> before[i] == trace[i]
    ensures After(trace, n) == After(before, n)
  {
    if n > 0 {
      AfterPrefix(trace, before, n - 1);
    }
  }

  /** Sweeping the table anywhere in a trace changes no decision on any request. */
  lemma CleanupChangesNoDecision(trace: seq<Event>, n: nat)
    requires Clocked(trace) && n < |trace| && trace[n].Request?
    ensures var requests := WithoutCleanups(trace[..n + 1]);
            && |requests| > 0 && requests[|requests| - 1] == trace[n]
            && Admitted(trace, n) == Admitted(requests, |requests| - 1)
  {
    var upTo, before := trace[..n + 1], trace[..n];
    assert upTo[..n] == before;
    var requests := WithoutCleanups(upTo);
    CleanupLeavesAlike(before, trace[n].at);
    AfterPrefix(trace, before, n);
    AfterPrefix(requests, WithoutCleanups(before), |requests| - 1);
    StepAlike(After(trace, n), After(requests, |requests| - 1), trace[n]);
  }

  /******* At most 2L - 1 in any minute *******/

  /** Admitted requests of one scope among the first n events, at times in [from, from + MINUTE). */
  function AdmittedIn(trace: seq<Event>, scope: Scope, from: int, n: nat): (count: nat)
    requires n <= |trace|
    ensures count <= n
  {
    if n == 0 then 0
    else AdmittedIn(trace, scope, from, n - 1) + if CountsAt(trace, scope, from, n - 1) then 1 else 0
  }

  predicate CountsAt(trace: seq<Event>, scope: Scope, from: int, i: nat)
    requires i < |trace|
  {
    trace[i].Request? && trace[i].scope == scope && Admitted(trace, i) && from <= trace[i].at < from + MINUTE
  }

  predicate Limited(trace: seq<Event>, scope: Scope, limit: nat) {
    forall e :: e in trace && e.Request? && e.scope == scope ==> e.limit == limit
  }

  /** How the count stands to the scope's live row; a row no longer live tells nothing. */
  ghost predicate Tracked(window: Option<Window>, limit: nat, from: int, now: int, count: nat) {
    && count <= 2 * limit - 1 && (window.Some? ==> window.value.started <= now)
    && (now < from ==> count == 0)
    && (window.None? || window.value.started + MINUTE <= now ==>
          now < from + MINUTE ==> count <= limit - 1)
    && (window.Some? && window.value.started + MINUTE > now ==>
          && 1 <= window.value.count <= limit
          && (window.value.started < from ==> count <= window.value.count - 1)
          && (from <= window.value.started < from + MINUTE ==> count <= limit - 1 + window.value.count))
  }

  lemma TrackedLater(window: Option<Window>, limit: nat, from: int, now: int, later: int, count: nat)
    requires limit >= 1 && Tracked(window, limit, from, now, count) && now <= later
    ensures Tracked(window, limit, from, later, count)
    ensures Tracked(Live(window, later), limit, from, later, count)
  {
  }

  lemma TrackedAdmit(window: Option<Window>, limit: nat, from: int, now: int, count: nat)
    requires limit >= 1 && Tracked(window, limit, from, now, count)
    ensures var (next, admitted) := Admit(window, limit, now);
            Tracked(Some(next), limit, from, now, count + if admitted && from <= now < from + MINUTE then 1 else 0)
  {
  }

  lemma {:induction false} CountTracked(trace: seq<Event>, scope: Scope, limit: nat, from: int, n: nat, now: int)
    requires Clocked(trace) && Limited(trace, scope, limit) && limit >= 1 && n <= |trace|
    requires forall i :: 0 <= i < n ==> trace[i].at <= now
    ensures Tracked(Row(After(trace, n), scope), limit, from, now, AdmittedIn(trace, scope, from, n))
  {
    if n > 0 {
      var e := trace[n - 1];
      assert e in trace;
      CountTracked(trace, scope, limit, from, n - 1, e.at);
      var row, count := Row(After(trace, n - 1), scope), AdmittedIn(trace, scope, from, n - 1);
      if e.Request? && e.scope == scope {
        TrackedAdmit(row, limit, from, e.at, count);
      } else {
        TrackedLater(row, limit, from, e.at, e.at, count);
      }
      TrackedLater(Row(After(trace, n), scope), limit, from, e.at, now, AdmittedIn(trace, scope, from, n));
    }
  }

  /** In any half-open minute a scope limited to L gets at most 2L - 1 requests admitted, whatever cleanups run. */
  lemma AtMostTwiceLessOne(trace: seq<Event>, scope: Scope, limit: nat, from: int)
    requires Clocked(trace) && Limited(trace, scope, limit) && limit >= 1
    ensures AdmittedIn(trace, scope, from, |trace|) <= 2 * limit - 1
  {
    if trace != [] {
      CountTracked(trace, scope, limit, from, |trace|, trace[|trace| - 1].at);
    }
  }

  /******* Exactly which requests are admitted *******/

  /** The last of the first n events that opened a window of the scope: a request with no open window before it. */
  function LastOpening(trace: seq<Event>, scope: Scope, n: nat): (opening: Option<nat>)
    requires n <= |trace|
    ensures opening.Some? ==> opening.value < n && trace[opening.value].Request?
  {
    if n == 0 then None
    else
      var before := LastOpening(trace, scope, n - 1);
      var e := trace[n - 1];
      if e.Request? && e.scope == scope && (before.None? || trace[before.value].at + 60_000_000 <= e.at) then Some(n - 1)
      else before
  }

  /** The admitted requests of the scope among the events from j to n. */
  function AdmittedSince(trace: seq<Event>, scope: Scope, j: nat, n: nat): (count: nat)
    requires j <= n <= |trace|
    ensures count <= n - j
  {
    if n == j then 0
    else
      AdmittedSince(trace, scope, j, n - 1)
      + if trace[n - 1].Request? && trace[n - 1].scope == scope && Admitted(trace, n - 1) then 1 else 0
  }

  /** The window that is open at a time after the first n events, as the requests themselves tell it. */
  function OpenWindow(trace: seq<Event>, scope: Scope, n: nat, now: int): Option<Window>
    requires n <= |trace|
  {
    var j := LastOpening(trace, scope, n);
    if j.Some? && trace[j.value].at + 60_000_000 > now
    then Some(Window(trace[j.value].at, AdmittedSince(trace, scope, j.value, n)))
    else None
  }

  /** What one event does to one scope's row, and its decision. */
  lemma RowAfter(trace: seq<Event>, scope: Scope, n: nat)
    requires 0 < n <= |trace|
    ensures var (e, before, row) := (trace[n - 1], Row(After(trace, n - 1), scope), Row(After(trace, n), scope));
            if e.Request? && e.scope == scope then
              row == Some(Admit(before, e.limit, e.at).0) && Admitted(trace, n - 1) == Admit(before, e.limit, e.at).1
            else if e.Request? then row == before
            else row == if before.Some? && before.value.started > e.at - MINUTE then before else None
  {
  }

  /** What one event does to the open window. */
  lemma OpenAfter(trace: seq<Event>, scope: Scope, n: nat, now: int)
    requires Clocked(trace) && 0 < n <= |trace| && trace[n - 1].at <= now
    ensures var (e, before, after) := (trace[n - 1], OpenWindow(trace, scope, n - 1, trace[n - 1].at), OpenWindow(trace, scope, n, now));
            if e.Request? && e.scope == scope && before.None? then
              after == if e.at + MINUTE > now then Some(Window(e.at, if Admitted(trace, n - 1) then 1 else 0)) else None
            else if before.Some? && before.value.started + MINUTE > now then
              after == Some(before.value.(count := before.value.count +
                                                   if e.Request? && e.scope == scope && Admitted(trace, n - 1) then 1 else 0))
            else after.None?
  {
    var e, j := trace[n - 1], LastOpening(trace, scope, n - 1);
    if j.Some? {
      assert AdmittedSince(trace, scope, j.value, n) ==
             AdmittedSince(trace, scope, j.value, n - 1)
             + if e.Request? && e.scope == scope && Admitted(trace, n - 1) then 1 else 0;
    }
    assert AdmittedSince(trace, scope, n - 1, n - 1) == 0;
    hide Admitted;
  }

  lemma {:induction false} RowIsOpenWindow(trace: seq<Event>, scope: Scope, n: nat, now: int)
    requires Clocked(trace) && n <= |trace| && forall i :: 0 <= i < n ==> trace[i].at <= now
    ensures Live(Row(After(trace, n), scope), now) == OpenWindow(trace, scope, n, now)
  {
    if n > 0 {
      var e := trace[n - 1];
      RowIsOpenWindow(trace, scope, n - 1, e.at);
      RowAfter(trace, scope, n);
      OpenAfter(trace, scope, n, now);
      hide After;
      hide Row;
      hide Admitted;
      hide OpenWindow;
      hide Clocked;
    }
  }

  /**
   A request is refused exactly when the last window its scope opened is less
   than a minute old and has admitted as many requests as its limit allows;
   other scopes and cleanups play no part.
   */
  lemma AdmittedExactly(trace: seq<Event>, n: nat)
    requires Clocked(trace) && n < |trace| && trace[n].Request?
    ensures var j := LastOpening(trace, trace[n].scope, n);
            Admitted(trace, n) <==>
              || j.None? || trace[n].at >= trace[j.value].at + 60_000_000
              || AdmittedSince(trace, trace[n].scope, j.value, n) < trace[n].limit
  {
    RowIsOpenWindow(trace, trace[n].scope, n, trace[n].at);
  }

  /******* The bound is reached *******/

  /** One request opens the window; L - 1 more come in its last microsecond and L right after it. */
  function Burst(scope: Scope, limit: nat): seq<Event>
    requires limit >= 1
  {
    seq(2 * limit, i requires 0 <= i < 2 * limit =>
      Request(scope, limit, if i == 0 then 0 else if i < limit then MINUTE - 1 else MINUTE))
  }

  lemma {:induction false} BurstRow(scope: Scope, limit: nat, n: nat)
    requires limit >= 1 && n <= 2 * limit
    ensures var row := Row(After(Burst(scope, limit), n), scope);
            row == if n == 0 then None
                   else if n <= limit then Some(Window(0, n))
                   else Some(Window(MINUTE, n - limit))
    ensures AdmittedIn(Burst(scope, limit), scope, MINUTE - 1, n) == if n == 0 then 0 else n - 1
  {
    if n > 0 {
      BurstRow(scope, limit, n - 1);
    }
  }

  lemma BoundIsReached(scope: Scope, limit: nat)
    requires limit >= 1
    ensures var trace := Burst(scope, limit);
            && Clocked(trace) && Limited(trace, scope, limit)
            && AdmittedIn(trace, scope, MINUTE - 1, |trace|) == 2 * limit - 1
  {
    BurstRow(scope, limit, 2 * limit);
  }

  /******* The table in place *******/

  class Limiter {
    var rows: Table

    constructor ()
      ensures rows == map[]
    {
      rows := map[];
    }

    /** `_enforce_rate_limit`; false is the 429, which rolls back. */
    method Enforce(scope: Scope, limit: nat, now: int) returns (admitted: bool)
      modifies this
      ensures rows == Step(old(rows), Request(scope, limit, now))
      ensures admitted == Admit(Row(old(rows), scope), limit, now).1
    {
      if scope !in rows {
        rows := rows[scope := Window(now, 1)];
        return true;
      }
      var item := rows[scope];
      if item.started + MINUTE <= now {
        rows := rows[scope := Window(now, 1)];
        return true;
      }
      if item.count >= limit {
        assert rows == rows[scope := item];
        return false;
      }
      rows := rows[scope := item.(count := item.count + 1)];
      admitted := true;
    }

    method CleanupExpired(now: int)
      modifies this
      ensures rows == Step(old(rows), Cleanup(now))
    {
      rows := map scope | scope in rows && rows[scope].started > now - MINUTE :: rows[scope];
    }
  }
}
