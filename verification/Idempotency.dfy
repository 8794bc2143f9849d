/**
 Keyed idempotency of the management commands. A command runs inside one
 transaction that first sweeps expired rows, then either replays the stored
 reply or runs the action and stores its reply; any exception rolls all of it
 back. What an action does to the rest of the database is an arbitrary function.
 */
module Idempotency {
  import opened Options

  /** IDEMPOTENCY_TTL in seconds. */
  const LIFETIME: int := 86400

  const LAUNCH_TOKEN: string := "_launch_token"

  type SessionId = nat
  type Text = string

  /** What a record is unique by; key and body are stored as hashes, idealised as injective. */
  datatype Scope = Scope(session: SessionId, operation: Text, key: Text)

  datatype Reply = Reply(status: int, body: map<Text, Text>)

  datatype Record = Record(fingerprint: Text, reply: Reply, expiresAt: int)

  datatype State<B> = State(business: B, sessions: map<SessionId, int>, records: map<Scope, Record>)

  /** An action commits a change with its reply, raises, or violates a constraint. */
  datatype ActionResult<B> = Returned(business: B, reply: Reply) | Raised | Violated

  datatype Call<!B> = Call(now: int, session: SessionId, operation: Text, key: Option<Text>, body: Text,
                           action: B -> ActionResult<B>)

  datatype Response = Replied(reply: Reply, replay: bool) | InvalidKey | OtherBody | ActionFailed | Unavailable

  /******* One call *******/

  predicate KeyValid(key: Option<Text>) {
    key.Some? && 8 <= |key.value| <= 128 && forall c :: c in key.value ==> c < 128 as char
  }

  function ScopeOf<B>(call: Call<B>): Scope
    requires call.key.Some?
  {
    Scope(call.session, call.operation, call.key.value)
  }

  /** `_cleanup_expired_locked`: expired records go, and expired sessions take theirs with them. */
  function Cleaned<B>(s: State<B>, now: int): State<B> {
    var sessions := map id | id in s.sessions && s.sessions[id] > now :: s.sessions[id];
    s.(sessions := sessions,
       records := map scope | scope in s.records && s.records[scope].expiresAt > now && scope.session in sessions
                    :: s.records[scope])
  }

  /** What is stored of a reply: everything but the one-time launch token. */
  function Stored(reply: Reply): Reply {
    reply.(body := reply.body - {LAUNCH_TOKEN})
  }

  /** The branch after a constraint violation rolled the transaction back to `s`. */
  function AfterViolation<B>(s: State<B>, call: Call<B>): Response
    requires call.key.Some?
  {
    var scope := ScopeOf(call);
    if scope in s.records && s.records[scope].fingerprint == call.body
    then Replied(s.records[scope].reply, true)
    else Unavailable
  }

  function Answer<B>(s: State<B>, call: Call<B>): (State<B>, Response) {
    if !KeyValid(call.key) then (s, InvalidKey)
    else
      var scope, c := ScopeOf(call), Cleaned(s, call.now);
      if scope in c.records then
        if c.records[scope].fingerprint != call.body then (s, OtherBody)
        else (c, Replied(c.records[scope].reply, true))
      else
        match call.action(c.business)
        case Raised => (s, ActionFailed)
        case Violated => (s, AfterViolation(s, call))
        case Returned(business, reply) =>
          if call.session !in c.sessions then (s, AfterViolation(s, call))  // the record's session is gone
          else (c.(business := business,
                   records := c.records[scope := Record(call.body, Stored(reply), call.now + LIFETIME)]),
                Replied(reply, false))
  }

  /** The only response that comes with a change outside the expiry sweep. */
  predicate Ran(response: Response) {
    response.Replied? && !response.replay
  }

  /** Without a first success nothing but expired rows is touched: no effect, no record, no other body's reply. */
  lemma OnlySuccessWrites<B(!new)>(s: State<B>, call: Call<B>)
    ensures var (s', response) := Answer(s, call);
            && (!Ran(response) ==> s' == s || s' == Cleaned(s, call.now))
            && (response.OtherBody? ==> s' == s)
            && (Ran(response) ==>
                  && call.action(s.business) == Returned(s'.business, response.reply)
                  && ScopeOf(call) in s'.records
                  && s'.records == Cleaned(s, call.now).records[ScopeOf(call) :=
                                     Record(call.body, Stored(response.reply), call.now + LIFETIME)])
  {
  }

  /** A key of 8 to 128 ASCII characters. */
  predicate GoodKey(key: Option<Text>) {
    key.Some? && 8 <= |key.value| <= 128 && forall i :: 0 <= i < |key.value| ==> key.value[i] < '\U{80}'
  }

  /** A record of the scope whose time, and whose session's time, is not over. */
  predicate LiveRecord<B>(s: State<B>, scope: Scope, now: int) {
    && scope in s.records && s.records[scope].expiresAt > now
    && scope.session in s.sessions && s.sessions[scope.session] > now
  }

  /** The sweep keeps exactly the sessions and the records whose time is not over, and nothing of the rest changes. */
  lemma SweepExactly<B>(s: State<B>, now: int)
    ensures var c := Cleaned(s, now);
            && c.business == s.business
            && (forall id :: id in c.sessions <==> id in s.sessions && s.sessions[id] > now)
            && (forall id :: id in c.sessions ==> c.sessions[id] == s.sessions[id])
            && (forall scope :: scope in c.records <==> LiveRecord(s, scope, now))
            && (forall scope :: scope in c.records ==> c.records[scope] == s.records[scope])
  {
  }

  /**
   A command takes effect exactly when its key is good, its session is not
   over, no live record has its scope, and its action returns. Its reply is
   then the action's, the business state is the action's, the reply is stored
   for 24 hours without the launch token, and every other live row stays.
   */
  lemma FirstCallTakesEffect<B(!new)>(s: State<B>, call: Call<B>)
    ensures var (s', response) := Answer(s, call);
            && (response.InvalidKey? <==> !GoodKey(call.key))
            && (Ran(response) <==>
                  && GoodKey(call.key)
                  && call.session in s.sessions && s.sessions[call.session] > call.now
                  && !LiveRecord(s, Scope(call.session, call.operation, call.key.value), call.now)
                  && call.action(s.business).Returned?)
            && (Ran(response) ==>
                  var scope, result := Scope(call.session, call.operation, call.key.value), call.action(s.business);
                  && response == Replied(result.reply, false) && s'.business == result.business
                  && scope in s'.records
                  && s'.records[scope] == Record(call.body, Reply(result.reply.status, result.reply.body - {"_launch_token"}),
                                                 call.now + 86400)
                  && (forall other :: other != scope ==> (other in s'.records <==> LiveRecord(s, other, call.now)))
                  && (forall other :: other in s'.records && other != scope ==> s'.records[other] == s.records[other])
                  && (forall id :: id in s'.sessions <==> id in s.sessions && s.sessions[id] > call.now))
  {
    GoodKeys(call.key);
    SweepExactly(s, call.now);
    hide KeyValid;
    hide GoodKey;
  }

  /**
   What a call that takes no effect is told: a live record of another body is a
   conflict, an exception a failure, and a stored reply is replayed, live or,
   after a constraint violation undid the sweep, expired.
   */
  lemma RefusedExactly<B(!new)>(s: State<B>, call: Call<B>)
    requires GoodKey(call.key) && !Ran(Answer(s, call).1)
    ensures var (scope, response) := (Scope(call.session, call.operation, call.key.value), Answer(s, call).1);
            var live, raised := LiveRecord(s, scope, call.now), call.action(s.business).Raised?;
            && (response.OtherBody? <==> live && s.records[scope].fingerprint != call.body)
            && (response.ActionFailed? <==> !live && raised)
            && (response.Replied? <==> (live || !raised) && scope in s.records && s.records[scope].fingerprint == call.body)
            && (response.Replied? ==> response.reply == s.records[scope].reply)
  {
    GoodKeys(call.key);
    SweepExactly(s, call.now);
    hide KeyValid;
    hide GoodKey;
  }

  lemma GoodKeys(key: Option<Text>)
    ensures KeyValid(key) <==> GoodKey(key)
  {
    if key.Some? {
      assert 128 as char == '\U{80}';
      forall i | 0 <= i < |key.value|
        ensures key.value[i] in key.value
      {
      }
    }
  }

  /******* Traces *******/

  function After<B>(s: State<B>, trace: seq<Call<B>>, n: nat): State<B>
    requires n <= |trace|
  {
    if n == 0 then s else Answer(After(s, trace, n - 1), trace[n - 1]).0
  }

  function ResponseAt<B>(s: State<B>, trace: seq<Call<B>>, i: nat): Response
    requires i < |trace|
  {
    Answer(After(s, trace, i), trace[i]).1
  }

  predicate SameScope<B>(a: Call<B>, b: Call<B>) {
    a.key.Some? && b.key.Some? && ScopeOf(a) == ScopeOf(b)
  }

  /** Some earlier call of the same scope was the first success. */
  predicate Repeated<B>(s: State<B>, trace: seq<Call<B>>, i: nat)
    requires i < |trace|
  {
    exists j :: 0 <= j < i && FirstOf(s, trace, j, i)
  }

  predicate FirstOf<B>(s: State<B>, trace: seq<Call<B>>, j: nat, i: nat)
    requires j < i < |trace|
  {
    SameScope(trace[j], trace[i]) && Ran(ResponseAt(s, trace, j))
  }

  /** The first n calls without those that came after the first success of their scope. */
  function Deduplicated<B>(s: State<B>, trace: seq<Call<B>>, n: nat): (kept: seq<Call<B>>)
    requires n <= |trace|
    ensures |kept| <= n
  {
    if n == 0 then []
    else Deduplicated(s, trace, n - 1) + if Repeated(s, trace, n - 1) then [] else [trace[n - 1]]
  }

  /** Time moves forward. */
  ghost predicate InOrder<B>(trace: seq<Call<B>>) {
    forall i, j :: 0 <= i < j < |trace| ==> trace[i].now <= trace[j].now
  }

  /** Time moves forward, repeats come within the lifetime, and every caller's session is unexpired. */
  ghost predicate Ordinary<B>(s: State<B>, trace: seq<Call<B>>) {
    && InOrder(trace)
    && (forall i, j :: 0 <= i < j < |trace| && SameScope(trace[i], trace[j]) ==> trace[j].now < trace[i].now + LIFETIME)
    && (forall i :: 0 <= i < |trace| ==> SessionValid(s, trace[i].session, trace[i].now))
  }

  predicate SessionValid<B>(s: State<B>, session: SessionId, now: int) {
    session in s.sessions && s.sessions[session] > now
  }

  /** Equal but for rows that have expired by now. */
  ghost predicate Similar<B(!new)>(a: State<B>, b: State<B>, now: int) {
    Cleaned(a, now) == Cleaned(b, now)
  }

  lemma CleanedTwice<B(!new)>(s: State<B>, now: int, later: int)
    requires now <= later
    ensures Cleaned(Cleaned(s, now), later) == Cleaned(s, later)
  {
  }

  lemma SimilarLater<B(!new)>(a: State<B>, b: State<B>, now: int, later: int)
    requires Similar(a, b, now) && now <= later
    ensures Similar(a, b, later)
  {
    CleanedTwice(a, now, later);
    CleanedTwice(b, now, later);
  }

  lemma SweptSimilar<B(!new)>(a: State<B>, a': State<B>, b: State<B>, now: int)
    requires Similar(a, b, now) && (a' == a || a' == Cleaned(a, now))
    ensures Similar(a', b, now)
  {
    CleanedTwice(a, now, now);
  }

  /** The same call leaves similar states similar. */
  lemma AnswerSimilar<B(!new)>(a: State<B>, b: State<B>, call: Call<B>)
    requires Similar(a, b, call.now)
    ensures Similar(Answer(a, call).0, Answer(b, call).0, call.now)
  {
    CleanedTwice(a, call.now, call.now);
    CleanedTwice(b, call.now, call.now);
    assert Cleaned(a, call.now).business == a.business && Cleaned(b, call.now).business == b.business;
  }

  /** The first success's record is alive. */
  ghost predicate Remembered<B(!new)>(s: State<B>, first: Call<B>, reply: Reply, now: int)
    requires first.key.Some?
  {
    && ScopeOf(first) in Cleaned(s, now).records
    && Cleaned(s, now).records[ScopeOf(first)] == Record(first.body, Stored(reply), first.now + LIFETIME)
  }

  /** A repeat replays the stored reply, or, with another body, changes nothing at all. */
  lemma RepeatReplays<B(!new)>(s: State<B>, first: Call<B>, reply: Reply, call: Call<B>)
    requires KeyValid(first.key) && SameScope(first, call) && Remembered(s, first, reply, call.now)
    ensures Answer(s, call) == if call.body == first.body then (Cleaned(s, call.now), Replied(Stored(reply), true))
                               else (s, OtherBody)
  {
  }

  /** No call forgets a record before its time. */
  lemma StaysRemembered<B(!new)>(s: State<B>, first: Call<B>, reply: Reply, call: Call<B>, now: int)
    requires KeyValid(first.key) && Remembered(s, first, reply, call.now) && call.now <= now < first.now + LIFETIME
    requires SessionValid(s, first.session, now)
    ensures Remembered(Answer(s, call).0, first, reply, now)
  {
  }

  lemma {:induction false} SessionsStay<B(!new)>(s: State<B>, trace: seq<Call<B>>, n: nat, session: SessionId, now: int)
    requires n <= |trace| && SessionValid(s, session, now)
    requires forall i :: 0 <= i < n ==> trace[i].now <= now
    ensures SessionValid(After(s, trace, n), session, now)
  {
    if n > 0 {
      SessionsStay(s, trace, n - 1, session, now);
      OnlySuccessWrites(After(s, trace, n - 1), trace[n - 1]);
    }
  }

  lemma {:induction false} RememberedThrough<B(!new)>(s: State<B>, trace: seq<Call<B>>, j: nat, n: nat, now: int)
    requires InOrder(trace) && j < n <= |trace| && Ran(ResponseAt(s, trace, j))
    requires forall i :: 0 <= i < n ==> trace[i].now <= now
    requires now < trace[j].now + LIFETIME && SessionValid(s, trace[j].session, now)
    ensures KeyValid(trace[j].key)
    ensures Remembered(After(s, trace, n), trace[j], ResponseAt(s, trace, j).reply, now)
  {
    var here, call := After(s, trace, n - 1), trace[n - 1];
    SessionsStay(s, trace, n - 1, trace[j].session, now);
    if n == j + 1 {
      OnlySuccessWrites(here, call);
    } else {
      RememberedThrough(s, trace, j, n - 1, call.now);
      StaysRemembered(here, trace[j], ResponseAt(s, trace, j).reply, call, now);
    }
  }

  /**
   Once a command has succeeded, every later call with the same key in its
   lifetime gets the stored reply if its body is the same, and otherwise a
   conflict; in neither case does anything change beyond the expiry sweep.
   */
  lemma RepeatsChangeNothing<B(!new)>(s: State<B>, trace: seq<Call<B>>, j: nat, i: nat)
    requires InOrder(trace) && j < i < |trace| && FirstOf(s, trace, j, i)
    requires trace[i].now < trace[j].now + LIFETIME && SessionValid(s, trace[i].session, trace[i].now)
    ensures ResponseAt(s, trace, i) == if trace[i].body == trace[j].body
                                       then Replied(Stored(ResponseAt(s, trace, j).reply), true) else OtherBody
    ensures var here, after := After(s, trace, i), After(s, trace, i + 1);
            after == here || after == Cleaned(here, trace[i].now)
  {
    RememberedThrough(s, trace, j, i, trace[i].now);
    RepeatReplays(After(s, trace, i), trace[j], ResponseAt(s, trace, j).reply, trace[i]);
  }

  lemma {:induction false} AfterPrefix<B(!new)>(s: State<B>, trace: seq<Call<B>>, before: seq<Call<B>>, n: nat)
    requires n <= |before| <= |trace| && before == trace[..|before|]
    ensures After(s, trace, n) == After(s, before, n)
  {
    if n > 0 {
      AfterPrefix(s, trace, before, n - 1);
    }
  }

  lemma {:induction false} DeduplicationSimilar<B(!new)>(s: State<B>, trace: seq<Call<B>>, n: nat, now: int)
    requires Ordinary(s, trace) && n <= |trace| && forall i :: 0 <= i < n ==> trace[i].now <= now
    ensures var kept := Deduplicated(s, trace, n);
            Similar(After(s, trace, n), After(s, kept, |kept|), now)
  {
    hide Answer;
    hide Cleaned;
    if n > 0 {
      var here, call := After(s, trace, n - 1), trace[n - 1];
      var before, kept := Deduplicated(s, trace, n - 1), Deduplicated(s, trace, n);
      var there := After(s, before, |before|);
      DeduplicationSimilar(s, trace, n - 1, call.now);
      if Repeated(s, trace, n - 1) {
        var j :| 0 <= j < n - 1 && FirstOf(s, trace, j, n - 1);
        RepeatsChangeNothing(s, trace, j, n - 1);
        SweptSimilar(here, After(s, trace, n), there, call.now);
        assert kept == before;
      } else {
        AnswerSimilar(here, there, call);
        AfterPrefix(s, kept, before, |before|);
      }
      SimilarLater(After(s, trace, n), After(s, kept, |kept|), call.now, now);
    }
  }

  /**
   Exactly once: the database after a trace equals, up to rows that have
   expired by then, the database after the trace without any call that repeats
   an already successful one.
   */
  lemma ExactlyOnce<B(!new)>(s: State<B>, trace: seq<Call<B>>, now: int)
    requires Ordinary(s, trace) && forall call :: call in trace ==> call.now <= now
    ensures var kept := Deduplicated(s, trace, |trace|);
            var full, once := After(s, trace, |trace|), After(s, kept, |kept|);
            full.business == once.business && Similar(full, once, now)
  {
    DeduplicationSimilar(s, trace, |trace|, now);
    var kept := Deduplicated(s, trace, |trace|);
    assert Cleaned(After(s, trace, |trace|), now).business == Cleaned(After(s, kept, |kept|), now).business;
  }

  /** A record in the database was there at the start or is that of a call that took effect. */
  lemma {:induction false} RecordOrigin<B(!new)>(s: State<B>, trace: seq<Call<B>>, n: nat, scope: Scope)
    requires n <= |trace| && scope in After(s, trace, n).records
    ensures || (scope in s.records && After(s, trace, n).records[scope] == s.records[scope])
            || exists j :: (0 <= j < n && RanFor(s, trace, j, scope)
                           && After(s, trace, n).records[scope].expiresAt <= trace[j].now + LIFETIME)
  {
    if n > 0 {
      var here, call := After(s, trace, n - 1), trace[n - 1];
      OnlySuccessWrites(here, call);
      if Ran(ResponseAt(s, trace, n - 1)) && ScopeOf(call) == scope {
        assert RanFor(s, trace, n - 1, scope);
      } else {
        assert scope in here.records && After(s, trace, n).records[scope] == here.records[scope];
        RecordOrigin(s, trace, n - 1, scope);
      }
    }
  }

  predicate RanFor<B>(s: State<B>, trace: seq<Call<B>>, j: nat, scope: Scope)
    requires j < |trace|
  {
    Ran(ResponseAt(s, trace, j)) && trace[j].key.Some? && ScopeOf(trace[j]) == scope
  }

  /** A call of the same scope took effect in the 24 hours before. */
  predicate RanRecently<B>(s: State<B>, trace: seq<Call<B>>, i: nat)
    requires i < |trace|
  {
    exists j :: 0 <= j < i && FirstOf(s, trace, j, i) && trace[i].now < trace[j].now + 86400
  }

  /**
   In a trace that starts without a live record of its scope a call takes
   effect exactly when its key is good, its session has not expired, its action
   returns on the business state it meets, and no call of its scope has taken
   effect in the 24 hours before. So a first call runs, and so does one that
   comes after its record's lifetime.
   */
  lemma TakesEffectExactly<B(!new)>(s: State<B>, trace: seq<Call<B>>, i: nat)
    requires InOrder(trace) && i < |trace|
    requires trace[i].key.Some? ==> !LiveRecord(s, ScopeOf(trace[i]), trace[i].now)
    ensures Ran(ResponseAt(s, trace, i)) <==>
            && GoodKey(trace[i].key)
            && SessionValid(s, trace[i].session, trace[i].now)
            && trace[i].action(After(s, trace, i).business).Returned?
            && !RanRecently(s, trace, i)
  {
    var here, call := After(s, trace, i), trace[i];
    FirstCallTakesEffect(here, call);
    SessionsOnlyGo(s, trace, i);
    hide Answer;
    hide GoodKey;
    hide KeyValid;
    if SessionValid(s, call.session, call.now) {
      SessionsStay(s, trace, i, call.session, call.now);
      if call.key.Some? && LiveRecord(here, ScopeOf(call), call.now) {
        LiveIsRecent(s, trace, i);
      }
      if RanRecently(s, trace, i) {
        var j :| 0 <= j < i && FirstOf(s, trace, j, i) && call.now < trace[j].now + 86400;
        RepeatsChangeNothing(s, trace, j, i);
      }
    }
  }

  lemma {:induction false} SessionsOnlyGo<B(!new)>(s: State<B>, trace: seq<Call<B>>, n: nat)
    requires n <= |trace|
    ensures forall id :: id in After(s, trace, n).sessions ==>
                           id in s.sessions && After(s, trace, n).sessions[id] == s.sessions[id]
  {
    if n > 0 {
      SessionsOnlyGo(s, trace, n - 1);
      SweepExactly(After(s, trace, n - 1), trace[n - 1].now);
    }
  }

  /** A live record that was not there at the start is that of a recent call. */
  lemma LiveIsRecent<B(!new)>(s: State<B>, trace: seq<Call<B>>, i: nat)
    requires InOrder(trace) && i < |trace| && trace[i].key.Some?
    requires SessionValid(s, trace[i].session, trace[i].now)
    requires !LiveRecord(s, ScopeOf(trace[i]), trace[i].now)
    requires LiveRecord(After(s, trace, i), ScopeOf(trace[i]), trace[i].now)
    ensures RanRecently(s, trace, i)
  {
    var scope := ScopeOf(trace[i]);
    RecordOrigin(s, trace, i, scope);
    var j :| 0 <= j < i && RanFor(s, trace, j, scope) && After(s, trace, i).records[scope].expiresAt <= trace[j].now + LIFETIME;
    assert FirstOf(s, trace, j, i);
  }

  /** No key succeeds twice. */
  lemma SucceedsOnce<B(!new)>(s: State<B>, trace: seq<Call<B>>, j: nat, i: nat)
    requires Ordinary(s, trace) && j < i < |trace| && SameScope(trace[j], trace[i])
    ensures !(Ran(ResponseAt(s, trace, j)) && Ran(ResponseAt(s, trace, i)))
  {
    if Ran(ResponseAt(s, trace, j)) {
      RepeatsChangeNothing(s, trace, j, i);
    }
  }

  /** The launch token leaves the service in the first reply only. */
  lemma TokenNeverReplayed<B(!new)>(s: State<B>, trace: seq<Call<B>>, j: nat, i: nat)
    requires Ordinary(s, trace) && j < i < |trace| && FirstOf(s, trace, j, i)
    ensures ResponseAt(s, trace, i).Replied? ==> LAUNCH_TOKEN !in ResponseAt(s, trace, i).reply.body
  {
    RepeatsChangeNothing(s, trace, j, i);
  }

  /******* The rows in place *******/

  class ControlPlane<B(==)> {
    var business: B
    var sessions: map<SessionId, int>
    var records: map<Scope, Record>

    function Rows(): State<B>
      reads this
    {
      State(business, sessions, records)
    }

    constructor (business: B, sessions: map<SessionId, int>)
      ensures Rows() == State(business, sessions, map[])
    {
      this.business, this.sessions, this.records := business, sessions, map[];
    }

    method CleanupExpired(now: int)
      modifies this
      ensures Rows() == Cleaned(old(Rows()), now) && business == old(business)
      ensures forall id :: id in sessions <==> id in old(sessions) && old(sessions)[id] > now
      ensures forall scope :: scope in records <==> LiveRecord(old(Rows()), scope, now)
    {
      SweepExactly(Rows(), now);
      records := map scope | scope in records && records[scope].expiresAt > now :: records[scope];
      sessions := map id | id in sessions && sessions[id] > now :: sessions[id];
      records := map scope | scope in records && scope.session in sessions :: records[scope];  // cascade
    }

    method Rollback(rows: State<B>)
      modifies this
      ensures Rows() == rows
    {
      business, sessions, records := rows.business, rows.sessions, rows.records;
    }

    method Idempotent(call: Call<B>) returns (response: Response)
      modifies this
      ensures (Rows(), response) == Answer(old(Rows()), call)
    {
      if !KeyValid(call.key) {
        return InvalidKey;
      }
      var before := Rows();
      var scope := Scope(call.session, call.operation, call.key.value);
      CleanupExpired(call.now);
      if scope in records {
        var existing := records[scope];
        if existing.fingerprint != call.body {
          Rollback(before);
          return OtherBody;
        }
        return Replied(existing.reply, true);
      }
      var result := call.action(business);
      if result.Raised? {
        Rollback(before);
        return ActionFailed;
      }
      if result.Returned? && call.session in sessions {
        business := result.business;
        records := records[scope := Record(call.body, Stored(result.reply), call.now + LIFETIME)];
        return Replied(result.reply, false);
      }
      Rollback(before);
      if scope in records && records[scope].fingerprint == call.body {
        return Replied(records[scope].reply, true);
      }
      response := Unavailable;
    }
  }
}
