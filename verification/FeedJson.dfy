/**
 The bounded catalog of candidate codes seen in feed JSON: a queue of at most
 32 pending codes, a memory of at most 64 known ones, and a stack loop that
 walks one JSON document.
 */
module FeedJson {
  import opened Options
  import opened Texts

  const MAX_CODES: nat := 32
  const MAX_KNOWN_CODES: nat := 64
  const MAX_VISITED: nat := 20000

  type Code = string

  /** Object keys; only three of them matter. */
  datatype Name = CodeName | ShortcodeName | MediaCodeName | OtherName(text: string)

  /** A parsed document; an object keeps its keys and values in order. */
  datatype Json = Text(text: string) | Scalar | List(items: seq<Json>) | Object(keys: seq<Name>, values: seq<Json>)

  predicate IsShortcode(code: Code) {
    1 <= |code| <= 64 && forall c :: c in code ==>
      'A' <= c <= 'Z' || 'a' <= c <= 'z' || '0' <= c <= '9' || c == '_' || c == '-'
  }

  /******* The recursive walk *******/

  function Children(v: Json): seq<Json> {
    if v.List? then v.items else if v.Object? then v.values else []
  }

  /** Every node of the document, each before its children and those from first to last. */
  function PreOrder(v: Json): (nodes: seq<Json>)
    ensures |nodes| > 0
    decreases v, 0
  {
    match v
    case Text(_) => [v]
    case Scalar => [v]
    case List(items) => [v] + PreOrderAll(items)
    case Object(_, values) => [v] + PreOrderAll(values)
  }

  function PreOrderAll(vs: seq<Json>): seq<Json>
    decreases vs, 1
  {
    if vs == [] then [] else PreOrder(vs[0]) + PreOrderAll(vs[1..])
  }

  function Get(keys: seq<Name>, values: seq<Json>, key: Name): Option<Json> {
    if keys == [] || values == [] then None
    else if keys[0] == key then Some(values[0])
    else Get(keys[1..], values[1..], key)
  }

  /** The value found is that of the first occurrence of the key, and nothing is found exactly when there is none. */
  lemma {:induction false} GetExactly(keys: seq<Name>, values: seq<Json>, key: Name)
    requires |keys| == |values|
    ensures Get(keys, values, key).None? <==> key !in keys
    ensures forall i :: 0 <= i < |keys| && keys[i] == key && key !in keys[..i] ==> Get(keys, values, key) == Some(values[i])
  {
    if keys != [] && keys[0] != key {
      GetExactly(keys[1..], values[1..], key);
      forall i | 0 <= i < |keys| && keys[i] == key && key !in keys[..i]
        ensures Get(keys, values, key) == Some(values[i])
      {
        assert keys[1..][i - 1] == key && keys[1..][..i - 1] == keys[..i][1..];
      }
    } else if keys != [] {
      forall i | 0 < i < |keys|
        ensures key in keys[..i]
      {
        assert keys[..i][0] == key;
      }
    }
  }

  function CodeAt(v: Json, key: Name): seq<Code>
    requires v.Object?
  {
    var value := Get(v.keys, v.values, key);
    if value.Some? && value.value.Text? && IsShortcode(value.value.text) then [value.value.text] else []
  }

  /** The codes one node offers, in the order the keys are looked at. */
  function CodesOf(v: Json): seq<Code> {
    if v.Object? then CodeAt(v, CodeName) + CodeAt(v, ShortcodeName) + CodeAt(v, MediaCodeName) else []
  }

  /** 1 to 64 letters, digits, underscores and hyphens. */
  predicate CanonicalId(code: Code) {
    0 < |code| <= 64 && forall i :: 0 <= i < |code| ==>
      'a' <= code[i] <= 'z' || 'A' <= code[i] <= 'Z' || '0' <= code[i] <= '9' || code[i] in ['_', '-']
  }

  lemma ShortcodeIsCanonical(code: Code)
    ensures IsShortcode(code) <==> CanonicalId(code)
  {
    forall i | 0 <= i < |code|
      ensures code[i] in code
    {
    }
  }

  /** A node offers exactly the canonical ids that are the text of one of its three keys. */
  lemma OffersExactly(v: Json, code: Code)
    requires v.Object? && |v.keys| == |v.values|
    ensures code in CodesOf(v) <==>
            && CanonicalId(code)
            && (|| Get(v.keys, v.values, CodeName) == Some(Text(code))
                || Get(v.keys, v.values, ShortcodeName) == Some(Text(code))
                || Get(v.keys, v.values, MediaCodeName) == Some(Text(code)))
  {
    ShortcodeIsCanonical(code);
    hide CanonicalId;
    hide IsShortcode;
    hide Get;
  }

  function CodesIn(nodes: seq<Json>): seq<Code> {
    if nodes == [] then [] else CodesIn(nodes[..|nodes| - 1]) + CodesOf(nodes[|nodes| - 1])
  }

  /** The nodes a walk cut at 20,000 nodes visits. */
  function Visited(payload: Json): seq<Json> {
    var nodes := PreOrder(payload);
    if |nodes| <= MAX_VISITED then nodes else nodes[..MAX_VISITED]
  }

  /******* The catalog *******/

  datatype Pending = Pending(observation: nat, code: Code)

  datatype Catalog = Catalog(queue: seq<Pending>, known: set<Code>, order: seq<Code>)

  const EMPTY := Catalog([], {}, [])

  function Remembered(c: Catalog, code: Code): Catalog {
    if code in c.known then c
    else if |c.order| < MAX_KNOWN_CODES then c.(known := c.known + {code}, order := c.order + [code])
    else
      var order := c.order + [code];
      c.(known := (c.known + {code}) - {order[0]}, order := order[1..])
  }

  function Pushed(queue: seq<Pending>, entry: Pending): seq<Pending> {
    if |queue| < MAX_CODES then queue + [entry] else (queue + [entry])[1..]
  }

  /** One candidate code: ignored when known, otherwise remembered and queued. */
  function Offered(c: Catalog, code: Code, observation: nat): Catalog {
    if code in c.known then c
    else Remembered(c, code).(queue := Pushed(c.queue, Pending(observation, code)))
  }

  function OfferedAll(c: Catalog, codes: seq<Code>, observation: nat): Catalog {
    if codes == [] then c
    else Offered(OfferedAll(c, codes[..|codes| - 1], observation), codes[|codes| - 1], observation)
  }

  function Without(queue: seq<Pending>, code: Code): seq<Pending> {
    if queue == [] then []
    else Without(queue[..|queue| - 1], code) + if queue[|queue| - 1].code == code then [] else [queue[|queue| - 1]]
  }

  function Used(c: Catalog, code: Code): Catalog {
    if !IsShortcode(code) then c else Remembered(c, code).(queue := Without(c.queue, code))
  }

  /** The three ways a candidate is taken. */
  datatype Filter = AfterObservation(previous: Code, observation: nat) | Current(previous: Code) | Embedded(previous: Code)

  predicate Eligible(f: Filter, p: Pending) {
    && p.code != f.previous
    && (f.AfterObservation? ==> p.observation > f.observation)
    && (f.Embedded? ==> p.observation == 0)
  }

  /** Why an entry is not taken. */
  predicate PassedOver(f: Filter, p: Pending) {
    || p.code == f.previous
    || (f.AfterObservation? && p.observation <= f.observation)
    || (f.Embedded? && p.observation > 0)
  }

  /** The first eligible entry, if any. */
  predicate FirstEligible(queue: seq<Pending>, f: Filter, i: nat) {
    && i < |queue| && Eligible(f, queue[i])
    && forall j :: 0 <= j < i ==> !Eligible(f, queue[j])
  }

  /******* Bounds *******/

  ghost predicate Bounded(c: Catalog) {
    && |c.queue| <= MAX_CODES
    && |c.order| <= MAX_KNOWN_CODES
    && (forall code :: code in c.known <==> code in c.order)
    && (forall i, j :: 0 <= i < j < |c.order| ==> c.order[i] != c.order[j])
  }

  lemma RememberedBounded(c: Catalog, code: Code)
    requires Bounded(c)
    ensures Bounded(Remembered(c, code)) && code in Remembered(c, code).known
    ensures Remembered(c, code).queue == c.queue
  {
    if code !in c.known && |c.order| >= MAX_KNOWN_CODES {
      var order := c.order + [code];
      assert forall i, j :: 0 <= i < j < |order| ==> order[i] != order[j];
      forall x
        ensures x in Remembered(c, code).known <==> x in order[1..]
      {
        if x in order && x != order[0] {
          var i :| 0 <= i < |order| && order[i] == x;
          assert order[1..][i - 1] == x;
        }
      }
    }
  }

  lemma OfferedBounded(c: Catalog, code: Code, observation: nat)
    requires Bounded(c)
    ensures Bounded(Offered(c, code, observation)) && code in Offered(c, code, observation).known
  {
    RememberedBounded(c, code);
  }

  lemma {:induction false} OfferedAllBounded(c: Catalog, codes: seq<Code>, observation: nat)
    requires Bounded(c)
    ensures Bounded(OfferedAll(c, codes, observation))
  {
    if codes != [] {
      OfferedAllBounded(c, codes[..|codes| - 1], observation);
      OfferedBounded(OfferedAll(c, codes[..|codes| - 1], observation), codes[|codes| - 1], observation);
    }
  }

  lemma {:induction false} WithoutRemoves(queue: seq<Pending>, code: Code)
    ensures |Without(queue, code)| <= |queue|
    ensures forall p :: p in Without(queue, code) <==> p in queue && p.code != code
  {
    if queue != [] {
      WithoutRemoves(queue[..|queue| - 1], code);
      assert queue == queue[..|queue| - 1] + [queue[|queue| - 1]];
    }
  }

  lemma UsedBounded(c: Catalog, code: Code)
    requires Bounded(c)
    ensures Bounded(Used(c, code))
    ensures IsShortcode(code) ==> code in Used(c, code).known && !InQueue(Used(c, code), code)
  {
    RememberedBounded(c, code);
    WithoutRemoves(c.queue, code);
  }

  predicate InQueue(c: Catalog, code: Code) {
    exists p :: p in c.queue && p.code == code
  }

  /******* A used code does not come back *******/

  /** Everything that happens to the catalog, one code at a time. */
  datatype Event =
    | Offer(code: Code, observation: nat)
    | Use(code: Code)
    | Take(index: nat)
    | Reset

  function Step(c: Catalog, e: Event): Catalog {
    match e
    case Offer(code, observation) => Offered(c, code, observation)
    case Use(code) => Used(c, code)
    case Take(i) => if i < |c.queue| then c.(queue := c.queue[..i] + c.queue[i + 1..]) else c
    case Reset => c.(queue := [])
  }

  function After(c: Catalog, events: seq<Event>, n: nat): Catalog
    requires n <= |events|
  {
    if n == 0 then c else Step(After(c, events, n - 1), events[n - 1])
  }

  lemma {:induction false} AfterBounded(events: seq<Event>, n: nat)
    requires n <= |events|
    ensures Bounded(After(EMPTY, events, n))
    ensures |After(EMPTY, events, n).queue| <= 32 && |After(EMPTY, events, n).order| <= 64
  {
    if n > 0 {
      AfterBounded(events, n - 1);
      var c, e := After(EMPTY, events, n - 1), events[n - 1];
      if e.Offer? {
        OfferedBounded(c, e.code, e.observation);
      } else if e.Use? {
        UsedBounded(c, e.code);
      }
    }
  }

  lemma StepKeepsOut(c: Catalog, e: Event, code: Code)
    requires Bounded(c) && code in c.known && !InQueue(c, code)
    ensures !InQueue(Step(c, e), code)
  {
    var c' := Step(c, e);
    if e.Use? {
      WithoutRemoves(c.queue, e.code);
    }
    forall p | p in c'.queue
      ensures p.code != code
    {
      if e.Offer? && p !in c.queue {
        assert p == Pending(e.observation, e.code);
      }
    }
  }

  /** After a code is used, no candidate with that code is pending for as long as the memory holds it. */
  lemma {:induction false} UsedStaysOut(c: Catalog, code: Code, events: seq<Event>, n: nat)
    requires Bounded(c) && IsShortcode(code) && n <= |events|
    requires forall i :: 0 <= i < n ==> code in After(Used(c, code), events, i).known
    ensures Bounded(After(Used(c, code), events, n)) && !InQueue(After(Used(c, code), events, n), code)
  {
    UsedBounded(c, code);
    if n > 0 {
      UsedStaysOut(c, code, events, n - 1);
      var before, e := After(Used(c, code), events, n - 1), events[n - 1];
      StepKeepsOut(before, e, code);
      if e.Offer? {
        OfferedBounded(before, e.code, e.observation);
      } else if e.Use? {
        UsedBounded(before, e.code);
      }
    }
  }

  /******* First in, first out *******/

  /** The candidates that were queued, in the order of their arrival. */
  function Admitted(c: Catalog, events: seq<Event>, n: nat): seq<Pending>
    requires n <= |events|
  {
    if n == 0 then []
    else
      var e := events[n - 1];
      Admitted(c, events, n - 1) +
      if e.Offer? && e.code !in After(c, events, n - 1).known then [Pending(e.observation, e.code)] else []
  }

  /** The positions f pick a out of b, from front to back. */
  ghost predicate Picks(f: seq<nat>, a: seq<Pending>, b: seq<Pending>) {
    && |f| == |a|
    && (forall i, j :: 0 <= i < j < |f| ==> f[i] < f[j])
    && (forall i :: 0 <= i < |f| ==> f[i] < |b| && a[i] == b[f[i]])
  }

  ghost predicate Subsequence(a: seq<Pending>, b: seq<Pending>) {
    exists f :: Picks(f, a, b)
  }

  lemma SubsequenceTransitive(a: seq<Pending>, b: seq<Pending>, c: seq<Pending>)
    requires Subsequence(a, b) && Subsequence(b, c)
    ensures Subsequence(a, c)
  {
    var f :| Picks(f, a, b);
    var g :| Picks(g, b, c);
    assert Picks(seq(|f|, i requires 0 <= i < |f| => g[f[i]]), a, c);
  }

  lemma SubsequenceExtended(a: seq<Pending>, b: seq<Pending>, more: seq<Pending>)
    requires Subsequence(a, b)
    ensures Subsequence(a, b + more) && Subsequence(a + more, b + more)
  {
    var f :| Picks(f, a, b);
    assert Picks(f, a, b + more);
    assert Picks(f + seq(|more|, i => |b| + i), a + more, b + more);
  }

  /** Leaving out one entry. */
  lemma OneOut(a: seq<Pending>, k: nat)
    requires k < |a|
    ensures Subsequence(a[..k] + a[k + 1..], a)
  {
    assert Picks(seq(|a| - 1, i => if i < k then i else i + 1), a[..k] + a[k + 1..], a);
  }

  lemma {:induction false} WithoutInOrder(queue: seq<Pending>, code: Code)
    ensures Subsequence(Without(queue, code), queue)
  {
    if queue == [] {
      assert Picks([], [], queue);
    } else {
      var front, last := queue[..|queue| - 1], [queue[|queue| - 1]];
      WithoutInOrder(front, code);
      SubsequenceExtended(Without(front, code), front, last);
      assert queue == front + last;
      assert Without(front, code) + [] == Without(front, code);
    }
  }

  lemma StepInOrder(c: Catalog, e: Event)
    ensures Subsequence(Step(c, e).queue, c.queue + if e.Offer? && e.code !in c.known then [Pending(e.observation, e.code)] else [])
  {
    var queue := c.queue;
    assert Picks(seq(|queue|, i => i), queue, queue);
    assert queue + [] == queue;
    if e.Use? {
      WithoutInOrder(queue, e.code);
    } else if e.Take? && e.index < |queue| {
      OneOut(queue, e.index);
    } else if e.Reset? {
      assert Picks([], [], queue);
    } else if e.Offer? && e.code !in c.known {
      var all := queue + [Pending(e.observation, e.code)];
      assert Picks(seq(|all|, i => i), all, all);
      OneOut(all, 0);
      assert all[..0] + all[1..] == all[1..];
    }
  }

  /**
   What is pending is in the order of its arrival, whatever was taken, used,
   dropped or reset in between, and no arrival is pending twice.
   */
  lemma {:induction false} PendingInOrder(c: Catalog, events: seq<Event>, n: nat)
    requires n <= |events|
    ensures Subsequence(After(c, events, n).queue, c.queue + Admitted(c, events, n))
  {
    if n == 0 {
      assert Picks(seq(|c.queue|, i => i), c.queue, c.queue + []);
    } else {
      var before, e := After(c, events, n - 1), events[n - 1];
      var more := if e.Offer? && e.code !in before.known then [Pending(e.observation, e.code)] else [];
      PendingInOrder(c, events, n - 1);
      StepInOrder(before, e);
      SubsequenceExtended(before.queue, c.queue + Admitted(c, events, n - 1), more);
      SubsequenceTransitive(After(c, events, n).queue, before.queue + more, c.queue + Admitted(c, events, n - 1) + more);
      assert c.queue + Admitted(c, events, n) == c.queue + Admitted(c, events, n - 1) + more;
    }
  }

  /** The newest 32 of a list. */
  function Newest(all: seq<Pending>): seq<Pending> {
    all[if |all| <= 32 then 0 else |all| - 32..]
  }

  /** As long as candidates only arrive, the newest 32 of all of them are pending: the oldest make room. */
  lemma {:induction false} OldestMakeRoom(c: Catalog, events: seq<Event>, n: nat)
    requires Bounded(c) && n <= |events| && forall i :: 0 <= i < n ==> events[i].Offer?
    ensures After(c, events, n).queue == Newest(c.queue + Admitted(c, events, n))
  {
    if n == 0 {
      assert c.queue + [] == c.queue;
    } else {
      var before, e := After(c, events, n - 1), events[n - 1];
      OldestMakeRoom(c, events, n - 1);
      var all := c.queue + Admitted(c, events, n - 1);
      var more := if e.code !in before.known then [Pending(e.observation, e.code)] else [];
      OfferPushes(c, events, n);
      assert c.queue + Admitted(c, events, n) == all + more;
      if more != [] {
        PushedNewest(all, more[0]);
      }
      hide After;
      hide Admitted;
      hide Newest;
      hide Pushed;
      hide Bounded;
    }
  }

  lemma OfferPushes(c: Catalog, events: seq<Event>, n: nat)
    requires 0 < n <= |events| && events[n - 1].Offer?
    ensures var (before, after, e) := (After(c, events, n - 1), After(c, events, n), events[n - 1]);
            if e.code in before.known then after.queue == before.queue && Admitted(c, events, n) == Admitted(c, events, n - 1)
            else
              && after.queue == Pushed(before.queue, Pending(e.observation, e.code))
              && Admitted(c, events, n) == Admitted(c, events, n - 1) + [Pending(e.observation, e.code)]
  {
    assert Admitted(c, events, n - 1) + [] == Admitted(c, events, n - 1);
  }

  lemma PushedNewest(all: seq<Pending>, entry: Pending)
    ensures Pushed(Newest(all), entry) == Newest(all + [entry])
  {
  }

  /******* What a checkpoint tells *******/

  /** What reaches the source from outside. */
  datatype Arrival =
    | Graphql(payload: Json)
    | EmbeddedScripts(candidates: seq<Option<Code>>)
    | Marked(code: Code)
    | Reserved(index: nat)

  function EmbeddedCodes(payload: seq<Option<Code>>, n: nat): seq<Code>
    requires n <= |payload|
  {
    if n == 0 then []
    else
      EmbeddedCodes(payload, n - 1) +
      if payload[n - 1].Some? && IsShortcode(payload[n - 1].value) then [payload[n - 1].value] else []
  }

  function FirstCandidates(payload: seq<Option<Code>>): seq<Code> {
    EmbeddedCodes(payload, if |payload| < MAX_CODES then |payload| else MAX_CODES)
  }

  /** The GraphQL responses among the first n arrivals. */
  function Responses(arrivals: seq<Arrival>, n: nat): nat
    requires n <= |arrivals|
  {
    if n == 0 then 0 else Responses(arrivals, n - 1) + if arrivals[n - 1].Graphql? then 1 else 0
  }

  /** The catalog after n arrivals on a source whose count was `observation`. */
  function Through(c: Catalog, observation: nat, arrivals: seq<Arrival>, n: nat): Catalog
    requires n <= |arrivals|
  {
    if n == 0 then c
    else
      var before := Through(c, observation, arrivals, n - 1);
      match arrivals[n - 1]
      case Graphql(payload) =>
        OfferedAll(before, CodesIn(Visited(payload)), observation + Responses(arrivals, n))
      case EmbeddedScripts(candidates) => OfferedAll(before, FirstCandidates(candidates), 0)
      case Marked(code) => Step(before, Use(code))
      case Reserved(index) => Step(before, Take(index))
  }

  /** A pending candidate that the (observation)-th response after the checkpoint brought. */
  predicate Brought(arrivals: seq<Arrival>, n: nat, count: nat, p: Pending)
    requires n <= |arrivals|
  {
    exists i :: 0 <= i < n && BroughtBy(arrivals, i, count, p)
  }

  predicate BroughtBy(arrivals: seq<Arrival>, i: nat, count: nat, p: Pending)
    requires i < |arrivals|
  {
    && arrivals[i].Graphql? && p.code in CodesIn(Visited(arrivals[i].payload))
    && p.observation == count + Responses(arrivals, i + 1)
  }

  lemma {:induction false} OfferedFrom(c: Catalog, codes: seq<Code>, observation: nat, p: Pending)
    requires p in OfferedAll(c, codes, observation).queue
    ensures p in c.queue || (p.observation == observation && p.code in codes)
  {
    if codes != [] {
      var front, last := codes[..|codes| - 1], codes[|codes| - 1];
      if p !in OfferedAll(c, front, observation).queue {
        assert p == Pending(observation, last);
      } else {
        OfferedFrom(c, front, observation, p);
      }
    }
  }

  /**
   At a checkpoint the count is at least every pending candidate's. A candidate
   that is pending later with a higher one was brought by a GraphQL response
   that arrived after the checkpoint, so it was not pending at the checkpoint.
   */
  lemma {:induction false} LaterIsNew(c: Catalog, count: nat, arrivals: seq<Arrival>, n: nat, p: Pending)
    requires n <= |arrivals| && p in Through(c, count, arrivals, n).queue
    requires forall q :: q in c.queue ==> q.observation <= count
    ensures p.observation <= count + Responses(arrivals, n)
    ensures p.observation > count ==> p !in c.queue && Brought(arrivals, n, count, p)
  {
    if n > 0 {
      ArrivalFrom(c, count, arrivals, n, p);
      if p in Through(c, count, arrivals, n - 1).queue {
        hide Through;
        LaterIsNew(c, count, arrivals, n - 1, p);
      }
    }
  }

  /** Where a pending candidate was before the last arrival. */
  lemma ArrivalFrom(c: Catalog, count: nat, arrivals: seq<Arrival>, n: nat, p: Pending)
    requires 0 < n <= |arrivals| && p in Through(c, count, arrivals, n).queue
    ensures || p in Through(c, count, arrivals, n - 1).queue
            || BroughtBy(arrivals, n - 1, count, p)
            || p.observation == 0
  {
    hide Visited;
    hide CodesIn;
    hide FirstCandidates;
    var before := Through(c, count, arrivals, n - 1);
    var arrival := arrivals[n - 1];
    if arrival.Marked? {
      WithoutRemoves(before.queue, arrival.code);
    } else if arrival.Graphql? {
      OfferedFrom(before, CodesIn(Visited(arrival.payload)), count + Responses(arrivals, n), p);
    } else if arrival.EmbeddedScripts? {
      OfferedFrom(before, FirstCandidates(arrival.candidates), 0, p);
    }
  }

  /** Whether an event puts a new code into the memory. */
  predicate Adds(c: Catalog, e: Event) {
    (e.Offer? && e.code !in c.known) || (e.Use? && IsShortcode(e.code) && e.code !in c.known)
  }

  function NewCodes(c: Catalog, events: seq<Event>, n: nat): (count: nat)
    requires n <= |events|
    ensures count <= n
  {
    if n == 0 then 0
    else NewCodes(c, events, n - 1) + if Adds(After(c, events, n - 1), events[n - 1]) then 1 else 0
  }

  /** The code that was i-th oldest when the memory held `size` codes, after `added` new ones. */
  ghost predicate StillAt(c: Catalog, code: Code, size: nat, i: nat, added: nat) {
    && |c.order| == (if size + added <= MAX_KNOWN_CODES then size + added else MAX_KNOWN_CODES)
    && var k := i + |c.order| - size - added;
       0 <= k < |c.order| && c.order[k] == code
  }

  lemma RememberedMoves(c: Catalog, x: Code, code: Code, size: nat, i: nat, added: nat)
    requires StillAt(c, code, size, i, added) && i < size <= MAX_KNOWN_CODES
    requires x !in c.known ==> added + 1 <= i + (MAX_KNOWN_CODES - size)
    ensures StillAt(Remembered(c, x), code, size, i, added + if x in c.known then 0 else 1)
  {
  }

  lemma StepMoves(c: Catalog, e: Event, code: Code, size: nat, i: nat, added: nat)
    requires Bounded(c) && StillAt(c, code, size, i, added) && i < size <= MAX_KNOWN_CODES
    requires Adds(c, e) ==> added + 1 <= i + (MAX_KNOWN_CODES - size)
    ensures Bounded(Step(c, e)) && StillAt(Step(c, e), code, size, i, added + if Adds(c, e) then 1 else 0)
  {
    if e.Offer? {
      OfferedBounded(c, e.code, e.observation);
      RememberedMoves(c, e.code, code, size, i, added);
    } else if e.Use? {
      UsedBounded(c, e.code);
      if IsShortcode(e.code) {
        RememberedMoves(c, e.code, code, size, i, added);
      }
    }
    hide Remembered;
    hide IsShortcode;
  }

  /** The memory forgets in order: the i-th oldest code outlasts i new ones beyond the free room. */
  lemma {:induction false} MemoryLasts(c: Catalog, events: seq<Event>, n: nat, i: nat)
    requires Bounded(c) && i < |c.order| && n <= |events|
    requires NewCodes(c, events, n) <= i + (MAX_KNOWN_CODES - |c.order|)
    ensures Bounded(After(c, events, n)) && c.order[i] in After(c, events, n).known
    ensures StillAt(After(c, events, n), c.order[i], |c.order|, i, NewCodes(c, events, n))
  {
    hide Step;
    hide Adds;
    if n > 0 {
      MemoryLasts(c, events, n - 1, i);
      StepMoves(After(c, events, n - 1), events[n - 1], c.order[i], |c.order|, i, NewCodes(c, events, n - 1));
    }
  }

  /******* The stack loop walks in pre-order *******/

  function Reversed(vs: seq<Json>): seq<Json> {
    if vs == [] then [] else Reversed(vs[1..]) + [vs[0]]
  }

  /** What a stack whose top is its last element still has to visit. */
  function Remaining(stack: seq<Json>): (nodes: seq<Json>)
    ensures stack != [] ==> nodes != []
  {
    if stack == [] then [] else PreOrder(stack[|stack| - 1]) + Remaining(stack[..|stack| - 1])
  }

  lemma {:induction false} PushReversed(rest: seq<Json>, vs: seq<Json>)
    ensures Remaining(rest + Reversed(vs)) == PreOrderAll(vs) + Remaining(rest)
  {
    hide PreOrder;
    if vs == [] {
      assert rest + Reversed(vs) == rest;
    } else {
      var front := rest + Reversed(vs[1..]);
      PushReversed(rest, vs[1..]);
      assert rest + Reversed(vs) == front + [vs[0]];
      RemainingPushed(front, vs[0]);
      hide Remaining;
      ConcatAssociative(PreOrder(vs[0]), PreOrderAll(vs[1..]), Remaining(rest));
    }
  }

  lemma RemainingPushed(front: seq<Json>, top: Json)
    ensures Remaining(front + [top]) == PreOrder(top) + Remaining(front)
  {
    hide PreOrder;
    var stack := front + [top];
    assert stack[|stack| - 1] == top && stack[..|stack| - 1] == front;
  }

  lemma PreOrderShape(v: Json)
    ensures PreOrder(v) == [v] + PreOrderAll(Children(v))
  {
  }

  /** The visited nodes and those a stack still holds make up the recursive walk. */
  ghost predicate Walking(payload: Json, seen: seq<Json>, stack: seq<Json>) {
    seen + Remaining(stack) == PreOrder(payload)
  }

  /** Popping one node and pushing its children reversed moves exactly that node from the future to the past. */
  lemma PopAndPush(payload: Json, seen: seq<Json>, stack: seq<Json>)
    requires stack != [] && Walking(payload, seen, stack)
    ensures var v, rest := stack[|stack| - 1], stack[..|stack| - 1];
            Walking(payload, seen + [v], rest + Reversed(Children(v)))
  {
    hide PreOrder;
    hide PreOrderAll;
    var v, rest := stack[|stack| - 1], stack[..|stack| - 1];
    var children := PreOrderAll(Children(v));
    PushReversed(rest, Children(v));
    PreOrderShape(v);
    ConcatAssociative([v], children, Remaining(rest));
    ConcatAssociative(seen, [v], children + Remaining(rest));
  }

  lemma {:induction false} OfferedConcat(c: Catalog, a: seq<Code>, b: seq<Code>, observation: nat)
    ensures OfferedAll(c, a + b, observation) == OfferedAll(OfferedAll(c, a, observation), b, observation)
  {
    if b == [] {
      assert a + b == a;
    } else {
      OfferedConcat(c, a, b[..|b| - 1], observation);
      assert (a + b)[..|a + b| - 1] == a + b[..|b| - 1];
    }
  }

  lemma OneMoreNode(c: Catalog, seen: seq<Json>, v: Json, observation: nat)
    ensures OfferedAll(c, CodesIn(seen + [v]), observation)
            == OfferedAll(OfferedAll(c, CodesIn(seen), observation), CodesOf(v), observation)
  {
    assert (seen + [v])[..|seen|] == seen;
    OfferedConcat(c, CodesIn(seen), CodesOf(v), observation);
  }

  lemma OfferedUpToThree(c: Catalog, v: Json, observation: nat)
    requires v.Object?
    ensures OfferedAll(c, CodesOf(v), observation) ==
              OfferedAll(OfferedAll(OfferedAll(c, CodeAt(v, CodeName), observation),
                                    CodeAt(v, ShortcodeName), observation),
                         CodeAt(v, MediaCodeName), observation)
  {
    OfferedConcat(c, CodeAt(v, CodeName) + CodeAt(v, ShortcodeName), CodeAt(v, MediaCodeName), observation);
    OfferedConcat(c, CodeAt(v, CodeName), CodeAt(v, ShortcodeName), observation);
  }

  lemma WalkStarts(payload: Json)
    ensures Walking(payload, [], [payload])
  {
    var stack := [payload];
    assert stack[..0] == [];
    assert Remaining([]) == [];
    hide PreOrder;
    assert Remaining(stack) == PreOrder(payload) + [];
  }

  /** Where the loop stops, it has visited exactly the first 20,000 nodes, or all of them. */
  lemma WalkEnds(payload: Json, seen: seq<Json>, stack: seq<Json>)
    requires Walking(payload, seen, stack) && |seen| <= MAX_VISITED
    requires stack == [] || |seen| == MAX_VISITED
    ensures seen == Visited(payload)
  {
    hide PreOrder;
    assert (seen + Remaining(stack))[..|seen|] == seen;
    if stack == [] {
      assert seen + Remaining(stack) == seen;
    } else {
      assert |Remaining(stack)| > 0;
    }
  }

  /******* The source in place *******/

  class AuthenticatedFeedSource {
    var codes: seq<Pending>
    var knownCodes: set<Code>
    var knownOrder: seq<Code>
    var observation: nat

    function State(): Catalog
      reads this
    {
      Catalog(codes, knownCodes, knownOrder)
    }

    constructor ()
      ensures State() == EMPTY && Bounded(State()) && observation == 0
    {
      codes, knownCodes, knownOrder, observation := [], {}, [], 0;
    }

    method Remember(code: Code)
      requires Bounded(State())
      modifies this`knownCodes, this`knownOrder
      ensures State() == Remembered(old(State()), code) && Bounded(State())
    {
      RememberedBounded(State(), code);
      if code in knownCodes {
        return;
      }
      knownCodes := knownCodes + {code};
      knownOrder := knownOrder + [code];
      if |knownOrder| > MAX_KNOWN_CODES {
        knownCodes, knownOrder := knownCodes - {knownOrder[0]}, knownOrder[1..];
      }
    }

    /** The body shared by both observers. */
    method Admit(code: Code, seenAt: nat)
      requires Bounded(State())
      modifies this`codes, this`knownCodes, this`knownOrder
      ensures State() == Offered(old(State()), code, seenAt) && Bounded(State())
    {
      OfferedBounded(State(), code, seenAt);
      if code in knownCodes {
        return;
      }
      Remember(code);
      codes := codes + [Pending(seenAt, code)];
      if |codes| > MAX_CODES {
        codes := codes[1..];
      }
    }

    method AdmitKey(value: Json, key: Name, seenAt: nat)
      requires Bounded(State()) && value.Object?
      modifies this`codes, this`knownCodes, this`knownOrder
      ensures State() == OfferedAll(old(State()), CodeAt(value, key), seenAt) && Bounded(State())
    {
      var code := Get(value.keys, value.values, key);
      if code.Some? && code.value.Text? && IsShortcode(code.value.text) {
        assert CodeAt(value, key)[..0] == [];
        Admit(code.value.text, seenAt);
      }
    }

    /** The three keys of one node. */
    method AdmitNode(value: Json, seenAt: nat)
      requires Bounded(State())
      modifies this`codes, this`knownCodes, this`knownOrder
      ensures State() == OfferedAll(old(State()), CodesOf(value), seenAt) && Bounded(State())
    {
      hide CodeAt;
      hide Bounded;
      if value.Object? {
        OfferedUpToThree(State(), value, seenAt);
        AdmitKey(value, CodeName, seenAt);
        AdmitKey(value, ShortcodeName, seenAt);
        AdmitKey(value, MediaCodeName, seenAt);
      }
    }

    /** `_collect`: the codes of the first 20,000 nodes of the recursive walk, in its order. */
    method Collect(payload: Json, seenAt: nat)
      requires Bounded(State())
      modifies this`codes, this`knownCodes, this`knownOrder
      ensures State() == OfferedAll(old(State()), CodesIn(Visited(payload)), seenAt) && Bounded(State())
    {
      ghost var before := State();
      var stack, visited := [payload], 0;
      ghost var seen: seq<Json> := [];
      assert CodesIn(seen) == [] && OfferedAll(before, [], seenAt) == before;
      WalkStarts(payload);
      hide Walking;
      hide Bounded;
      hide Reversed;
      hide Children;
      hide OfferedAll;
      hide CodesIn;
      hide CodesOf;
      while stack != [] && visited < MAX_VISITED
        invariant visited == |seen| <= MAX_VISITED
        invariant Walking(payload, seen, stack)
        invariant State() == OfferedAll(before, CodesIn(seen), seenAt) && Bounded(State())
        decreases MAX_VISITED - visited
      {
        visited := visited + 1;
        PopAndPush(payload, seen, stack);
        var value := stack[|stack| - 1];
        stack := stack[..|stack| - 1];
        OneMoreNode(before, seen, value, seenAt);
        AdmitNode(value, seenAt);
        stack := stack + Reversed(Children(value));
        seen := seen + [value];
      }
      WalkEnds(payload, seen, stack);
    }

    /** One GraphQL response. */
    method ObserveGraphql(payload: Json)
      requires Bounded(State())
      modifies this
      ensures observation == old(observation) + 1 && Bounded(State())
      ensures State() == OfferedAll(old(State()), CodesIn(Visited(payload)), observation)
    {
      observation := observation + 1;
      Collect(payload, observation);
    }

    /** `observe_embedded_candidates` on a list; None is an element that is no string. */
    method ObserveEmbeddedCandidates(payload: seq<Option<Code>>)
      requires Bounded(State())
      modifies this`codes, this`knownCodes, this`knownOrder
      ensures State() == OfferedAll(old(State()), FirstCandidates(payload), 0)
      ensures Bounded(State())
    {
      ghost var before := State();
      var n := if |payload| < MAX_CODES then |payload| else MAX_CODES;
      for i := 0 to n
        invariant State() == OfferedAll(before, EmbeddedCodes(payload, i), 0) && Bounded(State())
      {
        hide Bounded;
        var code := payload[i];
        if code.Some? && IsShortcode(code.value) {
          assert EmbeddedCodes(payload, i + 1)[..|EmbeddedCodes(payload, i)|] == EmbeddedCodes(payload, i);
          Admit(code.value, 0);
        } else {
          assert EmbeddedCodes(payload, i + 1) == EmbeddedCodes(payload, i);
        }
      }
    }

    method MarkUsed(shortcode: Code)
      requires Bounded(State())
      modifies this`codes, this`knownCodes, this`knownOrder
      ensures State() == Used(old(State()), shortcode) && Bounded(State())
    {
      UsedBounded(State(), shortcode);
      if !IsShortcode(shortcode) {
        return;
      }
      Remember(shortcode);
      var kept: seq<Pending> := [];
      for i := 0 to |codes|
        invariant kept == Without(codes[..i], shortcode)
      {
        assert codes[..i + 1][..i] == codes[..i];
        if codes[i].code != shortcode {
          kept := kept + [codes[i]];
        }
      }
      assert codes[..|codes|] == codes;
      codes := kept;
    }

    /** The three `next_*` calls: the first eligible entry leaves the queue, everything else stays. */
    method Next(f: Filter) returns (taken: Option<Code>)
      requires Bounded(State())
      modifies this`codes
      ensures Bounded(State())
      ensures taken.None? ==> codes == old(codes) && forall p :: p in codes ==> PassedOver(f, p)
      ensures taken.Some? ==>
                exists i: nat :: && FirstEligible(old(codes), f, i)
                            && old(codes)[i].code == taken.value != f.previous
                            && (f.AfterObservation? ==> old(codes)[i].observation > f.observation)
                            && (f.Embedded? ==> old(codes)[i].observation == 0)
                            && (forall j :: 0 <= j < i ==> PassedOver(f, old(codes)[j]))
                            && State() == Step(old(State()), Take(i))
    {
      for i := 0 to |codes|
        invariant forall j :: 0 <= j < i ==> !Eligible(f, codes[j])
      {
        if Eligible(f, codes[i]) {
          taken := Some(codes[i].code);
          assert FirstEligible(codes, f, i);
          codes := codes[..i] + codes[i + 1..];
          return;
        }
      }
      taken := None;
    }

    method ResetForFeedNavigation()
      requires Bounded(State())
      modifies this`codes, this`observation
      ensures State() == Step(old(State()), Reset) && observation == 0 && Bounded(State())
    {
      codes, observation := [], 0;
    }
  }
}
