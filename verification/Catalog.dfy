/**
 The video feed as server and client share it: a keyset query, the limit + 1
 rule, a signed cursor, and the client's loop over pages while the table may
 change between requests.
 */
module Catalog {
  import opened Options
  import opened VideoCursor

  const MAX_CATALOG_PAGES: nat := 10000
  const MAX_LIMIT: nat := 30

  /** A row of `videos`; `key.id` is its primary key. */
  datatype Row = Row(key: Key, title: string)

  /** The keyset condition of the query: strictly after `than` in the feed. */
  predicate Older(key: Key, than: Key) {
    key.createdAt < than.createdAt || (key.createdAt == than.createdAt && key.id < than.id)
  }

  /** Ids are unique, and the instants and ids are those of the columns' types. */
  ghost predicate Keyed(rows: set<Row>) {
    && (forall r, s :: r in rows && s in rows && r.key.id == s.key.id ==> r == s)
    && (forall r :: r in rows ==> Representable(r.key))
  }

  predicate Descending(rows: seq<Row>) {
    forall i, j :: 0 <= i < j < |rows| ==> Older(rows[j].key, rows[i].key)
  }

  /** Newer than, in the feed: created later, or at the same instant with the greater id. */
  predicate Newer(key: Key, than: Key) {
    key.createdAt > than.createdAt || (key.createdAt == than.createdAt && key.id > than.id)
  }

  /** From the newest row to the oldest. */
  predicate InFeedOrder(rows: seq<Row>) {
    forall i, j :: 0 <= i < j < |rows| ==> Newer(rows[i].key, rows[j].key)
  }

  /******* The query *******/

  predicate IsNewest(r: Row, rows: set<Row>) {
    r in rows && forall s :: s in rows && s != r ==> Older(s.key, r.key)
  }

  lemma {:induction false} NewestExists(rows: set<Row>)
    requires rows != {} && Keyed(rows)
    ensures exists r :: IsNewest(r, rows)
  {
    var r :| r in rows;
    var rest := rows - {r};
    if rest == {} {
      assert rows == {r};
      assert IsNewest(r, rows);
    } else {
      NewestExists(rest);
      var s :| IsNewest(s, rest);
      assert s.key.id != r.key.id;
      if Older(s.key, r.key) {
        forall t | t in rows && t != r
          ensures Older(t.key, r.key)
        {
          assert t in rest;
        }
        assert IsNewest(r, rows);
      } else {
        assert IsNewest(s, rows);
      }
    }
  }

  function Newest(rows: set<Row>): (r: Row)
    requires rows != {} && Keyed(rows)
    ensures IsNewest(r, rows)
  {
    NewestExists(rows);
    var r :| r in rows && IsNewest(r, rows);
    r
  }

  /** ORDER BY created_at DESC, id DESC. */
  function Sorted(rows: set<Row>): (sorted: seq<Row>)
    requires Keyed(rows)
    ensures Descending(sorted)
    ensures forall r :: r in sorted <==> r in rows
    ensures |sorted| == |rows|
    decreases |rows|
  {
    if rows == {} then []
    else
      var r := Newest(rows);
      var rest := Sorted(rows - {r});
      PrependNewest(rows, r, rest);
      [r] + rest
  }

  lemma PrependNewest(rows: set<Row>, r: Row, rest: seq<Row>)
    requires IsNewest(r, rows) && Descending(rest) && |rest| == |rows - {r}|
    requires forall s :: s in rest <==> s in rows - {r}
    ensures Descending([r] + rest) && |[r] + rest| == |rows|
    ensures forall s :: s in [r] + rest <==> s in rows
  {
    assert forall i :: 0 <= i < |rest| ==> rest[i] in rest;
    forall s
      ensures s in [r] + rest <==> s in rows
    {
      assert s in [r] + rest <==> s == r || s in rest;
    }
  }

  function After(rows: set<Row>, before: Option<Key>): (after: set<Row>)
    ensures after <= rows
  {
    set r | r in rows && (before.Some? ==> Older(r.key, before.value))
  }

  /** `VideoRepository.list`. */
  function Query(rows: set<Row>, limit: nat, before: Option<Key>): (found: seq<Row>)
    requires Keyed(rows)
  {
    var sorted := Sorted(After(rows, before));
    if |sorted| <= limit then sorted else sorted[..limit]
  }

  /** `VideoService.list`: one row more than asked for tells whether there is a next page. */
  function ListPage(rows: set<Row>, limit: nat, before: Option<Key>): (seq<Row>, bool)
    requires Keyed(rows)
  {
    var found := Query(rows, limit + 1, before);
    (if |found| <= limit then found else found[..limit], |found| > limit)
  }

  datatype Response = Listed(items: seq<Row>, nextCursor: Option<string>) | BadRequest

  /** `list_videos`. */
  function ListVideos(rows: set<Row>, limit: int, cursor: Option<string>, codec: Codec): Response
    requires Keyed(rows)
  {
    if limit < 1 || limit > MAX_LIMIT then BadRequest
    else
      var before := if cursor.Some? then Decode(cursor.value, codec) else None;
      if cursor.Some? && before.None? then BadRequest
      else
        var (items, more) := ListPage(rows, limit, before);
        Listed(items, if more && items != [] then Some(Encode(items[|items| - 1].key, codec)) else None)
  }

  /** What one page is, without naming how it is computed. */
  ghost predicate IsPage(rows: set<Row>, limit: nat, before: Option<Key>, items: seq<Row>, more: bool) {
    && Descending(items) && |items| <= limit
    && (forall r :: r in items ==> r in After(rows, before))
    && (!more ==> forall r :: r in After(rows, before) ==> r in items)
    && (more ==>
          && |items| == limit > 0
          && (forall r :: r in After(rows, before) ==> r in items || Older(r.key, items[limit - 1].key))
          && exists r :: r in After(rows, before) && Older(r.key, items[limit - 1].key))
  }

  /** Cutting a descending list keeps its newest rows. */
  lemma CutKeepsNewest(sorted: seq<Row>, limit: nat, r: Row)
    requires Descending(sorted) && 0 < limit < |sorted| && r in sorted
    ensures r in sorted[..limit] || Older(r.key, sorted[limit - 1].key)
  {
    var i :| 0 <= i < |sorted| && sorted[i] == r;
    if i < limit {
      assert sorted[..limit][i] == r;
    }
  }

  /**
   A page holds the newest rows after its position, from the newest to the
   oldest: no row it leaves out is newer than one it holds, and there is a next
   page exactly when it leaves one out, and then it is full.
   */
  lemma PageCorrect(rows: set<Row>, limit: nat, before: Option<Key>)
    requires Keyed(rows) && limit > 0
    ensures var (items, more) := ListPage(rows, limit, before);
            && IsPage(rows, limit, before, items, more)
            && InFeedOrder(items) && |items| <= limit
            && (forall r :: r in items ==> r in rows && (before.Some? ==> Newer(before.value, r.key)))
            && (forall r, s :: r in items && s in rows && Newer(s.key, r.key) ==>
                                 s in items || (before.Some? && !Newer(before.value, s.key)))
            && (more ==> |items| == limit)
            && (more <==> exists s :: s in rows && s !in items && (before.Some? ==> Newer(before.value, s.key)))
  {
    var (items, more) := ListPage(rows, limit, before);
    PageIsPage(rows, limit, before);
    FeedOrdered(items);
    NothingNewerLeftOut(rows, limit, before, items, more);
    NextPageExactly(rows, limit, before, items, more);
    hide ListPage;
    hide InFeedOrder;
    hide Descending;
  }

  lemma NothingNewerLeftOut(rows: set<Row>, limit: nat, before: Option<Key>, items: seq<Row>, more: bool)
    requires IsPage(rows, limit, before, items, more)
    ensures forall r, s :: r in items && s in rows && Newer(s.key, r.key) ==>
                             s in items || (before.Some? && !Newer(before.value, s.key))
  {
    forall r, s | r in items && s in rows && Newer(s.key, r.key) && (before.Some? ==> Newer(before.value, s.key))
      ensures s in items
    {
      assert s in After(rows, before);
      LastIsOldest(items, r);
    }
  }

  lemma NextPageExactly(rows: set<Row>, limit: nat, before: Option<Key>, items: seq<Row>, more: bool)
    requires IsPage(rows, limit, before, items, more)
    ensures more <==> exists s :: s in rows && s !in items && (before.Some? ==> Newer(before.value, s.key))
  {
    if more {
      var s :| s in After(rows, before) && Older(s.key, items[limit - 1].key);
      if s in items {
        LastIsOldest(items, s);
      }
    }
    forall s | s in rows && s !in items && (before.Some? ==> Newer(before.value, s.key))
      ensures more
    {
      assert s in After(rows, before);
    }
  }

  lemma LastIsOldest(items: seq<Row>, r: Row)
    requires Descending(items) && r in items
    ensures r == items[|items| - 1] || Older(items[|items| - 1].key, r.key)
  {
    var i :| 0 <= i < |items| && items[i] == r;
  }

  lemma PageIsPage(rows: set<Row>, limit: nat, before: Option<Key>)
    requires Keyed(rows) && limit > 0
    ensures var (items, more) := ListPage(rows, limit, before); IsPage(rows, limit, before, items, more)
  {
    hide Sorted;
    hide Older;
    var after := After(rows, before);
    var sorted := Sorted(after);
    var (items, more) := ListPage(rows, limit, before);
    if more {
      assert items == sorted[..limit];
      forall r | r in after
        ensures r in items || Older(r.key, items[limit - 1].key)
      {
        CutKeepsNewest(sorted, limit, r);
      }
      assert sorted[limit] in after && Older(sorted[limit].key, sorted[limit - 1].key);
    } else {
      assert items == sorted;
    }
  }

  lemma HasMember(rows: seq<Row>)
    requires rows != []
    ensures exists r :: r in rows
  {
    assert rows[0] in rows;
  }

  lemma FeedOrdered(rows: seq<Row>)
    ensures Descending(rows) <==> InFeedOrder(rows)
  {
    if InFeedOrder(rows) {
      forall i, j | 0 <= i < j < |rows|
        ensures Older(rows[j].key, rows[i].key)
      {
        assert Newer(rows[i].key, rows[j].key);
      }
    }
  }

  /** Two descending lists of the same rows are equal. */
  lemma {:induction false} DescendingUnique(a: seq<Row>, b: seq<Row>)
    requires Descending(a) && Descending(b) && forall r :: r in a <==> r in b
    ensures a == b
  {
    if a == [] {
      if b != [] {
        HasMember(b);
      }
    } else {
      assert a[0] in b && b != [] && b[0] in a;
      assert a[0] == b[0];
      forall r
        ensures r in a[1..] <==> r in b[1..]
      {
        if r in a[1..] { assert r in b && r != b[0]; }
        if r in b[1..] { assert r in a && r != a[0]; }
      }
      DescendingUnique(a[1..], b[1..]);
    }
  }

  /******* The client's fold *******/

  datatype ErrorKind = NetworkError | HttpError | ResponseError

  datatype Result = Success(videos: seq<Row>) | Failure(kind: ErrorKind)

  /** `Map.set` on a map that remembers insertion order. */
  function MapSet(videos: seq<Row>, video: Row): seq<Row> {
    if videos == [] then [video]
    else if videos[0].key.id == video.key.id then [video] + videos[1..]
    else [videos[0]] + MapSet(videos[1..], video)
  }

  lemma {:induction false} MapSetNew(videos: seq<Row>, video: Row)
    requires forall v :: v in videos ==> v.key.id != video.key.id
    ensures MapSet(videos, video) == videos + [video]
  {
    if videos != [] {
      assert videos[0] in videos;
      assert forall v :: v in videos[1..] ==> v in videos;
      MapSetNew(videos[1..], video);
      assert videos == [videos[0]] + videos[1..];
    }
  }

  /** The table at each request, all within one universe of rows that never change. */
  ghost predicate Within(table: nat -> set<Row>, universe: set<Row>) {
    Keyed(universe) && forall i: nat :: table(i) <= universe
  }

  ghost predicate Persistent(table: nat -> set<Row>, r: Row) {
    forall i: nat :: r in table(i)
  }

  /** The rows the client holds after n full pages: everything persistent is here or still to come. */
  ghost predicate GatheredRows(table: nat -> set<Row>, universe: set<Row>, pageSize: nat, videos: seq<Row>, n: nat) {
    && Descending(videos) && (forall r :: r in videos ==> r in universe)
    && |videos| == n * pageSize
    && (n > 0 ==>
          && videos != []
          && (forall r :: Persistent(table, r) ==> r in videos || Older(r.key, videos[|videos| - 1].key))
          && exists r :: r in universe && Older(r.key, videos[|videos| - 1].key))
  }

  /** Its cursors: the next one is the position of the last row, the requested ones are of newer rows. */
  ghost predicate GatheredCursors(codec: Codec, videos: seq<Row>, requested: set<string>, cursor: Option<string>) {
    if videos == [] then cursor.None? && requested == {}
    else
      && cursor == Some(Encode(videos[|videos| - 1].key, codec))
      && forall c :: c in requested ==> RequestedEarlier(c, videos[|videos| - 1].key, codec)
  }

  function LastKey(videos: seq<Row>): Option<Key> {
    if videos == [] then None else Some(videos[|videos| - 1].key)
  }

  ghost predicate RequestedEarlier(c: string, last: Key, codec: Codec) {
    exists key :: Representable(key) && Older(last, key) && c == Encode(key, codec)
  }

  /** A cursor of a strictly older position was not requested before. */
  lemma NeverRepeated(c: string, last: Key, next: Key, codec: Codec)
    requires Sound(codec) && Representable(next) && RequestedEarlier(c, last, codec)
    requires next == last || Older(next, last)
    ensures c != Encode(next, codec)
  {
    var key :| Representable(key) && Older(last, key) && c == Encode(key, codec);
    if c == Encode(next, codec) {
      EncodeInjective(key, next, codec);
    }
  }

  /** A descending list has no more rows than the set it is drawn from, and fewer if it misses one. */
  lemma {:induction false} DistinctRows(videos: seq<Row>, universe: set<Row>)
    requires Descending(videos) && forall r :: r in videos ==> r in universe
    ensures |videos| <= |universe|
    ensures forall r :: r in universe && r !in videos ==> |videos| < |universe|
    decreases |videos|
  {
    if videos != [] {
      var rest := universe - {videos[0]};
      assert videos[0] in videos;
      assert forall i :: 0 < i < |videos| ==> videos[i] != videos[0];
      DistinctRows(videos[1..], rest);
      forall r | r in universe && r !in videos
        ensures |videos| < |universe|
      {
        assert r in rest && r !in videos[1..];
      }
    }
  }

  lemma GatherRows(table: nat -> set<Row>, universe: set<Row>, pageSize: nat, videos: seq<Row>, n: nat, items: seq<Row>)
    requires Within(table, universe) && pageSize > 0
    requires GatheredRows(table, universe, pageSize, videos, n)
    requires IsPage(table(n), pageSize, LastKey(videos), items, true)
    ensures GatheredRows(table, universe, pageSize, videos + items, n + 1)
  {
    var all := videos + items;
    assert all[|all| - 1] == items[|items| - 1];
    ItemsFollow(table(n), pageSize, LastKey(videos), items, true, videos);
    assert (n + 1) * pageSize == n * pageSize + pageSize;
    assert n == 0 ==> videos == [];
    hide Older;
    hide Descending;
    forall r | Persistent(table, r)
      ensures r in all || Older(r.key, all[|all| - 1].key)
    {
      assert r in table(n);
      if r !in videos {
        assert r in After(table(n), LastKey(videos));
      }
    }
  }

  /** The cursor of a full page is new: neither the current one nor any requested before. */
  lemma GatherCursors(codec: Codec, videos: seq<Row>, requested: set<string>, cursor: Option<string>, items: seq<Row>)
    requires Sound(codec) && Descending(videos + items) && items != []
    requires forall r :: r in videos + items ==> Representable(r.key)
    requires GatheredCursors(codec, videos, requested, cursor)
    ensures var next, asked := Encode(items[|items| - 1].key, codec), requested + (if cursor.None? then {} else {cursor.value});
            && GatheredCursors(codec, videos + items, asked, Some(next))
            && next !in asked
  {
    hide Sound;
    hide Representable;
    hide Encode;
    var all := videos + items;
    var last := all[|all| - 1].key;
    assert last == items[|items| - 1].key;
    if videos != [] {
      var previous := videos[|videos| - 1].key;
      assert all[|videos| - 1].key == previous && Older(last, previous);
      assert videos[|videos| - 1] in all && all[|all| - 1] in all;
      hide Descending;
      forall c | c in requested + {cursor.value}
        ensures RequestedEarlier(c, last, codec) && c != Encode(last, codec)
      {
        if c in requested {
          var key :| Representable(key) && Older(previous, key) && c == Encode(key, codec);
          assert Older(last, key);
        }
        NeverRepeated(c, last, last, codec);
      }
    }
  }

  lemma ItemsFollow(rows: set<Row>, limit: nat, before: Option<Key>, items: seq<Row>, more: bool, videos: seq<Row>)
    requires IsPage(rows, limit, before, items, more) && Descending(videos)
    requires videos == [] || before == Some(videos[|videos| - 1].key)
    ensures Descending(videos + items)
  {
    forall i, j | 0 <= i < j < |videos + items|
      ensures Older((videos + items)[j].key, (videos + items)[i].key)
    {
      if i < |videos| <= j {
        assert items[j - |videos|] in items;
        assert Older(items[j - |videos|].key, videos[|videos| - 1].key);
      }
    }
  }

  /** The client's cursor is the position of its last row and was not requested before. */
  lemma CursorReadBack(codec: Codec, videos: seq<Row>, requested: set<string>, cursor: Option<string>)
    requires Sound(codec) && GatheredCursors(codec, videos, requested, cursor)
    requires forall r :: r in videos ==> Representable(r.key)
    ensures cursor.Some? ==> cursor.value !in requested
    ensures cursor.None? <==> videos == []
    ensures cursor.Some? ==> Decode(cursor.value, codec) == LastKey(videos)
  {
    hide Encode;
    hide Decode;
    if cursor.Some? {
      var last := videos[|videos| - 1].key;
      DecodeUndoesEncode(last, codec);
      if cursor.value in requested {
        NeverRepeated(cursor.value, last, last, codec);
      }
    }
  }

  /** The rows of one response, as the server's page for the client's position. */
  lemma Answered(rows: set<Row>, limit: int, videos: seq<Row>, cursor: Option<string>, codec: Codec)
    requires Keyed(rows) && (cursor.None? <==> videos == [])
    requires cursor.Some? ==> Decode(cursor.value, codec) == LastKey(videos)
    ensures var page := ListVideos(rows, limit, cursor, codec);
            if !(1 <= limit <= MAX_LIMIT) then page.BadRequest?
            else
              && page.Listed?
              && IsPage(rows, limit, LastKey(videos), page.items, page.nextCursor.Some?)
              && (page.nextCursor.Some? ==>
                    page.items != [] && page.nextCursor == Some(Encode(page.items[|page.items| - 1].key, codec)))
  {
    hide Encode;
    hide Decode;
    hide ListPage;
    hide Sorted;
    if 1 <= limit <= MAX_LIMIT {
      PageIsPage(rows, limit, LastKey(videos));
      PageNonempty(rows, limit, LastKey(videos), ListPage(rows, limit, LastKey(videos)).0,
                   ListPage(rows, limit, LastKey(videos)).1);
      hide IsPage;
    }
  }

  lemma PageNonempty(rows: set<Row>, limit: nat, before: Option<Key>, items: seq<Row>, more: bool)
    requires IsPage(rows, limit, before, items, more)
    ensures more ==> items != []
  {
  }

  lemma LastPage(table: nat -> set<Row>, universe: set<Row>, pageSize: nat, videos: seq<Row>, n: nat, items: seq<Row>)
    requires Within(table, universe) && GatheredRows(table, universe, pageSize, videos, n)
    requires IsPage(table(n), pageSize, LastKey(videos), items, false)
    ensures Descending(videos + items) && (forall r :: r in videos + items ==> r in universe)
    ensures forall r :: Persistent(table, r) ==> r in videos + items
  {
    ItemsFollow(table(n), pageSize, LastKey(videos), items, false, videos);
    hide Older;
    hide Descending;
    forall r | Persistent(table, r)
      ensures r in videos + items
    {
      assert r in table(n);
      if r !in videos {
        assert r in After(table(n), LastKey(videos));
      }
    }
  }

  lemma MoreThanPages(table: nat -> set<Row>, universe: set<Row>, pageSize: nat, videos: seq<Row>, n: nat)
    requires GatheredRows(table, universe, pageSize, videos, n) && n > 0
    ensures |universe| > n * pageSize
  {
    var last := videos[|videos| - 1];
    var extra :| extra in universe && Older(extra.key, last.key);
    assert extra !in videos by {
      forall i | 0 <= i < |videos|
        ensures videos[i] != extra
      {
        assert i == |videos| - 1 || Older(last.key, videos[i].key);
      }
    }
    DistinctRows(videos, universe);
  }

  /** On a table nobody changes the client has every row once, in feed order. */
  lemma FixedCatalog(table: nat -> set<Row>, catalog: set<Row>, videos: seq<Row>)
    requires Keyed(catalog) && Descending(videos) && forall i: nat :: table(i) == catalog
    requires forall r :: r in videos ==> r in catalog
    requires forall r :: Persistent(table, r) ==> r in videos
    ensures videos == Sorted(catalog)
  {
    forall r | r in catalog
      ensures r in videos
    {
      assert Persistent(table, r);
    }
    DescendingUnique(videos, Sorted(catalog));
  }

  /** `getEntireVideoCatalog` against a table that other writers change between the requests. */
  method GetEntireVideoCatalog(table: nat -> set<Row>, pageSize: nat, codec: Codec, reliable: bool,
                               ghost universe: set<Row>)
    returns (result: Result)
    requires Sound(codec) && Within(table, universe)
    ensures result.Success? ==>
              && InFeedOrder(result.videos)
              && (forall r :: r in result.videos ==> r in universe)
              && (forall r :: Persistent(table, r) ==> r in result.videos)
    ensures result.Success? && (forall i: nat :: table(i) == universe) ==> result.videos == Sorted(universe)
    ensures reliable && 1 <= pageSize <= 30 && |universe| <= 10000 * pageSize ==> result.Success?
    ensures result == Failure(ResponseError) ==> |universe| > 10000 * pageSize
    ensures result == Failure(HttpError) ==> !(1 <= pageSize <= 30)
  {
    hide ListVideos;
    hide IsPage;
    hide Persistent;
    hide Encode;
    hide Older;
    hide Sorted;
    var videos, requested, cursor: Option<string> := [], {}, None;
    for pageNumber := 0 to MAX_CATALOG_PAGES
      invariant GatheredRows(table, universe, pageSize, videos, pageNumber)
      invariant GatheredCursors(codec, videos, requested, cursor)
    {
      assert table(pageNumber) <= universe;
      CursorReadBack(codec, videos, requested, cursor);
      Answered(table(pageNumber), pageSize, videos, cursor, codec);
      ghost var before, earlier := videos, requested;
      if cursor.Some? {
        if cursor.value in requested {
          assert false;  // the client throws here
        }
        requested := requested + {cursor.value};
      }
      var failed: bool := *;
      if failed && !reliable {
        return Failure(NetworkError);
      }
      var page := ListVideos(table(pageNumber), pageSize, cursor, codec);
      if page.BadRequest? {
        return Failure(HttpError);
      }
      videos := AddPage(videos, page.items, table(pageNumber), universe, pageSize, page.nextCursor.Some?);
      if page.nextCursor.None? {
        LastPage(table, universe, pageSize, before, pageNumber, page.items);
        if forall i: nat :: table(i) == universe {
          FixedCatalog(table, universe, videos);
        }
        FeedOrdered(videos);
        return Success(videos);
      }
      GatherRows(table, universe, pageSize, before, pageNumber, page.items);
      GatherCursors(codec, before, earlier, cursor, page.items);
      if page.nextCursor == cursor || page.nextCursor.value in requested {
        assert false;  // and here
      }
      cursor := page.nextCursor;
    }
    MoreThanPages(table, universe, pageSize, videos, MAX_CATALOG_PAGES);
    result := Failure(ResponseError);
  }

  /** `for (const video of page.items) videos.set(video.id, video)`, which here only ever appends. */
  method AddPage(videos: seq<Row>, items: seq<Row>, ghost rows: set<Row>, ghost universe: set<Row>, ghost limit: nat,
                 ghost more: bool)
    returns (all: seq<Row>)
    requires Keyed(universe) && rows <= universe && (forall r :: r in videos ==> r in universe)
    requires Descending(videos) && IsPage(rows, limit, LastKey(videos), items, more)
    ensures all == videos + items
  {
    ItemsFollow(rows, limit, LastKey(videos), items, more, videos);
    assert forall r :: r in items ==> r in universe;
    hide IsPage;
    all := videos;
    for i := 0 to |items|
      invariant all == videos + items[..i]
    {
      NewId(videos, items, universe, i);
      MapSetNew(all, items[i]);
      all := MapSet(all, items[i]);
    }
  }

  /** An item's id is none of the rows before it. */
  lemma NewId(videos: seq<Row>, items: seq<Row>, universe: set<Row>, i: nat)
    requires Keyed(universe) && Descending(videos + items) && i < |items|
    requires (forall r :: r in videos ==> r in universe) && forall r :: r in items ==> r in universe
    ensures forall v :: v in videos + items[..i] ==> v.key.id != items[i].key.id
  {
    var all := videos + items;
    assert items[i] in items && all[|videos| + i] == items[i];
    forall v | v in videos + items[..i]
      ensures v.key.id != items[i].key.id
    {
      var k :| 0 <= k < |videos| + i && (videos + items[..i])[k] == v;
      assert all[k] == v && Older(items[i].key, v.key);
      assert k >= |videos| ==> v == items[k - |videos|];
      assert v in universe;
    }
  }
}
