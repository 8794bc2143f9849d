/** The text of object keys: namespaces do not overlap, and listing a staging prefix finds exactly that attempt. */
module StagingKeys {
  import opened NormalizerDb
  import opened Texts

  function Sources(): string { "instagram-sources" }

  function Staging(): string { "instagram-normalizer-staging" }

  function Videos(): string { "videos" }

  function Canonical(): string { "canonical.mp4" }

  function Suffix(): string { ".mp4" }

  /** The text of job ids (UUIDs) and of digests (hexadecimal). */
  datatype Names = Names(job: JobId -> string, sha: Digest -> string)

  ghost predicate Distinct(names: Names) {
    && (forall j :: Free(names.job(j), '/'))
    && (forall d :: Free(names.sha(d), '/'))
    && (forall i, j :: names.job(i) == names.job(j) ==> i == j)
    && (forall d, e :: names.sha(d) == names.sha(e) ==> d == e)
  }

  /** Such names exist: numbers in decimal, and one character per byte of the digest's content. */
  function PlainNames(): Names {
    Names(Decimal, (d: Digest) => PlainText(d.content))
  }

  function PlainText(content: Bytes): (text: string)
    ensures |text| == |content| && Free(text, '/')
  {
    if content == [] then "" else [PlainChar(content[0])] + PlainText(content[1..])
  }

  function PlainChar(b: bv8): (c: char)
    ensures c != '/'
  {
    (b as int + 256) as char
  }

  lemma PlainCharInjective(b: bv8, c: bv8)
    requires PlainChar(b) == PlainChar(c)
    ensures b == c
  {
    assert b as int == c as int;
    assert (b as int) as bv8 == b;
  }

  lemma {:induction false} PlainTextInjective(a: Bytes, b: Bytes)
    requires PlainText(a) == PlainText(b)
    ensures a == b
  {
    if a != [] && b != [] {
      assert PlainText(a)[0] == PlainChar(a[0]) && PlainText(b)[0] == PlainChar(b[0]);
      PlainCharInjective(a[0], b[0]);
      assert PlainText(a)[1..] == PlainText(a[1..]) && PlainText(b)[1..] == PlainText(b[1..]);
      PlainTextInjective(a[1..], b[1..]);
      assert a == [a[0]] + a[1..] && b == [b[0]] + b[1..];
    }
  }

  lemma DistinctIsMet()
    ensures Distinct(PlainNames())
  {
    var names := PlainNames();
    forall j: JobId
      ensures Free(names.job(j), '/')
    {
      DecimalFree(j);
    }
    forall i: JobId, j: JobId | names.job(i) == names.job(j)
      ensures i == j
    {
      SameDecimal(i, j);
    }
    forall d: Digest, e: Digest | names.sha(d) == names.sha(e)
      ensures d == e
    {
      PlainTextInjective(d.content, e.content);
    }
  }

  function StagingPrefix(names: Names, job: JobId, attempt: nat): string {
    Staging() + "/" + names.job(job) + "/" + Decimal(attempt)
  }

  function Text(names: Names, key: ObjectKey): string {
    match key
    case SourceKey(r) => Sources() + "/" + (r + Suffix())
    case StagingKey(job, attempt) => StagingPrefix(names, job, attempt) + "/" + Canonical()
    case FinalKey(sha) => Videos() + "/" + (names.sha(sha) + Suffix())
  }

  /** Keys the pipeline forms: shortcodes contain no slash. */
  predicate Formed(key: ObjectKey) {
    key.SourceKey? ==> Free(key.shortcode, '/')
  }

  function Segments(names: Names, key: ObjectKey): seq<string> {
    match key
    case SourceKey(r) => [Sources(), r + Suffix()]
    case StagingKey(job, attempt) => [Staging(), names.job(job), Decimal(attempt), Canonical()]
    case FinalKey(sha) => [Videos(), names.sha(sha) + Suffix()]
  }

  lemma PartsFree()
    ensures Free(Sources(), '/') && Free(Staging(), '/') && Free(Videos(), '/') && Free(Canonical(), '/') && Free(Suffix(), '/')
    ensures Sources() != Staging() && Sources() != Videos() && Staging() != Videos()
  {
  }

  lemma TwoSegments(head: string, tail: string)
    requires Free(head, '/') && Free(tail, '/')
    ensures Split(head + "/" + tail, '/') == [head, tail]
  {
    SplitOnce(head, '/', tail);
    SplitNone(tail, '/');
  }

  /** Splitting after a staging prefix and its slash. */
  lemma PrefixSegments(names: Names, job: JobId, attempt: nat, rest: string)
    requires Distinct(names)
    ensures Split(StagingPrefix(names, job, attempt) + "/" + rest, '/')
            == [Staging(), names.job(job), Decimal(attempt)] + Split(rest, '/')
  {
    PartsFree();
    hide Staging;
    hide Decimal;
    var last := Decimal(attempt) + ['/'] + rest;
    var middle := names.job(job) + ['/'] + last;
    DecimalFree(attempt);
    SplitOnce(Decimal(attempt), '/', rest);
    SplitOnce(names.job(job), '/', last);
    SplitOnce(Staging(), '/', middle);
    assert StagingPrefix(names, job, attempt) + "/" + rest == Staging() + ['/'] + middle;
  }

  lemma TextSegments(names: Names, key: ObjectKey)
    requires Distinct(names) && Formed(key)
    ensures Split(Text(names, key), '/') == Segments(names, key)
  {
    PartsFree();
    hide Sources;
    hide Staging;
    hide Videos;
    hide Canonical;
    hide Suffix;
    hide Decimal;
    hide Split;
    if key.SourceKey? {
      TwoSegments(Sources(), key.shortcode + Suffix());
    } else if key.FinalKey? {
      TwoSegments(Videos(), names.sha(key.sha) + Suffix());
    } else {
      PrefixSegments(names, key.job, key.attempt, Canonical());
      SplitNone(Canonical(), '/');
    }
  }

  lemma SameStem(a: string, b: string)
    requires a + Suffix() == b + Suffix()
    ensures a == b
  {
    assert (a + Suffix())[..|a|] == a && (b + Suffix())[..|b|] == b;
  }

  /** Different keys have different texts. */
  lemma TextInjective(names: Names, key: ObjectKey, other: ObjectKey)
    requires Distinct(names) && Formed(key) && Formed(other) && Text(names, key) == Text(names, other)
    ensures key == other
  {
    TextSegments(names, key);
    TextSegments(names, other);
    PartsFree();
    hide Text;
    hide Decimal;
    hide Sources;
    hide Staging;
    hide Videos;
    hide Suffix;
    if key.SourceKey? && other.SourceKey? {
      SameStem(key.shortcode, other.shortcode);
    } else if key.FinalKey? && other.FinalKey? {
      SameStem(names.sha(key.sha), names.sha(other.sha));
    } else if key.StagingKey? && other.StagingKey? {
      SameDecimal(key.attempt, other.attempt);
    }
  }

  predicate StartsWith(text: string, prefix: string) {
    |prefix| <= |text| && text[..|prefix|] == prefix
  }

  /** `list_prefix(prefix + "/")` returns the object of that job and attempt and no other. */
  lemma ListingIsExact(names: Names, key: ObjectKey, job: JobId, attempt: nat)
    requires Distinct(names) && Formed(key)
    ensures StartsWith(Text(names, key), StagingPrefix(names, job, attempt) + "/") <==> key == StagingKey(job, attempt)
  {
    var prefix, text := StagingPrefix(names, job, attempt) + "/", Text(names, key);
    if StartsWith(text, prefix) {
      var rest := text[|prefix|..];
      assert text == StagingPrefix(names, job, attempt) + "/" + rest;
      PrefixSegments(names, job, attempt, rest);
      TextSegments(names, key);
      hide Text;
      hide Decimal;
      hide Split;
      hide Staging;
      assert |Segments(names, key)| >= 4 && Segments(names, key)[1] == names.job(job);
      assert Segments(names, key)[2] == Decimal(attempt);
      SameDecimal(key.attempt, attempt);
    }
  }
}
