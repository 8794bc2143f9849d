/**
 The two parsers of single byte ranges, the server's and the service worker's,
 against the int-range and suffix-range of section 14.1.2 of RFC 9110. Text is
 Latin-1, as header values are.
 */
module ByteRanges {
  import opened Options
  import opened Texts

  const PREFIX := "bytes="
  const MAX_SAFE: int := 9007199254740991  // 2^53 - 1
  const MAX_INT_DIGITS: nat := 4300        // what int() accepts

  datatype Range = Range(start: int, end: int)

  /******* Text *******/

  /** Latin-1 characters that `str.strip` removes. */
  predicate IsSpace(c: char) {
    c == ' ' || '\t' <= c <= '\r' || '\U{1c}' <= c <= '\U{1f}' || c == '\U{85}' || c == '\U{a0}'
  }

  function StripLeft(s: string): string {
    if s != "" && IsSpace(s[0]) then StripLeft(s[1..]) else s
  }

  function StripRight(s: string): string {
    if s != "" && IsSpace(s[|s| - 1]) then StripRight(s[..|s| - 1]) else s
  }

  function Strip(s: string): string {
    StripRight(StripLeft(s))
  }

  function Count(s: string, c: char): nat {
    if s == "" then 0 else Count(s[..|s| - 1], c) + if s[|s| - 1] == c then 1 else 0
  }

  /** The first index of a character, or the length. */
  function Find(s: string, c: char): (i: nat)
    ensures i <= |s| && (i < |s| ==> s[i] == c)
    ensures forall j :: 0 <= j < i ==> s[j] != c
  {
    if s == "" || s[0] == c then 0 else Find(s[1..], c) + 1
  }

  predicate HasPrefix(s: string) {
    |s| >= 6 && s[..6] == PREFIX
  }

  /******* The server's parser *******/

  /** Digits in which single underscores may separate digits. */
  function Underscored(s: string): Option<nat> {
    if s == "" || !IsDigit(s[|s| - 1]) then None
    else
      var digit := (s[|s| - 1] - '0') as nat;
      if |s| == 1 then Some(digit)
      else
        var rest := Underscored(if s[|s| - 2] == '_' then s[..|s| - 2] else s[..|s| - 1]);
        if rest.None? then None else Some(rest.value * 10 + digit)
  }

  function DigitCount(s: string): nat {
    if s == "" then 0 else DigitCount(s[..|s| - 1]) + if IsDigit(s[|s| - 1]) then 1 else 0
  }

  /** `int(text)` on stripped Latin-1 text; None is ValueError. */
  function ToInt(s: string): Option<int> {
    if DigitCount(s) > MAX_INT_DIGITS then None
    else if s != "" && s[0] == '+' then
      match Underscored(s[1..]) case None => None case Some(n) => Some(n as int)
    else if s != "" && s[0] == '-' then
      match Underscored(s[1..]) case None => None case Some(n) => Some(-(n as int))
    else
      match Underscored(s) case None => None case Some(n) => Some(n as int)
  }

  function Min(a: int, b: int): int { if a <= b then a else b }

  function Max(a: int, b: int): int { if a >= b then a else b }

  /** The bounds that the two sides of the hyphen give. */
  function ServerBounds(first: string, last: string, total: int): Option<Range>
    requires total > 0
  {
    if first == "" then
      var suffix := ToInt(last);
      if suffix.None? || suffix.value <= 0 then None
      else Some(Range(Max(total - suffix.value, 0), total - 1))
    else
      var start := ToInt(first);
      if start.None? || start.value < 0 || start.value >= total then None
      else if last == "" then Some(Range(start.value, total - 1))
      else
        var end := ToInt(last);
        if end.None? || Min(end.value, total - 1) < start.value then None
        else Some(Range(start.value, Min(end.value, total - 1)))
  }

  /** `parse_single_range` on a present header; None is RangeNotSatisfiable. */
  function ServerParse(value: string, total: int): Option<Range> {
    if total <= 0 || !HasPrefix(value) then None
    else
      var specifier := Strip(value[6..]);
      if specifier == "" || ',' in specifier || Count(specifier, '-') != 1 then None
      else
        var i := Find(specifier, '-');
        if i >= |specifier| then None
        else ServerBounds(Strip(specifier[..i]), Strip(specifier[i + 1..]), total)
  }

  /******* The service worker's parser *******/

  predicate SafeDecimal(s: string) {
    s != "" && Digits(s) && Number(s) <= MAX_SAFE
  }

  /** `parseSingleByteRange`; None is null. */
  function WorkerParse(value: string, total: int): Option<Range> {
    if total <= 0 || total > MAX_SAFE || !HasPrefix(value) then None
    else
      var range := value[6..];
      if range == "" || ',' in range then None
      else if range[0] == '-' then
        var suffix := range[1..];
        if !SafeDecimal(suffix) || Number(suffix) <= 0 then None
        else Some(Range(Max(total - Number(suffix), 0), total - 1))
      else
        var i := Find(range, '-');
        if i >= |range| || !Digits(range[..i]) || !Digits(range[i + 1..]) then None
        else
          var first, last := range[..i], range[i + 1..];
          if !SafeDecimal(first) || Number(first) >= total then None
          else if last == "" then Some(Range(Number(first), total - 1))
          else if !SafeDecimal(last) || Number(last) < Number(first) then None
          else Some(Range(Number(first), Min(Number(last), total - 1)))
  }

  /******* The standard's meaning *******/

  datatype Spec = IntRange(first: nat, last: Option<nat>) | SuffixRange(length: nat)

  /** The bytes a range selects of a representation of `total` bytes; None when it is not satisfiable. */
  function Meaning(spec: Spec, total: int): Option<Range>
    requires total > 0
  {
    match spec
    case IntRange(first, last) =>
      if first >= total || (last.Some? && last.value < first) then None
      else Some(Range(first, if last.None? then total - 1 else Min(last.value, total - 1)))
    case SuffixRange(length) =>
      if length == 0 then None else Some(Range(Max(total - length, 0), total - 1))
  }

  /** The header with these digits around its hyphen. */
  function Header(first: string, last: string): string {
    PREFIX + first + "-" + last
  }

  /** What the digits around the hyphen say; both empty says nothing. */
  function SpecOf(first: string, last: string): Option<Spec>
    requires Digits(first) && Digits(last)
  {
    if first == "" then if last == "" then None else Some(SuffixRange(Number(last)))
    else Some(IntRange(Number(first), if last == "" then None else Some(Number(last))))
  }

  predicate Safe(spec: Spec) {
    match spec
    case IntRange(first, last) => first <= MAX_SAFE && (last.Some? ==> last.value <= MAX_SAFE)
    case SuffixRange(length) => length <= MAX_SAFE
  }

  /******* Headers in the standard's grammar *******/

  lemma HeaderParts(first: string, last: string)
    requires Digits(first) && Digits(last)
    ensures HasPrefix(Header(first, last)) && Header(first, last)[6..] == first + "-" + last
    ensures Find(first + "-" + last, '-') == |first|
    ensures (first + "-" + last)[..|first|] == first && (first + "-" + last)[|first| + 1..] == last
    ensures ',' !in first + "-" + last
  {
    var range := first + "-" + last;
    assert PREFIX + first + "-" + last == PREFIX + range;
    assert forall j :: 0 <= j < |first| ==> range[j] == first[j] && first[j] in first;
    assert range[|first|] == '-';
    forall k | 0 <= k < |range|
      ensures range[k] != ','
    {
      if k < |first| {
        assert range[k] in first;
      } else if k > |first| {
        assert range[k] == last[k - |first| - 1] && last[k - |first| - 1] in last;
      }
    }
  }

  /** The worker gives a grammatical header exactly its standard meaning, as long as its numbers are safe integers. */
  lemma WorkerMeaning(first: string, last: string, total: int)
    requires Digits(first) && Digits(last) && 0 < total <= MAX_SAFE
    ensures var spec := SpecOf(first, last);
            WorkerParse(Header(first, last), total) ==
              if spec.Some? && Safe(spec.value) then Meaning(spec.value, total) else None
  {
    HeaderParts(first, last);
    var range := first + "-" + last;
    if first == "" {
      assert range[0] == '-' && range[1..] == last;
    } else {
      assert range[0] == first[0] && first[0] in first;
    }
  }

  /** And it accepts no other header. */
  lemma WorkerAcceptsGrammarOnly(value: string, total: int)
    requires WorkerParse(value, total).Some?
    ensures exists first, last :: Digits(first) && Digits(last) && value == Header(first, last)
  {
    hide Number;
    hide Min;
    hide Max;
    var range := value[6..];
    assert value == PREFIX + range;
    var i := Find(range, '-');
    var first, last := range[..i], range[i + 1..];
    if range[0] == '-' {
      assert i == 0 && last == range[1..];
    }
    assert range == first + "-" + last;
    assert value == Header(first, last);
  }

  lemma StripClean(s: string)
    requires s != "" ==> !IsSpace(s[0]) && !IsSpace(s[|s| - 1])
    ensures Strip(s) == s
  {
  }

  lemma StripDigits(s: string)
    requires Digits(s)
    ensures Strip(s) == s
  {
    if s != "" {
      assert s[0] in s && s[|s| - 1] in s;
    }
    StripClean(s);
  }

  lemma {:induction false} CountDigits(s: string)
    requires Digits(s)
    ensures Count(s, '-') == 0 && DigitCount(s) == |s|
    ensures Underscored(s) == if s == "" then None else Some(Number(s))
  {
    if s != "" {
      assert s[|s| - 1] in s;
      assert |s| > 1 ==> s[|s| - 2] in s;
      CountDigits(s[..|s| - 1]);
      assert |s| == 1 ==> s[..|s| - 1] == "";
    }
  }

  lemma {:induction false} CountOnce(first: string, last: string)
    requires Digits(first) && Digits(last)
    ensures Count(first + "-" + last, '-') == 1
  {
    var range := first + "-" + last;
    if last == "" {
      assert range[..|range| - 1] == first;
      CountDigits(first);
    } else {
      assert last[|last| - 1] in last;
      assert range[..|range| - 1] == first + "-" + last[..|last| - 1];
      CountOnce(first, last[..|last| - 1]);
    }
  }

  lemma ToIntDigits(s: string)
    requires Digits(s)
    ensures ToInt(s) == if s == "" || |s| > MAX_INT_DIGITS then None else Some(Number(s))
  {
    CountDigits(s);
    if s != "" {
      assert s[0] in s;
    }
  }

  /** The server gives a grammatical header exactly its standard meaning, as long as int() reads its numbers. */
  lemma ServerMeaning(first: string, last: string, total: int)
    requires Digits(first) && Digits(last) && total > 0
    ensures var spec := SpecOf(first, last);
            ServerParse(Header(first, last), total) ==
              if spec.Some? && |first| <= MAX_INT_DIGITS && |last| <= MAX_INT_DIGITS then Meaning(spec.value, total) else None
  {
    ServerSplits(first, last, total);
    ToIntDigits(first);
    ToIntDigits(last);
    hide ServerParse;
    hide ToInt;
  }

  lemma ServerSplits(first: string, last: string, total: int)
    requires Digits(first) && Digits(last) && total > 0
    ensures ServerParse(Header(first, last), total) == ServerBounds(first, last, total)
  {
    HeaderParts(first, last);
    var range := first + "-" + last;
    assert first != "" ==> first[0] in first;
    assert last != "" ==> last[|last| - 1] in last;
    StripClean(range);
    CountOnce(first, last);
    StripDigits(first);
    StripDigits(last);
    hide Strip;
    hide Count;
    hide Find;
    hide HasPrefix;
    hide ServerBounds;
    hide Header;
  }

  /** The digits around the first hyphen. */
  ghost predicate Reads(value: string, first: string, last: string) {
    Digits(first) && Digits(last) && value == Header(first, last)
  }

  /** What the worker accepts the server accepts with the same bounds, exactly up to the digits int() reads. */
  lemma ServerFollowsWorker(value: string, total: int)
    requires WorkerParse(value, total).Some?
    ensures exists first, last ::
              && Reads(value, first, last)
              && ServerParse(value, total) ==
                 if |first| <= MAX_INT_DIGITS && |last| <= MAX_INT_DIGITS then WorkerParse(value, total) else None
  {
    WorkerAcceptsGrammarOnly(value, total);
    var first, last :| Digits(first) && Digits(last) && value == Header(first, last);
    assert Reads(value, first, last);
    WorkerMeaning(first, last, total);
    ServerMeaning(first, last, total);
    hide WorkerParse;
    hide ServerParse;
  }

  /** On grammatical headers with safe, readable numbers the two parsers are the same function. */
  lemma ParsersAgree(first: string, last: string, total: int)
    requires Digits(first) && Digits(last) && 0 < total <= MAX_SAFE
    requires |first| <= MAX_INT_DIGITS && |last| <= MAX_INT_DIGITS
    requires SpecOf(first, last).Some? ==> Safe(SpecOf(first, last).value)
    ensures ServerParse(Header(first, last), total) == WorkerParse(Header(first, last), total)
  {
    WorkerMeaning(first, last, total);
    ServerMeaning(first, last, total);
    hide WorkerParse;
    hide ServerParse;
  }

  /******* Where the two parsers part *******/

  /** Characters that the server skips and the grammar does not allow. */
  predicate Skipped(c: char) {
    IsSpace(c) || c == '+' || c == '_'
  }

  function Erase(s: string): string {
    if s == "" then "" else Erase(s[..|s| - 1]) + if Skipped(s[|s| - 1]) then "" else [s[|s| - 1]]
  }

  lemma {:induction false} EraseConcat(a: string, b: string)
    ensures Erase(a + b) == Erase(a) + Erase(b)
    ensures forall c :: Count(a + b, c) == Count(a, c) + Count(b, c)
  {
    if b == "" {
      assert a + b == a;
    } else {
      var all := a + b;
      assert all[..|all| - 1] == a + b[..|b| - 1] && all[|all| - 1] == b[|b| - 1];
      EraseConcat(a, b[..|b| - 1]);
      var tail := if Skipped(b[|b| - 1]) then "" else [b[|b| - 1]];
      ConcatAssociative(Erase(a), Erase(b[..|b| - 1]), tail);
    }
  }

  lemma EraseOne(c: char)
    ensures Erase([c]) == if Skipped(c) then "" else [c]
    ensures Count([c], c) == 1 && DigitCount([c]) == if IsDigit(c) then 1 else 0
  {
    assert [c][..0] == "";
  }

  lemma {:induction false} CountNone(s: string, c: char)
    ensures Count(s, c) == 0 <==> c !in s
  {
    if s != "" {
      CountNone(s[..|s| - 1], c);
      assert s == s[..|s| - 1] + [s[|s| - 1]];
    }
  }

  lemma {:induction false} EraseStripLeft(s: string)
    ensures Erase(StripLeft(s)) == Erase(s) && forall c :: c in StripLeft(s) ==> c in s
  {
    if s != "" && IsSpace(s[0]) {
      EraseStripLeft(s[1..]);
      assert s == [s[0]] + s[1..];
      EraseConcat([s[0]], s[1..]);
      EraseOne(s[0]);
    }
  }

  lemma {:induction false} EraseStrip(s: string)
    ensures Erase(Strip(s)) == Erase(s) && forall c :: c in Strip(s) ==> c in s
  {
    EraseStripLeft(s);
    EraseStripRight(StripLeft(s));
  }

  lemma {:induction false} EraseStripRight(s: string)
    ensures Erase(StripRight(s)) == Erase(s) && forall c :: c in StripRight(s) ==> c in s
  {
    if s != "" && IsSpace(s[|s| - 1]) {
      EraseStripRight(s[..|s| - 1]);
    }
  }

  lemma {:induction false} EraseUnderscored(s: string)
    requires Underscored(s).Some?
    ensures Digits(Erase(s)) && Erase(s) != "" && |Erase(s)| == DigitCount(s)
    ensures Number(Erase(s)) == Underscored(s).value
  {
    var front, c := s[..|s| - 1], s[|s| - 1];
    assert Erase(s) == Erase(front) + [c];
    if |s| == 1 {
      assert front == "";
    } else {
      if s[|s| - 2] == '_' {
        assert front[..|front| - 1] == s[..|s| - 2];
        assert Erase(front) == Erase(s[..|s| - 2]) && DigitCount(front) == DigitCount(s[..|s| - 2]);
        EraseUnderscored(s[..|s| - 2]);
      } else {
        EraseUnderscored(front);
      }
      assert Erase(s)[..|Erase(s)| - 1] == Erase(front);
      forall d | d in Erase(s)
        ensures IsDigit(d)
      {
        assert d == c || d in Erase(front);
      }
    }
  }

  /** int() reads an unsigned text as the digits in it. */
  lemma EraseToInt(s: string)
    requires '-' !in s && ToInt(s).Some?
    ensures Digits(Erase(s)) && Erase(s) != "" && |Erase(s)| <= MAX_INT_DIGITS
    ensures ToInt(s) == Some(Number(Erase(s)) as int)
  {
    hide Erase;
    hide DigitCount;
    hide Underscored;
    hide Number;
    if s != "" && s[0] == '+' {
      assert s == ['+'] + s[1..];
      EraseOne('+');
      EraseConcat(['+'], s[1..]);
      DigitCountConcat(['+'], s[1..]);
      EraseUnderscored(s[1..]);
      hide Digits;
      hide ToInt;
      assert ToInt(s) == Some(Underscored(s[1..]).value as int) by { SignedValue(s); }
      assert Erase(s) == Erase(s[1..]);
    } else {
      assert s != "" ==> s[0] in s;
      EraseUnderscored(s);
    }
  }

  lemma SignedValue(s: string)
    requires ToInt(s).Some? && s != "" && s[0] == '+'
    ensures Underscored(s[1..]).Some? && ToInt(s) == Some(Underscored(s[1..]).value as int)
    ensures DigitCount(s) <= MAX_INT_DIGITS
  {
    hide Underscored;
    hide DigitCount;
  }

  lemma {:induction false} DigitCountConcat(a: string, b: string)
    ensures DigitCount(a + b) == DigitCount(a) + DigitCount(b)
  {
    if b == "" {
      assert a + b == a;
    } else {
      var all := a + b;
      assert all[..|all| - 1] == a + b[..|b| - 1];
      DigitCountConcat(a, b[..|b| - 1]);
    }
  }

  lemma HyphenAlone()
    ensures Erase(['-']) == ['-'] && Count(['-'], '-') == 1
  {
    EraseOne('-');
  }

  lemma SidesJoin(specifier: string, i: nat)
    requires i < |specifier| && specifier[i] == '-'
    ensures specifier == specifier[..i] + (['-'] + specifier[i + 1..])
  {
  }

  /** The two sides of a specifier's only hyphen. */
  lemma SpecifierSides(specifier: string, i: nat)
    requires Count(specifier, '-') == 1 && i == Find(specifier, '-') < |specifier|
    ensures '-' !in specifier[..i] && '-' !in specifier[i + 1..]
    ensures Erase(specifier) == Erase(specifier[..i]) + "-" + Erase(specifier[i + 1..])
  {
    var head, tail := specifier[..i], specifier[i + 1..];
    assert '-' !in head;
    hide *;
    SidesJoin(specifier, i);
    EraseConcat(head, ['-'] + tail);
    EraseConcat(['-'], tail);
    HyphenAlone();
    CountNone(head, '-');
    CountNone(tail, '-');
    ConcatAssociative(Erase(head), ['-'], Erase(tail));
  }

  /** The bounds of two unsigned sides are those the standard gives to the digits in them. */
  lemma BoundsOfSides(first: string, last: string, total: int)
    requires total > 0 && '-' !in first && '-' !in last && ServerBounds(first, last, total).Some?
    ensures Digits(Erase(first)) && Digits(Erase(last))
    ensures |Erase(first)| <= MAX_INT_DIGITS && |Erase(last)| <= MAX_INT_DIGITS
    ensures SpecOf(Erase(first), Erase(last)).Some?
    ensures ServerBounds(first, last, total) == Meaning(SpecOf(Erase(first), Erase(last)).value, total)
  {
    hide ToInt;
    hide Erase;
    EraseNothing();
    if first != "" {
      EraseToInt(first);
    }
    if last != "" {
      EraseToInt(last);
    }
    hide Digits;
    hide Number;
  }

  lemma EraseNothing()
    ensures Erase("") == "" && ToInt("") == None
  {
  }

  /**
   Whatever the server takes it reads as the standard reads the header without
   its spaces, plus signs and underscores; what is left has readable numbers.
   */
  lemma ServerReadsErased(value: string, total: int)
    requires ServerParse(value, total).Some?
    ensures exists first, last ::
              && Reads(PREFIX + Erase(value[6..]), first, last)
              && |first| <= MAX_INT_DIGITS && |last| <= MAX_INT_DIGITS
              && SpecOf(first, last).Some?
              && ServerParse(value, total) == Meaning(SpecOf(first, last).value, total)
  {
    var specifier := Strip(value[6..]);
    var i := Find(specifier, '-');
    assert i < |specifier| && Count(specifier, '-') == 1;
    var head, tail := specifier[..i], specifier[i + 1..];
    assert ServerParse(value, total) == ServerBounds(Strip(head), Strip(tail), total);
    hide ServerParse;
    hide ServerBounds;
    hide Strip;
    hide Erase;
    hide Count;
    hide Find;
    hide Meaning;
    hide SpecOf;
    EraseStrip(value[6..]);
    SpecifierSides(specifier, i);
    EraseStrip(head);
    EraseStrip(tail);
    BoundsOfSides(Strip(head), Strip(tail), total);
    hide Digits;
    assert PREFIX + Erase(specifier) == Header(Erase(head), Erase(tail)) by {
      HeaderOfSides(specifier, head, tail);
    }
    assert Reads(PREFIX + Erase(value[6..]), Erase(head), Erase(tail));
  }

  lemma HeaderOfSides(specifier: string, head: string, tail: string)
    requires Erase(specifier) == Erase(head) + "-" + Erase(tail)
    ensures PREFIX + Erase(specifier) == Header(Erase(head), Erase(tail))
  {
    hide Erase;
    var first, last := Erase(head), Erase(tail);
    assert PREFIX + (first + "-" + last) == PREFIX + first + "-" + last;
  }

  predicate Clean(s: string) {
    forall c :: c in s ==> !Skipped(c)
  }

  lemma CleanSnoc(front: string, c: char)
    ensures Clean(front + [c]) <==> Clean(front) && !Skipped(c)
  {
    hide Skipped;
    var s := front + [c];
    assert s[|front|] == c && c in s;
    forall d
      ensures d in s <==> d in front || d == c
    {
    }
  }

  lemma {:induction false} EraseSame(s: string)
    ensures |Erase(s)| <= |s| && (Erase(s) == s <==> Clean(s))
  {
    hide Skipped;
    if s != "" {
      var front, c := s[..|s| - 1], s[|s| - 1];
      EraseSame(front);
      assert s == front + [c];
      CleanSnoc(front, c);
      hide Clean;
      assert !Skipped(c) ==> Erase(s) == Erase(front) + [c];
      if !Skipped(c) && Erase(s) == s {
        assert Erase(s)[..|s| - 1] == Erase(front);
      }
    }
  }

  /** The number after the hyphen is no safe integer. */
  ghost predicate UnsafeLast(value: string) {
    exists first, last :: Reads(value, first, last) && Number(last) > MAX_SAFE
  }

  /**
   The headers the server takes and the worker refuses are exactly those that
   hold a space, a plus sign or an underscore, or whose last number is no safe
   integer, and every header once the media are too long for safe integers. On
   all other headers the server takes the two answer the same.
   */
  lemma PartExactly(value: string, total: int)
    requires ServerParse(value, total).Some?
    ensures WorkerParse(value, total) ==
              if total > MAX_SAFE || !Clean(value[6..]) || UnsafeLast(value) then None
              else ServerParse(value, total)
  {
    assert HasPrefix(value) && total > 0;
    hide ServerParse;
    hide WorkerParse;
    hide Meaning;
    hide SpecOf;
    hide Erase;
    hide UnsafeLast;
    hide Clean;
    hide Reads;
    hide HasPrefix;
    ServerReadsErased(value, total);
    var first, last :| && Reads(PREFIX + Erase(value[6..]), first, last)
                       && SpecOf(first, last).Some?
                       && ServerParse(value, total) == Meaning(SpecOf(first, last).value, total);
    PartsOfHeader(value, first, last, total);
  }

  lemma PartsOfHeader(value: string, first: string, last: string, total: int)
    requires total > 0 && HasPrefix(value) && Reads(PREFIX + Erase(value[6..]), first, last)
    requires SpecOf(first, last).Some? && Meaning(SpecOf(first, last).value, total).Some?
    ensures WorkerParse(value, total) ==
              if total > MAX_SAFE || !Clean(value[6..]) || UnsafeLast(value) then None
              else Meaning(SpecOf(first, last).value, total)
  {
    hide Erase;
    EraseSame(value[6..]);
    if total > MAX_SAFE {
    } else if Erase(value[6..]) == value[6..] {
      assert value == PREFIX + value[6..];
      WorkerMeaning(first, last, total);
      hide WorkerParse;
      hide Digits;
      assert forall f, l :: Reads(value, f, l) ==> f == first && l == last by {
        forall f, l | Reads(value, f, l)
          ensures f == first && l == last
        {
          SameHeader(f, l, first, last);
        }
      }
      assert Reads(value, first, last);
      assert UnsafeLast(value) <==> Number(last) > MAX_SAFE;
      hide UnsafeLast;
      hide Reads;
    } else if WorkerParse(value, total).Some? {
      WorkerAcceptsGrammarOnly(value, total);
      var f, l :| Digits(f) && Digits(l) && value == Header(f, l);
      GrammarIsClean(f, l);
      assert false;
    }
  }

  lemma SameHeader(first: string, last: string, f: string, l: string)
    requires Digits(first) && Digits(last) && Digits(f) && Digits(l) && Header(first, last) == Header(f, l)
    ensures first == f && last == l
  {
    HeaderParts(first, last);
    HeaderParts(f, l);
    hide Header;
    hide Digits;
    hide Find;
  }

  lemma GrammarIsClean(first: string, last: string)
    requires Digits(first) && Digits(last)
    ensures Clean(Header(first, last)[6..])
  {
    HeaderParts(first, last);
    var range := first + "-" + last;
    forall c | c in range
      ensures !Skipped(c)
    {
      var k :| 0 <= k < |range| && range[k] == c;
      if k < |first| {
        assert c == first[k] && c in first;
      } else if k > |first| {
        assert c == last[k - |first| - 1] && c in last;
      }
    }
  }

  /** For example a sign. */
  lemma ServerTakesSigns()
    ensures ServerParse("bytes=+1-2", 9) == Some(Range(1, 2)) && WorkerParse("bytes=+1-2", 9) == None
  {
    var value, range := "bytes=+1-2", "+1-2";
    assert value[6..] == range;
    StripClean(range);
    assert range[..3] == "+1-" && range[..2] == "+1" && range[..1] == "+" && range[..0] == "";
    assert Count("", '-') == 0 && Count("+", '-') == 0 && Count("+1", '-') == 0 && Count("+1-", '-') == 1;
    assert Count(range, '-') == 1;
    assert Find(range, '-') == 2;
    assert range[3..] == "2";
    StripClean("+1");
    StripClean("2");
    assert "+1"[1..] == "1";
    assert "+1"[..1] == "+" && "1"[..0] == "" && "2"[..0] == "";
    assert DigitCount("") == 0 && DigitCount("+") == 0 && DigitCount("+1") == 1 && DigitCount("1") == 1 && DigitCount("2") == 1;
    assert Underscored("1") == Some(1) && Underscored("2") == Some(2);
    assert '+' in range[..2];
    assert !Digits(range[..2]);
  }

  /******* Printing, parsing and slicing *******/

  lemma SafeHasFewDigits(n: nat)
    requires n <= MAX_SAFE
    ensures |Decimal(n)| <= 16
  {
    NumberOfDecimal(n);
    assert Power(10, 4) == 10000;
    assert Power(10, 8) == 100000000;
    assert Power(10, 12) == 1000000000000;
    assert Power(10, 16) == 10000000000000000;
  }

  /** Both parsers recover every valid range from its printed header, and clamp one that runs past the end. */
  lemma PrintedRangeIsRead(start: nat, end: nat, total: int)
    requires start <= end <= MAX_SAFE && start < total <= MAX_SAFE
    ensures var header := Header(Decimal(start), Decimal(end));
            && WorkerParse(header, total) == Some(Range(start, Min(end, total - 1)))
            && ServerParse(header, total) == Some(Range(start, Min(end, total - 1)))
  {
    NumberOfDecimal(start);
    NumberOfDecimal(end);
    SafeHasFewDigits(start);
    SafeHasFewDigits(end);
    WorkerMeaning(Decimal(start), Decimal(end), total);
    ServerMeaning(Decimal(start), Decimal(end), total);
    hide WorkerParse;
    hide ServerParse;
  }

  /** Every accepted range lies inside the media. */
  lemma AcceptedIsInside(value: string, total: int)
    ensures WorkerParse(value, total).Some? ==>
              var r := WorkerParse(value, total).value; 0 <= r.start <= r.end < total
    ensures ServerParse(value, total).Some? ==>
              var r := ServerParse(value, total).value; 0 <= r.start <= r.end < total
  {
  }

  /******* The service worker's answers *******/

  /** Whole is status 200 and Partial 206, with their Content-Length and the numbers of Content-Range; None is no body. */
  datatype Answer<T> =
    | NotFound
    | NotSatisfiable(size: nat)
    | Whole(body: Option<seq<T>>, length: nat)
    | Partial(body: Option<seq<T>>, length: nat, range: Range, size: nat)

  /** `handleOfflineMediaRequest` once the route names a video: its cached media, the Range header and the method. */
  function HandleOfflineMediaRequest<T>(cached: Option<seq<T>>, header: Option<string>, head: bool): Answer<T> {
    if cached.None? then NotFound
    else
      var media := cached.value;
      var range := if header.None? then None else WorkerParse(header.value, |media|);
      if header.Some? && range.None? then NotSatisfiable(|media|)
      else if range.None? then Whole(if head then None else Some(media), |media|)
      else
        AcceptedIsInside(header.value, |media|);
        var r := range.value;
        Partial(if head then None else Some(media[r.start..r.end + 1]), r.end - r.start + 1, r, |media|)
  }

  /**
   A grammatical range of safe numbers is answered with exactly the bytes the
   standard selects, under their own length and bounds; HEAD has the same head.
   */
  lemma AnswerIsSelected<T>(media: seq<T>, first: string, last: string)
    requires Digits(first) && Digits(last) && 0 < |media| <= MAX_SAFE
    requires SpecOf(first, last).Some? && Safe(SpecOf(first, last).value)
    ensures var header, meaning := Some(Header(first, last)), Meaning(SpecOf(first, last).value, |media|);
            var get, head := HandleOfflineMediaRequest(Some(media), header, false),
                             HandleOfflineMediaRequest(Some(media), header, true);
            if meaning.None? then get == head == NotSatisfiable(|media|)
            else
              && get.Partial? && get.range == meaning.value && get.size == |media|
              && get.body.Some? && |get.body.value| == get.length == meaning.value.end - meaning.value.start + 1
              && (forall k :: 0 <= k < get.length ==>
                    meaning.value.start + k < |media| && get.body.value[k] == media[meaning.value.start + k])
              && head == get.(body := None)
  {
    WorkerMeaning(first, last, |media|);
    AcceptedIsInside(Header(first, last), |media|);
    hide WorkerParse;
    hide Header;
    hide Safe;
    hide Meaning;
  }

  /** The answer to a printed request for `size` bytes. */
  lemma PrintedPiece<T>(media: seq<T>, from: nat, size: nat)
    requires 0 < size && from < |media| && |media| + size <= MAX_SAFE
    ensures HandleOfflineMediaRequest(Some(media), Some(Request(from, size)), false) ==
              var end := Min(from + size - 1, |media| - 1);
              Partial(Some(media[from..end + 1]), end - from + 1, Range(from, end), |media|)
  {
    hide WorkerParse;
    hide ServerParse;
    hide HandleOfflineMediaRequest;
    hide Header;
    hide Decimal;
    var end := Min(from + size - 1, |media| - 1);
    PrintedRangeIsRead(from, from + size - 1, |media|);
    AcceptedAnswer(media, Request(from, size), Range(from, end));
  }

  lemma AcceptedAnswer<T>(media: seq<T>, header: string, r: Range)
    requires WorkerParse(header, |media|) == Some(r) && 0 <= r.start <= r.end < |media|
    ensures HandleOfflineMediaRequest(Some(media), Some(header), false) ==
              Partial(Some(media[r.start..r.end + 1]), r.end - r.start + 1, r, |media|)
  {
    hide WorkerParse;
  }

  function Request(from: nat, size: nat): string
    requires size > 0
  {
    Header(Decimal(from), Decimal(from + size - 1))
  }

  /** A player that asks for consecutive pieces of `size` bytes and joins the bodies in at most `requests` requests. */
  function Fetched<T>(media: seq<T>, size: nat, from: nat, requests: nat): seq<T>
    requires size > 0
    decreases requests
  {
    if requests == 0 || from >= |media| then []
    else
      var answer := HandleOfflineMediaRequest(Some(media), Some(Request(from, size)), false);
      if !answer.Partial? || answer.body.None? then []
      else answer.body.value + Fetched(media, size, from + |answer.body.value|, requests - 1)
  }

  /** The pieces join to the whole media, in as few requests as their sizes allow. */
  lemma {:induction false} PiecesJoin<T>(media: seq<T>, size: nat, from: nat, requests: nat)
    requires size > 0 && from <= |media| && |media| + size <= MAX_SAFE
    requires |media| - from <= requests * size
    ensures Fetched(media, size, from, requests) == media[from..]
    decreases requests
  {
    hide HandleOfflineMediaRequest;
    hide Request;
    if from < |media| {
      OneRequestLess(|media|, from, size, requests);
      PrintedPiece(media, from, size);
      var end := Min(from + size - 1, |media| - 1);
      PiecesJoin(media, size, end + 1, requests - 1);
      assert media[from..] == media[from..end + 1] + media[end + 1..];
    }
  }

  lemma OneRequestLess(total: nat, from: nat, size: nat, requests: nat)
    requires size > 0 && from < total && total - from <= requests * size
    ensures requests > 0 && total - (Min(from + size - 1, total - 1) + 1) <= (requests - 1) * size
  {
    assert 0 * size == 0;
    assert requests * size == (requests - 1) * size + size;
    if from + size - 1 >= total - 1 {
      assert 0 <= (requests - 1) * size;
    }
  }
}
