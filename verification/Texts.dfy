/** Text as the services and the browser handle it: splitting, joining and decimal numbers. */
module Texts {

  /******* Splitting *******/

  /** `str.split`. */
  function Split(text: string, separator: char): (parts: seq<string>)
    ensures |parts| > 0
  {
    if text == "" then [""]
    else
      var rest := Split(text[1..], separator);
      if text[0] == separator then [""] + rest else [[text[0]] + rest[0]] + rest[1..]
  }

  function Join(parts: seq<string>, separator: char): string
    requires |parts| > 0
  {
    if |parts| == 1 then parts[0] else parts[0] + [separator] + Join(parts[1..], separator)
  }

  predicate Free(text: string, separator: char) {
    forall c :: c in text ==> c != separator
  }

  lemma {:induction false} SplitOnce(head: string, separator: char, tail: string)
    requires Free(head, separator)
    ensures Split(head + [separator] + tail, separator) == [head] + Split(tail, separator)
  {
    var text := head + [separator] + tail;
    if head == "" {
      assert text[1..] == tail;
    } else {
      assert head[0] in head;
      assert forall c :: c in head[1..] ==> c in head;
      assert text[1..] == head[1..] + [separator] + tail;
      SplitOnce(head[1..], separator, tail);
      assert [head[0]] + head[1..] == head;
    }
  }

  lemma {:induction false} SplitNone(text: string, separator: char)
    requires Free(text, separator)
    ensures Split(text, separator) == [text]
  {
    if text != "" {
      assert text[0] in text;
      assert forall c :: c in text[1..] ==> c in text;
      SplitNone(text[1..], separator);
      assert [text[0]] + text[1..] == text;
    }
  }

  lemma {:induction false} JoinSplit(text: string, separator: char)
    ensures Join(Split(text, separator), separator) == text
  {
    if text != "" {
      JoinSplit(text[1..], separator);
      var rest := Split(text[1..], separator);
      var parts := Split(text, separator);
      assert [text[0]] + text[1..] == text;
      if text[0] == separator {
        assert parts[1..] == rest;
      } else {
        assert parts[1..] == rest[1..];
        assert Join(parts, separator) == [text[0]] + Join(rest, separator);
      }
    }
  }

  /******* Decimal numbers *******/

  predicate IsDigit(c: char) {
    '0' <= c <= '9'
  }

  predicate Digits(s: string) {
    forall c :: c in s ==> IsDigit(c)
  }

  function Number(s: string): nat
    requires Digits(s)
  {
    if s == "" then 0
    else
      assert s[|s| - 1] in s;
      Number(s[..|s| - 1]) * 10 + (s[|s| - 1] - '0') as nat
  }

  function Decimal(n: nat): (s: string)
    ensures s != "" && Digits(s)
  {
    if n < 10 then ['0' + n as char] else Decimal(n / 10) + ['0' + (n % 10) as char]
  }

  function Power(base: nat, k: nat): nat {
    if k == 0 then 1 else base * Power(base, k - 1)
  }

  lemma {:induction false} NumberOfDecimal(n: nat)
    ensures Number(Decimal(n)) == n
    ensures forall k: nat :: n < Power(10, k) && k > 0 ==> |Decimal(n)| <= k
  {
    var s := Decimal(n);
    if n >= 10 {
      NumberOfDecimal(n / 10);
      assert s[..|s| - 1] == Decimal(n / 10);
      forall k: nat | n < Power(10, k) && k > 0
        ensures |s| <= k
      {
        assert Power(10, k) == 10 * Power(10, k - 1);
        assert n / 10 < Power(10, k - 1);
      }
    } else {
      assert s[..0] == "";
    }
  }

  /** A number has one decimal text. */
  lemma SameDecimal(m: nat, n: nat)
    requires Decimal(m) == Decimal(n)
    ensures m == n
  {
    NumberOfDecimal(m);
    NumberOfDecimal(n);
  }

  lemma DecimalFree(n: nat)
    ensures Free(Decimal(n), '/')
  {
  }

  /******* Sequences *******/

  lemma ConcatAssociative<T>(a: seq<T>, b: seq<T>, c: seq<T>)
    ensures a + (b + c) == (a + b) + c
  {
  }
}
