/** The unpadded base64url of section 5 of RFC 4648, as the cursor codec encodes and decodes it. */
module Base64Url {
  import opened Options
  import opened Texts

  type Byte = x: int | 0 <= x < 256
  type Sextet = x: int | 0 <= x < 64

  /******* The alphabet *******/

  function Symbol(v: Sextet): (c: char)
    ensures InAlphabet(c) && Value(c) == v
  {
    if v < 26 then 'A' + v as char
    else if v < 52 then 'a' + (v - 26) as char
    else if v < 62 then '0' + (v - 52) as char
    else if v == 62 then '-'
    else '_'
  }

  /** The character class of the cursor pattern. */
  predicate InAlphabet(c: char) {
    'A' <= c <= 'Z' || 'a' <= c <= 'z' || '0' <= c <= '9' || c == '-' || c == '_'
  }

  function Value(c: char): Sextet
    requires InAlphabet(c)
  {
    if 'A' <= c <= 'Z' then (c - 'A') as int
    else if 'a' <= c <= 'z' then (c - 'a') as int + 26
    else if '0' <= c <= '9' then (c - '0') as int + 52
    else if c == '-' then 62
    else 63
  }

  /******* Encoding *******/

  function Quad(x: Byte, y: Byte, z: Byte): (text: string)
    ensures |text| == 4 && forall c :: c in text ==> InAlphabet(c)
    ensures InAlphabet(text[0]) && InAlphabet(text[1]) && InAlphabet(text[2]) && InAlphabet(text[3])
    ensures Value(text[0]) * 4 + Value(text[1]) / 16 == x
    ensures Value(text[1]) % 16 * 16 + Value(text[2]) / 4 == y
    ensures Value(text[2]) % 4 * 64 + Value(text[3]) == z
  {
    Bits(x, y, z);
    [Symbol(x / 4), Symbol(x % 4 * 16 + y / 16), Symbol(y % 16 * 4 + z / 64), Symbol(z % 64)]
  }

  lemma Bits(x: Byte, y: Byte, z: Byte)
    ensures x / 4 * 4 + (x % 4 * 16 + y / 16) / 16 == x
    ensures (x % 4 * 16 + y / 16) % 16 * 16 + (y % 16 * 4 + z / 64) / 4 == y
    ensures (y % 16 * 4 + z / 64) % 4 * 64 + z % 64 == z
  {
  }

  /** `urlsafe_b64encode`: groups of three bytes, the last one padded with '='. */
  function EncodePadded(bytes: seq<Byte>): string {
    if |bytes| == 0 then ""
    else if |bytes| == 1 then
      [Symbol(bytes[0] / 4), Symbol(bytes[0] % 4 * 16), '=', '=']
    else if |bytes| == 2 then
      [Symbol(bytes[0] / 4), Symbol(bytes[0] % 4 * 16 + bytes[1] / 16), Symbol(bytes[1] % 16 * 4), '=']
    else
      Quad(bytes[0], bytes[1], bytes[2]) + EncodePadded(bytes[3..])
  }

  function StripPadding(text: string): string {
    if text != "" && text[|text| - 1] == '=' then StripPadding(text[..|text| - 1]) else text
  }

  function Encode(bytes: seq<Byte>): string {
    StripPadding(EncodePadded(bytes))
  }

  /******* Decoding *******/

  /** The bytes of padded text, or None where the decoder reports an error. Unused trailing bits are ignored. */
  function DecodePadded(text: string): Option<seq<Byte>> {
    if text == "" then Some([])
    else if |text| < 4 || !InAlphabet(text[0]) || !InAlphabet(text[1]) then None
    else
      var a, b := Value(text[0]), Value(text[1]);
      var first := a * 4 + b / 16;
      if text[2..] == "==" then Some([first])
      else if !InAlphabet(text[2]) then None
      else
        var c := Value(text[2]);
        var second := b % 16 * 16 + c / 4;
        if text[3..] == "=" then Some([first, second])
        else if !InAlphabet(text[3]) then None
        else
          match DecodePadded(text[4..])
          case None => None
          case Some(rest) => Some([first, second, c % 4 * 64 + Value(text[3])] + rest)
  }

  function Padding(length: nat): string {
    match length % 4
    case 0 => ""
    case 1 => "==="
    case 2 => "=="
    case _ => "="
  }

  predicate Readable(text: string) {
    text != "" && forall c :: c in text ==> InAlphabet(c)
  }

  /** `_decode_base64url`; None is InvalidVideoCursor. */
  function Decode(text: string): Option<seq<Byte>> {
    if !Readable(text) then None else DecodePadded(text + Padding(|text|))
  }

  /******* Round trips *******/

  /** The encoding with its padding told apart. */
  function Symbols(bytes: seq<Byte>): (text: string)
    ensures forall c :: c in text ==> InAlphabet(c) && c != '=' && c != '.'
    ensures |text| == |bytes| / 3 * 4 + (if |bytes| % 3 == 0 then 0 else |bytes| % 3 + 1)
  {
    if |bytes| == 0 then ""
    else if |bytes| == 1 then
      [Symbol(bytes[0] / 4), Symbol(bytes[0] % 4 * 16)]
    else if |bytes| == 2 then
      [Symbol(bytes[0] / 4), Symbol(bytes[0] % 4 * 16 + bytes[1] / 16), Symbol(bytes[1] % 16 * 4)]
    else
      Quad(bytes[0], bytes[1], bytes[2]) + Symbols(bytes[3..])
  }

  lemma PaddingPeriod(n: nat)
    ensures Padding(n + 4) == Padding(n) && (n + 4) % 4 == n % 4
  {
  }

  lemma {:induction false} PaddedIsSymbols(bytes: seq<Byte>)
    ensures EncodePadded(bytes) == Symbols(bytes) + Padding(|Symbols(bytes)|)
    ensures |Symbols(bytes)| % 4 != 1
  {
    hide Symbol;
    if |bytes| >= 3 {
      PaddedIsSymbols(bytes[3..]);
      hide Quad;
      hide Padding;
      var group, rest := Quad(bytes[0], bytes[1], bytes[2]), Symbols(bytes[3..]);
      PaddingPeriod(|rest|);
      ConcatAssociative(group, rest, Padding(|rest|));
    }
  }

  lemma StripSymbols(text: string, padding: string)
    requires text == "" || text[|text| - 1] != '='
    requires padding == "" || padding == "=" || padding == "=="
    ensures StripPadding(text + padding) == text
  {
    assert StripPadding(text) == text;
    assert StripPadding(text + "=") == text by {
      assert (text + "=")[..|text|] == text;
    }
    if padding == "==" {
      assert (text + "==")[..|text| + 1] == text + "=";
      assert StripPadding(text + "==") == StripPadding(text + "=");
    } else if padding == "" {
      assert text + padding == text;
    }
  }

  lemma EncodeIsSymbols(bytes: seq<Byte>)
    ensures Encode(bytes) == Symbols(bytes)
  {
    PaddedIsSymbols(bytes);
    var text := Symbols(bytes);
    if text != "" {
      assert text[|text| - 1] in text;
    }
    StripSymbols(text, Padding(|text|));
  }

  /** Table 2 of RFC 4648. */
  lemma AlphabetTable()
    ensures [Symbol(0), Symbol(1), Symbol(2), Symbol(3), Symbol(4), Symbol(5), Symbol(6), Symbol(7),
             Symbol(8), Symbol(9), Symbol(10), Symbol(11), Symbol(12), Symbol(13), Symbol(14), Symbol(15),
             Symbol(16), Symbol(17), Symbol(18), Symbol(19), Symbol(20), Symbol(21), Symbol(22), Symbol(23),
             Symbol(24), Symbol(25), Symbol(26), Symbol(27), Symbol(28), Symbol(29), Symbol(30), Symbol(31),
             Symbol(32), Symbol(33), Symbol(34), Symbol(35), Symbol(36), Symbol(37), Symbol(38), Symbol(39),
             Symbol(40), Symbol(41), Symbol(42), Symbol(43), Symbol(44), Symbol(45), Symbol(46), Symbol(47),
             Symbol(48), Symbol(49), Symbol(50), Symbol(51), Symbol(52), Symbol(53), Symbol(54), Symbol(55),
             Symbol(56), Symbol(57), Symbol(58), Symbol(59), Symbol(60), Symbol(61), Symbol(62), Symbol(63)]
            == "ABCDEFGHIJKLMNOPQRSTUVWXYZabcdefghijklmnopqrstuvwxyz0123456789-_"
  {
  }

  /** What a list of symbols, or of bytes, is as a number, the most significant first. */
  function Number(digits: seq<int>, base: nat): int {
    if digits == [] then 0 else Number(digits[..|digits| - 1], base) * base + digits[|digits| - 1]
  }

  function Values(text: string): (values: seq<int>)
    requires forall c :: c in text ==> InAlphabet(c)
    ensures |values| == |text|
  {
    seq(|text|, i requires 0 <= i < |text| => assert text[i] in text; Value(text[i]))
  }

  function Codes(bytes: seq<Byte>): (codes: seq<int>)
    ensures |codes| == |bytes|
  {
    seq(|bytes|, i requires 0 <= i < |bytes| => bytes[i])
  }

  /** Every group of three bytes is encoded on its own. */
  lemma {:induction false} EncodesGroups(bytes: seq<Byte>, k: nat)
    requires 3 * k <= |bytes|
    ensures 4 * k <= |Encode(bytes)| && Encode(bytes)[4 * k..] == Encode(bytes[3 * k..])
  {
    hide Quad;
    if k == 0 {
      assert bytes[0..] == bytes;
    } else {
      EncodesGroups(bytes[3..], k - 1);
      EncodeIsSymbols(bytes);
      EncodeIsSymbols(bytes[3..]);
      assert bytes[3..][3 * (k - 1)..] == bytes[3 * k..];
    }
  }

  /**
   Section 4 of RFC 4648: the first four symbols hold the 24 bits of the first
   three bytes, the most significant first; two bytes alone take three symbols
   and one byte two, filled up with zero bits.
   */
  lemma FirstGroup(bytes: seq<Byte>)
    requires bytes != []
    ensures forall c :: c in Encode(bytes) ==> InAlphabet(c)
    ensures var values, codes := Values(Encode(bytes)), Codes(bytes);
            if |bytes| >= 3 then |values| >= 4 && Number(values[..4], 64) == Number(codes[..3], 256)
            else if |bytes| == 2 then |values| == 3 && Number(values, 64) == Number(codes, 256) * 4
            else |values| == 2 && Number(values, 64) == Number(codes, 256) * 16
  {
    EncodeIsSymbols(bytes);
    var values, codes := Values(Encode(bytes)), Codes(bytes);
    if |bytes| >= 3 {
      FourDigits(values[..4], 64);
      ThreeDigits(codes[..3], 256);
    } else if |bytes| == 2 {
      ThreeDigits(values, 64);
      TwoDigits(codes, 256);
    } else {
      TwoDigits(values, 64);
      assert codes[..0] == [];
    }
    hide Symbol;
    hide Value;
  }

  lemma TwoDigits(d: seq<int>, base: nat)
    requires |d| == 2
    ensures Number(d, base) == d[0] * base + d[1]
  {
    assert Number(d[..1], base) == d[0] by {
      assert d[..1][..0] == [];
    }
  }

  lemma ThreeDigits(d: seq<int>, base: nat)
    requires |d| == 3
    ensures Number(d, base) == (d[0] * base + d[1]) * base + d[2]
  {
    TwoDigits(d[..2], base);
  }

  lemma FourDigits(d: seq<int>, base: nat)
    requires |d| == 4
    ensures Number(d, base) == ((d[0] * base + d[1]) * base + d[2]) * base + d[3]
  {
    ThreeDigits(d[..3], base);
  }

  /** One full group is read back and the rest is read on. */
  lemma QuadDecodes(x: Byte, y: Byte, z: Byte, rest: string)
    ensures DecodePadded(Quad(x, y, z) + rest) ==
              match DecodePadded(rest) case None => None case Some(bytes) => Some([x, y, z] + bytes)
  {
    var quad := Quad(x, y, z);
    assert quad[2] != '=' && quad[3] != '=';
    hide Quad;
    hide Value;
    FullGroup(quad, rest);
  }

  lemma FullGroup(quad: string, rest: string)
    requires |quad| == 4 && forall c :: c in quad ==> InAlphabet(c)
    ensures InAlphabet(quad[0]) && InAlphabet(quad[1]) && InAlphabet(quad[2]) && InAlphabet(quad[3])
    ensures DecodePadded(quad + rest) ==
              match DecodePadded(rest)
              case None => None
              case Some(bytes) => Some([Value(quad[0]) * 4 + Value(quad[1]) / 16,
                                        Value(quad[1]) % 16 * 16 + Value(quad[2]) / 4,
                                        Value(quad[2]) % 4 * 64 + Value(quad[3])] + bytes)
  {
    assert quad[2] in quad && quad[3] in quad;
    assert quad[2] != '=' && quad[3] != '=';
    hide Value;
    var text := quad + rest;
    assert text[0] == quad[0] && text[1] == quad[1] && text[2] == quad[2] && text[3] == quad[3];
    assert text[4..] == rest;
    assert text[2..][0] == text[2] && text[3..][0] == text[3];
  }

  lemma OneByteDecodes(x: Byte)
    ensures DecodePadded([Symbol(x / 4), Symbol(x % 4 * 16), '=', '=']) == Some([x])
  {
    var text := [Symbol(x / 4), Symbol(x % 4 * 16), '=', '='];
    assert text[2..] == "==";
  }

  lemma TwoBytesDecode(x: Byte, y: Byte)
    ensures DecodePadded([Symbol(x / 4), Symbol(x % 4 * 16 + y / 16), Symbol(y % 16 * 4), '=']) == Some([x, y])
  {
    var c := Symbol(y % 16 * 4);
    var text := [Symbol(x / 4), Symbol(x % 4 * 16 + y / 16), c, '='];
    Bits(x, y, 0);
    assert c != '=';
    hide Symbol;
    assert text[2..][0] == c;
    assert text[3..] == "=";
  }

  lemma {:induction false} PaddedDecodes(bytes: seq<Byte>)
    ensures DecodePadded(EncodePadded(bytes)) == Some(bytes)
  {
    hide Symbol;
    hide Value;
    hide Quad;
    if |bytes| == 1 {
      OneByteDecodes(bytes[0]);
      assert bytes == [bytes[0]];
    } else if |bytes| == 2 {
      TwoBytesDecode(bytes[0], bytes[1]);
      assert bytes == [bytes[0], bytes[1]];
    } else if |bytes| >= 3 {
      PaddedDecodes(bytes[3..]);
      QuadDecodes(bytes[0], bytes[1], bytes[2], EncodePadded(bytes[3..]));
      assert [bytes[0], bytes[1], bytes[2]] + bytes[3..] == bytes;
    }
  }

  /** Decoding undoes encoding exactly for the non-empty byte strings: the decoder refuses the empty text. */
  lemma DecodeUndoesEncode(bytes: seq<Byte>)
    ensures Decode(Encode(bytes)) == (if bytes == [] then None else Some(bytes))
  {
    EncodeIsSymbols(bytes);
    PaddedIsSymbols(bytes);
    PaddedDecodes(bytes);
  }

  lemma {:induction false} DecodesExactly(text: string)
    requires forall c :: c in text ==> InAlphabet(c)
    ensures DecodePadded(text + Padding(|text|)).Some? <==> |text| % 4 != 1
  {
    hide Value;
    var padded := text + Padding(|text|);
    if |text| >= 4 {
      var rest := text[4..];
      DecodesExactly(rest);
      PaddingPeriod(|rest|);
      hide Padding;
      assert padded == text[..4] + (rest + Padding(|rest|));
      FullGroup(text[..4], rest + Padding(|rest|));
    } else if |text| == 3 {
      assert text[0] in text && text[1] in text && text[2] in text;
      assert padded[2..][0] == text[2] && padded[3..] == "=";
    } else if |text| == 2 {
      assert text[0] in text && text[1] in text;
      assert padded[2..] == "==";
    } else if |text| == 1 {
      assert padded == [text[0], '=', '=', '='];
    }
  }

  /** The decoder accepts base64url symbols whose count does not leave a single symbol over, and nothing else. */
  lemma AcceptedExactly(text: string)
    ensures Decode(text).Some? <==> Readable(text) && |text| % 4 != 1
  {
    if Readable(text) {
      DecodesExactly(text);
    }
  }
}
