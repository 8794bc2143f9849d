/** The signed feed cursor: "v1.", the payload and its signature, both in base64url. */
module VideoCursor {
  import opened Options
  import opened Texts
  import opened Base64Url

  const MAX_CURSOR_LENGTH: nat := 512

  /** The range of `datetime` in microseconds of Unix time, years 1 to 9999, and the number of UUIDs, 2^128. */
  const FIRST_INSTANT: int := -62135596800000000
  const LAST_INSTANT: int := 253402300799999999
  const UUIDS: nat := 340282366920938463463374607431768211456

  /** A position in the feed order; the time is the instant, the id compares as a number. */
  datatype Key = Key(createdAt: int, id: nat)

  /** The positions that a `VideoCursor` can hold. */
  predicate Representable(key: Key) {
    FIRST_INSTANT <= key.createdAt <= LAST_INSTANT && key.id < UUIDS
  }

  /** The opaque parts: HMAC-SHA256 under the server's secret, and the JSON payload's writer and reader. */
  datatype Codec = Codec(sign: string -> seq<Byte>, write: Key -> seq<Byte>, read: seq<Byte> -> Option<Key>)

  /** Digests have 32 bytes, payloads fit the length limit and are read back as written. */
  ghost predicate Sound(codec: Codec) {
    && (forall text :: |codec.sign(text)| == 32)
    && (forall key :: Representable(key) ==> 0 < |codec.write(key)| <= 348 && codec.read(codec.write(key)) == Some(key))
  }

  /******* A sound codec *******/

  function ToBytes(n: nat, size: nat): (bytes: seq<Byte>)
    ensures |bytes| == size
  {
    if size == 0 then [] else ToBytes(n / 256, size - 1) + [n % 256]
  }

  function FromBytes(bytes: seq<Byte>): nat {
    if bytes == [] then 0 else FromBytes(bytes[..|bytes| - 1]) * 256 + bytes[|bytes| - 1]
  }

  lemma {:induction false} FromToBytes(n: nat, size: nat)
    requires n < Power(256, size)
    ensures FromBytes(ToBytes(n, size)) == n
  {
    if size > 0 {
      var bytes := ToBytes(n, size);
      assert n / 256 < Power(256, size - 1);
      FromToBytes(n / 256, size - 1);
      assert bytes[..size - 1] == ToBytes(n / 256, size - 1);
    }
  }

  /** A payload of 24 bytes: the instant counted from the first one, then the id. */
  function WriteKey(key: Key): seq<Byte> {
    if !Representable(key) then [] else ToBytes(key.createdAt - FIRST_INSTANT, 8) + ToBytes(key.id, 16)
  }

  function ReadKey(bytes: seq<Byte>): Option<Key> {
    if |bytes| != 24 then None else Some(Key(FromBytes(bytes[..8]) + FIRST_INSTANT, FromBytes(bytes[8..])))
  }

  function PlainCodec(): Codec {
    Codec(text => seq(32, i => 0), WriteKey, ReadKey)
  }

  lemma ReadWriteKey(key: Key)
    requires Representable(key)
    ensures |WriteKey(key)| == 24 && ReadKey(WriteKey(key)) == Some(key)
  {
    var bytes := WriteKey(key);
    var instant: nat := key.createdAt - FIRST_INSTANT;
    Powers256();
    FromToBytes(instant, 8);
    FromToBytes(key.id, 16);
    hide ToBytes;
    hide FromBytes;
    hide Power;
    assert bytes[..8] == ToBytes(instant, 8) && bytes[8..] == ToBytes(key.id, 16);
  }

  lemma Powers256()
    ensures Power(256, 8) == 18446744073709551616 && Power(256, 16) == UUIDS
  {
    assert Power(256, 4) == 4294967296;
    assert Power(256, 8) == 18446744073709551616;
    assert Power(256, 12) == 79228162514264337593543950336;
  }

  /** Sound codecs exist. */
  lemma SoundIsMet()
    ensures Sound(PlainCodec())
  {
    forall key | Representable(key)
      ensures 0 < |WriteKey(key)| <= 348 && ReadKey(WriteKey(key)) == Some(key)
    {
      ReadWriteKey(key);
    }
  }

  /******* Encoding and decoding *******/

  function Encode(key: Key, codec: Codec): string {
    var payload := Base64Url.Encode(codec.write(key));
    "v1." + payload + "." + Base64Url.Encode(codec.sign(payload))
  }

  /** None is InvalidVideoCursor. */
  function Decode(value: string, codec: Codec): Option<Key> {
    if |value| > MAX_CURSOR_LENGTH then None
    else
      var parts := Split(value, '.');
      if |parts| != 3 || parts[0] != "v1" then None
      else
        var payload, signature := Base64Url.Decode(parts[1]), Base64Url.Decode(parts[2]);
        if payload.None? || signature.None? || signature.value != codec.sign(parts[1]) then None
        else codec.read(payload.value)
  }

  lemma SplitThree(payload: string, signature: string)
    requires Free(payload, '.') && Free(signature, '.')
    ensures Split("v1." + payload + "." + signature, '.') == ["v1", payload, signature]
  {
    var tail := payload + "." + signature;
    assert "v1." + payload + "." + signature == "v1" + ['.'] + tail;
    SplitOnce("v1", '.', tail);
    assert tail == payload + ['.'] + signature;
    SplitOnce(payload, '.', signature);
    SplitNone(signature, '.');
  }

  lemma EncodedPart(bytes: seq<Byte>)
    requires 0 < |bytes| <= 348
    ensures Base64Url.Decode(Base64Url.Encode(bytes)) == Some(bytes) && Free(Base64Url.Encode(bytes), '.')
    ensures |Base64Url.Encode(bytes)| <= 464 && (|bytes| == 32 ==> |Base64Url.Encode(bytes)| <= 43)
  {
    EncodeIsSymbols(bytes);
    Base64Url.DecodeUndoesEncode(bytes);
  }

  /** Decoding undoes encoding, for every position, every secret and within the length limit. */
  lemma DecodeUndoesEncode(key: Key, codec: Codec)
    requires Sound(codec) && Representable(key)
    ensures |Encode(key, codec)| <= MAX_CURSOR_LENGTH
    ensures Decode(Encode(key, codec), codec) == Some(key)
  {
    var written := codec.write(key);
    var payload := Base64Url.Encode(written);
    var signed := codec.sign(payload);
    EncodedPart(written);
    EncodedPart(signed);
    SplitThree(payload, Base64Url.Encode(signed));
    hide Split;
    hide Base64Url.Encode;
    hide Base64Url.Decode;
  }

  /** Different positions have different cursors. */
  lemma EncodeInjective(key: Key, other: Key, codec: Codec)
    requires Sound(codec) && Representable(key) && Representable(other)
    requires Encode(key, codec) == Encode(other, codec)
    ensures key == other
  {
    DecodeUndoesEncode(key, codec);
    DecodeUndoesEncode(other, codec);
  }

  /** What an accepted cursor is made of. */
  ghost predicate Carries(value: string, payload: string, signature: string, codec: Codec) {
    && value == "v1." + payload + "." + signature
    && Base64Url.Decode(signature) == Some(codec.sign(payload))
    && Base64Url.Decode(payload).Some?
    && codec.read(Base64Url.Decode(payload).value).Some?
  }

  /** Exactly the text that carries the signature of its own readable payload is accepted: forging one takes a valid digest. */
  lemma AcceptedIsSigned(value: string, codec: Codec)
    ensures Decode(value, codec).Some? <==>
              |value| <= MAX_CURSOR_LENGTH && exists payload, signature :: Carries(value, payload, signature, codec)
    ensures forall payload, signature :: Decode(value, codec).Some? && Carries(value, payload, signature, codec) ==>
              Decode(value, codec) == codec.read(Base64Url.Decode(payload).value)
  {
    if Decode(value, codec).Some? {
      AcceptedCarries(value, codec);
    }
    forall payload, signature | |value| <= MAX_CURSOR_LENGTH && Carries(value, payload, signature, codec)
      ensures Decode(value, codec) == codec.read(Base64Url.Decode(payload).value)
    {
      SplitThree(payload, signature);
    }
  }

  lemma AcceptedCarries(value: string, codec: Codec)
    requires Decode(value, codec).Some?
    ensures |value| <= MAX_CURSOR_LENGTH && exists payload, signature :: Carries(value, payload, signature, codec)
  {
    var parts := Split(value, '.');
    JoinSplit(value, '.');
    assert Join(parts, '.') == parts[0] + ['.'] + Join(parts[1..], '.');
    assert Join(parts[1..], '.') == parts[1] + ['.'] + parts[2];
    assert Carries(value, parts[1], parts[2], codec);
  }
}
