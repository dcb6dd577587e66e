/** Strings of code points and their UTF-8 bytes (RFC 3629), decoded strictly. */
module Utf8 {
  import opened Wrappers

  type byte = x: int | 0 <= x < 256
  type Bytes = seq<byte>
  /** A string; it may hold surrogates, which have no encoding. */
  type Text = seq<nat>

  predicate Scalar(c: nat)
  {
    c < 0xD800 || 0xE000 <= c < 0x110000
  }

  predicate Encodable(s: Text)
  {
    forall i :: 0 <= i < |s| ==> Scalar(s[i])
  }

  function EncodeOne(c: nat): (b: Bytes)
    requires Scalar(c)
    ensures 1 <= |b| <= 4
  {
    if c < 0x80 then [c]
    else if c < 0x800 then [0xC0 + c / 64, 0x80 + c % 64]
    else if c < 0x10000 then [0xE0 + c / 4096, 0x80 + c / 64 % 64, 0x80 + c % 64]
    else [0xF0 + c / 262144, 0x80 + c / 4096 % 64, 0x80 + c / 64 % 64, 0x80 + c % 64]
  }

  function Encode(s: Text): Bytes
    requires Encodable(s)
  {
    if s == [] then [] else EncodeOne(s[0]) + Encode(s[1..])
  }

  /** Zero for a byte that cannot start a character. */
  function Length(lead: byte): nat
  {
    if lead < 0x80 then 1
    else if lead < 0xC0 then 0
    else if lead < 0xE0 then 2
    else if lead < 0xF0 then 3
    else if lead < 0xF8 then 4
    else 0
  }

  /** The low six bits of a continuation byte, and nonsense for any other byte. */
  function Low(b: byte): int
  {
    var i: int := b;
    i - 0x80
  }

  function Combined(b: Bytes): int
    requires 1 <= |b| <= 4
  {
    var lead: int := b[0];
    if |b| == 1 then lead
    else if |b| == 2 then (lead - 0xC0) * 64 + Low(b[1])
    else if |b| == 3 then (lead - 0xE0) * 4096 + Low(b[1]) * 64 + Low(b[2])
    else (lead - 0xF0) * 262144 + Low(b[1]) * 4096 + Low(b[2]) * 64 + Low(b[3])
  }

  /** Overlong forms, surrogates and stray continuation bytes do not encode what they combine to. */
  function DecodeOne(b: Bytes): (c: Option<nat>)
    requires |b| > 0
    ensures c.Some? ==> 1 <= Length(b[0]) <= |b| && Scalar(c.value) && EncodeOne(c.value) == b[..Length(b[0])]
  {
    var n := Length(b[0]);
    if n == 0 || n > |b| then None
    else
      var c := Combined(b[..n]);
      if c < 0 || !Scalar(c) || EncodeOne(c) != b[..n] then None else Some(c)
  }

  function Decode(b: Bytes): Option<Text>
    decreases |b|
  {
    if b == [] then Some([])
    else
      match DecodeOne(b)
      case None => None
      case Some(c) =>
        match Decode(b[Length(b[0])..])
        case None => None
        case Some(rest) => Some([c] + rest)
  }

  lemma {:induction false} SplitDigits(c: nat)
    ensures c == c / 64 * 64 + c % 64
    ensures c / 64 == c / 4096 * 64 + c / 64 % 64
    ensures c / 4096 == c / 262144 * 64 + c / 4096 % 64
  {
  }

  lemma {:induction false} DecodeEncodedOne(c: nat, rest: Bytes)
    requires Scalar(c)
    ensures DecodeOne(EncodeOne(c) + rest) == Some(c)
    ensures Length((EncodeOne(c) + rest)[0]) == |EncodeOne(c)|
  {
    SplitDigits(c);
    var b := EncodeOne(c);
    assert (b + rest)[..|b|] == b;
    assert Length(b[0]) == |b|;
    assert Combined(b) == c;
  }

  lemma {:induction false} DecodeEncode(s: Text)
    requires Encodable(s)
    ensures Decode(Encode(s)) == Some(s)
  {
    if s != [] {
      var first, rest := EncodeOne(s[0]), Encode(s[1..]);
      DecodeEncodedOne(s[0], rest);
      assert (first + rest)[|first|..] == rest;
      DecodeEncode(s[1..]);
      assert s == [s[0]] + s[1..];
    }
  }

  /** Decoding is strict, so a string has only one encoding that is accepted. */
  lemma {:induction false} EncodeDecode(b: Bytes)
    requires Decode(b).Some?
    ensures Encodable(Decode(b).value) && Encode(Decode(b).value) == b
    decreases |b|
  {
    if b != [] {
      var n := Length(b[0]);
      EncodeDecode(b[n..]);
      var s := Decode(b).value;
      assert s[1..] == Decode(b[n..]).value;
      assert b == b[..n] + b[n..];
    }
  }

  lemma {:induction false} ConcatAssociates(a: Bytes, b: Bytes, c: Bytes)
    ensures (a + b) + c == a + (b + c)
  {
  }

  lemma {:induction false} EncodeConcat(s: Text, t: Text)
    requires Encodable(s) && Encodable(t)
    ensures Encodable(s + t) && Encode(s + t) == Encode(s) + Encode(t)
  {
    if s == [] {
      assert s + t == t;
    } else {
      assert (s + t)[0] == s[0] && (s + t)[1..] == s[1..] + t;
      EncodeConcat(s[1..], t);
      ConcatAssociates(EncodeOne(s[0]), Encode(s[1..]), Encode(t));
    }
  }

  predicate Ascii(s: Text)
  {
    forall i :: 0 <= i < |s| ==> s[i] < 0x80
  }

  lemma {:induction false} AsciiIsItself(s: Text)
    requires Ascii(s)
    ensures Encodable(s) && Encode(s) == s
  {
    if s != [] {
      AsciiIsItself(s[1..]);
      assert s == [s[0]] + s[1..];
    }
  }

  /** The bits of a code point in the places of section 3 of RFC 3629, in the shortest form that holds them. */
  lemma {:induction false} BitsInPlace(c: nat)
    requires Scalar(c)
    ensures var b: seq<int> := EncodeOne(c);
      && (|b| == 1 <==> c <= 0x7F) && (|b| <= 2 <==> c <= 0x7FF) && (|b| <= 3 <==> c <= 0xFFFF)
      && (forall i :: 1 <= i < |b| ==> 0x80 <= b[i] < 0xC0)
      && (|b| == 1 ==> b[0] == c)
      && (|b| == 2 ==> 0xC0 <= b[0] < 0xE0 && (b[0] - 0xC0) * 64 + (b[1] - 0x80) == c)
      && (|b| == 3 ==> 0xE0 <= b[0] < 0xF0 && ((b[0] - 0xE0) * 64 + (b[1] - 0x80)) * 64 + (b[2] - 0x80) == c)
      && (|b| == 4 ==> 0xF0 <= b[0] < 0xF5
                       && (((b[0] - 0xF0) * 64 + (b[1] - 0x80)) * 64 + (b[2] - 0x80)) * 64 + (b[3] - 0x80) == c)
  {
    SplitDigits(c);
  }

  /** No surrogate, and nothing above the last code point, is ever decoded; all others are by their encoding. */
  lemma {:induction false} OneIsDecodedIff(c: nat)
    ensures (exists b: Bytes :: b != [] && DecodeOne(b) == Some(c)) <==> c <= 0xD7FF || 0xE000 <= c <= 0x10FFFF
  {
    if Scalar(c) {
      DecodeEncodedOne(c, []);
      assert EncodeOne(c) + [] != [];
    }
  }
}
