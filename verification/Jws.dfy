/**
 * The JWS compact form (section 7.1 of RFC 7515): header, payload and signature in base64, joined
 * by dots, where the signature is over the first two with their dot.
 */
module Jws {
  import opened Wrappers
  import opened Utf8
  import opened Base64

  const DOT: byte := 46

  /** The header {"alg":"EdDSA"}. */
  const HEADER_JSON: Bytes := [123, 34, 97, 108, 103, 34, 58, 34, 69, 100, 68, 83, 65, 34, 125]

  function BytesOf(s: string): Bytes
    requires forall i :: 0 <= i < |s| ==> s[i] < 128 as char
  {
    seq(|s|, i requires 0 <= i < |s| => s[i] as int)
  }

  lemma {:induction false} HeaderText()
    ensures HEADER_JSON == BytesOf("{\"alg\":\"EdDSA\"}")
  {
  }

  function ProtectedHeader(): Bytes
  {
    UrlEncode(HEADER_JSON)
  }

  datatype JwsError = NotUtf8 | NotThreeParts | BadBase64 | HeaderUnreadable | WrongAlgorithm

  /** The decoded body, the signature, and the bytes the signature is over. */
  datatype Opened = Opened(body: Text, signature: Bytes, signed: Bytes)

  function SigningMessage(payload: Bytes, header: Bytes): Bytes
  {
    header + [DOT] + payload
  }

  /** None when the string has no encoding. */
  function SerializeString(s: Text, sign: Bytes -> Bytes): Option<Bytes>
  {
    if !Encodable(s) then None
    else
      var msg := SigningMessage(UrlEncode(Encode(s)), ProtectedHeader());
      Some(msg + [DOT] + UrlEncode(sign(msg)))
  }

  // ---- Splitting on dots ----

  function Split(s: Text): (parts: seq<Text>)
    ensures |parts| >= 1
  {
    if s == [] then [[]]
    else
      var rest := Split(s[1..]);
      if s[0] == DOT then [[]] + rest else [[s[0]] + rest[0]] + rest[1..]
  }

  predicate NoDot(s: Text)
  {
    forall i :: 0 <= i < |s| ==> s[i] != DOT
  }

  lemma {:induction false} SplitWithoutDot(s: Text)
    requires NoDot(s)
    ensures Split(s) == [s]
  {
    if s != [] {
      SplitWithoutDot(s[1..]);
      assert [s[0]] + s[1..] == s;
    }
  }

  lemma {:induction false} SplitAtFirstDot(s: Text, rest: Text)
    requires NoDot(s)
    ensures Split(s + [DOT] + rest) == [s] + Split(rest)
  {
    var all := s + [DOT] + rest;
    if s == [] {
      assert all[1..] == rest;
    } else {
      assert all[1..] == s[1..] + [DOT] + rest;
      SplitAtFirstDot(s[1..], rest);
      assert [s[0]] + s[1..] == s;
    }
  }

  lemma {:induction false} SplitThree(h: Text, b: Text, s: Text)
    requires NoDot(h) && NoDot(b) && NoDot(s)
    ensures Split(h + [DOT] + b + [DOT] + s) == [h, b, s]
  {
    assert h + [DOT] + b + [DOT] + s == h + [DOT] + (b + [DOT] + s);
    SplitAtFirstDot(h, b + [DOT] + s);
    SplitAtFirstDot(b, s);
    SplitWithoutDot(s);
  }

  /** A text is its parts joined by dots, and no part has a dot. */
  function Join(parts: seq<Text>): Text
    requires |parts| >= 1
  {
    if |parts| == 1 then parts[0] else parts[0] + [DOT] + Join(parts[1..])
  }

  lemma {:induction false} JoinSplit(s: Text)
    ensures Join(Split(s)) == s
    ensures forall i :: 0 <= i < |Split(s)| ==> NoDot(Split(s)[i])
  {
    if s != [] {
      JoinSplit(s[1..]);
      var rest := Split(s[1..]);
      var all := Split(s);
      if s[0] == DOT {
        assert all[1..] == rest;
        assert s == [] + [DOT] + s[1..];
      } else {
        assert all[1..] == rest[1..];
        assert s == [s[0]] + s[1..];
        if |rest| > 1 {
          assert [s[0]] + rest[0] + [DOT] + Join(rest[1..]) == [s[0]] + (rest[0] + [DOT] + Join(rest[1..]));
        }
      }
    }
  }

  lemma {:induction false} PartsEncodable(s: Text)
    requires Encodable(s)
    ensures forall i :: 0 <= i < |Split(s)| ==> Encodable(Split(s)[i])
  {
    if s != [] {
      PartsEncodable(s[1..]);
      var rest := Split(s[1..]);
      assert Encodable(rest[0]);
    }
  }

  // ---- Deserializing ----

  function DecodeText(part: Bytes): Result<Text, JwsError>
  {
    match UrlDecode(part)
    case None => Err(BadBase64)
    case Some(bytes) => if Decode(bytes).None? then Err(NotUtf8) else Ok(Decode(bytes).value)
  }

  /** The alg entry of a header, through a JSON reader that fails on anything without one. */
  function HeaderAlg(header: Bytes, algOf: Text -> Option<string>): Result<string, JwsError>
  {
    match DecodeText(header)
    case Err(e) => Err(e)
    case Ok(text) => if algOf(text).None? then Err(HeaderUnreadable) else Ok(algOf(text).value)
  }

  function Open(header: Bytes, body: Bytes, sig: Bytes, algOf: Text -> Option<string>): Result<Opened, JwsError>
  {
    var theirs, ours := HeaderAlg(header, algOf), HeaderAlg(ProtectedHeader(), algOf);
    if theirs.Err? then Err(theirs.error)
    else if ours.Err? then Err(ours.error)
    else if theirs.value != ours.value then Err(WrongAlgorithm)
    else if DecodeText(body).Err? then Err(DecodeText(body).error)
    else if UrlDecode(sig).None? then Err(BadBase64)
    else Ok(Opened(DecodeText(body).value, UrlDecode(sig).value, SigningMessage(body, header)))
  }

  function DeserializeString(msg: Bytes, algOf: Text -> Option<string>): Result<Opened, JwsError>
  {
    match Decode(msg)
    case None => Err(NotUtf8)
    case Some(text) =>
      EncodeDecode(msg);
      PartsEncodable(text);
      var parts := Split(text);
      if |parts| != 3 then Err(NotThreeParts)
      else Open(Encode(parts[0]), Encode(parts[1]), Encode(parts[2]), algOf)
  }

  // ---- Round trip ----

  lemma {:induction false} SymbolsArePlain(b: Bytes)
    requires AllSymbols(b)
    ensures Ascii(b) && NoDot(b) && Encodable(b) && Encode(b) == b
  {
    AsciiIsItself(b);
  }

  lemma {:induction false} AsciiDecodes(s: Bytes)
    requires Ascii(s)
    ensures Decode(s) == Some(s)
  {
    AsciiIsItself(s);
    DecodeEncode(s);
  }

  lemma {:induction false} AsciiConcat(a: Bytes, b: Bytes)
    requires Ascii(a) && Ascii(b)
    ensures Ascii(a + b)
  {
  }

  lemma {:induction false} AsciiThree(h: Bytes, b: Bytes, s: Bytes)
    requires Ascii(h) && Ascii(b) && Ascii(s)
    ensures Ascii(h + [DOT] + b + [DOT] + s)
  {
    AsciiConcat(h, [DOT]);
    AsciiConcat(h + [DOT], b);
    AsciiConcat(h + [DOT] + b, [DOT]);
    AsciiConcat(h + [DOT] + b + [DOT], s);
  }

  lemma {:induction false} AsciiJoined(h: Bytes, b: Bytes, s: Bytes)
    requires AllSymbols(h) && AllSymbols(b) && AllSymbols(s)
    ensures Decode(h + [DOT] + b + [DOT] + s) == Some(h + [DOT] + b + [DOT] + s)
    ensures Split(h + [DOT] + b + [DOT] + s) == [h, b, s]
  {
    SymbolsArePlain(h);
    SymbolsArePlain(b);
    SymbolsArePlain(s);
    AsciiThree(h, b, s);
    AsciiDecodes(h + [DOT] + b + [DOT] + s);
    SplitThree(h, b, s);
  }

  lemma {:induction false} EncodedTextDecodes(s: Text)
    requires Encodable(s)
    ensures DecodeText(UrlEncode(Encode(s))) == Ok(s)
  {
    UrlRoundTrip(Encode(s));
    DecodeEncode(s);
  }

  lemma {:induction false} OwnHeaderAccepted(algOf: Text -> Option<string>)
    ensures DecodeText(ProtectedHeader()) == Ok(HEADER_JSON)
  {
    AsciiIsItself(HEADER_JSON);
    EncodedTextDecodes(HEADER_JSON);
  }

  /**
   * For every string with an encoding and every signer: what comes out is the string, the
   * signature, and the very bytes that were signed. All that is asked of the JSON reader is that
   * it finds an algorithm in the codec's own header.
   */
  lemma {:induction false} RoundTrip(s: Text, sign: Bytes -> Bytes, algOf: Text -> Option<string>)
    requires Encodable(s) && algOf(HEADER_JSON).Some?
    ensures var signed := SigningMessage(UrlEncode(Encode(s)), ProtectedHeader());
            && SerializeString(s, sign).Some?
            && DeserializeString(SerializeString(s, sign).value, algOf) == Ok(Opened(s, sign(signed), signed))
  {
    var h, b := ProtectedHeader(), UrlEncode(Encode(s));
    var signed := SigningMessage(b, h);
    var sig := UrlEncode(sign(signed));
    EncodedAreSymbols(HEADER_JSON);
    EncodedAreSymbols(Encode(s));
    EncodedAreSymbols(sign(signed));
    AsciiJoined(h, b, sig);
    SymbolsArePlain(h);
    SymbolsArePlain(b);
    SymbolsArePlain(sig);
    OwnHeaderAccepted(algOf);
    EncodedTextDecodes(s);
    UrlRoundTrip(sign(signed));
  }

  // ---- Any accepted message ----

  lemma {:induction false} NoDotEncoded(s: Text)
    requires Encodable(s) && NoDot(s)
    ensures NoDot(Encode(s))
  {
    if s != [] {
      NoDotEncoded(s[1..]);
      assert forall i :: 0 <= i < |EncodeOne(s[0])| ==> EncodeOne(s[0])[i] != DOT;
    }
  }

  lemma {:induction false} EncodeThree(h: Text, b: Text, s: Text)
    requires Encodable(h) && Encodable(b) && Encodable(s)
    ensures Encodable(h + [DOT] + b + [DOT] + s)
    ensures Encode(h + [DOT] + b + [DOT] + s) == Encode(h) + [DOT] + Encode(b) + [DOT] + Encode(s)
  {
    AsciiIsItself([DOT]);
    EncodeConcat(h, [DOT]);
    EncodeConcat(h + [DOT], b);
    EncodeConcat(h + [DOT] + b, [DOT]);
    EncodeConcat(h + [DOT] + b + [DOT], s);
  }

  lemma {:induction false} ThreeParts(text: Text)
    requires |Split(text)| == 3
    ensures var parts := Split(text);
            && text == parts[0] + [DOT] + parts[1] + [DOT] + parts[2]
            && NoDot(parts[0]) && NoDot(parts[1]) && NoDot(parts[2])
  {
    JoinSplit(text);
    var parts := Split(text);
    assert parts[1..][1..] == [parts[2]];
    assert Join(parts[1..]) == parts[1] + [DOT] + parts[2];
    assert parts[0] + [DOT] + (parts[1] + [DOT] + parts[2]) == parts[0] + [DOT] + parts[1] + [DOT] + parts[2];
  }

  /** Splitting the text is splitting its bytes. */
  lemma {:induction false} ThreePartsOfBytes(msg: Bytes)
    requires Decode(msg).Some? && |Split(Decode(msg).value)| == 3
    ensures var parts := Split(Decode(msg).value);
            && Encodable(parts[0]) && Encodable(parts[1]) && Encodable(parts[2])
            && msg == Encode(parts[0]) + [DOT] + Encode(parts[1]) + [DOT] + Encode(parts[2])
            && NoDot(Encode(parts[0])) && NoDot(Encode(parts[1])) && NoDot(Encode(parts[2]))
  {
    var text := Decode(msg).value;
    EncodeDecode(msg);
    PartsEncodable(text);
    ThreeParts(text);
    var parts := Split(text);
    EncodeThree(parts[0], parts[1], parts[2]);
    NoDotEncoded(parts[0]);
    NoDotEncoded(parts[1]);
    NoDotEncoded(parts[2]);
  }

  lemma {:induction false} OpenedFrom(header: Bytes, body: Bytes, sig: Bytes, algOf: Text -> Option<string>)
    requires Open(header, body, sig, algOf).Ok?
    ensures var o := Open(header, body, sig, algOf).value;
            && o.signed == header + [DOT] + body
            && UrlDecode(sig) == Some(o.signature) && DecodeText(body) == Ok(o.body)
            && HeaderAlg(header, algOf) == HeaderAlg(ProtectedHeader(), algOf)
  {
  }

  lemma {:induction false} DeserializedFrom(msg: Bytes, algOf: Text -> Option<string>) returns (header: Bytes, body: Bytes, sig: Bytes)
    requires DeserializeString(msg, algOf).Ok?
    ensures msg == header + [DOT] + body + [DOT] + sig && NoDot(header) && NoDot(body) && NoDot(sig)
    ensures DeserializeString(msg, algOf) == Open(header, body, sig, algOf)
  {
    ThreePartsOfBytes(msg);
    var parts := Split(Decode(msg).value);
    header, body, sig := Encode(parts[0]), Encode(parts[1]), Encode(parts[2]);
  }

  /**
   * Whatever message is accepted, by whomever it was made: it has exactly two dots, the bytes handed
   * to the verifier are everything before the second, and the signature is what follows it.
   */
  lemma {:induction false} AcceptedIsSigned(msg: Bytes, algOf: Text -> Option<string>) returns (header: Bytes, body: Bytes, sig: Bytes)
    requires DeserializeString(msg, algOf).Ok?
    ensures msg == header + [DOT] + body + [DOT] + sig && NoDot(header) && NoDot(body) && NoDot(sig)
    ensures var o := DeserializeString(msg, algOf).value;
            && o.signed == header + [DOT] + body
            && UrlDecode(sig) == Some(o.signature) && DecodeText(body) == Ok(o.body)
            && HeaderAlg(header, algOf) == HeaderAlg(ProtectedHeader(), algOf)
  {
    header, body, sig := DeserializedFrom(msg, algOf);
    OpenedFrom(header, body, sig, algOf);
  }

  /**
   * Three parts without dots are accepted exactly when the header's algorithm is the codec's own, the
   * body decodes to text and the signature is base64.
   */
  lemma {:induction false} AcceptedIff(h: Text, b: Text, s: Text, algOf: Text -> Option<string>)
    requires Encodable(h) && Encodable(b) && Encodable(s) && NoDot(h) && NoDot(b) && NoDot(s)
    requires algOf(HEADER_JSON).Some?
    ensures DeserializeString(Encode(h) + [DOT] + Encode(b) + [DOT] + Encode(s), algOf).Ok?
            <==> && HeaderAlg(Encode(h), algOf) == Ok(algOf(HEADER_JSON).value)
                 && DecodeText(Encode(b)).Ok? && UrlDecode(Encode(s)).Some?
  {
    EncodeThree(h, b, s);
    DecodeEncode(h + [DOT] + b + [DOT] + s);
    SplitThree(h, b, s);
    OwnHeaderAccepted(algOf);
  }

  /** A message without exactly two dots is never accepted. */
  lemma {:induction false} OtherDotsRefused(s: Text, algOf: Text -> Option<string>)
    requires Encodable(s) && |Split(s)| != 3
    ensures DeserializeString(Encode(s), algOf) == Err(NotThreeParts)
  {
    DecodeEncode(s);
  }
}
