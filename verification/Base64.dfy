/**
 * URL-safe base64 (section 5 of RFC 4648) as the JWS codec uses it: padding stripped on the way
 * out, added without much care on the way in, and decoded by a lenient decoder.
 */
module Base64 {
  import opened Wrappers
  import opened Utf8

  const PAD: byte := 61

  function Symbol(v: nat): byte
    requires v < 64
  {
    if v < 26 then 65 + v
    else if v < 52 then 71 + v
    else if v < 62 then v - 4
    else if v == 62 then 45
    else 95
  }

  /** Both alphabets are understood, since '-' and '_' are translated to '+' and '/' first. */
  function Value(b: byte): Option<nat>
  {
    if 65 <= b <= 90 then Some(b - 65)
    else if 97 <= b <= 122 then Some(b - 71)
    else if 48 <= b <= 57 then Some(b + 4)
    else if b == 45 || b == 43 then Some(62)
    else if b == 95 || b == 47 then Some(63)
    else None
  }

  function Group(x: byte, y: byte, z: byte): (g: Bytes)
    ensures |g| == 4
  {
    [Symbol(x / 4), Symbol(x % 4 * 16 + y / 16), Symbol(y % 16 * 4 + z / 64), Symbol(z % 64)]
  }

  function OneByte(x: byte): (g: Bytes)
    ensures |g| == 2
  {
    [Symbol(x / 4), Symbol(x % 4 * 16)]
  }

  function TwoBytes(x: byte, y: byte): (g: Bytes)
    ensures |g| == 3
  {
    [Symbol(x / 4), Symbol(x % 4 * 16 + y / 16), Symbol(y % 16 * 4)]
  }

  /** Groups of three bytes become four symbols; a last short group is padded. */
  function Padded(data: Bytes): Bytes
  {
    if |data| == 0 then []
    else if |data| == 1 then OneByte(data[0]) + [PAD, PAD]
    else if |data| == 2 then TwoBytes(data[0], data[1]) + [PAD]
    else Group(data[0], data[1], data[2]) + Padded(data[3..])
  }

  function StripPadding(b: Bytes): Bytes
  {
    if b != [] && b[|b| - 1] == PAD then StripPadding(b[..|b| - 1]) else b
  }

  function UrlEncode(data: Bytes): Bytes
  {
    StripPadding(Padded(data))
  }

  function Pads(n: nat): (r: Bytes)
    ensures |r| == n && forall i :: 0 <= i < n ==> r[i] == PAD
  {
    seq(n, i => PAD)
  }

  /** One to four pads: a text whose length is a multiple of four gets four too many. */
  function FixPadding(b: Bytes): Bytes
  {
    b + Pads(4 - |b| % 4)
  }

  /**
   * The decoder's loop from some position in a group of four on. Unknown symbols, and pads where
   * none can be, are skipped; enough pads end the input whatever follows them; and input that ends
   * inside a group without them is an error.
   */
  function DecodeFrom(b: Bytes, position: nat, left: nat, pads: nat): Option<Bytes>
    requires position < 4
    requires (position == 0 ==> left == 0) && (position == 1 ==> left < 64) && (position == 2 ==> left < 16) && (position == 3 ==> left < 4)
    decreases |b|
  {
    if b == [] then if position == 0 then Some([]) else None
    else if b[0] == PAD then
      if position < 2 then DecodeFrom(b[1..], position, left, pads)
      else if position + pads + 1 >= 4 then Some([])
      else DecodeFrom(b[1..], position, left, pads + 1)
    else
      match Value(b[0])
      case None => DecodeFrom(b[1..], position, left, pads)
      case Some(v) =>
        if position == 0 then DecodeFrom(b[1..], 1, v, 0)
        else if position == 1 then Prepend(left * 4 + v / 16, DecodeFrom(b[1..], 2, v % 16, 0))
        else if position == 2 then Prepend(left * 16 + v / 4, DecodeFrom(b[1..], 3, v % 4, 0))
        else Prepend(left * 64 + v, DecodeFrom(b[1..], 0, 0, 0))
  }

  function Prepend(b: byte, rest: Option<Bytes>): Option<Bytes>
  {
    match rest
    case None => None
    case Some(bytes) => Some([b] + bytes)
  }

  function UrlDecode(b: Bytes): Option<Bytes>
  {
    DecodeFrom(FixPadding(b), 0, 0, 0)
  }

  // ---- Round trip ----

  /** The encoding without its padding. */
  function Symbols(data: Bytes): Bytes
  {
    if |data| == 0 then []
    else if |data| == 1 then OneByte(data[0])
    else if |data| == 2 then TwoBytes(data[0], data[1])
    else Group(data[0], data[1], data[2]) + Symbols(data[3..])
  }

  /** A letter, a digit, '-' or '_'. */
  predicate IsSymbol(b: byte)
  {
    65 <= b <= 90 || 97 <= b <= 122 || 48 <= b <= 57 || b == 45 || b == 95
  }

  predicate AllSymbols(b: Bytes)
  {
    forall i :: 0 <= i < |b| ==> IsSymbol(b[i])
  }

  function Missing(data: Bytes): (n: nat)
    ensures n <= 2
  {
    if |data| == 0 then 0 else if |data| == 1 then 2 else if |data| == 2 then 1 else Missing(data[3..])
  }

  lemma {:induction false} GroupSymbols(x: byte, y: byte, z: byte)
    ensures AllSymbols(Group(x, y, z))
  {
  }

  lemma {:induction false} ShortSymbols(x: byte, y: byte)
    ensures AllSymbols(OneByte(x)) && AllSymbols(TwoBytes(x, y))
    ensures Pads(2) == [PAD, PAD] && Pads(1) == [PAD]
  {
  }

  lemma {:induction false} SymbolsLength(data: Bytes)
    ensures (|Symbols(data)| + Missing(data)) % 4 == 0
  {
    if |data| > 2 {
      SymbolsLength(data[3..]);
    }
  }

  lemma {:induction false} SymbolsShape(data: Bytes)
    ensures AllSymbols(Symbols(data)) && Padded(data) == Symbols(data) + Pads(Missing(data))
  {
    if |data| == 0 {
    } else if |data| <= 2 {
      ShortSymbols(data[0], if |data| == 1 then data[0] else data[1]);
    } else {
      var group, rest := Group(data[0], data[1], data[2]), Symbols(data[3..]);
      GroupSymbols(data[0], data[1], data[2]);
      SymbolsShape(data[3..]);
      assert group + (rest + Pads(Missing(data))) == (group + rest) + Pads(Missing(data));
    }
  }

  lemma {:induction false} StripPads(b: Bytes, n: nat)
    requires AllSymbols(b)
    ensures StripPadding(b + Pads(n)) == b
    decreases n
  {
    var padded := b + Pads(n);
    if n > 0 {
      assert padded[..|padded| - 1] == b + Pads(n - 1);
      StripPads(b, n - 1);
    } else {
      assert padded == b;
    }
  }

  /** What is written is url-safe: no pad, no dot, no '+' and no '/'. */
  lemma {:induction false} EncodedAreSymbols(data: Bytes)
    ensures UrlEncode(data) == Symbols(data) && AllSymbols(UrlEncode(data))
  {
    SymbolsShape(data);
    StripPads(Symbols(data), Missing(data));
  }

  lemma {:induction false} OnlyPads(n: nat)
    ensures DecodeFrom(Pads(n), 0, 0, 0) == Some([])
  {
    if n > 0 {
      assert Pads(n)[1..] == Pads(n - 1);
      OnlyPads(n - 1);
    }
  }

  /** One step of the decoder on a symbol. */
  lemma {:induction false} SymbolDecoded(v: nat, rest: Bytes, position: nat, left: nat)
    requires v < 64 && position < 4
    requires (position == 0 ==> left == 0) && (position == 1 ==> left < 64) && (position == 2 ==> left < 16) && (position == 3 ==> left < 4)
    ensures DecodeFrom([Symbol(v)] + rest, position, left, 0)
         == if position == 0 then DecodeFrom(rest, 1, v, 0)
            else if position == 1 then Prepend(left * 4 + v / 16, DecodeFrom(rest, 2, v % 16, 0))
            else if position == 2 then Prepend(left * 16 + v / 4, DecodeFrom(rest, 3, v % 4, 0))
            else Prepend(left * 64 + v, DecodeFrom(rest, 0, 0, 0))
  {
  }

  lemma {:induction false} GroupDigits(x: byte, y: byte, z: byte)
    ensures x / 4 * 4 + (x % 4 * 16 + y / 16) / 16 == x
    ensures (x % 4 * 16 + y / 16) % 16 * 16 + (y % 16 * 4 + z / 64) / 4 == y
    ensures (y % 16 * 4 + z / 64) % 4 * 64 + z % 64 == z
  {
  }

  /** One full group of four symbols is decoded to its three bytes. */
  lemma {:induction false} GroupDecoded(x: byte, y: byte, z: byte, rest: Bytes)
    ensures DecodeFrom(Group(x, y, z) + rest, 0, 0, 0) == Prepend(x, Prepend(y, Prepend(z, DecodeFrom(rest, 0, 0, 0))))
  {
    GroupDigits(x, y, z);
    FourSymbolsDecoded(x / 4, x % 4 * 16 + y / 16, y % 16 * 4 + z / 64, z % 64, x, y, z, rest);
  }

  lemma {:induction false} FourSymbolsDecoded(a: nat, b: nat, c: nat, d: nat, x: byte, y: byte, z: byte, rest: Bytes)
    requires a < 64 && b < 64 && c < 64 && d < 64
    requires a * 4 + b / 16 == x && b % 16 * 16 + c / 4 == y && c % 4 * 64 + d == z
    ensures DecodeFrom([Symbol(a), Symbol(b), Symbol(c), Symbol(d)] + rest, 0, 0, 0)
         == Prepend(x, Prepend(y, Prepend(z, DecodeFrom(rest, 0, 0, 0))))
  {
    assert [Symbol(a), Symbol(b), Symbol(c), Symbol(d)] + rest == [Symbol(a)] + ([Symbol(b)] + ([Symbol(c)] + ([Symbol(d)] + rest)));
    SymbolDecoded(d, rest, 3, c % 4);
    SymbolDecoded(c, [Symbol(d)] + rest, 2, b % 16);
    SymbolDecoded(b, [Symbol(c)] + ([Symbol(d)] + rest), 1, a);
    SymbolDecoded(a, [Symbol(b)] + ([Symbol(c)] + ([Symbol(d)] + rest)), 0, 0);
  }

  lemma {:induction false} PadsEndGroup(position: nat, left: nat)
    requires 2 <= position < 4
    requires (position == 2 ==> left < 16) && (position == 3 ==> left < 4)
    ensures DecodeFrom(Pads(4 - position), position, left, 0) == Some([])
  {
  }

  lemma {:induction false} OneByteDecoded(x: byte)
    ensures DecodeFrom(OneByte(x) + Pads(2), 0, 0, 0) == Some([x])
  {
    var a, b := x / 4, x % 4 * 16;
    assert OneByte(x) + Pads(2) == [Symbol(a)] + ([Symbol(b)] + Pads(2));
    PadsEndGroup(2, b % 16);
    SymbolDecoded(b, Pads(2), 1, a);
    SymbolDecoded(a, [Symbol(b)] + Pads(2), 0, 0);
    assert a * 4 + b / 16 == x;
    assert [x] + [] == [x];
  }

  lemma {:induction false} TwoBytesDecoded(x: byte, y: byte)
    ensures DecodeFrom(TwoBytes(x, y) + Pads(1), 0, 0, 0) == Some([x, y])
  {
    var a, b, c := x / 4, x % 4 * 16 + y / 16, y % 16 * 4;
    assert TwoBytes(x, y) + Pads(1) == [Symbol(a)] + ([Symbol(b)] + ([Symbol(c)] + Pads(1)));
    PadsEndGroup(3, c % 4);
    SymbolDecoded(c, Pads(1), 2, b % 16);
    SymbolDecoded(b, [Symbol(c)] + Pads(1), 1, a);
    SymbolDecoded(a, [Symbol(b)] + ([Symbol(c)] + Pads(1)), 0, 0);
    assert a * 4 + b / 16 == x && b % 16 * 16 + c / 4 == y;
    assert [x] + ([y] + []) == [x, y];
  }

  lemma {:induction false} ShortGroupDecoded(data: Bytes)
    requires 1 <= |data| <= 2
    ensures DecodeFrom(Symbols(data) + Pads(Missing(data)), 0, 0, 0) == Some(data)
  {
    if |data| == 1 {
      assert [data[0]] == data;
      OneByteDecoded(data[0]);
    } else {
      assert [data[0], data[1]] == data;
      TwoBytesDecoded(data[0], data[1]);
    }
  }

  /** However many pads too many follow, as long as they complete the last group. */
  lemma {:induction false} SymbolsDecoded(data: Bytes, pads: nat)
    requires Missing(data) != 0 ==> pads == Missing(data)
    ensures DecodeFrom(Symbols(data) + Pads(pads), 0, 0, 0) == Some(data)
  {
    if |data| == 0 {
      assert Symbols(data) + Pads(pads) == Pads(pads);
      OnlyPads(pads);
    } else if |data| <= 2 {
      ShortGroupDecoded(data);
    } else {
      Reassembled(data);
      ConcatAssociates(Group(data[0], data[1], data[2]), Symbols(data[3..]), Pads(pads));
      SymbolsDecoded(data[3..], pads);
      GroupDecoded(data[0], data[1], data[2], Symbols(data[3..]) + Pads(pads));
    }
  }

  lemma {:induction false} Reassembled(data: Bytes)
    requires |data| > 2
    ensures Prepend(data[0], Prepend(data[1], Prepend(data[2], Some(data[3..])))) == Some(data)
  {
    assert data == [data[0]] + ([data[1]] + ([data[2]] + data[3..]));
  }

  /** Stripping and over-padding lose nothing. */
  lemma {:induction false} UrlRoundTrip(data: Bytes)
    ensures UrlDecode(UrlEncode(data)) == Some(data)
  {
    EncodedAreSymbols(data);
    SymbolsLength(data);
    SymbolsDecoded(data, 4 - |Symbols(data)| % 4);
  }

  // ---- The alphabet, and what the decoder tolerates ----

  /** Letters, small letters, digits, and then '-' and '_', stand for 0 to 63; decoding reads them so. */
  lemma {:induction false} SymbolIsLetter(v: nat)
    requires v < 64
    ensures v < 26 ==> Symbol(v) == 'A' as int + v
    ensures 26 <= v < 52 ==> Symbol(v) == 'a' as int + (v - 26)
    ensures 52 <= v < 62 ==> Symbol(v) == '0' as int + (v - 52)
    ensures Symbol(62) == '-' as int && Symbol(63) == '_' as int
    ensures Value(Symbol(v)) == Some(v)
  {
  }

  function Digit(b: byte): nat { match Value(b) case Some(v) => v case None => 0 }

  /** The bits are written in order, highest first, and a short group is filled up with zeros. */
  lemma {:induction false} BitsInOrder(x: byte, y: byte, z: byte)
    ensures var g := Group(x, y, z);
      ((Digit(g[0]) * 64 + Digit(g[1])) * 64 + Digit(g[2])) * 64 + Digit(g[3]) == (x * 256 + y) * 256 + z
    ensures var g := TwoBytes(x, y);
      (Digit(g[0]) * 64 + Digit(g[1])) * 64 + Digit(g[2]) == (x * 256 + y) * 4
    ensures var g := OneByte(x);
      Digit(g[0]) * 64 + Digit(g[1]) == x * 16
  {
    SymbolIsLetter(x / 4);
    SymbolIsLetter(x % 4 * 16);
    SymbolIsLetter(x % 4 * 16 + y / 16);
    SymbolIsLetter(y % 16 * 4);
    SymbolIsLetter(y % 16 * 4 + z / 64);
    SymbolIsLetter(z % 64);
  }

  predicate Startable(position: nat, left: nat)
  {
    && position < 4
    && (position == 0 ==> left == 0) && (position == 1 ==> left < 64) && (position == 2 ==> left < 16) && (position == 3 ==> left < 4)
  }

  /** Texts in the two alphabets are read alike. */
  lemma {:induction false} BothAlphabetsRead(a: Bytes, b: Bytes, position: nat, left: nat, pads: nat)
    requires Startable(position, left) && |a| == |b|
    requires forall i :: 0 <= i < |a| ==> a[i] == b[i] || (a[i] == 43 && b[i] == 45) || (a[i] == 47 && b[i] == 95)
    ensures DecodeFrom(a, position, left, pads) == DecodeFrom(b, position, left, pads)
    decreases |a|
  {
    if a != [] {
      if a[0] == PAD {
        if position < 2 || position + pads + 1 < 4 {
          BothAlphabetsRead(a[1..], b[1..], position, left, if position < 2 then pads else pads + 1);
        }
      } else {
        match Value(a[0])
        case None => BothAlphabetsRead(a[1..], b[1..], position, left, pads);
        case Some(v) =>
          BothAlphabetsRead(a[1..], b[1..], (position + 1) % 4,
                            if position == 0 then v else if position == 1 then v % 16 else if position == 2 then v % 4 else 0, 0);
      }
    }
  }

  /** A byte of neither alphabet is skipped, wherever it stands. */
  lemma {:induction false} StrangersSkipped(before: Bytes, stranger: byte, after: Bytes, position: nat, left: nat, pads: nat)
    requires Startable(position, left) && !IsSymbol(stranger) && stranger !in {PAD, 43, 47}
    ensures DecodeFrom(before + [stranger] + after, position, left, pads) == DecodeFrom(before + after, position, left, pads)
    decreases |before|
  {
    if before == [] {
      assert before + [stranger] + after == [stranger] + after && before + after == after;
    } else {
      var rest := before[1..];
      assert (before + [stranger] + after)[1..] == rest + [stranger] + after && (before + after)[1..] == rest + after;
      if before[0] == PAD {
        if position < 2 || position + pads + 1 < 4 {
          StrangersSkipped(rest, stranger, after, position, left, if position < 2 then pads else pads + 1);
        }
      } else {
        match Value(before[0])
        case None => StrangersSkipped(rest, stranger, after, position, left, pads);
        case Some(v) =>
          StrangersSkipped(rest, stranger, after, (position + 1) % 4,
                           if position == 0 then v else if position == 1 then v % 16 else if position == 2 then v % 4 else 0, 0);
      }
    }
  }

  /** Symbols alone are decoded exactly when they come in whole groups of four. */
  lemma {:induction false} WholeGroupsIff(b: Bytes, position: nat, left: nat)
    requires Startable(position, left) && AllSymbols(b)
    ensures DecodeFrom(b, position, left, 0).Some? <==> (position + |b|) % 4 == 0
    decreases |b|
  {
    if b != [] {
      assert IsSymbol(b[0]);
      var v := Value(b[0]).value;
      WholeGroupsIff(b[1..], (position + 1) % 4,
                     if position == 0 then v else if position == 1 then v % 16 else if position == 2 then v % 4 else 0);
    }
  }

  /** A last group of one byte needs both of its pads. */
  lemma {:induction false} TooFewPadsRefused(data: Bytes, pads: nat)
    requires pads < Missing(data)
    ensures DecodeFrom(Symbols(data) + Pads(pads), 0, 0, 0) == None
  {
    if pads == 0 {
      SymbolsShape(data);
      SymbolsLength(data);
      assert Symbols(data) + Pads(0) == Symbols(data);
      WholeGroupsIff(Symbols(data), 0, 0);
    } else if |data| <= 2 {
      var v, w := data[0] / 4, data[0] % 4 * 16;
      assert Symbols(data) + Pads(1) == [Symbol(v)] + ([Symbol(w)] + [PAD]);
      SymbolDecoded(v, [Symbol(w)] + [PAD], 0, 0);
      SymbolDecoded(w, [PAD], 1, v);
    } else {
      ConcatAssociates(Group(data[0], data[1], data[2]), Symbols(data[3..]), Pads(pads));
      TooFewPadsRefused(data[3..], pads);
      GroupDecoded(data[0], data[1], data[2], Symbols(data[3..]) + Pads(pads));
    }
  }
}
