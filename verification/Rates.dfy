/**
 * The table of conversion rates between the wallet's one blockchain currency and the fiat
 * currencies: each pair is quoted in one direction and its reverse is computed.
 */
module Rates {
  import opened Wrappers
  import opened Decimals
  import opened Amounts

  datatype Currency = USD | EUR | GBP | CHF | CAD | AUD | NZD | JPY | XUS

  datatype Pair = Pair(base: Currency, quote: Currency)

  const FIAT: seq<Currency> := [USD, EUR, GBP, CHF, CAD, AUD, NZD, JPY]

  lemma {:induction false} FiatComplete(c: Currency)
    requires c != XUS
    ensures c in FIAT
  {
  }

  /** The pairs the liquidity provider quotes, some from the blockchain currency and some to it. */
  predicate Quoted(p: Pair)
  {
    p in {Pair(XUS, USD), Pair(XUS, EUR), Pair(EUR, XUS), Pair(XUS, JPY), Pair(XUS, CHF), Pair(XUS, CAD),
          Pair(GBP, XUS), Pair(AUD, XUS), Pair(NZD, XUS)}
  }

  /** LookupError means no such pair; ProviderError is any other exception on the way. */
  datatype RateError = LookupError | ProviderError | DivisionByZero

  /** The quotient of one and a rate never has too many digits. */
  lemma {:induction false} ReverseExists(rate: int)
    requires rate != 0
    ensures Ratio(UNIT, rate).Some?
  {
    MulLeft(1, Abs(rate), LIMIT);
    SmallAtMostLimit(UNIT * UNIT, Abs(rate));
  }

  /** A stored pair of rates: the reverse is the quotient of one and the quoted rate. */
  predicate Inverse(rate: int, reverse: int)
  {
    rate != 0 && Ratio(UNIT, rate) == Some(reverse)
  }

  /** An answer of the provider from which both directions can be stored. */
  predicate Usable(answer: Option<int>)
  {
    answer.Some? && Deserialized(answer.value).Some? && Deserialized(answer.value).value != 0
  }

  /** The direction in which a fiat currency is quoted. */
  function QuotedPair(c: Currency): Pair
  {
    if Quoted(Pair(XUS, c)) then Pair(XUS, c) else Pair(c, XUS)
  }

  predicate WithXus(p: Pair)
  {
    (p.base == XUS) != (p.quote == XUS)
  }

  /** Rates are values: no operation changes an amount once it is in the table. */
  type Table = map<Pair, int>

  predicate BothWays(t: Table, base: Currency, quote: Currency)
  {
    Pair(base, quote) in t && Pair(quote, base) in t && Inverse(t[Pair(base, quote)], t[Pair(quote, base)])
  }

  predicate Convertible(t: Table, c: Currency)
  {
    BothWays(t, XUS, c) || BothWays(t, c, XUS)
  }

  lemma {:induction false} FiatDistinct()
    ensures XUS !in FIAT && forall i, j :: 0 <= i < j < |FIAT| ==> FIAT[i] != FIAT[j]
  {
  }

  /** Setting the rates of one fiat currency leaves the others convertible. */
  lemma {:induction false} OthersConvertible(before: Table, after: Table, set': Currency, other: Currency)
    requires Convertible(before, other) && other != set' && other != XUS && set' != XUS
    requires forall p :: p in before && p.base != set' && p.quote != set' ==> p in after && after[p] == before[p]
    ensures Convertible(after, other)
  {
  }

  predicate AllConvertible(t: Table, currencies: seq<Currency>)
  {
    forall c :: c in currencies ==> Convertible(t, c)
  }

  lemma {:induction false} OneMoreConvertible(before: Table, after: Table, currencies: seq<Currency>, next: Currency)
    requires XUS !in currencies && next != XUS && next !in currencies
    requires AllConvertible(before, currencies) && Convertible(after, next)
    requires forall p :: p in before && p.base != next && p.quote != next ==> p in after && after[p] == before[p]
    ensures AllConvertible(after, currencies + [next])
  {
    forall c | c in currencies ensures Convertible(after, c) {
      OthersConvertible(before, after, next, c);
    }
  }

  class Fx {
    var rates: Table

    constructor ()
      ensures rates == map[]
    {
      rates := map[];
    }

    /** The quote is stored before its reverse is computed, so a zero quote leaves half a pair. */
    method SetRate(base: Currency, quote: Currency, quotes: Pair -> Option<int>) returns (error: Option<RateError>)
      requires base != quote
      modifies this
      ensures error == Some(LookupError) <==> !Quoted(Pair(base, quote))
      ensures error == Some(LookupError) ==> rates == old(rates)
      ensures error.None? <==> Quoted(Pair(base, quote)) && Usable(quotes(Pair(base, quote)))
      ensures error.None? ==> BothWays(rates, base, quote)
      ensures error.None? ==> quotes(Pair(base, quote)).Some?
                              && Deserialized(quotes(Pair(base, quote)).value) == Some(rates[Pair(base, quote)])
      ensures error == Some(DivisionByZero) ==> rates == old(rates)[Pair(base, quote) := 0]
      ensures forall p :: p in old(rates) && p != Pair(base, quote) && p != Pair(quote, base) ==>
                p in rates && rates[p] == old(rates)[p]
      ensures rates.Keys <= old(rates).Keys + {Pair(base, quote), Pair(quote, base)}
    {
      if !Quoted(Pair(base, quote)) {
        return Some(LookupError);
      }
      var answer := quotes(Pair(base, quote));
      if answer.None? || Deserialized(answer.value).None? {
        return Some(ProviderError);
      }
      var rate := Deserialized(answer.value).value;
      rates := rates[Pair(base, quote) := rate];
      if rate == 0 {
        return Some(DivisionByZero);
      }
      ReverseExists(rate);
      rates := rates[Pair(quote, base) := Ratio(UNIT, rate).value];
      return None;
    }

    /** From the blockchain currency if that is quoted, and otherwise to it. */
    method SetEitherWay(currency: Currency, quotes: Pair -> Option<int>) returns (error: Option<RateError>)
      requires currency != XUS
      modifies this
      ensures error.None? <==> Usable(quotes(QuotedPair(currency)))
      ensures error.None? ==> Convertible(rates, currency)
      ensures error != Some(LookupError)
      ensures rates.Keys <= old(rates).Keys + {Pair(XUS, currency), Pair(currency, XUS)}
      ensures forall p :: p in old(rates) && p.base != currency && p.quote != currency ==> p in rates && rates[p] == old(rates)[p]
    {
      error := SetRate(XUS, currency, quotes);
      if error == Some(LookupError) {
        error := SetRate(currency, XUS, quotes);
        assert Quoted(Pair(XUS, currency)) || Quoted(Pair(currency, XUS));
      }
    }

    /** The loop over the currencies other than the base one, up to the first error. */
    method SetEach(currencies: seq<Currency>, quotes: Pair -> Option<int>, ghost usable: Currency -> bool) returns (error: Option<RateError>)
      requires XUS !in currencies && forall i, j :: 0 <= i < j < |currencies| ==> currencies[i] != currencies[j]
      requires forall c {:trigger QuotedPair(c)} :: usable(c) <==> Usable(quotes(QuotedPair(c)))
      modifies this
      ensures error.None? <==> forall c :: c in currencies ==> usable(c)
      ensures error.None? ==> AllConvertible(rates, currencies)
      ensures error != Some(LookupError)
      ensures forall p :: p in rates && p !in old(rates) ==> WithXus(p)
    {
      error := None;
      for i := 0 to |currencies|
        invariant error.None?
        invariant forall c :: c in currencies[..i] ==> usable(c)
        invariant forall p :: p in rates && p !in old(rates) ==> WithXus(p)
        invariant AllConvertible(rates, currencies[..i])
      {
        ghost var before := rates;
        assert currencies[..i + 1] == currencies[..i] + [currencies[i]];
        error := SetEitherWay(currencies[i], quotes);
        if error.Some? {
          return;
        }
        OneMoreConvertible(before, rates, currencies[..i], currencies[i]);
      }
      assert currencies[..|currencies|] == currencies;
    }

    /** Without an error every fiat currency can be converted both ways; no other pair is ever added. */
    method UpdateRates(quotes: Pair -> Option<int>) returns (error: Option<RateError>)
      modifies this
      ensures error.None? <==> forall c :: c != XUS ==> Usable(quotes(QuotedPair(c)))
      ensures error.None? ==> forall c :: c != XUS ==> Convertible(rates, c)
      ensures error != Some(LookupError)
      ensures forall p :: p in rates && p !in old(rates) ==> WithXus(p)
    {
      ghost var usable := c => Usable(quotes(QuotedPair(c)));
      FiatDistinct();
      error := SetEach(FIAT, quotes, usable);
      forall c | c != XUS ensures c in FIAT {
        FiatComplete(c);
      }
    }

    method GetRate(base: Currency, quote: Currency, quotes: Pair -> Option<int>) returns (rate: Option<int>)
      modifies this
      ensures Pair(base, quote) in old(rates) ==> rate == Some(old(rates)[Pair(base, quote)]) && rates == old(rates)
      ensures rate.Some? ==> Pair(base, quote) in rates && rate == Some(rates[Pair(base, quote)])
      ensures rate.None? <==> && Pair(base, quote) !in old(rates)
                              && (!WithXus(Pair(base, quote)) || exists c :: c != XUS && !Usable(quotes(QuotedPair(c))))
    {
      if Pair(base, quote) !in rates {
        var error := UpdateRates(quotes);
        if error.None? && WithXus(Pair(base, quote)) {
          assert Convertible(rates, if base == XUS then quote else base);
        }
        if error.Some? || Pair(base, quote) !in rates {
          return None;
        }
      }
      return Some(rates[Pair(base, quote)]);
    }
  }

  /** The two directions of a positive rate multiply to one, up to 0.55 micro-units of the quoted one. */
  lemma {:induction false} BothWaysInverse(t: Table, base: Currency, quote: Currency)
    requires BothWays(t, base, quote) && t[Pair(base, quote)] > 0
    ensures 100 * Abs(t[Pair(base, quote)] * t[Pair(quote, base)] - UNIT * UNIT) <= 55 * t[Pair(base, quote)]
  {
    InverseRate(t[Pair(base, quote)]);
  }
}
