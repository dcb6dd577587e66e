/**
 * Fixed-point money: amounts of whole micro-units, kept to twenty significant digits. Every
 * operation rounds to twenty digits first and to whole micro-units second, half to even both times.
 */
module Amounts {
  import opened Wrappers
  import opened Decimals

  const UNIT: nat := 1_000_000
  /** A quantized number may have at most 28 digits, the precision of the default context. */
  const OVERFLOW: nat := 10_000_000_000_000_000_000_000_000_000

  function Abs(n: int): nat
  {
    if n < 0 then -n else n
  }

  /** A decimal number of micro-units: sign, coefficient and exponent of ten. */
  datatype Decimal = Decimal(negative: bool, coefficient: nat, exponent: int)

  function Numerator(d: Decimal): nat
  {
    if d.exponent >= 0 then d.coefficient * Pow10(d.exponent) else d.coefficient
  }

  function Denominator(d: Decimal): (r: nat)
    ensures r > 0
  {
    if d.exponent >= 0 then 1 else Pow10(-d.exponent)
  }

  /** The context's result for an exact n / d: twenty significant digits. */
  function InContext(negative: bool, n: nat, d: nat): Decimal
    requires d > 0
  {
    Decimal(negative, Round20(n, d).0, Round20(n, d).1)
  }

  function Signed(negative: bool, magnitude: int): int
  {
    if negative then -magnitude else magnitude
  }

  /** None is the InvalidOperation of a quantize whose result has too many digits. */
  function Quantized(d: Decimal): Option<int>
  {
    var magnitude := Quantize(d.coefficient, d.exponent);
    if magnitude >= OVERFLOW then None else Some(Signed(d.negative, magnitude))
  }

  /** What the exact value n / d, with its sign, is stored as. */
  function Stored(negative: bool, n: nat, d: nat): Option<int>
    requires d > 0
  {
    if Micro(n, d) >= OVERFLOW then None else Some(Signed(negative, Micro(n, d)))
  }

  function Deserialized(n: int): Option<int>
  {
    Stored(n < 0, Abs(n), 1)
  }

  function Product(a: int, b: int): Option<int>
  {
    Stored((a < 0) != (b < 0), Abs(a) * Abs(b), UNIT)
  }

  function Ratio(a: int, b: int): Option<int>
  {
    if b == 0 then None else Stored((a < 0) != (b < 0), Abs(a) * UNIT, Abs(b))
  }

  // ---- Rounding again changes nothing ----

  lemma {:induction false} RepresentableShifted(m: nat, e: nat)
    requires Representable(m)
    ensures Representable(m * Pow10(e))
    decreases e
  {
    if e > 0 {
      RepresentableShifted(m, e - 1);
      assert m * Pow10(e) == 10 * (m * Pow10(e - 1));
      assert (10 * (m * Pow10(e - 1))) / 10 == m * Pow10(e - 1);
    }
  }

  lemma {:induction false} Round20Coefficient(n: nat, d: nat)
    requires d > 0
    ensures Round20(n, d).0 <= LIMIT
    decreases Excess(n, d)
  {
    if n < LIMIT * d {
      LeadingDigits(n, d);
    } else {
      Round20Coefficient(n, 10 * d);
    }
  }

  /** A number of twenty digits passes a second conversion unchanged. */
  lemma {:induction false} SecondRoundingIsIdle(m: nat, e: int)
    requires m <= LIMIT
    ensures var d := Decimal(false, m, e); Micro(Numerator(d), Denominator(d)) == Quantize(m, e)
  {
    if e >= 0 {
      assert Representable(LIMIT);
      RepresentableShifted(m, e);
      MicroFixedIff(m * Pow10(e));
    } else if m < LIMIT {
      RoundedOnce(m, -e);
    } else {
      var j := -e - 1;
      assert Pow10(-e) == Pow10(j) * 10;
      MicroScaled(LIMIT / 10, Pow10(j), 10);
      RoundedOnce(LIMIT / 10, j);
      HalfEvenScaled(LIMIT / 10, Pow10(j), 10);
    }
  }

  lemma {:induction false} SetIsStored(negative: bool, n: nat, d: nat)
    requires d > 0
    ensures var r := InContext(negative, n, d);
            Quantized(InContext(negative, Numerator(r), Denominator(r))) == Stored(negative, n, d)
  {
    var (m, e) := Round20(n, d);
    Round20Coefficient(n, d);
    SecondRoundingIsIdle(m, e);
  }

  /** What is stored is stored again as itself, which is what cloning relies on. */
  lemma {:induction false} StoredAgain(negative: bool, n: nat, d: nat)
    requires d > 0 && Stored(negative, n, d).Some?
    ensures Sound(Stored(negative, n, d).value)
  {
    MicroRepresentable(n, d);
  }

  predicate Sound(value: int)
  {
    Representable(Abs(value)) && Abs(value) < OVERFLOW
  }

  lemma {:induction false} SoundIsFixed(value: int)
    ensures Sound(value) <==> Deserialized(value) == Some(value)
  {
    MicroFixedIff(Abs(value));
  }

  class Amount {
    var value: Option<int>

    ghost predicate Valid()
      reads this
    {
      value.Some? ==> Sound(value.value)
    }

    constructor ()
      ensures Valid() && value == None
    {
      value := None;
    }

    /** False stands for a raised InvalidOperation; the value is then as before. */
    method Deserialize(n: int) returns (ok: bool)
      requires Valid()
      modifies this
      ensures Valid()
      ensures ok == Deserialized(n).Some?
      ensures value == if ok then Deserialized(n) else old(value)
    {
      var created := InContext(n < 0, Abs(n), 1);
      var quantized := Quantized(created);
      ok := quantized.Some?;
      if ok {
        StoredAgain(n < 0, Abs(n), 1);
        value := quantized;
      }
    }

    method Serialize() returns (n: int)
      requires value.Some?
      ensures n == value.value
    {
      n := value.value;
    }

    method Set(d: Decimal) returns (ok: bool)
      requires Valid()
      modifies this
      ensures Valid()
      ensures ok == Stored(d.negative, Numerator(d), Denominator(d)).Some?
      ensures value == if ok then Stored(d.negative, Numerator(d), Denominator(d)) else old(value)
    {
      var quantized := Quantized(InContext(d.negative, Numerator(d), Denominator(d)));
      ok := quantized.Some?;
      if ok {
        StoredAgain(d.negative, Numerator(d), Denominator(d));
        value := quantized;
      }
    }

    method Clone() returns (copy: Amount)
      requires Valid() && value.Some?
      ensures fresh(copy) && copy.Valid() && copy.value == value
    {
      copy := new Amount();
      var ok := copy.Set(Decimal(value.value < 0, Abs(value.value), 0));
      SoundIsFixed(value.value);
      assert Abs(value.value) * Pow10(0) == Abs(value.value);
    }

    /** In place; the operand may be the amount itself. */
    method MultiplyBy(other: Amount) returns (ok: bool)
      requires Valid() && value.Some? && other.Valid() && other.value.Some?
      modifies this
      ensures Valid() && value.Some?
      ensures ok == Product(old(value.value), old(other.value.value)).Some?
      ensures value == if ok then Product(old(value.value), old(other.value.value)) else old(value)
    {
      var a, b := value.value, other.value.value;
      SetIsStored((a < 0) != (b < 0), Abs(a) * Abs(b), UNIT);
      ok := Set(InContext((a < 0) != (b < 0), Abs(a) * Abs(b), UNIT));
    }

    /** Division by zero raises before anything is stored. */
    method DivideBy(other: Amount) returns (ok: bool)
      requires Valid() && value.Some? && other.Valid() && other.value.Some?
      modifies this
      ensures Valid() && value.Some?
      ensures ok == Ratio(old(value.value), old(other.value.value)).Some?
      ensures value == if ok then Ratio(old(value.value), old(other.value.value)) else old(value)
    {
      var a, b := value.value, other.value.value;
      if b == 0 {
        return false;
      }
      SetIsStored((a < 0) != (b < 0), Abs(a) * UNIT, Abs(b));
      ok := Set(InContext((a < 0) != (b < 0), Abs(a) * UNIT, Abs(b)));
    }

    /** The binary operators work on a copy, so neither operand changes. */
    method Times(other: Amount) returns (ok: bool, product: Amount)
      requires Valid() && value.Some? && other.Valid() && other.value.Some?
      ensures fresh(product) && product.Valid()
      ensures ok == Product(value.value, other.value.value).Some?
      ensures ok ==> product.value == Product(value.value, other.value.value)
    {
      product := Clone();
      ok := product.MultiplyBy(other);
    }

    method Over(other: Amount) returns (ok: bool, ratio: Amount)
      requires Valid() && value.Some? && other.Valid() && other.value.Some?
      ensures fresh(ratio) && ratio.Valid()
      ensures ok == Ratio(value.value, other.value.value).Some?
      ensures ok ==> ratio.value == Ratio(value.value, other.value.value)
    {
      ratio := Clone();
      ok := ratio.DivideBy(other);
    }
  }

  // ---- What the arithmetic promises ----

  /** Deserializing and serializing again is the identity exactly on twenty significant digits. */
  lemma {:induction false} RoundTripIff(n: int)
    ensures Deserialized(n) == Some(n) <==> Representable(Abs(n)) && Abs(n) < OVERFLOW
    ensures Abs(n) < LIMIT ==> Deserialized(n) == Some(n)
  {
    SoundIsFixed(n);
  }

  lemma {:induction false} AbsProduct(a: int, b: int)
    ensures Abs(a * b) == Abs(a) * Abs(b)
    ensures Signed((a < 0) != (b < 0), Abs(a) * Abs(b)) == a * b
  {
  }

  /** Small products are rounded only once: the nearest micro-unit, ties to even. */
  lemma {:induction false} ProductRoundedOnce(a: int, b: int)
    requires Abs(a * b) < LIMIT
    ensures Product(a, b) == Some(Signed((a < 0) != (b < 0), HalfEven(Abs(a * b), UNIT)))
  {
    AbsProduct(a, b);
    assert Pow10(6) == UNIT;
    RoundedOnce(Abs(a * b), 6);
    SmallAtMostLimit(Abs(a * b), UNIT);
  }

  lemma {:induction false} SignedDistance(negative: bool, r: nat, p: nat)
    requires 20 * (r * UNIT) <= 20 * p + 11 * UNIT && 20 * p <= 20 * (r * UNIT) + 11 * UNIT
    ensures Abs(UNIT * Signed(negative, r) - Signed(negative, p)) <= 550_000
  {
  }

  /** Larger ones are still within 0.55 of a micro-unit of the exact product. */
  lemma {:induction false} ProductWithin(a: int, b: int)
    requires Abs(a * b) < LIMIT * UNIT
    ensures Product(a, b).Some? && Abs(UNIT * Product(a, b).value - a * b) <= 550_000
  {
    var negative, p := (a < 0) != (b < 0), Abs(a) * Abs(b);
    AbsProduct(a, b);
    WithinElevenTwentieths(p, UNIT);
    SmallAtMostLimit(p, UNIT);
    SignedDistance(negative, Micro(p, UNIT), p);
  }

  lemma {:induction false} MagnitudesOrdered(rate: nat, a: nat, b: nat)
    requires a <= b
    ensures Micro(rate * a, UNIT) <= Micro(rate * b, UNIT)
  {
    MulLeft(a, b, rate);
    assert rate * a == a * rate && rate * b == b * rate;
    MicroMonotone(rate * a, UNIT, rate * b, UNIT);
  }

  /** Multiplying by a non-negative rate keeps amounts in order, whatever their signs and sizes. */
  lemma {:induction false} ProductMonotone(rate: int, a: int, b: int)
    requires rate >= 0 && a <= b && Product(rate, a).Some? && Product(rate, b).Some?
    ensures Product(rate, a).value <= Product(rate, b).value
  {
    if a < 0 && b < 0 {
      MagnitudesOrdered(rate, -b, -a);
    } else if a >= 0 {
      MagnitudesOrdered(rate, a, b);
    }
  }

  // ---- Sorting by fiat value ----

  predicate Ascending(s: seq<int>)
  {
    forall i, j :: 0 <= i < j < |s| ==> s[i] <= s[j]
  }

  /** The sort key of a transaction: its amount at the latest rate. */
  function FiatKey(rate: int, amount: int): Option<int>
  {
    match Deserialized(amount)
    case None => None
    case Some(value) => Product(rate, value)
  }

  lemma {:induction false} DeserializedMonotone(a: int, b: int)
    requires a <= b && Deserialized(a).Some? && Deserialized(b).Some?
    ensures Deserialized(a).value <= Deserialized(b).value
  {
    if a < 0 && b < 0 {
      MicroMonotone(Abs(b), 1, Abs(a), 1);
    } else if a >= 0 {
      MicroMonotone(Abs(a), 1, Abs(b), 1);
    }
  }

  /** In one currency, a list in order of amount is in order of fiat value: a stable sort leaves it. */
  lemma {:induction false} SortedByAmountIsSortedByFiat(rate: int, amounts: seq<int>, keys: seq<int>)
    requires rate >= 0 && Ascending(amounts) && |keys| == |amounts|
    requires forall i :: 0 <= i < |keys| ==> FiatKey(rate, amounts[i]) == Some(keys[i])
    ensures Ascending(keys)
  {
    forall i, j | 0 <= i < j < |keys| ensures keys[i] <= keys[j] {
      DeserializedMonotone(amounts[i], amounts[j]);
      ProductMonotone(rate, Deserialized(amounts[i]).value, Deserialized(amounts[j]).value);
    }
  }

  // ---- Inverse rates ----

  /** The reverse of a positive rate: their product is one, up to 0.55 micro-units of the rate. */
  lemma {:induction false} InverseRate(rate: int)
    requires rate > 0
    ensures Ratio(UNIT, rate).Some?
    ensures 100 * Abs(rate * Ratio(UNIT, rate).value - UNIT * UNIT) <= 55 * rate
  {
    var n := UNIT * UNIT;
    MulLeft(1, rate, LIMIT);
    WithinElevenTwentieths(n, rate);
    SmallAtMostLimit(n, rate);
    assert Micro(n, rate) * rate == rate * Micro(n, rate);
  }
}
