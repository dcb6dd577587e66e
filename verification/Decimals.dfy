/**
 * Decimal numbers rounded half to even: to twenty significant digits, then to whole micro-units.
 * Magnitudes are natural numbers; a sign is carried beside them.
 */
module Decimals {

  const LIMIT: nat := 100_000_000_000_000_000_000

  function Pow10(n: nat): (r: nat)
    ensures r >= 1
  {
    if n == 0 then 1 else 10 * Pow10(n - 1)
  }

  lemma {:induction false} Pow10Add(a: nat, b: nat)
    ensures Pow10(a + b) == Pow10(a) * Pow10(b)
    decreases b
  {
    if b > 0 {
      Pow10Add(a, b - 1);
      calc {
        Pow10(a + b);
        10 * Pow10(a + b - 1);
        10 * (Pow10(a) * Pow10(b - 1));
        Pow10(a) * (10 * Pow10(b - 1));
      }
    }
  }

  // ---- One rounding ----

  /** The quotient n / d to the nearest integer, ties to the even one; steps of two keep evenness. */
  function HalfEven(n: nat, d: nat): nat
    requires d > 0
    decreases n
  {
    if n >= 2 * d then HalfEven(n - 2 * d, d) + 2
    else if 2 * n <= d then 0
    else if 2 * n < 3 * d then 1
    else 2
  }

  /** Twice h is within one of twice x, both counted in units u; a tie has an even h. */
  predicate Nearest(h: nat, u: nat, x: nat)
  {
    && 2 * (h * u) <= 2 * x + u && 2 * x <= 2 * (h * u) + u
    && (2 * (h * u) == 2 * x + u || 2 * x == 2 * (h * u) + u ==> h % 2 == 0)
  }

  lemma {:induction false} HalfEvenNearest(n: nat, d: nat)
    requires d > 0
    ensures Nearest(HalfEven(n, d), d, n)
    decreases n
  {
    if n >= 2 * d {
      HalfEvenNearest(n - 2 * d, d);
      assert (HalfEven(n - 2 * d, d) + 2) * d == HalfEven(n - 2 * d, d) * d + 2 * d;
    }
  }

  lemma {:induction false} MulLeft(a: nat, b: nat, u: nat)
    requires a <= b
    ensures a * u <= b * u
  {
  }

  lemma {:induction false} MulGap(a: nat, b: nat, u: nat)
    ensures a <= b ==> a * u <= b * u
    ensures a < b ==> a * u + u <= b * u
    ensures a + 1 < b ==> a * u + 2 * u <= b * u
  {
    assert (a + 1) * u == a * u + u;
    assert (a + 2) * u == a * u + 2 * u;
    if a <= b {
      MulLeft(a, b, u);
    }
    if a < b {
      MulLeft(a + 1, b, u);
    }
    if a + 1 < b {
      MulLeft(a + 2, b, u);
    }
  }

  /** Rounding respects order, so at one unit it is also unique. */
  lemma {:induction false} NearestOrdered(a: nat, x: nat, b: nat, y: nat, u: nat)
    requires u > 0 && Nearest(a, u, x) && Nearest(b, u, y) && x <= y
    ensures a <= b
  {
    MulGap(b, a, u);
  }

  lemma {:induction false} NearestScaled(h: nat, u: nat, x: nat, c: nat)
    requires Nearest(h, u, x) && c > 0
    ensures Nearest(h, u * c, x * c)
  {
  }

  /** Nothing but the nearest integer, even in a tie, satisfies this. */
  lemma {:induction false} HalfEvenUnique(n: nat, d: nat, h: nat)
    requires d > 0 && Nearest(h, d, n)
    ensures HalfEven(n, d) == h
  {
    HalfEvenNearest(n, d);
    NearestOrdered(HalfEven(n, d), n, h, n, d);
    NearestOrdered(h, n, HalfEven(n, d), n, d);
  }

  /** Larger quotients, whatever their denominators, never round to something smaller. */
  lemma {:induction false} HalfEvenMonotone(n1: nat, d1: nat, n2: nat, d2: nat)
    requires d1 > 0 && d2 > 0 && n1 * d2 <= n2 * d1
    ensures HalfEven(n1, d1) <= HalfEven(n2, d2)
  {
    HalfEvenNearest(n1, d1);
    HalfEvenNearest(n2, d2);
    NearestScaled(HalfEven(n1, d1), d1, n1, d2);
    NearestScaled(HalfEven(n2, d2), d2, n2, d1);
    assert d1 * d2 == d2 * d1;
    assert d1 * d2 > 0;
    NearestOrdered(HalfEven(n1, d1), n1 * d2, HalfEven(n2, d2), n2 * d1, d1 * d2);
  }

  lemma {:induction false} HalfEvenExact(n: nat, d: nat)
    requires d > 0
    ensures HalfEven(n * d, d) == n
  {
    HalfEvenUnique(n * d, d, n);
  }

  lemma {:induction false} HalfEvenScaled(n: nat, d: nat, c: nat)
    requires d > 0 && c > 0
    ensures c * d > 0 && HalfEven(n * c, d * c) == HalfEven(n, d)
  {
    assert (n * c) * d == n * (d * c) && d * c > 0;
    HalfEvenMonotone(n * c, d * c, n, d);
    HalfEvenMonotone(n, d, n * c, d * c);
  }

  lemma {:induction false} Pow10Strict(a: nat, b: nat)
    requires a < b
    ensures 10 * Pow10(a) <= Pow10(b)
  {
    Pow10Add(a + 1, b - a - 1);
    MulLeft(1, Pow10(b - a - 1), Pow10(a + 1));
  }

  // ---- Twenty significant digits ----

  /** How far a quotient below the limit can be shifted left and stay below it. */
  function Shift(n: nat, d: nat): (k: nat)
    requires d > 0 && n < LIMIT * d
    ensures n * Pow10(k) < LIMIT * d
    ensures n > 0 ==> LIMIT * d <= 10 * (n * Pow10(k))
    ensures n == 0 ==> k == 0
    decreases LIMIT * d - n
  {
    if n == 0 || 10 * n >= LIMIT * d then 0
    else
      var k := Shift(10 * n, d);
      assert n * Pow10(k + 1) == (10 * n) * Pow10(k);
      k + 1
  }

  /** The coefficient and exponent of n / d rounded to twenty significant digits. */
  function Round20(n: nat, d: nat): (r: (nat, int))
    requires d > 0
    ensures 10 * n >= LIMIT * d ==> r.1 >= 0
    decreases n - LIMIT * d
  {
    if n >= LIMIT * d then
      var r := Round20(n, 10 * d);
      (r.0, r.1 + 1)
    else
      var k: int := Shift(n, d);
      (HalfEven(n * Pow10(k), d), -k)
  }

  /** A decimal number of micro-units, rounded to a whole one. */
  function Quantize(m: nat, e: int): nat
  {
    if e >= 0 then m * Pow10(e) else HalfEven(m, Pow10(-e))
  }

  /** Rounded twice: to twenty significant digits, then to whole micro-units. */
  function Micro(n: nat, d: nat): nat
    requires d > 0
  {
    Quantize(Round20(n, d).0, Round20(n, d).1)
  }

  lemma {:induction false} MicroSmall(n: nat, d: nat)
    requires d > 0 && n < LIMIT * d
    ensures Micro(n, d) == HalfEven(HalfEven(n * Pow10(Shift(n, d)), d), Pow10(Shift(n, d)))
  {
    if Shift(n, d) == 0 {
      HalfEvenExact(HalfEven(n * Pow10(0), d), 1);
    }
  }

  lemma {:induction false} MicroLarge(n: nat, d: nat)
    requires d > 0 && n >= LIMIT * d
    ensures Micro(n, d) == 10 * Micro(n, 10 * d)
  {
  }

  // ---- Accuracy ----

  lemma {:induction false} SmallerShiftTooSmall(n: nat, t: nat, d: nat, limit: nat)
    requires 0 < n < limit && 10 * t <= d
    ensures 10 * (n * t) < limit * d || d == 0
  {
  }

  lemma {:induction false} ShiftCoversDecimals(n: nat, j: nat)
    requires 0 < n < LIMIT
    ensures n < LIMIT * Pow10(j) && j <= Shift(n, Pow10(j))
  {
    if Shift(n, Pow10(j)) < j {
      Pow10Strict(Shift(n, Pow10(j)), j);
      SmallerShiftTooSmall(n, Pow10(Shift(n, Pow10(j))), Pow10(j), LIMIT);
    }
  }

  /** A number of at most twenty digits with any number of decimals is rounded only once. */
  lemma {:induction false} RoundedOnce(n: nat, j: nat)
    requires n < LIMIT
    ensures Micro(n, Pow10(j)) == HalfEven(n, Pow10(j))
  {
    if n == 0 {
      ZeroRounds(Pow10(j));
    } else {
      ShiftCoversDecimals(n, j);
      MicroSmall(n, Pow10(j));
      var k := Shift(n, Pow10(j));
      Pow10Add(j, k - j);
      ShiftedExactly(n, Pow10(k - j), Pow10(j), Pow10(k));
    }
  }

  lemma {:induction false} ZeroRounds(d: nat)
    requires d > 0
    ensures Micro(0, d) == 0 && HalfEven(0, d) == 0
  {
  }

  lemma {:induction false} MulAssoc(n: nat, c: nat, d: nat, t: nat)
    requires t == d * c
    ensures n * t == (n * c) * d
  {
  }

  lemma {:induction false} ShiftedExactly(n: nat, c: nat, d: nat, t: nat)
    requires c > 0 && d > 0 && t == d * c
    ensures t > 0 && HalfEven(HalfEven(n * t, d), t) == HalfEven(n, d)
  {
    MulAssoc(n, c, d, t);
    HalfEvenExact(n * c, d);
    HalfEvenScaled(n, d, c);
  }

  lemma {:induction false} CancelLe(x: nat, y: nat, t: nat)
    requires t > 0 && x * t <= y * t
    ensures x <= y
  {
  }

  lemma {:induction false} ScaledError(r: nat, m: nat, t: nat, d: nat)
    requires d > 0 && Nearest(r, t, m)
    ensures 2 * ((r * d) * t) <= 2 * (m * d) + t * d && 2 * (m * d) <= 2 * ((r * d) * t) + t * d
  {
  }

  /** Errors of half a unit in m and half a t-th in r, with t at least ten. */
  lemma {:induction false} TwoErrors(r: nat, m: nat, t: nat, n: nat, d: nat)
    requires d > 0 && t >= 10
    requires 2 * (m * d) <= 2 * (n * t) + d && 2 * (n * t) <= 2 * (m * d) + d
    requires 2 * ((r * d) * t) <= 2 * (m * d) + t * d && 2 * (m * d) <= 2 * ((r * d) * t) + t * d
    ensures 20 * (r * d) <= 20 * n + 11 * d && 20 * n <= 20 * (r * d) + 11 * d
  {
    MulLeft(10, t, d);
    AddErrors((r * d) * t, m * d, n * t, t * d, d);
    DivideOut(r * d, n, d, t);
    DivideOut(n, r * d, d, t);
  }

  lemma {:induction false} AddErrors(r: nat, m: nat, n: nat, t: nat, d: nat)
    requires 2 * m <= 2 * n + d && 2 * n <= 2 * m + d
    requires 2 * r <= 2 * m + t && 2 * m <= 2 * r + t
    requires 10 * d <= t
    ensures 20 * r <= 20 * n + 11 * t && 20 * n <= 20 * r + 11 * t
  {
  }

  lemma {:induction false} DivideOut(x: nat, y: nat, d: nat, t: nat)
    requires t > 0
    ensures 20 * (x * t) <= 20 * (y * t) + 11 * (t * d) ==> 20 * x <= 20 * y + 11 * d
  {
    assert (20 * y + 11 * d) * t == 20 * (y * t) + 11 * (t * d);
    assert (20 * x) * t == 20 * (x * t);
    if 20 * (x * t) <= 20 * (y * t) + 11 * (t * d) {
      CancelLe(20 * x, 20 * y + 11 * d, t);
    }
  }

  /** Below the limit the two roundings together are off by at most 0.55. */
  lemma {:induction false} WithinElevenTwentieths(n: nat, d: nat)
    requires d > 0 && n < LIMIT * d
    ensures 20 * (Micro(n, d) * d) <= 20 * n + 11 * d
    ensures 20 * n <= 20 * (Micro(n, d) * d) + 11 * d
  {
    MicroSmall(n, d);
    var k := Shift(n, d);
    var t := Pow10(k);
    var m := HalfEven(n * t, d);
    HalfEvenNearest(n * t, d);
    HalfEvenNearest(m, t);
    if k == 0 {
      assert n * t == n;
      HalfEvenExact(m, 1);
    } else {
      Pow10Strict(0, k);
      ScaledError(HalfEven(m, t), m, t, d);
      TwoErrors(HalfEven(m, t), m, t, n, d);
    }
  }

  // ---- Order ----

  lemma {:induction false} LeadingDigits(n: nat, d: nat)
    requires d > 0 && n < LIMIT * d
    ensures HalfEven(n * Pow10(Shift(n, d)), d) <= LIMIT
    ensures n > 0 ==> LIMIT / 10 <= HalfEven(n * Pow10(Shift(n, d)), d)
  {
    var x := n * Pow10(Shift(n, d));
    HalfEvenExact(LIMIT, d);
    HalfEvenMonotone(x, d, LIMIT * d, d) by {
      MulLeft(x, LIMIT * d, d);
    }
    if n > 0 {
      HalfEvenExact(LIMIT / 10, d);
      assert LIMIT * d == 10 * (LIMIT / 10 * d);
      HalfEvenMonotone(LIMIT / 10 * d, d, x, d) by {
        MulLeft(LIMIT / 10 * d, x, d);
      }
    }
  }

  /** Scaling both sides of a comparison of quotients. */
  lemma {:induction false} CrossScaled(n1: nat, d1: nat, n2: nat, d2: nat, t: nat)
    requires n1 * d2 <= n2 * d1
    ensures (n1 * t) * d2 <= (n2 * t) * d1
  {
  }

  /** A bound on the larger of two quotients bounds the smaller. */
  lemma {:induction false} CrossBelow(n1: nat, d1: nat, n2: nat, d2: nat, bound: nat)
    requires d1 > 0 && d2 > 0 && n1 * d2 <= n2 * d1 && n2 < bound * d2
    ensures n1 < bound * d1
  {
  }

  lemma {:induction false} ShiftOrdered(n1: nat, d1: nat, n2: nat, d2: nat)
    requires d1 > 0 && d2 > 0 && n1 * d2 <= n2 * d1 && n1 > 0
    requires n1 < LIMIT * d1 && n2 < LIMIT * d2
    ensures Shift(n2, d2) <= Shift(n1, d1)
  {
    var k1, k2 := Shift(n1, d1), Shift(n2, d2);
    if k1 < k2 {
      var t := 10 * Pow10(k1);
      assert n1 * t == 10 * (n1 * Pow10(k1));
      assert t * n2 == n2 * t && Pow10(k2) * n2 == n2 * Pow10(k2);
      Pow10Strict(k1, k2);
      MulLeft(t, Pow10(k2), n2);
      CrossScaled(n1, d1, n2, d2, t);
      CrossBelow(n1 * t, d1, n2 * t, d2, LIMIT);
    }
  }

  lemma {:induction false} SameShift(n1: nat, d1: nat, n2: nat, d2: nat, t: nat)
    requires d1 > 0 && d2 > 0 && t > 0 && n1 * d2 <= n2 * d1
    ensures HalfEven(HalfEven(n1 * t, d1), t) <= HalfEven(HalfEven(n2 * t, d2), t)
  {
    CrossScaled(n1, d1, n2, d2, t);
    HalfEvenMonotone(n1 * t, d1, n2 * t, d2);
    MulLeft(HalfEven(n1 * t, d1), HalfEven(n2 * t, d2), t);
    HalfEvenMonotone(HalfEven(n1 * t, d1), t, HalfEven(n2 * t, d2), t);
  }

  lemma {:induction false} MicroMonotoneSmall(n1: nat, d1: nat, n2: nat, d2: nat)
    requires d1 > 0 && d2 > 0 && n1 * d2 <= n2 * d1
    requires n1 < LIMIT * d1 && n2 < LIMIT * d2
    ensures Micro(n1, d1) <= Micro(n2, d2)
  {
    MicroSmall(n1, d1);
    MicroSmall(n2, d2);
    if n1 == 0 {
      HalfEvenExact(0, d1);
      HalfEvenExact(0, 1);
    } else {
      ShiftOrdered(n1, d1, n2, d2);
      if Shift(n1, d1) == Shift(n2, d2) {
        SameShift(n1, d1, n2, d2, Pow10(Shift(n1, d1)));
      } else {
        Positive(n1, d1, n2, d2);
        BetweenShifts(n1, d1, n2, d2);
      }
    }
  }

  lemma {:induction false} Positive(n1: nat, d1: nat, n2: nat, d2: nat)
    requires d1 > 0 && d2 > 0 && n1 * d2 <= n2 * d1 && n1 > 0
    ensures n2 > 0
  {
  }

  /** A power of ten lies between quotients with different shifts. */
  lemma {:induction false} BetweenShifts(n1: nat, d1: nat, n2: nat, d2: nat)
    requires d1 > 0 && d2 > 0 && n1 < LIMIT * d1 && n2 < LIMIT * d2 && n2 > 0
    requires Shift(n2, d2) < Shift(n1, d1)
    ensures HalfEven(HalfEven(n1 * Pow10(Shift(n1, d1)), d1), Pow10(Shift(n1, d1)))
         <= HalfEven(HalfEven(n2 * Pow10(Shift(n2, d2)), d2), Pow10(Shift(n2, d2)))
  {
    var k1, k2 := Shift(n1, d1), Shift(n2, d2);
    var t1, t2 := Pow10(k1), Pow10(k2);
    var m1, m2 := HalfEven(n1 * t1, d1), HalfEven(n2 * t2, d2);
    LeadingDigits(n1, d1);
    LeadingDigits(n2, d2);
    Pow10Strict(k2, k1);
    HalfEvenMonotone(m1, t1, LIMIT, t1) by {
      MulLeft(m1, LIMIT, t1);
    }
    HalfEvenMonotone(LIMIT, t1, LIMIT / 10, t2);
    HalfEvenMonotone(LIMIT / 10, t2, m2, t2) by {
      MulLeft(LIMIT / 10, m2, t2);
    }
  }

  lemma {:induction false} SmallAtMostLimit(n: nat, d: nat)
    requires d > 0 && n < LIMIT * d
    ensures Micro(n, d) <= LIMIT
  {
    MicroSmall(n, d);
    LeadingDigits(n, d);
    var t := Pow10(Shift(n, d));
    var m := HalfEven(n * t, d);
    HalfEvenExact(LIMIT, 1);
    HalfEvenMonotone(m, t, LIMIT, 1) by {
      MulLeft(1, t, LIMIT);
    }
  }

  function Excess(n: nat, d: nat): nat
  {
    if n >= LIMIT * d then n - LIMIT * d + 1 else 0
  }

  lemma {:induction false} LargeAtLeastLimit(n: nat, d: nat)
    requires d > 0 && n >= LIMIT * d
    ensures Micro(n, d) >= LIMIT
    decreases Excess(n, d)
  {
    MicroLarge(n, d);
    if n >= LIMIT * (10 * d) {
      LargeAtLeastLimit(n, 10 * d);
    } else {
      MicroSmall(n, 10 * d);
      LeadingDigits(n, 10 * d);
      assert Shift(n, 10 * d) == 0;
      HalfEvenExact(HalfEven(n * Pow10(0), 10 * d), 1);
    }
  }

  /** Rounding twice respects order, whatever the denominators and however large the quotients. */
  lemma {:induction false} MicroMonotone(n1: nat, d1: nat, n2: nat, d2: nat)
    requires d1 > 0 && d2 > 0 && n1 * d2 <= n2 * d1
    ensures Micro(n1, d1) <= Micro(n2, d2)
    decreases Excess(n1, d1)
  {
    if n1 < LIMIT * d1 {
      if n2 < LIMIT * d2 {
        MicroMonotoneSmall(n1, d1, n2, d2);
      } else {
        SmallAtMostLimit(n1, d1);
        LargeAtLeastLimit(n2, d2);
      }
    } else {
      assert n2 >= LIMIT * d2 by {
        MulLeft(LIMIT * d1, n1, d2);
        assert (LIMIT * d1) * d2 == (LIMIT * d2) * d1;
        if n2 < LIMIT * d2 {
          MulGap(n2, LIMIT * d2, d1);
        }
      }
      MicroLarge(n1, d1);
      MicroLarge(n2, d2);
      MicroMonotone(n1, 10 * d1, n2, 10 * d2) by {
        assert n1 * (10 * d2) == 10 * (n1 * d2) && n2 * (10 * d1) == 10 * (n2 * d1);
      }
    }
  }

  lemma {:induction false} MicroScaled(n: nat, d: nat, c: nat)
    requires d > 0 && c > 0
    ensures d * c > 0 && Micro(n * c, d * c) == Micro(n, d)
  {
    assert (n * c) * d == n * (d * c) && d * c > 0;
    MicroMonotone(n * c, d * c, n, d);
    MicroMonotone(n, d, n * c, d * c);
  }

  // ---- Exactly the representable numbers survive ----

  /** At most twenty significant digits. */
  predicate Representable(n: nat)
  {
    n < LIMIT || (n % 10 == 0 && Representable(n / 10))
  }

  lemma {:induction false} MicroFixedIff(n: nat)
    ensures Micro(n, 1) == n <==> Representable(n)
    decreases n
  {
    if n < LIMIT {
      RoundedOnce(n, 0);
      HalfEvenExact(n, 1);
    } else {
      MicroLarge(n, 1);
      if n % 10 == 0 {
        assert n / 10 * 10 == n;
        MicroScaled(n / 10, 1, 10);
        MicroFixedIff(n / 10);
      }
    }
  }

  lemma {:induction false} MicroRepresentable(n: nat, d: nat)
    requires d > 0
    ensures Representable(Micro(n, d))
    decreases Excess(n, d)
  {
    if n < LIMIT * d {
      SmallAtMostLimit(n, d);
      assert Representable(LIMIT);
    } else {
      MicroLarge(n, d);
      MicroRepresentable(n, 10 * d);
      assert (10 * Micro(n, 10 * d)) / 10 == Micro(n, 10 * d);
    }
  }
}
