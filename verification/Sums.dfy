/** Finite sums over sequences, the arithmetic behind every balance of the wallet. */
module Sums {
  function Sum<T>(xs: seq<T>, f: T -> int): int
  {
    if |xs| == 0 then 0 else Sum(xs[..|xs| - 1], f) + f(xs[|xs| - 1])
  }

  lemma {:induction false} SumCongruent<T>(xs: seq<T>, f: T -> int, g: T -> int)
    requires forall i :: 0 <= i < |xs| ==> f(xs[i]) == g(xs[i])
    ensures Sum(xs, f) == Sum(xs, g)
  {
    if |xs| > 0 {
      SumCongruent(xs[..|xs| - 1], f, g);
    }
  }

  lemma {:induction false} SumZero<T>(xs: seq<T>, f: T -> int)
    requires forall i :: 0 <= i < |xs| ==> f(xs[i]) == 0
    ensures Sum(xs, f) == 0
  {
    if |xs| > 0 {
      SumZero(xs[..|xs| - 1], f);
    }
  }

  lemma {:induction false} SumSnoc<T>(xs: seq<T>, x: T, f: T -> int)
    ensures Sum(xs + [x], f) == Sum(xs, f) + f(x)
  {
  }

  lemma {:induction false} SumConcat<T>(xs: seq<T>, ys: seq<T>, f: T -> int)
    ensures Sum(xs + ys, f) == Sum(xs, f) + Sum(ys, f)
  {
    if |ys| == 0 {
      assert xs + ys == xs;
    } else {
      var n := |ys| - 1;
      assert xs + ys == (xs + ys[..n]) + [ys[n]];
      SumConcat(xs, ys[..n], f);
      SumSnoc(xs + ys[..n], ys[n], f);
    }
  }

  /** Replacing one element moves the sum by the difference of that element alone. */
  lemma {:induction false} SumUpdate<T>(xs: seq<T>, i: nat, x: T, f: T -> int)
    requires i < |xs|
    ensures Sum(xs[i := x], f) == Sum(xs, f) - f(xs[i]) + f(x)
  {
    var n := |xs| - 1;
    if i == n {
      assert xs[i := x][..n] == xs[..n];
    } else {
      assert xs[i := x][..n] == xs[..n][i := x];
      SumUpdate(xs[..n], i, x, f);
    }
  }

  lemma {:induction false} SumPlus<T>(xs: seq<T>, f: T -> int, g: T -> int, h: T -> int)
    requires forall i :: 0 <= i < |xs| ==> h(xs[i]) == f(xs[i]) + g(xs[i])
    ensures Sum(xs, h) == Sum(xs, f) + Sum(xs, g)
  {
    if |xs| > 0 {
      SumPlus(xs[..|xs| - 1], f, g, h);
    }
  }

  /** A sum whose terms vanish except at one element of a duplicate-free sequence. */
  lemma {:induction false} SumOnlyAt<T>(xs: seq<T>, x: T, f: T -> int)
    requires forall i, j :: 0 <= i < j < |xs| ==> xs[i] != xs[j]
    requires forall i :: 0 <= i < |xs| && xs[i] != x ==> f(xs[i]) == 0
    ensures Sum(xs, f) == if x in xs then f(x) else 0
  {
    if |xs| > 0 {
      var n := |xs| - 1;
      SumOnlyAt(xs[..n], x, f);
      assert xs == xs[..n] + [xs[n]];
    }
  }

  /** One row and one column of a two-argument summand. */
  function RowOf<A, B>(f: (A, B) -> int, x: A): B -> int { y => f(x, y) }

  function ColumnOf<A, B>(f: (A, B) -> int, y: B): A -> int { x => f(x, y) }

  /** Exchange of a double sum: adding row sums is adding column sums. */
  lemma {:induction false} SumExchange<A, B>(xs: seq<A>, ys: seq<B>, f: (A, B) -> int,
                                             byRow: A -> int, byColumn: B -> int)
    requires forall i :: 0 <= i < |xs| ==> byRow(xs[i]) == Sum(ys, RowOf(f, xs[i]))
    requires forall j :: 0 <= j < |ys| ==> byColumn(ys[j]) == Sum(xs, ColumnOf(f, ys[j]))
    ensures Sum(xs, byRow) == Sum(ys, byColumn)
  {
    if |xs| == 0 {
      SumZero(ys, byColumn);
    } else {
      var n := |xs| - 1;
      var rest, last := xs[..n], xs[n];
      var before := (y: B) => Sum(rest, ColumnOf(f, y));
      SumExchange(rest, ys, f, byRow, before);
      SumPlus(ys, before, RowOf(f, last), byColumn);
    }
  }
}
