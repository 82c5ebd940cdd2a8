/** Softmax-weighted means over the reals: the meaning shared by all attention code, and two ways to compute it. */
module Softmax {
  import opened Basics
  import opened Sums

  ghost predicate Splits(e: real -> real, x: real, y: real) {
    e(x + y) == e(x) * e(y)
  }

  /** All that is used of the exponential: it is positive and turns sums into products. */
  ghost predicate IsExp(e: real -> real) {
    (forall x :: e(x) > 0.0) && (forall x, y :: Splits(e, x, y))
  }

  lemma ExpShift(e: real -> real, a: real, b: real)
    requires IsExp(e)
    ensures e(a - b) * e(b) == e(a)
    ensures e(a) > 0.0 && e(b) > 0.0 && e(a - b) > 0.0
  {
    assert Splits(e, a - b, b);
    assert a - b + b == a;
  }

  ghost function Weight(e: real -> real, s: int -> real): int -> real {
    i => e(s(i))
  }

  ghost function Weighted(e: real -> real, s: int -> real, v: int -> real): int -> real {
    i => e(s(i)) * v(i)
  }

  lemma WeightPositive(e: real -> real, n: nat, s: int -> real)
    requires IsExp(e) && n > 0
    ensures Sum(n, Weight(e, s)) > 0.0
  {
    forall i | 0 <= i < n
      ensures Weight(e, s)(i) > 0.0
    {
      ExpShift(e, s(i), s(i));
    }
    SumPositive(n, Weight(e, s));
  }

  /** The mean of v(0..n) with weights exp(s(i)) / sum of exp(s(j)). */
  ghost function SoftmaxMean(e: real -> real, n: nat, s: int -> real, v: int -> real): real
    requires IsExp(e) && n > 0
  {
    WeightPositive(e, n, s);
    Sum(n, Weighted(e, s, v)) / Sum(n, Weight(e, s))
  }

  lemma SoftmaxMeanExt(e: real -> real, n: nat, s: int -> real, v: int -> real, s': int -> real, v': int -> real)
    requires IsExp(e) && n > 0
    requires forall i :: 0 <= i < n ==> s(i) == s'(i) && v(i) == v'(i)
    ensures SoftmaxMean(e, n, s, v) == SoftmaxMean(e, n, s', v')
  {
    SumExt(n, Weighted(e, s, v), Weighted(e, s', v'));
    SumExt(n, Weight(e, s), Weight(e, s'));
  }

  /** The mean, times the total weight z, is the weighted sum: the defining property without division. */
  lemma MeanSpec(e: real -> real, n: nat, s: int -> real, v: int -> real, z: real)
    requires IsExp(e) && n > 0 && z == Sum(n, Weight(e, s))
    ensures z > 0.0 && SoftmaxMean(e, n, s, v) * z == Sum(n, Weighted(e, s, v))
  {
    WeightPositive(e, n, s);
  }

  lemma MeanUnique(e: real -> real, n: nat, s: int -> real, v: int -> real, x: real)
    requires IsExp(e) && n > 0 && x * Sum(n, Weight(e, s)) == Sum(n, Weighted(e, s, v))
    ensures x == SoftmaxMean(e, n, s, v)
  {
    WeightPositive(e, n, s);
  }

  ghost function MixTerms(c: int -> real, v: int -> int -> real, i: int): int -> real {
    j => c(j) * v(j)(i)
  }

  lemma MeanFromTotals(e: real -> real, n: nat, s: int -> real, v: int -> real, x: real, c: real)
    requires IsExp(e) && n > 0 && Sum(n, Weight(e, s)) == c && Sum(n, Weighted(e, s, v)) == c * x
    ensures x == SoftmaxMean(e, n, s, v)
  {
    MeanUnique(e, n, s, v, x);
  }

  /** Means are linear in the values: the mean of combined values is the combination of the means. */
  lemma MeansLinear(e: real -> real, n: nat, s: int -> real, k: nat, c: int -> real, v: int -> int -> real,
                    w: int -> real,
                    means: int -> real, mixed: int -> real, z: real)
    requires forall i :: 0 <= i < n ==> w(i) == Sum(k, MixTerms(c, v, i))
    requires forall j :: 0 <= j < k ==> means(j) * z == Sum(n, Weighted(e, s, v(j)))
    requires forall j :: 0 <= j < k ==> mixed(j) == c(j) * means(j)
    ensures Sum(k, mixed) * z == Sum(n, Weighted(e, s, w))
  {
    var cols := j => Sum(n, WeightedTerm(e, s, c(j), v(j)));
    ExchangeWeighted(e, n, s, k, c, v, w, cols);
    ColumnsScaled(e, n, s, k, c, v, means, cols, mixed, z);
  }

  ghost function WeightedTerm(e: real -> real, s: int -> real, c: real, v: int -> real): int -> real {
    i => e(s(i)) * (c * v(i))
  }

  /** Each column of the exchanged double sum is the total weight times coefficient and mean. */
  lemma ColumnsScaled(e: real -> real, n: nat, s: int -> real, k: nat, c: int -> real, v: int -> int -> real,
                      means: int -> real,
                      cols: int -> real, mixed: int -> real, z: real)
    requires forall j :: 0 <= j < k ==> means(j) * z == Sum(n, Weighted(e, s, v(j)))
    requires forall j :: 0 <= j < k ==> cols(j) == Sum(n, WeightedTerm(e, s, c(j), v(j)))
    requires forall j :: 0 <= j < k ==> mixed(j) == c(j) * means(j)
    ensures Sum(k, cols) == Sum(k, mixed) * z
  {
    forall j | 0 <= j < k
      ensures cols(j) == z * mixed(j)
    {
      SumScale(n, c(j), Weighted(e, s, v(j)), WeightedTerm(e, s, c(j), v(j)));
      Commute(c(j), means(j), z);
    }
    SumScale(k, z, mixed, cols);
  }

  ghost function ExchangeRows(e: real -> real, s: int -> real, c: int -> real,
                              v: int -> int -> real): int -> int -> real {
    i => j => e(s(i)) * (c(j) * v(j)(i))
  }

  ghost function ExchangeCols(e: real -> real, s: int -> real, c: int -> real,
                              v: int -> int -> real): int -> int -> real {
    j => WeightedTerm(e, s, c(j), v(j))
  }

  lemma ExchangeWeighted(e: real -> real, n: nat, s: int -> real, k: nat, c: int -> real, v: int -> int -> real,
                         w: int -> real, cols: int -> real)
    requires forall i :: 0 <= i < n ==> w(i) == Sum(k, MixTerms(c, v, i))
    requires forall j :: 0 <= j < k ==> cols(j) == Sum(n, WeightedTerm(e, s, c(j), v(j)))
    ensures Sum(n, Weighted(e, s, w)) == Sum(k, cols)
  {
    forall i | 0 <= i < n
      ensures Weighted(e, s, w)(i) == Sum(k, ExchangeRows(e, s, c, v)(i))
    {
      ExchangeRow(e, s, k, c, v, w, i);
    }
    SumSwap(n, k, ExchangeRows(e, s, c, v), ExchangeCols(e, s, c, v), Weighted(e, s, w), cols);
  }

  lemma ExchangeRow(e: real -> real, s: int -> real, k: nat, c: int -> real, v: int -> int -> real, w: int -> real,
                    i: int)
    requires w(i) == Sum(k, MixTerms(c, v, i))
    ensures Weighted(e, s, w)(i) == Sum(k, ExchangeRows(e, s, c, v)(i))
  {
    ScaleRow(e(s(i)), k, MixTerms(c, v, i), w(i), ExchangeRows(e, s, c, v)(i));
  }

  lemma ScaleRow(x: real, k: nat, terms: int -> real, w: real, scaled: int -> real)
    requires w == Sum(k, terms) && forall j :: 0 <= j < k ==> scaled(j) == x * terms(j)
    ensures x * w == Sum(k, scaled)
  {
    SumScale(k, x, terms, scaled);
  }

  // ---------- the online form ----------

  /** What the running maximum m, denominator and accumulator of the online kernel stand for after t tokens. */
  ghost predicate Online(e: real -> real, t: nat, s: int -> real, v: int -> real, m: real, denominator: real,
                         accumulator: real) {
    denominator * e(m) == Sum(t, Weight(e, s)) && accumulator * e(m) == Sum(t, Weighted(e, s, v))
  }

  /** Rescaling to any new maximum keeps the meaning. */
  lemma OnlineStep(e: real -> real, t: nat, s: int -> real, v: int -> real, m: real, denominator: real,
                   accumulator: real, next: real)
    requires IsExp(e) && Online(e, t, s, v, m, denominator, accumulator)
    ensures Online(e, t + 1, s, v, next, denominator * e(m - next) + e(s(t) - next),
                   accumulator * e(m - next) + e(s(t) - next) * v(t))
  {
    ExpShift(e, m, next);
    ExpShift(e, s(t), next);
    Distribute(denominator, e(m - next), e(s(t) - next), 1.0, e(next));
    Distribute(accumulator, e(m - next), e(s(t) - next), v(t), e(next));
  }

  lemma Distribute(a: real, r: real, w: real, x: real, c: real)
    ensures (a * r + w * x) * c == a * (r * c) + (w * c) * x
  {
  }

  lemma OnlineResult(e: real -> real, n: nat, s: int -> real, v: int -> real, m: real, denominator: real,
                     accumulator: real)
    requires IsExp(e) && n > 0 && Online(e, n, s, v, m, denominator, accumulator)
    ensures denominator > 0.0 && accumulator / denominator == SoftmaxMean(e, n, s, v)
  {
    WeightPositive(e, n, s);
    ExpShift(e, m, m);
    QuotientScale(accumulator, denominator, e(m));
  }

  lemma SignOf(b: real, c: real)
    requires c > 0.0
    ensures b <= 0.0 ==> b * c <= 0.0
  {
  }

  lemma QuotientScale(a: real, b: real, c: real)
    requires c > 0.0 && b * c > 0.0
    ensures b > 0.0 && a / b == (a * c) / (b * c)
  {
    SignOf(b, c);
    var q := a / b;
    assert q * b == a;
    assert q * (b * c) == a * c;
  }

  // ---------- the two-pass form ----------

  /** A value weighted with its normalized probability. */
  function Portion(p: real, z: real, v: real): real
    requires z != 0.0
  {
    p / z * v
  }

  /** Subtract the maximum, exponentiate, normalize, then accumulate: the CPU order of operations. */
  lemma TwoPassResult(e: real -> real, n: nat, s: int -> real, v: int -> real, m: real, p: int -> real,
                      out: int -> real)
    requires IsExp(e) && n > 0
    requires forall i :: 0 <= i < n ==> p(i) == e(s(i) - m)
    requires Sum(n, p) != 0.0 && forall i :: 0 <= i < n ==> out(i) == Portion(p(i), Sum(n, p), v(i))
    ensures Sum(n, p) > 0.0 && Sum(n, out) == SoftmaxMean(e, n, s, v)
  {
    TwoPassWeights(e, n, s, m, p);
    TwoPassMean(e, n, s, v, m, p, out, Sum(n, p), e(m) * Sum(n, p));
  }

  lemma TwoPassMean(e: real -> real, n: nat, s: int -> real, v: int -> real, m: real, p: int -> real, out: int -> real,
                    z: real, c: real)
    requires IsExp(e) && n > 0 && z != 0.0 && c == e(m) * z && Sum(n, Weight(e, s)) == c
    requires forall i :: 0 <= i < n ==> p(i) == e(s(i) - m)
    requires forall i :: 0 <= i < n ==> out(i) == Portion(p(i), z, v(i))
    ensures Sum(n, out) == SoftmaxMean(e, n, s, v)
  {
    TwoPassValues(e, n, s, v, m, p, out, z, c);
    MeanFromTotals(e, n, s, v, Sum(n, out), c);
  }

  lemma TwoPassWeights(e: real -> real, n: nat, s: int -> real, m: real, p: int -> real)
    requires IsExp(e) && n > 0 && forall i :: 0 <= i < n ==> p(i) == e(s(i) - m)
    ensures Sum(n, Weight(e, s)) == e(m) * Sum(n, p) && Sum(n, p) > 0.0
  {
    forall i | 0 <= i < n
      ensures Weight(e, s)(i) == e(m) * p(i) && p(i) > 0.0
    {
      ExpShift(e, s(i), m);
    }
    SumScale(n, e(m), p, Weight(e, s));
    SumPositive(n, p);
  }

  lemma TwoPassValues(e: real -> real, n: nat, s: int -> real, v: int -> real, m: real, p: int -> real,
                      out: int -> real, z: real, c: real)
    requires IsExp(e) && z != 0.0 && c == e(m) * z && forall i :: 0 <= i < n ==> p(i) == e(s(i) - m)
    requires forall i :: 0 <= i < n ==> out(i) == Portion(p(i), z, v(i))
    ensures Sum(n, Weighted(e, s, v)) == c * Sum(n, out)
  {
    forall i | 0 <= i < n
      ensures Weighted(e, s, v)(i) == c * out(i)
    {
      TwoPassTerm(e, s(i), m, z, p(i), v(i), c);
    }
    SumScale(n, c, out, Weighted(e, s, v));
  }

  lemma TwoPassTerm(e: real -> real, s: real, m: real, z: real, p: real, v: real, c: real)
    requires IsExp(e) && z != 0.0 && p == e(s - m) && c == e(m) * z
    ensures e(s) * v == c * Portion(p, z, v)
  {
    ExpShift(e, s, m);
    Regroup(e(m), p, z, v);
  }

  lemma Regroup(c: real, p: real, z: real, v: real)
    requires z != 0.0
    ensures (c * z) * (p / z * v) == c * p * v
  {
    var q := p / z;
    assert q * z == p;
    assert (c * z) * (q * v) == c * (q * z) * v;
  }
}
