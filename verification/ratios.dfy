/** Facts of real arithmetic the metric proofs divide by, kept apart so that each
    is proved over plain variables. */
module Ratios {
  /** v lies between lo and hi times the weight w. */
  predicate WeightedWithin(lo: real, hi: real, w: real, v: real)
  {
    lo * w <= v <= hi * w
  }

  lemma MulNonNeg(x: real, y: real)
    requires x >= 0.0 && y >= 0.0
    ensures x * y >= 0.0
  {
  }

  /** Two non-negative weights on prices in [lo, hi]. */
  lemma WeightedPairBounds(a: real, b: real, pa: real, pb: real, lo: real, hi: real)
    requires a >= 0.0 && b >= 0.0
    requires lo <= pa <= hi && lo <= pb <= hi
    ensures WeightedWithin(lo, hi, a + b, a * pa + b * pb)
  {
    MulNonNeg(a, pa - lo);
    MulNonNeg(b, pb - lo);
    MulNonNeg(a, hi - pa);
    MulNonNeg(b, hi - pb);
  }

  lemma RatioWithin(num: real, den: real, lo: real, hi: real)
    requires den > 0.0
    requires WeightedWithin(lo, hi, den, num)
    ensures lo <= num / den <= hi
  {
  }

  /** Two weights at one price p are worth p times their total. */
  lemma OnePriceWeights(a: real, b: real, p: real)
    ensures WeightedWithin(p, p, a + b, a * p + b * p)
  {
  }

  /** Weighted bounds add up. */
  lemma WeightedWithinAdd(lo: real, hi: real, w1: real, v1: real, w2: real, v2: real)
    requires WeightedWithin(lo, hi, w1, v1) && WeightedWithin(lo, hi, w2, v2)
    ensures WeightedWithin(lo, hi, w1 + w2, v1 + v2)
  {
  }

  lemma RatioOfMultiple(num: real, den: real, p: real)
    requires den != 0.0 && WeightedWithin(p, p, den, num)
    ensures num / den == p
  {
  }

  lemma QuotientAbove(t: real, n: real, lo: real, strict: bool)
    requires n > 0.0
    requires if strict then n * lo < t else n * lo <= t
    ensures if strict then t / n > lo else t / n >= lo
  {
  }

  lemma QuotientBelow(t: real, n: real, hi: real, strict: bool)
    requires n > 0.0
    requires if strict then t < n * hi else t <= n * hi
    ensures if strict then t / n < hi else t / n <= hi
  {
  }

  lemma QuarterCancel(t: real, f: real, n: real)
    requires n > 0.0
    ensures (t / 4.0 * f) / (n / 4.0) == t / n * f
  {
  }

  lemma CountCancel(n: real, x: real, f: real)
    requires n > 0.0
    ensures (n * x) / n * f == x * f
  {
  }

  lemma FourTimes(p: real, f: real, n: real)
    requires n > 0.0
    ensures (p * f) / (n / 4.0) == 4.0 * f * p / n
  {
  }
}
