/** The ten metrics of the trading-metrics engine, as formulas over the rows the
    layered filter selects. Each row is one 15-minute slot, so four rows make an hour. */
module Metrics {
  import opened Wrappers
  import opened Seqs
  import opened TradingTable
  import opened Ratios

  /** A cell with nulls read as 0 (`.fillna(0)`). */
  function Filled(r: TradingRow, c: NumCol): real
  {
    Cell(r, c).GetOr(0.0)
  }

  function FilledOf(c: NumCol): TradingRow -> real
  {
    r => Filled(r, c)
  }

  /** The column total (`.sum()`, which skips nulls, the same as `.fillna(0).sum()`). */
  function ColumnSum(rows: seq<TradingRow>, c: NumCol): real
  {
    SumOf(rows, FilledOf(c))
  }

  /** The number of non-null cells of a column. */
  function PresentCount(rows: seq<TradingRow>, c: NumCol): (n: nat)
    ensures n <= |rows|
    ensures n == 0 <==> forall i :: 0 <= i < |rows| ==> Cell(rows[i], c).None?
  {
    if rows == [] then 0
    else (if Cell(rows[0], c).Some? then 1 else 0) + PresentCount(rows[1..], c)
  }

  /** `.mean()`: the average of the non-null cells; None (NaN) when there are none. */
  function Mean(rows: seq<TradingRow>, c: NumCol): (m: Option<real>)
    ensures m.None? <==> forall i :: 0 <= i < |rows| ==> Cell(rows[i], c).None?
  {
    var n := PresentCount(rows, c);
    if n == 0 then None else Some(ColumnSum(rows, c) / n as real)
  }

  /** The sum of two cells of a row, nulls read as 0. */
  function PairValue(r: TradingRow, a: NumCol, b: NumCol): real
  {
    Filled(r, a) + Filled(r, b)
  }

  function PairOf(a: NumCol, b: NumCol): TradingRow -> real
  {
    r => PairValue(r, a, b)
  }

  /** The per-row sum of two columns, totalled (`(a.fillna(0) + b.fillna(0)).sum()`). */
  function PairSum(rows: seq<TradingRow>, a: NumCol, b: NumCol): real
  {
    SumOf(rows, PairOf(a, b))
  }

  /** Two volume-price legs of one row (`v1 * p1 + v2 * p2`, nulls read as 0). */
  function LegValue(r: TradingRow, v1: NumCol, p1: NumCol, v2: NumCol, p2: NumCol): real
  {
    Filled(r, v1) * Filled(r, p1) + Filled(r, v2) * Filled(r, p2)
  }

  function LegOf(v1: NumCol, p1: NumCol, v2: NumCol, p2: NumCol): TradingRow -> real
  {
    r => LegValue(r, v1, p1, v2, p2)
  }

  function LegValueSum(rows: seq<TradingRow>, v1: NumCol, p1: NumCol, v2: NumCol, p2: NumCol): real
  {
    SumOf(rows, LegOf(v1, p1, v2, p2))
  }

  /** A quotient guarded against a zero denominator, which yields 0. */
  function GuardedRatio(num: real, den: real): real
  {
    if den == 0.0 then 0.0 else num / den
  }

  /** The volume-weighted price of two legs: Σ(v1·p1 + v2·p2) / Σ(v1 + v2), and exactly
      0 when the volumes total 0 (metrics 5 and 10). */
  function TwoLegAverage(rows: seq<TradingRow>, v1: NumCol, p1: NumCol, v2: NumCol, p2: NumCol): real
  {
    GuardedRatio(LegValueSum(rows, v1, p1, v2, p2), PairSum(rows, v1, v2))
  }

  /** Hours covered by a set of 15-minute rows. */
  function Hours(rows: seq<TradingRow>): real
  {
    |rows| as real / 4.0
  }

  /** Metrics 7 and 8: the column total read as hourly energy (÷4), scaled by the
      conversion factor and divided by the hours; 0 on no rows. */
  function AveragePower(rows: seq<TradingRow>, c: NumCol, factor: real): real
  {
    if |rows| == 0 then 0.0 else (ColumnSum(rows, c) / 4.0 * factor) / Hours(rows)
  }

  /** Metric 9: the medium- and long-term volumes of both markets, totalled, scaled and
      divided by the hours (the total is not divided by 4); 0 on no rows. */
  function MltAveragePower(rows: seq<TradingRow>, factor: real): real
  {
    if |rows| == 0 then 0.0 else (PairSum(rows, IntraMltVolume, InterMltVolume) * factor) / Hours(rows)
  }

  /** Metric 6 before scaling: both cross-provincial power columns when the table has
      them, else the cross-provincial total column, else None (the source then warns and
      returns 0 without scaling). */
  function InterPowerTotal(s: Schema, rows: seq<TradingRow>): Option<real>
  {
    if s.hasInterPowerPair then Some(PairSum(rows, InterDayAheadPower, InterRealtimePower))
    else if s.hasInterTotal then Some(ColumnSum(rows, InterTotal))
    else None
  }

  function InterPower(s: Schema, rows: seq<TradingRow>, factor: real): real
  {
    match InterPowerTotal(s, rows)
    case Some(t) => t * factor
    case None => 0.0
  }

  /** The rows metrics 1, 3, 4, 7 and 8 use: the table filtered on 日前出清节点价格. */
  function ForwardRows(df: seq<TradingRow>, s: Schema, q: Query): seq<TradingRow>
  {
    Selected(df, s, q, ForwardNodePrice)
  }

  /** The rows metric 2 counts: the forward rows filtered again by the same price bounds
      on 日内出清节点价格, when the table has that column. */
  function RealtimeRows(df: seq<TradingRow>, s: Schema, q: Query): seq<TradingRow>
  {
    var f := ForwardRows(df, s, q);
    if s.hasIntradayPrice then
      Where(Where(f, Stage(0, s, q, IntradayNodePrice)), Stage(1, s, q, IntradayNodePrice))
    else f
  }

  /** The intraday price of r passes the query's price bounds. */
  predicate IntradayWithin(q: Query, r: TradingRow)
  {
    AboveMin(Cell(r, IntradayNodePrice), q.minPrice, q.includeMin) &&
    BelowMax(Cell(r, IntradayNodePrice), q.maxPrice, q.includeMax)
  }

  function IntradayMask(q: Query): TradingRow -> bool
  {
    r => IntradayWithin(q, r)
  }

  function IntradayMiss(q: Query): TradingRow -> bool
  {
    r => !IntradayWithin(q, r)
  }

  /** The realtime rows are the forward rows whose intraday price also passes the bounds
      (all forward rows when the table has no intraday price), so there are never more
      of them, and the difference is the number of forward rows whose intraday price
      fails the bounds. */
  lemma RealtimeRowsAreRefiltered(df: seq<TradingRow>, s: Schema, q: Query)
    ensures s.hasIntradayPrice ==> RealtimeRows(df, s, q) == Where(ForwardRows(df, s, q), IntradayMask(q))
    ensures !s.hasIntradayPrice ==> RealtimeRows(df, s, q) == ForwardRows(df, s, q)
    ensures IsSubsequence(RealtimeRows(df, s, q), ForwardRows(df, s, q))
    ensures s.hasIntradayPrice ==>
      |ForwardRows(df, s, q)| - |RealtimeRows(df, s, q)| == |Where(ForwardRows(df, s, q), IntradayMiss(q))|
  {
    var f := ForwardRows(df, s, q);
    if s.hasIntradayPrice {
      WhereThen(f, Stage(0, s, q, IntradayNodePrice), Stage(1, s, q, IntradayNodePrice), IntradayMask(q));
      WhereIsSubsequence(f, IntradayMask(q));
      WhereSplit(f, IntradayMask(q), IntradayMiss(q));
    } else {
      SubsequenceReflexive(f);
    }
  }

  /** Realtime hours never exceed forward hours. */
  lemma RealtimeHoursAtMostForward(df: seq<TradingRow>, s: Schema, q: Query)
    ensures Hours(RealtimeRows(df, s, q)) <= Hours(ForwardRows(df, s, q))
  {
    RealtimeRowsAreRefiltered(df, s, q);
    if s.hasIntradayPrice {
      assert |RealtimeRows(df, s, q)| <= |ForwardRows(df, s, q)|;
    }
  }

  /** Each present value of column c is at least lo (above lo when strict). */
  predicate PresentAtLeast(rows: seq<TradingRow>, c: NumCol, lo: real, strict: bool)
  {
    forall i :: 0 <= i < |rows| && Cell(rows[i], c).Some? ==>
      if strict then lo < Cell(rows[i], c).value else lo <= Cell(rows[i], c).value
  }

  /** Each present value of column c is at most hi (below hi when strict). */
  predicate PresentAtMost(rows: seq<TradingRow>, c: NumCol, hi: real, strict: bool)
  {
    forall i :: 0 <= i < |rows| && Cell(rows[i], c).Some? ==>
      if strict then Cell(rows[i], c).value < hi else Cell(rows[i], c).value <= hi
  }

  /** n copies of x added up. */
  function Repeat(n: nat, x: real): real
  {
    if n == 0 then 0.0 else x + Repeat(n - 1, x)
  }

  lemma {:induction false} RepeatIsProduct(n: nat, x: real)
    ensures Repeat(n, x) == n as real * x
  {
    if n > 0 {
      RepeatIsProduct(n - 1, x);
      assert n as real * x == (n - 1) as real * x + x;
    }
  }

  lemma {:induction false} ColumnSumAtLeast(rows: seq<TradingRow>, c: NumCol, lo: real, strict: bool)
    requires PresentAtLeast(rows, c, lo, strict)
    ensures Repeat(PresentCount(rows, c), lo) <= ColumnSum(rows, c)
    ensures strict && PresentCount(rows, c) > 0 ==> Repeat(PresentCount(rows, c), lo) < ColumnSum(rows, c)
  {
    if rows != [] {
      var rest := rows[1..];
      assert PresentAtLeast(rest, c, lo, strict) by {
        forall i | 0 <= i < |rest| ensures rest[i] == rows[i + 1] { }
      }
      ColumnSumAtLeast(rest, c, lo, strict);
      if Cell(rows[0], c).Some? {
        assert PresentCount(rows, c) == PresentCount(rest, c) + 1;
      }
    }
  }

  lemma {:induction false} ColumnSumAtMost(rows: seq<TradingRow>, c: NumCol, hi: real, strict: bool)
    requires PresentAtMost(rows, c, hi, strict)
    ensures ColumnSum(rows, c) <= Repeat(PresentCount(rows, c), hi)
    ensures strict && PresentCount(rows, c) > 0 ==> ColumnSum(rows, c) < Repeat(PresentCount(rows, c), hi)
  {
    if rows != [] {
      var rest := rows[1..];
      assert PresentAtMost(rest, c, hi, strict) by {
        forall i | 0 <= i < |rest| ensures rest[i] == rows[i + 1] { }
      }
      ColumnSumAtMost(rest, c, hi, strict);
      if Cell(rows[0], c).Some? {
        assert PresentCount(rows, c) == PresentCount(rest, c) + 1;
      }
    }
  }

  /** A mean is at least (above, when strict) any lower bound of the values it averages. */
  lemma MeanAtLeast(rows: seq<TradingRow>, c: NumCol, lo: real, strict: bool)
    requires PresentAtLeast(rows, c, lo, strict)
    ensures Mean(rows, c).Some? ==> if strict then Mean(rows, c).value > lo else Mean(rows, c).value >= lo
  {
    var k := PresentCount(rows, c);
    if k > 0 {
      ColumnSumAtLeast(rows, c, lo, strict);
      RepeatQuotientAbove(k, lo, ColumnSum(rows, c), strict);
    }
  }

  /** t over k is at least lo (above it, when strict) when k copies of lo add up to at
      most t (less than t). */
  lemma RepeatQuotientAbove(k: nat, lo: real, t: real, strict: bool)
    requires k > 0
    requires if strict then Repeat(k, lo) < t else Repeat(k, lo) <= t
    ensures if strict then t / k as real > lo else t / k as real >= lo
  {
    RepeatIsProduct(k, lo);
    QuotientAbove(t, k as real, lo, strict);
  }

  /** A mean is at most (below, when strict) any upper bound of the values it averages. */
  lemma MeanAtMost(rows: seq<TradingRow>, c: NumCol, hi: real, strict: bool)
    requires PresentAtMost(rows, c, hi, strict)
    ensures Mean(rows, c).Some? ==> if strict then Mean(rows, c).value < hi else Mean(rows, c).value <= hi
  {
    var k := PresentCount(rows, c);
    if k > 0 {
      ColumnSumAtMost(rows, c, hi, strict);
      RepeatQuotientBelow(k, hi, ColumnSum(rows, c), strict);
    }
  }

  /** t over k is at most hi (below it, when strict) when t is at most (less than) k
      copies of hi added up. */
  lemma RepeatQuotientBelow(k: nat, hi: real, t: real, strict: bool)
    requires k > 0
    requires if strict then t < Repeat(k, hi) else t <= Repeat(k, hi)
    ensures if strict then t / k as real < hi else t / k as real <= hi
  {
    RepeatIsProduct(k, hi);
    QuotientBelow(t, k as real, hi, strict);
  }

  /** Metric 3 respects the price bounds it filters by: the forward average price is at
      least (above, for an exclusive bound) the minimum and at most (below) the maximum. */
  lemma ForwardAvgPriceWithinBounds(df: seq<TradingRow>, s: Schema, q: Query)
    ensures var m := Mean(ForwardRows(df, s, q), ForwardNodePrice);
      m.Some? && q.minPrice.Some? ==> (if q.includeMin then m.value >= q.minPrice.value else m.value > q.minPrice.value)
    ensures var m := Mean(ForwardRows(df, s, q), ForwardNodePrice);
      m.Some? && q.maxPrice.Some? ==> (if q.includeMax then m.value <= q.maxPrice.value else m.value < q.maxPrice.value)
  {
    var rows := ForwardRows(df, s, q);
    SelectedIsSubsequence(df, s, q, ForwardNodePrice);
    forall i | 0 <= i < |rows|
      ensures AboveMin(Cell(rows[i], ForwardNodePrice), q.minPrice, q.includeMin)
      ensures BelowMax(Cell(rows[i], ForwardNodePrice), q.maxPrice, q.includeMax)
    {
      assert rows[i] in rows;
      AdmitsExactly(s, q, ForwardNodePrice, rows[i]);
    }
    if q.minPrice.Some? {
      MeanAtLeast(rows, ForwardNodePrice, q.minPrice.value, !q.includeMin);
    }
    if q.maxPrice.Some? {
      MeanAtMost(rows, ForwardNodePrice, q.maxPrice.value, !q.includeMax);
    }
  }

  /** The per-row pair total is the sum of the two column totals. */
  lemma PairSumSplits(rows: seq<TradingRow>, a: NumCol, b: NumCol)
    ensures PairSum(rows, a, b) == ColumnSum(rows, a) + ColumnSum(rows, b)
  {
    SumOfAdd(rows, FilledOf(a), FilledOf(b), PairOf(a, b));
  }

  /** The pair total does not depend on the order of the two columns. */
  lemma PairSumSymmetric(rows: seq<TradingRow>, a: NumCol, b: NumCol)
    ensures PairSum(rows, a, b) == PairSum(rows, b, a)
  {
    SumOfSame(rows, PairOf(a, b), PairOf(b, a));
  }

  /** One row's legs are worth between lo and hi times its volume when both volumes are
      non-negative and both prices lie in [lo, hi]. */
  lemma RowLegBounds(r: TradingRow, v1: NumCol, p1: NumCol, v2: NumCol, p2: NumCol, lo: real, hi: real)
    requires Filled(r, v1) >= 0.0 && Filled(r, v2) >= 0.0
    requires lo <= Filled(r, p1) <= hi && lo <= Filled(r, p2) <= hi
    ensures WeightedWithin(lo, hi, PairValue(r, v1, v2), LegValue(r, v1, p1, v2, p2))
  {
    var a, b, pa, pb := Filled(r, v1), Filled(r, v2), Filled(r, p1), Filled(r, p2);
    var w, l := PairValue(r, v1, v2), LegValue(r, v1, p1, v2, p2);
    assert w == a + b;
    assert l == a * pa + b * pb;
    WeightedPairBounds(a, b, pa, pb, lo, hi);
  }

  /** With non-negative volumes and every (null-as-0) price in [lo, hi], the weighted
      total lies between lo and hi times the volume total. */
  lemma LegValueSumBounds(rows: seq<TradingRow>, v1: NumCol, p1: NumCol, v2: NumCol, p2: NumCol, lo: real, hi: real)
    requires forall i :: 0 <= i < |rows| ==> Filled(rows[i], v1) >= 0.0 && Filled(rows[i], v2) >= 0.0
    requires forall i :: 0 <= i < |rows| ==> lo <= Filled(rows[i], p1) <= hi && lo <= Filled(rows[i], p2) <= hi
    ensures WeightedWithin(lo, hi, PairSum(rows, v1, v2), LegValueSum(rows, v1, p1, v2, p2))
  {
    forall r | r in rows
      ensures WeightedWithin(lo, hi, PairOf(v1, v2)(r), LegOf(v1, p1, v2, p2)(r))
    {
      var i :| 0 <= i < |rows| && rows[i] == r;
      RowLegBounds(r, v1, p1, v2, p2, lo, hi);
    }
    SumOfWeightedBounds(rows, PairOf(v1, v2), LegOf(v1, p1, v2, p2), lo, hi);
  }

  lemma PairSumNonNegative(rows: seq<TradingRow>, a: NumCol, b: NumCol)
    requires forall i :: 0 <= i < |rows| ==> Filled(rows[i], a) >= 0.0 && Filled(rows[i], b) >= 0.0
    ensures PairSum(rows, a, b) >= 0.0
  {
    forall r | r in rows ensures PairOf(a, b)(r) >= 0.0 {
      var i :| 0 <= i < |rows| && rows[i] == r;
    }
    SumOfNonNegative(rows, PairOf(a, b));
  }

  /** A weighted average with non-negative volumes lies between the lowest and highest
      leg price, and is 0 when the volumes total 0 (metrics 5 and 10). */
  lemma TwoLegAverageWithin(rows: seq<TradingRow>, v1: NumCol, p1: NumCol, v2: NumCol, p2: NumCol, lo: real, hi: real)
    requires forall i :: 0 <= i < |rows| ==> Filled(rows[i], v1) >= 0.0 && Filled(rows[i], v2) >= 0.0
    requires forall i :: 0 <= i < |rows| ==> lo <= Filled(rows[i], p1) <= hi && lo <= Filled(rows[i], p2) <= hi
    ensures PairSum(rows, v1, v2) == 0.0 ==> TwoLegAverage(rows, v1, p1, v2, p2) == 0.0
    ensures PairSum(rows, v1, v2) != 0.0 ==> lo <= TwoLegAverage(rows, v1, p1, v2, p2) <= hi
  {
    var d, t := PairSum(rows, v1, v2), LegValueSum(rows, v1, p1, v2, p2);
    if d != 0.0 {
      assert TwoLegAverage(rows, v1, p1, v2, p2) == t / d;
      LegValueSumBounds(rows, v1, p1, v2, p2, lo, hi);
      PairSumNonNegative(rows, v1, v2);
      RatioWithin(t, d, lo, hi);
    }
  }

  /** When every volume cell is null or 0 the weighted average is exactly 0. */
  lemma NoVolumeMeansZero(rows: seq<TradingRow>, v1: NumCol, p1: NumCol, v2: NumCol, p2: NumCol)
    requires forall i :: 0 <= i < |rows| ==> Filled(rows[i], v1) == 0.0 && Filled(rows[i], v2) == 0.0
    ensures PairSum(rows, v1, v2) == 0.0
    ensures TwoLegAverage(rows, v1, p1, v2, p2) == 0.0
  {
    forall r | r in rows ensures PairOf(v1, v2)(r) == 0.0 {
      var i :| 0 <= i < |rows| && rows[i] == r;
    }
    SumOfConstant(rows, PairOf(v1, v2), 0.0);
  }

  lemma RowLegAtOnePrice(r: TradingRow, v1: NumCol, p1: NumCol, v2: NumCol, p2: NumCol, p: real)
    requires Filled(r, p1) == p && Filled(r, p2) == p
    ensures WeightedWithin(p, p, PairValue(r, v1, v2), LegValue(r, v1, p1, v2, p2))
  {
    var a, b := Filled(r, v1), Filled(r, v2);
    assert PairValue(r, v1, v2) == a + b;
    assert LegValue(r, v1, p1, v2, p2) == a * p + b * p;
    OnePriceWeights(a, b, p);
  }

  /** At a single price p the weighted total is p times the volume total. */
  lemma LegValueSumAtOnePrice(rows: seq<TradingRow>, v1: NumCol, p1: NumCol, v2: NumCol, p2: NumCol, p: real)
    requires forall i :: 0 <= i < |rows| ==> Filled(rows[i], p1) == p && Filled(rows[i], p2) == p
    ensures WeightedWithin(p, p, PairSum(rows, v1, v2), LegValueSum(rows, v1, p1, v2, p2))
  {
    forall r | r in rows ensures WeightedWithin(p, p, PairOf(v1, v2)(r), LegOf(v1, p1, v2, p2)(r)) {
      var i :| 0 <= i < |rows| && rows[i] == r;
      RowLegAtOnePrice(r, v1, p1, v2, p2, p);
    }
    SumOfWeightedBounds(rows, PairOf(v1, v2), LegOf(v1, p1, v2, p2), p, p);
  }

  /** When both legs of every row trade at one price p, the weighted average is p
      (provided some volume traded). */
  lemma OnePriceAverage(rows: seq<TradingRow>, v1: NumCol, p1: NumCol, v2: NumCol, p2: NumCol, p: real)
    requires forall i :: 0 <= i < |rows| ==> Filled(rows[i], p1) == p && Filled(rows[i], p2) == p
    ensures PairSum(rows, v1, v2) != 0.0 ==> TwoLegAverage(rows, v1, p1, v2, p2) == p
  {
    LegValueSumAtOnePrice(rows, v1, p1, v2, p2, p);
    if PairSum(rows, v1, v2) != 0.0 {
      RatioOfMultiple(LegValueSum(rows, v1, p1, v2, p2), PairSum(rows, v1, v2), p);
    }
  }

  /** Metrics 7 and 8 are the average of the (null-as-0) column over the rows, scaled
      by the conversion factor. */
  lemma AveragePowerIsScaledMean(rows: seq<TradingRow>, c: NumCol, factor: real)
    requires |rows| > 0
    ensures AveragePower(rows, c, factor) == ColumnSum(rows, c) / |rows| as real * factor
  {
    QuarterCancel(ColumnSum(rows, c), factor, |rows| as real);
  }

  /** With every cell of the column equal to x, metrics 7 and 8 are x times the factor. */
  lemma AveragePowerOfConstant(rows: seq<TradingRow>, c: NumCol, factor: real, x: real)
    requires |rows| > 0
    requires forall i :: 0 <= i < |rows| ==> Cell(rows[i], c) == Some(x)
    ensures AveragePower(rows, c, factor) == x * factor
  {
    forall r | r in rows ensures FilledOf(c)(r) == x {
      var i :| 0 <= i < |rows| && rows[i] == r;
    }
    SumOfConstant(rows, FilledOf(c), x);
    AveragePowerIsScaledMean(rows, c, factor);
    CountCancel(|rows| as real, x, factor);
  }

  /** Metric 9 is four times the per-row average of the two volumes, scaled: it counts
      every row's volume once per 15 minutes but divides by hours. */
  lemma MltAveragePowerIsFourTimesRowMean(rows: seq<TradingRow>, factor: real)
    requires |rows| > 0
    ensures MltAveragePower(rows, factor) ==
      4.0 * factor * (ColumnSum(rows, IntraMltVolume) + ColumnSum(rows, InterMltVolume)) / |rows| as real
  {
    PairSumSplits(rows, IntraMltVolume, InterMltVolume);
    FourTimes(PairSum(rows, IntraMltVolume, InterMltVolume), factor, |rows| as real);
  }

  /** Metric 6 totals both cross-provincial power columns, and ignores the total column,
      whenever the pair exists; a table with neither yields 0 for every factor. */
  lemma InterPowerSources(s: Schema, rows: seq<TradingRow>, factor: real)
    ensures s.hasInterPowerPair ==>
      InterPower(s, rows, factor) == (ColumnSum(rows, InterDayAheadPower) + ColumnSum(rows, InterRealtimePower)) * factor
    ensures !s.hasInterPowerPair && s.hasInterTotal ==> InterPower(s, rows, factor) == ColumnSum(rows, InterTotal) * factor
    ensures !s.hasInterPowerPair && !s.hasInterTotal ==> InterPower(s, rows, factor) == 0.0
  {
    PairSumSplits(rows, InterDayAheadPower, InterRealtimePower);
  }

  /** The ten metrics of one query. */
  datatype Report = Report(
    forwardHours: real,             // 1. 日前小时数
    realtimeHours: real,            // 2. 实时小时数
    forwardAvgPrice: Option<real>,  // 3. 日前价格均价 (None for NaN)
    realtimeAvgPrice: Option<real>, // 4. 实时价格均价 (None for NaN)
    interAvgPrice: real,            // 5. 省间价格均价
    interPower: real,               // 6. 省间中标电量
    forwardPower: real,             // 7. 日前中标电量
    actualPower: real,              // 8. 实际出力电量
    mltAvgPower: real,              // 9. 中长期持仓电量均值
    mltAvgPrice: real)              // 10. 中长期持仓加权均价

  /** Metric 4 reads the intraday price and metric 5 the cross-provincial power and
      price columns without checking that they exist. */
  predicate CanReport(s: Schema)
  {
    s.hasIntradayPrice && s.hasInterPowerPair && s.hasInterPrices
  }

  /** `analyze_all_metrics`: every metric filters on 日前出清节点价格 (the default price
      column of metrics 5, 6, 9 and 10). */
  function AllMetrics(df: seq<TradingRow>, s: Schema, q: Query): (rep: Report)
    requires CanReport(s)
    ensures rep.realtimeHours <= rep.forwardHours
    ensures rep.forwardHours * 4.0 == |ForwardRows(df, s, q)| as real
  {
    var rows := ForwardRows(df, s, q);
    var f := FactorFor(q);
    RealtimeHoursAtMostForward(df, s, q);
    Report(
      Hours(rows),
      Hours(RealtimeRows(df, s, q)),
      Mean(rows, ForwardNodePrice),
      Mean(rows, IntradayNodePrice),
      TwoLegAverage(rows, InterDayAheadPower, InterDayAheadPrice, InterRealtimePower, InterRealtimePrice),
      InterPower(s, rows, f),
      AveragePower(rows, ForwardOutput, f),
      AveragePower(rows, ActualOutput, f),
      MltAveragePower(rows, f),
      TwoLegAverage(rows, IntraMltVolume, IntraMltPrice, InterMltVolume, InterMltPrice))
  }

  /** Four slots of 塔山 at 600 MW forward output average 660 MW at the 660 MW reference. */
  lemma TashanExample(r: TradingRow)
    requires Cell(r, ForwardOutput) == Some(600.0)
    ensures AveragePower([r, r, r, r], ForwardOutput, ConversionFactor(Some("塔山"))) == 660.0
  {
    AveragePowerOfConstant([r, r, r, r], ForwardOutput, ConversionFactor(Some("塔山")), 600.0);
  }
}
