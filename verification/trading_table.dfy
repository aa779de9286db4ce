/** The merged trading table (交易量价数据汇总) the metrics engine reads, the query a
    caller hands to `filter_by_price_range`, the layered row filter itself and the
    company conversion factors. */
module TradingTable {
  import opened Wrappers
  import opened Seqs

  /** The numeric columns the metrics read. */
  datatype NumCol =
    | ForwardNodePrice    // 日前出清节点价格
    | IntradayNodePrice   // 日内出清节点价格
    | InterDayAheadPower  // 省间日前出清电力
    | InterDayAheadPrice  // 省间日前出清价格
    | InterRealtimePower  // 省间实时出清电力
    | InterRealtimePrice  // 省间实时出清价格
    | InterTotal          // 省间中标总量
    | ForwardOutput       // 日前中标出力
    | ActualOutput        // 日内实际出力
    | IntraMltVolume      // 省内中长期上网电量
    | IntraMltPrice       // 省内中长期均价
    | InterMltVolume      // 省间中长期上网电量
    | InterMltPrice       // 省间中长期均价

  /** One 15-minute row. A numeric cell is present when its column is a key of
      `values`; a missing key is a null (NaN) cell. Dates are yyyymmdd numbers, None
      when the cell does not read as a date. */
  datatype TradingRow = TradingRow(
    company: Option<string>,    // 公司名称
    unitName: Option<string>,   // 机组名称
    dimension: Option<string>,  // 机组维度
    date: Option<int>,          // 日期
    values: map<NumCol, real>)

  function Cell(r: TradingRow, c: NumCol): Option<real>
  {
    if c in r.values then Some(r.values[c]) else None
  }

  /** Which of the optional columns the table has. The source tests these columns
      before use; every other numeric column is read unconditionally and so is
      taken to be present. */
  datatype Schema = Schema(
    hasDate: bool,
    hasCompany: bool,
    hasUnitName: bool,
    hasDimension: bool,
    hasIntradayPrice: bool,   // 日内出清节点价格
    hasInterPowerPair: bool,  // 省间日前出清电力 and 省间实时出清电力
    hasInterPrices: bool,     // 省间日前出清价格 and 省间实时出清价格
    hasInterTotal: bool)      // 省间中标总量

  predicate ColumnPresent(s: Schema, c: NumCol)
  {
    match c
    case IntradayNodePrice => s.hasIntradayPrice
    case InterDayAheadPower => s.hasInterPowerPair
    case InterRealtimePower => s.hasInterPowerPair
    case InterDayAheadPrice => s.hasInterPrices
    case InterRealtimePrice => s.hasInterPrices
    case InterTotal => s.hasInterTotal
    case _ => true
  }

  /** The keyword arguments of `filter_by_price_range` and the metrics. None is an
      argument left at its default None. The company and unit arguments are
      `Some(None)` when the caller passes a null cell value (a NaN taken from the
      table), which equals nothing. Dates are yyyymmdd numbers. */
  datatype Query = Query(
    minPrice: Option<real>,
    maxPrice: Option<real>,
    startDate: Option<int>,
    endDate: Option<int>,
    company: Option<Option<string>>,
    unit: Option<Option<string>>,
    dimension: Option<string>,
    includeMin: bool,
    includeMax: bool)

  /** The query with every argument at its default. */
  const NoQuery := Query(None, None, None, None, None, None, None, false, false)

  /** A bound check on one price cell: a null cell fails every set bound (NaN compares
      false), an unset bound passes everything. */
  predicate AboveMin(v: Option<real>, min: Option<real>, inclusive: bool)
  {
    min.None? || (v.Some? && (if inclusive then v.value >= min.value else v.value > min.value))
  }

  predicate BelowMax(v: Option<real>, max: Option<real>, inclusive: bool)
  {
    max.None? || (v.Some? && (if inclusive then v.value <= max.value else v.value < max.value))
  }

  /** An equality test of a text cell against an argument: a null on either side
      matches nothing. */
  predicate TextMatches(cell: Option<string>, target: Option<string>)
  {
    cell.Some? && cell == target
  }

  /** The seven stages of the filter, in the order the source applies them:
      0 minimum price, 1 maximum price, 2 start date, 3 end date, 4 company, 5 unit,
      6 unit group. */
  const StageCount: nat := 7

  /** Whether stage k leaves the table as it is: its argument is unset, or the column
      it tests is absent. */
  predicate StageSkipped(k: nat, s: Schema, q: Query)
  {
    match k
    case 0 => q.minPrice.None?
    case 1 => q.maxPrice.None?
    case 2 => !s.hasDate || q.startDate.None?
    case 3 => !s.hasDate || q.endDate.None?
    case 4 => q.company.None? || !s.hasCompany
    case 5 => q.unit.None? || !s.hasUnitName
    case 6 => q.dimension.None? || !s.hasDimension
    case _ => true
  }

  /** Whether row r survives stage k. */
  predicate StageAdmits(k: nat, s: Schema, q: Query, col: NumCol, r: TradingRow)
  {
    StageSkipped(k, s, q) ||
    match k
    case 0 => AboveMin(Cell(r, col), q.minPrice, q.includeMin)
    case 1 => BelowMax(Cell(r, col), q.maxPrice, q.includeMax)
    case 2 => r.date.Some? && r.date.value >= q.startDate.value
    case 3 => r.date.Some? && r.date.value <= q.endDate.value
    case 4 => TextMatches(r.company, q.company.value)
    case 5 => TextMatches(r.unitName, q.unit.value)
    case _ => TextMatches(r.dimension, Some(q.dimension.value))
  }

  /** Whether row r survives the first n stages. */
  predicate AdmitsUpTo(n: nat, s: Schema, q: Query, col: NumCol, r: TradingRow)
  {
    n == 0 || (AdmitsUpTo(n - 1, s, q, col, r) && StageAdmits(n - 1, s, q, col, r))
  }

  /** Whether row r survives the whole filter with col as the price column. */
  predicate Admits(s: Schema, q: Query, col: NumCol, r: TradingRow)
  {
    AdmitsUpTo(StageCount, s, q, col, r)
  }

  function Stage(k: nat, s: Schema, q: Query, col: NumCol): TradingRow -> bool
  {
    r => StageAdmits(k, s, q, col, r)
  }

  function UpTo(n: nat, s: Schema, q: Query, col: NumCol): TradingRow -> bool
  {
    r => AdmitsUpTo(n, s, q, col, r)
  }

  /** The rows `filter_by_price_range` returns: the rows of df that survive every stage,
      in table order. */
  function Selected(df: seq<TradingRow>, s: Schema, q: Query, col: NumCol): seq<TradingRow>
  {
    Where(df, UpTo(StageCount, s, q, col))
  }

  /** The filter needs the price column only when a price bound is set (otherwise the
      source raises KeyError). */
  predicate CanFilter(s: Schema, q: Query, col: NumCol)
  {
    (q.minPrice.None? && q.maxPrice.None?) || ColumnPresent(s, col)
  }

  /** Row r survives the filter exactly when it passes the price bounds, the inclusive
      date range (when the table has a date column), and the company, unit and
      unit-group equality tests whose argument is set and whose column exists. */
  lemma AdmitsExactly(s: Schema, q: Query, col: NumCol, r: TradingRow)
    ensures Admits(s, q, col, r) <==>
      AboveMin(Cell(r, col), q.minPrice, q.includeMin) &&
      BelowMax(Cell(r, col), q.maxPrice, q.includeMax) &&
      (!s.hasDate || q.startDate.None? || (r.date.Some? && r.date.value >= q.startDate.value)) &&
      (!s.hasDate || q.endDate.None? || (r.date.Some? && r.date.value <= q.endDate.value)) &&
      (q.company.None? || !s.hasCompany || TextMatches(r.company, q.company.value)) &&
      (q.unit.None? || !s.hasUnitName || TextMatches(r.unitName, q.unit.value)) &&
      (q.dimension.None? || !s.hasDimension || TextMatches(r.dimension, q.dimension))
  {
    AdmitsEveryStage(s, q, col, r);
    assert StageAdmits(0, s, q, col, r) == AboveMin(Cell(r, col), q.minPrice, q.includeMin);
    assert StageAdmits(1, s, q, col, r) == BelowMax(Cell(r, col), q.maxPrice, q.includeMax);
    assert StageAdmits(6, s, q, col, r) == (q.dimension.None? || !s.hasDimension || TextMatches(r.dimension, q.dimension));
  }

  /** Surviving the filter is surviving each of its stages. */
  lemma AdmitsEveryStage(s: Schema, q: Query, col: NumCol, r: TradingRow)
    ensures Admits(s, q, col, r) <==>
      StageAdmits(0, s, q, col, r) && StageAdmits(1, s, q, col, r) && StageAdmits(2, s, q, col, r) &&
      StageAdmits(3, s, q, col, r) && StageAdmits(4, s, q, col, r) && StageAdmits(5, s, q, col, r) &&
      StageAdmits(6, s, q, col, r)
  {
    assert AdmitsUpTo(1, s, q, col, r) == StageAdmits(0, s, q, col, r);
    assert AdmitsUpTo(2, s, q, col, r) == (AdmitsUpTo(1, s, q, col, r) && StageAdmits(1, s, q, col, r));
    assert AdmitsUpTo(3, s, q, col, r) == (AdmitsUpTo(2, s, q, col, r) && StageAdmits(2, s, q, col, r));
    assert AdmitsUpTo(4, s, q, col, r) == (AdmitsUpTo(3, s, q, col, r) && StageAdmits(3, s, q, col, r));
    assert AdmitsUpTo(5, s, q, col, r) == (AdmitsUpTo(4, s, q, col, r) && StageAdmits(4, s, q, col, r));
    assert AdmitsUpTo(6, s, q, col, r) == (AdmitsUpTo(5, s, q, col, r) && StageAdmits(5, s, q, col, r));
  }

  /** A row whose price cell is null is dropped whenever a price bound is set, and a
      query without price bounds does not look at the price at all. */
  lemma NullPrice(s: Schema, q: Query, col: NumCol, r: TradingRow)
    requires Cell(r, col).None?
    ensures (q.minPrice.Some? || q.maxPrice.Some?) ==> !Admits(s, q, col, r)
    ensures q.minPrice.None? && q.maxPrice.None? ==>
      (Admits(s, q, col, r) <==> Admits(s, q, col, r.(values := r.values[col := 0.0])))
  {
    AdmitsExactly(s, q, col, r);
    AdmitsExactly(s, q, col, r.(values := r.values[col := 0.0]));
  }

  /** A price equal to a bound is kept only when that bound is inclusive. */
  lemma BoundaryPrice(s: Schema, q: Query, col: NumCol, r: TradingRow)
    requires q.minPrice.Some? && Cell(r, col) == q.minPrice
    requires q.maxPrice.Some? ==> q.minPrice.value < q.maxPrice.value
    ensures Admits(s, q, col, r) ==> q.includeMin
    ensures q.includeMin && q.maxPrice.None? && StageSkipped(2, s, q) && StageSkipped(3, s, q)
            && StageSkipped(4, s, q) && StageSkipped(5, s, q) && StageSkipped(6, s, q)
            ==> Admits(s, q, col, r)
  {
    AdmitsExactly(s, q, col, r);
  }

  /** The filter result is an order-preserving subsequence of the table, and holds
      exactly the table's rows that the filter admits. */
  lemma SelectedIsSubsequence(df: seq<TradingRow>, s: Schema, q: Query, col: NumCol)
    ensures IsSubsequence(Selected(df, s, q, col), df)
    ensures forall r :: r in Selected(df, s, q, col) <==> r in df && Admits(s, q, col, r)
  {
    WhereIsSubsequence(df, UpTo(StageCount, s, q, col));
  }

  /** Filtering a filter result again with the same query changes nothing. */
  lemma SelectedIdempotent(df: seq<TradingRow>, s: Schema, q: Query, col: NumCol)
    ensures Selected(Selected(df, s, q, col), s, q, col) == Selected(df, s, q, col)
  {
    var p := UpTo(StageCount, s, q, col);
    WhereThen(df, p, p, p);
  }

  /** Making a price bound inclusive only adds rows. */
  lemma InclusiveKeepsMore(df: seq<TradingRow>, s: Schema, q: Query, col: NumCol)
    ensures IsSubsequence(Selected(df, s, q, col),
                          Selected(df, s, q.(includeMin := true, includeMax := true), col))
  {
    var q' := q.(includeMin := true, includeMax := true);
    forall r | r in df && UpTo(StageCount, s, q, col)(r)
      ensures UpTo(StageCount, s, q', col)(r)
    {
      AdmitsExactly(s, q, col, r);
      AdmitsExactly(s, q', col, r);
    }
    WhereMonotone(df, UpTo(StageCount, s, q, col), UpTo(StageCount, s, q', col));
  }

  /** Dropping the company, unit and unit-group arguments only adds rows. */
  lemma FewerArgumentsKeepMore(df: seq<TradingRow>, s: Schema, q: Query, col: NumCol)
    ensures IsSubsequence(Selected(df, s, q, col),
                          Selected(df, s, q.(company := None, unit := None, dimension := None), col))
  {
    var q' := q.(company := None, unit := None, dimension := None);
    forall r | r in df && UpTo(StageCount, s, q, col)(r)
      ensures UpTo(StageCount, s, q', col)(r)
    {
      AdmitsExactly(s, q, col, r);
      AdmitsExactly(s, q', col, r);
    }
    WhereMonotone(df, UpTo(StageCount, s, q, col), UpTo(StageCount, s, q', col));
  }

  /** Applying stage k to the rows that survived the first k stages yields the rows
      that survive the first k + 1. */
  lemma ApplyStage(df: seq<TradingRow>, k: nat, s: Schema, q: Query, col: NumCol)
    ensures Where(Where(df, UpTo(k, s, q, col)), Stage(k, s, q, col)) == Where(df, UpTo(k + 1, s, q, col))
  {
    WhereThen(df, UpTo(k, s, q, col), Stage(k, s, q, col), UpTo(k + 1, s, q, col));
  }

  /** A skipped stage keeps every row. */
  lemma SkipStage(df: seq<TradingRow>, k: nat, s: Schema, q: Query, col: NumCol)
    requires StageSkipped(k, s, q)
    ensures Where(df, UpTo(k, s, q, col)) == Where(df, UpTo(k + 1, s, q, col))
  {
    WhereSame(df, UpTo(k, s, q, col), UpTo(k + 1, s, q, col));
  }

  /** The warnings the filter prints. */
  datatype Warning = DateColumnMissing | DimensionColumnMissing

  function FilterWarnings(s: Schema, q: Query): (w: seq<Warning>)
    ensures DateColumnMissing in w <==> !s.hasDate && (q.startDate.Some? || q.endDate.Some?)
    ensures DimensionColumnMissing in w <==> q.dimension.Some? && !s.hasDimension
    ensures |w| <= 2
  {
    (if !s.hasDate && (q.startDate.Some? || q.endDate.Some?) then [DateColumnMissing] else []) +
    (if q.dimension.Some? && !s.hasDimension then [DimensionColumnMissing] else [])
  }

  /** A missing date column is reported only when a date bound is set, and then the
      date bounds change nothing. */
  lemma DateWarningMeansNoDateStage(df: seq<TradingRow>, s: Schema, q: Query, col: NumCol)
    requires DateColumnMissing in FilterWarnings(s, q)
    ensures Selected(df, s, q, col) == Selected(df, s, q.(startDate := None, endDate := None), col)
  {
    var q' := q.(startDate := None, endDate := None);
    forall r | r in df ensures UpTo(StageCount, s, q, col)(r) == UpTo(StageCount, s, q', col)(r) {
      AdmitsExactly(s, q, col, r);
      AdmitsExactly(s, q', col, r);
    }
    WhereSame(df, UpTo(StageCount, s, q, col), UpTo(StageCount, s, q', col));
  }

  /** Capacity ratios that bring each company's output to a 660 MW reference unit. */
  const ConversionFactors: map<string, real> := map[
    "同华" := 660.0 / 660.0,
    "塔山" := 660.0 / 600.0,
    "阳高" := 660.0 / 350.0,
    "同达" := 660.0 / 330.0,
    "王坪" := 660.0 / 200.0,
    "蒲洲" := 660.0 / 350.0,
    "河津" := 660.0 / 350.0,
    "临汾" := 660.0 / 300.0,
    "侯马" := 660.0 / 300.0]

  const DefaultConversionFactor: real := 1.0

  /** `_get_power_conversion_factor`: the table entry of a listed company, 1.0 for no
      company or an unlisted one. Every factor is at least 1, and it is exactly 1
      only for 同华 and for the companies the table does not list. */
  function ConversionFactor(company: Option<string>): (f: real)
    ensures f >= 1.0
    ensures company.None? ==> f == 1.0
    ensures company.Some? && company.value in ConversionFactors ==> f == ConversionFactors[company.value]
    ensures f == 1.0 <==> company.None? || company.value !in ConversionFactors || company.value == "同华"
  {
    match company
    case None => DefaultConversionFactor
    case Some(c) => if c in ConversionFactors then ConversionFactors[c] else DefaultConversionFactor
  }

  /** The factor a metric uses for its company argument: a null company taken from the
      table is not a key of the factor table, so it gets the default as well. */
  function FactorFor(q: Query): (f: real)
    ensures f >= 1.0
    ensures q.company.None? || q.company.value.None? ==> f == 1.0
  {
    ConversionFactor(if q.company.Some? then q.company.value else None)
  }

  lemma ConversionFactorExamples()
    ensures ConversionFactor(Some("塔山")) == 1.1
    ensures ConversionFactor(Some("王坪")) == 3.3
    ensures ConversionFactor(Some("阳高")) == ConversionFactor(Some("河津")) == ConversionFactor(Some("蒲洲"))
    ensures ConversionFactor(Some("大同")) == 1.0
  {
  }
}
