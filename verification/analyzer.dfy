/** `PowerDataAnalyzer`: the trading table it holds, the unit-group column it adds on
    loading, the step-by-step row filter, the ten metric methods and the grouped
    report builders. */
module Analyzer {
  import opened Wrappers
  import opened Seqs
  import opened UnitGroup
  import Decimal
  import opened TradingTable
  import opened Metrics

  /** The table with the 机组维度 column (re)computed from 机组名称 on every row. */
  function WithDimensions(rows: seq<TradingRow>): (r: seq<TradingRow>)
    ensures |r| == |rows|
  {
    seq(|rows|, i requires 0 <= i < |rows| => rows[i].(dimension := Some(DetermineDimension(rows[i].unitName))))
  }

  /** Every row's unit group is the one its unit name classifies into. */
  predicate DimensionsDerived(rows: seq<TradingRow>)
  {
    forall i :: 0 <= i < |rows| ==> rows[i].dimension == Some(DetermineDimension(rows[i].unitName))
  }

  /** Adding the column changes nothing but the unit group of each row, and what it
      adds is derived from the unit name; adding it twice is adding it once. */
  lemma WithDimensionsDerives(rows: seq<TradingRow>)
    ensures DimensionsDerived(WithDimensions(rows))
    ensures forall i :: 0 <= i < |rows| ==>
      WithDimensions(rows)[i].(dimension := rows[i].dimension) == rows[i]
    ensures WithDimensions(WithDimensions(rows)) == WithDimensions(rows)
  {
  }

  /** Each unit group is one of the four labels, and 未知 exactly for a missing name or
      one without a digit. */
  lemma DerivedDimensionLabels(rows: seq<TradingRow>, i: nat)
    requires DimensionsDerived(rows) && i < |rows|
    ensures rows[i].dimension.Some?
    ensures var g := rows[i].dimension.value;
      g == Group13 || g == Group24 || g == OtherUnits || g == Unknown
    ensures rows[i].dimension == Some(Unknown) <==>
      rows[i].unitName.None? || Decimal.NoDigit(rows[i].unitName.value)
  {
  }

  /** Row r survives the stage-k mask of `filter_by_price_range`. */
  lemma StageStep(df: seq<TradingRow>, k: nat, s: Schema, q: Query, col: NumCol,
                  filtered: seq<TradingRow>, mask: TradingRow -> bool)
    requires filtered == Where(df, UpTo(k, s, q, col))
    requires forall r :: mask(r) == StageAdmits(k, s, q, col, r)
    ensures Where(filtered, mask) == Where(df, UpTo(k + 1, s, q, col))
  {
    MaskIsStage(filtered, mask, k, s, q, col);
    ApplyStage(df, k, s, q, col);
  }

  /** A mask written as stage k tests keeps the rows stage k keeps. */
  lemma MaskIsStage(rows: seq<TradingRow>, mask: TradingRow -> bool, k: nat, s: Schema, q: Query, col: NumCol)
    requires forall r :: mask(r) == StageAdmits(k, s, q, col, r)
    ensures Where(rows, mask) == Where(rows, Stage(k, s, q, col))
  {
    WhereSame(rows, mask, Stage(k, s, q, col));
  }

  /* The stages of `filter_by_price_range`, each as the source writes its mask: given
     the rows that survived the stages before k, each returns the rows that survive
     stage k as well. */

  method MinPriceStage(df: seq<TradingRow>, s: Schema, q: Query, col: NumCol, rows: seq<TradingRow>)
    returns (filtered: seq<TradingRow>)
    requires rows == Where(df, UpTo(0, s, q, col))
    ensures filtered == Where(df, UpTo(1, s, q, col))
  {
    filtered := rows;
    if q.minPrice.Some? {
      var m := q.minPrice.value;
      var mask: TradingRow -> bool;
      if q.includeMin {
        mask := (r: TradingRow) => Cell(r, col).Some? && Cell(r, col).value >= m;
      } else {
        mask := (r: TradingRow) => Cell(r, col).Some? && Cell(r, col).value > m;
      }
      StageStep(df, 0, s, q, col, filtered, mask);
      filtered := Where(filtered, mask);
    } else {
      SkipStage(df, 0, s, q, col);
    }
  }

  method MaxPriceStage(df: seq<TradingRow>, s: Schema, q: Query, col: NumCol, rows: seq<TradingRow>)
    returns (filtered: seq<TradingRow>)
    requires rows == Where(df, UpTo(1, s, q, col))
    ensures filtered == Where(df, UpTo(2, s, q, col))
  {
    filtered := rows;
    if q.maxPrice.Some? {
      var m := q.maxPrice.value;
      var mask: TradingRow -> bool;
      if q.includeMax {
        mask := (r: TradingRow) => Cell(r, col).Some? && Cell(r, col).value <= m;
      } else {
        mask := (r: TradingRow) => Cell(r, col).Some? && Cell(r, col).value < m;
      }
      StageStep(df, 1, s, q, col, filtered, mask);
      filtered := Where(filtered, mask);
    } else {
      SkipStage(df, 1, s, q, col);
    }
  }

  /** Inclusive start date; a cell that is not a date fails the bound. */
  method StartDateStage(df: seq<TradingRow>, s: Schema, q: Query, col: NumCol, rows: seq<TradingRow>)
    returns (filtered: seq<TradingRow>)
    requires rows == Where(df, UpTo(2, s, q, col))
    ensures filtered == Where(df, UpTo(3, s, q, col))
  {
    filtered := rows;
    if s.hasDate && q.startDate.Some? {
      var start := q.startDate.value;
      var mask: TradingRow -> bool := (r: TradingRow) => r.date.Some? && r.date.value >= start;
      StageStep(df, 2, s, q, col, filtered, mask);
      filtered := Where(filtered, mask);
    } else {
      SkipStage(df, 2, s, q, col);
    }
  }

  /** Inclusive end date; a cell that is not a date fails the bound. */
  method EndDateStage(df: seq<TradingRow>, s: Schema, q: Query, col: NumCol, rows: seq<TradingRow>)
    returns (filtered: seq<TradingRow>)
    requires rows == Where(df, UpTo(3, s, q, col))
    ensures filtered == Where(df, UpTo(4, s, q, col))
  {
    filtered := rows;
    if s.hasDate && q.endDate.Some? {
      var end := q.endDate.value;
      var mask: TradingRow -> bool := (r: TradingRow) => r.date.Some? && r.date.value <= end;
      StageStep(df, 3, s, q, col, filtered, mask);
      filtered := Where(filtered, mask);
    } else {
      SkipStage(df, 3, s, q, col);
    }
  }

  method CompanyStage(df: seq<TradingRow>, s: Schema, q: Query, col: NumCol, rows: seq<TradingRow>)
    returns (filtered: seq<TradingRow>)
    requires rows == Where(df, UpTo(4, s, q, col))
    ensures filtered == Where(df, UpTo(5, s, q, col))
  {
    filtered := rows;
    if q.company.Some? && s.hasCompany {
      var c := q.company.value;
      var mask: TradingRow -> bool := (r: TradingRow) => TextMatches(r.company, c);
      StageStep(df, 4, s, q, col, filtered, mask);
      filtered := Where(filtered, mask);
    } else {
      SkipStage(df, 4, s, q, col);
    }
  }

  method UnitStage(df: seq<TradingRow>, s: Schema, q: Query, col: NumCol, rows: seq<TradingRow>)
    returns (filtered: seq<TradingRow>)
    requires rows == Where(df, UpTo(5, s, q, col))
    ensures filtered == Where(df, UpTo(6, s, q, col))
  {
    filtered := rows;
    if q.unit.Some? && s.hasUnitName {
      var u := q.unit.value;
      var mask: TradingRow -> bool := (r: TradingRow) => TextMatches(r.unitName, u);
      StageStep(df, 5, s, q, col, filtered, mask);
      filtered := Where(filtered, mask);
    } else {
      SkipStage(df, 5, s, q, col);
    }
  }

  method DimensionStage(df: seq<TradingRow>, s: Schema, q: Query, col: NumCol, rows: seq<TradingRow>)
    returns (filtered: seq<TradingRow>)
    requires rows == Where(df, UpTo(6, s, q, col))
    ensures filtered == Where(df, UpTo(7, s, q, col))
  {
    filtered := rows;
    if q.dimension.Some? && s.hasDimension {
      var d := q.dimension;
      var mask: TradingRow -> bool := (r: TradingRow) => TextMatches(r.dimension, d);
      StageStep(df, 6, s, q, col, filtered, mask);
      filtered := Where(filtered, mask);
    } else {
      SkipStage(df, 6, s, q, col);
    }
  }

  /** The price and date stages, applied in turn to a copy of the table. */
  method BoundStages(df: seq<TradingRow>, s: Schema, q: Query, col: NumCol) returns (filtered: seq<TradingRow>)
    ensures filtered == Where(df, UpTo(4, s, q, col))
  {
    WhereAll(df, UpTo(0, s, q, col));
    filtered := df;
    filtered := MinPriceStage(df, s, q, col, filtered);
    filtered := MaxPriceStage(df, s, q, col, filtered);
    filtered := StartDateStage(df, s, q, col, filtered);
    filtered := EndDateStage(df, s, q, col, filtered);
  }

  /** One row of `analyze_all_metrics_by_company`. */
  datatype CompanyReport = CompanyReport(company: Option<string>, metrics: Report)

  /** What a row of `analyze_all_metrics_by_unit` reports on: a unit group with the
      comma-joined names of its units, or a single unit name. */
  datatype UnitTarget =
    | Group(dimension: Option<string>, unitList: string)
    | Unit(name: Option<string>)

  datatype UnitReport = UnitReport(company: Option<string>, target: UnitTarget, metrics: Report)

  function CompanyColumn(rows: seq<TradingRow>): (r: seq<Option<string>>)
    ensures |r| == |rows| && forall i :: 0 <= i < |rows| ==> r[i] == rows[i].company
  {
    if rows == [] then [] else [rows[0].company] + CompanyColumn(rows[1..])
  }

  function UnitNameColumn(rows: seq<TradingRow>): (r: seq<Option<string>>)
    ensures |r| == |rows| && forall i :: 0 <= i < |rows| ==> r[i] == rows[i].unitName
  {
    if rows == [] then [] else [rows[0].unitName] + UnitNameColumn(rows[1..])
  }

  /** The non-null unit groups of the rows, in row order (`.dropna()`). */
  function DimensionValues(rows: seq<TradingRow>): (r: seq<Option<string>>)
    ensures forall x :: x in r <==> x.Some? && exists i :: 0 <= i < |rows| && rows[i].dimension == x
  {
    if rows == [] then []
    else
      var rest := DimensionValues(rows[1..]);
      assert forall i :: 1 <= i < |rows| ==> rows[i] == rows[1..][i - 1];
      (if rows[0].dimension.Some? then [rows[0].dimension] else []) + rest
  }

  function CompanyIs(c: Option<string>): TradingRow -> bool
  {
    (r: TradingRow) => TextMatches(r.company, c)
  }

  function DimensionIs(t: Option<string>): TradingRow -> bool
  {
    (r: TradingRow) => TextMatches(r.dimension, t)
  }

  /** `str()` of a unit name cell: a null prints as `nan`. */
  function UnitLabel(u: Option<string>): string
  {
    match u
    case Some(name) => name
    case None => "nan"
  }

  /** `','.join(map(str, names))`. */
  function JoinNames(names: seq<Option<string>>): string
  {
    if names == [] then ""
    else if |names| == 1 then UnitLabel(names[0])
    else JoinNames(names[..|names| - 1]) + "," + UnitLabel(names[|names| - 1])
  }

  /** The query `analyze_all_metrics_by_company` passes for company c: the caller's
      bounds and unit group, the company, and no unit name. */
  function CompanyQuery(q: Query, c: Option<string>): Query
  {
    q.(company := Some(c), unit := None)
  }

  /** The report row of company c. */
  function CompanyReportFor(df: seq<TradingRow>, s: Schema, q: Query, c: Option<string>): CompanyReport
    requires CanReport(s)
  {
    CompanyReport(c, AllMetrics(df, s, CompanyQuery(q, c)))
  }

  function CompanyReportsOf(df: seq<TradingRow>, s: Schema, q: Query, cs: seq<Option<string>>): (r: seq<CompanyReport>)
    requires CanReport(s)
    ensures |r| == |cs|
  {
    if cs == [] then []
    else CompanyReportsOf(df, s, q, cs[..|cs| - 1]) + [CompanyReportFor(df, s, q, cs[|cs| - 1])]
  }

  lemma CompanyReportsOfStep(df: seq<TradingRow>, s: Schema, q: Query, cs: seq<Option<string>>, j: nat)
    requires CanReport(s) && j < |cs|
    ensures CompanyReportsOf(df, s, q, cs[..j + 1]) == CompanyReportsOf(df, s, q, cs[..j]) + [CompanyReportFor(df, s, q, cs[j])]
  {
    assert cs[..j + 1][..j] == cs[..j];
  }

  /** The i-th report lists the i-th company with the metrics of its query. */
  lemma {:induction false} CompanyReportsOfAt(df: seq<TradingRow>, s: Schema, q: Query, cs: seq<Option<string>>, i: nat)
    requires CanReport(s) && i < |cs|
    ensures CompanyReportsOf(df, s, q, cs)[i] == CompanyReportFor(df, s, q, cs[i])
  {
    if i < |cs| - 1 {
      CompanyReportsOfAt(df, s, q, cs[..|cs| - 1], i);
    }
  }

  /** The targets of one company in `analyze_all_metrics_by_unit`: its distinct non-null
      unit groups, or its distinct unit names (null included). */
  function Targets(companyRows: seq<TradingRow>, byGroup: bool): seq<Option<string>>
  {
    if byGroup then Distinct(DimensionValues(companyRows)) else Distinct(UnitNameColumn(companyRows))
  }

  /** The report row of one target of company c. */
  function TargetReport(df: seq<TradingRow>, s: Schema, q: Query, c: Option<string>, byGroup: bool, t: Option<string>): UnitReport
    requires CanReport(s)
  {
    if byGroup then
      UnitReport(c, Group(t, JoinNames(Distinct(UnitNameColumn(GroupMembers(df, c, t))))),
                 AllMetrics(df, s, q.(company := Some(c), dimension := t)))
    else
      UnitReport(c, Unit(t), AllMetrics(df, s, q.(company := Some(c), unit := Some(t))))
  }

  function TargetReportsOf(df: seq<TradingRow>, s: Schema, q: Query, c: Option<string>, byGroup: bool,
                           ts: seq<Option<string>>): (r: seq<UnitReport>)
    requires CanReport(s)
    ensures |r| == |ts|
  {
    if ts == [] then []
    else TargetReportsOf(df, s, q, c, byGroup, ts[..|ts| - 1]) + [TargetReport(df, s, q, c, byGroup, ts[|ts| - 1])]
  }

  lemma TargetReportsOfStep(df: seq<TradingRow>, s: Schema, q: Query, c: Option<string>, byGroup: bool,
                            ts: seq<Option<string>>, j: nat)
    requires CanReport(s) && j < |ts|
    ensures TargetReportsOf(df, s, q, c, byGroup, ts[..j + 1])
         == TargetReportsOf(df, s, q, c, byGroup, ts[..j]) + [TargetReport(df, s, q, c, byGroup, ts[j])]
  {
    assert ts[..j + 1][..j] == ts[..j];
  }

  function CompanyUnitReports(df: seq<TradingRow>, s: Schema, q: Query, c: Option<string>, byGroup: bool): seq<UnitReport>
    requires CanReport(s)
  {
    TargetReportsOf(df, s, q, c, byGroup, Targets(Where(df, CompanyIs(c)), byGroup))
  }

  function UnitReportsOf(df: seq<TradingRow>, s: Schema, q: Query, byGroup: bool, cs: seq<Option<string>>): seq<UnitReport>
    requires CanReport(s)
  {
    if cs == [] then []
    else UnitReportsOf(df, s, q, byGroup, cs[..|cs| - 1]) + CompanyUnitReports(df, s, q, cs[|cs| - 1], byGroup)
  }

  lemma UnitReportsOfStep(df: seq<TradingRow>, s: Schema, q: Query, byGroup: bool, cs: seq<Option<string>>, i: nat)
    requires CanReport(s) && i < |cs|
    ensures UnitReportsOf(df, s, q, byGroup, cs[..i + 1])
         == UnitReportsOf(df, s, q, byGroup, cs[..i]) + CompanyUnitReports(df, s, q, cs[i], byGroup)
  {
    assert cs[..i + 1][..i] == cs[..i];
  }

  /** The companies of the table once each, in order of first appearance. */
  lemma CompaniesOnce(df: seq<TradingRow>)
    ensures var cs := CompanyColumn(df);
      var u := Distinct(cs);
      && (forall k :: 0 <= k < |df| ==> df[k].company in u)
      && (forall i :: 0 <= i < |u| ==> u[i] in cs)
      && (forall i, j :: 0 <= i < j < |u| ==> u[i] != u[j])
      && (forall i, j :: 0 <= i < j < |u| ==> IndexOf(cs, u[i]) < IndexOf(cs, u[j]))
  {
    var cs := CompanyColumn(df);
    DistinctFirstAppearance(cs);
    forall k | 0 <= k < |df| ensures df[k].company in Distinct(cs) {
      assert cs[k] == df[k].company;
    }
  }

  /** By company: the i-th row reports the i-th company of the table (in order of first
      appearance, each once) with the metrics of that company's query. */
  lemma ByCompanyRows(df: seq<TradingRow>, s: Schema, q: Query, i: nat)
    requires CanReport(s)
    requires i < |Distinct(CompanyColumn(df))|
    ensures var u := Distinct(CompanyColumn(df));
      var r := CompanyReportsOf(df, s, q, u);
      |r| == |u| && r[i].company == u[i] && r[i].metrics == AllMetrics(df, s, CompanyQuery(q, u[i]))
  {
    CompanyReportsOfAt(df, s, q, Distinct(CompanyColumn(df)), i);
  }

  /** The i-th report of a company lists the i-th target. */
  lemma {:induction false} TargetReportsOfAt(df: seq<TradingRow>, s: Schema, q: Query, c: Option<string>, byGroup: bool,
                                             ts: seq<Option<string>>, i: nat)
    requires CanReport(s) && i < |ts|
    ensures TargetReportsOf(df, s, q, c, byGroup, ts)[i] == TargetReport(df, s, q, c, byGroup, ts[i])
  {
    if i < |ts| - 1 {
      TargetReportsOfAt(df, s, q, c, byGroup, ts[..|ts| - 1], i);
    }
  }

  /** In group mode the targets of a company are its distinct unit groups; with the
      groups derived from unit names, each is one of the four labels. */
  lemma GroupTargets(df: seq<TradingRow>, c: Option<string>, t: Option<string>)
    requires DimensionsDerived(df)
    ensures t in Targets(Where(df, CompanyIs(c)), true) <==>
      exists k :: 0 <= k < |df| && TextMatches(df[k].company, c) && df[k].dimension == t
    ensures t in Targets(Where(df, CompanyIs(c)), true) ==>
      t == Some(Group13) || t == Some(Group24) || t == Some(OtherUnits) || t == Some(Unknown)
  {
    if t in Targets(Where(df, CompanyIs(c)), true) {
      var k := GroupTargetFound(df, c, t);
    }
    if k :| 0 <= k < |df| && TextMatches(df[k].company, c) && df[k].dimension == t {
      GroupTargetPresent(df, c, t, k);
    }
  }

  /** A group target of company c is the unit group of one of c's rows. */
  lemma GroupTargetFound(df: seq<TradingRow>, c: Option<string>, t: Option<string>) returns (k: nat)
    requires t in Targets(Where(df, CompanyIs(c)), true)
    ensures k < |df| && TextMatches(df[k].company, c) && df[k].dimension == t
  {
    var w := Where(df, CompanyIs(c));
    var u := DimensionValues(w);
    var m :| 0 <= m < |Distinct(u)| && Distinct(u)[m] == t;
    assert t in u;
    var i :| 0 <= i < |w| && w[i].dimension == t;
    assert w[i] in df && CompanyIs(c)(w[i]);
    k :| 0 <= k < |df| && df[k] == w[i];
  }

  /** The unit group of each of company c's rows is one of its group targets. */
  lemma GroupTargetPresent(df: seq<TradingRow>, c: Option<string>, t: Option<string>, k: nat)
    requires DimensionsDerived(df)
    requires k < |df| && TextMatches(df[k].company, c) && df[k].dimension == t
    ensures t in Targets(Where(df, CompanyIs(c)), true)
  {
    var w := Where(df, CompanyIs(c));
    assert CompanyIs(c)(df[k]);
    var i :| 0 <= i < |w| && w[i] == df[k];
    assert t.Some? && w[i].dimension == t;
    var u := DimensionValues(w);
    assert t in u;
    var m :| 0 <= m < |u| && u[m] == t;
    assert u[m] in Distinct(u);
  }

  /** The members of group t among company c's rows. */
  function GroupMembers(df: seq<TradingRow>, c: Option<string>, t: Option<string>): seq<TradingRow>
  {
    Where(Where(df, CompanyIs(c)), DimensionIs(t))
  }

  /** The unit list of a group's row names exactly the company's units classified into
      that group. */
  lemma GroupUnitList(df: seq<TradingRow>, c: Option<string>, t: Option<string>, u: Option<string>)
    requires DimensionsDerived(df) && t.Some?
    ensures u in Distinct(UnitNameColumn(GroupMembers(df, c, t))) <==>
      exists k :: 0 <= k < |df| && TextMatches(df[k].company, c) && df[k].unitName == u
                  && DetermineDimension(u) == t.value
  {
    if u in Distinct(UnitNameColumn(GroupMembers(df, c, t))) {
      GroupUnitListSound(df, c, t, u);
    }
    if k :| 0 <= k < |df| && TextMatches(df[k].company, c) && df[k].unitName == u
            && DetermineDimension(u) == t.value {
      GroupUnitListComplete(df, c, t, k);
    }
  }

  lemma GroupUnitListSound(df: seq<TradingRow>, c: Option<string>, t: Option<string>, u: Option<string>)
    requires DimensionsDerived(df) && t.Some?
    requires u in Distinct(UnitNameColumn(GroupMembers(df, c, t)))
    ensures exists k :: 0 <= k < |df| && TextMatches(df[k].company, c) && df[k].unitName == u
                        && DetermineDimension(u) == t.value
  {
    var m := GroupMembers(df, c, t);
    var w := Where(df, CompanyIs(c));
    assert u in UnitNameColumn(m);
    var i :| 0 <= i < |m| && UnitNameColumn(m)[i] == u;
    assert m[i] in w && DimensionIs(t)(m[i]);
    var j :| 0 <= j < |w| && w[j] == m[i];
    assert CompanyIs(c)(w[j]);
    var k :| 0 <= k < |df| && df[k] == w[j];
    assert df[k].dimension == Some(DetermineDimension(df[k].unitName));
  }

  lemma GroupUnitListComplete(df: seq<TradingRow>, c: Option<string>, t: Option<string>, k: nat)
    requires DimensionsDerived(df) && t.Some? && k < |df|
    requires TextMatches(df[k].company, c) && DetermineDimension(df[k].unitName) == t.value
    ensures df[k].unitName in Distinct(UnitNameColumn(GroupMembers(df, c, t)))
  {
    var m := GroupMembers(df, c, t);
    var w := Where(df, CompanyIs(c));
    assert CompanyIs(c)(df[k]);
    var j :| 0 <= j < |w| && w[j] == df[k];
    assert DimensionIs(t)(w[j]);
    var i :| 0 <= i < |m| && m[i] == w[j];
    assert UnitNameColumn(m)[i] == df[k].unitName;
  }

  /** In unit mode the targets of a company are its distinct unit names, the null one
      included. */
  lemma UnitTargets(df: seq<TradingRow>, c: Option<string>, t: Option<string>)
    ensures t in Targets(Where(df, CompanyIs(c)), false) <==>
      exists k :: 0 <= k < |df| && TextMatches(df[k].company, c) && df[k].unitName == t
  {
    var w := Where(df, CompanyIs(c));
    if t in Targets(w, false) {
      assert t in UnitNameColumn(w);
      var i :| 0 <= i < |w| && UnitNameColumn(w)[i] == t;
      var k :| 0 <= k < |df| && df[k] == w[i];
      assert CompanyIs(c)(w[i]);
    }
    if k :| 0 <= k < |df| && TextMatches(df[k].company, c) && df[k].unitName == t {
      assert CompanyIs(c)(df[k]);
      assert df[k] in w;
      var i :| 0 <= i < |w| && w[i] == df[k];
      assert UnitNameColumn(w)[i] == t;
    }
  }

  class PowerDataAnalyzer {
    var df: seq<TradingRow>
    var schema: Schema

    /** The 机组维度 column exists and is derived from 机组名称 whenever the table has
        unit names. */
    predicate Valid()
      reads this
    {
      schema.hasUnitName ==> schema.hasDimension && DimensionsDerived(df)
    }

    /** Loading: the sheet is taken as given (reading the workbook is not part of this
        model) and the unit-group column is added. */
    constructor (sheet: seq<TradingRow>, s: Schema)
      ensures schema == (if s.hasUnitName then s.(hasDimension := true) else s)
      ensures df == (if s.hasUnitName then WithDimensions(sheet) else sheet)
      ensures Valid()
    {
      df := sheet;
      schema := s;
      new;
      AddUnitDimensionColumn();
    }

    /** `_add_unit_dimension_column`: without a unit-name column the table is left as it
        is (the source prints a warning); otherwise every row gets its unit group. */
    method AddUnitDimensionColumn()
      modifies this
      ensures old(schema).hasUnitName ==>
        df == WithDimensions(old(df)) && schema == old(schema).(hasDimension := true)
      ensures !old(schema).hasUnitName ==> df == old(df) && schema == old(schema)
      ensures old(schema).hasUnitName ==> Valid()
    {
      if schema.hasUnitName {
        df := WithDimensions(df);
        schema := schema.(hasDimension := true);
        WithDimensionsDerives(old(df));
      }
    }

    /** `filter_by_price_range`: narrows a copy of the table stage by stage; the table
        itself is not modified. */
    method FilterByPriceRange(q: Query, col: NumCol) returns (filtered: seq<TradingRow>, warnings: seq<Warning>)
      requires CanFilter(schema, q, col)
      ensures filtered == Selected(df, schema, q, col)
      ensures warnings == FilterWarnings(schema, q)
    {
      var s := schema;
      var dateWarning: seq<Warning> := [];
      var dimensionWarning: seq<Warning> := [];
      filtered := BoundStages(df, s, q, col);
      if !s.hasDate && (q.startDate.Some? || q.endDate.Some?) {
        dateWarning := [DateColumnMissing];
      }
      filtered := CompanyStage(df, s, q, col, filtered);
      filtered := UnitStage(df, s, q, col, filtered);
      filtered := DimensionStage(df, s, q, col, filtered);
      assert filtered == Selected(df, s, q, col);
      if q.dimension.Some? && !s.hasDimension {
        dimensionWarning := [DimensionColumnMissing];
      }
      warnings := dateWarning + dimensionWarning;
    }

    /** Metric 1, 日前小时数. */
    method CalculateDailyForwardHours(q: Query) returns (hours: real)
      ensures hours == Hours(ForwardRows(df, schema, q))
    {
      var filtered, _ := FilterByPriceRange(q, ForwardNodePrice);
      hours := |filtered| as real / 4.0;
    }

    /** Metric 2, 实时小时数: the forward rows filtered again on 日内出清节点价格. */
    method CalculateRealtimeHours(q: Query) returns (hours: real)
      ensures hours == Hours(RealtimeRows(df, schema, q))
    {
      var filtered, _ := FilterByPriceRange(q, ForwardNodePrice);
      ghost var forward := filtered;
      if schema.hasIntradayPrice {
        var rows0 := filtered;
        if q.minPrice.Some? {
          var m := q.minPrice.value;
          var mask: TradingRow -> bool;
          if q.includeMin {
            mask := (r: TradingRow) => Cell(r, IntradayNodePrice).Some? && Cell(r, IntradayNodePrice).value >= m;
          } else {
            mask := (r: TradingRow) => Cell(r, IntradayNodePrice).Some? && Cell(r, IntradayNodePrice).value > m;
          }
          MaskIsStage(filtered, mask, 0, schema, q, IntradayNodePrice);
          filtered := Where(filtered, mask);
        } else {
          WhereAll(filtered, Stage(0, schema, q, IntradayNodePrice));
        }
        assert filtered == Where(forward, Stage(0, schema, q, IntradayNodePrice));
        if q.maxPrice.Some? {
          var m := q.maxPrice.value;
          var mask: TradingRow -> bool;
          if q.includeMax {
            mask := (r: TradingRow) => Cell(r, IntradayNodePrice).Some? && Cell(r, IntradayNodePrice).value <= m;
          } else {
            mask := (r: TradingRow) => Cell(r, IntradayNodePrice).Some? && Cell(r, IntradayNodePrice).value < m;
          }
          MaskIsStage(filtered, mask, 1, schema, q, IntradayNodePrice);
          filtered := Where(filtered, mask);
        } else {
          WhereAll(filtered, Stage(1, schema, q, IntradayNodePrice));
        }
      }
      hours := |filtered| as real / 4.0;
    }

    /** Metric 3, 日前价格均价 (None for the NaN of an empty selection). */
    method CalculateDailyForwardAvgPrice(q: Query) returns (avg: Option<real>)
      ensures avg == Mean(ForwardRows(df, schema, q), ForwardNodePrice)
    {
      var filtered, _ := FilterByPriceRange(q, ForwardNodePrice);
      avg := Mean(filtered, ForwardNodePrice);
    }

    /** Metric 4, 实时价格均价: the intraday price averaged over the forward rows. */
    method CalculateRealtimeAvgPrice(q: Query) returns (avg: Option<real>)
      requires schema.hasIntradayPrice
      ensures avg == Mean(ForwardRows(df, schema, q), IntradayNodePrice)
    {
      var filtered, _ := FilterByPriceRange(q, ForwardNodePrice);
      avg := Mean(filtered, IntradayNodePrice);
    }

    /** Metric 5, 省间价格均价, filtering on the price column col. */
    method CalculateInterProvincialAvgPrice(q: Query, col: NumCol) returns (avg: real)
      requires schema.hasInterPowerPair && schema.hasInterPrices && CanFilter(schema, q, col)
      ensures avg == TwoLegAverage(Selected(df, schema, q, col),
                                   InterDayAheadPower, InterDayAheadPrice, InterRealtimePower, InterRealtimePrice)
    {
      var filtered, _ := FilterByPriceRange(q, col);
      avg := TwoLegAverage(filtered, InterDayAheadPower, InterDayAheadPrice, InterRealtimePower, InterRealtimePrice);
    }

    /** Metric 6, 省间中标电量, filtering on the price column col. */
    method CalculateInterProvincialPower(q: Query, col: NumCol) returns (power: real)
      requires CanFilter(schema, q, col)
      ensures power == InterPower(schema, Selected(df, schema, q, col), FactorFor(q))
    {
      var filtered, _ := FilterByPriceRange(q, col);
      power := InterPower(schema, filtered, FactorFor(q));
    }

    /** Metric 7, 日前中标电量. */
    method CalculateDailyForwardPower(q: Query) returns (power: real)
      ensures power == AveragePower(ForwardRows(df, schema, q), ForwardOutput, FactorFor(q))
    {
      var filtered, _ := FilterByPriceRange(q, ForwardNodePrice);
      power := AveragePower(filtered, ForwardOutput, FactorFor(q));
    }

    /** Metric 8, 实际出力电量. */
    method CalculateActualOutputPower(q: Query) returns (power: real)
      ensures power == AveragePower(ForwardRows(df, schema, q), ActualOutput, FactorFor(q))
    {
      var filtered, _ := FilterByPriceRange(q, ForwardNodePrice);
      power := AveragePower(filtered, ActualOutput, FactorFor(q));
    }

    /** Metric 9, 中长期持仓电量均值, filtering on the price column col. */
    method CalculateMediumLongAvgPower(q: Query, col: NumCol) returns (power: real)
      requires CanFilter(schema, q, col)
      ensures power == MltAveragePower(Selected(df, schema, q, col), FactorFor(q))
    {
      var filtered, _ := FilterByPriceRange(q, col);
      power := MltAveragePower(filtered, FactorFor(q));
    }

    /** Metric 10, 中长期持仓加权均价, filtering on the price column col. */
    method CalculateMediumLongWeightedAvgPrice(q: Query, col: NumCol) returns (avg: real)
      requires CanFilter(schema, q, col)
      ensures avg == TwoLegAverage(Selected(df, schema, q, col),
                                   IntraMltVolume, IntraMltPrice, InterMltVolume, InterMltPrice)
    {
      var filtered, _ := FilterByPriceRange(q, col);
      avg := TwoLegAverage(filtered, IntraMltVolume, IntraMltPrice, InterMltVolume, InterMltPrice);
    }

    /** `analyze_all_metrics`, every metric on the default price column. */
    method AnalyzeAllMetrics(q: Query) returns (rep: Report)
      requires CanReport(schema)
      ensures rep == AllMetrics(df, schema, q)
    {
      var m1 := CalculateDailyForwardHours(q);
      var m2 := CalculateRealtimeHours(q);
      var m3 := CalculateDailyForwardAvgPrice(q);
      var m4 := CalculateRealtimeAvgPrice(q);
      var m5 := CalculateInterProvincialAvgPrice(q, ForwardNodePrice);
      var m6 := CalculateInterProvincialPower(q, ForwardNodePrice);
      var m7 := CalculateDailyForwardPower(q);
      var m8 := CalculateActualOutputPower(q);
      var m9 := CalculateMediumLongAvgPower(q, ForwardNodePrice);
      var m10 := CalculateMediumLongWeightedAvgPrice(q, ForwardNodePrice);
      rep := Report(m1, m2, m3, m4, m5, m6, m7, m8, m9, m10);
    }

    /** `analyze_all_metrics_by_company`: one report per distinct company, in order of
        first appearance; no rows without a company column. */
    method AnalyzeAllMetricsByCompany(q: Query) returns (results: seq<CompanyReport>)
      requires q.company.None? && q.unit.None?
      requires schema.hasCompany ==> CanReport(schema)
      ensures !schema.hasCompany ==> results == []
      ensures schema.hasCompany ==> results == CompanyReportsOf(df, schema, q, Distinct(CompanyColumn(df)))
    {
      results := [];
      if !schema.hasCompany {
        return;
      }
      var companies := Distinct(CompanyColumn(df));
      var i := 0;
      while i < |companies|
        invariant 0 <= i <= |companies|
        invariant results == CompanyReportsOf(df, schema, q, companies[..i])
      {
        var company := companies[i];
        var rep := AnalyzeAllMetrics(CompanyQuery(q, company));
        results := results + [CompanyReport(company, rep)];
        CompanyReportsOfStep(df, schema, q, companies, i);
        i := i + 1;
      }
      assert companies[..i] == companies;
    }

    /** `analyze_all_metrics_by_unit`: for each distinct company, one report per target
        (unit group when enabled and present, else unit name); no rows without company
        and unit-name columns. Since loading adds 机组维度 whenever 机组名称 exists, the
        unit group is used exactly when it is asked for. */
    method AnalyzeAllMetricsByUnit(q: Query, useUnitDimension: bool) returns (results: seq<UnitReport>)
      requires Valid() && q.company.None? && q.unit.None? && q.dimension.None?
      requires schema.hasCompany && schema.hasUnitName ==> CanReport(schema)
      ensures !(schema.hasCompany && schema.hasUnitName) ==> results == []
      ensures schema.hasCompany && schema.hasUnitName ==>
        results == UnitReportsOf(df, schema, q, useUnitDimension, Distinct(CompanyColumn(df)))
    {
      results := [];
      if !schema.hasCompany || !schema.hasUnitName {
        return;
      }
      var byGroup := useUnitDimension && schema.hasDimension;
      var companies := Distinct(CompanyColumn(df));
      var i := 0;
      while i < |companies|
        invariant 0 <= i <= |companies|
        invariant results == UnitReportsOf(df, schema, q, byGroup, companies[..i])
      {
        var reports := CompanyUnitReportsLoop(q, companies[i], byGroup);
        results := results + reports;
        UnitReportsOfStep(df, schema, q, byGroup, companies, i);
        i := i + 1;
      }
      assert companies[..i] == companies;
    }

    /** The inner loop of `analyze_all_metrics_by_unit`: the reports of one company,
        one per target. */
    method CompanyUnitReportsLoop(q: Query, company: Option<string>, byGroup: bool) returns (results: seq<UnitReport>)
      requires CanReport(schema)
      ensures results == CompanyUnitReports(df, schema, q, company, byGroup)
    {
      var companyRows := Where(df, CompanyIs(company));
      var targets := Targets(companyRows, byGroup);
      results := TargetReportsLoop(q, company, byGroup, companyRows, targets);
    }

    /** The loop over the targets of one company. */
    method TargetReportsLoop(q: Query, company: Option<string>, byGroup: bool, companyRows: seq<TradingRow>,
                             targets: seq<Option<string>>) returns (results: seq<UnitReport>)
      requires CanReport(schema)
      requires companyRows == Where(df, CompanyIs(company))
      ensures results == TargetReportsOf(df, schema, q, company, byGroup, targets)
    {
      results := [];
      var j := 0;
      while j < |targets|
        invariant 0 <= j <= |targets|
        invariant results == TargetReportsOf(df, schema, q, company, byGroup, targets[..j])
      {
        TargetReportsOfStep(df, schema, q, company, byGroup, targets, j);
        var report := TargetReportOf(q, company, byGroup, companyRows, targets[j]);
        results := results + [report];
        j := j + 1;
      }
      assert targets[..j] == targets;
    }

    /** The body of the inner loop: the report row of one target. */
    method TargetReportOf(q: Query, company: Option<string>, byGroup: bool, companyRows: seq<TradingRow>,
                          target: Option<string>) returns (report: UnitReport)
      requires CanReport(schema)
      requires companyRows == Where(df, CompanyIs(company))
      ensures report == TargetReport(df, schema, q, company, byGroup, target)
    {
      var info: UnitTarget;
      var rep: Report;
      if byGroup {
        var unitNames := Distinct(UnitNameColumn(Where(companyRows, DimensionIs(target))));
        info := Group(target, JoinNames(unitNames));
        rep := AnalyzeAllMetrics(q.(company := Some(company), dimension := target));
      } else {
        info := Unit(target);
        rep := AnalyzeAllMetrics(q.(company := Some(company), unit := Some(target)));
      }
      report := UnitReport(company, info, rep);
    }
  }
}
