/** The reconciliation of the boundary data: the day-ahead sources joined on
    (日期, 时点) with outer merges, the real-time telemetry extended with left merges,
    both tagged with their epoch, stacked, completed to the fixed output columns and
    sorted by epoch, date and time slot. */
module Reconcile {
  import opened Wrappers
  import opened Seqs
  import opened Sheets
  import opened Frames
  import opened Normalize

  const EpochCol: string := "边界数据类型"
  const BidSpaceCol: string := "竞价空间(MW)"
  const CapacityCol: string := "在线机组容量(MW)"
  const LoadRateCol: string := "负荷率(%)"
  const DayAhead: string := "日前"
  const RealTime: string := "实时"

  /** The output columns, in output order. */
  const OutputColumns: seq<string> :=
    [DateCol, SlotCol, EpochCol, BidSpaceCol, LoadCol, WindCol, SolarCol, RenewableCol, NonMarketCol,
     HydroCol, TieLineCol, CapacityCol, DayAheadPriceCol, RealTimePriceCol, LoadRateCol]

  /** The sources once read: eight frames and the online-capacity scalar. */
  datatype Sources = Sources(load: Frame, renewable: Frame, disclosure: Frame, tieLine: Frame,
                             capacity: Option<real>, hydro: Frame, actual: Frame, tieLineRt: Frame,
                             price: Frame)

  /** The price frame has the columns the two price projections select. */
  predicate HasPrices(src: Sources)
  {
    forall c :: c in [DateCol, SlotCol, RealTimePriceCol, DayAheadPriceCol] ==> c in src.price.columns
  }

  /** `day_ahead_data['在线机组容量(MW)'] = online_capacity`: the scalar, or null. */
  function CapacityValue(c: Option<real>): Value
  {
    if c.Some? then Num(c.value) else Null
  }

  /** `df_price[['日期', '时点', <price column>]]`. */
  function PriceColumn(src: Sources, c: string): (f: Frame)
    requires HasPrices(src) && (c == DayAheadPriceCol || c == RealTimePriceCol)
  {
    Project(src.price, [DateCol, SlotCol, c])
  }

  /** f merged with each of rs in turn: `f = pd.merge(f, r, on=['日期', '时点'], how=how)`
      for each r of rs. */
  function MergeAll(f: Frame, rs: seq<Frame>, how: JoinMode): Frame
    decreases |rs|
  {
    if rs == [] then f else MergeAll(Merge(f, rs[0], how), rs[1..], how)
  }

  /** The chain of reassigned merges, `f = pd.merge(f, r, ...)` for each r in turn. */
  method MergeInTurn(f: Frame, rs: seq<Frame>, how: JoinMode) returns (g: Frame)
    ensures g == MergeAll(f, rs, how)
  {
    g := f;
    for j := 0 to |rs|
      invariant MergeAll(g, rs[j..], how) == MergeAll(f, rs, how)
    {
      assert rs[j..][1..] == rs[j + 1..];
      g := Merge(g, rs[j], how);
    }
    assert rs[|rs|..] == [];
  }

  // ---- the day-ahead epoch ----------------------------------------------------------

  /** The frames merged onto the load forecast, in the code's order. */
  function DayAheadParts(src: Sources): seq<Frame>
    requires HasPrices(src)
  {
    [src.renewable, src.disclosure, src.tieLine, src.hydro, PriceColumn(src, DayAheadPriceCol)]
  }

  /** The five outer merges. */
  function DayAheadMerged(src: Sources): Frame
    requires HasPrices(src)
  {
    MergeAll(src.load, DayAheadParts(src), Outer)
  }

  /** The day-ahead table: the merged sources tagged `日前` and given the capacity. */
  function DayAheadFrame(src: Sources): Frame
    requires HasPrices(src)
  {
    WithColumn(WithColumn(DayAheadMerged(src), EpochCol, Label(DayAhead)), CapacityCol, CapacityValue(src.capacity))
  }

  // ---- the real-time epoch ----------------------------------------------------------

  /** The frames merged onto the real-time telemetry, in the code's order. */
  function RealTimeParts(src: Sources): seq<Frame>
    requires HasPrices(src)
  {
    [src.tieLineRt, PriceColumn(src, RealTimePriceCol)]
  }

  /** The two left merges. */
  function RealTimeMerged(src: Sources): Frame
    requires HasPrices(src)
  {
    MergeAll(src.actual, RealTimeParts(src), Left)
  }

  /** The real-time table, tagged `实时`. */
  function RealTimeFrame(src: Sources): Frame
    requires HasPrices(src)
  {
    WithColumn(RealTimeMerged(src), EpochCol, Label(RealTime))
  }

  // ---- completing and ordering ------------------------------------------------------

  /** The frame with a null column added for each listed column it lacks, in list order. */
  function FillColumns(f: Frame, cols: seq<string>): (g: Frame)
    ensures |g.rows| == |f.rows|
    ensures forall c :: c in g.columns <==> c in f.columns || c in cols
    decreases |cols|
  {
    if cols == [] then f
    else
      var next := if cols[0] in f.columns then f else WithColumn(f, cols[0], Null);
      WithColumnCells(f, cols[0], Null);
      FillColumns(next, cols[1..])
  }

  /** Filling adds only null cells: a frame whose rows hold only its columns keeps every
      cell, and stays well formed when it was. */
  lemma {:induction false} FillColumnsCells(f: Frame, cols: seq<string>)
    requires RowsWithin(f)
    ensures RowsWithin(FillColumns(f, cols))
    ensures WellFormed(f) ==> WellFormed(FillColumns(f, cols))
    ensures forall i, c :: 0 <= i < |f.rows| ==> Get(FillColumns(f, cols).rows[i], c) == Get(f.rows[i], c)
    decreases |cols|
  {
    if cols != [] {
      var next := if cols[0] in f.columns then f else WithColumn(f, cols[0], Null);
      WithColumnCells(f, cols[0], Null);
      if cols[0] !in f.columns {
        forall i | 0 <= i < |f.rows| ensures Get(f.rows[i], cols[0]) == Null {
          RowColumns(f, f.rows[i], cols[0]);
        }
      }
      FillColumnsCells(next, cols[1..]);
    }
  }

  /** `for col in columns: if col not in result_df.columns: result_df[col] = None`. */
  method EnsureColumns(f: Frame, cols: seq<string>) returns (g: Frame)
    ensures g == FillColumns(f, cols)
  {
    g := f;
    for j := 0 to |cols|
      invariant FillColumns(g, cols[j..]) == FillColumns(f, cols)
    {
      assert cols[j..][1..] == cols[j + 1..];
      if cols[j] !in g.columns {
        g := WithColumn(g, cols[j], Null);
      }
    }
    assert cols[|cols|..] == [];
  }

  /** Both epochs stacked with `pd.concat`. */
  function Combined(src: Sources): Frame
    requires HasPrices(src)
  {
    Concat(DayAheadFrame(src), RealTimeFrame(src))
  }

  /** The stacked epochs, completed and projected onto the output columns, before sorting. */
  function Stacked(src: Sources): (f: Frame)
    requires HasPrices(src)
  {
    Project(FillColumns(Combined(src), OutputColumns), OutputColumns)
  }

  /** `map({'日前': 0, '实时': 1})` of the epoch label. */
  function EpochRank(x: Row): Option<int>
  {
    match Get(x, EpochCol)
    case Label(t) => if t == DayAhead then Some(0) else if t == RealTime then Some(1) else None
    case _ => None
  }

  function DateRank(x: Row): Option<int>
  {
    match Get(x, DateCol)
    case Date(d) => Some(d)
    case _ => None
  }

  /** `pd.to_datetime(时点, format='%H:%M', errors='coerce')`, as minutes after midnight. */
  function SlotRank(x: Row): Option<int>
  {
    match Get(x, SlotCol)
    case Label(t) => ParseClock(t)
    case _ => None
  }

  /** a sorts strictly before b, missing values last. */
  predicate OptBefore(a: Option<int>, b: Option<int>)
  {
    a.Some? && (b.None? || a.value < b.value)
  }

  /** a sorts no later than b, missing values last. */
  predicate OptLe(a: Option<int>, b: Option<int>)
  {
    OptBefore(a, b) || a == b
  }

  /** Row x may precede row y in `sort_values(['边界数据类型_排序', '日期', '时点_排序'])`:
      by epoch rank, then date, then parsed slot, each with missing values last. */
  predicate RowLe(x: Row, y: Row)
  {
    || OptBefore(EpochRank(x), EpochRank(y))
    || (EpochRank(x) == EpochRank(y) &&
          (OptBefore(DateRank(x), DateRank(y)) || (DateRank(x) == DateRank(y) && OptLe(SlotRank(x), SlotRank(y)))))
  }

  predicate Sorted(rows: seq<Row>)
  {
    forall i, j :: 0 <= i < j < |rows| ==> RowLe(rows[i], rows[j])
  }

  /** x placed after the last row it may follow. */
  function Insert(sorted: seq<Row>, x: Row): seq<Row>
  {
    if sorted == [] || RowLe(sorted[|sorted| - 1], x) then sorted + [x]
    else Insert(sorted[..|sorted| - 1], x) + [sorted[|sorted| - 1]]
  }

  /** The rows ordered by the three sort keys. */
  function SortRows(rows: seq<Row>): seq<Row>
  {
    if rows == [] then [] else Insert(SortRows(rows[..|rows| - 1]), rows[|rows| - 1])
  }

  /** The reconciled table. */
  function Reconciled(src: Sources): Frame
    requires HasPrices(src)
  {
    Frame(OutputColumns, SortRows(Stacked(src).rows))
  }

  /** The reconciliation as the code runs it: outer merges into a reassigned day-ahead
      table, left merges into a reassigned real-time table, epoch and capacity columns
      set in place, the stack completed by a loop, projected and sorted. */
  method Reconcile(src: Sources) returns (result: Frame)
    requires HasPrices(src)
    ensures result == Reconciled(src)
  {
    var dayAhead := MergeInTurn(src.load, DayAheadParts(src), Outer);
    dayAhead := WithColumn(dayAhead, EpochCol, Label(DayAhead));
    dayAhead := WithColumn(dayAhead, CapacityCol, CapacityValue(src.capacity));
    var realTime := MergeInTurn(src.actual, RealTimeParts(src), Left);
    realTime := WithColumn(realTime, EpochCol, Label(RealTime));
    var combined := Concat(dayAhead, realTime);
    combined := EnsureColumns(combined, OutputColumns);
    combined := Project(combined, OutputColumns);
    result := Frame(combined.columns, SortRows(combined.rows));
  }

  // ---- the sort -----------------------------------------------------------------

  lemma RowLeTotal(x: Row, y: Row)
    ensures RowLe(x, y) || RowLe(y, x)
  {
  }

  lemma RowLeTransitive(x: Row, y: Row, z: Row)
    requires RowLe(x, y) && RowLe(y, z)
    ensures RowLe(x, z)
  {
  }

  /** Inserting adds exactly x. */
  lemma {:induction false} InsertPermutation(s: seq<Row>, x: Row)
    ensures multiset(Insert(s, x)) == multiset(s) + multiset{x}
  {
    if s != [] && !RowLe(s[|s| - 1], x) {
      InsertPermutation(s[..|s| - 1], x);
      assert s == s[..|s| - 1] + [s[|s| - 1]];
    }
  }

  /** Inserting into a sorted sequence keeps it sorted. */
  lemma {:induction false} InsertSorted(s: seq<Row>, x: Row)
    requires Sorted(s)
    ensures Sorted(Insert(s, x))
  {
    if s == [] {
    } else if RowLe(s[|s| - 1], x) {
      var r := s + [x];
      forall i, j | 0 <= i < j < |r| ensures RowLe(r[i], r[j]) {
        if j == |s| && i < |s| - 1 {
          RowLeTransitive(s[i], s[|s| - 1], x);
        }
      }
    } else {
      var last := s[|s| - 1];
      var init := s[..|s| - 1];
      InsertSorted(init, x);
      InsertPermutation(init, x);
      RowLeTotal(last, x);
      var t := Insert(init, x);
      forall i | 0 <= i < |t| ensures RowLe(t[i], last) {
        assert t[i] in multiset(t);
        if t[i] != x {
          assert t[i] in multiset(init);
          var k :| 0 <= k < |init| && init[k] == t[i];
        }
      }
    }
  }

  /** Sorting rearranges the rows and orders them. */
  lemma {:induction false} SortRowsCorrect(rows: seq<Row>)
    ensures multiset(SortRows(rows)) == multiset(rows)
    ensures Sorted(SortRows(rows))
  {
    if rows != [] {
      var init := rows[..|rows| - 1];
      SortRowsCorrect(init);
      InsertPermutation(SortRows(init), rows[|rows| - 1]);
      InsertSorted(SortRows(init), rows[|rows| - 1]);
      assert rows == init + [rows[|rows| - 1]];
    }
  }
}
