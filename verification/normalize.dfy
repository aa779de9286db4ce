/** Reading one boundary-data workbook into a frame keyed on (日期, 时点): drop the
    sheet's first data row, keep the rows a source keeps, parse the date column, take
    the time slot as text and coerce each value column to numbers. The clearing summary
    yields the one online-capacity scalar instead. */
module Normalize {
  import opened Wrappers
  import opened Seqs
  import opened Sheets
  import opened Capacity
  import opened Frames

  const LoadCol: string := "省调负荷(MW)"
  const WindCol: string := "风电(MW)"
  const SolarCol: string := "光伏(MW)"
  const RenewableCol: string := "新能源负荷(MW)"
  const NonMarketCol: string := "非市场化出力(MW)"
  const HydroCol: string := "水电出力(MW)"
  const TieLineCol: string := "联络线计划(MW)"
  const RealTimePriceCol: string := "实时出清价格(元/MWh)"
  const DayAheadPriceCol: string := "日前出清价格(元/MWh)"
  const SerialCol: string := "序号"

  /** The label of a tie-line sheet's summed row. */
  const Total: string := "总加"

  /** Which rows a source keeps: all, those whose cell in a column is `总加`, or those
      whose cell in a column is numeric. */
  datatype RowFilter = AllRows | TotalsOnly(col: ColumnRef) | Numbered(col: ColumnRef)

  /** How a source is read: whether its first data row is dropped, its row filter, its
      date and slot columns, and its value columns with their output names. */
  datatype Layout = Layout(dropFirst: bool, filter: RowFilter, date: ColumnRef, slot: ColumnRef,
                           values: seq<(string, ColumnRef)>)

  const LoadLayout: Layout := Layout(true, AllRows, At(1), At(2), [(LoadCol, At(3))])
  const RenewableLayout: Layout :=
    Layout(true, AllRows, At(1), At(2), [(WindCol, At(4)), (SolarCol, At(5)), (RenewableCol, At(3))])
  const DisclosureLayout: Layout := Layout(true, AllRows, At(1), At(2), [(NonMarketCol, At(3))])
  const TieLineLayout: Layout := Layout(true, TotalsOnly(At(1)), At(2), At(3), [(TieLineCol, At(4))])
  const HydroLayout: Layout := Layout(true, AllRows, At(1), At(2), [(HydroCol, At(3))])
  const ActualLayout: Layout :=
    Layout(true, AllRows, At(1), At(2),
           [(LoadCol, At(3)), (WindCol, At(5)), (SolarCol, At(6)), (RenewableCol, At(7)),
            (HydroCol, At(8)), (NonMarketCol, At(11))])
  /** The price sheet is read by header and keeps its first data row. */
  const PriceLayout: Layout :=
    Layout(false, Numbered(Named(SerialCol)), Named(DateCol), Named(SlotCol),
           [(RealTimePriceCol, Named(RealTimePriceCol)), (DayAheadPriceCol, Named(DayAheadPriceCol))])

  function Names(vs: seq<(string, ColumnRef)>): (r: seq<string>)
    ensures |r| == |vs| && forall j :: 0 <= j < |vs| ==> r[j] == vs[j].0
  {
    seq(|vs|, j requires 0 <= j < |vs| => vs[j].0)
  }

  /** The value columns have distinct names, none of them a key column. */
  predicate ValidLayout(layout: Layout)
  {
    NoDuplicates(Names(layout.values)) && forall j :: 0 <= j < |layout.values| ==> !IsKeyColumn(layout.values[j].0)
  }

  function TotalAt(k: nat): seq<Cell> -> bool
  {
    (cells: seq<Cell>) => k < |cells| && cells[k] == Text(Total)
  }

  function NumberedAt(k: nat): seq<Cell> -> bool
  {
    (cells: seq<Cell>) => k < |cells| && CellNumber(cells[k]).Some?
  }

  /** The rows a filter keeps, or the error of its column lookup. */
  function FilterRows(s: Sheet, f: RowFilter): (r: Result<seq<seq<Cell>>>)
    requires Rectangular(s)
    ensures r.Ok? ==> forall i :: 0 <= i < |r.value| ==> |r.value[i]| == |s.header|
  {
    match f
    case AllRows => Ok(s.rows)
    case TotalsOnly(c) =>
      var k :- Resolve(s.header, c);
      RectangularWhere(s, TotalAt(k));
      Ok(Where(s.rows, TotalAt(k)))
    case Numbered(c) =>
      var k :- Resolve(s.header, c);
      RectangularWhere(s, NumberedAt(k));
      Ok(Where(s.rows, NumberedAt(k)))
  }

  lemma RectangularWhere(s: Sheet, p: seq<Cell> -> bool)
    requires Rectangular(s)
    ensures forall i :: 0 <= i < |Where(s.rows, p)| ==> |Where(s.rows, p)[i]| == |s.header|
  {
    var w := Where(s.rows, p);
    forall i | 0 <= i < |w| ensures |w[i]| == |s.header| {
      assert w[i] in s.rows;
      var j :| 0 <= j < |s.rows| && s.rows[j] == w[i];
    }
  }

  /** The sheet the code goes on with: without its first data row when the source drops it. */
  function Trimmed(sheet: Sheet, layout: Layout): (s: Sheet)
    requires Rectangular(sheet)
    ensures Rectangular(s) && s.header == sheet.header
  {
    if layout.dropFirst then DropFirst(sheet) else sheet
  }

  /** The data rows a source keeps, or the error of the filter's column lookup. */
  function Kept(sheet: Sheet, layout: Layout): (r: Result<seq<seq<Cell>>>)
    requires Rectangular(sheet)
    ensures r.Ok? ==> forall i :: 0 <= i < |r.value| ==> |r.value[i]| == |sheet.header|
  {
    FilterRows(Trimmed(sheet, layout), layout.filter)
  }

  // ---- the working sheet as the code grows it ------------------------------------

  /** The cell a parsed date leaves in the frame: the date, or a blank for NaT. */
  function DateCell(d: Option<int>): Cell
  {
    if d.Some? then Day(d.value) else Blank
  }

  /** The cell `pd.to_numeric(..., errors='coerce')` leaves: the number, or a blank for NaN. */
  function NumberCell(x: Option<real>): Cell
  {
    if x.Some? then Number(x.value) else Blank
  }

  /** A working cell as a frame value. */
  function CellValue(c: Cell): Value
  {
    match c
    case Blank => Null
    case Number(x) => Num(x)
    case Day(d) => Date(d)
    case Text(t) => Label(t)
  }

  function DateValue(d: Option<int>): Value
  {
    if d.Some? then Date(d.value) else Null
  }

  function NumValue(x: Option<real>): Value
  {
    if x.Some? then Num(x.value) else Null
  }

  /** The parsed date column, `pd.to_datetime(df.iloc[:, k]).dt.date`. */
  function DateCells(dates: seq<Option<int>>): (r: seq<Cell>)
    ensures |r| == |dates|
  {
    seq(|dates|, i requires 0 <= i < |dates| => DateCell(dates[i]))
  }

  /** The slot column, `df.iloc[:, k].astype(str)`. */
  function SlotCells(rows: seq<seq<Cell>>, k: nat): (r: seq<Cell>)
    requires forall i :: 0 <= i < |rows| ==> k < |rows[i]|
    ensures |r| == |rows|
  {
    seq(|rows|, i requires 0 <= i < |rows| => Text(SlotText(rows[i][k])))
  }

  /** A value column, `pd.to_numeric(df.iloc[:, k], errors='coerce')`. */
  function NumberCells(rows: seq<seq<Cell>>, k: nat): (r: seq<Cell>)
    requires forall i :: 0 <= i < |rows| ==> k < |rows[i]|
    ensures |r| == |rows|
  {
    seq(|rows|, i requires 0 <= i < |rows| => NumberCell(CellNumber(rows[i][k])))
  }

  /** The header after `df[name] = ...`: unchanged when the column exists, else with
      name appended. */
  function PutHeader(h: seq<string>, name: string): (r: seq<string>)
    ensures name in r && |h| <= |r| && r[..|h|] == h
  {
    if name in h then h else h + [name]
  }

  /** `df[name] = col`: a column already in the frame is overwritten where it stands,
      a new one is appended at the end; no other column changes. */
  function Put(w: Sheet, name: string, col: seq<Cell>): (r: Sheet)
    requires Rectangular(w) && |col| == |w.rows|
    ensures Rectangular(r) && |r.rows| == |w.rows| && r.header == PutHeader(w.header, name)
    ensures forall i :: 0 <= i < |w.rows| ==> r.rows[i][IndexOf(r.header, name)] == col[i]
    ensures forall i, k :: 0 <= i < |w.rows| && 0 <= k < |w.header| && w.header[k] != name ==> r.rows[i][k] == w.rows[i][k]
  {
    if name in w.header then
      var p := IndexOf(w.header, name);
      Sheet(w.header, seq(|w.rows|, i requires 0 <= i < |w.rows| => w.rows[i][p := col[i]]))
    else
      var r := Sheet(w.header + [name], seq(|w.rows|, i requires 0 <= i < |w.rows| => w.rows[i] + [col[i]]));
      assert IndexOf(r.header, name) == |w.header|;
      r
  }

  /** Everything in a prefix of b is in b. */
  lemma InPrefix(a: seq<string>, b: seq<string>)
    requires |a| <= |b| && b[..|a|] == a
    ensures forall x :: x in a ==> x in b
  {
    forall x | x in a ensures x in b {
      var k :| 0 <= k < |a| && a[k] == x;
      assert b[k] == x;
    }
  }

  /** The value columns assigned in turn, each read from the position its reference
      has in the frame as it stands by then; or the error of the first lookup that
      fails. */
  function Assign(w: Sheet, vs: seq<(string, ColumnRef)>): (r: Result<Sheet>)
    requires Rectangular(w)
    ensures r.Ok? ==> Rectangular(r.value) && |r.value.rows| == |w.rows|
    ensures r.Ok? ==> |w.header| <= |r.value.header| && r.value.header[..|w.header|] == w.header
    ensures r.Ok? ==> forall j :: 0 <= j < |vs| ==> vs[j].0 in r.value.header
    decreases |vs|
  {
    if vs == [] then Ok(w)
    else
      var k :- Resolve(w.header, vs[0].1);
      var w1 := Put(w, vs[0].0, NumberCells(w.rows, k));
      var r :- Assign(w1, vs[1..]);
      assert forall j :: 1 <= j < |vs| ==> vs[j] == vs[1..][j - 1];
      assert r.header[..|w1.header|] == w1.header && w1.header[..|w.header|] == w.header;
      assert r.header[..|w.header|] == w.header;
      InPrefix(w1.header, r.header);
      Ok(r)
  }

  /** The columns cols of the working sheet, `df[cols]`, as a frame. */
  function Extract(w: Sheet, cols: seq<string>): (f: Frame)
    requires Rectangular(w) && forall c :: c in cols ==> c in w.header
    ensures f.columns == cols && |f.rows| == |w.rows| && RowsWithin(f)
    ensures forall i, c :: 0 <= i < |w.rows| && c in cols ==> Get(f.rows[i], c) == CellValue(w.rows[i][IndexOf(w.header, c)])
  {
    Frame(cols, seq(|w.rows|, i requires 0 <= i < |w.rows| =>
      map c | c in cols :: CellValue(w.rows[i][IndexOf(w.header, c)])))
  }

  /** `df['日期'] = ...` then `df['时点'] = ...`: the parsed dates, then the slot text
      read from the position the slot reference has once 日期 is in the frame. */
  function Keyed(w: Sheet, dates: seq<Option<int>>, slot: ColumnRef): (r: Result<Sheet>)
    requires Rectangular(w) && |dates| == |w.rows|
    ensures r.Ok? ==> Rectangular(r.value) && |r.value.rows| == |w.rows|
    ensures r.Ok? ==> DateCol in r.value.header && SlotCol in r.value.header
    ensures r.Ok? ==> |w.header| <= |r.value.header| && r.value.header[..|w.header|] == w.header
    ensures r.Ok? <==> Resolve(PutHeader(w.header, DateCol), slot).Ok?
    ensures r.Ok? ==> r.value.header == PutHeader(PutHeader(w.header, DateCol), SlotCol)
  {
    var w1 := Put(w, DateCol, DateCells(dates));
    var sl :- Resolve(w1.header, slot);
    var w2 := Put(w1, SlotCol, SlotCells(w1.rows, sl));
    assert w2.header[..|w1.header|] == w1.header;
    InPrefix(w1.header, w2.header);
    assert w2.header[..|w.header|] == w.header;
    Ok(w2)
  }

  /** The value columns assigned, then the key and value columns taken out as the
      source's frame. */
  function Valued(w: Sheet, values: seq<(string, ColumnRef)>): (r: Result<Frame>)
    requires Rectangular(w) && DateCol in w.header && SlotCol in w.header
    ensures r.Ok? ==> r.value.columns == [DateCol, SlotCol] + Names(values)
    ensures r.Ok? ==> RowsWithin(r.value) && |r.value.rows| == |w.rows|
  {
    var w3 :- Assign(w, values);
    InPrefix(w.header, w3.header);
    Ok(Extract(w3, [DateCol, SlotCol] + Names(values)))
  }

  /** A source read into a frame with the key columns and its value columns, or the
      first error the reading raises: a missing column or an unparseable date. Every
      positional reference is looked up in the frame as the code has grown it so far,
      which holds 日期, 时点 and the value columns already assigned. */
  function Normalized(sheet: Sheet, layout: Layout): Result<Frame>
    requires Rectangular(sheet)
  {
    var s := Trimmed(sheet, layout);
    var kept :- Kept(sheet, layout);
    var d :- Resolve(s.header, layout.date);
    var dates :- ColumnDates(Cells(kept, d));
    var w :- Keyed(Sheet(s.header, kept), dates, layout.slot);
    Valued(w, layout.values)
  }

  /** Reading a source step by step, as the code assigns its columns. */
  method Normalize(sheet: Sheet, layout: Layout) returns (r: Result<Frame>)
    requires Rectangular(sheet)
    ensures r == Normalized(sheet, layout)
  {
    var s := sheet;
    if layout.dropFirst {
      s := DropFirst(s);
    }
    assert s == Trimmed(sheet, layout);
    var kept :- FilterRows(s, layout.filter);
    var d :- Resolve(s.header, layout.date);
    var dates :- ColumnDates(Cells(kept, d));
    var w := Put(Sheet(s.header, kept), DateCol, DateCells(dates));
    var sl :- Resolve(w.header, layout.slot);
    w := Put(w, SlotCol, SlotCells(w.rows, sl));
    assert Keyed(Sheet(s.header, kept), dates, layout.slot) == Ok(w);
    var w3 :- AssignColumns(w, layout.values);
    InPrefix(w.header, w3.header);
    r := Ok(Extract(w3, [DateCol, SlotCol] + Names(layout.values)));
  }

  /** Each value column in turn, `df[name] = pd.to_numeric(df.iloc[:, k], errors='coerce')`. */
  method AssignColumns(w: Sheet, values: seq<(string, ColumnRef)>) returns (r: Result<Sheet>)
    requires Rectangular(w)
    ensures r == Assign(w, values)
  {
    var cur := w;
    for j := 0 to |values|
      invariant Rectangular(cur)
      invariant Assign(w, values) == Assign(cur, values[j..])
    {
      var k := Resolve(cur.header, values[j].1);
      if k.Err? {
        return Err(k.msg);
      }
      cur := Put(cur, values[j].0, NumberCells(cur.rows, k.value));
      assert values[j..][1..] == values[j + 1..];
    }
    return Ok(cur);
  }

  // ---- how the header grows -------------------------------------------------------

  function NotIn(h: seq<string>): string -> bool
  {
    (n: string) => n !in h
  }

  /** The header once the names ns are assigned in turn: the original columns, then each
      assigned name not already among them, in order. */
  function Grown(h: seq<string>, ns: seq<string>): (r: seq<string>)
    ensures |h| <= |r| && r[..|h|] == h
  {
    var r := h + Where(ns, NotIn(h));
    assert r[..|h|] == h;
    r
  }

  /** Assigning a name not assigned before grows the header by that name. */
  lemma GrowsBy(h: seq<string>, ns: seq<string>, n: string)
    requires n !in ns
    ensures PutHeader(Grown(h, ns), n) == Grown(h, ns + [n])
  {
    var p := NotIn(h);
    WhereAppend(ns, [n], p);
    assert [n][1..] == [];
    assert Where([n], p) == if n in h then [] else [n];
  }

  /** Each reference of vs resolves in the header h grown by ns and the names of vs
      before it. */
  predicate ResolvesGrown(h: seq<string>, ns: seq<string>, vs: seq<(string, ColumnRef)>)
  {
    forall j :: 0 <= j < |vs| ==> Resolve(Grown(h, ns + Names(vs[..j])), vs[j].1).Ok?
  }

  lemma ResolvesGrownStep(h: seq<string>, ns: seq<string>, vs: seq<(string, ColumnRef)>)
    requires vs != []
    ensures ResolvesGrown(h, ns, vs) <==>
      Resolve(Grown(h, ns), vs[0].1).Ok? && ResolvesGrown(h, ns + [vs[0].0], vs[1..])
  {
    assert ns + Names(vs[..0]) == ns;
    forall j | 0 <= j < |vs| - 1
      ensures ns + [vs[0].0] + Names(vs[1..][..j]) == ns + Names(vs[..j + 1]) && vs[1..][j] == vs[j + 1]
    {
      assert Names(vs[..j + 1]) == [vs[0].0] + Names(vs[1..][..j]);
    }
    if Resolve(Grown(h, ns), vs[0].1).Ok? && ResolvesGrown(h, ns + [vs[0].0], vs[1..]) {
      forall j | 0 <= j < |vs| ensures Resolve(Grown(h, ns + Names(vs[..j])), vs[j].1).Ok? {
        if j > 0 {
          assert Resolve(Grown(h, ns + [vs[0].0] + Names(vs[1..][..j - 1])), vs[1..][j - 1].1).Ok?;
        }
      }
    }
    if ResolvesGrown(h, ns, vs) {
      forall j | 0 <= j < |vs| - 1 ensures Resolve(Grown(h, ns + [vs[0].0] + Names(vs[1..][..j])), vs[1..][j].1).Ok? {
        assert Resolve(Grown(h, ns + Names(vs[..j + 1])), vs[j + 1].1).Ok?;
      }
    }
  }

  lemma NamesSplit(ns: seq<string>, vs: seq<(string, ColumnRef)>)
    requires vs != [] && NoDuplicates(ns + Names(vs))
    ensures vs[0].0 !in ns && ns + [vs[0].0] + Names(vs[1..]) == ns + Names(vs)
  {
    forall a | 0 <= a < |ns| ensures ns[a] != vs[0].0 {
      assert (ns + Names(vs))[a] == ns[a] && (ns + Names(vs))[|ns|] == vs[0].0;
    }
    assert Names(vs) == [vs[0].0] + Names(vs[1..]);
  }

  /** With names distinct from those before them, the value columns are all assigned
      exactly when each reference resolves in the header grown by the names assigned
      before it, and the header ends up grown by all of them. */
  lemma {:induction false} AssignGrows(w: Sheet, vs: seq<(string, ColumnRef)>, h: seq<string>, ns: seq<string>)
    requires Rectangular(w) && w.header == Grown(h, ns) && NoDuplicates(ns + Names(vs))
    ensures Assign(w, vs).Ok? <==> ResolvesGrown(h, ns, vs)
    ensures Assign(w, vs).Ok? ==> Assign(w, vs).value.header == Grown(h, ns + Names(vs))
    decreases |vs|
  {
    if vs == [] {
      assert ns + Names(vs) == ns;
    } else {
      ResolvesGrownStep(h, ns, vs);
      var r0 := Resolve(w.header, vs[0].1);
      if r0.Ok? {
        var w1 := Put(w, vs[0].0, NumberCells(w.rows, r0.value));
        NamesSplit(ns, vs);
        GrowsBy(h, ns, vs[0].0);
        AssignGrows(w1, vs[1..], h, ns + [vs[0].0]);
        assert Assign(w, vs) == Assign(w1, vs[1..]);
      }
    }
  }

  /** A column whose name no value column takes keeps its cells through the
      assignments. */
  lemma {:induction false} AssignKeeps(w: Sheet, vs: seq<(string, ColumnRef)>, k: nat)
    requires Rectangular(w) && Assign(w, vs).Ok? && k < |w.header|
    requires forall j :: 0 <= j < |vs| ==> vs[j].0 != w.header[k]
    ensures forall i :: 0 <= i < |w.rows| ==> Assign(w, vs).value.rows[i][k] == w.rows[i][k]
    decreases |vs|
  {
    if vs != [] {
      var p := Resolve(w.header, vs[0].1).value;
      var w1 := Put(w, vs[0].0, NumberCells(w.rows, p));
      assert w1.header[k] == w.header[k];
      AssignKeeps(w1, vs[1..], k);
    }
  }

  /** The first value column holds, after all assignments, the numbers read for it. */
  lemma AssignReadsFirst(w: Sheet, vs: seq<(string, ColumnRef)>, k: nat, i: nat)
    requires Rectangular(w) && vs != [] && Assign(w, vs).Ok?
    requires forall b :: 1 <= b < |vs| ==> vs[b].0 != vs[0].0
    requires Resolve(w.header, vs[0].1) == Ok(k) && i < |w.rows|
    ensures var r := Assign(w, vs).value;
      vs[0].0 in r.header && r.rows[i][IndexOf(r.header, vs[0].0)] == NumberCell(CellNumber(w.rows[i][k]))
  {
    var w1 := Put(w, vs[0].0, NumberCells(w.rows, k));
    assert Assign(w, vs) == Assign(w1, vs[1..]);
    assert w1.rows[i][IndexOf(w1.header, vs[0].0)] == NumberCell(CellNumber(w.rows[i][k]));
    AssignKeepsNamed(w1, vs[1..], vs[0].0, i);
  }

  /** A named column no value column takes keeps its cells and its position. */
  lemma AssignKeepsNamed(w: Sheet, vs: seq<(string, ColumnRef)>, n: string, i: nat)
    requires Rectangular(w) && Assign(w, vs).Ok? && n in w.header && i < |w.rows|
    requires forall b :: 0 <= b < |vs| ==> vs[b].0 != n
    ensures var r := Assign(w, vs).value;
      n in r.header && r.rows[i][IndexOf(r.header, n)] == w.rows[i][IndexOf(w.header, n)]
  {
    var r := Assign(w, vs).value;
    AssignKeeps(w, vs, IndexOf(w.header, n));
    assert r.header == w.header + r.header[|w.header|..];
    IndexOfPrefix(w.header, r.header[|w.header|..], n);
  }

  /** A value column that reads a column of the frame that no earlier assignment has
      touched holds the numbers read from that column. */
  lemma {:induction false} AssignReads(w: Sheet, vs: seq<(string, ColumnRef)>, j: nat, k: nat, i: nat)
    requires Rectangular(w) && Assign(w, vs).Ok?
    requires forall a, b :: 0 <= a < b < |vs| ==> vs[a].0 != vs[b].0
    requires j < |vs| && i < |w.rows| && Resolve(w.header, vs[j].1) == Ok(k)
    requires forall a :: 0 <= a < j ==> vs[a].0 != w.header[k]
    ensures var r := Assign(w, vs).value;
      vs[j].0 in r.header && r.rows[i][IndexOf(r.header, vs[j].0)] == NumberCell(CellNumber(w.rows[i][k]))
    decreases |vs|
  {
    if j == 0 {
      AssignReadsFirst(w, vs, k, i);
    } else {
      var p := Resolve(w.header, vs[0].1).value;
      var w1 := Put(w, vs[0].0, NumberCells(w.rows, p));
      assert Assign(w, vs) == Assign(w1, vs[1..]);
      ResolveWithin(w.header, w1.header, vs[j].1);
      assert w1.header[k] == w.header[k] && w1.rows[i][k] == w.rows[i][k];
      assert forall a :: 0 <= a < |vs| - 1 ==> vs[1..][a] == vs[a + 1];
      AssignReads(w1, vs[1..], j - 1, k, i);
    }
  }

  /** A reference resolves to the same position in a header extended at the end. */
  lemma ResolveWithin(h: seq<string>, g: seq<string>, c: ColumnRef)
    requires |h| <= |g| && g[..|h|] == h && Resolve(h, c).Ok?
    ensures Resolve(g, c) == Resolve(h, c)
  {
    assert g == h + g[|h|..];
    if c.Named? {
      IndexOfPrefix(h, g[|h|..], c.name);
    }
  }

  /** The key columns and the value columns of a valid layout are distinct. */
  lemma OutputColumnsDistinct(layout: Layout)
    requires ValidLayout(layout)
    ensures NoDuplicates([DateCol, SlotCol] + Names(layout.values))
  {
    var cols := [DateCol, SlotCol] + Names(layout.values);
    forall a, b | 0 <= a < b < |cols| ensures cols[a] != cols[b] {
      if a >= 2 {
        assert cols[a] == Names(layout.values)[a - 2] && cols[b] == Names(layout.values)[b - 2];
      } else {
        assert !IsKeyColumn(cols[b]) || b < 2;
      }
    }
  }

  // ---- what a source yields ------------------------------------------------------

  /** Assigning the key columns grows the header by 日期 then 时点, and succeeds
      exactly when the slot reference resolves once 日期 is in the frame. */
  lemma KeyedGrows(w: Sheet, dates: seq<Option<int>>, slot: ColumnRef)
    requires Rectangular(w) && |dates| == |w.rows|
    ensures Keyed(w, dates, slot).Ok? <==> Resolve(Grown(w.header, [DateCol]), slot).Ok?
    ensures Keyed(w, dates, slot).Ok? ==> Keyed(w, dates, slot).value.header == Grown(w.header, [DateCol, SlotCol])
  {
    var h := w.header;
    assert Grown(h, []) == h;
    assert [] + [DateCol] == [DateCol] && [DateCol] + [SlotCol] == [DateCol, SlotCol];
    GrowsBy(h, [], DateCol);
    GrowsBy(h, [DateCol], SlotCol);
  }

  /** After the key columns are assigned, 日期 holds the parsed dates, 时点 the text of
      the slot column when that is a column of the sheet other than 日期, and every
      other column of the sheet is as it was. */
  lemma KeyedCells(w: Sheet, dates: seq<Option<int>>, slot: ColumnRef, i: nat)
    requires Rectangular(w) && |dates| == |w.rows| && Keyed(w, dates, slot).Ok? && i < |w.rows|
    ensures var r := Keyed(w, dates, slot).value;
      r.rows[i][IndexOf(r.header, DateCol)] == DateCell(dates[i])
    ensures var r := Keyed(w, dates, slot).value;
      forall s0 :: Resolve(w.header, slot) == Ok(s0) && w.header[s0] != DateCol ==>
        r.rows[i][IndexOf(r.header, SlotCol)] == Text(SlotText(w.rows[i][s0]))
    ensures var r := Keyed(w, dates, slot).value;
      forall k :: 0 <= k < |w.header| && !IsKeyColumn(w.header[k]) ==> r.rows[i][k] == w.rows[i][k]
  {
    var w1 := Put(w, DateCol, DateCells(dates));
    var sl := Resolve(w1.header, slot).value;
    var w2 := Put(w1, SlotCol, SlotCells(w1.rows, sl));
    assert Keyed(w, dates, slot) == Ok(w2);
    var p1 := IndexOf(w1.header, DateCol);
    IndexOfPrefix(w1.header, w2.header[|w1.header|..], DateCol);
    assert w2.header == w1.header + w2.header[|w1.header|..];
    assert w2.rows[i][p1] == w1.rows[i][p1];
    forall s0 | Resolve(w.header, slot) == Ok(s0) && w.header[s0] != DateCol
      ensures w2.rows[i][IndexOf(w2.header, SlotCol)] == Text(SlotText(w.rows[i][s0]))
    {
      ResolveWithin(w.header, w1.header, slot);
    }
  }

  /** Once the value columns are assigned and taken out, the key columns hold what the
      working sheet held. */
  lemma ValuedKeys(w: Sheet, layout: Layout, i: nat)
    requires Rectangular(w) && DateCol in w.header && SlotCol in w.header && ValidLayout(layout)
    requires Valued(w, layout.values).Ok? && i < |w.rows|
    ensures var f := Valued(w, layout.values).value;
      Get(f.rows[i], DateCol) == CellValue(w.rows[i][IndexOf(w.header, DateCol)]) &&
      Get(f.rows[i], SlotCol) == CellValue(w.rows[i][IndexOf(w.header, SlotCol)])
  {
    var w3 := Assign(w, layout.values).value;
    assert Valued(w, layout.values) == Ok(Extract(w3, [DateCol, SlotCol] + Names(layout.values)));
    AssignKeepsNamed(w, layout.values, DateCol, i);
    AssignKeepsNamed(w, layout.values, SlotCol, i);
  }

  /** The value columns of a valid layout have pairwise distinct names. */
  lemma NamesDistinct(layout: Layout)
    requires ValidLayout(layout)
    ensures forall a, b :: 0 <= a < b < |layout.values| ==> layout.values[a].0 != layout.values[b].0
  {
    forall a, b | 0 <= a < b < |layout.values| ensures layout.values[a].0 != layout.values[b].0 {
      assert Names(layout.values)[a] != Names(layout.values)[b];
    }
  }

  /** Once the value columns are assigned and taken out, a value column that reads a
      column no earlier assignment touched holds the numbers read from it. */
  lemma ValuedCells(w: Sheet, layout: Layout, i: nat, j: nat, k: nat)
    requires Rectangular(w) && DateCol in w.header && SlotCol in w.header && ValidLayout(layout)
    requires Valued(w, layout.values).Ok? && i < |w.rows| && j < |layout.values|
    requires Resolve(w.header, layout.values[j].1) == Ok(k) && Untouched(w.header[k], layout.values, j)
    ensures Get(Valued(w, layout.values).value.rows[i], layout.values[j].0) == NumValue(CellNumber(w.rows[i][k]))
  {
    var vs := layout.values;
    var w3 := Assign(w, vs).value;
    var cols := [DateCol, SlotCol] + Names(vs);
    assert Valued(w, vs) == Ok(Extract(w3, cols));
    NamesDistinct(layout);
    AssignReads(w, vs, j, k, i);
    assert vs[j].0 == cols[j + 2];
  }

  /** With the key columns in place, the value columns are all assigned exactly when
      each resolves in the header grown by the value columns before it. */
  lemma ValuedGrows(w: Sheet, layout: Layout, h: seq<string>)
    requires Rectangular(w) && DateCol in w.header && SlotCol in w.header && ValidLayout(layout)
    requires w.header == Grown(h, [DateCol, SlotCol])
    ensures Valued(w, layout.values).Ok? <==> ResolvesGrown(h, [DateCol, SlotCol], layout.values)
  {
    OutputColumnsDistinct(layout);
    AssignGrows(w, layout.values, h, [DateCol, SlotCol]);
  }

  /** A source read under a valid layout is a well-formed frame whose columns are the
      key columns then the layout's value columns. */
  lemma NormalizedShape(sheet: Sheet, layout: Layout)
    requires Rectangular(sheet) && ValidLayout(layout) && Normalized(sheet, layout).Ok?
    ensures Normalized(sheet, layout).value.columns == [DateCol, SlotCol] + Names(layout.values)
    ensures WellFormed(Normalized(sheet, layout).value)
  {
    OutputColumnsDistinct(layout);
  }

  /** No key column and none of the first j value columns is named x. */
  predicate Untouched(x: string, vs: seq<(string, ColumnRef)>, j: nat)
  {
    !IsKeyColumn(x) && forall a :: 0 <= a < j && a < |vs| ==> vs[a].0 != x
  }

  /** The slot column the layout reads is one of the sheet's own other than 日期, so the
      code has not overwritten it when it reads it. */
  predicate ReadsOwnSlot(header: seq<string>, layout: Layout)
  {
    Resolve(header, layout.slot).Ok? && header[Resolve(header, layout.slot).value] != DateCol
  }

  /** Every value column the layout finds in the sheet's own header reads a column the
      code has not overwritten by then: not 日期, not 时点, not a value column assigned
      before it. */
  predicate ReadsOwnValues(header: seq<string>, layout: Layout)
  {
    forall j :: 0 <= j < |layout.values| && Resolve(header, layout.values[j].1).Ok? ==>
      Untouched(header[Resolve(header, layout.values[j].1).value], layout.values, j)
  }

  /** The price layout reads every column by name, so whatever it finds is a column of
      the sheet the code has not overwritten. */
  lemma PriceReadsOwn(h: seq<string>)
    requires SlotCol in h
    ensures ReadsOwnSlot(h, PriceLayout) && ReadsOwnValues(h, PriceLayout)
  {
  }

  /** A source that reads is its kept rows with the key columns assigned, then the
      value columns. */
  lemma NormalizedStages(sheet: Sheet, layout: Layout, kept: seq<seq<Cell>>, d: nat)
    requires Rectangular(sheet) && Normalized(sheet, layout).Ok?
    requires Kept(sheet, layout) == Ok(kept) && Resolve(sheet.header, layout.date) == Ok(d)
    ensures ColumnDates(Cells(kept, d)).Ok?
    ensures var dates := ColumnDates(Cells(kept, d)).value;
      Keyed(Sheet(sheet.header, kept), dates, layout.slot).Ok? &&
      Normalized(sheet, layout) == Valued(Keyed(Sheet(sheet.header, kept), dates, layout.slot).value, layout.values)
  {
  }

  /** The rows of a source read are the kept rows, one for one, and the date column
      holds the parsed date. */
  lemma NormalizedDates(sheet: Sheet, layout: Layout, kept: seq<seq<Cell>>, d: nat, i: nat)
    requires Rectangular(sheet) && ValidLayout(layout) && Normalized(sheet, layout).Ok?
    requires Kept(sheet, layout) == Ok(kept) && Resolve(sheet.header, layout.date) == Ok(d)
    requires i < |kept|
    ensures |Normalized(sheet, layout).value.rows| == |kept|
    ensures Get(Normalized(sheet, layout).value.rows[i], DateCol) == DateValue(CellDate(kept[i][d]).value)
  {
    NormalizedStages(sheet, layout, kept, d);
    var dates := ColumnDates(Cells(kept, d)).value;
    var w0 := Sheet(sheet.header, kept);
    KeyedCells(w0, dates, layout.slot, i);
    ValuedKeys(Keyed(w0, dates, layout.slot).value, layout, i);
  }

  /** When the layout reads its own columns, the slot column of a source read holds the
      text of the kept row's slot cell. */
  lemma NormalizedSlots(sheet: Sheet, layout: Layout, kept: seq<seq<Cell>>, d: nat, i: nat)
    requires Rectangular(sheet) && ValidLayout(layout) && Normalized(sheet, layout).Ok?
    requires Kept(sheet, layout) == Ok(kept) && Resolve(sheet.header, layout.date) == Ok(d)
    requires i < |kept| && ReadsOwnSlot(sheet.header, layout)
    ensures Get(Normalized(sheet, layout).value.rows[i], SlotCol) == Label(SlotText(kept[i][Resolve(sheet.header, layout.slot).value]))
  {
    NormalizedStages(sheet, layout, kept, d);
    var dates := ColumnDates(Cells(kept, d)).value;
    var w0 := Sheet(sheet.header, kept);
    KeyedCells(w0, dates, layout.slot, i);
    ValuedKeys(Keyed(w0, dates, layout.slot).value, layout, i);
  }

  /** When the layout reads its own columns, each value column of a source read holds
      the number read from its position in the kept row (null where the cell is not
      numeric). */
  lemma NormalizedCells(sheet: Sheet, layout: Layout, kept: seq<seq<Cell>>, d: nat, i: nat, j: nat, k: nat)
    requires Rectangular(sheet) && ValidLayout(layout) && Normalized(sheet, layout).Ok?
    requires Kept(sheet, layout) == Ok(kept) && Resolve(sheet.header, layout.date) == Ok(d)
    requires i < |kept| && ReadsOwnValues(sheet.header, layout)
    requires j < |layout.values| && Resolve(sheet.header, layout.values[j].1) == Ok(k)
    ensures Get(Normalized(sheet, layout).value.rows[i], layout.values[j].0) == NumValue(CellNumber(kept[i][k]))
  {
    NormalizedStages(sheet, layout, kept, d);
    var h := sheet.header;
    var dates := ColumnDates(Cells(kept, d)).value;
    var w0 := Sheet(h, kept);
    var w := Keyed(w0, dates, layout.slot).value;
    KeyedCells(w0, dates, layout.slot, i);
    ResolveWithin(h, w.header, layout.values[j].1);
    assert w.header[k] == h[k] && Untouched(h[k], layout.values, j);
    ValuedCells(w, layout, i, j, k);
  }

  /** A source that drops its first data row and keeps all others yields one row per
      sheet row after the first, in order. */
  lemma DropsFirstRow(sheet: Sheet, layout: Layout)
    requires Rectangular(sheet) && layout.dropFirst && layout.filter == AllRows
    ensures Kept(sheet, layout).Ok?
    ensures |Kept(sheet, layout).value| == if sheet.rows == [] then 0 else |sheet.rows| - 1
    ensures forall i :: 0 <= i < |Kept(sheet, layout).value| ==> Kept(sheet, layout).value[i] == sheet.rows[i + 1]
  {
  }

  /** A tie-line source keeps exactly the rows after the first whose cell in column 1 is
      `总加`, in their order. */
  lemma KeepsTotals(sheet: Sheet, layout: Layout)
    requires Rectangular(sheet) && layout.dropFirst && layout.filter == TotalsOnly(At(1)) && |sheet.header| >= 2
    requires sheet.rows != []
    ensures Kept(sheet, layout).Ok?
    ensures IsSubsequence(Kept(sheet, layout).value, sheet.rows[1..])
    ensures forall i :: 0 <= i < |Kept(sheet, layout).value| ==> Kept(sheet, layout).value[i][1] == Text(Total)
    ensures forall i :: 1 <= i < |sheet.rows| && sheet.rows[i][1] == Text(Total) ==> sheet.rows[i] in Kept(sheet, layout).value
  {
    var rest := sheet.rows[1..];
    WhereIsSubsequence(rest, TotalAt(1));
    forall i | 1 <= i < |sheet.rows| && sheet.rows[i][1] == Text(Total) ensures sheet.rows[i] in Where(rest, TotalAt(1)) {
      assert rest[i - 1] == sheet.rows[i];
      assert TotalAt(1)(rest[i - 1]);
    }
  }

  /** The price source keeps exactly the rows whose `序号` cell is numeric, in order;
      without a `序号` column it fails with the key error. */
  lemma KeepsNumbered(sheet: Sheet)
    requires Rectangular(sheet)
    ensures SerialCol !in sheet.header ==> Kept(sheet, PriceLayout) == Err("KeyError: " + SerialCol)
    ensures SerialCol in sheet.header ==> Kept(sheet, PriceLayout).Ok?
    ensures SerialCol in sheet.header ==> IsSubsequence(Kept(sheet, PriceLayout).value, sheet.rows)
    ensures SerialCol in sheet.header ==> forall i :: 0 <= i < |Kept(sheet, PriceLayout).value| ==>
      CellNumber(Kept(sheet, PriceLayout).value[i][IndexOf(sheet.header, SerialCol)]).Some?
    ensures SerialCol in sheet.header ==> forall i ::
      (0 <= i < |sheet.rows| && CellNumber(sheet.rows[i][IndexOf(sheet.header, SerialCol)]).Some?) ==>
        sheet.rows[i] in Kept(sheet, PriceLayout).value
  {
    if SerialCol in sheet.header {
      var k := IndexOf(sheet.header, SerialCol);
      WhereIsSubsequence(sheet.rows, NumberedAt(k));
      forall i | 0 <= i < |sheet.rows| && CellNumber(sheet.rows[i][k]).Some? ensures sheet.rows[i] in Where(sheet.rows, NumberedAt(k)) {
        assert NumberedAt(k)(sheet.rows[i]);
      }
    }
  }

  /** Once the kept rows and the date column are known, a source reads successfully
      exactly when every kept date cell parses, the slot column resolves in the header
      grown by 日期, and each value column resolves in the header grown by 日期, 时点
      and the value columns before it: one unparseable date fails the whole source. */
  lemma NormalizedFails(sheet: Sheet, layout: Layout, kept: seq<seq<Cell>>, d: nat)
    requires Rectangular(sheet) && ValidLayout(layout)
    requires Kept(sheet, layout) == Ok(kept) && Resolve(sheet.header, layout.date) == Ok(d)
    ensures Normalized(sheet, layout).Ok? <==>
      (forall i :: 0 <= i < |kept| ==> CellDate(kept[i][d]).Ok?)
      && Resolve(Grown(sheet.header, [DateCol]), layout.slot).Ok?
      && ResolvesGrown(sheet.header, [DateCol, SlotCol], layout.values)
  {
    var h := sheet.header;
    var cells := Cells(kept, d);
    assert forall i :: 0 <= i < |kept| ==> cells[i] == kept[i][d];
    var dates := ColumnDates(cells);
    if dates.Ok? {
      var w0 := Sheet(h, kept);
      KeyedGrows(w0, dates.value, layout.slot);
      var w := Keyed(w0, dates.value, layout.slot);
      if w.Ok? {
        ValuedGrows(w.value, layout, h);
      }
    }
  }

  /** The header of a sheet without 日期 and 时点 grows by both, in that order. */
  lemma GrownByKeys(h: seq<string>)
    requires DateCol !in h && SlotCol !in h
    ensures Grown(h, [DateCol]) == h + [DateCol] && Grown(h, [DateCol, SlotCol]) == h + [DateCol, SlotCol]
  {
    WhereAll([DateCol], NotIn(h));
    WhereAll([DateCol, SlotCol], NotIn(h));
  }

  /** A load sheet of three columns, none of them 日期 or 时点, reads exactly when the
      dates of its rows after the first parse: its load column reads position 3, which
      by then is the 日期 column the code has appended. */
  lemma NarrowLoadSheet(sheet: Sheet)
    requires Rectangular(sheet) && |sheet.header| == 3 && DateCol !in sheet.header && SlotCol !in sheet.header
    ensures Normalized(sheet, LoadLayout).Ok? <==> forall i :: 1 <= i < |sheet.rows| ==> CellDate(sheet.rows[i][1]).Ok?
  {
    var h := sheet.header;
    var kept := DropFirst(sheet).rows;
    assert Kept(sheet, LoadLayout) == Ok(kept);
    LayoutsValid();
    NormalizedFails(sheet, LoadLayout, kept, 1);
    GrownByKeys(h);
    assert LoadLayout.values[..0] == [] && Names([]) == [];
    assert [DateCol, SlotCol] + Names(LoadLayout.values[..0]) == [DateCol, SlotCol];
    assert ResolvesGrown(h, [DateCol, SlotCol], LoadLayout.values);
    assert forall i :: 1 <= i < |sheet.rows| ==> kept[i - 1] == sheet.rows[i];
    if forall i :: 1 <= i < |sheet.rows| ==> CellDate(sheet.rows[i][1]).Ok? {
      assert forall i :: 0 <= i < |kept| ==> CellDate(kept[i][1]).Ok?;
    }
  }

  /** Such a narrow load sheet, when it reads, has every load value null. */
  lemma NarrowLoadNull(sheet: Sheet, i: nat)
    requires Rectangular(sheet) && |sheet.header| == 3 && DateCol !in sheet.header && SlotCol !in sheet.header
    requires Normalized(sheet, LoadLayout).Ok? && i < |Normalized(sheet, LoadLayout).value.rows|
    ensures Get(Normalized(sheet, LoadLayout).value.rows[i], LoadCol) == Null
  {
    var h := sheet.header;
    var kept := DropFirst(sheet).rows;
    assert Kept(sheet, LoadLayout) == Ok(kept);
    NormalizedStages(sheet, LoadLayout, kept, 1);
    var dates := ColumnDates(Cells(kept, 1)).value;
    var w0 := Sheet(h, kept);
    var w := Keyed(w0, dates, LoadLayout.slot).value;
    KeyedGrows(w0, dates, LoadLayout.slot);
    GrownByKeys(h);
    KeyedCells(w0, dates, LoadLayout.slot, i);
    assert IndexOf(w.header, DateCol) == 3;
    AssignReadsFirst(w, LoadLayout.values, 3, i);
    var w3 := Assign(w, LoadLayout.values).value;
    assert Valued(w, LoadLayout.values) == Ok(Extract(w3, [DateCol, SlotCol] + Names(LoadLayout.values)));
    assert LoadCol in [DateCol, SlotCol] + Names(LoadLayout.values);
  }

  /** Every source layout names distinct value columns, none of them a key column. */
  lemma LayoutsValid()
    ensures ValidLayout(LoadLayout) && ValidLayout(RenewableLayout) && ValidLayout(DisclosureLayout)
    ensures ValidLayout(TieLineLayout) && ValidLayout(HydroLayout) && ValidLayout(ActualLayout)
    ensures ValidLayout(PriceLayout)
  {
  }

  /** The online capacity of the clearing summary: the sheet's first data row is
      dropped, and the summary is the cell in column 2 of the next one. */
  function ClearingCapacity(sheet: Sheet): (r: Result<Option<real>>)
    requires Rectangular(sheet)
    ensures r.Ok? <==> |sheet.rows| >= 2 && |sheet.header| >= 3
    ensures r.Ok? ==> r.value == ExtractOnlineCapacity(sheet.rows[1][2])
  {
    var s := DropFirst(sheet);
    if |s.rows| == 0 || |s.header| < 3 then Err("single positional indexer is out-of-bounds")
    else Ok(ExtractOnlineCapacity(s.rows[0][2]))
  }
}
