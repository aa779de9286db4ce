/** Spreadsheet sheets as the reconciliation pipeline reads them, and the cell
    coercions it applies: `pd.to_datetime(...).dt.date` on a date column,
    `.astype(str)` on a time-slot column, `pd.to_numeric(..., errors='coerce')` on a
    value column and `pd.to_datetime(..., format='%H:%M', errors='coerce')` when
    sorting on the time slot. */
module Sheets {
  import opened Wrappers
  import opened Decimal
  import opened Seqs

  /** A cell as the workbook reader delivers it. Day holds a calendar date as the
      integer yyyymmdd. */
  datatype Cell = Blank | Text(t: string) | Number(x: real) | Day(date: int)

  /** A sheet read with its first line as the header. */
  datatype Sheet = Sheet(header: seq<string>, rows: seq<seq<Cell>>)

  /** Every row has one cell per header column, as in any data frame. */
  predicate Rectangular(s: Sheet)
  {
    forall i :: 0 <= i < |s.rows| ==> |s.rows[i]| == |s.header|
  }

  /** A column as the code names it: by position (`df.iloc[:, k]`) or by header
      (`df[name]`). */
  datatype ColumnRef = At(k: nat) | Named(name: string)

  /** The position a reference denotes, or the error pandas raises: an out-of-bounds
      position or a missing header. */
  function Resolve(header: seq<string>, c: ColumnRef): (r: Result<nat>)
    ensures r.Ok? ==> r.value < |header|
    ensures c.At? ==> (r.Ok? <==> c.k < |header|) && (r.Ok? ==> r.value == c.k)
    ensures c.Named? ==> (r.Ok? <==> c.name in header) && (r.Ok? ==> header[r.value] == c.name)
  {
    match c
    case At(k) => if k < |header| then Ok(k) else Err("single positional indexer is out-of-bounds")
    case Named(n) => if n in header then Ok(IndexOf(header, n)) else Err("KeyError: " + n)
  }

  /** The cells in position k of the given rows. */
  function Cells(rows: seq<seq<Cell>>, k: nat): (r: seq<Cell>)
    requires forall i :: 0 <= i < |rows| ==> k < |rows[i]|
    ensures |r| == |rows| && forall i :: 0 <= i < |rows| ==> r[i] == rows[i][k]
  {
    seq(|rows|, i requires 0 <= i < |rows| => rows[i][k])
  }

  /** `df.iloc[1:]`: the sheet without its first data row (nothing left of an empty one). */
  function DropFirst(s: Sheet): (r: Sheet)
    ensures r.header == s.header
    ensures |r.rows| == if |s.rows| == 0 then 0 else |s.rows| - 1
    ensures Rectangular(s) ==> Rectangular(r)
  {
    if s.rows == [] then s else Sheet(s.header, s.rows[1..])
  }

  // ---- dates ----------------------------------------------------------------

  predicate IsLeapYear(y: nat)
  {
    (y % 4 == 0 && y % 100 != 0) || y % 400 == 0
  }

  function DaysInMonth(y: nat, m: nat): nat
    requires 1 <= m <= 12
  {
    if m == 2 then (if IsLeapYear(y) then 29 else 28)
    else if m == 4 || m == 6 || m == 9 || m == 11 then 30
    else 31
  }

  /** A calendar date whose year pandas timestamps can hold. */
  predicate ValidDate(y: nat, m: nat, d: nat)
  {
    1678 <= y <= 2261 && 1 <= m <= 12 && 1 <= d <= DaysInMonth(y, m)
  }

  /** The integer yyyymmdd of a date; it orders dates as the calendar does. */
  function DateKey(y: nat, m: nat, d: nat): int
  {
    y * 10000 + m * 100 + d
  }

  /** `pd.to_datetime` of a text cell: an ISO `YYYY-MM-DD` date, None for any other text. */
  function ParseIsoDate(t: string): (r: Option<int>)
    ensures r.Some? ==> exists y: nat, m: nat, d: nat :: ValidDate(y, m, d) && r.value == DateKey(y, m, d)
  {
    if |t| == 10 && t[4] == '-' && t[7] == '-' && IsDigits(t[..4]) && IsDigits(t[5..7]) && IsDigits(t[8..]) then
      var y, m, d := DigitsValue(t[..4]), DigitsValue(t[5..7]), DigitsValue(t[8..]);
      if ValidDate(y, m, d) then Some(DateKey(y, m, d)) else None
    else None
  }

  /** The date of one cell of a date column (a blank is NaT), or the parse error that
      `pd.to_datetime` raises. */
  function CellDate(c: Cell): (r: Result<Option<int>>)
    ensures c.Blank? ==> r == Ok(None)
    ensures c.Day? ==> r == Ok(Some(c.date))
    ensures c.Number? ==> r.Err?
  {
    match c
    case Blank => Ok(None)
    case Day(d) => Ok(Some(d))
    case Text(t) =>
      (match ParseIsoDate(t)
       case Some(k) => Ok(Some(k))
       case None => Err("Unknown datetime string format, unable to parse: " + t))
    case Number(_) => Err("numeric value in a date column")
  }

  /** `pd.to_datetime(column).dt.date`: every cell's date, or the first cell's error:
      one bad cell fails the whole column. */
  function ColumnDates(cells: seq<Cell>): (r: Result<seq<Option<int>>>)
    ensures r.Ok? <==> forall i :: 0 <= i < |cells| ==> CellDate(cells[i]).Ok?
    ensures r.Ok? ==> |r.value| == |cells| && forall i :: 0 <= i < |cells| ==> r.value[i] == CellDate(cells[i]).value
  {
    if cells == [] then Ok([])
    else
      match CellDate(cells[0])
      case Err(msg) => Err(msg)
      case Ok(d) =>
        match ColumnDates(cells[1..])
        case Err(msg) => Err(msg)
        case Ok(ds) => Ok([d] + ds)
  }

  /** Two-digit decimal text of n < 100. */
  function TwoDigits(n: nat): (s: string)
    requires n < 100
    ensures |s| == 2 && IsDigits(s) && DigitsValue(s) == n
  {
    var s := [('0' as int + n / 10) as char, ('0' as int + n % 10) as char];
    assert s[..1][..0] == [];
    assert DigitsValue(s[..1]) == n / 10;
    s
  }

  /** The ISO text of a valid date. */
  function IsoDateText(y: nat, m: nat, d: nat): (t: string)
    requires ValidDate(y, m, d)
    ensures |t| == 10
  {
    TwoDigits(y / 100) + TwoDigits(y % 100) + "-" + TwoDigits(m) + "-" + TwoDigits(d)
  }

  /** Writing a date as ISO text and reading it back gives its key. */
  lemma IsoDateRoundTrip(y: nat, m: nat, d: nat)
    requires ValidDate(y, m, d)
    ensures ParseIsoDate(IsoDateText(y, m, d)) == Some(DateKey(y, m, d))
  {
    var hi, lo := TwoDigits(y / 100), TwoDigits(y % 100);
    var t := IsoDateText(y, m, d);
    assert t[..4] == hi + lo;
    assert t[5..7] == TwoDigits(m);
    assert t[8..] == TwoDigits(d);
    assert (hi + lo)[..3] == hi + lo[..1];
    assert lo[..1] == [lo[0]];
    assert DigitsValue(hi + lo[..1]) == DigitsValue(hi) * 10 + DigitVal(lo[0]) by {
      assert (hi + lo[..1])[..2] == hi;
    }
    assert DigitsValue(hi + lo) == y by {
      assert DigitsValue(lo) == DigitVal(lo[0]) * 10 + DigitVal(lo[1]) by {
        assert lo[..1][..0] == [];
      }
    }
  }

  /** Date keys order dates as the calendar does: by year, then month, then day. */
  lemma DateKeyOrder(y1: nat, m1: nat, d1: nat, y2: nat, m2: nat, d2: nat)
    requires ValidDate(y1, m1, d1) && ValidDate(y2, m2, d2)
    ensures DateKey(y1, m1, d1) < DateKey(y2, m2, d2) <==>
      y1 < y2 || (y1 == y2 && (m1 < m2 || (m1 == m2 && d1 < d2)))
  {
  }

  // ---- time slots -------------------------------------------------------------

  /** `.astype(str)` of a time-slot cell. A blank prints as `nan`; the text of a
      numeric or date cell is not modelled and reads as the empty label. */
  function SlotText(c: Cell): string
  {
    match c
    case Text(t) => t
    case Blank => "nan"
    case _ => ""
  }

  /** One or two ASCII digits. */
  function ShortNumber(t: string): Option<nat>
  {
    if 1 <= |t| <= 2 && IsDigits(t) then Some(DigitsValue(t)) else None
  }

  /** `%H:%M` over the whole text: hour 0..23 and minute 0..59, each of one or two
      digits. The result is minutes after midnight, None when the text does not parse. */
  function ParseClock(t: string): (r: Option<int>)
    ensures r.Some? ==> 0 <= r.value < 24 * 60
  {
    if ':' !in t then None
    else
      var k := IndexOf(t, ':');
      match (ShortNumber(t[..k]), ShortNumber(t[k + 1..]))
      case (Some(h), Some(m)) => if h < 24 && m < 60 then Some(h * 60 + m) else None
      case _ => None
  }

  /** `HH:MM`, zero-padded. */
  function ClockText(h: nat, m: nat): string
    requires h < 24 && m < 60
  {
    TwoDigits(h) + ":" + TwoDigits(m)
  }

  /** A zero-padded clock text reads back as its minutes after midnight. */
  lemma ClockRoundTrip(h: nat, m: nat)
    requires h < 24 && m < 60
    ensures ParseClock(ClockText(h, m)) == Some(h * 60 + m)
  {
    var t := ClockText(h, m);
    assert t[2] == ':' && ':' !in t[..2];
    assert IndexOf(t, ':') == 2 by {
      assert t[0] != ':' && t[1] != ':';
      assert t[1..][1..] == t[2..];
    }
    assert t[..2] == TwoDigits(h) && t[3..] == TwoDigits(m);
  }

  /** The slot label of a row the sheet leaves blank does not parse, so such rows sort
      after the parsed slots. */
  lemma BlankSlotDoesNotParse()
    ensures ParseClock(SlotText(Blank)).None?
  {
    assert ':' !in "nan";
  }

  // ---- numbers ----------------------------------------------------------------

  /** `pd.to_numeric(cell, errors='coerce')`: the number of a numeric cell or numeric
      text, None otherwise. */
  function CellNumber(c: Cell): (r: Option<real>)
    ensures c.Number? ==> r == Some(c.x)
    ensures c.Blank? || c.Day? ==> r.None?
  {
    match c
    case Number(x) => Some(x)
    case Text(t) => ParseNumber(t)
    case _ => None
  }
}
