/** Data frames keyed on (日期, 时点) as the reconciliation pipeline builds them: column
    assignment, column selection, concatenation and `pd.merge(..., on=['日期', '时点'])`
    in its `outer` and `left` forms.

    A row maps column names to cells; a column a row does not hold reads as null, which
    is how the null filling of a merge or a concatenation shows in this model. */
module Frames {
  import opened Wrappers
  import opened Seqs

  /** A cell of a processed frame: null (NaN, NaT, None), a number, a date (yyyymmdd)
      or a text label. */
  datatype Value = Null | Num(x: real) | Date(day: int) | Label(s: string)

  type Row = map<string, Value>

  datatype Frame = Frame(columns: seq<string>, rows: seq<Row>)

  /** The cell of row r in column c. */
  function Get(r: Row, c: string): Value
  {
    if c in r then r[c] else Null
  }

  /** Rows hold only the frame's columns. */
  predicate RowsWithin(f: Frame)
  {
    forall i, c :: 0 <= i < |f.rows| && c in f.rows[i] ==> c in f.columns
  }

  /** Column names are distinct and rows hold only the frame's columns. */
  predicate WellFormed(f: Frame)
  {
    NoDuplicates(f.columns) && RowsWithin(f)
  }

  const DateCol: string := "日期"
  const SlotCol: string := "时点"

  predicate IsKeyColumn(c: string)
  {
    c == DateCol || c == SlotCol
  }

  /** The join key of a row. */
  datatype Key = Key(date: Value, slot: Value)

  function KeyOf(r: Row): Key
  {
    Key(Get(r, DateCol), Get(r, SlotCol))
  }

  function HasKey(k: Key): Row -> bool
  {
    (r: Row) => KeyOf(r) == k
  }

  /** The rows with key k, in order. */
  function Matches(rows: seq<Row>, k: Key): seq<Row>
  {
    Where(rows, HasKey(k))
  }

  function KeySet(rows: seq<Row>): set<Key>
  {
    set r | r in rows :: KeyOf(r)
  }

  /** No key is shared by two rows. */
  ghost predicate UniqueKeys(rows: seq<Row>)
  {
    forall k :: |Matches(rows, k)| <= 1
  }

  /** The cell in column c of the (first) row with key k; null when no row has key k. */
  function ValueAt(rows: seq<Row>, k: Key, c: string): Value
  {
    var ms := Matches(rows, k);
    if ms == [] then Null else Get(ms[0], c)
  }

  function IsValueColumn(c: string): bool
  {
    !IsKeyColumn(c)
  }

  /** The columns other than the two key columns. */
  function ValueColumns(cols: seq<string>): seq<string>
  {
    Where(cols, IsValueColumn)
  }

  /** What `pd.merge(l, r, on=['日期', '时点'])` needs here: both frames carry the key
      columns and share no other column. */
  predicate Mergeable(l: Frame, r: Frame)
  {
    && RowsWithin(l) && RowsWithin(r)
    && DateCol in l.columns && SlotCol in l.columns && DateCol in r.columns && SlotCol in r.columns
    && forall c :: c in l.columns && c in r.columns ==> IsKeyColumn(c)
  }

  datatype JoinMode = Outer | Left

  /** Row a joined with each of the rows ms. */
  function JoinAll(a: Row, ms: seq<Row>): (r: seq<Row>)
    ensures |r| == |ms| && forall i :: 0 <= i < |ms| ==> r[i] == a + ms[i]
  {
    if ms == [] then [] else [a + ms[0]] + JoinAll(a, ms[1..])
  }

  /** The rows a left row contributes: one per right row with its key, or the row alone
      (nulls in the right columns) when no right row has its key. */
  function JoinRow(a: Row, rs: seq<Row>): seq<Row>
  {
    var ms := Matches(rs, KeyOf(a));
    if ms == [] then [a] else JoinAll(a, ms)
  }

  function LeftRows(ls: seq<Row>, rs: seq<Row>): seq<Row>
  {
    if ls == [] then [] else JoinRow(ls[0], rs) + LeftRows(ls[1..], rs)
  }

  /** Right rows whose key no left row has. */
  function Unmatched(ls: seq<Row>): Row -> bool
  {
    (r: Row) => KeyOf(r) !in KeySet(ls)
  }

  /** `pd.merge(l, r, on=['日期', '时点'], how=...)`: every left row joined with each
      right row of its key; an outer merge also keeps the right rows whose key no left
      row has. Columns: the left ones, then the right value columns; the lemmas below
      hold for Mergeable frames, where no value column is shared (pandas would suffix a
      shared one). */
  function Merge(l: Frame, r: Frame, how: JoinMode): Frame
  {
    Frame(l.columns + ValueColumns(r.columns),
          LeftRows(l.rows, r.rows) + if how == Outer then Where(r.rows, Unmatched(l.rows)) else [])
  }

  /** Each row rewritten by g. */
  function Each(rows: seq<Row>, g: Row -> Row): (r: seq<Row>)
    ensures |r| == |rows| && forall i :: 0 <= i < |rows| ==> r[i] == g(rows[i])
  {
    seq(|rows|, i requires 0 <= i < |rows| => g(rows[i]))
  }

  function SetCell(c: string, v: Value): Row -> Row
  {
    (r: Row) => r[c := v]
  }

  function Restrict(cols: seq<string>): Row -> Row
  {
    (r: Row) => map c | c in r && c in cols :: r[c]
  }

  /** `df[c] = v`: every row gets the cell v in column c, a new column going last. */
  function WithColumn(f: Frame, c: string, v: Value): Frame
  {
    Frame(if c in f.columns then f.columns else f.columns + [c], Each(f.rows, SetCell(c, v)))
  }

  /** `pd.concat([a, b], ignore_index=True)`: the rows of a, then those of b; the
      columns of a, then b's other columns. */
  function Concat(a: Frame, b: Frame): Frame
  {
    Frame(a.columns + Where(b.columns, NotIn(a.columns)), a.rows + b.rows)
  }

  function NotIn(cols: seq<string>): string -> bool
  {
    (c: string) => c !in cols
  }

  /** `df[cols]`: the listed columns, in the listed order (every one must exist). */
  function Project(f: Frame, cols: seq<string>): Frame
    requires forall c :: c in cols ==> c in f.columns
  {
    Frame(cols, Each(f.rows, Restrict(cols)))
  }

  // ---- column operations --------------------------------------------------------

  /** Setting a column reads back the new cell there and leaves every other cell. */
  lemma WithColumnCells(f: Frame, c: string, v: Value)
    ensures |WithColumn(f, c, v).rows| == |f.rows|
    ensures forall i, d :: 0 <= i < |f.rows| ==>
      Get(WithColumn(f, c, v).rows[i], d) == if d == c then v else Get(f.rows[i], d)
    ensures forall d :: d in WithColumn(f, c, v).columns <==> d in f.columns || d == c
    ensures RowsWithin(f) ==> RowsWithin(WithColumn(f, c, v))
    ensures WellFormed(f) ==> WellFormed(WithColumn(f, c, v))
  {
    var g := WithColumn(f, c, v);
    if WellFormed(f) && c !in f.columns {
      forall i, j | 0 <= i < j < |g.columns| ensures g.columns[i] != g.columns[j] {
        if j == |f.columns| {
          assert g.columns[i] in f.columns;
        }
      }
    }
  }

  /** A projection holds the listed cells of each row and nothing else. */
  lemma ProjectCells(f: Frame, cols: seq<string>)
    requires forall c :: c in cols ==> c in f.columns
    ensures Project(f, cols).columns == cols && |Project(f, cols).rows| == |f.rows|
    ensures forall i, c :: 0 <= i < |f.rows| ==>
      Get(Project(f, cols).rows[i], c) == if c in cols then Get(f.rows[i], c) else Null
    ensures RowsWithin(Project(f, cols))
    ensures NoDuplicates(cols) ==> WellFormed(Project(f, cols))
  {
  }

  /** A concatenation has the columns of both frames, and its rows hold only those
      when the rows of each frame hold only its own. */
  lemma ConcatColumns(a: Frame, b: Frame)
    ensures forall c :: c in Concat(a, b).columns <==> c in a.columns || c in b.columns
    ensures RowsWithin(a) && RowsWithin(b) ==> RowsWithin(Concat(a, b))
  {
    var cols := Concat(a, b).columns;
    forall c | c in b.columns ensures c in cols {
      if c !in a.columns {
        var i :| 0 <= i < |b.columns| && b.columns[i] == c;
        assert NotIn(a.columns)(b.columns[i]);
      }
    }
    if RowsWithin(a) && RowsWithin(b) {
      forall i, c | 0 <= i < |a.rows + b.rows| && c in (a.rows + b.rows)[i] ensures c in cols {
        if i >= |a.rows| {
          assert (a.rows + b.rows)[i] == b.rows[i - |a.rows|];
        }
      }
    }
  }

  /** A concatenation of well-formed frames is well formed. */
  lemma ConcatWellFormed(a: Frame, b: Frame)
    requires WellFormed(a) && WellFormed(b)
    ensures WellFormed(Concat(a, b))
  {
    ConcatColumns(a, b);
    var nb := Where(b.columns, NotIn(a.columns));
    var cols := a.columns + nb;
    WhereNoDuplicates(b.columns, NotIn(a.columns));
    forall i, j | 0 <= i < j < |cols| ensures cols[i] != cols[j] {
      if i >= |a.columns| {
        assert cols[i] == nb[i - |a.columns|] && cols[j] == nb[j - |a.columns|];
      } else if j >= |a.columns| {
        assert cols[j] in nb;
      }
    }
  }

  lemma EachCons(rows: seq<Row>, g: Row -> Row)
    requires rows != []
    ensures Each(rows, g) == [g(rows[0])] + Each(rows[1..], g)
  {
  }

  /** Rewriting rows without touching their keys commutes with selecting a key. */
  lemma {:induction false} MatchesOfEach(rows: seq<Row>, g: Row -> Row, k: Key)
    requires forall i :: 0 <= i < |rows| ==> KeyOf(g(rows[i])) == KeyOf(rows[i])
    ensures Matches(Each(rows, g), k) == Each(Matches(rows, k), g)
  {
    if rows != [] {
      var t := rows[1..];
      assert forall i :: 0 <= i < |t| ==> KeyOf(g(t[i])) == KeyOf(t[i]) by {
        forall i | 0 <= i < |t| ensures KeyOf(g(t[i])) == KeyOf(t[i]) {
          assert t[i] == rows[i + 1];
        }
      }
      MatchesOfEach(t, g, k);
      EachCons(rows, g);
      var head := g(rows[0]);
      assert KeyOf(head) == KeyOf(rows[0]);
      if KeyOf(rows[0]) == k {
        var m := Matches(rows, k);
        assert m == [rows[0]] + Matches(t, k);
        EachCons(m, g);
        assert m[1..] == Matches(t, k);
      }
    }
  }

  /** Rewriting rows without touching their keys keeps the key set, and the cell of a
      key is the rewritten cell of that key's first row. */
  lemma EachKeys(rows: seq<Row>, g: Row -> Row, k: Key, c: string)
    requires forall i :: 0 <= i < |rows| ==> KeyOf(g(rows[i])) == KeyOf(rows[i])
    ensures KeySet(Each(rows, g)) == KeySet(rows)
    ensures ValueAt(Each(rows, g), k, c) == if Matches(rows, k) == [] then Null else Get(g(Matches(rows, k)[0]), c)
  {
    MatchesOfEach(rows, g, k);
    var e := Each(rows, g);
    forall x | x in KeySet(e) ensures x in KeySet(rows) {
      var r :| r in e && KeyOf(r) == x;
      var i :| 0 <= i < |e| && e[i] == r;
    }
    forall x | x in KeySet(rows) ensures x in KeySet(e) {
      var r :| r in rows && KeyOf(r) == x;
      var i :| 0 <= i < |rows| && rows[i] == r;
      assert e[i] in e;
    }
  }

  /** Setting a value column keeps every row's key; the column then reads v for every
      key present and null for an absent one, and every other column reads as before. */
  lemma WithColumnKeys(f: Frame, c: string, v: Value, k: Key, d: string)
    requires !IsKeyColumn(c)
    ensures forall i :: 0 <= i < |f.rows| ==> KeyOf(WithColumn(f, c, v).rows[i]) == KeyOf(f.rows[i])
    ensures KeySet(WithColumn(f, c, v).rows) == KeySet(f.rows)
    ensures ValueAt(WithColumn(f, c, v).rows, k, d) ==
      if d != c then ValueAt(f.rows, k, d) else if k in KeySet(f.rows) then v else Null
  {
    KeySetMatches(f.rows, k);
    EachKeys(f.rows, SetCell(c, v), k, d);
  }

  /** A projection that keeps the key columns keeps every row's key and the cells of
      the kept columns. */
  lemma ProjectKeys(f: Frame, cols: seq<string>, k: Key, d: string)
    requires forall c :: c in cols ==> c in f.columns
    requires DateCol in cols && SlotCol in cols
    ensures forall i :: 0 <= i < |f.rows| ==> KeyOf(Project(f, cols).rows[i]) == KeyOf(f.rows[i])
    ensures KeySet(Project(f, cols).rows) == KeySet(f.rows)
    ensures d in cols ==> ValueAt(Project(f, cols).rows, k, d) == ValueAt(f.rows, k, d)
  {
    EachKeys(f.rows, Restrict(cols), k, d);
  }

  /** A projection that keeps the key columns keeps keys unique. */
  lemma ProjectUnique(f: Frame, cols: seq<string>)
    requires forall c :: c in cols ==> c in f.columns
    requires DateCol in cols && SlotCol in cols
    requires UniqueKeys(f.rows)
    ensures UniqueKeys(Project(f, cols).rows)
  {
    ProjectKeys(f, cols, Key(Null, Null), DateCol);
    forall k ensures |Matches(Project(f, cols).rows, k)| <= 1 {
      MatchesOfEach(f.rows, Restrict(cols), k);
    }
  }

  // ---- keys -------------------------------------------------------------------

  lemma KeySetAppend(a: seq<Row>, b: seq<Row>)
    ensures KeySet(a + b) == KeySet(a) + KeySet(b)
  {
    assert forall r :: r in a + b <==> r in a || r in b;
  }

  /** Some row has key k exactly when the key's matches are not empty. */
  lemma KeySetMatches(rows: seq<Row>, k: Key)
    ensures k in KeySet(rows) <==> Matches(rows, k) != []
  {
    if k in KeySet(rows) {
      var r :| r in rows && KeyOf(r) == k;
      var i :| 0 <= i < |rows| && rows[i] == r;
      assert HasKey(k)(rows[i]);
    }
    if Matches(rows, k) != [] {
      assert Matches(rows, k)[0] in rows;
    }
  }

  /** A joined row keeps the key of its left row. */
  lemma JoinKey(a: Row, m: Row)
    requires KeyOf(m) == KeyOf(a)
    ensures KeyOf(a + m) == KeyOf(a)
  {
  }

  lemma JoinRowKeys(a: Row, rs: seq<Row>)
    ensures |JoinRow(a, rs)| >= 1
    ensures forall i :: 0 <= i < |JoinRow(a, rs)| ==> KeyOf(JoinRow(a, rs)[i]) == KeyOf(a)
    ensures forall x :: x in JoinRow(a, rs) ==> KeyOf(x) == KeyOf(a)
  {
    var ms := Matches(rs, KeyOf(a));
    forall i | 0 <= i < |ms| ensures KeyOf(a + ms[i]) == KeyOf(a) {
      assert HasKey(KeyOf(a))(ms[i]);
      JoinKey(a, ms[i]);
    }
  }

  lemma {:induction false} LeftRowsKeySet(ls: seq<Row>, rs: seq<Row>)
    ensures KeySet(LeftRows(ls, rs)) == KeySet(ls)
  {
    if ls != [] {
      LeftRowsKeySet(ls[1..], rs);
      JoinRowKeys(ls[0], rs);
      KeySetAppend(JoinRow(ls[0], rs), LeftRows(ls[1..], rs));
      assert KeySet(JoinRow(ls[0], rs)) == {KeyOf(ls[0])} by {
        assert JoinRow(ls[0], rs)[0] in JoinRow(ls[0], rs);
      }
      assert ls == [ls[0]] + ls[1..];
      KeySetAppend([ls[0]], ls[1..]);
    }
  }

  lemma UnmatchedKeySet(ls: seq<Row>, rs: seq<Row>)
    ensures KeySet(Where(rs, Unmatched(ls))) == KeySet(rs) - KeySet(ls)
  {
    var u := Where(rs, Unmatched(ls));
    forall k | k in KeySet(rs) - KeySet(ls) ensures k in KeySet(u) {
      var r :| r in rs && KeyOf(r) == k;
      var i :| 0 <= i < |rs| && rs[i] == r;
      assert Unmatched(ls)(rs[i]);
    }
  }

  /** The keys of a merge: the left keys, and for an outer merge the right keys too;
      no key is lost and none is introduced. */
  lemma MergeKeys(l: Frame, r: Frame, how: JoinMode)
    ensures how == Outer ==> KeySet(Merge(l, r, how).rows) == KeySet(l.rows) + KeySet(r.rows)
    ensures how == Left ==> KeySet(Merge(l, r, how).rows) == KeySet(l.rows)
  {
    LeftRowsKeySet(l.rows, r.rows);
    var u := if how == Outer then Where(r.rows, Unmatched(l.rows)) else [];
    KeySetAppend(LeftRows(l.rows, r.rows), u);
    UnmatchedKeySet(l.rows, r.rows);
    assert KeySet([]) == {};
  }

  // ---- matches of a merge -----------------------------------------------------

  /** Selecting one key of a left-joined table is left-joining the rows of that key. */
  lemma {:induction false} MatchesOfLeftRows(ls: seq<Row>, rs: seq<Row>, k: Key)
    ensures Matches(LeftRows(ls, rs), k) == LeftRows(Matches(ls, k), rs)
  {
    if ls != [] {
      var a := ls[0];
      MatchesOfLeftRows(ls[1..], rs, k);
      WhereAppend(JoinRow(a, rs), LeftRows(ls[1..], rs), HasKey(k));
      JoinRowKeys(a, rs);
      if KeyOf(a) == k {
        WhereAll(JoinRow(a, rs), HasKey(k));
        assert Matches(ls, k) == [a] + Matches(ls[1..], k);
        assert ([a] + Matches(ls[1..], k))[1..] == Matches(ls[1..], k);
      } else {
        WhereNone(JoinRow(a, rs), HasKey(k));
      }
    }
  }

  lemma MatchesOfUnmatched(ls: seq<Row>, rs: seq<Row>, k: Key)
    ensures Matches(Where(rs, Unmatched(ls)), k) == if k in KeySet(ls) then [] else Matches(rs, k)
  {
    if k in KeySet(ls) {
      var u := Where(rs, Unmatched(ls));
      assert forall i :: 0 <= i < |u| ==> !HasKey(k)(u[i]) by {
        forall i | 0 <= i < |u| ensures !HasKey(k)(u[i]) {
          assert Unmatched(ls)(u[i]);
        }
      }
      WhereNone(u, HasKey(k));
    } else {
      WhereThen(rs, Unmatched(ls), HasKey(k), HasKey(k));
    }
  }

  /** The rows of key k in a merge: the left rows of k joined, then (outer, when no left
      row has k) the right rows of k. */
  lemma MatchesOfMerge(l: Frame, r: Frame, how: JoinMode, k: Key)
    ensures Matches(Merge(l, r, how).rows, k) ==
      LeftRows(Matches(l.rows, k), r.rows) + if how == Outer && k !in KeySet(l.rows) then Matches(r.rows, k) else []
  {
    var u := if how == Outer then Where(r.rows, Unmatched(l.rows)) else [];
    WhereAppend(LeftRows(l.rows, r.rows), u, HasKey(k));
    MatchesOfLeftRows(l.rows, r.rows, k);
    if how == Outer {
      MatchesOfUnmatched(l.rows, r.rows, k);
    }
  }

  // ---- cells of a merge -------------------------------------------------------

  /** A value column of one side is not a column of the other side. */
  lemma ValueColumnSides(l: Frame, r: Frame, c: string)
    requires Mergeable(l, r)
    ensures c in ValueColumns(r.columns) ==> c in r.columns && !IsKeyColumn(c) && c !in l.columns
    ensures c in ValueColumns(l.columns) ==> c in l.columns && !IsKeyColumn(c) && c !in r.columns
  {
  }

  lemma RowColumns(f: Frame, x: Row, c: string)
    requires RowsWithin(f) && x in f.rows && c !in f.columns
    ensures Get(x, c) == Null
  {
    var i :| 0 <= i < |f.rows| && f.rows[i] == x;
  }

  /** The first row a left row a contributes to a join: a joined with the first right
      row of its key, or a alone when there is none. */
  function JoinFirst(a: Row, rs: seq<Row>): Row
  {
    var ms := Matches(rs, KeyOf(a));
    if ms == [] then a else a + ms[0]
  }

  lemma FirstJoined(a: Row, rest: seq<Row>, rs: seq<Row>)
    ensures LeftRows([a] + rest, rs) != [] && LeftRows([a] + rest, rs)[0] == JoinFirst(a, rs)
  {
    assert ([a] + rest)[1..] == rest;
  }

  /** The cells of the first joined row: the left row's in its own value columns, the
      right side's for its key in the right value columns. */
  lemma JoinedCell(l: Frame, r: Frame, a: Row, c: string)
    requires Mergeable(l, r) && a in l.rows
    ensures c in ValueColumns(l.columns) ==> Get(JoinFirst(a, r.rows), c) == Get(a, c)
    ensures c in ValueColumns(r.columns) ==> Get(JoinFirst(a, r.rows), c) == ValueAt(r.rows, KeyOf(a), c)
  {
    ValueColumnSides(l, r, c);
    var ms := Matches(r.rows, KeyOf(a));
    if c in ValueColumns(r.columns) {
      RowColumns(l, a, c);
    }
    if ms != [] && c in ValueColumns(l.columns) {
      assert ms[0] in r.rows;
      RowColumns(r, ms[0], c);
    }
  }

  /** The first merged row of a key some left row has comes from the first such left row. */
  lemma FirstMergedRow(l: Frame, r: Frame, how: JoinMode, k: Key)
    requires Matches(l.rows, k) != []
    ensures Matches(Merge(l, r, how).rows, k) != []
    ensures Matches(Merge(l, r, how).rows, k)[0] == JoinFirst(Matches(l.rows, k)[0], r.rows)
  {
    MatchesOfMerge(l, r, how, k);
    var lm := Matches(l.rows, k);
    assert lm == [lm[0]] + lm[1..];
    FirstJoined(lm[0], lm[1..], r.rows);
    KeySetMatches(l.rows, k);
    assert Matches(Merge(l, r, how).rows, k) == LeftRows(lm, r.rows) + [];
  }

  /** The merge's cells for a key some left row has. */
  lemma MergeValuesLeftKey(l: Frame, r: Frame, how: JoinMode, k: Key, c: string)
    requires Mergeable(l, r) && Matches(l.rows, k) != []
    ensures c in ValueColumns(l.columns) ==> ValueAt(Merge(l, r, how).rows, k, c) == ValueAt(l.rows, k, c)
    ensures c in ValueColumns(r.columns) ==> ValueAt(Merge(l, r, how).rows, k, c) == ValueAt(r.rows, k, c)
  {
    FirstMergedRow(l, r, how, k);
    var a := Matches(l.rows, k)[0];
    assert a in l.rows && KeyOf(a) == k by {
      assert HasKey(k)(a);
    }
    JoinedCell(l, r, a, c);
  }

  /** The merge's cells for a key no left row has (outer merges only). */
  lemma MergeValuesRightKey(l: Frame, r: Frame, k: Key, c: string)
    requires Mergeable(l, r) && Matches(l.rows, k) == []
    ensures c in ValueColumns(l.columns) ==> ValueAt(Merge(l, r, Outer).rows, k, c) == ValueAt(l.rows, k, c)
    ensures c in ValueColumns(r.columns) ==> ValueAt(Merge(l, r, Outer).rows, k, c) == ValueAt(r.rows, k, c)
  {
    MatchesOfMerge(l, r, Outer, k);
    KeySetMatches(l.rows, k);
    assert Matches(Merge(l, r, Outer).rows, k) == Matches(r.rows, k);
    ValueColumnSides(l, r, c);
    var rm := Matches(r.rows, k);
    if rm != [] && c in ValueColumns(l.columns) {
      assert rm[0] in r.rows;
      RowColumns(r, rm[0], c);
    }
  }

  /** In a merge, the cell of key k in a value column of either side is that side's
      cell for k, null when that side has no row with key k; for a left merge this
      holds for the keys of the left frame. */
  lemma MergeValues(l: Frame, r: Frame, how: JoinMode, k: Key, c: string)
    requires Mergeable(l, r)
    requires how == Left ==> k in KeySet(l.rows)
    ensures c in ValueColumns(l.columns) ==> ValueAt(Merge(l, r, how).rows, k, c) == ValueAt(l.rows, k, c)
    ensures c in ValueColumns(r.columns) ==> ValueAt(Merge(l, r, how).rows, k, c) == ValueAt(r.rows, k, c)
  {
    KeySetMatches(l.rows, k);
    if Matches(l.rows, k) != [] {
      MergeValuesLeftKey(l, r, how, k, c);
    } else {
      MergeValuesRightKey(l, r, k, c);
    }
  }

  /** An outer merge of two tables without repeated keys has no repeated key, and a
      left merge onto a right table without repeated keys keeps the left rows one for
      one, each with its key. */
  lemma OuterUnique(l: Frame, r: Frame)
    requires UniqueKeys(l.rows) && UniqueKeys(r.rows)
    ensures UniqueKeys(Merge(l, r, Outer).rows)
  {
    forall k ensures |Matches(Merge(l, r, Outer).rows, k)| <= 1 {
      MatchesOfMerge(l, r, Outer, k);
      KeySetMatches(l.rows, k);
      var lm := Matches(l.rows, k);
      if lm != [] {
        assert lm == [lm[0]] + [];
        assert HasKey(k)(lm[0]);
        assert LeftRows(lm, r.rows) == JoinRow(lm[0], r.rows) by {
          assert lm[1..] == [];
        }
      }
    }
  }

  lemma {:induction false} LeftRowsOneEach(ls: seq<Row>, rs: seq<Row>)
    requires UniqueKeys(rs)
    ensures |LeftRows(ls, rs)| == |ls|
    ensures forall i :: 0 <= i < |ls| ==> KeyOf(LeftRows(ls, rs)[i]) == KeyOf(ls[i])
  {
    if ls != [] {
      LeftRowsOneEach(ls[1..], rs);
      JoinRowKeys(ls[0], rs);
      assert |JoinRow(ls[0], rs)| == 1;
      assert JoinRow(ls[0], rs)[0] in JoinRow(ls[0], rs);
      var t := LeftRows(ls, rs);
      forall i | 0 <= i < |ls| ensures KeyOf(t[i]) == KeyOf(ls[i]) {
        if i > 0 {
          assert t[i] == LeftRows(ls[1..], rs)[i - 1];
          assert ls[i] == ls[1..][i - 1];
        }
      }
    }
  }

  /** A left merge onto a table without repeated keys has the left rows' keys, in
      order, one row per left row. */
  lemma LeftMergeRows(l: Frame, r: Frame)
    requires UniqueKeys(r.rows)
    ensures |Merge(l, r, Left).rows| == |l.rows|
    ensures forall i :: 0 <= i < |l.rows| ==> KeyOf(Merge(l, r, Left).rows[i]) == KeyOf(l.rows[i])
  {
    LeftRowsOneEach(l.rows, r.rows);
    assert Merge(l, r, Left).rows == LeftRows(l.rows, r.rows) + [];
  }

  // ---- frame shape ------------------------------------------------------------

  lemma WhereNoDuplicates<T>(s: seq<T>, p: T -> bool)
    requires NoDuplicates(s)
    ensures NoDuplicates(Where(s, p))
  {
    WhereIsSubsequence(s, p);
    SubsequenceNoDuplicates(Where(s, p), s);
  }

  lemma {:induction false} SubsequenceNoDuplicates<T>(a: seq<T>, b: seq<T>)
    requires IsSubsequence(a, b) && NoDuplicates(b)
    ensures NoDuplicates(a)
    decreases |b|
  {
    if b != [] {
      assert NoDuplicates(b[1..]) by {
        forall i, j | 0 <= i < j < |b[1..]| ensures b[1..][i] != b[1..][j] {
          assert b[1..][i] == b[i + 1] && b[1..][j] == b[j + 1];
        }
      }
      if a != [] && a[0] == b[0] && IsSubsequence(a[1..], b[1..]) {
        SubsequenceNoDuplicates(a[1..], b[1..]);
        SubsequenceMembers(a[1..], b[1..]);
        forall j | 0 < j < |a| ensures a[0] != a[j] {
          assert a[j] == a[1..][j - 1];
          assert a[j] in b[1..];
        }
        forall i, j | 0 <= i < j < |a| ensures a[i] != a[j] {
          if i > 0 {
            assert a[i] == a[1..][i - 1] && a[j] == a[1..][j - 1];
          }
        }
      } else {
        SubsequenceNoDuplicates(a, b[1..]);
      }
    }
  }

  lemma {:induction false} SubsequenceMembers<T>(a: seq<T>, b: seq<T>)
    requires IsSubsequence(a, b)
    ensures forall x :: x in a ==> x in b
    decreases |b|
  {
    if b != [] {
      if a != [] && a[0] == b[0] && IsSubsequence(a[1..], b[1..]) {
        SubsequenceMembers(a[1..], b[1..]);
        assert a == [a[0]] + a[1..];
      } else {
        SubsequenceMembers(a, b[1..]);
      }
    }
  }

  /** The columns of a merge: the left ones and the right value columns. */
  lemma MergeColumns(l: Frame, r: Frame, how: JoinMode)
    ensures forall c :: c in Merge(l, r, how).columns <==> c in l.columns || (c in r.columns && !IsKeyColumn(c))
  {
    forall c | c in r.columns && !IsKeyColumn(c) ensures c in ValueColumns(r.columns) {
      var i :| 0 <= i < |r.columns| && r.columns[i] == c;
      assert IsValueColumn(r.columns[i]);
    }
  }

  /** The columns of a merge of frames with distinct columns are distinct. */
  lemma MergeColumnsDistinct(l: Frame, r: Frame)
    requires Mergeable(l, r) && NoDuplicates(l.columns) && NoDuplicates(r.columns)
    ensures NoDuplicates(l.columns + ValueColumns(r.columns))
  {
    var cols := l.columns + ValueColumns(r.columns);
    var vr := ValueColumns(r.columns);
    WhereNoDuplicates(r.columns, IsValueColumn);
    forall i, j | 0 <= i < j < |cols| ensures cols[i] != cols[j] {
      if j >= |l.columns| && i < |l.columns| {
        assert cols[j] in vr;
        ValueColumnSides(l, r, cols[j]);
      } else if i >= |l.columns| {
        assert cols[i] == vr[i - |l.columns|] && cols[j] == vr[j - |l.columns|];
      }
    }
  }

  /** Every column of either side is a column of the merge. */
  lemma MergeColumnsCover(l: Frame, r: Frame, c: string)
    requires Mergeable(l, r) && (c in l.columns || c in r.columns)
    ensures c in l.columns + ValueColumns(r.columns)
  {
    if c !in l.columns {
      var i :| 0 <= i < |r.columns| && r.columns[i] == c;
      assert IsValueColumn(r.columns[i]);
    }
  }

  /** A merge of well-formed mergeable frames is a well-formed frame. */
  lemma MergeWellFormed(l: Frame, r: Frame, how: JoinMode)
    requires Mergeable(l, r) && NoDuplicates(l.columns) && NoDuplicates(r.columns)
    ensures WellFormed(Merge(l, r, how))
  {
    MergeColumnsDistinct(l, r);
    MergeRowsWithin(l, r, how);
  }

  /** The rows of a merge of mergeable frames hold only the merge's columns. */
  lemma MergeRowsWithin(l: Frame, r: Frame, how: JoinMode)
    requires Mergeable(l, r)
    ensures RowsWithin(Merge(l, r, how))
  {
    var m := Merge(l, r, how);
    var lr := LeftRows(l.rows, r.rows);
    forall i, c | 0 <= i < |m.rows| && c in m.rows[i] ensures c in m.columns {
      if i < |lr| {
        assert m.rows[i] in lr;
        LeftRowsFrom(l.rows, r.rows, l, r, m.rows[i]);
      } else {
        assert m.rows[i] in r.rows;
        var j :| 0 <= j < |r.rows| && r.rows[j] == m.rows[i];
      }
      MergeColumnsCover(l, r, c);
    }
  }

  /** Every left-joined row holds only columns of the two sides. */
  lemma {:induction false} LeftRowsFrom(ls: seq<Row>, rs: seq<Row>, l: Frame, r: Frame, x: Row)
    requires Mergeable(l, r)
    requires forall a :: a in ls ==> a in l.rows
    requires rs == r.rows
    requires x in LeftRows(ls, rs)
    ensures forall c :: c in x ==> c in l.columns || c in r.columns
  {
    if ls != [] {
      if x in JoinRow(ls[0], rs) {
        assert ls[0] in l.rows;
        var i :| 0 <= i < |l.rows| && l.rows[i] == ls[0];
        var ms := Matches(rs, KeyOf(ls[0]));
        if ms != [] {
          var j :| 0 <= j < |ms| && x == ls[0] + ms[j];
          assert ms[j] in rs;
          var t :| 0 <= t < |r.rows| && r.rows[t] == ms[j];
        }
      } else {
        assert x in LeftRows(ls[1..], rs);
        LeftRowsFrom(ls[1..], rs, l, r, x);
      }
    }
  }
}
