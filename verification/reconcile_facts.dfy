/** What the reconciliation guarantees: the shape of every intermediate table, the keys
    and cells the merges keep, the epoch tags and the order of the output. */
module ReconcileFacts {
  import opened Wrappers
  import opened Seqs
  import opened Frames
  import opened Normalize
  import opened Reconcile

  /** The frame has exactly the columns cols, and its rows hold only those. */
  ghost predicate Shaped(f: Frame, cols: seq<string>)
  {
    f.columns == cols && RowsWithin(f)
  }

  /** Each source has the columns its normalisation produces, in that order. */
  ghost predicate SourcesShaped(src: Sources)
  {
    && Shaped(src.load, [DateCol, SlotCol, LoadCol])
    && Shaped(src.renewable, [DateCol, SlotCol, WindCol, SolarCol, RenewableCol])
    && Shaped(src.disclosure, [DateCol, SlotCol, NonMarketCol])
    && Shaped(src.tieLine, [DateCol, SlotCol, TieLineCol])
    && Shaped(src.hydro, [DateCol, SlotCol, HydroCol])
    && Shaped(src.actual, [DateCol, SlotCol, LoadCol, WindCol, SolarCol, RenewableCol, HydroCol, NonMarketCol])
    && Shaped(src.tieLineRt, [DateCol, SlotCol, TieLineCol])
    && Shaped(src.price, [DateCol, SlotCol, RealTimePriceCol, DayAheadPriceCol])
  }

  // ---- merging in turn ------------------------------------------------------------

  /** The frames rs can be merged in turn onto a table with the columns seen: each carries
      the key columns and holds only its own columns in its rows, and none repeats a value
      column already present. */
  ghost predicate ChainFrom(seen: seq<string>, rs: seq<Frame>)
    decreases |rs|
  {
    rs != [] ==>
      && RowsWithin(rs[0]) && DateCol in rs[0].columns && SlotCol in rs[0].columns
      && (forall c :: c in rs[0].columns && c in seen ==> IsKeyColumn(c))
      && ChainFrom(seen + rs[0].columns, rs[1..])
  }

  /** f and then each of rs can be merged in turn. */
  ghost predicate Chainable(f: Frame, rs: seq<Frame>)
  {
    RowsWithin(f) && DateCol in f.columns && SlotCol in f.columns && ChainFrom(f.columns, rs)
  }

  /** A chain onto more columns is a chain onto fewer. */
  lemma {:induction false} ChainFromFewer(seen: seq<string>, fewer: seq<string>, rs: seq<Frame>)
    requires ChainFrom(seen, rs)
    requires forall c :: c in fewer ==> c in seen
    ensures ChainFrom(fewer, rs)
    decreases |rs|
  {
    if rs != [] {
      ChainFromFewer(seen + rs[0].columns, fewer + rs[0].columns, rs[1..]);
    }
  }

  /** A chain grows at the front by a frame whose value columns are all new. */
  lemma ChainCons(seen: seq<string>, r: Frame, rs: seq<Frame>)
    requires RowsWithin(r) && DateCol in r.columns && SlotCol in r.columns
    requires forall c :: c in r.columns && c in seen ==> IsKeyColumn(c)
    requires ChainFrom(seen + r.columns, rs)
    ensures ChainFrom(seen, [r] + rs)
  {
    assert ([r] + rs)[1..] == rs;
  }

  /** The columns of all the frames rs, in order. */
  function PartColumns(rs: seq<Frame>): seq<string>
  {
    if rs == [] then [] else rs[0].columns + PartColumns(rs[1..])
  }

  /** The keys of all the frames rs. */
  function PartKeys(rs: seq<Frame>): set<Key>
  {
    if rs == [] then {} else KeySet(rs[0].rows) + PartKeys(rs[1..])
  }

  lemma ValueColumnsMembers(cols: seq<string>, c: string)
    ensures c in ValueColumns(cols) <==> c in cols && !IsKeyColumn(c)
  {
    if c in cols && !IsKeyColumn(c) {
      var i :| 0 <= i < |cols| && cols[i] == c;
      assert IsValueColumn(cols[i]);
    }
  }

  /** The first merge of a chain is a merge of mergeable frames, and what remains is a
      chain again. */
  lemma ChainStep(f: Frame, rs: seq<Frame>, how: JoinMode)
    requires Chainable(f, rs) && rs != []
    ensures Mergeable(f, rs[0]) && Chainable(Merge(f, rs[0], how), rs[1..])
  {
    MergeColumns(f, rs[0], how);
    MergeRowsWithin(f, rs[0], how);
    ChainFromFewer(f.columns + rs[0].columns, Merge(f, rs[0], how).columns, rs[1..]);
  }

  /** A chain of merges has the first frame's columns and the value columns of the
      others, and its rows hold only those. */
  lemma {:induction false} MergeAllColumns(f: Frame, rs: seq<Frame>, how: JoinMode)
    requires Chainable(f, rs)
    ensures RowsWithin(MergeAll(f, rs, how))
    ensures forall c :: c in MergeAll(f, rs, how).columns <==> c in f.columns || (c in PartColumns(rs) && !IsKeyColumn(c))
    decreases |rs|
  {
    if rs != [] {
      ChainStep(f, rs, how);
      MergeColumns(f, rs[0], how);
      MergeAllColumns(Merge(f, rs[0], how), rs[1..], how);
    }
  }

  /** Outer merges keep every key of every frame; left merges keep exactly the keys of
      the first frame. */
  lemma {:induction false} MergeAllKeys(f: Frame, rs: seq<Frame>, how: JoinMode)
    ensures how == Outer ==> KeySet(MergeAll(f, rs, how).rows) == KeySet(f.rows) + PartKeys(rs)
    ensures how == Left ==> KeySet(MergeAll(f, rs, how).rows) == KeySet(f.rows)
    decreases |rs|
  {
    if rs != [] {
      MergeKeys(f, rs[0], how);
      MergeAllKeys(Merge(f, rs[0], how), rs[1..], how);
    }
  }

  /** Left merges onto frames whose keys are unique keep the first frame's rows one for
      one, each with its key. */
  lemma {:induction false} MergeAllRows(f: Frame, rs: seq<Frame>)
    requires forall i :: 0 <= i < |rs| ==> UniqueKeys(rs[i].rows)
    ensures |MergeAll(f, rs, Left).rows| == |f.rows|
    ensures forall i :: 0 <= i < |f.rows| ==> KeyOf(MergeAll(f, rs, Left).rows[i]) == KeyOf(f.rows[i])
    decreases |rs|
  {
    if rs != [] {
      LeftMergeRows(f, rs[0]);
      assert forall i :: 0 <= i < |rs[1..]| ==> UniqueKeys(rs[1..][i].rows) by {
        forall i | 0 <= i < |rs[1..]| ensures UniqueKeys(rs[1..][i].rows) {
          assert rs[1..][i] == rs[i + 1];
        }
      }
      MergeAllRows(Merge(f, rs[0], Left), rs[1..]);
    }
  }

  /** In a chain of merges, the cell of key k in a value column is the cell of k in the
      frame that column comes from, null when that frame lacks k; for left merges this
      holds for the keys of the first frame. */
  lemma {:induction false} MergeAllValues(f: Frame, rs: seq<Frame>, how: JoinMode, k: Key, c: string)
    requires Chainable(f, rs)
    requires how == Left ==> k in KeySet(f.rows)
    ensures c in f.columns && !IsKeyColumn(c) ==> ValueAt(MergeAll(f, rs, how).rows, k, c) == ValueAt(f.rows, k, c)
    ensures forall i :: 0 <= i < |rs| && c in rs[i].columns && !IsKeyColumn(c) ==>
      ValueAt(MergeAll(f, rs, how).rows, k, c) == ValueAt(rs[i].rows, k, c)
    decreases |rs|
  {
    if rs != [] {
      var g := Merge(f, rs[0], how);
      ChainStep(f, rs, how);
      MergeColumns(f, rs[0], how);
      MergeKeys(f, rs[0], how);
      ValueColumnsMembers(f.columns, c);
      ValueColumnsMembers(rs[0].columns, c);
      MergeValues(f, rs[0], how, k, c);
      MergeAllValues(g, rs[1..], how, k, c);
      forall i | 1 <= i < |rs| && c in rs[i].columns && !IsKeyColumn(c)
        ensures ValueAt(MergeAll(f, rs, how).rows, k, c) == ValueAt(rs[i].rows, k, c)
      {
        assert rs[1..][i - 1] == rs[i];
      }
    }
  }

  // ---- the day-ahead epoch ----------------------------------------------------------

  /** The last three day-ahead sources can be merged in turn onto the columns of the
      first three. */
  lemma DayAheadChainTail(src: Sources)
    requires SourcesShaped(src)
    ensures HasPrices(src)
    ensures ChainFrom(src.load.columns + src.renewable.columns + src.disclosure.columns,
                      [src.tieLine, src.hydro, PriceColumn(src, DayAheadPriceCol)])
  {
    var p := PriceColumn(src, DayAheadPriceCol);
    ProjectCells(src.price, [DateCol, SlotCol, DayAheadPriceCol]);
    var s2 := src.load.columns + src.renewable.columns + src.disclosure.columns;
    var s3 := s2 + src.tieLine.columns;
    var s4 := s3 + src.hydro.columns;
    ChainCons(s4, p, []);
    ChainCons(s3, src.hydro, [p]);
    ChainCons(s2, src.tieLine, [src.hydro, p]);
  }

  /** The sources of the day-ahead epoch form a chain of merges. */
  lemma DayAheadChainable(src: Sources)
    requires SourcesShaped(src)
    ensures HasPrices(src) && Chainable(src.load, DayAheadParts(src))
  {
    DayAheadChainTail(src);
    var p := PriceColumn(src, DayAheadPriceCol);
    var s1 := src.load.columns + src.renewable.columns;
    ChainCons(s1, src.disclosure, [src.tieLine, src.hydro, p]);
    ChainCons(src.load.columns, src.renewable, [src.disclosure, src.tieLine, src.hydro, p]);
    assert DayAheadParts(src) == [src.renewable] + [src.disclosure, src.tieLine, src.hydro, p];
  }

  /** The keys of the day-ahead sources merged onto the load forecast. */
  lemma DayAheadPartKeys(src: Sources)
    requires HasPrices(src)
    ensures PartKeys(DayAheadParts(src)) ==
      KeySet(src.renewable.rows) + KeySet(src.disclosure.rows) + KeySet(src.tieLine.rows) +
      KeySet(src.hydro.rows) + KeySet(src.price.rows)
  {
    var p := PriceColumn(src, DayAheadPriceCol);
    ProjectKeys(src.price, [DateCol, SlotCol, DayAheadPriceCol], Key(Null, Null), DateCol);
    assert PartKeys([p]) == KeySet(p.rows) by {
      assert [p][1..] == [];
    }
    assert PartKeys([src.hydro, p]) == KeySet(src.hydro.rows) + PartKeys([p]) by {
      assert [src.hydro, p][1..] == [p];
    }
    assert PartKeys([src.tieLine, src.hydro, p]) == KeySet(src.tieLine.rows) + PartKeys([src.hydro, p]) by {
      assert [src.tieLine, src.hydro, p][1..] == [src.hydro, p];
    }
    assert PartKeys([src.disclosure, src.tieLine, src.hydro, p]) ==
      KeySet(src.disclosure.rows) + PartKeys([src.tieLine, src.hydro, p]) by {
      assert [src.disclosure, src.tieLine, src.hydro, p][1..] == [src.tieLine, src.hydro, p];
    }
    assert DayAheadParts(src)[1..] == [src.disclosure, src.tieLine, src.hydro, p];
  }

  /** The outer merges keep every (date, slot) of every day-ahead source, and no other. */
  lemma DayAheadMergedKeys(src: Sources)
    requires HasPrices(src)
    ensures KeySet(DayAheadMerged(src).rows) ==
      KeySet(src.load.rows) + KeySet(src.renewable.rows) + KeySet(src.disclosure.rows) +
      KeySet(src.tieLine.rows) + KeySet(src.hydro.rows) + KeySet(src.price.rows)
  {
    MergeAllKeys(src.load, DayAheadParts(src), Outer);
    DayAheadPartKeys(src);
  }

  /** Tagging keeps every row's key: the day-ahead table has the keys of the merge. */
  lemma DayAheadKeys(src: Sources)
    requires HasPrices(src)
    ensures KeySet(DayAheadFrame(src).rows) == KeySet(DayAheadMerged(src).rows)
  {
    var m := DayAheadMerged(src);
    var t := WithColumn(m, EpochCol, Label(DayAhead));
    WithColumnKeys(m, EpochCol, Label(DayAhead), Key(Null, Null), DateCol);
    WithColumnKeys(t, CapacityCol, CapacityValue(src.capacity), Key(Null, Null), DateCol);
  }

  /** Tagging leaves the merged cells, and reads the tag and the capacity at every key
      present. */
  lemma DayAheadTagging(src: Sources, k: Key, d: string)
    requires HasPrices(src)
    ensures d != EpochCol && d != CapacityCol ==> ValueAt(DayAheadFrame(src).rows, k, d) == ValueAt(DayAheadMerged(src).rows, k, d)
    ensures ValueAt(DayAheadFrame(src).rows, k, EpochCol) == if k in KeySet(DayAheadMerged(src).rows) then Label(DayAhead) else Null
    ensures ValueAt(DayAheadFrame(src).rows, k, CapacityCol) ==
      if k in KeySet(DayAheadMerged(src).rows) then CapacityValue(src.capacity) else Null
  {
    var m := DayAheadMerged(src);
    var t := WithColumn(m, EpochCol, Label(DayAhead));
    WithColumnKeys(m, EpochCol, Label(DayAhead), k, d);
    WithColumnKeys(m, EpochCol, Label(DayAhead), k, EpochCol);
    WithColumnKeys(t, CapacityCol, CapacityValue(src.capacity), k, d);
    WithColumnKeys(t, CapacityCol, CapacityValue(src.capacity), k, EpochCol);
    WithColumnKeys(t, CapacityCol, CapacityValue(src.capacity), k, CapacityCol);
  }

  /** Each value column of the merged day-ahead table holds, at every key, the cell of
      the source it comes from (null where that source lacks the key). */
  lemma DayAheadMergedValues(src: Sources, k: Key, c: string)
    requires SourcesShaped(src) && !IsKeyColumn(c)
    ensures c in src.load.columns ==> ValueAt(DayAheadMerged(src).rows, k, c) == ValueAt(src.load.rows, k, c)
    ensures c in src.renewable.columns ==> ValueAt(DayAheadMerged(src).rows, k, c) == ValueAt(src.renewable.rows, k, c)
    ensures c in src.disclosure.columns ==> ValueAt(DayAheadMerged(src).rows, k, c) == ValueAt(src.disclosure.rows, k, c)
    ensures c in src.tieLine.columns ==> ValueAt(DayAheadMerged(src).rows, k, c) == ValueAt(src.tieLine.rows, k, c)
    ensures c in src.hydro.columns ==> ValueAt(DayAheadMerged(src).rows, k, c) == ValueAt(src.hydro.rows, k, c)
    ensures c == DayAheadPriceCol ==> ValueAt(DayAheadMerged(src).rows, k, c) == ValueAt(src.price.rows, k, c)
  {
    DayAheadChainable(src);
    var parts := DayAheadParts(src);
    MergeAllValues(src.load, parts, Outer, k, c);
    assert parts[0] == src.renewable && parts[1] == src.disclosure && parts[2] == src.tieLine && parts[3] == src.hydro;
    var p := PriceColumn(src, DayAheadPriceCol);
    assert parts[4] == p;
    ProjectKeys(src.price, [DateCol, SlotCol, DayAheadPriceCol], k, c);
  }

  /** The columns of the day-ahead sources merged onto the load forecast. */
  lemma DayAheadPartColumns(src: Sources)
    requires SourcesShaped(src)
    ensures HasPrices(src)
    ensures PartColumns(DayAheadParts(src)) ==
      [DateCol, SlotCol, WindCol, SolarCol, RenewableCol, DateCol, SlotCol, NonMarketCol, DateCol, SlotCol, TieLineCol,
       DateCol, SlotCol, HydroCol, DateCol, SlotCol, DayAheadPriceCol]
  {
    var p := PriceColumn(src, DayAheadPriceCol);
    ProjectCells(src.price, [DateCol, SlotCol, DayAheadPriceCol]);
    FiveParts(src.renewable, src.disclosure, src.tieLine, src.hydro, p);
  }

  /** The columns of five frames, in order. */
  lemma FiveParts(a: Frame, b: Frame, c: Frame, d: Frame, e: Frame)
    ensures PartColumns([a, b, c, d, e]) == a.columns + b.columns + c.columns + d.columns + e.columns
  {
    assert [e][1..] == [];
    assert PartColumns([e]) == e.columns + [] == e.columns;
    assert [d, e][1..] == [e];
    assert PartColumns([d, e]) == d.columns + e.columns;
    assert [c, d, e][1..] == [d, e];
    assert PartColumns([c, d, e]) == c.columns + d.columns + e.columns;
    assert [b, c, d, e][1..] == [c, d, e];
    assert PartColumns([b, c, d, e]) == b.columns + c.columns + d.columns + e.columns;
    assert [a, b, c, d, e][1..] == [b, c, d, e];
  }

  /** The merged day-ahead table has the key columns, the load and the day-ahead source
      columns and the day-ahead price, and its rows hold only those. */
  lemma DayAheadMergedColumns(src: Sources)
    requires SourcesShaped(src)
    ensures RowsWithin(DayAheadMerged(src))
    ensures forall c :: c in DayAheadMerged(src).columns <==>
      c in [DateCol, SlotCol, LoadCol, WindCol, SolarCol, RenewableCol, NonMarketCol, TieLineCol, HydroCol, DayAheadPriceCol]
  {
    DayAheadChainable(src);
    MergeAllColumns(src.load, DayAheadParts(src), Outer);
    DayAheadPartColumns(src);
    DayAheadColumnNames();
  }

  /** The load forecast's columns and the non-key columns of the day-ahead sources are
      the ten day-ahead columns. */
  lemma DayAheadColumnNames()
    ensures forall c ::
      (c in [DateCol, SlotCol, LoadCol] ||
       (c in [DateCol, SlotCol, WindCol, SolarCol, RenewableCol, DateCol, SlotCol, NonMarketCol, DateCol, SlotCol, TieLineCol,
              DateCol, SlotCol, HydroCol, DateCol, SlotCol, DayAheadPriceCol] && !IsKeyColumn(c))) <==>
      c in [DateCol, SlotCol, LoadCol, WindCol, SolarCol, RenewableCol, NonMarketCol, TieLineCol, HydroCol, DayAheadPriceCol]
  {
  }

  /** The columns the reconciliation adds, or only the real-time epoch fills, are none
      of the day-ahead columns. */
  lemma DayAheadLacks()
    ensures forall c :: c in [RealTimePriceCol, BidSpaceCol, LoadRateCol, EpochCol, CapacityCol] ==>
      c !in [DateCol, SlotCol, LoadCol, WindCol, SolarCol, RenewableCol, NonMarketCol, TieLineCol, HydroCol, DayAheadPriceCol]
  {
  }

  /** The merged day-ahead table has only output columns, and none of those the real-time
      epoch or the tagging fills. */
  lemma DayAheadMergedAbsent(src: Sources)
    requires SourcesShaped(src)
    ensures RowsWithin(DayAheadMerged(src))
    ensures forall c :: c in DayAheadMerged(src).columns ==> c in OutputColumns
    ensures RealTimePriceCol !in DayAheadMerged(src).columns && BidSpaceCol !in DayAheadMerged(src).columns
    ensures LoadRateCol !in DayAheadMerged(src).columns && EpochCol !in DayAheadMerged(src).columns
    ensures CapacityCol !in DayAheadMerged(src).columns
  {
    DayAheadMergedColumns(src);
    DayAheadLacks();
  }

  /** A column a frame lacks reads null in every row. */
  lemma ColumnNulls(f: Frame, c: string)
    requires RowsWithin(f) && c !in f.columns
    ensures forall i :: 0 <= i < |f.rows| ==> Get(f.rows[i], c) == Null
  {
    forall i | 0 <= i < |f.rows| ensures Get(f.rows[i], c) == Null {
      RowColumns(f, f.rows[i], c);
    }
  }

  /** The cells every day-ahead row carries: the epoch tag, the capacity, and null in the
      columns only the real-time epoch or no source fills. */
  predicate DayAheadTagged(x: Row, capacity: Value)
  {
    && Get(x, EpochCol) == Label(DayAhead) && Get(x, CapacityCol) == capacity
    && Get(x, RealTimePriceCol) == Null && Get(x, BidSpaceCol) == Null && Get(x, LoadRateCol) == Null
  }

  /** Every row carries the day-ahead tags. */
  predicate AllDayAhead(rows: seq<Row>, capacity: Value)
  {
    forall i :: 0 <= i < |rows| ==> DayAheadTagged(rows[i], capacity)
  }

  /** Every row of the day-ahead table is tagged `日前`, carries the online capacity, and has
      no real-time price, bid space or load rate. */
  lemma DayAheadRowTags(src: Sources)
    requires SourcesShaped(src)
    ensures AllDayAhead(DayAheadFrame(src).rows, CapacityValue(src.capacity))
  {
    var m := DayAheadMerged(src);
    var t := WithColumn(m, EpochCol, Label(DayAhead));
    DayAheadMergedAbsent(src);
    WithColumnCells(m, EpochCol, Label(DayAhead));
    WithColumnCells(t, CapacityCol, CapacityValue(src.capacity));
    ColumnNulls(m, RealTimePriceCol);
    ColumnNulls(m, BidSpaceCol);
    ColumnNulls(m, LoadRateCol);
  }

  /** The day-ahead table has only output columns, and its rows hold only those. */
  lemma DayAheadFrameColumns(src: Sources)
    requires SourcesShaped(src)
    ensures RowsWithin(DayAheadFrame(src))
    ensures forall c :: c in DayAheadFrame(src).columns ==> c in OutputColumns
  {
    var m := DayAheadMerged(src);
    DayAheadMergedAbsent(src);
    WithColumnCells(m, EpochCol, Label(DayAhead));
    WithColumnCells(WithColumn(m, EpochCol, Label(DayAhead)), CapacityCol, CapacityValue(src.capacity));
  }

  // ---- the real-time epoch ----------------------------------------------------------

  /** The sources of the real-time epoch form a chain of merges. */
  lemma RealTimeChainable(src: Sources)
    requires SourcesShaped(src)
    ensures HasPrices(src) && Chainable(src.actual, RealTimeParts(src))
  {
    var p := PriceColumn(src, RealTimePriceCol);
    ProjectCells(src.price, [DateCol, SlotCol, RealTimePriceCol]);
    ChainCons(src.actual.columns + src.tieLineRt.columns, p, []);
    ChainCons(src.actual.columns, src.tieLineRt, [p]);
    assert RealTimeParts(src) == [src.tieLineRt] + [p];
  }

  /** When the real-time tie-line plan and the prices hold each (date, slot) at most once,
      the left merges keep the telemetry rows one for one, each with its key. */
  lemma RealTimeRows(src: Sources)
    requires HasPrices(src) && UniqueKeys(src.tieLineRt.rows) && UniqueKeys(src.price.rows)
    ensures |RealTimeFrame(src).rows| == |src.actual.rows|
    ensures forall i :: 0 <= i < |src.actual.rows| ==> KeyOf(RealTimeFrame(src).rows[i]) == KeyOf(src.actual.rows[i])
  {
    ProjectUnique(src.price, [DateCol, SlotCol, RealTimePriceCol]);
    var parts := RealTimeParts(src);
    assert parts[0] == src.tieLineRt && parts[1] == PriceColumn(src, RealTimePriceCol);
    MergeAllRows(src.actual, parts);
    WithColumnKeys(RealTimeMerged(src), EpochCol, Label(RealTime), Key(Null, Null), DateCol);
  }

  /** The left merges keep exactly the telemetry's keys. */
  lemma RealTimeKeys(src: Sources)
    requires HasPrices(src)
    ensures KeySet(RealTimeFrame(src).rows) == KeySet(src.actual.rows)
  {
    MergeAllKeys(src.actual, RealTimeParts(src), Left);
    WithColumnKeys(RealTimeMerged(src), EpochCol, Label(RealTime), Key(Null, Null), DateCol);
  }

  /** At each telemetry key, every value column of the merged real-time table holds the
      cell of the source it comes from (null where the tie-line plan or the prices lack
      the key). */
  lemma RealTimeMergedValues(src: Sources, k: Key, c: string)
    requires SourcesShaped(src) && !IsKeyColumn(c) && k in KeySet(src.actual.rows)
    ensures c in src.actual.columns ==> ValueAt(RealTimeMerged(src).rows, k, c) == ValueAt(src.actual.rows, k, c)
    ensures c in src.tieLineRt.columns ==> ValueAt(RealTimeMerged(src).rows, k, c) == ValueAt(src.tieLineRt.rows, k, c)
    ensures c == RealTimePriceCol ==> ValueAt(RealTimeMerged(src).rows, k, c) == ValueAt(src.price.rows, k, c)
  {
    RealTimeChainable(src);
    var parts := RealTimeParts(src);
    MergeAllValues(src.actual, parts, Left, k, c);
    assert parts[0] == src.tieLineRt && parts[1] == PriceColumn(src, RealTimePriceCol);
    ProjectKeys(src.price, [DateCol, SlotCol, RealTimePriceCol], k, c);
  }

  /** Tagging leaves the merged cells and reads the tag at every telemetry key. */
  lemma RealTimeTagging(src: Sources, k: Key, d: string)
    requires HasPrices(src)
    ensures d != EpochCol ==> ValueAt(RealTimeFrame(src).rows, k, d) == ValueAt(RealTimeMerged(src).rows, k, d)
    ensures ValueAt(RealTimeFrame(src).rows, k, EpochCol) == if k in KeySet(src.actual.rows) then Label(RealTime) else Null
  {
    MergeAllKeys(src.actual, RealTimeParts(src), Left);
    WithColumnKeys(RealTimeMerged(src), EpochCol, Label(RealTime), k, d);
    WithColumnKeys(RealTimeMerged(src), EpochCol, Label(RealTime), k, EpochCol);
  }

  /** The merged real-time table has the key columns, the telemetry columns, the tie-line
      plan and the real-time price, and its rows hold only those. */
  lemma RealTimeMergedColumns(src: Sources)
    requires SourcesShaped(src)
    ensures RowsWithin(RealTimeMerged(src))
    ensures forall c :: c in RealTimeMerged(src).columns <==>
      c in [DateCol, SlotCol, LoadCol, WindCol, SolarCol, RenewableCol, HydroCol, NonMarketCol, TieLineCol, RealTimePriceCol]
  {
    RealTimeChainable(src);
    var p := PriceColumn(src, RealTimePriceCol);
    ProjectCells(src.price, [DateCol, SlotCol, RealTimePriceCol]);
    MergeAllColumns(src.actual, RealTimeParts(src), Left);
    assert PartColumns([p]) == p.columns by {
      assert [p][1..] == [];
    }
    assert RealTimeParts(src)[1..] == [p];
  }

  /** The merged real-time table has only output columns, and none of those the day-ahead
      epoch or the tagging fills. */
  lemma RealTimeMergedAbsent(src: Sources)
    requires SourcesShaped(src)
    ensures RowsWithin(RealTimeMerged(src))
    ensures forall c :: c in RealTimeMerged(src).columns ==> c in OutputColumns
    ensures DayAheadPriceCol !in RealTimeMerged(src).columns && BidSpaceCol !in RealTimeMerged(src).columns
    ensures LoadRateCol !in RealTimeMerged(src).columns && CapacityCol !in RealTimeMerged(src).columns
  {
    RealTimeMergedColumns(src);
  }

  /** The cells every real-time row carries: the epoch tag, and null in the columns only
      the day-ahead epoch or no source fills. */
  predicate RealTimeTagged(x: Row)
  {
    && Get(x, EpochCol) == Label(RealTime) && Get(x, CapacityCol) == Null
    && Get(x, DayAheadPriceCol) == Null && Get(x, BidSpaceCol) == Null && Get(x, LoadRateCol) == Null
  }

  /** Every row carries the real-time tags. */
  predicate AllRealTime(rows: seq<Row>)
  {
    forall i :: 0 <= i < |rows| ==> RealTimeTagged(rows[i])
  }

  /** Every row of the real-time table is tagged `实时` and has no capacity, day-ahead
      price, bid space or load rate. */
  lemma RealTimeRowTags(src: Sources)
    requires SourcesShaped(src)
    ensures AllRealTime(RealTimeFrame(src).rows)
  {
    var m := RealTimeMerged(src);
    RealTimeMergedAbsent(src);
    WithColumnCells(m, EpochCol, Label(RealTime));
    ColumnNulls(m, CapacityCol);
    ColumnNulls(m, DayAheadPriceCol);
    ColumnNulls(m, BidSpaceCol);
    ColumnNulls(m, LoadRateCol);
  }

  /** The real-time table has only output columns, and its rows hold only those. */
  lemma RealTimeFrameColumns(src: Sources)
    requires SourcesShaped(src)
    ensures RowsWithin(RealTimeFrame(src))
    ensures forall c :: c in RealTimeFrame(src).columns ==> c in OutputColumns
  {
    RealTimeMergedAbsent(src);
    WithColumnCells(RealTimeMerged(src), EpochCol, Label(RealTime));
  }

  // ---- stacking, completing and ordering ----------------------------------------------

  /** Completing a frame to columns that include its own and projecting onto them
      keeps every cell of every row. */
  lemma CompleteCells(f: Frame, cols: seq<string>)
    requires RowsWithin(f) && forall c :: c in f.columns ==> c in cols
    ensures Project(FillColumns(f, cols), cols).columns == cols
    ensures |Project(FillColumns(f, cols), cols).rows| == |f.rows|
    ensures forall i, c :: 0 <= i < |f.rows| ==>
      Get(Project(FillColumns(f, cols), cols).rows[i], c) == Get(f.rows[i], c)
  {
    var g := FillColumns(f, cols);
    FillColumnsCells(f, cols);
    ProjectCells(g, cols);
    forall i, c | 0 <= i < |f.rows| && c !in cols ensures Get(f.rows[i], c) == Null {
      RowColumns(f, f.rows[i], c);
    }
  }

  /** st is da followed by rt, cell for cell. */
  ghost predicate Stacks(st: seq<Row>, da: seq<Row>, rt: seq<Row>)
  {
    && |st| == |da| + |rt|
    && (forall i, c :: 0 <= i < |da| ==> Get(st[i], c) == Get(da[i], c))
    && (forall i, c :: 0 <= i < |rt| ==> Get(st[|da| + i], c) == Get(rt[i], c))
  }

  /** The stacked table has the output columns, and its rows are the day-ahead rows
      followed by the real-time rows, with every cell of each. */
  lemma StackedCells(src: Sources)
    requires SourcesShaped(src)
    ensures Stacked(src).columns == OutputColumns
    ensures Stacks(Stacked(src).rows, DayAheadFrame(src).rows, RealTimeFrame(src).rows)
  {
    var da, rt := DayAheadFrame(src), RealTimeFrame(src);
    DayAheadFrameColumns(src);
    RealTimeFrameColumns(src);
    ConcatColumns(da, rt);
    CompleteCells(Combined(src), OutputColumns);
    assert Combined(src).rows == da.rows + rt.rows;
  }

  /** Rows that agree cell by cell with tagged rows carry the same tags. */
  lemma TagsCarry(st: seq<Row>, da: seq<Row>, rt: seq<Row>, capacity: Value)
    requires Stacks(st, da, rt) && AllDayAhead(da, capacity) && AllRealTime(rt)
    ensures forall i :: 0 <= i < |st| ==> if i < |da| then DayAheadTagged(st[i], capacity) else RealTimeTagged(st[i])
  {
    forall i | |da| <= i < |st| ensures RealTimeTagged(st[i]) {
      assert st[|da| + (i - |da|)] == st[i];
      assert RealTimeTagged(rt[i - |da|]);
    }
  }

  /** The first rows of the stack carry the day-ahead tags, the rest the real-time tags. */
  lemma StackedTags(src: Sources)
    requires SourcesShaped(src)
    ensures forall i :: 0 <= i < |Stacked(src).rows| ==>
      if i < |DayAheadFrame(src).rows| then DayAheadTagged(Stacked(src).rows[i], CapacityValue(src.capacity))
      else RealTimeTagged(Stacked(src).rows[i])
  {
    StackedCells(src);
    DayAheadRowTags(src);
    RealTimeRowTags(src);
    TagsCarry(Stacked(src).rows, DayAheadFrame(src).rows, RealTimeFrame(src).rows, CapacityValue(src.capacity));
  }

  /** Sorting rows that each carry one of the epoch tags keeps every row, and so every
      tag. */
  lemma SortKeepsTags(rows: seq<Row>, n: int, capacity: Value)
    requires forall i :: 0 <= i < |rows| ==> if i < n then DayAheadTagged(rows[i], capacity) else RealTimeTagged(rows[i])
    ensures multiset(SortRows(rows)) == multiset(rows) && |SortRows(rows)| == |rows|
    ensures forall x :: x in SortRows(rows) ==> DayAheadTagged(x, capacity) || RealTimeTagged(x)
  {
    SortRowsCorrect(rows);
    assert |SortRows(rows)| == |multiset(SortRows(rows))| == |multiset(rows)| == |rows|;
    forall x | x in SortRows(rows) ensures DayAheadTagged(x, capacity) || RealTimeTagged(x) {
      assert x in multiset(rows);
      var i :| 0 <= i < |rows| && rows[i] == x;
    }
  }

  /** The reconciled table is a reordering of the stack: the same rows, as many as both
      epochs together, each tagged with its epoch. */
  lemma ReconciledRows(src: Sources)
    requires SourcesShaped(src)
    ensures Reconciled(src).columns == OutputColumns
    ensures multiset(Reconciled(src).rows) == multiset(Stacked(src).rows)
    ensures |Reconciled(src).rows| == |DayAheadFrame(src).rows| + |RealTimeFrame(src).rows|
    ensures forall x :: x in Reconciled(src).rows ==> DayAheadTagged(x, CapacityValue(src.capacity)) || RealTimeTagged(x)
  {
    StackedCells(src);
    StackedTags(src);
    SortKeepsTags(Stacked(src).rows, |DayAheadFrame(src).rows|, CapacityValue(src.capacity));
  }

  /** In sorted rows of both epochs, all day-ahead rows come before all real-time rows,
      and within an epoch dates do not decrease. */
  lemma {:induction false} SortedEpochs(rows: seq<Row>, capacity: Value)
    requires Sorted(rows)
    requires forall x :: x in rows ==> DayAheadTagged(x, capacity) || RealTimeTagged(x)
    ensures forall i, j :: 0 <= i < j < |rows| && RealTimeTagged(rows[i]) ==> RealTimeTagged(rows[j])
    ensures forall i, j :: 0 <= i < j < |rows| && EpochRank(rows[i]) == EpochRank(rows[j]) ==>
      OptLe(DateRank(rows[i]), DateRank(rows[j]))
  {
    forall i, j | 0 <= i < j < |rows| && RealTimeTagged(rows[i]) ensures RealTimeTagged(rows[j]) {
      assert RowLe(rows[i], rows[j]);
      assert rows[j] in rows;
    }
  }

  /** The reconciled table is sorted by epoch, date and slot: all day-ahead rows come
      before all real-time rows, and within an epoch dates do not decrease, with rows of
      unparseable dates or slots after the others. */
  lemma ReconciledOrder(src: Sources)
    requires SourcesShaped(src)
    ensures Sorted(Reconciled(src).rows)
    ensures forall i, j :: 0 <= i < j < |Reconciled(src).rows| && RealTimeTagged(Reconciled(src).rows[i]) ==>
      RealTimeTagged(Reconciled(src).rows[j])
    ensures forall i, j :: 0 <= i < j < |Reconciled(src).rows| && EpochRank(Reconciled(src).rows[i]) == EpochRank(Reconciled(src).rows[j]) ==>
      OptLe(DateRank(Reconciled(src).rows[i]), DateRank(Reconciled(src).rows[j]))
  {
    SortRowsCorrect(Stacked(src).rows);
    ReconciledRows(src);
    SortedEpochs(Reconciled(src).rows, CapacityValue(src.capacity));
  }
}
