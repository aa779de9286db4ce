/** The whole preprocessing run: the nine workbooks read in the code's order (each
    source normalised, the capacity taken from the clearing summary), then
    reconciled into one table. */
module Preprocess {
  import opened Wrappers
  import opened Sheets
  import opened Frames
  import opened Normalize
  import opened Reconcile
  import opened ReconcileFacts

  /** The nine workbooks of the boundary-data directory, each read with its first line
      as the header. */
  datatype Workbooks = Workbooks(load: Sheet, renewable: Sheet, disclosure: Sheet, tieLine: Sheet,
                                 clearing: Sheet, hydro: Sheet, actual: Sheet, tieLineRt: Sheet,
                                 price: Sheet)

  predicate AllRectangular(w: Workbooks)
  {
    && Rectangular(w.load) && Rectangular(w.renewable) && Rectangular(w.disclosure)
    && Rectangular(w.tieLine) && Rectangular(w.clearing) && Rectangular(w.hydro)
    && Rectangular(w.actual) && Rectangular(w.tieLineRt) && Rectangular(w.price)
  }

  /** The sources read in the code's order; the first read that raises ends the run. */
  function SourcesRead(w: Workbooks): Result<Sources>
    requires AllRectangular(w)
  {
    var load :- Normalized(w.load, LoadLayout);
    var renewable :- Normalized(w.renewable, RenewableLayout);
    var disclosure :- Normalized(w.disclosure, DisclosureLayout);
    var tieLine :- Normalized(w.tieLine, TieLineLayout);
    var capacity :- ClearingCapacity(w.clearing);
    var hydro :- Normalized(w.hydro, HydroLayout);
    var actual :- Normalized(w.actual, ActualLayout);
    var tieLineRt :- Normalized(w.tieLineRt, TieLineLayout);
    var price :- Normalized(w.price, PriceLayout);
    Ok(Sources(load, renewable, disclosure, tieLine, capacity, hydro, actual, tieLineRt, price))
  }

  /** A successful read has the columns its layout names. */
  lemma ReadShaped(sheet: Sheet, layout: Layout, cols: seq<string>)
    requires Rectangular(sheet) && ValidLayout(layout) && Normalized(sheet, layout).Ok?
    requires cols == [DateCol, SlotCol] + Names(layout.values)
    ensures Shaped(Normalized(sheet, layout).value, cols)
  {
    NormalizedShape(sheet, layout);
  }

  /** The layouts' value columns, in order. */
  lemma LayoutColumns()
    ensures [DateCol, SlotCol] + Names(LoadLayout.values) == [DateCol, SlotCol, LoadCol]
    ensures [DateCol, SlotCol] + Names(RenewableLayout.values) == [DateCol, SlotCol, WindCol, SolarCol, RenewableCol]
    ensures [DateCol, SlotCol] + Names(DisclosureLayout.values) == [DateCol, SlotCol, NonMarketCol]
    ensures [DateCol, SlotCol] + Names(TieLineLayout.values) == [DateCol, SlotCol, TieLineCol]
    ensures [DateCol, SlotCol] + Names(HydroLayout.values) == [DateCol, SlotCol, HydroCol]
    ensures [DateCol, SlotCol] + Names(ActualLayout.values) ==
      [DateCol, SlotCol, LoadCol, WindCol, SolarCol, RenewableCol, HydroCol, NonMarketCol]
    ensures [DateCol, SlotCol] + Names(PriceLayout.values) == [DateCol, SlotCol, RealTimePriceCol, DayAheadPriceCol]
  {
  }

  /** The sources read have the columns the reconciliation expects. */
  lemma SourcesReadShaped(w: Workbooks)
    requires AllRectangular(w) && SourcesRead(w).Ok?
    ensures SourcesShaped(SourcesRead(w).value) && HasPrices(SourcesRead(w).value)
  {
    LayoutsValid();
    LayoutColumns();
    ReadShaped(w.load, LoadLayout, [DateCol, SlotCol, LoadCol]);
    ReadShaped(w.renewable, RenewableLayout, [DateCol, SlotCol, WindCol, SolarCol, RenewableCol]);
    ReadShaped(w.disclosure, DisclosureLayout, [DateCol, SlotCol, NonMarketCol]);
    ReadShaped(w.tieLine, TieLineLayout, [DateCol, SlotCol, TieLineCol]);
    ReadShaped(w.hydro, HydroLayout, [DateCol, SlotCol, HydroCol]);
    ReadShaped(w.actual, ActualLayout, [DateCol, SlotCol, LoadCol, WindCol, SolarCol, RenewableCol, HydroCol, NonMarketCol]);
    ReadShaped(w.tieLineRt, TieLineLayout, [DateCol, SlotCol, TieLineCol]);
    ReadShaped(w.price, PriceLayout, [DateCol, SlotCol, RealTimePriceCol, DayAheadPriceCol]);
  }

  /** `preprocess_data()`: the reconciled table, or the error of the first read that
      raises. */
  function Preprocessed(w: Workbooks): Result<Frame>
    requires AllRectangular(w)
  {
    var r := SourcesRead(w);
    if r.Err? then Err(r.msg)
    else
      SourcesReadShaped(w);
      Ok(Reconciled(r.value))
  }

  /** The run as the code performs it: each workbook read in turn, then the
      reconciliation. */
  method PreprocessData(w: Workbooks) returns (r: Result<Frame>)
    requires AllRectangular(w)
    ensures r == Preprocessed(w)
  {
    var load :- Normalize.Normalize(w.load, LoadLayout);
    var renewable :- Normalize.Normalize(w.renewable, RenewableLayout);
    var disclosure :- Normalize.Normalize(w.disclosure, DisclosureLayout);
    var tieLine :- Normalize.Normalize(w.tieLine, TieLineLayout);
    var capacity :- ClearingCapacity(w.clearing);
    var hydro :- Normalize.Normalize(w.hydro, HydroLayout);
    var actual :- Normalize.Normalize(w.actual, ActualLayout);
    var tieLineRt :- Normalize.Normalize(w.tieLineRt, TieLineLayout);
    var price :- Normalize.Normalize(w.price, PriceLayout);
    var src := Sources(load, renewable, disclosure, tieLine, capacity, hydro, actual, tieLineRt, price);
    assert SourcesRead(w) == Ok(src);
    SourcesReadShaped(w);
    var table := Reconcile.Reconcile(src);
    return Ok(table);
  }

  /** The run succeeds exactly when every source reads; in particular it fails when the
      clearing summary has fewer than two data rows or fewer than three columns. */
  lemma PreprocessedSucceeds(w: Workbooks)
    requires AllRectangular(w)
    ensures Preprocessed(w).Ok? <==>
      && Normalized(w.load, LoadLayout).Ok? && Normalized(w.renewable, RenewableLayout).Ok?
      && Normalized(w.disclosure, DisclosureLayout).Ok? && Normalized(w.tieLine, TieLineLayout).Ok?
      && |w.clearing.rows| >= 2 && |w.clearing.header| >= 3
      && Normalized(w.hydro, HydroLayout).Ok? && Normalized(w.actual, ActualLayout).Ok?
      && Normalized(w.tieLineRt, TieLineLayout).Ok? && Normalized(w.price, PriceLayout).Ok?
    ensures Normalized(w.load, LoadLayout).Err? ==> Preprocessed(w) == Err(Normalized(w.load, LoadLayout).msg)
  {
  }

  /** A successful run is the reconciliation of the sources it read. */
  lemma PreprocessedReconciles(w: Workbooks)
    requires AllRectangular(w) && Preprocessed(w).Ok?
    ensures SourcesRead(w).Ok? && SourcesShaped(SourcesRead(w).value) && HasPrices(SourcesRead(w).value)
    ensures Preprocessed(w).value == Reconciled(SourcesRead(w).value)
  {
    SourcesReadShaped(w);
  }

  /** A successful run yields the output columns and rows each tagged with its epoch,
      ordered with the day-ahead rows first and dates non-decreasing within each epoch. */
  lemma PreprocessedTable(w: Workbooks)
    requires AllRectangular(w) && Preprocessed(w).Ok?
    ensures Preprocessed(w).value.columns == OutputColumns
    ensures forall x :: x in Preprocessed(w).value.rows ==>
      DayAheadTagged(x, CapacityValue(SourcesRead(w).value.capacity)) || RealTimeTagged(x)
    ensures Sorted(Preprocessed(w).value.rows)
    ensures forall i, j :: 0 <= i < j < |Preprocessed(w).value.rows| && RealTimeTagged(Preprocessed(w).value.rows[i]) ==>
      RealTimeTagged(Preprocessed(w).value.rows[j])
  {
    PreprocessedReconciles(w);
    ReconciledRows(SourcesRead(w).value);
    ReconciledOrder(SourcesRead(w).value);
  }
}
