# SpotDailyReview in Dafny

A verified model of the two in-memory pipelines of SpotDailyReview, a tool for
reviewing a power producer's daily spot-market trading.

**The trading-metrics engine** (`review.py`, class `PowerDataAnalyzer`):
- It holds the merged trading table (交易量价数据汇总). One row is one 15-minute slot of one generating unit.
- On loading, it derives each unit's group (机组维度) from the first run of digits in the unit name.
- `filter_by_price_range` narrows a copy of the table stage by stage:
  - a price minimum and maximum, each with its own inclusivity flag;
  - an inclusive date range;
  - exact-match company, unit and unit-group tests.
- It computes ten metrics over the selected rows: hour counts, mean prices, two volume-weighted prices with a zero guard, and power totals and averages scaled by a per-company capacity factor.
- It builds the per-company and per-(company, unit group or unit) reports.

**The boundary-data reconciliation** (`preprocess_data.py`, repeated with upload checks in `app.py`):
- Nine workbooks are each normalised into a frame keyed on (日期, 时点). A normalised source:
  - drops the sheet's first data row;
  - keeps the `总加` rows of a tie-line plan;
  - keeps the rows of the price sheet whose `序号` is numeric.
- The online unit capacity is read from the clearing summary by `extract_online_capacity`.
- The six day-ahead sources are outer-merged.
- The real-time telemetry is left-merged with the real-time tie-line plan and the real-time price.
- Both epochs are tagged and stacked, completed to the fixed 15 output columns, and sorted by epoch, date and parsed time slot.

**The upload front end** (`app.py`):
- It checks for the nine required workbooks in a fixed order, failing fast with `缺少文件: <name>`.
- It wraps any exception as `处理出错: <message>`.
- It keeps the checklist that enables the run.
- It merges uploaded trading workbooks, each tagged with the company named in its file name.

**Layout.** One Dafny module per component:
- `wrappers` and `seqs` hold generic helpers: Option and Result, filtering, sums and distinct values.
- `decimal` reads digit runs and number texts.
- `unit_group`, `trading_table`, `metrics` and `analyzer` model `review.py`. `analyzer` holds the class `PowerDataAnalyzer`.
- `capacity`, `sheets`, `frames`, `normalize`, `reconcile`, `reconcile_facts` and `preprocess` model `preprocess_data.py`.
- `app` models the front end.

**Behaviour of the code worth knowing:**
- Dates can make a read fail. Date columns are parsed with `pd.to_datetime` without coercion, so one bad date cell fails the whole source. `app.py` turns that failure into `处理出错: ...`. Numeric cells are coerced to null.
- Not every absent filter column warns. Only a missing date column (when a date bound is set) and a missing unit-group column warn. The company and unit tests are skipped silently when their columns are absent.
- The day-ahead table merges six frames: the load forecast and five more.
- The unit group is not parity. Units 1 and 3 form one group and 2 and 4 another; every other number is 其他机组.
- The second-stage filter of metric 2 is applied only when the table has the intraday price column.
- Positions are looked up in the frame as it has grown so far. `df['日期'] = ...` appends 日期 when the sheet lacks it, and every later `iloc[:, k]` counts it. On a three-column load sheet without 日期 and 时点, `iloc[:, 3]` is that appended date column, so the load values are all null rather than an error.

## Model

| member | source | states |
|---|---|---|
| UnitGroup.FirstDigitRun | review.py:70-74 | the value of the leftmost maximal digit run, preceded only by non-digits; None exactly when the name has no digit |
| UnitGroup.DetermineDimension | review.py:66-79 | the group is one of the four labels, and 未知 exactly for a missing name or one without a digit |
| UnitGroup.LeadingRunDecides | review.py:70-79 | in `p + d + t`, where p has no digit and t does not continue the run d, the run d alone decides the group |
| UnitGroup.UnitsOneAndThree | review.py:75-76 | illustration: unit names with first number 1 and 3 both map to 机组1&3组 |
| UnitGroup.UnitsTwoAndFour | review.py:77-78 | illustration: first number 2, or 04 with a leading zero, maps to 机组2&4组 |
| UnitGroup.UnitTenAndUnknown | review.py:67-79 | illustration: the run is read whole, so 10 is 其他机组 and not unit 1; a name without a digit and a missing name are 未知 |
| TradingTable.ConversionFactor | review.py:34-52 | a listed company gets its table value and any other company, or none, gets 1.0; every factor is at least 1, and exactly 1 only for 同华 and unlisted companies |
| TradingTable.FactorFor | review.py:49-52 | the factor a metric applies is at least 1, and 1 when no company, or a null company, is passed |
| TradingTable.ConversionFactorExamples | review.py:34-45 | illustration: 塔山 is 1.1 (660/600), 王坪 is 3.3, 阳高, 河津 and 蒲洲 share a factor, and an unlisted company gets 1.0 |
| TradingTable.AdmitsExactly | review.py:116-164 | a row survives iff it passes each set price bound (strict or inclusive per flag), the inclusive date bounds when the date column exists, and each set company, unit and unit-group test whose column exists |
| TradingTable.AdmitsEveryStage | review.py:116-162 | surviving the filter is surviving each of its seven stages |
| TradingTable.NullPrice | review.py:119-129 | a null price is dropped whenever a bound is set, and is irrelevant when no bound is set |
| TradingTable.BoundaryPrice | review.py:119-129 | a price equal to the minimum survives only with the inclusive flag, and does survive with it when no other stage applies |
| TradingTable.SelectedIsSubsequence | review.py:116-164 | the result is an order-preserving subsequence of the table, holding exactly the table rows the filter admits |
| TradingTable.SelectedIdempotent | review.py:116-164 | filtering the result again with the same query changes nothing |
| TradingTable.InclusiveKeepsMore | review.py:119-129 | making both bounds inclusive keeps a superset, in order |
| TradingTable.FewerArgumentsKeepMore | review.py:150-162 | dropping the company, unit and unit-group arguments keeps a superset, in order |
| TradingTable.ApplyStage | review.py:116-162 | applying stage k to the rows that passed the first k stages gives the rows passing k + 1 stages |
| TradingTable.SkipStage | review.py:119-162 | a stage whose argument is unset or whose column is absent keeps every row |
| TradingTable.FilterWarnings | review.py:146-162 | the date warning appears iff a date bound is set without a date column; the unit-group warning appears iff a group is given without the column |
| TradingTable.DateWarningMeansNoDateStage | review.py:131-147 | when the date warning is printed, the date bounds change nothing |
| Metrics.PresentCount | review.py:290 | at most the row count, and 0 exactly when every cell of the column is null |
| Metrics.Mean | review.py:290 | the mean is None (NaN) exactly when every cell is null |
| Metrics.ColumnSumAtLeast | review.py:290 | a column total is at least (above, when strict) the count of present cells times a lower bound of them |
| Metrics.ColumnSumAtMost | review.py:290 | a column total is at most (below, when strict) the count of present cells times an upper bound of them |
| Metrics.MeanAtLeast | review.py:290 | a mean is at least (above, when strict) any lower bound of the values it averages |
| Metrics.MeanAtMost | review.py:290 | a mean is at most (below, when strict) any upper bound of the values it averages |
| Metrics.ForwardAvgPriceWithinBounds | review.py:289-291 | metric 3 lies within the price bounds it filters by, strictly for an exclusive bound |
| Metrics.RealtimeRowsAreRefiltered | review.py:230-257 | the realtime rows are the forward rows whose intraday price also passes the same bounds (all of them without that column); a subsequence, short by the rows whose intraday price fails |
| Metrics.RealtimeHoursAtMostForward | review.py:196-257 | metric 2 never exceeds metric 1 |
| Metrics.PairSumSplits | review.py:411-415 | the per-row pair total equals the sum of the two column totals |
| Metrics.PairSumSymmetric | review.py:412-415 | the pair total does not depend on the order of the two columns |
| Metrics.LegValueSumBounds | review.py:595-604 | with non-negative volumes and prices in [lo, hi], the weighted total lies between lo and hi times the volume total |
| Metrics.TwoLegAverageWithin | review.py:363-375 | with non-negative volumes and every leg price in [lo, hi], the weighted price lies in [lo, hi], and is exactly 0 when the volumes total 0 |
| Metrics.NoVolumeMeansZero | review.py:595-609 | when every volume is null or 0, the weighted price is exactly 0 |
| Metrics.OnePriceAverage | review.py:369-375 | when every leg trades at one price p and some volume traded, the weighted price is p |
| Metrics.AveragePowerIsScaledMean | review.py:456-465 | metrics 7 and 8 equal the column total over the row count times the factor |
| Metrics.AveragePowerOfConstant | review.py:498-507 | with every output cell x, metrics 7 and 8 equal x times the factor |
| Metrics.MltAveragePowerIsFourTimesRowMean | review.py:542-556 | metric 9 is 4 × factor × (the two volume totals) / row count, the numerator not being divided by 4 |
| Metrics.InterPowerSources | review.py:411-423 | metric 6 is both power columns when present, else the total column, scaled; 0 when neither exists |
| Metrics.AllMetrics | review.py:640-653 | realtime hours are at most forward hours, and forward hours times 4 is the number of selected rows |
| Metrics.TashanExample | review.py:459-465 | illustration: four 塔山 slots at 600 MW output average 660 MW |
| Analyzer.WithDimensions | review.py:81 | the table keeps its length when the unit-group column is added |
| Analyzer.WithDimensionsDerives | review.py:60-81 | only the unit group of each row changes, it is derived from the unit name, and adding the column twice is adding it once |
| Analyzer.DerivedDimensionLabels | review.py:66-81 | every derived group is one of the four labels, and 未知 exactly for a missing name or one without a digit |
| Analyzer.MinPriceStage | review.py:119-123 | the minimum-price mask extends the (unfiltered) copy by stage 0 |
| Analyzer.MaxPriceStage | review.py:125-129 | the maximum-price mask extends the selection by stage 1 |
| Analyzer.StartDateStage | review.py:132-139 | the inclusive start-date mask extends the selection by stage 2 |
| Analyzer.EndDateStage | review.py:141-145 | the inclusive end-date mask extends the selection by stage 3 |
| Analyzer.CompanyStage | review.py:150-151 | the company test extends the selection by stage 4 |
| Analyzer.UnitStage | review.py:154-155 | the unit test extends the selection by stage 5 |
| Analyzer.DimensionStage | review.py:158-162 | the unit-group test extends the selection by stage 6 |
| Analyzer.BoundStages | review.py:116-145 | the price and date stages applied to a copy leave the rows passing the first four stages |
| Analyzer.DimensionValues | review.py:797 | `.dropna()` of the group column holds exactly the non-null groups of the rows |
| Analyzer.CompanyReportsOf | review.py:718-735 | one report per company listed |
| Analyzer.CompanyReportsOfAt | review.py:718-733 | the i-th report names the i-th company with the metrics of its query |
| Analyzer.CompaniesOnce | review.py:715 | `unique()` lists every company of the table once, in order of first appearance |
| Analyzer.ByCompanyRows | review.py:715-735 | the i-th row reports the i-th distinct company with all ten metrics filtered on that company |
| Analyzer.TargetReportsOf | review.py:801-826 | one report per target of a company |
| Analyzer.TargetReportsOfAt | review.py:801-826 | the i-th report of a company covers its i-th target |
| Analyzer.GroupTargets | review.py:795-797 | in group mode the targets of a company are exactly the groups of its rows, each one of the four labels |
| Analyzer.GroupUnitList | review.py:808-809 | a group's unit list names exactly the company's units classified into that group |
| Analyzer.UnitTargets | review.py:798-799 | in unit mode the targets of a company are exactly its unit names, the null one included |
| Analyzer.PowerDataAnalyzer.constructor | review.py:26-47 | the analyzer holds the given table with the unit-group column added |
| Analyzer.PowerDataAnalyzer.AddUnitDimensionColumn | review.py:60-81 | with a unit-name column every row gets its derived group and the schema gains the column; without one nothing changes |
| Analyzer.PowerDataAnalyzer.FilterByPriceRange | review.py:83-164 | returns exactly the selected rows and the printed warnings, leaving the table untouched |
| Analyzer.PowerDataAnalyzer.CalculateDailyForwardHours | review.py:166-198 | metric 1 is the rows filtered on 日前出清节点价格, divided by 4 |
| Analyzer.PowerDataAnalyzer.CalculateRealtimeHours | review.py:200-257 | metric 2 is the re-filtered realtime rows divided by 4 |
| Analyzer.PowerDataAnalyzer.CalculateDailyForwardAvgPrice | review.py:259-291 | metric 3 is the mean forward price over the forward rows |
| Analyzer.PowerDataAnalyzer.CalculateRealtimeAvgPrice | review.py:293-325 | metric 4 is the mean intraday price over the forward rows, not re-filtered |
| Analyzer.PowerDataAnalyzer.CalculateInterProvincialAvgPrice | review.py:327-375 | metric 5 is the zero-guarded weighted cross-provincial price of the rows filtered on the given column |
| Analyzer.PowerDataAnalyzer.CalculateInterProvincialPower | review.py:377-423 | metric 6 is the cross-provincial power of the selection, scaled by the company's factor |
| Analyzer.PowerDataAnalyzer.CalculateDailyForwardPower | review.py:425-465 | metric 7 is the scaled average forward output, 0 on no rows |
| Analyzer.PowerDataAnalyzer.CalculateActualOutputPower | review.py:467-507 | metric 8 is the scaled average actual output, 0 on no rows |
| Analyzer.PowerDataAnalyzer.CalculateMediumLongAvgPower | review.py:509-556 | metric 9 is the scaled medium- and long-term volume over the hours, 0 on no rows |
| Analyzer.PowerDataAnalyzer.CalculateMediumLongWeightedAvgPrice | review.py:558-609 | metric 10 is the zero-guarded weighted medium- and long-term price |
| Analyzer.PowerDataAnalyzer.AnalyzeAllMetrics | review.py:611-653 | the ten metrics under one query |
| Analyzer.PowerDataAnalyzer.AnalyzeAllMetricsByCompany | review.py:686-736 | no rows without a company column; otherwise one report per distinct company, in order of first appearance |
| Analyzer.PowerDataAnalyzer.AnalyzeAllMetricsByUnit | review.py:760-829 | no rows without company and unit-name columns; otherwise each company's reports in turn, by unit group exactly when asked (loading always adds the group column), else by unit name |
| Analyzer.PowerDataAnalyzer.CompanyUnitReportsLoop | review.py:793-826 | one company's reports, one per target |
| Analyzer.PowerDataAnalyzer.TargetReportsLoop | review.py:801-826 | the loop over a company's targets appends each target's report in order |
| Analyzer.PowerDataAnalyzer.TargetReportOf | review.py:802-826 | one target's report: the group with its joined unit names, or the unit name, and the metrics of its query |
| Capacity.ExtractOnlineCapacity | preprocess_data.py:7-15 | None for a blank, numeric or date cell; for text, the result of the leftmost-match search |
| Capacity.MatchAt | preprocess_data.py:12 | a match at p starts with the marker 运行机组容量 |
| Capacity.SearchFindsNothing | preprocess_data.py:12-15 | the search yields None exactly when the pattern matches at no position |
| Capacity.SearchFindsLeftmost | preprocess_data.py:12-14 | otherwise the search yields the match at the leftmost matching position |
| Capacity.MatchIsNonNegative | preprocess_data.py:12-14 | a captured capacity is never negative |
| Capacity.ReadsStatedCapacity | app.py:27-34 | a summary stating marker, digits, optional fraction, spaces and `MW` reads back as the stated value when the marker first occurs there |
| Capacity.ReferenceSummary | preprocess_data.py:11-14 | illustration: `运行机组容量42340.00MW` gives 42340 |
| Capacity.NoMarkerNoCapacity | app.py:31-34 | text without the marker yields no capacity |
| Decimal.DecimalTextValue | preprocess_data.py:14 | `float()` of `digits.digits` is the integer part plus the fraction |
| Decimal.ParseShowNat | preprocess_data.py:103 | an integer serial number reads as numeric |
| Decimal.NoDigitNotNumber | preprocess_data.py:102-103 | a text without any digit, such as a daily-average label, is not numeric |
| Sheets.Resolve | preprocess_data.py:30-32 | a positional or named column reference resolves iff the position is in range or the header exists |
| Sheets.DropFirst | preprocess_data.py:29 | `iloc[1:]` keeps the header and all but the first row |
| Sheets.CellDate | preprocess_data.py:30 | a blank is NaT, a date cell is its date, a number raises |
| Sheets.ColumnDates | preprocess_data.py:30 | the column parses iff every cell does, cell for cell |
| Sheets.ParseIsoDate | preprocess_data.py:104 | a parsed date is the key of a valid calendar date |
| Sheets.IsoDateRoundTrip | preprocess_data.py:104 | an ISO date text reads back as its date |
| Sheets.DateKeyOrder | preprocess_data.py:186 | date keys order dates as the calendar does |
| Sheets.ParseClock | preprocess_data.py:184 | a parsed slot is a minute of the day |
| Sheets.ClockRoundTrip | preprocess_data.py:184 | `HH:MM` reads back as its minutes after midnight |
| Sheets.BlankSlotDoesNotParse | preprocess_data.py:184-186 | the `nan` label of a blank slot does not parse, so it sorts last |
| Sheets.CellNumber | preprocess_data.py:32 | a numeric cell is its number; a blank or date cell is null |
| Normalize.FilterRows | preprocess_data.py:56 | the `总加` and `序号` filters keep whole rows, one cell per header column |
| Normalize.Trimmed | preprocess_data.py:29 | the trimmed sheet keeps its header and shape |
| Normalize.Kept | preprocess_data.py:55-56 | the kept rows stay one cell per header column |
| Normalize.PutHeader | preprocess_data.py:30-32 | the header after an assignment holds the name and keeps every earlier column in place |
| Normalize.Put | preprocess_data.py:30-32 | `df[name] = col` overwrites the column where it stands or appends it; the assigned cells read back under the name and every other column is unchanged |
| Normalize.Assign | preprocess_data.py:38-42 | assigning the value columns keeps the rows and the earlier columns in place and puts every value name in the header |
| Normalize.Keyed | preprocess_data.py:30-31 | assigning 日期 and 时点 keeps the earlier columns; it fails exactly when the slot reference misses the header grown by 日期 |
| Normalize.Valued | preprocess_data.py:32-42 | the frame taken out has the key columns then the value columns, one row per kept row |
| Normalize.Normalize | preprocess_data.py:27-107 | reading a source step by step gives the normalised frame or its first error |
| Normalize.AssignColumns | preprocess_data.py:38-42 | assigning each value column in turn against the frame as it stands gives the assigned frame or the first lookup error |
| Normalize.Grown | preprocess_data.py:30-42 | the header grown by assigned names starts with the sheet's own header |
| Normalize.GrowsBy | preprocess_data.py:30-42 | assigning a name not assigned before grows the header by that name |
| Normalize.AssignGrows | preprocess_data.py:38-42 | the value columns are assigned iff each reference resolves in the header grown by the names before it, which then ends grown by all of them |
| Normalize.AssignKeeps | preprocess_data.py:38-42 | a column no value column is named after keeps its cells |
| Normalize.AssignKeepsNamed | preprocess_data.py:38-42 | such a column also keeps its position |
| Normalize.AssignReadsFirst | preprocess_data.py:40 | the first value column ends holding the numbers read from its position |
| Normalize.AssignReads | preprocess_data.py:40-42 | a value column reading a column no earlier assignment touched holds the numbers read from it |
| Normalize.ResolveWithin | preprocess_data.py:30-42 | a reference resolves to the same position once columns are appended |
| Normalize.KeyedGrows | preprocess_data.py:30-31 | the key assignments succeed iff the slot resolves in the header grown by 日期, and grow it by 日期 then 时点 |
| Normalize.KeyedCells | preprocess_data.py:30-31 | 日期 holds the parsed dates, 时点 the slot text of a sheet column other than 日期, and other columns are unchanged |
| Normalize.ValuedKeys | preprocess_data.py:30-42 | the frame's key columns hold the working sheet's key cells |
| Normalize.ValuedCells | preprocess_data.py:32-42 | a value column reading an untouched column holds its numbers |
| Normalize.ValuedGrows | preprocess_data.py:32-42 | the value columns are assigned iff each resolves in the header grown by those before it |
| Normalize.NormalizedStages | preprocess_data.py:27-32 | a source that reads is its kept rows with the keys assigned, then the values |
| Normalize.NormalizedShape | preprocess_data.py:27-107 | a normalised source is well formed, with the key columns then its value columns |
| Normalize.NormalizedDates | preprocess_data.py:29-30 | rows are the kept rows one for one, and 日期 holds each parsed date |
| Normalize.NormalizedSlots | preprocess_data.py:31 | when the slot column is a sheet column other than 日期, 时点 holds its text |
| Normalize.NormalizedCells | preprocess_data.py:32 | when no value column reads a key column or one assigned before it, each holds the number coerced from its position |
| Normalize.PriceReadsOwn | preprocess_data.py:104-107 | the price source, read by name, always reads the sheet's own columns |
| Normalize.DropsFirstRow | preprocess_data.py:29 | a positional source yields the rows after the first, in order, one fewer than the sheet |
| Normalize.KeepsTotals | preprocess_data.py:56 | a tie-line source keeps exactly the rows after the first whose column 1 is `总加`, in order |
| Normalize.KeepsNumbered | preprocess_data.py:103 | the price source keeps exactly the rows whose `序号` is numeric, in order; without `序号` it raises KeyError |
| Normalize.NormalizedFails | preprocess_data.py:30-42 | a source reads iff every kept date parses, the slot resolves in the header grown by 日期, and each value column in the header grown by 日期, 时点 and the value columns before it |
| Normalize.GrownByKeys | preprocess_data.py:30-31 | a header without 日期 and 时点 grows by both at its end |
| Normalize.NarrowLoadSheet | preprocess_data.py:27-32 | illustration: a three-column load sheet without 日期 and 时点 reads iff its dates parse |
| Normalize.NarrowLoadNull | preprocess_data.py:30-32 | illustration: such a sheet's load column reads the appended 日期 column, so every load value is null |
| Normalize.LayoutsValid | preprocess_data.py:30-107 | every source's value columns are distinct and not key columns |
| Normalize.ClearingCapacity | preprocess_data.py:63-66 | defined iff the summary has two data rows and three columns; then it is the capacity extracted from row 1, column 2 |
| Frames.WithColumnCells | preprocess_data.py:143-144 | setting a column reads back the new cell there and leaves all others |
| Frames.ProjectCells | preprocess_data.py:180 | a projection has exactly the listed columns and their cells |
| Frames.ConcatColumns | preprocess_data.py:166 | a concatenation has the columns of both frames |
| Frames.ConcatWellFormed | preprocess_data.py:166 | concatenating well-formed frames gives a well-formed frame |
| Frames.WithColumnKeys | preprocess_data.py:143-144 | setting a value column keeps keys; it reads the new value at present keys and null at absent keys |
| Frames.ProjectKeys | preprocess_data.py:112-113 | projecting onto columns that include the keys keeps every row's key and the kept cells |
| Frames.MergeKeys | preprocess_data.py:111-161 | an outer merge has the union of both key sets, a left merge exactly the left keys |
| Frames.MatchesOfMerge | preprocess_data.py:111-116 | the rows of a key are the left rows of that key joined, then, for an outer merge of a key the left side lacks, the right rows |
| Frames.MergeValues | preprocess_data.py:111-140 | each value column holds its side's cell for the key, null when that side lacks the key |
| Frames.OuterUnique | preprocess_data.py:111-140 | an outer merge of frames without repeated keys has none |
| Frames.LeftMergeRows | preprocess_data.py:150-161 | a left merge onto unique right keys keeps the left rows one for one, with their keys |
| Frames.MergeColumns | preprocess_data.py:111-116 | a merge has the left columns and the right value columns |
| Frames.MergeWellFormed | preprocess_data.py:111-116 | a merge of mergeable well-formed frames is well formed |
| Reconcile.MergeInTurn | preprocess_data.py:111-140 | the reassigned merge chain merges each frame in turn |
| Reconcile.FillColumns | preprocess_data.py:175-177 | the filled frame has the same rows, and the union of its columns and the listed ones |
| Reconcile.FillColumnsCells | preprocess_data.py:175-177 | filling adds only null cells and keeps well-formedness |
| Reconcile.EnsureColumns | preprocess_data.py:175-177 | the loop adds a null column for each listed column the frame lacks |
| Reconcile.Reconcile | preprocess_data.py:109-187 | merging, tagging, stacking, completing, projecting and sorting give the reconciled table |
| Reconcile.SortRowsCorrect | preprocess_data.py:184-187 | sorting permutes the rows and orders them by epoch, date and slot |
| Reconcile.RowLeTotal | preprocess_data.py:186 | any two rows are comparable under the three sort keys |
| Reconcile.RowLeTransitive | preprocess_data.py:186 | the sort order is transitive |
| ReconcileFacts.MergeAllColumns | preprocess_data.py:111-140 | a merge chain has the first frame's columns and the others' value columns |
| ReconcileFacts.MergeAllKeys | preprocess_data.py:111-161 | outer chains keep every frame's keys; left chains exactly the first frame's |
| ReconcileFacts.MergeAllRows | preprocess_data.py:150-161 | left chains onto unique-keyed frames keep the first frame's rows one for one |
| ReconcileFacts.MergeAllValues | preprocess_data.py:111-161 | each value column of a chain holds the cell of the frame it comes from |
| ReconcileFacts.DayAheadChainable | preprocess_data.py:111-140 | the day-ahead sources can be merged in turn |
| ReconcileFacts.DayAheadMergedKeys | preprocess_data.py:111-140 | the day-ahead table has exactly the union of the six sources' keys |
| ReconcileFacts.DayAheadKeys | preprocess_data.py:143-144 | tagging keeps the merged keys |
| ReconcileFacts.DayAheadTagging | preprocess_data.py:143-144 | tagging keeps merged cells and puts `日前` and the capacity at every key |
| ReconcileFacts.DayAheadMergedValues | preprocess_data.py:111-140 | each day-ahead value column holds its source's cell for the key, null when that source lacks it |
| ReconcileFacts.DayAheadMergedColumns | preprocess_data.py:111-140 | the merged day-ahead table has exactly the ten day-ahead columns |
| ReconcileFacts.DayAheadMergedAbsent | preprocess_data.py:111-140 | the merged day-ahead table has only output columns, and no real-time price, bid space, load rate, epoch or capacity |
| ReconcileFacts.DayAheadRowTags | preprocess_data.py:143-144 | every day-ahead row is `日前` with the one capacity scalar and null real-time-only columns |
| ReconcileFacts.DayAheadFrameColumns | preprocess_data.py:143-144 | the tagged day-ahead table has only output columns |
| ReconcileFacts.RealTimeChainable | preprocess_data.py:148-161 | the real-time sources can be merged in turn |
| ReconcileFacts.RealTimeRows | preprocess_data.py:148-161 | with unique right-side keys the real-time table keeps the telemetry rows one for one, with their keys |
| ReconcileFacts.RealTimeKeys | preprocess_data.py:148-161 | the real-time table has exactly the telemetry keys |
| ReconcileFacts.RealTimeMergedValues | preprocess_data.py:148-161 | each real-time value column holds its source's cell at each telemetry key |
| ReconcileFacts.RealTimeTagging | preprocess_data.py:162 | tagging keeps merged cells and puts `实时` at every telemetry key |
| ReconcileFacts.RealTimeMergedColumns | preprocess_data.py:148-161 | the merged real-time table has exactly its ten columns |
| ReconcileFacts.RealTimeMergedAbsent | preprocess_data.py:148-161 | the merged real-time table has only output columns, and no day-ahead price, bid space, load rate or capacity |
| ReconcileFacts.RealTimeRowTags | preprocess_data.py:162 | every real-time row is `实时` with null capacity and null day-ahead-only columns |
| ReconcileFacts.RealTimeFrameColumns | preprocess_data.py:162 | the tagged real-time table has only output columns |
| ReconcileFacts.CompleteCells | preprocess_data.py:169-180 | completing and projecting onto a superset of the columns keeps every cell |
| ReconcileFacts.StackedCells | preprocess_data.py:166-180 | the stack has the 15 output columns and is the day-ahead rows then the real-time rows, cell for cell |
| ReconcileFacts.StackedTags | preprocess_data.py:166-180 | the first rows of the stack carry the day-ahead tags and the rest the real-time tags |
| ReconcileFacts.SortKeepsTags | preprocess_data.py:184-187 | sorting keeps every row and so every tag |
| ReconcileFacts.ReconciledRows | preprocess_data.py:166-187 | the output has the 15 columns and is a permutation of the stack, each row tagged with its epoch |
| ReconcileFacts.SortedEpochs | preprocess_data.py:184-187 | in sorted tagged rows all `日前` rows come before all `实时` rows, and dates do not decrease within an epoch |
| ReconcileFacts.ReconciledOrder | preprocess_data.py:184-187 | the output is sorted by epoch, date and slot, with unparsed values last |
| Preprocess.LayoutColumns | preprocess_data.py:112-161 | each layout yields the key columns and the value columns the merges select |
| Preprocess.SourcesReadShaped | preprocess_data.py:27-107 | the sources read have the columns the reconciliation expects |
| Preprocess.PreprocessData | preprocess_data.py:18-189 | the run reads each source in turn, then reconciles, failing at the first read that raises |
| Preprocess.PreprocessedSucceeds | preprocess_data.py:27-107 | the run succeeds iff every source reads; a failing load forecast gives its error |
| Preprocess.PreprocessedReconciles | preprocess_data.py:109-189 | a successful run is the reconciliation of the sources it read |
| Preprocess.PreprocessedTable | preprocess_data.py:143-187 | a successful run has the output columns, epoch-tagged rows, and the sorted order |
| App.RequiredOrder | app.py:328-338 | the nine required workbooks in their fixed order |
| App.Fetch | app.py:65-72 | an uploaded workbook, or `缺少文件: <name>` exactly when it is absent |
| App.Caught | app.py:238-239 | an exception becomes `处理出错: <message>`; a success passes through |
| App.Loaded | app.py:65-72 | a block reports its missing workbook, or reads and normalises it with the error caught |
| App.CapacityLoaded | app.py:107-114 | the clearing block reports its missing workbook, or extracts the capacity with the error caught |
| App.UploadedSourcesAsBatch | app.py:63-161 | with every workbook uploaded, the sources are those of the batch run, errors behind the failure prefix |
| App.UploadedSucceeds | app.py:63-161 | the sources read iff every block succeeds |
| App.UploadedPresent | app.py:65-161 | a run that reads its sources found every required workbook |
| App.FirstMissingReported | app.py:65-161 | when the blocks before it succeed, the first absent workbook ends the run with its message |
| App.MessagesDiffer | app.py:238-239 | a missing-file message never equals a failure message |
| App.MissingReported | app.py:65-161 | a missing-file message names a required, absent workbook whose preceding blocks succeeded |
| App.BoundaryAsBatch | app.py:163-236 | with every workbook uploaded, the result is the batch table, errors behind the failure prefix |
| App.MissingFails | app.py:65-161 | a run with a required workbook absent produces no table |
| App.PreprocessBoundaryFiles | app.py:59-239 | the early-returning blocks and reconciliation give the reconciled table or the error message |
| App.Collected | app.py:340-342 | `files_dict` holds exactly the uploaded names |
| App.CollectedLast | app.py:341-342 | a name holds its last uploaded workbook |
| App.MissingFiles | app.py:347 | the missing list is exactly the required names not uploaded, in the fixed order |
| App.NothingMissing | app.py:347-353 | the list is empty exactly when every required workbook is uploaded |
| App.ChecklistGuardsRun | app.py:347-357 | with the checklist clear the run never reports a missing workbook; with one missing it gives no table |
| App.CheckUploads | app.py:328-355 | the uploads are filed, the unticked entries listed, and the run enabled exactly when all are uploaded |
| App.BaseName | app.py:43 | the file name has no '/' and is the path itself when the path has none |
| App.Stem | app.py:43 | the stem is a prefix of the name, cut at its last inner '.' |
| App.BeforeFirst | app.py:43 | `split(c)[0]` is the prefix before the first c, or everything |
| App.CompanyName | app.py:43 | the company has no '-' or '/', and is the whole stem when the stem has no '-' |
| App.CompanyNameOf | app.py:43 | `company-rest.ext` belongs to `company` |
| App.Stamped | app.py:48 | every row of a workbook gets its company and nothing else changes |
| App.TradingPartition | app.py:41-51 | the workbooks kept and the workbooks reported together number exactly the uploads |
| App.FailedNames | app.py:50-51 | the reported names are exactly those of the workbooks whose reads raised |
| App.TradingMergedNone | app.py:53-56 | the merge is None exactly when no workbook reads |
| App.TradingRowsSound | app.py:53-55 | every merged row is a stamped row of a workbook that read |
| App.TradingRowsComplete | app.py:53-55 | every stamped row of every workbook that read is merged |
| App.TradingCompanies | app.py:41-55 | every merged row carries its workbook's company, and every read workbook's rows are all there |
| App.ProcessTradingFiles | app.py:37-56 | the loop gives the merged table (None when nothing reads) and the names of the failed workbooks |

## Left out

- Reading and writing workbooks are replaced by input and output values. This covers `pd.read_excel`, `to_excel`, `load_data`, the print and export methods, both `main` functions and `main.py`.
- The Streamlit page is left out, apart from the checklist logic.
- `st.error` of a failed trading workbook is modelled as the returned list of failed names. The printed filter warnings are a returned list.
- Quantities are `real`, not floating point. A NaN mean (metrics 3 and 4 on no rows) is None. `float()` of a captured capacity is exact.
- Digits are ASCII and `\s` is ASCII whitespace; Python's Unicode classes are not modelled.
- Dates are yyyymmdd integers. The trading table's dates arrive already parsed, and a query's date bounds are integers, so `pd.to_datetime(start_date)` of a bad string is not modelled.
- Sheets.ParseIsoDate: only `YYYY-MM-DD` text parses as a date. pandas accepts many more formats.
- Sheets.CellDate: a numeric cell in a date column is modelled as a parse error. pandas reads it as a nanosecond timestamp.
- Sheets.SlotText: `str()` of a numeric or date cell in a slot column is not modelled; it reads as the empty label. A blank read as text is `nan` (the `NaT` of a missing date is not distinguished).
- Every workbook is assumed rectangular (one cell per header column), as a data frame is.
- Exception messages are approximate texts; only their prefixes and where they arise are modelled.
- Exceptions raised inside merges, projections or the sort are not modelled. Only missing columns and unparseable dates raise.
- A column the metrics read without checking is a precondition (`CanFilter`, `CanReport`, the schema flags). In the source it is a KeyError.
- Frames.Merge: pandas suffixes for shared value columns are not modelled; the frames merged here share none (`Mergeable`). Merge output row order is left rows then unmatched right rows, while pandas sorts the keys of an outer merge. Rows with distinct sort keys end in the same order either way; rows with equal epoch, date and slot may end in another order.
- Reconcile.SortRows: a stable insertion sort, as pandas' multi-column `sort_values` is. Rows with equal keys keep their stacked order, which differs from pandas only through the merge order above.
- ReconcileFacts.RealTimeRows: the row count of the real-time table is proved only when the tie-line plan and the prices have unique keys. Otherwise the left merge repeats rows.
- App.BaseName: trailing '/' and '.' path components are not normalised the way `pathlib` does.
- The console warnings of `_add_unit_dimension_column` (review.py:63), of metric 6 without power columns (review.py:419) and of the two report methods without their columns (review.py:712, 788) are not modelled; only the values returned are.
- A trading workbook whose read raises is an input of None; the reader itself is not modelled.
- Analyzer.CompanyReportsOf: its own contract states only the length. The contents are stated by Analyzer.CompanyReportsOfAt and Analyzer.ByCompanyRows.
- Metrics.AllMetrics: its own contract states only the hour counts. Each metric's value is stated by the matching `Calculate...` method and the metric lemmas.
