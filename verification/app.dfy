/** The upload front end: the boundary-data run over uploaded workbooks with its
    ordered missing-file checks and error wrapping, the checklist of required uploads,
    and the merge of uploaded trading workbooks tagged with their company name. */
module App {
  import opened Wrappers
  import opened Seqs
  import opened Sheets
  import opened Frames
  import opened Normalize
  import opened Reconcile
  import opened ReconcileFacts
  import opened Preprocess
  import TradingTable

  const LoadFile: string := "日前统调系统负荷预测_REPORT0.xlsx"
  const RenewableFile: string := "日前新能源负荷预测_REPORT0.xlsx"
  const DisclosureFile: string := "披露信息96点数据_REPORT0.xlsx"
  const TieLineFile: string := "日前联络线计划_REPORT0.xlsx"
  const ClearingFile: string := "日前市场出清情况_TABLE.xlsx"
  const HydroFile: string := "日前水电计划发电总出力预测_REPORT0.xlsx"
  const ActualFile: string := "96点电网运行实际值_REPORT0.xlsx"
  const TieLineRtFile: string := "实时联络线计划_REPORT0.xlsx"
  const PriceFile: string := "现货出清电价_REPORT0.xlsx"

  /** The required workbooks, in the order they are checked and listed. */
  const RequiredFiles: seq<string> :=
    [LoadFile, RenewableFile, DisclosureFile, TieLineFile, ClearingFile, HydroFile, ActualFile, TieLineRtFile, PriceFile]

  /** The position of each workbook in the fixed order. */
  lemma RequiredOrder()
    ensures |RequiredFiles| == 9
    ensures RequiredFiles[0] == LoadFile && RequiredFiles[1] == RenewableFile && RequiredFiles[2] == DisclosureFile
    ensures RequiredFiles[3] == TieLineFile && RequiredFiles[4] == ClearingFile && RequiredFiles[5] == HydroFile
    ensures RequiredFiles[6] == ActualFile && RequiredFiles[7] == TieLineRtFile && RequiredFiles[8] == PriceFile
  {
  }

  /** Every required workbook is among the uploads. */
  predicate AllUploaded(files: map<string, Sheet>)
  {
    && LoadFile in files && RenewableFile in files && DisclosureFile in files
    && TieLineFile in files && ClearingFile in files && HydroFile in files
    && ActualFile in files && TieLineRtFile in files && PriceFile in files
  }

  lemma AllUploadedRequired(files: map<string, Sheet>)
    ensures AllUploaded(files) <==> forall n :: n in RequiredFiles ==> n in files
  {
    RequiredOrder();
    if AllUploaded(files) {
      forall n | n in RequiredFiles ensures n in files {
        var i :| 0 <= i < |RequiredFiles| && RequiredFiles[i] == n;
        assert i < 9;
      }
    }
  }

  const MissingPrefix: string := "缺少文件: "
  const FailurePrefix: string := "处理出错: "

  // ---- the boundary-data run --------------------------------------------------------

  /** Every uploaded workbook is a sheet with one cell per header column. */
  predicate UploadsRectangular(files: map<string, Sheet>)
  {
    forall n :: n in files ==> Rectangular(files[n])
  }

  /** The uploaded workbook of that name, or the missing-file message. */
  function Fetch(files: map<string, Sheet>, name: string): (r: Result<Sheet>)
    ensures r.Ok? <==> name in files
    ensures r.Ok? ==> r.value == files[name]
    ensures r.Err? ==> r.msg == MissingPrefix + name
  {
    if name in files then Ok(files[name]) else Err(MissingPrefix + name)
  }

  /** An exception caught by the run's `except`, turned into its message. */
  function Caught<T>(r: Result<T>): (w: Result<T>)
    ensures w.Ok? <==> r.Ok?
    ensures r.Ok? ==> w.value == r.value
    ensures r.Err? ==> w.msg == FailurePrefix + r.msg
  {
    if r.Err? then Err(FailurePrefix + r.msg) else r
  }

  /** One block of the run: the workbook is looked for among the uploads, then read
      and normalised with its layout. */
  function Loaded(files: map<string, Sheet>, name: string, layout: Layout): (r: Result<Frame>)
    requires UploadsRectangular(files)
    ensures name !in files ==> r == Err(MissingPrefix + name)
    ensures name in files ==> r == Caught(Normalized(files[name], layout))
  {
    var sheet :- Fetch(files, name);
    Caught(Normalized(sheet, layout))
  }

  /** The block for the clearing summary, which yields the stated capacity. */
  function CapacityLoaded(files: map<string, Sheet>): (r: Result<Option<real>>)
    requires UploadsRectangular(files)
    ensures ClearingFile !in files ==> r == Err(MissingPrefix + ClearingFile)
    ensures ClearingFile in files ==> r == Caught(ClearingCapacity(files[ClearingFile]))
  {
    var sheet :- Fetch(files, ClearingFile);
    Caught(ClearingCapacity(sheet))
  }

  /** The sources as the upload run reads them: the blocks in the fixed order; the first
      absent workbook or the first read that raises ends the run. */
  function UploadedSources(files: map<string, Sheet>): Result<Sources>
    requires UploadsRectangular(files)
  {
    var load :- Loaded(files, LoadFile, LoadLayout);
    var renewable :- Loaded(files, RenewableFile, RenewableLayout);
    var disclosure :- Loaded(files, DisclosureFile, DisclosureLayout);
    var tieLine :- Loaded(files, TieLineFile, TieLineLayout);
    var capacity :- CapacityLoaded(files);
    var hydro :- Loaded(files, HydroFile, HydroLayout);
    var actual :- Loaded(files, ActualFile, ActualLayout);
    var tieLineRt :- Loaded(files, TieLineRtFile, TieLineLayout);
    var price :- Loaded(files, PriceFile, PriceLayout);
    Ok(Sources(load, renewable, disclosure, tieLine, capacity, hydro, actual, tieLineRt, price))
  }

  /** The uploaded workbooks as the batch run's inputs. */
  function WorkbooksOf(files: map<string, Sheet>): Workbooks
    requires AllUploaded(files)
  {
    Workbooks(files[LoadFile], files[RenewableFile], files[DisclosureFile], files[TieLineFile],
              files[ClearingFile], files[HydroFile], files[ActualFile], files[TieLineRtFile], files[PriceFile])
  }

  /** `preprocess_boundary_files(files_dict)`: the reconciled table, or the error message. */
  function BoundaryProcessed(files: map<string, Sheet>): Result<Frame>
    requires UploadsRectangular(files)
  {
    var r := UploadedSources(files);
    if r.Err? then Err(r.msg)
    else
      UploadedSourcesShaped(files);
      Ok(Reconciled(r.value))
  }

  /** With every workbook uploaded, the upload run reads the sources the batch run reads,
      and fails with the batch run's error behind the failure prefix. */
  lemma UploadedSourcesAsBatch(files: map<string, Sheet>)
    requires UploadsRectangular(files) && AllUploaded(files)
    ensures AllRectangular(WorkbooksOf(files))
    ensures UploadedSources(files) == Caught(SourcesRead(WorkbooksOf(files)))
  {
    var w := WorkbooksOf(files);
    if Normalized(w.load, LoadLayout).Err? {
    } else if Normalized(w.renewable, RenewableLayout).Err? {
    } else if Normalized(w.disclosure, DisclosureLayout).Err? {
    } else if Normalized(w.tieLine, TieLineLayout).Err? {
    } else if ClearingCapacity(w.clearing).Err? {
    } else if Normalized(w.hydro, HydroLayout).Err? {
    } else if Normalized(w.actual, ActualLayout).Err? {
    } else if Normalized(w.tieLineRt, TieLineLayout).Err? {
    } else if Normalized(w.price, PriceLayout).Err? {
    } else {
    }
  }

  /** The run reads its sources exactly when every block succeeds. */
  lemma UploadedSucceeds(files: map<string, Sheet>)
    requires UploadsRectangular(files)
    ensures UploadedSources(files).Ok? <==>
      && Loaded(files, LoadFile, LoadLayout).Ok? && Loaded(files, RenewableFile, RenewableLayout).Ok?
      && Loaded(files, DisclosureFile, DisclosureLayout).Ok? && Loaded(files, TieLineFile, TieLineLayout).Ok?
      && CapacityLoaded(files).Ok? && Loaded(files, HydroFile, HydroLayout).Ok?
      && Loaded(files, ActualFile, ActualLayout).Ok? && Loaded(files, TieLineRtFile, TieLineLayout).Ok?
      && Loaded(files, PriceFile, PriceLayout).Ok?
  {
  }

  /** A run that reads its sources found every required workbook. */
  lemma UploadedPresent(files: map<string, Sheet>)
    requires UploadsRectangular(files) && UploadedSources(files).Ok?
    ensures AllUploaded(files)
  {
    UploadedSucceeds(files);
  }

  lemma UploadedSourcesShaped(files: map<string, Sheet>)
    requires UploadsRectangular(files) && UploadedSources(files).Ok?
    ensures SourcesShaped(UploadedSources(files).value) && HasPrices(UploadedSources(files).value)
  {
    UploadedPresent(files);
    UploadedSourcesAsBatch(files);
    SourcesReadShaped(WorkbooksOf(files));
  }

  /** The blocks before the k-th required workbook all succeed. */
  predicate ReadsBefore(files: map<string, Sheet>, k: nat)
    requires UploadsRectangular(files)
  {
    && (k > 0 ==> Loaded(files, LoadFile, LoadLayout).Ok?)
    && (k > 1 ==> Loaded(files, RenewableFile, RenewableLayout).Ok?)
    && (k > 2 ==> Loaded(files, DisclosureFile, DisclosureLayout).Ok?)
    && (k > 3 ==> Loaded(files, TieLineFile, TieLineLayout).Ok?)
    && (k > 4 ==> CapacityLoaded(files).Ok?)
    && (k > 5 ==> Loaded(files, HydroFile, HydroLayout).Ok?)
    && (k > 6 ==> Loaded(files, ActualFile, ActualLayout).Ok?)
    && (k > 7 ==> Loaded(files, TieLineRtFile, TieLineLayout).Ok?)
    && (k > 8 ==> Loaded(files, PriceFile, PriceLayout).Ok?)
  }

  /** Fail fast: when the blocks before it succeed, the first absent workbook ends the
      run with its missing-file message and no table. */
  lemma FirstMissingReported(files: map<string, Sheet>, k: nat)
    requires UploadsRectangular(files) && k < |RequiredFiles|
    requires ReadsBefore(files, k) && RequiredFiles[k] !in files
    ensures BoundaryProcessed(files) == Err(MissingPrefix + RequiredFiles[k])
  {
    if k == 0 {
    } else if k == 1 {
    } else if k == 2 {
    } else if k == 3 {
    } else if k == 4 {
    } else if k == 5 {
    } else if k == 6 {
    } else if k == 7 {
    } else {
    }
  }

  /** The two kinds of message never coincide. */
  lemma MessagesDiffer(a: string, b: string)
    ensures MissingPrefix + a != FailurePrefix + b
  {
    assert (MissingPrefix + a)[0] != (FailurePrefix + b)[0];
  }

  /** A block that fails with a missing-file message names its own workbook, which is
      absent. */
  lemma BlockMissing(files: map<string, Sheet>, name: string, layout: Layout, n: string)
    requires UploadsRectangular(files) && Loaded(files, name, layout) == Err(MissingPrefix + n)
    ensures name !in files && n == name
  {
    if name in files {
      MessagesDiffer(n, Normalized(files[name], layout).msg);
    } else {
      assert n == (MissingPrefix + n)[|MissingPrefix|..];
    }
  }

  lemma CapacityMissing(files: map<string, Sheet>, n: string)
    requires UploadsRectangular(files) && CapacityLoaded(files) == Err(MissingPrefix + n)
    ensures ClearingFile !in files && n == ClearingFile
  {
    if ClearingFile in files {
      MessagesDiffer(n, ClearingCapacity(files[ClearingFile]).msg);
    } else {
      assert n == (MissingPrefix + n)[|MissingPrefix|..];
    }
  }

  lemma FirstAbsent(files: map<string, Sheet>, n: string, k: nat)
    requires UploadsRectangular(files) && k < |RequiredFiles| && RequiredFiles[k] == n
    requires n !in files && ReadsBefore(files, k)
    ensures exists j :: 0 <= j < |RequiredFiles| && RequiredFiles[j] == n && n !in files && ReadsBefore(files, j)
  {
  }

  /** A missing-file message always names the first absent required workbook: it is
      required, it is absent, and the blocks before it succeeded. */
  lemma MissingReported(files: map<string, Sheet>, n: string)
    requires UploadsRectangular(files) && BoundaryProcessed(files) == Err(MissingPrefix + n)
    ensures exists k :: 0 <= k < |RequiredFiles| && RequiredFiles[k] == n && n !in files && ReadsBefore(files, k)
  {
    RequiredOrder();
    if Loaded(files, LoadFile, LoadLayout).Err? {
      BlockMissing(files, LoadFile, LoadLayout, n);
      FirstAbsent(files, n, 0);
    } else if Loaded(files, RenewableFile, RenewableLayout).Err? {
      BlockMissing(files, RenewableFile, RenewableLayout, n);
      FirstAbsent(files, n, 1);
    } else if Loaded(files, DisclosureFile, DisclosureLayout).Err? {
      BlockMissing(files, DisclosureFile, DisclosureLayout, n);
      FirstAbsent(files, n, 2);
    } else if Loaded(files, TieLineFile, TieLineLayout).Err? {
      BlockMissing(files, TieLineFile, TieLineLayout, n);
      FirstAbsent(files, n, 3);
    } else if CapacityLoaded(files).Err? {
      CapacityMissing(files, n);
      FirstAbsent(files, n, 4);
    } else if Loaded(files, HydroFile, HydroLayout).Err? {
      BlockMissing(files, HydroFile, HydroLayout, n);
      FirstAbsent(files, n, 5);
    } else if Loaded(files, ActualFile, ActualLayout).Err? {
      BlockMissing(files, ActualFile, ActualLayout, n);
      FirstAbsent(files, n, 6);
    } else if Loaded(files, TieLineRtFile, TieLineLayout).Err? {
      BlockMissing(files, TieLineRtFile, TieLineLayout, n);
      FirstAbsent(files, n, 7);
    } else {
      BlockMissing(files, PriceFile, PriceLayout, n);
      FirstAbsent(files, n, 8);
    }
  }

  /** With every workbook uploaded, the upload run gives the batch run's table, and its
      error behind the failure prefix. */
  lemma BoundaryAsBatch(files: map<string, Sheet>)
    requires UploadsRectangular(files) && AllUploaded(files)
    ensures AllRectangular(WorkbooksOf(files))
    ensures BoundaryProcessed(files) == Caught(Preprocessed(WorkbooksOf(files)))
  {
    UploadedSourcesAsBatch(files);
  }

  /** A run with a required workbook absent produces no table. */
  lemma MissingFails(files: map<string, Sheet>, n: string)
    requires UploadsRectangular(files) && n in RequiredFiles && n !in files
    ensures BoundaryProcessed(files).Err?
  {
    if UploadedSources(files).Ok? {
      UploadedPresent(files);
      AllUploadedRequired(files);
    }
  }

  /** `preprocess_boundary_files`: each block checks for its workbook and returns the
      missing-file message when it is absent, reads it, and returns the caught error
      when the read raises; the sources read are reconciled. */
  method PreprocessBoundaryFiles(files: map<string, Sheet>) returns (r: Result<Frame>)
    requires UploadsRectangular(files)
    ensures r == BoundaryProcessed(files)
  {
    if LoadFile !in files { return Err(MissingPrefix + LoadFile); }
    var load := Normalize.Normalize(files[LoadFile], LoadLayout);
    if load.Err? { return Err(FailurePrefix + load.msg); }
    if RenewableFile !in files { return Err(MissingPrefix + RenewableFile); }
    var renewable := Normalize.Normalize(files[RenewableFile], RenewableLayout);
    if renewable.Err? { return Err(FailurePrefix + renewable.msg); }
    if DisclosureFile !in files { return Err(MissingPrefix + DisclosureFile); }
    var disclosure := Normalize.Normalize(files[DisclosureFile], DisclosureLayout);
    if disclosure.Err? { return Err(FailurePrefix + disclosure.msg); }
    if TieLineFile !in files { return Err(MissingPrefix + TieLineFile); }
    var tieLine := Normalize.Normalize(files[TieLineFile], TieLineLayout);
    if tieLine.Err? { return Err(FailurePrefix + tieLine.msg); }
    if ClearingFile !in files { return Err(MissingPrefix + ClearingFile); }
    var capacity := ClearingCapacity(files[ClearingFile]);
    if capacity.Err? { return Err(FailurePrefix + capacity.msg); }
    if HydroFile !in files { return Err(MissingPrefix + HydroFile); }
    var hydro := Normalize.Normalize(files[HydroFile], HydroLayout);
    if hydro.Err? { return Err(FailurePrefix + hydro.msg); }
    if ActualFile !in files { return Err(MissingPrefix + ActualFile); }
    var actual := Normalize.Normalize(files[ActualFile], ActualLayout);
    if actual.Err? { return Err(FailurePrefix + actual.msg); }
    if TieLineRtFile !in files { return Err(MissingPrefix + TieLineRtFile); }
    var tieLineRt := Normalize.Normalize(files[TieLineRtFile], TieLineLayout);
    if tieLineRt.Err? { return Err(FailurePrefix + tieLineRt.msg); }
    if PriceFile !in files { return Err(MissingPrefix + PriceFile); }
    var price := Normalize.Normalize(files[PriceFile], PriceLayout);
    if price.Err? { return Err(FailurePrefix + price.msg); }
    var src := Sources(load.value, renewable.value, disclosure.value, tieLine.value, capacity.value,
                       hydro.value, actual.value, tieLineRt.value, price.value);
    assert UploadedSources(files) == Ok(src);
    UploadedSourcesShaped(files);
    var table := Reconcile.Reconcile(src);
    return Ok(table);
  }

  // ---- the checklist of required uploads ---------------------------------------------

  /** `files_dict`: each upload under its name, a later upload of a name replacing an
      earlier one. */
  function Collected(uploads: seq<(string, Sheet)>): (files: map<string, Sheet>)
    ensures forall n :: n in files <==> exists i :: 0 <= i < |uploads| && uploads[i].0 == n
  {
    if uploads == [] then map[]
    else
      var last := uploads[|uploads| - 1];
      var earlier := Collected(uploads[..|uploads| - 1]);
      assert forall i :: 0 <= i < |uploads| - 1 ==> uploads[..|uploads| - 1][i] == uploads[i];
      earlier[last.0 := last.1]
  }

  /** The workbook kept under a name is the last one uploaded under it. */
  lemma {:induction false} CollectedLast(uploads: seq<(string, Sheet)>, i: nat)
    requires i < |uploads| && forall j :: i < j < |uploads| ==> uploads[j].0 != uploads[i].0
    ensures uploads[i].0 in Collected(uploads) && Collected(uploads)[uploads[i].0] == uploads[i].1
  {
    if i < |uploads| - 1 {
      var earlier := uploads[..|uploads| - 1];
      assert forall j :: i < j < |earlier| ==> earlier[j] == uploads[j];
      CollectedLast(earlier, i);
    }
  }

  function NotUploaded(files: map<string, Sheet>): string -> bool
  {
    (n: string) => n !in files
  }

  /** An entry of the checklist left unticked. */
  function Unticked(found: map<string, bool>): string -> bool
  {
    (n: string) => n in found && !found[n]
  }

  /** `missing_files`: the required workbooks not uploaded, in the fixed order. */
  function MissingFiles(files: map<string, Sheet>): (missing: seq<string>)
    ensures forall n :: n in missing <==> n in RequiredFiles && n !in files
    ensures IsSubsequence(missing, RequiredFiles)
  {
    WhereIsSubsequence(RequiredFiles, NotUploaded(files));
    Where(RequiredFiles, NotUploaded(files))
  }

  /** The checklist reads clear exactly when every required workbook is uploaded. */
  lemma NothingMissing(files: map<string, Sheet>)
    ensures MissingFiles(files) == [] <==> AllUploaded(files)
  {
    AllUploadedRequired(files);
    if MissingFiles(files) != [] {
      assert MissingFiles(files)[0] in MissingFiles(files);
    }
  }

  /** The checklist and the run agree: with the checklist clear the run never reports
      a missing workbook, and with a workbook missing it produces no table. */
  lemma ChecklistGuardsRun(files: map<string, Sheet>)
    requires UploadsRectangular(files)
    ensures MissingFiles(files) == [] ==> forall n :: BoundaryProcessed(files) != Err(MissingPrefix + n)
    ensures MissingFiles(files) != [] ==> BoundaryProcessed(files).Err?
  {
    if MissingFiles(files) == [] {
      forall n ensures BoundaryProcessed(files) != Err(MissingPrefix + n) {
        if BoundaryProcessed(files) == Err(MissingPrefix + n) {
          MissingReported(files, n);
        }
      }
    } else {
      var n := MissingFiles(files)[0];
      assert n in MissingFiles(files);
      MissingFails(files, n);
    }
  }

  /** The upload page: each uploaded workbook is filed under its name and ticks its
      entry of the checklist; the unticked entries are listed as missing, and the run
      is enabled exactly when none is. */
  method CheckUploads(uploads: seq<(string, Sheet)>) returns (files: map<string, Sheet>, missing: seq<string>, ready: bool)
    ensures files == Collected(uploads)
    ensures missing == MissingFiles(files)
    ensures ready <==> AllUploaded(files)
  {
    var found: map<string, bool> := map n | n in RequiredFiles :: false;
    files := map[];
    var i := 0;
    while i < |uploads|
      invariant 0 <= i <= |uploads|
      invariant files == Collected(uploads[..i])
      invariant forall n :: n in found <==> n in RequiredFiles
      invariant forall n :: n in found ==> (found[n] <==> n in files)
    {
      var name := uploads[i].0;
      files := files[name := uploads[i].1];
      if name in found {
        found := found[name := true];
      }
      assert uploads[..i + 1][..i] == uploads[..i];
      i := i + 1;
    }
    assert uploads[..i] == uploads;
    missing := Where(RequiredFiles, Unticked(found));
    WhereSame(RequiredFiles, Unticked(found), NotUploaded(files));
    ready := |missing| == 0;
    NothingMissing(files);
  }

  // ---- company names and the trading workbooks ---------------------------------------

  /** `s.rfind(c)`: the last position of c in s, or -1 when c does not occur. */
  function LastIndex(s: string, c: char): (i: int)
    ensures -1 <= i < |s|
    ensures i >= 0 ==> s[i] == c
    ensures forall j :: i < j < |s| ==> s[j] != c
  {
    if s == [] then -1
    else if s[|s| - 1] == c then |s| - 1
    else LastIndex(s[..|s| - 1], c)
  }

  /** `Path(p).name`: what follows the last '/'. */
  function BaseName(path: string): (name: string)
    ensures '/' !in name
    ensures '/' !in path ==> name == path
  {
    path[LastIndex(path, '/') + 1..]
  }

  /** `Path(p).stem` of a base name: the name without its last suffix, where a suffix
      starts at a '.' that is neither the first nor the last character. */
  function Stem(name: string): (stem: string)
    ensures |stem| <= |name| && stem == name[..|stem|]
    ensures var i := LastIndex(name, '.'); 0 < i < |name| - 1 ==> |stem| == i
  {
    var i := LastIndex(name, '.');
    if 0 < i < |name| - 1 then name[..i] else name
  }

  /** `s.split(c)[0]`: what precedes the first c, or all of s. */
  function BeforeFirst(s: string, c: char): (r: string)
    ensures c !in r && |r| <= |s| && r == s[..|r|]
    ensures |r| < |s| ==> s[|r|] == c
  {
    if s == [] || s[0] == c then []
    else [s[0]] + BeforeFirst(s[1..], c)
  }

  /** The company of a trading workbook: the stem of its file name up to the first
      '-'. */
  function CompanyName(fileName: string): (company: string)
    ensures '-' !in company && '/' !in company
    ensures '-' !in Stem(BaseName(fileName)) ==> company == Stem(BaseName(fileName))
  {
    BeforeFirst(Stem(BaseName(fileName)), '-')
  }

  lemma {:induction false} BeforeFirstOf(a: string, c: char, b: string)
    requires c !in a
    ensures BeforeFirst(a + [c] + b, c) == a
  {
    if a != [] {
      assert (a + [c] + b)[1..] == a[1..] + [c] + b;
      BeforeFirstOf(a[1..], c, b);
    }
  }

  /** A file named `company-rest.ext` belongs to `company`. */
  lemma CompanyNameOf(company: string, rest: string, ext: string)
    requires '-' !in company && '/' !in company && '/' !in rest && '/' !in ext
    requires ext != [] && '.' !in ext
    ensures CompanyName(company + "-" + rest + "." + ext) == company
  {
    var stem := company + "-" + rest;
    var name := stem + "." + ext;
    assert '/' !in name;
    var i := LastIndex(name, '.');
    assert name[|stem|] == '.' && name[|stem| + 1..] == ext;
    assert i == |stem|;
    assert Stem(name) == stem;
    BeforeFirstOf(company, '-', rest);
  }

  /** An uploaded trading workbook: its name and its rows, or None when reading its
      trading sheet raises. */
  datatype TradingUpload = TradingUpload(name: string, rows: Option<seq<TradingTable.TradingRow>>)

  /** `df["公司名称"] = company`. */
  function Stamped(rows: seq<TradingTable.TradingRow>, company: string): (r: seq<TradingTable.TradingRow>)
    ensures |r| == |rows|
    ensures forall i :: 0 <= i < |rows| ==> r[i] == rows[i].(company := Some(company))
  {
    seq(|rows|, i requires 0 <= i < |rows| => rows[i].(company := Some(company)))
  }

  /** `all_data`: the stamped rows of every workbook that reads, in upload order. */
  function Parsed(uploads: seq<TradingUpload>): seq<seq<TradingTable.TradingRow>>
  {
    if uploads == [] then []
    else
      var u := uploads[|uploads| - 1];
      Parsed(uploads[..|uploads| - 1]) + if u.rows.Some? then [Stamped(u.rows.value, CompanyName(u.name))] else []
  }

  /** The names of the workbooks whose reads raised, in upload order. */
  function Failed(uploads: seq<TradingUpload>): seq<string>
  {
    if uploads == [] then []
    else
      var u := uploads[|uploads| - 1];
      Failed(uploads[..|uploads| - 1]) + if u.rows.None? then [u.name] else []
  }

  /** `pd.concat(all_data, ignore_index=True)`. */
  function Flatten(parts: seq<seq<TradingTable.TradingRow>>): seq<TradingTable.TradingRow>
  {
    if parts == [] then [] else Flatten(parts[..|parts| - 1]) + parts[|parts| - 1]
  }

  /** `process_trading_files`: the merged table, None when no workbook reads. */
  function TradingMerged(uploads: seq<TradingUpload>): Option<seq<TradingTable.TradingRow>>
  {
    var parts := Parsed(uploads);
    if parts == [] then None else Some(Flatten(parts))
  }

  /** Every workbook either reads or is reported, never both. */
  lemma {:induction false} TradingPartition(uploads: seq<TradingUpload>)
    ensures |Parsed(uploads)| + |Failed(uploads)| == |uploads|
  {
    if uploads != [] {
      TradingPartition(uploads[..|uploads| - 1]);
    }
  }

  /** The reported names are those of the workbooks whose reads raised. */
  lemma {:induction false} FailedNames(uploads: seq<TradingUpload>)
    ensures forall n :: n in Failed(uploads) <==> exists i :: 0 <= i < |uploads| && uploads[i].rows.None? && uploads[i].name == n
  {
    if uploads != [] {
      var earlier := uploads[..|uploads| - 1];
      var u := uploads[|uploads| - 1];
      FailedNames(earlier);
      forall n | n in Failed(uploads)
        ensures exists i :: 0 <= i < |uploads| && uploads[i].rows.None? && uploads[i].name == n
      {
        if n in Failed(earlier) {
          var i :| 0 <= i < |earlier| && earlier[i].rows.None? && earlier[i].name == n;
          assert uploads[i] == earlier[i];
        } else {
          assert uploads[|uploads| - 1].name == n;
        }
      }
      forall i | 0 <= i < |uploads| && uploads[i].rows.None?
        ensures uploads[i].name in Failed(uploads)
      {
        if i < |earlier| {
          assert uploads[i] == earlier[i];
        }
      }
    }
  }

  /** The merge is None exactly when no workbook reads. */
  lemma {:induction false} TradingMergedNone(uploads: seq<TradingUpload>)
    ensures TradingMerged(uploads).None? <==> forall i :: 0 <= i < |uploads| ==> uploads[i].rows.None?
  {
    if uploads != [] {
      var earlier := uploads[..|uploads| - 1];
      TradingMergedNone(earlier);
      assert forall i :: 0 <= i < |earlier| ==> earlier[i] == uploads[i];
    }
  }

  /** x is a row of the workbook u, stamped with u's company. */
  predicate FromUpload(u: TradingUpload, x: TradingTable.TradingRow)
  {
    u.rows.Some? && x in Stamped(u.rows.value, CompanyName(u.name))
  }

  function LastStamped(u: TradingUpload): seq<TradingTable.TradingRow>
  {
    if u.rows.Some? then Stamped(u.rows.value, CompanyName(u.name)) else []
  }

  lemma FlattenParsedLast(uploads: seq<TradingUpload>)
    requires uploads != []
    ensures Flatten(Parsed(uploads)) == Flatten(Parsed(uploads[..|uploads| - 1])) + LastStamped(uploads[|uploads| - 1])
  {
    var parts := Parsed(uploads);
    if uploads[|uploads| - 1].rows.Some? {
      assert parts[..|parts| - 1] == Parsed(uploads[..|uploads| - 1]);
    } else {
      assert parts == Parsed(uploads[..|uploads| - 1]);
    }
  }

  /** Each row of the merge is a stamped row of a workbook that read. */
  lemma {:induction false} TradingRowsSound(uploads: seq<TradingUpload>)
    ensures forall x :: x in Flatten(Parsed(uploads)) ==> exists i :: 0 <= i < |uploads| && FromUpload(uploads[i], x)
  {
    if uploads != [] {
      var earlier := uploads[..|uploads| - 1];
      TradingRowsSound(earlier);
      FlattenParsedLast(uploads);
      forall x | x in Flatten(Parsed(uploads))
        ensures exists i :: 0 <= i < |uploads| && FromUpload(uploads[i], x)
      {
        if x in Flatten(Parsed(earlier)) {
          var i :| 0 <= i < |earlier| && FromUpload(earlier[i], x);
          assert uploads[i] == earlier[i];
        } else {
          assert FromUpload(uploads[|uploads| - 1], x);
        }
      }
    }
  }

  /** Each stamped row of a workbook that read is in the merge. */
  lemma {:induction false} TradingRowsComplete(uploads: seq<TradingUpload>)
    ensures forall i, x :: 0 <= i < |uploads| && FromUpload(uploads[i], x) ==> x in Flatten(Parsed(uploads))
  {
    if uploads != [] {
      var earlier := uploads[..|uploads| - 1];
      TradingRowsComplete(earlier);
      FlattenParsedLast(uploads);
      forall i, x | 0 <= i < |uploads| && FromUpload(uploads[i], x)
        ensures x in Flatten(Parsed(uploads))
      {
        if i < |uploads| - 1 {
          assert FromUpload(earlier[i], x);
        } else {
          assert x in LastStamped(uploads[|uploads| - 1]);
        }
      }
    }
  }

  /** Every row of the merge carries the company of the workbook it came from, and
      the rows of each workbook that read are all in it. */
  lemma TradingCompanies(uploads: seq<TradingUpload>)
    requires TradingMerged(uploads).Some?
    ensures forall x :: x in TradingMerged(uploads).value ==>
      exists i :: 0 <= i < |uploads| && uploads[i].rows.Some? && x.company == Some(CompanyName(uploads[i].name))
    ensures forall i, j :: 0 <= i < |uploads| && uploads[i].rows.Some? && 0 <= j < |uploads[i].rows.value| ==>
      uploads[i].rows.value[j].(company := Some(CompanyName(uploads[i].name))) in TradingMerged(uploads).value
  {
    TradingRowsSound(uploads);
    TradingRowsComplete(uploads);
    forall i, j | 0 <= i < |uploads| && uploads[i].rows.Some? && 0 <= j < |uploads[i].rows.value|
      ensures uploads[i].rows.value[j].(company := Some(CompanyName(uploads[i].name))) in TradingMerged(uploads).value
    {
      assert FromUpload(uploads[i], Stamped(uploads[i].rows.value, CompanyName(uploads[i].name))[j]);
    }
  }

  lemma TradingStep(uploads: seq<TradingUpload>, i: nat)
    requires i < |uploads|
    ensures var u := uploads[i];
      && Parsed(uploads[..i + 1]) == Parsed(uploads[..i]) + (if u.rows.Some? then [Stamped(u.rows.value, CompanyName(u.name))] else [])
      && Failed(uploads[..i + 1]) == Failed(uploads[..i]) + (if u.rows.None? then [u.name] else [])
  {
    assert uploads[..i + 1][..i] == uploads[..i];
  }

  /** The loop of `process_trading_files`: each workbook stamped with its company and
      kept, or reported when its read raises; the kept ones concatenated. */
  method ProcessTradingFiles(uploads: seq<TradingUpload>) returns (merged: Option<seq<TradingTable.TradingRow>>, errors: seq<string>)
    ensures merged == TradingMerged(uploads)
    ensures errors == Failed(uploads)
  {
    var allData: seq<seq<TradingTable.TradingRow>> := [];
    errors := [];
    for i := 0 to |uploads|
      invariant allData == Parsed(uploads[..i])
      invariant errors == Failed(uploads[..i])
    {
      var u := uploads[i];
      var company := CompanyName(u.name);
      TradingStep(uploads, i);
      if u.rows.Some? {
        allData := allData + [Stamped(u.rows.value, company)];
      } else {
        errors := errors + [u.name];
      }
    }
    assert uploads[..|uploads|] == uploads;
    if allData == [] {
      return None, errors;
    }
    return Some(Flatten(allData)), errors;
  }
}
