/** merge_datasets_GDP: for each survey file, latest vintage first, take the
    first contiguous run of rows for the target quarter and densify it to the
    150-forecaster panel; the panels are concatenated.  An exception raised
    for one file ends the whole run. */
module GdpMerge {
  import opened Wrappers
  import opened Decimal
  import opened Periods
  import opened FileSelector
  import opened Frame
  import opened Panel
  import opened GdpScan
  import opened MergeCommon

  /** The target label of a vintage, or the exception raised while computing
      it: `filename.split('Q')` needs exactly one 'Q', and the quarter
      `'Q' + quarter[:-4]` must be a key of the quarter table. */
  function GdpLabel(name: string): (r: Result<string, Failure>)
    requires MatchesVintage(name)
    ensures r.Err? ==> r.error == SplitFailed(name) || r.error == UnknownQuarter(name)
    ensures r.Ok? <==> |name| == 10
    ensures r.Ok? ==> IsNumeral(name[..4]) && GdpTargetPeriod(name[..4], name[4..6]).Some?
                      && r.value == GdpTargetPeriod(name[..4], name[4..6]).value.Text()
  {
    ShortVintageSplits(name);
    match SplitOnQ(name)
    case None => Err(SplitFailed(name))
    case Some(parts) =>
      SplitVintage(name);
      assert IsNumeral(name[..4]);
      var quarter := "Q" + parts.1[..|parts.1| - 4];
      QuarterOfName(name);
      match GdpTargetPeriod(parts.0, quarter)
      case None => Err(UnknownQuarter(name))
      case Some(p) => Ok(p.Text())
  }

  /** `'Q' + quarter[:-4]` is a key of the quarter table exactly when nothing
      follows ".csv" in the name, and it is then the name's "Q" and digit. */
  lemma QuarterOfName(name: string)
    requires MatchesVintage(name)
    ensures QuarterOfKey("Q" + name[5..][..|name[5..]| - 4]).Some? <==> |name| == 10
    ensures |name| == 10 ==> "Q" + name[5..][..|name[5..]| - 4] == name[4..6]
  {
    var quarter := "Q" + name[5..][..|name[5..]| - 4];
    assert |quarter| == |name| - 8;
    if |name| == 10 {
      assert quarter == name[4..6];
    }
  }
  /** A longer name that passes the filter and splits, such as
      `2021Q1.csv.bak`, raises `KeyError` at the quarter lookup. */
  lemma GdpLongNameRaises(name: string)
    requires MatchesVintage(name) && |name| > 10 && multiset(name)['Q'] == 1
    ensures GdpLabel(name) == Err(UnknownQuarter(name))
  {
  }

  /** The block rows carry the target label. */
  lemma BlockPeriods<P>(rows: seq<Row<P>>, target: string)
    ensures forall k :: 0 <= k < |FirstBlock(rows, target)| ==> FirstBlock(rows, target)[k].period == Some(target)
  {
    BlockRowsMatch(rows, target);
    forall k | 0 <= k < |FirstBlock(rows, target)| ensures FirstBlock(rows, target)[k].period == Some(target) {
      assert FirstBlock(rows, target)[k] in FirstBlock(rows, target);
    }
  }

  /** One pass of the loop: the exception it raises, no panel (the scan found
      no row for the target), or the panel it adds.  `df` is
      `pd.read_csv(file_path, header=1)`. */
  function GdpContribution<P>(name: string, df: Table<P>): Result<Option<seq<PanelRow<P>>>, Failure>
    requires MatchesVintage(name)
  {
    match GdpLabel(name)
    case Err(e) => Err(e)
    case Ok(target) =>
      if !df.columns.targetPeriod && df.rows != [] then Err(MissingColumn(name, "TARGET_PERIOD"))
      else
        var block := FirstBlock(df.rows, target);
        if block == [] then Ok(None)
        else if !df.columns.fctSource then Err(MissingColumn(name, "FCT_SOURCE"))
        else if !SourcesPresent(block) then Err(NullSource(name))
        else
          BlockPeriods(df.rows, target);
          Ok(Some(Densify(target, ToRecords(block))))
  }

  /** `pd.concat([growth_data, temp_df_full]) if growth_data is not None else temp_df_full`. */
  function Append<T>(acc: Option<seq<T>>, block: seq<T>): (r: Option<seq<T>>)
    ensures r.Some? && r.value == (if acc.Some? then acc.value else []) + block
  {
    if acc.Some? then Some(acc.value + block) else Some(block)
  }

  /** One pass folded in: a file without a block leaves `growth_data` as it is. */
  function AddPanel<T>(acc: Option<seq<T>>, step: Option<seq<T>>): Option<seq<T>> {
    match step
    case None => acc
    case Some(block) => Append(acc, block)
  }

  /** The result of the loop body for each file, in processing order.  `load`
      is `pd.read_csv(file_path, header=1)`. */
  function Contributions<P>(files: seq<string>, load: string -> Table<P>): (r: seq<Result<Option<seq<PanelRow<P>>>, Failure>>)
    requires AllVintages(files)
    ensures |r| == |files|
    ensures forall k :: 0 <= k < |files| ==> r[k] == GdpContribution(files[k], load(files[k]))
  {
    seq(|files|, k requires 0 <= k < |files| => GdpContribution(files[k], load(files[k])))
  }

  /** `growth_data` after the loop has processed `files`, or the exception
      that stopped it. */
  function GdpPanel<P>(files: seq<string>, load: string -> Table<P>): Result<Option<seq<PanelRow<P>>>, Failure>
    requires AllVintages(files)
  {
    Fold(None, AddPanel, Contributions(files, load))
  }

  /** The run: the exception, or what is written to GDP_SPF.csv. */
  function GdpRun<P>(names: seq<string>, load: string -> Table<P>): Result<Output<PanelRow<P>>, Failure> {
    SelectedVintages(names);
    match GdpPanel(SelectFiles(names), load)
    case Err(e) => Err(e)
    case Ok(None) => Ok(NotWritten)
    case Ok(Some(rows)) => Ok(Written(rows))
  }

  /** The body of the loop for one file, written with the source's early
      exceptions; it computes the pass function `GdpContribution`. */
  method GdpFile<P>(filename: string, df: Table<P>) returns (result: Result<Option<seq<PanelRow<P>>>, Failure>)
    requires MatchesVintage(filename)
    ensures result == GdpContribution(filename, df)
  {
    var computed := GdpLabel(filename);
    if computed.Err? {
      return Err(computed.error);
    }
    var targetPeriod := computed.value;
    if !df.columns.targetPeriod && df.rows != [] {
      return Err(MissingColumn(filename, "TARGET_PERIOD"));
    }
    var tempData := ScanBlock(df.rows, targetPeriod);
    if tempData == [] {
      return Ok(None);
    }
    if !df.columns.fctSource {
      return Err(MissingColumn(filename, "FCT_SOURCE"));
    }
    if !SourcesPresent(tempData) {
      return Err(NullSource(filename));
    }
    BlockPeriods(df.rows, targetPeriod);
    var tempDfFull := Densify(targetPeriod, ToRecords(tempData));
    return Ok(Some(tempDfFull));
  }

  lemma ContributionsPrefix<P>(files: seq<string>, load: string -> Table<P>, m: nat)
    requires AllVintages(files) && m <= |files|
    ensures AllVintages(files[..m])
    ensures Contributions(files[..m], load) == Contributions(files, load)[..m]
  {
    assert forall k :: 0 <= k < m ==> files[..m][k] == files[k];
  }

  /** One more file processed. */
  lemma GdpStep<P>(files: seq<string>, i: nat, load: string -> Table<P>)
    requires AllVintages(files) && i < |files|
    ensures AllVintages(files[..i]) && AllVintages(files[..i + 1])
    ensures GdpPanel(files[..i + 1], load) == Then(GdpPanel(files[..i], load), AddPanel, GdpContribution(files[i], load(files[i])))
  {
    ContributionsPrefix(files[..i + 1], load, i);
    assert files[..i + 1][..i] == files[..i];
  }

  lemma GdpErrorPersists<P>(files: seq<string>, n: nat, load: string -> Table<P>)
    requires AllVintages(files) && n <= |files|
    requires AllVintages(files[..n]) && GdpPanel(files[..n], load).Err?
    ensures GdpPanel(files, load) == GdpPanel(files[..n], load)
  {
    ContributionsPrefix(files, load, n);
    FoldErrorPersists(None, AddPanel, Contributions(files, load), n);
  }

  /** The loop of merge_datasets_GDP over the selected files. */
  method AccumulateGdp<P>(files: seq<string>, load: string -> Table<P>)
    returns (result: Result<Option<seq<PanelRow<P>>>, Failure>)
    requires AllVintages(files)
    ensures result == GdpPanel(files, load)
  {
    var growthData: Option<seq<PanelRow<P>>> := None;
    var i := 0;
    assert files[..0] == [];
    while i < |files|
      invariant 0 <= i <= |files|
      invariant AllVintages(files[..i])
      invariant GdpPanel(files[..i], load) == Ok(growthData)
    {
      GdpStep(files, i, load);
      var step := GdpFile(files[i], load(files[i]));
      if step.Err? {
        GdpErrorPersists(files, i + 1, load);
        return Err(step.error);
      }
      if step.value.Some? {
        growthData := Append(growthData, step.value.value);
      }
      i := i + 1;
    }
    assert files[..i] == files;
    result := Ok(growthData);
  }

  /** merge_datasets_GDP over a directory listing. */
  method MergeGdp<P>(names: seq<string>, load: string -> Table<P>) returns (out: Result<Output<PanelRow<P>>, Failure>)
    ensures out == GdpRun(names, load)
  {
    var files := SelectFiles(names);
    SelectedVintages(names);
    var growthData := AccumulateGdp(files, load);
    if growthData.Err? {
      return Err(growthData.error);
    }
    out := if growthData.value.Some? then Ok(Written(growthData.value.value)) else Ok(NotWritten);
  }

  // ----- Properties of one file's contribution -----

  /** A file that adds a panel adds the full panel for its target label. */
  lemma GdpContributionShape<P(!new)>(name: string, df: Table<P>)
    requires MatchesVintage(name) && GdpContribution(name, df).Ok? && GdpContribution(name, df).value.Some?
    ensures GdpLabel(name).Ok?
    ensures |GdpContribution(name, df).value.value| >= PANEL_SIZE
    ensures forall r :: r in GdpContribution(name, df).value.value ==>
              r.period == GdpLabel(name).value && 1 <= r.source <= PANEL_SIZE
  {
    var target := GdpLabel(name).value;
    var block := FirstBlock(df.rows, target);
    BlockPeriods(df.rows, target);
    DensifyShape(target, ToRecords(block));
  }

  /** With the label computed and the TARGET_PERIOD column present (or no rows
      at all), the file adds nothing exactly when no row has the label. */
  lemma GdpNothingIff<P>(name: string, df: Table<P>)
    requires MatchesVintage(name) && GdpLabel(name).Ok?
    requires df.columns.targetPeriod || df.rows == []
    ensures GdpContribution(name, df) == Ok(None) <==>
            forall k :: 0 <= k < |df.rows| ==> !IsTarget(df.rows[k], GdpLabel(name).value)
  {
    BlockEmptyIff(df.rows, GdpLabel(name).value);
  }

  /** Every row of the first run of target rows whose forecaster id is in the
      panel reaches the output with its columns. */
  lemma GdpContributionKeeps<P(!new)>(name: string, df: Table<P>, id: int, payload: P)
    requires MatchesVintage(name) && GdpLabel(name).Ok?
    requires df.columns.targetPeriod && df.columns.fctSource
    requires SourcesPresent(FirstBlock(df.rows, GdpLabel(name).value))
    requires Row(Some(GdpLabel(name).value), Some(id), payload) in FirstBlock(df.rows, GdpLabel(name).value)
    requires 1 <= id <= PANEL_SIZE
    ensures GdpContribution(name, df).Ok? && GdpContribution(name, df).value.Some?
    ensures PanelRow(id, GdpLabel(name).value, Some(payload)) in GdpContribution(name, df).value.value
  {
    var target := GdpLabel(name).value;
    var block := FirstBlock(df.rows, target);
    BlockPeriods(df.rows, target);
    var records := ToRecords(block);
    assert GdpContribution(name, df) == Ok(Some(Densify(target, records)));
    var j :| 0 <= j < |block| && block[j] == Row(Some(target), Some(id), payload);
    assert records[j] == Record(target, id, payload);
    DensifyCovers(target, records, id);
  }

  /** What a file that adds a panel has passed through. */
  lemma GdpContributionAdded<P>(name: string, df: Table<P>)
    requires MatchesVintage(name) && GdpContribution(name, df).Ok? && GdpContribution(name, df).value.Some?
    ensures GdpLabel(name).Ok?
    ensures SourcesPresent(FirstBlock(df.rows, GdpLabel(name).value))
    ensures forall k :: 0 <= k < |FirstBlock(df.rows, GdpLabel(name).value)| ==>
              FirstBlock(df.rows, GdpLabel(name).value)[k].period == Some(GdpLabel(name).value)
    ensures GdpContribution(name, df).value.value ==
            Densify(GdpLabel(name).value, ToRecords(FirstBlock(df.rows, GdpLabel(name).value)))
  {
    BlockPeriods(df.rows, GdpLabel(name).value);
  }

  /** Every forecaster row carrying values carries those of a row of the first
      run of target rows with that forecaster id. */
  lemma GdpContributionSound<P(!new)>(name: string, df: Table<P>, r: PanelRow<P>)
    requires MatchesVintage(name) && GdpContribution(name, df).Ok? && GdpContribution(name, df).value.Some?
    requires r in GdpContribution(name, df).value.value && r.payload.Some?
    ensures GdpLabel(name).Ok?
    ensures Row(Some(GdpLabel(name).value), Some(r.source), r.payload.value) in FirstBlock(df.rows, GdpLabel(name).value)
  {
    GdpContributionAdded(name, df);
    var target := GdpLabel(name).value;
    var block := FirstBlock(df.rows, target);
    var records := ToRecords(block);
    DensifySound(target, records, r);
    var j :| 0 <= j < |records| && records[j] == Record(target, r.source, r.payload.value);
    assert block[j] == Row(Some(target), Some(r.source), r.payload.value);
    assert block[j] in block;
  }

  // ----- Properties of the run -----

  /** Each pass that adds something adds a full panel. */
  ghost predicate FullPanels<P(!new)>(steps: seq<Result<Option<seq<PanelRow<P>>>, Failure>>) {
    forall k :: 0 <= k < |steps| && steps[k].Ok? && steps[k].value.Some? ==>
      |steps[k].value.value| >= PANEL_SIZE &&
      forall r :: r in steps[k].value.value ==> 1 <= r.source <= PANEL_SIZE
  }

  /** A successful outcome holds rows exactly when some pass added a panel;
      then it has at least 150 rows, all forecaster rows of the panel. */
  lemma {:induction false} AddPanelWritten<P(!new)>(steps: seq<Result<Option<seq<PanelRow<P>>>, Failure>>)
    requires Fold(None, AddPanel, steps).Ok? && FullPanels(steps)
    ensures Fold(None, AddPanel, steps).value.Some? <==> exists k :: 0 <= k < |steps| && steps[k].Ok? && steps[k].value.Some?
    ensures Fold(None, AddPanel, steps).value.Some? ==>
              |Fold(None, AddPanel, steps).value.value| >= PANEL_SIZE &&
              forall r: PanelRow<P> :: r in Fold(None, AddPanel, steps).value.value ==> 1 <= r.source <= PANEL_SIZE
    decreases |steps|
  {
    if steps != [] {
      var n := |steps| - 1;
      var before := steps[..n];
      assert forall k :: 0 <= k < n ==> before[k] == steps[k];
      assert FullPanels(before);
      AddPanelWritten(before);
    }
  }

  /** Every file that adds a panel adds a full one. */
  lemma ContributionsAll<P(!new)>(files: seq<string>, load: string -> Table<P>)
    requires AllVintages(files)
    ensures FullPanels(Contributions(files, load))
  {
    forall k | 0 <= k < |files| && GdpContribution(files[k], load(files[k])).Ok? && GdpContribution(files[k], load(files[k])).value.Some?
      ensures |GdpContribution(files[k], load(files[k])).value.value| >= PANEL_SIZE
      ensures forall r :: r in GdpContribution(files[k], load(files[k])).value.value ==> 1 <= r.source <= PANEL_SIZE
    {
      GdpContributionShape(files[k], load(files[k]));
    }
  }

  /** The run over a directory listing fails exactly when a selected file
      raises. */
  lemma GdpRunOk<P(!new)>(names: seq<string>, load: string -> Table<P>)
    ensures AllVintages(SelectFiles(names))
    ensures GdpRun(names, load).Ok? <==>
            forall k :: 0 <= k < |SelectFiles(names)| ==>
              GdpContribution(SelectFiles(names)[k], load(SelectFiles(names)[k])).Ok?
  {
    var files := SelectFiles(names);
    SelectedVintages(names);
    ContributionsAll(files, load);
    FoldOkIff(None, AddPanel, Contributions(files, load));
  }

  /** A failed run fails with the exception of the first selected file that
      raises. */
  lemma GdpRunFirstError<P(!new)>(names: seq<string>, load: string -> Table<P>)
    requires GdpRun(names, load).Err?
    ensures AllVintages(SelectFiles(names))
    ensures exists k :: 0 <= k < |SelectFiles(names)| &&
              GdpContribution(SelectFiles(names)[k], load(SelectFiles(names)[k])) == Err(GdpRun(names, load).error) &&
              forall j :: 0 <= j < k ==> GdpContribution(SelectFiles(names)[j], load(SelectFiles(names)[j])).Ok?
  {
    var files := SelectFiles(names);
    SelectedVintages(names);
    ContributionsAll(files, load);
    FoldFirstError(None, AddPanel, Contributions(files, load));
  }

  /** A successful run writes GDP_SPF.csv exactly when a selected file adds a
      panel; the file then holds at least 150 rows, all forecaster rows of
      the panel. */
  lemma GdpRunWritten<P(!new)>(names: seq<string>, load: string -> Table<P>)
    requires GdpRun(names, load).Ok?
    ensures AllVintages(SelectFiles(names))
    ensures GdpRun(names, load).value.Written? <==>
            exists k :: 0 <= k < |SelectFiles(names)| &&
              GdpContribution(SelectFiles(names)[k], load(SelectFiles(names)[k])).Ok? &&
              GdpContribution(SelectFiles(names)[k], load(SelectFiles(names)[k])).value.Some?
    ensures GdpRun(names, load).value.Written? ==>
              |GdpRun(names, load).value.rows| >= PANEL_SIZE &&
              forall r :: r in GdpRun(names, load).value.rows ==> 1 <= r.source <= PANEL_SIZE
  {
    var files := SelectFiles(names);
    SelectedVintages(names);
    ContributionsAll(files, load);
    AddPanelWritten(Contributions(files, load));
  }
}
