/** merge_datasets_unemployment: for each survey file, latest vintage first,
    keep the rows whose TARGET_PERIOD is the target month and densify them to
    the 150-forecaster panel; every file adds its panel, and an exception
    raised for one file ends the whole run. */
module UnemploymentMerge {
  import opened Wrappers
  import opened Decimal
  import opened Periods
  import opened FileSelector
  import opened Frame
  import opened Panel
  import opened MergeCommon

  /** The target label of a vintage, or the exception raised while computing
      it.  The quarter `'Q' + quarter[0]` is built from the digit after the
      Q, which the vintage pattern restricts to 1..4, so the month table
      lookup never fails: only `filename.split('Q')` can. */
  function UnemploymentLabel(name: string): (r: Result<string, Failure>)
    requires MatchesVintage(name)
    ensures r.Err? <==> SplitOnQ(name).None?
    ensures r.Err? ==> r.error == SplitFailed(name)
    // A non-empty label, as the label filter's lemmas require.
    ensures r.Ok? ==> r.value != ""
    ensures r.Ok? ==> IsNumeral(name[..4]) && UnemploymentTargetPeriod(name[..4], "Q" + name[5..6]).Some?
                      && r.value == UnemploymentTargetPeriod(name[..4], "Q" + name[5..6]).value.Text()
  {
    match SplitOnQ(name)
    case None => Err(SplitFailed(name))
    case Some(parts) =>
      SplitVintage(name);
      assert IsNumeral(name[..4]);
      QuarterOfDigit([parts.1[0]]);
      assert [parts.1[0]] == name[5..6];
      match UnemploymentTargetPeriod(parts.0, "Q" + [parts.1[0]])
      case None => Err(UnknownQuarter(name))
      case Some(p) =>
        assert |p.tag.Text()| == 3;
        Ok(p.Text())
  }
  /** Unlike the GDP merger, this one labels a longer name that passes the
      filter, such as `2021Q1.csv.bak`, as it labels its first ten
      characters `2021Q1.csv`. */
  lemma UnemploymentLongName(name: string)
    requires MatchesVintage(name) && |name| > 10
    ensures MatchesVintage(name[..10])
    ensures SplitOnQ(name).Some? ==> UnemploymentLabel(name) == UnemploymentLabel(name[..10])
  {
    if SplitOnQ(name).Some? {
      ShortVintageSplits(name[..10]);
      assert name[..10][..4] == name[..4] && name[..10][5..6] == name[5..6];
    }
  }

  /** `df.replace("", np.nan)` on the TARGET_PERIOD column. */
  function BlankToNaN<P>(rows: seq<Row<P>>): (r: seq<Row<P>>)
    ensures |r| == |rows|
    ensures forall k :: 0 <= k < |rows| ==>
              r[k] == (if rows[k].period == Some("") then rows[k].(period := None) else rows[k])
  {
    if rows == [] then []
    else [if rows[0].period == Some("") then rows[0].(period := None) else rows[0]] + BlankToNaN(rows[1..])
  }

  /** `df.dropna(subset=['TARGET_PERIOD'])`. */
  function DropNaPeriod<P>(rows: seq<Row<P>>): (r: seq<Row<P>>)
    ensures |r| <= |rows|
    ensures forall k :: 0 <= k < |r| ==> r[k].period.Some?
  {
    if rows == [] then []
    else (if rows[0].period.Some? then [rows[0]] else []) + DropNaPeriod(rows[1..])
  }

  /** The rows of the frame that pass the label filter after the two cleaning steps. */
  function TargetRows<P>(rows: seq<Row<P>>, target: string): seq<Row<P>> {
    KeepLabel(DropNaPeriod(BlankToNaN(rows)), target)
  }

  /** One pass of the loop: the panel it adds (always 150 rows or more), or
      the exception it raises.  `df` is `pd.read_csv(file_path, header=1)`. */
  function UnemploymentContribution<P>(name: string, df: Table<P>): Result<seq<PanelRow<P>>, Failure>
    requires MatchesVintage(name)
  {
    match UnemploymentLabel(name)
    case Err(e) => Err(e)
    case Ok(target) =>
      if !df.columns.targetPeriod then Err(MissingColumn(name, "TARGET_PERIOD"))
      else
        var rows := TargetRows(df.rows, target);
        if !df.columns.fctSource then Err(MissingColumn(name, "FCT_SOURCE"))
        else if !SourcesPresent(rows) then Err(NullSource(name))
        else Ok(Densify(target, ToRecords(rows)))
  }

  /** `pd.concat([unemployment_data, unemployment_rows_full], ignore_index=True)`. */
  function Concat<T>(data: seq<T>, block: seq<T>): seq<T> {
    data + block
  }

  /** The result of the loop body for each file, in processing order.  `load`
      is `pd.read_csv(file_path, header=1)`. */
  function Contributions<P>(files: seq<string>, load: string -> Table<P>): (r: seq<Result<seq<PanelRow<P>>, Failure>>)
    requires AllVintages(files)
    ensures |r| == |files|
    ensures forall k :: 0 <= k < |files| ==> r[k] == UnemploymentContribution(files[k], load(files[k]))
  {
    seq(|files|, k requires 0 <= k < |files| => UnemploymentContribution(files[k], load(files[k])))
  }

  /** `unemployment_data` after the loop has processed `files`, or the
      exception that stopped it. */
  function UnemploymentPanel<P>(files: seq<string>, load: string -> Table<P>): Result<seq<PanelRow<P>>, Failure>
    requires AllVintages(files)
  {
    Fold([], Concat, Contributions(files, load))
  }

  /** The run: the exception, or what is written to UNEMPLOYMENT_SPF.csv. */
  function UnemploymentRun<P>(names: seq<string>, load: string -> Table<P>): Result<Output<PanelRow<P>>, Failure> {
    SelectedVintages(names);
    match UnemploymentPanel(SelectFiles(names), load)
    case Err(e) => Err(e)
    case Ok(rows) => Ok(if rows == [] then NotWritten else Written(rows))
  }

  lemma ContributionsPrefix<P>(files: seq<string>, load: string -> Table<P>, m: nat)
    requires AllVintages(files) && m <= |files|
    ensures AllVintages(files[..m])
    ensures Contributions(files[..m], load) == Contributions(files, load)[..m]
  {
    assert forall k :: 0 <= k < m ==> files[..m][k] == files[k];
  }

  /** One more file processed. */
  lemma UnemploymentStep<P>(files: seq<string>, i: nat, load: string -> Table<P>)
    requires AllVintages(files) && i < |files|
    ensures AllVintages(files[..i]) && AllVintages(files[..i + 1])
    ensures UnemploymentPanel(files[..i + 1], load) ==
            Then(UnemploymentPanel(files[..i], load), Concat, UnemploymentContribution(files[i], load(files[i])))
  {
    ContributionsPrefix(files[..i + 1], load, i);
    assert files[..i + 1][..i] == files[..i];
  }

  /** A file whose pass raises ends the run with that exception, when the
      files before it did not raise. */
  lemma UnemploymentStops<P>(files: seq<string>, i: nat, load: string -> Table<P>)
    requires AllVintages(files) && i < |files|
    requires AllVintages(files[..i]) && UnemploymentPanel(files[..i], load).Ok?
    requires UnemploymentContribution(files[i], load(files[i])).Err?
    ensures UnemploymentPanel(files, load) == Err(UnemploymentContribution(files[i], load(files[i])).error)
  {
    UnemploymentStep(files, i, load);
    ContributionsPrefix(files, load, i + 1);
    FoldErrorPersists([], Concat, Contributions(files, load), i + 1);
  }

  /** The loop of merge_datasets_unemployment over the selected files, with
      the loop body written as the source writes it: the label, the missing
      columns and an empty FCT_SOURCE each raise and end the run. */
  method AccumulateUnemployment<P>(files: seq<string>, load: string -> Table<P>)
    returns (result: Result<seq<PanelRow<P>>, Failure>)
    requires AllVintages(files)
    ensures result == UnemploymentPanel(files, load)
  {
    var unemploymentData: seq<PanelRow<P>> := [];
    var i := 0;
    assert files[..0] == [];
    while i < |files|
      invariant 0 <= i <= |files|
      invariant AllVintages(files[..i])
      invariant UnemploymentPanel(files[..i], load) == Ok(unemploymentData)
    {
      UnemploymentStep(files, i, load);
      var filename := files[i];
      var df := load(filename);
      var computed := UnemploymentLabel(filename);
      if computed.Err? {
        UnemploymentStops(files, i, load);
        return Err(computed.error);
      }
      var targetPeriod := computed.value;
      var rows := BlankToNaN(df.rows);
      if !df.columns.targetPeriod {
        UnemploymentStops(files, i, load);
        return Err(MissingColumn(filename, "TARGET_PERIOD"));
      }
      rows := DropNaPeriod(rows);
      var unemploymentRows := KeepLabel(rows, targetPeriod);
      if !df.columns.fctSource {
        UnemploymentStops(files, i, load);
        return Err(MissingColumn(filename, "FCT_SOURCE"));
      }
      if !SourcesPresent(unemploymentRows) {
        UnemploymentStops(files, i, load);
        return Err(NullSource(filename));
      }
      var unemploymentRowsFull := Densify(targetPeriod, ToRecords(unemploymentRows));
      unemploymentData := unemploymentData + unemploymentRowsFull;
      i := i + 1;
    }
    assert files[..i] == files;
    result := Ok(unemploymentData);
  }

  /** merge_datasets_unemployment over a directory listing. */
  method MergeUnemployment<P>(names: seq<string>, load: string -> Table<P>) returns (out: Result<Output<PanelRow<P>>, Failure>)
    ensures out == UnemploymentRun(names, load)
  {
    var files := SelectFiles(names);
    SelectedVintages(names);
    var unemploymentData := AccumulateUnemployment(files, load);
    if unemploymentData.Err? {
      return Err(unemploymentData.error);
    }
    out := if unemploymentData.value != [] then Ok(Written(unemploymentData.value)) else Ok(NotWritten);
  }

  // ----- Properties of one file's contribution -----

  lemma {:induction false} BlankKeeps<P>(rows: seq<Row<P>>, x: Row<P>)
    requires x in rows && x.period != Some("")
    ensures x in BlankToNaN(rows)
  {
    var k :| 0 <= k < |rows| && rows[k] == x;
    assert BlankToNaN(rows)[k] == x;
  }

  lemma {:induction false} BlankSubset<P>(rows: seq<Row<P>>, x: Row<P>)
    requires x in BlankToNaN(rows) && x.period.Some?
    ensures x in rows
  {
    var k :| 0 <= k < |rows| && BlankToNaN(rows)[k] == x;
    assert rows[k] == x;
  }

  lemma {:induction false} DropNaPeriodKeeps<P>(rows: seq<Row<P>>, x: Row<P>)
    requires x in rows && x.period.Some?
    ensures x in DropNaPeriod(rows)
  {
    if rows[0] != x {
      assert x in rows[1..];
      DropNaPeriodKeeps(rows[1..], x);
    }
  }

  lemma {:induction false} DropNaPeriodSubset<P>(rows: seq<Row<P>>, x: Row<P>)
    requires x in DropNaPeriod(rows)
    ensures x in rows
  {
    var head := if rows[0].period.Some? then [rows[0]] else [];
    assert DropNaPeriod(rows) == head + DropNaPeriod(rows[1..]);
    if x !in head {
      DropNaPeriodSubset(rows[1..], x);
    }
  }

  /** The rows kept for a non-empty label are exactly the rows of the frame
      whose cell passes the label filter. */
  lemma TargetRowsSpec<P>(rows: seq<Row<P>>, target: string, x: Row<P>)
    requires target != ""
    ensures x in TargetRows(rows, target) <==> x in rows && x.period.Some? && LabelMatches(x.period.value, target)
  {
    if x in TargetRows(rows, target) {
      assert x in KeepLabel(DropNaPeriod(BlankToNaN(rows)), target);
      KeepLabelSubset(DropNaPeriod(BlankToNaN(rows)), target, x);
      DropNaPeriodSubset(BlankToNaN(rows), x);
      BlankSubset(rows, x);
      var k :| 0 <= k < |TargetRows(rows, target)| && TargetRows(rows, target)[k] == x;
    }
    if x in rows && x.period.Some? && LabelMatches(x.period.value, target) {
      BlankKeeps(rows, x);
      DropNaPeriodKeeps(BlankToNaN(rows), x);
      KeepLabelKeeps(DropNaPeriod(BlankToNaN(rows)), target, x);
    }
  }

  /** What a file that does not raise has passed through. */
  lemma UnemploymentAdded<P>(name: string, df: Table<P>)
    requires MatchesVintage(name) && UnemploymentContribution(name, df).Ok?
    ensures UnemploymentLabel(name).Ok?
    ensures df.columns.targetPeriod && df.columns.fctSource
    ensures SourcesPresent(TargetRows(df.rows, UnemploymentLabel(name).value))
    ensures UnemploymentContribution(name, df).value ==
            Densify(UnemploymentLabel(name).value, ToRecords(TargetRows(df.rows, UnemploymentLabel(name).value)))
  {
  }

  /** A file that does not raise adds the full panel for its target label. */
  lemma UnemploymentShape<P(!new)>(name: string, df: Table<P>)
    requires MatchesVintage(name) && UnemploymentContribution(name, df).Ok?
    ensures UnemploymentLabel(name).Ok?
    ensures |UnemploymentContribution(name, df).value| >= PANEL_SIZE
    ensures forall r :: r in UnemploymentContribution(name, df).value ==>
              r.period == UnemploymentLabel(name).value && 1 <= r.source <= PANEL_SIZE
  {
    UnemploymentAdded(name, df);
    var target := UnemploymentLabel(name).value;
    DensifyShape(target, ToRecords(TargetRows(df.rows, target)));
  }

  /** When each forecaster has at most one row for the target, the file adds
      exactly 150 rows, row j for forecaster j + 1 with that row's values. */
  lemma UnemploymentExact<P(!new)>(name: string, df: Table<P>)
    requires MatchesVintage(name) && UnemploymentContribution(name, df).Ok?
    requires UnemploymentLabel(name).Ok? && SourcesPresent(TargetRows(df.rows, UnemploymentLabel(name).value))
    requires UniqueKeys(ToRecords(TargetRows(df.rows, UnemploymentLabel(name).value)))
    ensures |UnemploymentContribution(name, df).value| == PANEL_SIZE
    ensures forall j :: 0 <= j < PANEL_SIZE ==>
              UnemploymentContribution(name, df).value[j] ==
              PanelRow(j + 1, UnemploymentLabel(name).value,
                       Lookup(ToRecords(TargetRows(df.rows, UnemploymentLabel(name).value)), j + 1, UnemploymentLabel(name).value))
  {
    UnemploymentAdded(name, df);
    var target := UnemploymentLabel(name).value;
    DensifyUnique(target, ToRecords(TargetRows(df.rows, target)));
  }

  /** Every row of the frame whose TARGET_PERIOD is exactly the label and whose
      forecaster id is in the panel reaches the output with its columns. */
  lemma UnemploymentKeeps<P(!new)>(name: string, df: Table<P>, id: int, payload: P)
    requires MatchesVintage(name) && UnemploymentContribution(name, df).Ok?
    requires UnemploymentLabel(name).Ok?
    requires Row(Some(UnemploymentLabel(name).value), Some(id), payload) in df.rows
    requires 1 <= id <= PANEL_SIZE
    ensures PanelRow(id, UnemploymentLabel(name).value, Some(payload)) in UnemploymentContribution(name, df).value
  {
    UnemploymentAdded(name, df);
    var target := UnemploymentLabel(name).value;
    var x := Row(Some(target), Some(id), payload);
    var kept := TargetRows(df.rows, target);
    TargetRowsSpec(df.rows, target, x);
    var records := ToRecords(kept);
    var j :| 0 <= j < |kept| && kept[j] == x;
    assert records[j] == Record(target, id, payload);
    DensifyCovers(target, records, id);
  }

  /** Every forecaster row carrying values carries those of a row of the frame
      with that forecaster id whose TARGET_PERIOD is exactly the label. */
  lemma UnemploymentSound<P(!new)>(name: string, df: Table<P>, r: PanelRow<P>)
    requires MatchesVintage(name) && UnemploymentContribution(name, df).Ok?
    requires r in UnemploymentContribution(name, df).value && r.payload.Some?
    ensures UnemploymentLabel(name).Ok?
    ensures Row(Some(UnemploymentLabel(name).value), Some(r.source), r.payload.value) in df.rows
  {
    UnemploymentAdded(name, df);
    var target := UnemploymentLabel(name).value;
    var kept := TargetRows(df.rows, target);
    var records := ToRecords(kept);
    DensifySound(target, records, r);
    var j :| 0 <= j < |records| && records[j] == Record(target, r.source, r.payload.value);
    assert kept[j] == Row(Some(target), Some(r.source), r.payload.value);
    assert kept[j] in kept;
    TargetRowsSpec(df.rows, target, kept[j]);
  }

  // ----- Properties of the run -----

  /** A successful outcome holds the passes' panels one after the other: when
      every pass adds 150 rows, pass k fills the rows from 150 * k on. */
  lemma {:induction false} ConcatBlocks<T>(steps: seq<Result<seq<T>, Failure>>)
    requires forall k :: 0 <= k < |steps| ==> steps[k].Ok? && |steps[k].value| == PANEL_SIZE
    ensures Fold([], Concat, steps).Ok?
    ensures |Fold([], Concat, steps).value| == PANEL_SIZE * |steps|
    ensures forall k, j :: 0 <= k < |steps| && 0 <= j < PANEL_SIZE ==>
              Fold([], Concat, steps).value[PANEL_SIZE * k + j] == steps[k].value[j]
    decreases |steps|
  {
    if steps != [] {
      var n := |steps| - 1;
      var before := steps[..n];
      assert forall k :: 0 <= k < n ==> before[k] == steps[k];
      ConcatBlocks(before);
      var acc := Fold([], Concat, before).value;
      assert Fold([], Concat, steps).value == acc + steps[n].value;
      forall k, j | 0 <= k < |steps| && 0 <= j < PANEL_SIZE
        ensures Fold([], Concat, steps).value[PANEL_SIZE * k + j] == steps[k].value[j]
      {
        if k < n {
          assert Fold([], Concat, steps).value[PANEL_SIZE * k + j] == acc[PANEL_SIZE * k + j];
        } else {
          assert PANEL_SIZE * k + j == |acc| + j;
        }
      }
    }
  }

  /** A successful outcome has at least 150 rows per pass. */
  lemma {:induction false} ConcatLength<T>(steps: seq<Result<seq<T>, Failure>>)
    requires Fold([], Concat, steps).Ok?
    requires forall k :: 0 <= k < |steps| ==> steps[k].Ok? && |steps[k].value| >= PANEL_SIZE
    ensures |Fold([], Concat, steps).value| >= PANEL_SIZE * |steps|
    decreases |steps|
  {
    if steps != [] {
      var before := steps[..|steps| - 1];
      assert forall k :: 0 <= k < |before| ==> before[k] == steps[k];
      ConcatLength(before);
    }
  }

  /** The run over a directory listing fails exactly when a selected file
      raises. */
  lemma UnemploymentRunOk<P>(names: seq<string>, load: string -> Table<P>)
    ensures AllVintages(SelectFiles(names))
    ensures UnemploymentRun(names, load).Ok? <==>
            forall k :: 0 <= k < |SelectFiles(names)| ==>
              UnemploymentContribution(SelectFiles(names)[k], load(SelectFiles(names)[k])).Ok?
  {
    SelectedVintages(names);
    FoldOkIff([], Concat, Contributions(SelectFiles(names), load));
  }

  /** A failed run fails with the exception of the first selected file that
      raises. */
  lemma UnemploymentRunFirstError<P>(names: seq<string>, load: string -> Table<P>)
    requires UnemploymentRun(names, load).Err?
    ensures AllVintages(SelectFiles(names))
    ensures exists k :: 0 <= k < |SelectFiles(names)| &&
              UnemploymentContribution(SelectFiles(names)[k], load(SelectFiles(names)[k])) == Err(UnemploymentRun(names, load).error) &&
              forall j :: 0 <= j < k ==> UnemploymentContribution(SelectFiles(names)[j], load(SelectFiles(names)[j])).Ok?
  {
    SelectedVintages(names);
    FoldFirstError([], Concat, Contributions(SelectFiles(names), load));
  }

  /** A successful run writes UNEMPLOYMENT_SPF.csv exactly when some file was
      selected, with at least 150 rows per selected file. */
  lemma UnemploymentRunWritten<P(!new)>(names: seq<string>, load: string -> Table<P>)
    requires UnemploymentRun(names, load).Ok?
    ensures UnemploymentRun(names, load).value.Written? <==> |SelectFiles(names)| > 0
    ensures UnemploymentRun(names, load).value.Written? ==>
              |UnemploymentRun(names, load).value.rows| >= PANEL_SIZE * |SelectFiles(names)|
  {
    var files := SelectFiles(names);
    SelectedVintages(names);
    var steps := Contributions(files, load);
    FoldOkIff([], Concat, steps);
    forall k | 0 <= k < |steps| ensures steps[k].Ok? && |steps[k].value| >= PANEL_SIZE {
      UnemploymentShape(files[k], load(files[k]));
    }
    ConcatLength(steps);
  }

  /** When every file adds exactly 150 rows (as it does when each forecaster
      has at most one row for the target), the loop succeeds and row
      150 * k + j of the data is row j of the k-th file's panel. */
  lemma UnemploymentPanelBlocks<P>(files: seq<string>, load: string -> Table<P>)
    requires AllVintages(files)
    requires forall k :: 0 <= k < |files| ==>
               UnemploymentContribution(files[k], load(files[k])).Ok? &&
               |UnemploymentContribution(files[k], load(files[k])).value| == PANEL_SIZE
    ensures UnemploymentPanel(files, load).Ok?
    ensures |UnemploymentPanel(files, load).value| == PANEL_SIZE * |files|
    ensures forall k, j :: 0 <= k < |files| && 0 <= j < PANEL_SIZE ==>
              UnemploymentPanel(files, load).value[PANEL_SIZE * k + j] ==
              UnemploymentContribution(files[k], load(files[k])).value[j]
  {
    ConcatBlocks(Contributions(files, load));
  }
}
