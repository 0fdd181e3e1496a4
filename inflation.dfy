/** merge_datasets_inflation: for each survey file, latest vintage first, cut
    out the HICP section, keep the rows for the vintage's target period and
    densify them to the 150-forecaster panel; the panels are concatenated. */
module InflationMerge {
  import opened Wrappers
  import opened Decimal
  import opened Periods
  import opened FileSelector
  import opened SectionExtractor
  import opened Frame
  import opened Panel
  import opened MergeCommon

  /** A section row as the projection onto TARGET_PERIOD, FCT_SOURCE and POINT
      leaves it: the payload is the POINT cell. */
  type PointRow<V> = Row<Option<V>>

  /** `re.search(r'(\d{4})Q([1-4])', filename).groups()` and compute_target_period:
      the match is found at the start of the name, since the name matched the
      vintage pattern there. */
  function InflationLabel(name: string): (t: string)
    requires MatchesVintage(name)
    ensures exists p :: InflationTargetPeriod(name[..4], name[5..6]) == Some(p) && t == p.Text()
  {
    assert IsNumeral(name[..4]);
    InflationTargetPeriod(name[..4], name[5..6]).value.Text()
  }

  /** None of the three cells is NaN. */
  predicate Complete<V>(row: PointRow<V>) {
    row.period.Some? && row.source.Some? && row.payload.Some?
  }

  /** `.dropna()` over the three columns. */
  function DropNa<V>(rows: seq<PointRow<V>>): (r: seq<PointRow<V>>)
    ensures |r| <= |rows|
    ensures forall k :: 0 <= k < |r| ==> r[k].period.Some? && r[k].source.Some? && r[k].payload.Some?
  {
    if rows == [] then []
    else (if Complete(rows[0]) then [rows[0]] else []) + DropNa(rows[1..])
  }

  /** The label filter keeps only rows of its input, so complete rows stay complete. */
  lemma {:induction false} KeepLabelComplete<V>(rows: seq<PointRow<V>>, target: string)
    requires forall k :: 0 <= k < |rows| ==> Complete(rows[k])
    ensures forall k :: 0 <= k < |KeepLabel(rows, target)| ==> Complete(KeepLabel(rows, target)[k])
  {
    if rows != [] {
      KeepLabelComplete(rows[1..], target);
      var head := if rows[0].period.Some? && LabelMatches(rows[0].period.value, target) then [rows[0]] else [];
      assert KeepLabel(rows, target) == head + KeepLabel(rows[1..], target);
      forall k | 0 <= k < |KeepLabel(rows, target)| ensures Complete(KeepLabel(rows, target)[k]) {
        if k >= |head| {
          assert KeepLabel(rows, target)[k] == KeepLabel(rows[1..], target)[k - |head|];
        }
      }
    }
  }

  /** The kept rows as join records carrying their POINT value. */
  function PointRecords<V>(rows: seq<PointRow<V>>): (r: seq<Record<V>>)
    requires forall k :: 0 <= k < |rows| ==> rows[k].period.Some? && rows[k].source.Some? && rows[k].payload.Some?
    ensures |r| == |rows|
    ensures forall k :: 0 <= k < |r| ==>
              r[k] == Record(rows[k].period.value, rows[k].source.value, rows[k].payload.value)
  {
    if rows == [] then []
    else [Record(rows[0].period.value, rows[0].source.value, rows[0].payload.value)] + PointRecords(rows[1..])
  }

  /** The section rows that survive `dropna` and the label filter, as join
      records. */
  function SectionRecords<V>(rows: seq<PointRow<V>>, target: string): seq<Record<V>> {
    KeepLabelComplete(DropNa(rows), target);
    PointRecords(KeepLabel(DropNa(rows), target))
  }

  /** One pass of the loop: the panel the file adds, or None when the file is
      skipped (no HICP section, or a required column missing).  `parse` is
      `pd.read_csv(StringIO(section), header=1)`. */
  function InflationContribution<V>(name: string, content: string, parse: string -> Table<Option<V>>): Option<seq<PanelRow<V>>>
    requires MatchesVintage(name)
  {
    match ExtractSection(content)
    case None => None
    case Some(section) =>
      var table := parse(section);
      if !(table.columns.targetPeriod && table.columns.fctSource && table.columns.point) then None
      else
        var target := InflationLabel(name);
        Some(Densify(target, SectionRecords(table.rows, target)))
  }

  /** A file adds a block exactly when its section is found and the section
      has the three columns, whether or not any row carries the label. */
  lemma InflationContributesIff<V>(name: string, content: string, parse: string -> Table<Option<V>>)
    requires MatchesVintage(name)
    ensures InflationContribution(name, content, parse).Some? <==> Usable(content, parse)
  {
  }

  /** The file's section is found and has the three required columns. */
  predicate Usable<V>(content: string, parse: string -> Table<Option<V>>) {
    ExtractSection(content).Some? && parse(ExtractSection(content).value).columns == Columns(true, true, true)
  }

  /** `inflation_data` after the loop has processed `files`: the contributions
      in processing order.  `read` is the text of a file. */
  function InflationPanel<V>(files: seq<string>, read: string -> string, parse: string -> Table<Option<V>>): seq<PanelRow<V>>
    requires AllVintages(files)
    decreases |files|
  {
    if files == [] then []
    else
      var last := files[|files| - 1];
      var before := InflationPanel(files[..|files| - 1], read, parse);
      match InflationContribution(last, read(last), parse)
      case None => before
      case Some(block) => before + block
  }

  /** The run: the panels of the selected files, written when not empty. */
  function InflationRun<V>(names: seq<string>, read: string -> string, parse: string -> Table<Option<V>>): Output<PanelRow<V>> {
    var files := SelectFiles(names);
    var acc := InflationPanel(files, read, parse);
    if acc == [] then NotWritten else Written(acc)
  }

  /** One more file processed: the panel grows by that file's contribution. */
  lemma InflationStep<V>(files: seq<string>, i: nat, read: string -> string, parse: string -> Table<Option<V>>)
    requires AllVintages(files) && i < |files|
    ensures AllVintages(files[..i]) && AllVintages(files[..i + 1])
    ensures InflationContribution(files[i], read(files[i]), parse).None? ==>
              InflationPanel(files[..i + 1], read, parse) == InflationPanel(files[..i], read, parse)
    ensures InflationContribution(files[i], read(files[i]), parse).Some? ==>
              InflationPanel(files[..i + 1], read, parse) ==
              InflationPanel(files[..i], read, parse) + InflationContribution(files[i], read(files[i]), parse).value
  {
    assert files[..i + 1][..i] == files[..i];
  }

  /** The loop of merge_datasets_inflation over the selected files, with the
      loop body written as the source writes it: a file without the HICP
      section or without one of the three columns is skipped. */
  method AccumulateInflation<V>(files: seq<string>, read: string -> string, parse: string -> Table<Option<V>>)
    returns (inflationData: seq<PanelRow<V>>)
    requires AllVintages(files)
    ensures inflationData == InflationPanel(files, read, parse)
  {
    inflationData := [];
    var i := 0;
    assert files[..0] == [];
    while i < |files|
      invariant 0 <= i <= |files|
      invariant AllVintages(files[..i])
      invariant inflationData == InflationPanel(files[..i], read, parse)
    {
      InflationStep(files, i, read, parse);
      var filename := files[i];
      var content := read(filename);
      var section := ExtractSection(content);
      if section.None? {
        i := i + 1;
        continue;
      }
      var df := parse(section.value);
      if !(df.columns.targetPeriod && df.columns.fctSource && df.columns.point) {
        i := i + 1;
        continue;
      }
      var targetPeriod := InflationLabel(filename);
      var filteredRows := KeepLabel(DropNa(df.rows), targetPeriod);
      KeepLabelComplete(DropNa(df.rows), targetPeriod);
      var rowsFull := Densify(targetPeriod, PointRecords(filteredRows));
      inflationData := inflationData + rowsFull;
      i := i + 1;
    }
    assert files[..i] == files;
  }

  /** merge_datasets_inflation over a directory listing. */
  method MergeInflation<V>(names: seq<string>, read: string -> string, parse: string -> Table<Option<V>>)
    returns (out: Output<PanelRow<V>>)
    ensures out == InflationRun(names, read, parse)
  {
    var files := SelectFiles(names);
    SelectedVintages(names);
    var inflationData := AccumulateInflation(files, read, parse);
    out := if inflationData != [] then Written(inflationData) else NotWritten;
  }

  // ----- Properties of one file's contribution -----

  lemma {:induction false} DropNaKeeps<V>(rows: seq<PointRow<V>>, x: PointRow<V>)
    requires x in rows && Complete(x)
    ensures x in DropNa(rows)
  {
    if rows[0] != x {
      assert x in rows[1..];
      DropNaKeeps(rows[1..], x);
    }
  }

  lemma {:induction false} DropNaSubset<V>(rows: seq<PointRow<V>>, x: PointRow<V>)
    requires x in DropNa(rows)
    ensures x in rows
  {
    var head := if Complete(rows[0]) then [rows[0]] else [];
    assert DropNa(rows) == head + DropNa(rows[1..]);
    if x !in head {
      DropNaSubset(rows[1..], x);
    }
  }

  /** A file that is not skipped adds a full panel for its vintage's label. */
  lemma ContributionShape<V(!new)>(name: string, content: string, parse: string -> Table<Option<V>>)
    requires MatchesVintage(name) && InflationContribution(name, content, parse).Some?
    ensures |InflationContribution(name, content, parse).value| >= PANEL_SIZE
    ensures forall r :: r in InflationContribution(name, content, parse).value ==>
              r.period == InflationLabel(name) && 1 <= r.source <= PANEL_SIZE
  {
    var table := parse(ExtractSection(content).value);
    DensifyShape(InflationLabel(name), SectionRecords(table.rows, InflationLabel(name)));
  }

  /** A row that is complete and carries exactly the label survives the filters. */
  lemma SectionRecordsKeeps<V>(rows: seq<PointRow<V>>, target: string, id: int, point: V)
    requires Row(Some(target), Some(id), Some(point)) in rows
    ensures Record(target, id, point) in SectionRecords(rows, target)
  {
    var x := Row(Some(target), Some(id), Some(point));
    DropNaKeeps(rows, x);
    KeepLabelKeeps(DropNa(rows), target, x);
    var kept := KeepLabel(DropNa(rows), target);
    KeepLabelComplete(DropNa(rows), target);
    var j :| 0 <= j < |kept| && kept[j] == x;
    assert SectionRecords(rows, target)[j] == Record(target, id, point);
  }

  /** A record with the label comes from a complete section row with that label. */
  lemma SectionRecordsSound<V>(rows: seq<PointRow<V>>, target: string, id: int, point: V)
    requires Record(target, id, point) in SectionRecords(rows, target)
    ensures Row(Some(target), Some(id), Some(point)) in rows
  {
    var kept := KeepLabel(DropNa(rows), target);
    KeepLabelComplete(DropNa(rows), target);
    var records := SectionRecords(rows, target);
    var j :| 0 <= j < |records| && records[j] == Record(target, id, point);
    assert kept[j] == Row(Some(target), Some(id), Some(point));
    assert kept[j] in kept;
    KeepLabelSubset(DropNa(rows), target, kept[j]);
    DropNaSubset(rows, kept[j]);
  }

  /** Every complete row of the HICP section whose TARGET_PERIOD is the label
      and whose forecaster id is in the panel reaches the output with its
      POINT value. */
  lemma ContributionKeeps<V(!new)>(name: string, content: string, parse: string -> Table<Option<V>>, id: int, point: V)
    requires MatchesVintage(name) && ExtractSection(content).Some?
    requires parse(ExtractSection(content).value).columns == Columns(true, true, true)
    requires Row(Some(InflationLabel(name)), Some(id), Some(point)) in parse(ExtractSection(content).value).rows
    requires 1 <= id <= PANEL_SIZE
    ensures InflationContribution(name, content, parse).Some?
    ensures PanelRow(id, InflationLabel(name), Some(point)) in InflationContribution(name, content, parse).value
  {
    var target := InflationLabel(name);
    var rows := parse(ExtractSection(content).value).rows;
    assert InflationContribution(name, content, parse) == Some(Densify(target, SectionRecords(rows, target)));
    SectionRecordsKeeps(rows, target, id, point);
    DensifyCovers(target, SectionRecords(rows, target), id);
  }

  /** Every forecaster row carrying a value carries the POINT of a row of the
      HICP section whose TARGET_PERIOD is exactly the label (a cell holding
      the label and a final newline passes the filter but not the join). */
  lemma ContributionSound<V(!new)>(name: string, content: string, parse: string -> Table<Option<V>>, r: PanelRow<V>)
    requires MatchesVintage(name) && InflationContribution(name, content, parse).Some?
    requires r in InflationContribution(name, content, parse).value && r.payload.Some?
    ensures Row(Some(InflationLabel(name)), Some(r.source), Some(r.payload.value)) in parse(ExtractSection(content).value).rows
  {
    var target := InflationLabel(name);
    var rows := parse(ExtractSection(content).value).rows;
    DensifySound(target, SectionRecords(rows, target), r);
    SectionRecordsSound(rows, target, r.source, r.payload.value);
  }

  // ----- Properties of the run -----

  /** How many elements of `xs` satisfy `p`. */
  function CountWhere<T>(xs: seq<T>, p: T -> bool): nat
    decreases |xs|
  {
    if xs == [] then 0
    else CountWhere(xs[..|xs| - 1], p) + (if p(xs[|xs| - 1]) then 1 else 0)
  }

  /** The count is positive exactly when some element satisfies `p`. */
  lemma {:induction false} CountWherePositive<T>(xs: seq<T>, p: T -> bool)
    ensures CountWhere(xs, p) > 0 <==> exists k :: 0 <= k < |xs| && p(xs[k])
    decreases |xs|
  {
    if xs != [] {
      var n := |xs| - 1;
      var before := xs[..n];
      CountWherePositive(before, p);
      if CountWhere(before, p) > 0 {
        var k :| 0 <= k < |before| && p(before[k]);
        assert xs[k] == before[k];
      }
      if exists k :: 0 <= k < |xs| && p(xs[k]) {
        var k :| 0 <= k < |xs| && p(xs[k]);
        if k < n {
          assert before[k] == xs[k];
        }
      }
    }
  }

  /** How many of the files have a usable HICP section, that is, how many add
      a panel. */
  function Contributors<V>(files: seq<string>, read: string -> string, parse: string -> Table<Option<V>>): nat {
    CountWhere(files, name => Usable(read(name), parse))
  }

  /** Each contributing file adds at least its 150 rows, and the panel is empty
      exactly when no file contributes. */
  lemma {:induction false} InflationPanelSize<V(!new)>(files: seq<string>, read: string -> string, parse: string -> Table<Option<V>>)
    requires AllVintages(files)
    ensures |InflationPanel(files, read, parse)| >= PANEL_SIZE * Contributors(files, read, parse)
    ensures InflationPanel(files, read, parse) == [] <==> Contributors(files, read, parse) == 0
    decreases |files|
  {
    if files != [] {
      var last := files[|files| - 1];
      InflationPanelSize(files[..|files| - 1], read, parse);
      InflationContributesIff(last, read(last), parse);
      if InflationContribution(last, read(last), parse).Some? {
        ContributionShape(last, read(last), parse);
      }
    }
  }

  /** The target-period labels of the files, in processing order. */
  function Labels(files: seq<string>): (r: seq<string>)
    requires AllVintages(files)
    ensures |r| == |files|
    ensures forall k :: 0 <= k < |files| ==> r[k] == InflationLabel(files[k])
    decreases |files|
  {
    if files == [] then []
    else
      var before := files[..|files| - 1];
      assert AllVintages(before) by {
        forall k | 0 <= k < |before| ensures MatchesVintage(before[k]) {
          assert before[k] == files[k];
        }
      }
      Labels(before) + [InflationLabel(files[|files| - 1])]
  }

  /** Every row of the panel is a forecaster row of the panel for the label of
      one of the processed files. */
  lemma {:induction false} InflationPanelRows<V(!new)>(files: seq<string>, read: string -> string, parse: string -> Table<Option<V>>)
    requires AllVintages(files)
    ensures forall r :: r in InflationPanel(files, read, parse) ==>
              1 <= r.source <= PANEL_SIZE && r.period in Labels(files)
    decreases |files|
  {
    if files != [] {
      var last := files[|files| - 1];
      var before := files[..|files| - 1];
      InflationPanelRows(before, read, parse);
      var c := InflationContribution(last, read(last), parse);
      if c.Some? {
        ContributionShape(last, read(last), parse);
      }
      assert Labels(files) == Labels(before) + [InflationLabel(last)];
      forall r | r in InflationPanel(files, read, parse)
        ensures 1 <= r.source <= PANEL_SIZE && r.period in Labels(files)
      {
        if r !in InflationPanel(before, read, parse) {
          assert r in c.value;
        }
      }
    }
  }

  /** The output file is written exactly when some selected file adds a panel,
      and then holds at least 150 rows for each such file. */
  lemma InflationRunWritten<V(!new)>(names: seq<string>, read: string -> string, parse: string -> Table<Option<V>>)
    ensures AllVintages(SelectFiles(names))
    ensures InflationRun(names, read, parse).Written? <==> Contributors(SelectFiles(names), read, parse) > 0
    ensures InflationRun(names, read, parse).Written? ==>
              |InflationRun(names, read, parse).rows| >= PANEL_SIZE * Contributors(SelectFiles(names), read, parse)
  {
    SelectedVintages(names);
    InflationPanelSize(SelectFiles(names), read, parse);
  }

  /** The output file is written exactly when some selected file has an HICP
      section with the three columns, even if no row of it carries the label. */
  lemma InflationRunWrittenIff<V(!new)>(names: seq<string>, read: string -> string, parse: string -> Table<Option<V>>)
    ensures AllVintages(SelectFiles(names))
    ensures InflationRun(names, read, parse).Written? <==>
            exists k :: 0 <= k < |SelectFiles(names)| && Usable(read(SelectFiles(names)[k]), parse)
  {
    InflationRunWritten(names, read, parse);
    CountWherePositive(SelectFiles(names), name => Usable(read(name), parse));
  }
}
