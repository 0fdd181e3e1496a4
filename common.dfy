/** Pieces the three mergers share: the label filter, the conversion of
    filtered rows to join records, and what a run leaves behind. */
module MergeCommon {
  import opened Wrappers
  import opened Frame
  import opened Panel

  /** What a merger leaves behind: no file, or a CSV file holding these rows
      (Inflation_SPF.csv, GDP_SPF.csv or UNEMPLOYMENT_SPF.csv). */
  datatype Output<T> = NotWritten | Written(rows: seq<T>)

  /** The exceptions that end a run, with the file being processed. */
  datatype Failure =
    | SplitFailed(file: string)              // `year, quarter = filename.split('Q')`: ValueError
    | UnknownQuarter(file: string)           // the quarter table lookup: KeyError
    | MissingColumn(file: string, column: string)  // `df[column]`: KeyError
    | NullSource(file: string)               // `astype(int)` of a NaN FCT_SOURCE

  /** `str.contains(f'^{label}$', regex=True)` on a cell: `^` anchors at the
      start and `$` at the end or before a final newline.  The labels hold only
      digits, letters and no character the regex treats specially. */
  predicate LabelMatches(cell: string, target: string) {
    cell == target || cell == target + "\n"
  }

  /** The rows whose TARGET_PERIOD cell passes the label filter, in order. */
  function KeepLabel<P>(rows: seq<Row<P>>, target: string): (r: seq<Row<P>>)
    ensures |r| <= |rows|
    ensures forall k :: 0 <= k < |r| ==> r[k].period.Some? && LabelMatches(r[k].period.value, target)
  {
    if rows == [] then []
    else
      (if rows[0].period.Some? && LabelMatches(rows[0].period.value, target) then [rows[0]] else [])
      + KeepLabel(rows[1..], target)
  }

  /** The filter keeps every row whose cell passes it. */
  lemma {:induction false} KeepLabelKeeps<P>(rows: seq<Row<P>>, target: string, x: Row<P>)
    requires x in rows && x.period.Some? && LabelMatches(x.period.value, target)
    ensures x in KeepLabel(rows, target)
  {
    if rows[0] != x {
      assert x in rows[1..];
      KeepLabelKeeps(rows[1..], target, x);
    }
  }

  /** The filter keeps only rows of its input. */
  lemma {:induction false} KeepLabelSubset<P>(rows: seq<Row<P>>, target: string, x: Row<P>)
    requires x in KeepLabel(rows, target)
    ensures x in rows
  {
    var head := if rows[0].period.Some? && LabelMatches(rows[0].period.value, target) then [rows[0]] else [];
    assert KeepLabel(rows, target) == head + KeepLabel(rows[1..], target);
    if x !in head {
      KeepLabelSubset(rows[1..], target, x);
    }
  }

  /** The filtered rows as join records: each cell taken out of its option. */
  function ToRecords<P>(rows: seq<Row<P>>): (r: seq<Record<P>>)
    requires forall k :: 0 <= k < |rows| ==> rows[k].period.Some? && rows[k].source.Some?
    ensures |r| == |rows|
    ensures forall k :: 0 <= k < |r| ==>
              r[k] == Record(rows[k].period.value, rows[k].source.value, rows[k].payload)
  {
    if rows == [] then [] else [Record(rows[0].period.value, rows[0].source.value, rows[0].payload)] + ToRecords(rows[1..])
  }

  /** Every FCT_SOURCE cell of the rows holds a number, so `astype(int)` succeeds. */
  predicate SourcesPresent<P>(rows: seq<Row<P>>) {
    forall k :: 0 <= k < |rows| ==> rows[k].source.Some?
  }

  // ----- The loop over the files -----

  /** The state after one more pass: an earlier exception stands, a new one
      ends the run, otherwise the pass's result is folded in. */
  function Then<A, B>(acc: Result<A, Failure>, combine: (A, B) -> A, step: Result<B, Failure>): (r: Result<A, Failure>)
    ensures r.Ok? <==> acc.Ok? && step.Ok?
    ensures acc.Err? ==> r == acc
    ensures acc.Ok? && step.Err? ==> r == Err(step.error)
    ensures acc.Ok? && step.Ok? ==> r == Ok(combine(acc.value, step.value))
  {
    match acc
    case Err(e) => Err(e)
    case Ok(a) =>
      match step
      case Err(e) => Err(e)
      case Ok(b) => Ok(combine(a, b))
  }

  /** The outcome of a loop that starts from `init` and makes passes with
      these results, in order. */
  function Fold<A, B>(init: A, combine: (A, B) -> A, steps: seq<Result<B, Failure>>): Result<A, Failure>
    decreases |steps|
  {
    if steps == [] then Ok(init) else Then(Fold(init, combine, steps[..|steps| - 1]), combine, steps[|steps| - 1])
  }

  /** An exception ends the run: once the results up to some pass hold one,
      the outcome is that exception. */
  lemma {:induction false} FoldErrorPersists<A, B>(init: A, combine: (A, B) -> A, steps: seq<Result<B, Failure>>, n: nat)
    requires n <= |steps| && Fold(init, combine, steps[..n]).Err?
    ensures Fold(init, combine, steps) == Fold(init, combine, steps[..n])
    decreases |steps|
  {
    if n == |steps| {
      assert steps[..n] == steps;
    } else {
      var before := steps[..|steps| - 1];
      assert before[..n] == steps[..n];
      FoldErrorPersists(init, combine, before, n);
    }
  }

  /** The outcome is a success exactly when no pass raised. */
  lemma {:induction false} FoldOkIff<A, B>(init: A, combine: (A, B) -> A, steps: seq<Result<B, Failure>>)
    ensures Fold(init, combine, steps).Ok? <==> forall k :: 0 <= k < |steps| ==> steps[k].Ok?
    decreases |steps|
  {
    if steps != [] {
      var before := steps[..|steps| - 1];
      FoldOkIff(init, combine, before);
      assert forall k :: 0 <= k < |before| ==> before[k] == steps[k];
    }
  }

  /** A failed outcome is the exception of the first pass that raised. */
  lemma {:induction false} FoldFirstError<A, B>(init: A, combine: (A, B) -> A, steps: seq<Result<B, Failure>>)
    requires Fold(init, combine, steps).Err?
    ensures exists k :: 0 <= k < |steps| && steps[k] == Err(Fold(init, combine, steps).error) &&
              forall j :: 0 <= j < k ==> steps[j].Ok?
    decreases |steps|
  {
    var n := |steps| - 1;
    var before := steps[..n];
    if Fold(init, combine, before).Err? {
      FoldFirstError(init, combine, before);
      var k :| 0 <= k < |before| && before[k] == Err(Fold(init, combine, before).error) &&
                forall j :: 0 <= j < k ==> before[j].Ok?;
      assert forall j :: 0 <= j <= k ==> before[j] == steps[j];
    } else {
      FoldOkIff(init, combine, before);
      assert forall j :: 0 <= j < n ==> before[j] == steps[j];
    }
  }
}
