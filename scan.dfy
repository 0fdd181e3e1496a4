/** merge_datasets_GDP's row scan: a flag switches on at the first row whose
    TARGET_PERIOD equals the target label, and the loop breaks at the first
    row after it that does not. */
module GdpScan {
  import opened Wrappers
  import opened Frame

  /** `row['TARGET_PERIOD'] == target_period`; a NaN cell equals no label. */
  predicate IsTarget<P>(row: Row<P>, target: string) {
    row.period == Some(target)
  }

  /** The index of the first row at or after `from` with the target label, or
      the number of rows when there is none. */
  function FirstMatchFrom<P>(rows: seq<Row<P>>, target: string, from: nat): (r: nat)
    requires from <= |rows|
    ensures from <= r <= |rows|
    ensures r < |rows| ==> IsTarget(rows[r], target)
    ensures forall k :: from <= k < r ==> !IsTarget(rows[k], target)
    decreases |rows| - from
  {
    if from == |rows| || IsTarget(rows[from], target) then from else FirstMatchFrom(rows, target, from + 1)
  }

  /** The end of the run of target rows that starts at `from`. */
  function RunEnd<P>(rows: seq<Row<P>>, target: string, from: nat): (r: nat)
    requires from <= |rows|
    ensures from <= r <= |rows|
    ensures r < |rows| ==> !IsTarget(rows[r], target)
    ensures forall k :: from <= k < r ==> IsTarget(rows[k], target)
    decreases |rows| - from
  {
    if from == |rows| || !IsTarget(rows[from], target) then from else RunEnd(rows, target, from + 1)
  }

  /** The rows the scan collects: the first contiguous run of target rows. */
  function FirstBlock<P>(rows: seq<Row<P>>, target: string): seq<Row<P>> {
    var s := FirstMatchFrom(rows, target, 0);
    rows[s..RunEnd(rows, target, s)]
  }

  /** The loop of merge_datasets_GDP, with the flag `include_rows` and `break`. */
  method ScanBlock<P>(rows: seq<Row<P>>, target: string) returns (block: seq<Row<P>>)
    ensures block == FirstBlock(rows, target)
  {
    var includeRows := false;
    block := [];
    var i := 0;
    ghost var start := FirstMatchFrom(rows, target, 0);
    while i < |rows|
      invariant 0 <= i <= |rows|
      invariant !includeRows ==> block == [] && start >= i
      invariant includeRows ==> start < i && block == rows[start..i]
      invariant includeRows ==> RunEnd(rows, target, start) >= i
    {
      var row := rows[i];
      if row.period == Some(target) && !includeRows {
        includeRows := true;
      }
      if includeRows {
        if row.period != Some(target) {
          break;
        }
        block := block + [row];
      }
      i := i + 1;
    }
  }

  // ----- What the block is -----

  /** Every collected row has the target label. */
  lemma BlockRowsMatch<P>(rows: seq<Row<P>>, target: string)
    ensures forall r :: r in FirstBlock(rows, target) ==> IsTarget(r, target)
  {
    var s := FirstMatchFrom(rows, target, 0);
    var e := RunEnd(rows, target, s);
    forall r | r in FirstBlock(rows, target) ensures IsTarget(r, target) {
      var k :| 0 <= k < e - s && rows[s..e][k] == r;
      assert rows[s + k] == r;
    }
  }

  /** The block is empty exactly when no row has the target label. */
  lemma BlockEmptyIff<P>(rows: seq<Row<P>>, target: string)
    ensures FirstBlock(rows, target) == [] <==> forall k :: 0 <= k < |rows| ==> !IsTarget(rows[k], target)
  {
  }

  /** The first run of target rows is characterised by where it starts and
      ends: no target row before it, only target rows in it, and a row without
      the label (or the end of the frame) right after it. */
  lemma BlockCharacterised<P>(rows: seq<Row<P>>, target: string, s: nat, e: nat)
    requires s <= e <= |rows|
    requires forall k :: 0 <= k < s ==> !IsTarget(rows[k], target)
    requires s < |rows| ==> IsTarget(rows[s], target)
    requires forall k :: s <= k < e ==> IsTarget(rows[k], target)
    requires e < |rows| ==> !IsTarget(rows[e], target)
    ensures FirstBlock(rows, target) == rows[s..e]
  {
    assert FirstMatchFrom(rows, target, 0) == s;
    assert RunEnd(rows, target, s) == e;
  }

  /** Target rows after the first run are left out, even when the label
      returns later in the frame. */
  lemma LaterRunIgnored<P>(rows: seq<Row<P>>, target: string, k: nat)
    requires k < |rows| && IsTarget(rows[k], target)
    requires exists j :: 0 <= j < k && IsTarget(rows[j], target) && !IsTarget(rows[j + 1], target)
    ensures |FirstBlock(rows, target)| > 0
    ensures FirstMatchFrom(rows, target, 0) + |FirstBlock(rows, target)| <= k
  {
    var j :| 0 <= j < k && IsTarget(rows[j], target) && !IsTarget(rows[j + 1], target);
    var s := FirstMatchFrom(rows, target, 0);
    assert s <= j;
    var e := RunEnd(rows, target, s);
    assert e <= j + 1;
  }
}
