/** The densifying step shared by the three mergers: a frame with one row per
    forecaster id 1..150, all labelled with the target period, left-joined with
    the filtered survey rows on (FCT_SOURCE, TARGET_PERIOD). */
module Panel {
  import opened Wrappers

  /** `range(1, 151)`: the forecaster ids of the panel. */
  const PANEL_SIZE: nat := 150

  /** A filtered survey row, the right side of the merge: its TARGET_PERIOD
      text, its FCT_SOURCE as an integer and its other columns. */
  datatype Record<P> = Record(period: string, source: int, payload: P)

  /** A row of the merged frame; `payload` is None where the left join found no
      survey row (the columns are NaN). */
  datatype PanelRow<P> = PanelRow(source: int, period: string, payload: Option<P>)

  /** The survey rows that share the join key (id, period), in their order. */
  function Matches<P>(records: seq<Record<P>>, id: int, period: string): seq<Record<P>> {
    if records == [] then []
    else
      (if records[0].source == id && records[0].period == period then [records[0]] else [])
      + Matches(records[1..], id, period)
  }

  /** The survey rows turned into rows of the merged frame. */
  function Attach<P>(records: seq<Record<P>>): seq<PanelRow<P>> {
    if records == [] then [] else [PanelRow(records[0].source, records[0].period, Some(records[0].payload))] + Attach(records[1..])
  }

  /** What `how='left'` produces for one left row (id, period): every matching
      survey row, or a single row of NaNs when none matches. */
  function JoinKey<P>(records: seq<Record<P>>, id: int, period: string): seq<PanelRow<P>> {
    var m := Matches(records, id, period);
    if m == [] then [PanelRow(id, period, None)] else Attach(m)
  }

  /** The left rows id, id+1, ..., 150 joined in turn. */
  function DensifyFrom<P>(period: string, records: seq<Record<P>>, id: nat): seq<PanelRow<P>>
    requires 1 <= id <= PANEL_SIZE + 1
    decreases PANEL_SIZE + 1 - id
  {
    if id == PANEL_SIZE + 1 then [] else JoinKey(records, id, period) + DensifyFrom(period, records, id + 1)
  }

  /** `pd.merge(full_forecaster_df, rows, on=['FCT_SOURCE', 'TARGET_PERIOD'], how='left')`. */
  function Densify<P>(period: string, records: seq<Record<P>>): seq<PanelRow<P>> {
    DensifyFrom(period, records, 1)
  }

  /** The survey rows kept for a key are exactly those of the input with that key. */
  lemma {:induction false} MatchesSpec<P(!new)>(records: seq<Record<P>>, id: int, period: string)
    ensures forall x :: x in Matches(records, id, period) <==> x in records && x.source == id && x.period == period
  {
    if records != [] {
      MatchesSpec(records[1..], id, period);
      assert records == [records[0]] + records[1..];
    }
  }

  /** No survey row with the key, no match. */
  lemma {:induction false} MatchesNone<P(!new)>(records: seq<Record<P>>, id: int, period: string)
    requires forall x :: x in records ==> !(x.source == id && x.period == period)
    ensures Matches(records, id, period) == []
  {
    if records != [] {
      assert records[0] in records;
      MatchesNone(records[1..], id, period);
    }
  }

  /** Attaching keeps each survey row's id, period and payload, in order. */
  lemma {:induction false} AttachSpec<P>(records: seq<Record<P>>)
    ensures |Attach(records)| == |records|
    ensures forall k :: 0 <= k < |records| ==>
              Attach(records)[k] == PanelRow(records[k].source, records[k].period, Some(records[k].payload))
  {
    if records != [] {
      AttachSpec(records[1..]);
    }
  }

  /** The payload of the first survey row with the key, if there is one. */
  function Lookup<P>(records: seq<Record<P>>, id: int, period: string): Option<P> {
    if records == [] then None
    else if records[0].source == id && records[0].period == period then Some(records[0].payload)
    else Lookup(records[1..], id, period)
  }

  /** The payload found is that of a survey row with the key. */
  lemma {:induction false} LookupFirst<P(!new)>(records: seq<Record<P>>, id: int, period: string)
    requires Lookup(records, id, period).Some?
    ensures Record(period, id, Lookup(records, id, period).value) in records
  {
    if !(records[0].source == id && records[0].period == period) {
      LookupFirst(records[1..], id, period);
    }
  }

  /** At most one survey row per forecaster and period. */
  predicate UniqueKeys<P>(records: seq<Record<P>>) {
    forall i, j :: 0 <= i < j < |records| ==> (records[i].source, records[i].period) != (records[j].source, records[j].period)
  }

  // ----- Properties of one join key -----

  /** The first survey row with the key is the one Lookup finds. */
  lemma {:induction false} MatchesLookup<P(!new)>(records: seq<Record<P>>, id: int, period: string)
    ensures Matches(records, id, period) == [] <==> Lookup(records, id, period).None?
    ensures Matches(records, id, period) != [] ==> Matches(records, id, period)[0].payload == Lookup(records, id, period).value
  {
    if records != [] {
      MatchesLookup(records[1..], id, period);
    }
  }

  /** The join gives at least one row for the key; the first one carries the
      payload Lookup finds (None for the row of NaNs). */
  lemma JoinKeyHead<P(!new)>(records: seq<Record<P>>, id: int, period: string)
    ensures |JoinKey(records, id, period)| >= 1
    ensures JoinKey(records, id, period)[0] == PanelRow(id, period, Lookup(records, id, period))
  {
    MatchesLookup(records, id, period);
    AttachSpec(Matches(records, id, period));
  }

  /** Every row the join gives for a key carries that key. */
  lemma JoinKeyRows<P(!new)>(records: seq<Record<P>>, id: int, period: string)
    ensures forall r :: r in JoinKey(records, id, period) ==> r.source == id && r.period == period
  {
    var m := Matches(records, id, period);
    MatchesSpec(records, id, period);
    AttachSpec(m);
    forall r | r in JoinKey(records, id, period) ensures r.source == id && r.period == period {
      if m != [] {
        var i :| 0 <= i < |m| && Attach(m)[i] == r;
        assert m[i] in m;
      }
    }
  }

  /** Every survey row with the key is in the join's output, with its payload. */
  lemma JoinKeyKeepsMatches<P(!new)>(records: seq<Record<P>>, x: Record<P>)
    requires x in records
    ensures PanelRow(x.source, x.period, Some(x.payload)) in JoinKey(records, x.source, x.period)
  {
    var m := Matches(records, x.source, x.period);
    MatchesSpec(records, x.source, x.period);
    AttachSpec(m);
    var i :| 0 <= i < |m| && m[i] == x;
    assert JoinKey(records, x.source, x.period)[i] == PanelRow(x.source, x.period, Some(x.payload));
  }

  /** Under unique keys, one left row gives exactly one merged row, carrying the
      survey row's payload when there is one. */
  lemma JoinKeyUnique<P(!new)>(records: seq<Record<P>>, id: int, period: string)
    requires UniqueKeys(records)
    ensures JoinKey(records, id, period) == [PanelRow(id, period, Lookup(records, id, period))]
  {
    MatchesUnique(records, id, period);
    JoinKeyHead(records, id, period);
    AttachSpec(Matches(records, id, period));
  }

  lemma {:induction false} MatchesUnique<P(!new)>(records: seq<Record<P>>, id: int, period: string)
    requires UniqueKeys(records)
    ensures |Matches(records, id, period)| <= 1
  {
    if records != [] {
      var tail := records[1..];
      assert UniqueKeys(tail) by {
        forall i, j | 0 <= i < j < |tail| ensures (tail[i].source, tail[i].period) != (tail[j].source, tail[j].period) {
          assert tail[i] == records[i + 1] && tail[j] == records[j + 1];
        }
      }
      MatchesUnique(tail, id, period);
      if records[0].source == id && records[0].period == period {
        forall x | x in tail ensures !(x.source == id && x.period == period) {
          var j :| 0 <= j < |tail| && tail[j] == x;
          assert records[j + 1] == x;
        }
        MatchesNone(tail, id, period);
      }
    }
  }

  // ----- Properties of the densified frame -----

  /** The part of the frame for the ids from `id` on. */
  lemma DensifyFromUnfold<P>(period: string, records: seq<Record<P>>, id: nat)
    requires 1 <= id <= PANEL_SIZE
    ensures DensifyFrom(period, records, id) == JoinKey(records, id, period) + DensifyFrom(period, records, id + 1)
  {
  }

  /** At least one row for each id from `id` on. */
  lemma {:induction false} DensifyFromLength<P(!new)>(period: string, records: seq<Record<P>>, id: nat)
    requires 1 <= id <= PANEL_SIZE + 1
    ensures |DensifyFrom(period, records, id)| >= PANEL_SIZE + 1 - id
    decreases PANEL_SIZE + 1 - id
  {
    if id <= PANEL_SIZE {
      JoinKeyHead(records, id, period);
      DensifyFromLength(period, records, id + 1);
    }
  }

  /** Rows for one id followed by rows with larger ids. */
  lemma RowsJoin<P(!new)>(head: seq<PanelRow<P>>, rest: seq<PanelRow<P>>, period: string, id: int)
    requires forall r :: r in head ==> r.source == id && r.period == period
    requires forall r :: r in rest ==> r.period == period && id + 1 <= r.source <= PANEL_SIZE
    requires id <= PANEL_SIZE
    ensures forall r :: r in head + rest ==> r.period == period && id <= r.source <= PANEL_SIZE
  {
    forall r | r in head + rest ensures r.period == period && id <= r.source <= PANEL_SIZE {
      if r !in head {
        assert r in rest;
      }
    }
  }

  /** Every row from `id` on carries the period and an id between `id` and 150. */
  lemma {:induction false} DensifyFromRows<P(!new)>(period: string, records: seq<Record<P>>, id: nat)
    requires 1 <= id <= PANEL_SIZE + 1
    ensures forall r :: r in DensifyFrom(period, records, id) ==> r.period == period && id <= r.source <= PANEL_SIZE
    decreases PANEL_SIZE + 1 - id
  {
    if id <= PANEL_SIZE {
      var head, rest := JoinKey(records, id, period), DensifyFrom(period, records, id + 1);
      DensifyFromUnfold(period, records, id);
      JoinKeyRows(records, id, period);
      DensifyFromRows(period, records, id + 1);
      RowsJoin(head, rest, period, id);
    }
  }

  /** Rows whose ids never decrease. */
  ghost predicate Ascending<P>(rows: seq<PanelRow<P>>)
  {
    forall i, j :: 0 <= i < j < |rows| ==> rows[i].source <= rows[j].source
  }

  /** Rows for one id followed by ascending rows with larger ids ascend. */
  lemma AscendingJoin<P(!new)>(head: seq<PanelRow<P>>, rest: seq<PanelRow<P>>, id: int)
    requires forall r :: r in head ==> r.source == id
    requires forall r :: r in rest ==> id < r.source
    requires Ascending(rest)
    ensures Ascending(head + rest)
  {
    var all := head + rest;
    forall i, j | 0 <= i < j < |all| ensures all[i].source <= all[j].source {
      if i < |head| {
        assert all[i] in head;
        if j >= |head| { assert all[j] == rest[j - |head|]; assert all[j] in rest; } else { assert all[j] in head; }
      } else {
        assert all[i] == rest[i - |head|] && all[j] == rest[j - |head|];
      }
    }
  }

  /** The ids ascend through the frame. */
  lemma {:induction false} DensifyFromAscending<P(!new)>(period: string, records: seq<Record<P>>, id: nat)
    requires 1 <= id <= PANEL_SIZE + 1
    ensures Ascending(DensifyFrom(period, records, id))
    decreases PANEL_SIZE + 1 - id
  {
    if id <= PANEL_SIZE {
      var head, rest := JoinKey(records, id, period), DensifyFrom(period, records, id + 1);
      assert forall r :: r in head ==> r.source == id by { JoinKeyRows(records, id, period); }
      assert forall r :: r in rest ==> id < r.source by { DensifyFromRows(period, records, id + 1); }
      assert Ascending(rest) by { DensifyFromAscending(period, records, id + 1); }
      AscendingJoin(head, rest, id);
      assert DensifyFrom(period, records, id) == head + rest by { DensifyFromUnfold(period, records, id); }
    }
  }

  /** The merged frame: every row carries the period and an id of the panel,
      ids ascend, and there are at least 150 rows. */
  lemma DensifyShape<P(!new)>(period: string, records: seq<Record<P>>)
    ensures |Densify(period, records)| >= PANEL_SIZE
    ensures forall r :: r in Densify(period, records) ==> r.period == period && 1 <= r.source <= PANEL_SIZE
    ensures forall i, j :: 0 <= i < j < |Densify(period, records)| ==>
              Densify(period, records)[i].source <= Densify(period, records)[j].source
  {
    DensifyFromLength(period, records, 1);
    DensifyFromRows(period, records, 1);
    DensifyFromAscending(period, records, 1);
  }

  /** The rows the join gives for id `k` are rows of the frame from any id up
      to `k` on. */
  lemma {:induction false} DensifyFromContains<P>(period: string, records: seq<Record<P>>, id: nat, k: nat, row: PanelRow<P>)
    requires 1 <= id <= k <= PANEL_SIZE && row in JoinKey(records, k, period)
    ensures row in DensifyFrom(period, records, id)
    decreases PANEL_SIZE + 1 - id
  {
    DensifyFromUnfold(period, records, id);
    if id < k {
      DensifyFromContains(period, records, id + 1, k, row);
    }
  }

  /** Each forecaster id from `id` on has the row Lookup describes. */
  lemma DensifyFromHasRow<P(!new)>(period: string, records: seq<Record<P>>, id: nat, k: nat)
    requires 1 <= id <= k <= PANEL_SIZE
    ensures PanelRow(k, period, Lookup(records, k, period)) in DensifyFrom(period, records, id)
  {
    JoinKeyHead(records, k, period);
    assert PanelRow(k, period, Lookup(records, k, period)) == JoinKey(records, k, period)[0];
    DensifyFromContains(period, records, id, k, PanelRow(k, period, Lookup(records, k, period)));
  }

  /** Every survey row with the period and an id from `id` on is in the frame
      with its payload. */
  lemma DensifyFromKeeps<P(!new)>(period: string, records: seq<Record<P>>, id: nat, x: Record<P>)
    requires 1 <= id <= x.source <= PANEL_SIZE && x in records && x.period == period
    ensures PanelRow(x.source, period, Some(x.payload)) in DensifyFrom(period, records, id)
  {
    JoinKeyKeepsMatches(records, x);
    DensifyFromContains(period, records, id, x.source, PanelRow(x.source, period, Some(x.payload)));
  }

  /** A merged row with a payload comes from a survey row with its key. */
  lemma JoinKeySound<P(!new)>(records: seq<Record<P>>, id: int, period: string, r: PanelRow<P>)
    requires r in JoinKey(records, id, period) && r.payload.Some?
    ensures Record(period, id, r.payload.value) in records
  {
    var m := Matches(records, id, period);
    MatchesSpec(records, id, period);
    AttachSpec(m);
    var i :| 0 <= i < |Attach(m)| && Attach(m)[i] == r;
    assert m[i] in m;
    assert m[i] == Record(period, id, r.payload.value);
  }

  lemma {:induction false} DensifyFromSound<P(!new)>(period: string, records: seq<Record<P>>, id: nat)
    requires 1 <= id <= PANEL_SIZE + 1
    ensures forall r :: r in DensifyFrom(period, records, id) && r.payload.Some? ==>
              Record(period, r.source, r.payload.value) in records
    decreases PANEL_SIZE + 1 - id
  {
    if id <= PANEL_SIZE {
      DensifyFromUnfold(period, records, id);
      DensifyFromSound(period, records, id + 1);
      JoinKeyRows(records, id, period);
      forall r | r in DensifyFrom(period, records, id) && r.payload.Some?
        ensures Record(period, r.source, r.payload.value) in records
      {
        if r in JoinKey(records, id, period) {
          JoinKeySound(records, id, period, r);
        }
      }
    }
  }

  /** Nothing is invented by the panel: a row that carries survey values
      carries those of a survey row with the row's id and the period. */
  lemma DensifySound<P(!new)>(period: string, records: seq<Record<P>>, r: PanelRow<P>)
    requires r in Densify(period, records) && r.payload.Some?
    ensures Record(period, r.source, r.payload.value) in records
  {
    DensifyFromSound(period, records, 1);
  }

  /** The rows of a frame whose FCT_SOURCE is `id`, in frame order. */
  function RowsOf<P>(rows: seq<PanelRow<P>>, id: int): seq<PanelRow<P>> {
    if rows == [] then []
    else (if rows[0].source == id then [rows[0]] else []) + RowsOf(rows[1..], id)
  }

  lemma {:induction false} RowsOfAppend<P>(a: seq<PanelRow<P>>, b: seq<PanelRow<P>>, id: int)
    ensures RowsOf(a + b, id) == RowsOf(a, id) + RowsOf(b, id)
  {
    if a == [] {
      assert a + b == b;
    } else {
      assert (a + b)[1..] == a[1..] + b;
      RowsOfAppend(a[1..], b, id);
    }
  }

  /** Rows that all have the id are kept whole; rows that all lack it vanish. */
  lemma {:induction false} RowsOfUniform<P>(rows: seq<PanelRow<P>>, id: int, k: int)
    requires forall r :: r in rows ==> r.source == id
    ensures RowsOf(rows, k) == if id == k then rows else []
  {
    if rows != [] {
      assert rows[0] in rows;
      RowsOfUniform(rows[1..], id, k);
    }
  }

  /** No row with the id leaves nothing; one row leaves it at exactly one
      position of the frame. */
  lemma {:induction false} RowsOfSingleton<P>(rows: seq<PanelRow<P>>, id: int, x: PanelRow<P>)
    requires RowsOf(rows, id) == [x]
    ensures exists s :: 0 <= s < |rows| && rows[s] == x &&
              forall i :: 0 <= i < |rows| && rows[i].source == id ==> i == s
  {
    var tail := rows[1..];
    assert RowsOf(rows, id) == (if rows[0].source == id then [rows[0]] else []) + RowsOf(tail, id);
    if rows[0].source == id {
      assert [rows[0]] + RowsOf(tail, id) == [x];
      assert ([rows[0]] + RowsOf(tail, id))[0] == rows[0];
      assert |RowsOf(tail, id)| == 0;
      RowsOfEmpty(tail, id);
    } else {
      RowsOfSingleton(tail, id, x);
      var s :| 0 <= s < |tail| && tail[s] == x &&
               forall i :: 0 <= i < |tail| && tail[i].source == id ==> i == s;
      forall i | 0 <= i < |rows| && rows[i].source == id ensures i == s + 1 {
        assert i > 0;
        assert rows[i] == tail[i - 1];
      }
    }
  }

  lemma {:induction false} RowsOfEmpty<P>(rows: seq<PanelRow<P>>, id: int)
    requires RowsOf(rows, id) == []
    ensures forall i :: 0 <= i < |rows| ==> rows[i].source != id
  {
    if rows != [] {
      RowsOfEmpty(rows[1..], id);
      forall i | 0 < i < |rows| ensures rows[i].source != id {
        assert rows[i] == rows[1..][i - 1];
      }
    }
  }

  /** From `id` on, the rows for forecaster `k` are exactly what the join gives
      for `k` (none when `k` comes before `id`). */
  lemma {:induction false} DensifyFromRowsOf<P(!new)>(period: string, records: seq<Record<P>>, id: nat, k: nat)
    requires 1 <= id <= PANEL_SIZE + 1 && 1 <= k <= PANEL_SIZE
    ensures RowsOf(DensifyFrom(period, records, id), k) == if id <= k then JoinKey(records, k, period) else []
    decreases PANEL_SIZE + 1 - id
  {
    if id <= PANEL_SIZE {
      var head, rest := JoinKey(records, id, period), DensifyFrom(period, records, id + 1);
      assert DensifyFrom(period, records, id) == head + rest by { DensifyFromUnfold(period, records, id); }
      assert RowsOf(head, k) == if id == k then head else [] by {
        JoinKeyRows(records, id, period);
        RowsOfUniform(head, id, k);
      }
      assert RowsOf(rest, k) == if id + 1 <= k then JoinKey(records, k, period) else [] by {
        DensifyFromRowsOf(period, records, id + 1, k);
      }
      RowsOfAppend(head, rest, k);
    }
  }

  /** The rows of forecaster `k` in the merged frame are exactly the rows the
      left join gives for `k`: its survey rows in their order, or one row of
      NaNs. */
  lemma DensifyRowsOf<P(!new)>(period: string, records: seq<Record<P>>, k: nat)
    requires 1 <= k <= PANEL_SIZE
    ensures RowsOf(Densify(period, records), k) == JoinKey(records, k, period)
  {
    DensifyFromRowsOf(period, records, 1, k);
  }

  /** Nothing is lost from the panel: each forecaster has a row, with its first
      survey row's payload if it has one; every survey row for the period
      whose id is in the panel appears in the frame with its payload; and a
      forecaster with no survey row appears exactly once, with NaNs. */
  lemma DensifyCovers<P(!new)>(period: string, records: seq<Record<P>>, k: nat)
    requires 1 <= k <= PANEL_SIZE
    ensures PanelRow(k, period, Lookup(records, k, period)) in Densify(period, records)
    ensures forall x :: x in records && x.source == k && x.period == period ==>
              PanelRow(k, period, Some(x.payload)) in Densify(period, records)
    ensures Lookup(records, k, period).None? ==>
              RowsOf(Densify(period, records), k) == [PanelRow(k, period, None)]
    ensures Lookup(records, k, period).None? ==>
              exists s :: 0 <= s < |Densify(period, records)| && Densify(period, records)[s] == PanelRow(k, period, None) &&
                forall i :: 0 <= i < |Densify(period, records)| && Densify(period, records)[i].source == k ==> i == s
  {
    DensifyFromHasRow(period, records, 1, k);
    forall x | x in records && x.source == k && x.period == period
      ensures PanelRow(k, period, Some(x.payload)) in Densify(period, records)
    {
      DensifyFromKeeps(period, records, 1, x);
    }
    if Lookup(records, k, period).None? {
      MatchesLookup(records, k, period);
      DensifyRowsOf(period, records, k);
      RowsOfSingleton(Densify(period, records), k, PanelRow(k, period, None));
    }
  }

  /** Under unique keys the frame has exactly the 150 rows, row k for forecaster
      k + 1, holding that forecaster's survey row if it has one. */
  lemma {:induction false} DensifyFromUnique<P(!new)>(period: string, records: seq<Record<P>>, id: nat)
    requires 1 <= id <= PANEL_SIZE + 1 && UniqueKeys(records)
    ensures |DensifyFrom(period, records, id)| == PANEL_SIZE + 1 - id
    ensures forall k :: 0 <= k < PANEL_SIZE + 1 - id ==>
              DensifyFrom(period, records, id)[k] == PanelRow(id + k, period, Lookup(records, id + k, period))
    decreases PANEL_SIZE + 1 - id
  {
    if id <= PANEL_SIZE {
      JoinKeyUnique(records, id, period);
      DensifyFromUnique(period, records, id + 1);
      var rest := DensifyFrom(period, records, id + 1);
      var all := DensifyFrom(period, records, id);
      assert all == [PanelRow(id, period, Lookup(records, id, period))] + rest;
      forall k | 0 <= k < PANEL_SIZE + 1 - id
        ensures all[k] == PanelRow(id + k, period, Lookup(records, id + k, period))
      {
        if k > 0 {
          assert all[k] == rest[k - 1];
        }
      }
    }
  }

  lemma DensifyUnique<P(!new)>(period: string, records: seq<Record<P>>)
    requires UniqueKeys(records)
    ensures |Densify(period, records)| == PANEL_SIZE
    ensures forall k :: 0 <= k < PANEL_SIZE ==>
              Densify(period, records)[k] == PanelRow(k + 1, period, Lookup(records, k + 1, period))
  {
    DensifyFromUnique(period, records, 1);
  }
}
