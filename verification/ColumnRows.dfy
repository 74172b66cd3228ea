/** Which rows of the table a scan returns, told from the stored entries and the filters alone. */
module ColumnRows {
  import opened ColumnPages
  import opened ColumnBatches
  import opened ColumnCuts

  /** How many columns before `c` are enabled: the place of column `c` in a row. */
  function Place(enabled: seq<bool>, c: nat): (p: nat)
    requires c <= |enabled|
  {
    if c == 0 then 0 else Place(enabled, c - 1) + if enabled[c - 1] then 1 else 0
  }

  /** The stored entries of column `c`. */
  function Stored(t: Layout, c: nat): (es: seq<Entry>)
    requires ValidLayout(t) && c < |t.enabled|
  {
    assert ChunkInside(t, c);
    ValuesEntries(t.store[t.chunks[c]..t.chunks[c + 1]])
  }

  ghost predicate Increasing(at: seq<nat>, first: nat, last: nat) {
    && (forall k :: 0 <= k < |at| ==> first <= at[k] < last)
    && forall k, l :: 0 <= k < l < |at| ==> at[k] < at[l]
  }

  /** Row `k` holds entry `i` of every enabled column. */
  ghost predicate HoldsRow(t: Layout, row: seq<Entry>, i: nat)
    requires ValidLayout(t)
  {
    && |row| == Place(t.enabled, |t.enabled|)
    && forall c :: 0 <= c < |t.enabled| && t.enabled[c] ==>
         i < |Stored(t, c)| && Place(t.enabled, c) < |row| && row[Place(t.enabled, c)] == Stored(t, c)[i]
  }

  /** Every enabled column's filter accepts its entry `i`. */
  ghost predicate Accepted(t: Layout, i: nat)
    requires ValidLayout(t)
  {
    forall c :: 0 <= c < |t.enabled| && t.enabled[c] && i < |Stored(t, c)| ==> t.filters[c](Stored(t, c)[i])
  }

  /** `rows` are exactly the accepted ones among rows `first` to `last` of the table, in order. */
  ghost predicate Selects(t: Layout, rows: seq<seq<Entry>>, first: nat, last: nat, at: seq<nat>)
    requires ValidLayout(t)
  {
    && |at| == |rows| && Increasing(at, first, last)
    && (forall k :: 0 <= k < |at| ==> HoldsRow(t, rows[k], at[k]) && Accepted(t, at[k]))
    && forall i :: first <= i < last && i !in at ==> !Accepted(t, i)
  }

  // ----- the rows kept -----

  /** The rows kept are those that pass. */
  lemma {:induction false} KeptWhere(columns: seq<seq<Entry>>, filters: seq<Entry -> bool>, first: nat, last: nat)
    returns (at: seq<nat>)
    requires first <= last && Wide(columns, last) && |columns| == |filters|
    ensures |at| == |Kept(columns, filters, first, last)| && Increasing(at, first, last)
    ensures forall k :: 0 <= k < |at| ==> Kept(columns, filters, first, last)[k] == Row(columns, at[k])
    ensures forall i :: first <= i < last ==> (i in at <==> Passes(Row(columns, i), filters))
    decreases last
  {
    hide Row, Passes;
    if first >= last {
      at := [];
    } else {
      at := KeptWhere(columns, filters, first, last - 1);
      assert forall i :: first <= i < last && i in at ==> i < last - 1;
      if Passes(Row(columns, last - 1), filters) {
        ghost var init := at;
        at := init + [last - 1];
        assert forall i :: i in at <==> i in init || i == last - 1;
      }
    }
  }

  // ----- columns and their places -----

  lemma {:induction false} PlaceGrows(enabled: seq<bool>, c: nat, d: nat)
    requires c <= d <= |enabled|
    ensures Place(enabled, c) <= Place(enabled, d)
    ensures c < d && enabled[c] ==> Place(enabled, c) < Place(enabled, d)
    decreases d
  {
    if c < d {
      PlaceGrows(enabled, c, d - 1);
    }
  }

  lemma {:induction false} PlaceOfFirst(enabled: seq<bool>, c: nat)
    requires c <= FirstEnabled(enabled)
    ensures Place(enabled, c) == 0
    decreases c
  {
    if c > 0 {
      PlaceOfFirst(enabled, c - 1);
    }
  }

  lemma {:induction false} StoredIsColumn(t: Layout, c: nat)
    requires ValidLayout(t) && c < |t.enabled|
    ensures Stored(t, c) == Column(t, c)
  {
    assert ChunkInside(t, c);
    assert t.store[t.chunks[c]..t.chunks[c + 1]] == Values(t, c)[..Count(t, c)];
  }

  /** Column `c` and its filter stand at their place in the lists of enabled columns. */
  lemma {:induction false} AtItsPlace(t: Layout, b: nat, c: nat)
    requires ValidLayout(t) && b <= c < |t.enabled| && t.enabled[c]
    ensures 0 <= Place(t.enabled, c) - Place(t.enabled, b) < |FiltersFrom(t, b)| == |TableFrom(t, b)|
    ensures FiltersFrom(t, b)[Place(t.enabled, c) - Place(t.enabled, b)] == t.filters[c]
    ensures TableFrom(t, b)[Place(t.enabled, c) - Place(t.enabled, b)] == Column(t, c)
    decreases c - b
  {
    hide Column;
    PlaceGrows(t.enabled, b, c);
    if b < c {
      AtItsPlace(t, b + 1, c);
    }
  }

  lemma {:induction false} WhosePlace(t: Layout, b: nat, j: nat) returns (c: nat)
    requires ValidLayout(t) && b <= |t.enabled| && j < |FiltersFrom(t, b)|
    ensures b <= c < |t.enabled| && t.enabled[c] && Place(t.enabled, c) - Place(t.enabled, b) == j
    decreases |t.enabled| - b
  {
    if t.enabled[b] && j == 0 {
      c := b;
    } else {
      c := WhosePlace(t, b + 1, if t.enabled[b] then j - 1 else j);
    }
  }

  lemma {:induction false} HowMany(t: Layout, b: nat)
    requires ValidLayout(t) && b <= |t.enabled|
    ensures Place(t.enabled, |t.enabled|) - Place(t.enabled, b) == |FiltersFrom(t, b)|
    decreases |t.enabled| - b
  {
    if b < |t.enabled| {
      HowMany(t, b + 1);
    }
  }

  // ----- rows of the table -----

  /** The entry of column `c` in row `i` of the enabled columns, and its filter. */
  lemma {:induction false} EntryOfTable(t: Layout, rows: nat, i: nat, c: nat)
    requires ValidLayout(t) && EqualRows(t, rows) && i < rows && c < |t.enabled| && t.enabled[c]
    requires AllLong(TableFrom(t, FirstEnabled(t.enabled)), rows)
    ensures var first, p := FirstEnabled(t.enabled), Place(t.enabled, c);
            && p < |TableFrom(t, first)| && |Stored(t, c)| == rows
            && Row(TableFrom(t, first), i)[p] == Stored(t, c)[i] && FiltersFrom(t, first)[p] == t.filters[c]
  {
    hide Column, Stored, TableFrom, FiltersFrom;
    PlaceOfFirst(t.enabled, FirstEnabled(t.enabled));
    AtItsPlace(t, FirstEnabled(t.enabled), c);
    StoredIsColumn(t, c);
  }

  /** Row `i` of the enabled columns, seen column by column. */
  lemma {:induction false} RowOfTable(t: Layout, rows: nat, i: nat)
    requires ValidLayout(t) && EqualRows(t, rows) && i < rows
    ensures var first := FirstEnabled(t.enabled);
            && AllLong(TableFrom(t, first), rows)
            && HoldsRow(t, Row(TableFrom(t, first), i), i)
            && (Passes(Row(TableFrom(t, first), i), FiltersFrom(t, first)) <==> Accepted(t, i))
  {
    hide Column, Stored, TableFrom, FiltersFrom, Row, EqualRows;
    var first := FirstEnabled(t.enabled);
    TableIsWide(t, first, rows);
    HowMany(t, first);
    PlaceOfFirst(t.enabled, first);
    var row, filters := Row(TableFrom(t, first), i), FiltersFrom(t, first);
    forall c | 0 <= c < |t.enabled| && t.enabled[c]
      ensures i < |Stored(t, c)| && Place(t.enabled, c) < |row| && row[Place(t.enabled, c)] == Stored(t, c)[i]
      ensures filters[Place(t.enabled, c)] == t.filters[c]
    {
      EntryOfTable(t, rows, i, c);
    }
    if Accepted(t, i) {
      forall j | 0 <= j < |row|
        ensures filters[j](row[j])
      {
        var c := WhosePlace(t, first, j);
      }
    }
  }

  lemma {:induction false} TableSelects(t: Layout, rows: nat, first: nat, last: nat) returns (at: seq<nat>)
    requires ValidLayout(t) && EqualRows(t, rows) && first <= last <= rows
    ensures Selects(t, TableRows(t, rows, first, last), first, last, at)
  {
    hide TableFrom, FiltersFrom, Kept, Row, Passes, HoldsRow, Accepted, EqualRows;
    var c := FirstEnabled(t.enabled);
    TableIsWide(t, c, rows);
    at := KeptWhere(TableFrom(t, c), FiltersFrom(t, c), first, last);
    forall i | 0 <= i < rows
      ensures AllLong(TableFrom(t, c), rows) && HoldsRow(t, Row(TableFrom(t, c), i), i)
      ensures Passes(Row(TableFrom(t, c), i), FiltersFrom(t, c)) <==> Accepted(t, i)
    {
      RowOfTable(t, rows, i);
    }
  }

  // ----- scans -----

  /** A batch read at row `row` returns exactly the rows among the next `n` that every filter accepts, in order. */
  lemma {:induction false} BatchSelects(t: Layout, cs: seq<Cursor>, row: nat, rows: nat) returns (at: seq<nat>)
    requires ValidLayout(t) && |cs| == |t.enabled| && EqualRows(t, rows) && ScanAtRow(t, cs, row)
    requires var first := FirstEnabled(t.enabled); cs[first].valueNo < Count(t, first)
    ensures var first := FirstEnabled(t.enabled);
            var n := |PagesEntries(Values(t, first)[cs[first].valueNo])|;
            GetBatch(t, cs).Rows? && Selects(t, GetBatch(t, cs).rows, row, row + n, at)
  {
    hide *;
    var first := FirstEnabled(t.enabled);
    ScanHasFirst(t, cs, row);
    BatchIsNextSlice(t, cs, row, rows);
    at := TableSelects(t, rows, row, row + |PagesEntries(Values(t, first)[cs[first].valueNo])|);
  }

  /** A scan that cuts no page, or of values with one page each, returns exactly the rows that every filter accepts,
      in order. */
  lemma {:induction false} ScanSelects(t: Layout, rows: nat) returns (at: seq<nat>)
    requires ValidLayout(t) && FirstEnabled(t.enabled) < |t.enabled|
    requires forall c :: 0 <= c < |t.enabled| && t.enabled[c] ==> |Stored(t, c)| == rows
    requires SinglePages(t.store) || forall k :: 0 <= k < Count(t, FirstEnabled(t.enabled)) ==> !BatchCuts(t, k)
    ensures ScanAll(t, Starts(|t.enabled|)).Scanned?
    ensures Selects(t, ScanAll(t, Starts(|t.enabled|)).rows, 0, rows, at)
  {
    hide *;
    EqualStored(t, rows);
    if SinglePages(t.store) {
      ScanIsTable(t, rows);
    } else {
      UncutScanIsTable(t, rows);
    }
    at := TableSelects(t, rows, 0, rows);
  }

  lemma {:induction false} EqualStored(t: Layout, rows: nat)
    requires ValidLayout(t)
    requires forall c :: 0 <= c < |t.enabled| && t.enabled[c] ==> |Stored(t, c)| == rows
    ensures EqualRows(t, rows)
  {
    hide Stored, Column;
    forall c | 0 <= c < |t.enabled| && t.enabled[c]
      ensures |Column(t, c)| == rows
    {
      StoredIsColumn(t, c);
    }
  }

  /** No scan at all, stale or not, returns a row that a filter refuses. */
  lemma {:induction false} ScanRowsPass(t: Layout, cs: seq<Cursor>, k: nat, c: nat)
    requires ValidLayout(t) && |cs| == |t.enabled| && c < |t.enabled| && t.enabled[c]
    requires ScanAll(t, cs).Scanned? && k < |ScanAll(t, cs).rows|
    ensures var row := ScanAll(t, cs).rows[k];
            && |row| == Place(t.enabled, |t.enabled|) && Place(t.enabled, c) < |row|
            && t.filters[c](row[Place(t.enabled, c)])
    decreases Ahead(t, cs)
  {
    hide GetBatch;
    var b := GetBatch(t, cs);
    FirstAdvances(t, cs);
    if k < |b.rows| {
      BatchRowsPass(t, cs, k, c);
    } else {
      ScanRowsPass(t, b.cursors, k - |b.rows|, c);
    }
  }

  lemma {:induction false} FiltersFromFirst(t: Layout, c: nat)
    requires ValidLayout(t) && c < |t.enabled| && t.enabled[c]
    ensures |FiltersFrom(t, c)| == 1 + |FiltersFrom(t, c + 1)|
  {
  }

  lemma {:induction false} BatchRowsPass(t: Layout, cs: seq<Cursor>, k: nat, c: nat)
    requires ValidLayout(t) && |cs| == |t.enabled| && c < |t.enabled| && t.enabled[c]
    requires GetBatch(t, cs).Rows? && k < |GetBatch(t, cs).rows|
    ensures var row := GetBatch(t, cs).rows[k];
            && |row| == Place(t.enabled, |t.enabled|) && Place(t.enabled, c) < |row|
            && t.filters[c](row[Place(t.enabled, c)])
  {
    hide ReadOthers, PagesEntries, Kept, FiltersFrom;
    var first := FirstEnabled(t.enabled);
    var es := PagesEntries(Values(t, first)[cs[first].valueNo]);
    var cs1 := cs[first := cs[first].(valueNo := cs[first].valueNo + 1)];
    OthersAreWide(t, cs1, first + 1, |es|);
    FiltersFromFirst(t, first);
    var columns := [es] + ReadOthers(t, cs1, first + 1, |es|).columns;
    var at := KeptWhere(columns, FiltersFrom(t, first), 0, |es|);
    assert at[k] in at && Passes(Row(columns, at[k]), FiltersFrom(t, first));
    HowMany(t, first);
    PlaceOfFirst(t.enabled, first);
    AtItsPlace(t, first, c);
  }
}
