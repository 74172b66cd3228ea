/** What a batch of rows is, and that the batches of one scan make up the table (processor.go,
    `GetAllRows` and `GetRowBatch`). */
module ColumnBatches {
  import opened ColumnPages

  /** `chunks[c]` to `chunks[c + 1]` are the places of column `c` in the stored array. */
  datatype Layout = Layout(store: seq<Value>, chunks: seq<nat>, enabled: seq<bool>, filters: seq<Entry -> bool>)

  predicate ChunkInside(t: Layout, c: nat) {
    c + 1 < |t.chunks| && t.chunks[c] <= t.chunks[c + 1] <= |t.store|
  }

  predicate ValidLayout(t: Layout) {
    && |t.chunks| == |t.enabled| + 1 && |t.filters| == |t.enabled|
    && (forall c :: 0 <= c < |t.enabled| ==> ChunkInside(t, c))
  }

  /** The stored array from column `c` on. */
  function Values(t: Layout, c: nat): (values: seq<Value>)
    requires ValidLayout(t) && c < |t.enabled|
  {
    assert ChunkInside(t, c);
    t.store[t.chunks[c]..]
  }

  function Count(t: Layout, c: nat): (n: nat)
    requires ValidLayout(t) && c < |t.enabled|
    ensures n <= |Values(t, c)|
  {
    assert ChunkInside(t, c);
    t.chunks[c + 1] - t.chunks[c]
  }

  function FirstEnabled(enabled: seq<bool>): (c: nat)
    ensures c <= |enabled| && (c < |enabled| ==> enabled[c]) && forall i :: 0 <= i < c ==> !enabled[i]
  {
    if enabled == [] || enabled[0] then 0 else 1 + FirstEnabled(enabled[1..])
  }

  /** The filters of the enabled columns from `c` on. */
  function FiltersFrom(t: Layout, c: nat): (fs: seq<Entry -> bool>)
    requires ValidLayout(t) && c <= |t.enabled|
    decreases |t.enabled| - c
  {
    if c == |t.enabled| then []
    else if t.enabled[c] then [t.filters[c]] + FiltersFrom(t, c + 1)
    else FiltersFrom(t, c + 1)
  }

  // ----- rows -----

  predicate Wide(columns: seq<seq<Entry>>, n: nat) {
    forall j :: 0 <= j < |columns| ==> |columns[j]| >= n
  }

  function Row(columns: seq<seq<Entry>>, i: nat): (row: seq<Entry>)
    requires forall j :: 0 <= j < |columns| ==> i < |columns[j]|
    ensures |row| == |columns|
  {
    seq(|columns|, j requires 0 <= j < |columns| => columns[j][i])
  }

  predicate Passes(row: seq<Entry>, filters: seq<Entry -> bool>)
    requires |row| == |filters|
  {
    forall j :: 0 <= j < |row| ==> filters[j](row[j])
  }

  /** The rows from `first` up to `last` that pass every filter, in order. */
  function Kept(columns: seq<seq<Entry>>, filters: seq<Entry -> bool>, first: nat, last: nat): (rows: seq<seq<Entry>>)
    requires first <= last && Wide(columns, last) && |columns| == |filters|
    decreases last
  {
    if first >= last then []
    else
      var row := Row(columns, last - 1);
      Kept(columns, filters, first, last - 1) + if Passes(row, filters) then [row] else []
  }

  // ----- one batch -----

  datatype Others = Columns(columns: seq<seq<Entry>>, cursors: seq<Cursor>, stale: bool) | Broken(cursors: seq<Cursor>)

  /** `n` entries of every enabled column from `c` on. */
  function ReadOthers(t: Layout, cs: seq<Cursor>, c: nat, n: nat): (o: Others)
    requires ValidLayout(t) && |cs| == |t.enabled| && c <= |t.enabled|
    ensures |o.cursors| == |cs|
    ensures o.Columns? ==> |o.columns| == |FiltersFrom(t, c)|
    decreases |t.enabled| - c
  {
    if c == |t.enabled| then Columns([], cs, false)
    else if !t.enabled[c] then ReadOthers(t, cs, c + 1, n)
    else
      match ReadColumn(Values(t, c), cs[c], n)
      case Missing(c') => Broken(cs[c := c'])
      case Read(es, c', stale) =>
        match ReadOthers(t, cs[c := c'], c + 1, n)
        case Broken(cs') => Broken(cs')
        case Columns(columns, cs', later) => Columns([es] + columns, cs', stale || later)
  }

  /** `NoMore`: the first enabled column is used up. */
  datatype Batch =
    | Rows(rows: seq<seq<Entry>>, cursors: seq<Cursor>, stale: bool)
    | Failed(cursors: seq<Cursor>)
    | NoMore
    | NoColumns

  predicate AllLong(columns: seq<seq<Entry>>, n: nat) {
    forall j :: 0 <= j < |columns| ==> |columns[j]| == n
  }

  lemma {:induction false} OthersAreWide(t: Layout, cs: seq<Cursor>, c: nat, n: nat)
    requires ValidLayout(t) && |cs| == |t.enabled| && c <= |t.enabled|
    ensures ReadOthers(t, cs, c, n).Columns? ==> AllLong(ReadOthers(t, cs, c, n).columns, n)
    decreases |t.enabled| - c
  {
    if c < |t.enabled| {
      if !t.enabled[c] {
        OthersAreWide(t, cs, c + 1, n);
      } else {
        var r := ReadColumn(Values(t, c), cs[c], n);
        ReadLength(Values(t, c), cs[c], n);
        if r.Read? {
          OthersAreWide(t, cs[c := r.cursor], c + 1, n);
        }
      }
    }
  }

  lemma {:induction false} ReadLength(values: seq<Value>, c: Cursor, n: nat)
    ensures var r := ReadColumn(values, c, n); r.Read? ==> |r.entries| == n
    decreases |values| - c.valueNo
  {
    if n > 0 && c.valueNo < |values| {
      var pages := values[c.valueNo];
      var next := Cursor(c.valueNo + 1, 0, 0);
      if c.pageNo >= |pages| {
        ReadLength(values, next, n);
      } else {
        var r := ReadPages(pages, c.pageNo, DataAt(pages[c.pageNo], c.pageOffset), n);
        if r.UsedUp? {
          ReadLength(values, next, n - |r.entries|);
        }
      }
    }
  }

  function GetBatch(t: Layout, cs: seq<Cursor>): (b: Batch)
    requires ValidLayout(t) && |cs| == |t.enabled|
    ensures b.Rows? || b.Failed? ==> |b.cursors| == |cs|
  {
    var first := FirstEnabled(t.enabled);
    if first == |t.enabled| then NoColumns
    else if cs[first].valueNo >= Count(t, first) then NoMore
    else
      var es := PagesEntries(Values(t, first)[cs[first].valueNo]);
      var cs1 := cs[first := cs[first].(valueNo := cs[first].valueNo + 1)];
      OthersAreWide(t, cs1, first + 1, |es|);
      match ReadOthers(t, cs1, first + 1, |es|)
      case Broken(cs') => Failed(cs')
      case Columns(columns, cs', stale) => Rows(Kept([es] + columns, FiltersFrom(t, first), 0, |es|), cs', stale)
  }

  // ----- a whole scan -----

  /** All batches until there is no more. A failed batch loses the rows before it. */
  datatype Scan = Scanned(rows: seq<seq<Entry>>, cursors: seq<Cursor>,
        stale: bool) | ScanFailed(cursors: seq<Cursor>) | ScanNoColumns

  /** How many values of the first enabled column are still to come. */
  function Ahead(t: Layout, cs: seq<Cursor>): (n: nat)
    requires ValidLayout(t) && |cs| == |t.enabled|
  {
    var first := FirstEnabled(t.enabled);
    if first == |t.enabled| || cs[first].valueNo >= Count(t, first) then 0 else Count(t, first) - cs[first].valueNo
  }

  function ScanAll(t: Layout, cs: seq<Cursor>): (s: Scan)
    requires ValidLayout(t) && |cs| == |t.enabled|
    ensures s.Scanned? || s.ScanFailed? ==> |s.cursors| == |cs|
    decreases Ahead(t, cs)
  {
    match GetBatch(t, cs)
    case NoColumns => ScanNoColumns
    case NoMore => Scanned([], cs, false)
    case Failed(cs') => ScanFailed(cs')
    case Rows(rows, cs', stale) =>
      FirstAdvances(t, cs);
      match ScanAll(t, cs')
      case Scanned(more, last, later) => Scanned(rows + more, last, stale || later)
      case ScanFailed(last) => ScanFailed(last)
      case ScanNoColumns => ScanNoColumns
  }

  lemma {:induction false} OthersLeaveCursor(t: Layout, cs: seq<Cursor>, c: nat, n: nat, k: nat)
    requires ValidLayout(t) && |cs| == |t.enabled| && k < c <= |t.enabled|
    ensures ReadOthers(t, cs, c, n).cursors[k] == cs[k]
    decreases |t.enabled| - c
  {
    hide ReadColumn, Values;
    if c < |t.enabled| {
      if !t.enabled[c] {
        OthersLeaveCursor(t, cs, c + 1, n, k);
      } else {
        var r := ReadColumn(Values(t, c), cs[c], n);
        if r.Read? {
          OthersLeaveCursor(t, cs[c := r.cursor], c + 1, n, k);
        }
      }
    }
  }

  lemma {:induction false} FirstAdvances(t: Layout, cs: seq<Cursor>)
    requires ValidLayout(t) && |cs| == |t.enabled| && GetBatch(t, cs).Rows?
    ensures var first := FirstEnabled(t.enabled);
            first < |t.enabled| && cs[first].valueNo < Count(t, first)
            && GetBatch(t, cs).cursors[first] == cs[first].(valueNo := cs[first].valueNo + 1)
  {
    var first := FirstEnabled(t.enabled);
    var es := PagesEntries(Values(t, first)[cs[first].valueNo]);
    var cs1 := cs[first := cs[first].(valueNo := cs[first].valueNo + 1)];
    OthersLeaveCursor(t, cs1, first + 1, |es|, first);
  }

  // ----- the table -----

  function Own(t: Layout, c: nat): (values: seq<Value>)
    requires ValidLayout(t) && c < |t.enabled|
  {
    Values(t, c)[..Count(t, c)]
  }

  /** All entries of column `c`. */
  function Column(t: Layout, c: nat): (es: seq<Entry>)
    requires ValidLayout(t) && c < |t.enabled|
  {
    ValuesEntries(Own(t, c))
  }

  /** The enabled columns from `c` on. */
  function TableFrom(t: Layout, c: nat): (columns: seq<seq<Entry>>)
    requires ValidLayout(t) && c <= |t.enabled|
    ensures |columns| == |FiltersFrom(t, c)|
    decreases |t.enabled| - c
  {
    if c == |t.enabled| then []
    else if t.enabled[c] then [Column(t, c)] + TableFrom(t, c + 1)
    else TableFrom(t, c + 1)
  }

  /** Every enabled column has `rows` entries. */
  predicate EqualRows(t: Layout, rows: nat)
    requires ValidLayout(t)
  {
    forall c :: 0 <= c < |t.enabled| && t.enabled[c] ==> |Column(t, c)| == rows
  }

  /** Column `c` has delivered its first `row` entries. */
  predicate AtRow(t: Layout, cursor: Cursor, c: nat, row: nat)
    requires ValidLayout(t) && c < |t.enabled|
  {
    && ValidOffset(cursor.pageOffset) && row <= |Column(t, c)|
    && Rest(Values(t, c), cursor) == Column(t, c)[row..] + ValuesEntries(Values(t, c)[Count(t, c)..])
  }

  predicate Aligned(t: Layout, cs: seq<Cursor>, from: nat, row: nat)
    requires ValidLayout(t) && |cs| == |t.enabled|
  {
    forall c :: from <= c < |t.enabled| && t.enabled[c] ==> AtRow(t, cs[c], c, row)
  }

  function Slices(columns: seq<seq<Entry>>, first: nat, last: nat): (r: seq<seq<Entry>>)
    requires first <= last && Wide(columns, last)
    ensures |r| == |columns|
  {
    seq(|columns|, j requires 0 <= j < |columns| => columns[j][first..last])
  }

  lemma {:induction false} NextSlice(t: Layout, cursor: Cursor, c: nat, row: nat, n: nat)
    requires ValidLayout(t) && c < |t.enabled| && AtRow(t, cursor, c, row) && row + n <= |Column(t, c)|
    ensures var r := ReadColumn(Values(t, c), cursor, n);
            r.Read? && r.entries == Column(t, c)[row..row + n] && (!r.stale ==> AtRow(t, r.cursor, c, row + n))
  {
    hide Rest, ReadColumn, ValuesEntries, Own;
    var column, later := Column(t, c), ValuesEntries(Values(t, c)[Count(t, c)..]);
    ReadColumnRest(Values(t, c), cursor, n);
    TakeFirst(column[row..], later, n);
    assert column[row..][..n] == column[row..row + n] && column[row..][n..] == column[row + n..];
  }

  lemma {:induction false} TableIsWide(t: Layout, c: nat, rows: nat)
    requires ValidLayout(t) && c <= |t.enabled| && EqualRows(t, rows)
    ensures AllLong(TableFrom(t, c), rows)
    decreases |t.enabled| - c
  {
    if c < |t.enabled| {
      TableIsWide(t, c + 1, rows);
    }
  }

  /** Every enabled column delivers the same next slice. */
  lemma {:induction false} OthersAligned(t: Layout, cs: seq<Cursor>, c: nat, n: nat, row: nat, rows: nat)
    requires ValidLayout(t) && |cs| == |t.enabled| && c <= |t.enabled|
    requires EqualRows(t, rows) && Aligned(t, cs, c, row) && row + n <= rows && AllLong(TableFrom(t, c), rows)
    ensures var o := ReadOthers(t, cs, c, n);
            && o.Columns? && o.columns == Slices(TableFrom(t, c), row, row + n)
            && (!o.stale ==> Aligned(t, o.cursors, c, row + n))
    decreases |t.enabled| - c
  {
    if c == |t.enabled| {
    } else if !t.enabled[c] {
      OthersAligned(t, cs, c + 1, n, row, rows);
    } else {
      hide *;
      TableIsWide(t, c + 1, rows);
      HeadAndTail(t, cs, c, row, rows);
      NextSlice(t, cs[c], c, row, n);
      var r := ReadColumn(Values(t, c), cs[c], n);
      var cs' := cs[c := r.cursor];
      TailAligned(t, cs, c, row, r.cursor);
      OthersAligned(t, cs', c + 1, n, row, rows);
      OthersLeaveCursor(t, cs', c + 1, n, c);
      OneMoreSlice(t, cs, c, n, row, rows, r);
    }
  }

  lemma {:induction false} HeadAndTail(t: Layout, cs: seq<Cursor>, c: nat, row: nat, rows: nat)
    requires ValidLayout(t) && |cs| == |t.enabled| && c < |t.enabled| && t.enabled[c]
    requires EqualRows(t, rows) && Aligned(t, cs, c, row)
    ensures AtRow(t, cs[c], c, row) && |Column(t, c)| == rows
  {
  }

  lemma {:induction false} TailAligned(t: Layout, cs: seq<Cursor>, c: nat, row: nat, cursor: Cursor)
    requires ValidLayout(t) && |cs| == |t.enabled| && c < |t.enabled| && Aligned(t, cs, c, row)
    ensures Aligned(t, cs[c := cursor], c + 1, row)
  {
    hide AtRow;
  }

  lemma {:induction false} OneMoreSlice(t: Layout, cs: seq<Cursor>, c: nat, n: nat, row: nat, rows: nat, r: ReadResult)
    requires ValidLayout(t) && |cs| == |t.enabled| && c < |t.enabled| && t.enabled[c]
    requires r == ReadColumn(Values(t, c), cs[c], n) && r.Read? && row + n <= |Column(t, c)|
    requires AllLong(TableFrom(t, c), rows) && AllLong(TableFrom(t, c + 1), rows) && row + n <= rows
    requires r.entries == Column(t, c)[row..row + n] && (!r.stale ==> AtRow(t, r.cursor, c, row + n))
    requires var o := ReadOthers(t, cs[c := r.cursor], c + 1, n);
             && o.Columns? && o.columns == Slices(TableFrom(t, c + 1), row, row + n) && o.cursors[c] == r.cursor
             && (!o.stale ==> Aligned(t, o.cursors, c + 1, row + n))
    ensures var o := ReadOthers(t, cs, c, n);
            && o.Columns? && o.columns == Slices(TableFrom(t, c), row, row + n)
            && (!o.stale ==> Aligned(t, o.cursors, c, row + n))
  {
    hide Rest, ReadColumn, AtRow, Column;
    assert TableFrom(t, c) == [Column(t, c)] + TableFrom(t, c + 1);
    assert Slices(TableFrom(t, c), row, row + n) == [r.entries] + Slices(TableFrom(t, c + 1), row, row + n);
  }

  // ----- the first column -----

  lemma {:induction false} ValuesJoin(a: seq<Value>, b: seq<Value>)
    ensures ValuesEntries(a + b) == ValuesEntries(a) + ValuesEntries(b)
    decreases |a|
  {
    hide PagesEntries;
    if a == [] {
      assert a + b == b;
    } else {
      ValuesJoin(a[1..], b);
      assert (a + b)[1..] == a[1..] + b;
    }
  }

  /** The first enabled column has delivered its first `row` entries with its first values. */
  predicate FirstAtRow(t: Layout, v: nat, c: nat, row: nat)
    requires ValidLayout(t) && c < |t.enabled|
  {
    v <= Count(t, c) && |ValuesEntries(Own(t, c)[..v])| == row
  }

  lemma {:induction false} OneValue(value: Value)
    ensures ValuesEntries([value]) == PagesEntries(value)
  {
    var values: seq<Value> := [value];
    assert values[1..] == [];
  }

  /** The entries of one value, between those before it and those behind it. */
  lemma {:induction false} ValueSlice(own: seq<Value>, v: nat)
    requires v < |own|
    ensures var es, row := PagesEntries(own[v]), |ValuesEntries(own[..v])|;
            && row + |es| <= |ValuesEntries(own)| && es == ValuesEntries(own)[row..row + |es|]
            && |ValuesEntries(own[..v + 1])| == row + |es|
  {
    hide PagesEntries, ValuesEntries;
    assert own == own[..v] + own[v..] && own[v..] == [own[v]] + own[v + 1..] && own[..v + 1] == own[..v] + [own[v]];
    ValuesJoin(own[..v], own[v..]);
    ValuesJoin([own[v]], own[v + 1..]);
    ValuesJoin(own[..v], [own[v]]);
    OneValue(own[v]);
    Middle(ValuesEntries(own[..v]), PagesEntries(own[v]), ValuesEntries(own[v + 1..]), ValuesEntries(own));
  }

  lemma {:induction false} FirstSlice(t: Layout, v: nat, c: nat, row: nat)
    requires ValidLayout(t) && c < |t.enabled| && FirstAtRow(t, v, c, row) && v < Count(t, c)
    ensures var es := PagesEntries(Values(t, c)[v]);
            row + |es| <= |Column(t, c)| && es == Column(t, c)[row..row + |es|] && FirstAtRow(t, v + 1, c, row + |es|)
  {
    var own := Own(t, c);
    assert own[v] == Values(t, c)[v];
    hide PagesEntries, ValuesEntries, Own, Values, Count;
    ValueSlice(own, v);
  }

  lemma {:induction false} Middle<T>(a: seq<T>, b: seq<T>, c: seq<T>, all: seq<T>)
    requires all == a + (b + c)
    ensures |a| + |b| <= |all| && all[|a|..|a| + |b|] == b
  {
  }

  // ----- batches and scans -----

  lemma {:induction false} KeptJoin(columns: seq<seq<Entry>>, filters: seq<Entry -> bool>, a: nat, b: nat, c: nat)
    requires a <= b <= c && Wide(columns, c) && |columns| == |filters|
    ensures Kept(columns, filters, a, c) == Kept(columns, filters, a, b) + Kept(columns, filters, b, c)
    decreases c
  {
    if b < c {
      KeptJoin(columns, filters, a, b, c - 1);
    }
  }

  lemma {:induction false} RowOfSlices(columns: seq<seq<Entry>>, row: nat, n: nat, k: nat)
    requires k < n && Wide(columns, row + n)
    ensures Wide(Slices(columns, row, row + n), n)
    ensures Row(Slices(columns, row, row + n), k) == Row(columns, row + k)
  {
  }

  /** Rows that agree are kept alike, wherever they stand. */
  lemma {:induction false} KeptAlike(a: seq<seq<Entry>>, b: seq<seq<Entry>>, filters: seq<Entry -> bool>, row: nat,
        k: nat)
    requires |a| == |b| == |filters| && Wide(a, k) && Wide(b, row + k)
    requires forall i :: 0 <= i < k ==> Row(a, i) == Row(b, row + i)
    ensures Kept(a, filters, 0, k) == Kept(b, filters, row, row + k)
    decreases k
  {
    if k > 0 {
      hide Passes, Row;
      KeptAlike(a, b, filters, row, k - 1);
      assert Row(a, k - 1) == Row(b, row + (k - 1));
    }
  }

  lemma {:induction false} KeptOfSlices(columns: seq<seq<Entry>>, filters: seq<Entry -> bool>, row: nat, n: nat)
    requires Wide(columns, row + n) && |columns| == |filters|
    ensures Wide(Slices(columns, row, row + n), n)
    ensures Kept(Slices(columns, row, row + n), filters, 0, n) == Kept(columns, filters, row, row + n)
  {
    hide Kept, Passes, Row;
    var slices := Slices(columns, row, row + n);
    assert Wide(slices, n);
    forall i | 0 <= i < n
      ensures Row(slices, i) == Row(columns, row + i)
    {
      RowOfSlices(columns, row, n, i);
    }
    KeptAlike(slices, columns, filters, row, n);
  }

  /** The scan stands before row `row` of the table in every enabled column. */
  predicate ScanAtRow(t: Layout, cs: seq<Cursor>, row: nat)
    requires ValidLayout(t) && |cs| == |t.enabled|
  {
    var first := FirstEnabled(t.enabled);
    first < |t.enabled| && FirstAtRow(t, cs[first].valueNo, first, row) && Aligned(t, cs, first + 1, row)
  }

  /** The table's rows from `first` to `last` that pass. */
  function TableRows(t: Layout, rows: nat, first: nat, last: nat): (r: seq<seq<Entry>>)
    requires ValidLayout(t) && EqualRows(t, rows) && first <= last <= rows
  {
    var c := FirstEnabled(t.enabled);
    TableIsWide(t, c, rows);
    Kept(TableFrom(t, c), FiltersFrom(t, c), first, last)
  }

  lemma {:induction false} SlicesFirst(column: seq<Entry>, columns: seq<seq<Entry>>, first: nat, last: nat)
    requires first <= last <= |column| && Wide(columns, last)
    ensures Wide([column] + columns, last)
    ensures Slices([column] + columns, first, last) == [column[first..last]] + Slices(columns, first, last)
  {
  }

  lemma {:induction false} TableFromNext(t: Layout, c: nat)
    requires ValidLayout(t) && c < |t.enabled| && t.enabled[c]
    ensures TableFrom(t, c) == [Column(t, c)] + TableFrom(t, c + 1)
  {
  }

  lemma {:induction false} LongIsWide(columns: seq<seq<Entry>>, rows: nat, n: nat)
    requires AllLong(columns, rows) && n <= rows
    ensures Wide(columns, n)
  {
  }

  lemma {:induction false} TableFromFirst(t: Layout, rows: nat, row: nat, n: nat)
    requires ValidLayout(t) && EqualRows(t, rows) && row + n <= rows && FirstEnabled(t.enabled) < |t.enabled|
    ensures var c := FirstEnabled(t.enabled);
            && AllLong(TableFrom(t, c), rows) && AllLong(TableFrom(t, c + 1), rows)
            && row + n <= |Column(t, c)|
            && Slices(TableFrom(t, c), row, row + n)
                  == [Column(t, c)[row..row + n]] + Slices(TableFrom(t, c + 1), row, row + n)
  {
    hide Column, Slices, TableFrom, AllLong, Wide;
    var c := FirstEnabled(t.enabled);
    TableIsWide(t, c, rows);
    TableIsWide(t, c + 1, rows);
    TableFromNext(t, c);
    LongIsWide(TableFrom(t, c), rows, row + n);
    LongIsWide(TableFrom(t, c + 1), rows, row + n);
    SlicesFirst(Column(t, c), TableFrom(t, c + 1), row, row + n);
  }

  /** A batch is the next slice of the table: its rows that pass every filter. */
  lemma {:induction false} BatchIsNextSlice(t: Layout, cs: seq<Cursor>, row: nat, rows: nat)
    requires ValidLayout(t) && |cs| == |t.enabled| && EqualRows(t, rows) && ScanAtRow(t, cs, row)
    requires var first := FirstEnabled(t.enabled); cs[first].valueNo < Count(t, first)
    ensures var first := FirstEnabled(t.enabled);
            var n := |PagesEntries(Values(t, first)[cs[first].valueNo])|;
            var b := GetBatch(t, cs);
            && b.Rows? && row + n <= rows && b.rows == TableRows(t, rows, row, row + n)
            && (!b.stale ==> ScanAtRow(t, b.cursors, row + n))
  {
    hide Rest, ReadColumn, AtRow, Column, ReadOthers, PagesEntries, FirstAtRow, Kept, Slices, TableFrom, FiltersFrom,
          Values, Count;
    var first := FirstEnabled(t.enabled);
    var v := cs[first].valueNo;
    var es := PagesEntries(Values(t, first)[v]);
    FirstSlice(t, v, first, row);
    TableFromFirst(t, rows, 0, 0);
    TableFromFirst(t, rows, row, |es|);
    var cs1 := cs[first := cs[first].(valueNo := v + 1)];
    OthersAligned(t, cs1, first + 1, |es|, row, rows);
    OthersLeaveCursor(t, cs1, first + 1, |es|, first);
    KeptOfSlices(TableFrom(t, first), FiltersFrom(t, first), row, |es|);
  }

  /** No batch of the scan ends stale. */
  predicate NeverStale(t: Layout, cs: seq<Cursor>)
    requires ValidLayout(t) && |cs| == |t.enabled|
    decreases Ahead(t, cs)
  {
    var b := GetBatch(t, cs);
    if b.Rows? then
      FirstAdvances(t, cs);
      !b.stale && NeverStale(t, b.cursors)
    else true
  }

  /** At the end of the first column the whole table has been delivered. */
  lemma {:induction false} ScanAtEnd(t: Layout, cs: seq<Cursor>, row: nat, rows: nat)
    requires ValidLayout(t) && |cs| == |t.enabled| && EqualRows(t, rows) && ScanAtRow(t, cs, row)
    requires var first := FirstEnabled(t.enabled); cs[first].valueNo >= Count(t, first)
    ensures row == rows && GetBatch(t, cs) == NoMore
  {
    var first := FirstEnabled(t.enabled);
    assert Own(t, first)[..Count(t, first)] == Own(t, first);
  }

  /** A scan without stale batches delivers exactly the rows still ahead that pass every filter, in order. */
  lemma {:induction false} ScanDelivers(t: Layout, cs: seq<Cursor>, row: nat, rows: nat)
    requires ValidLayout(t) && |cs| == |t.enabled| && EqualRows(t, rows) && ScanAtRow(t, cs, row) && NeverStale(t, cs)
    ensures var s := ScanAll(t, cs);
            && row <= rows && s.Scanned? && s.rows == TableRows(t, rows, row, rows)
            && GetBatch(t, s.cursors) == NoMore
    decreases Ahead(t, cs)
  {
    hide GetBatch, TableRows, ScanAtRow, EqualRows;
    var first := FirstEnabled(t.enabled);
    ScanHasFirst(t, cs, row);
    if cs[first].valueNo >= Count(t, first) {
      ScanAtEnd(t, cs, row, rows);
      NoRows(t, rows);
    } else {
      var n := |PagesEntries(Values(t, first)[cs[first].valueNo])|;
      BatchIsNextSlice(t, cs, row, rows);
      FirstAdvances(t, cs);
      ScanDelivers(t, GetBatch(t, cs).cursors, row + n, rows);
      TableRowsJoin(t, rows, row, row + n);
    }
  }

  lemma {:induction false} ScanHasFirst(t: Layout, cs: seq<Cursor>, row: nat)
    requires ValidLayout(t) && |cs| == |t.enabled| && ScanAtRow(t, cs, row)
    ensures FirstEnabled(t.enabled) < |t.enabled|
  {
  }

  lemma {:induction false} NoRows(t: Layout, rows: nat)
    requires ValidLayout(t) && EqualRows(t, rows)
    ensures TableRows(t, rows, rows, rows) == []
  {
  }

  lemma {:induction false} TableRowsJoin(t: Layout, rows: nat, first: nat, middle: nat)
    requires ValidLayout(t) && EqualRows(t, rows) && first <= middle <= rows
    ensures TableRows(t, rows, first, rows) == TableRows(t, rows, first, middle) + TableRows(t, rows, middle, rows)
  {
    var c := FirstEnabled(t.enabled);
    TableIsWide(t, c, rows);
    KeptJoin(TableFrom(t, c), FiltersFrom(t, c), first, middle, rows);
  }

  // ----- from the start -----

  function Starts(n: nat): (cs: seq<Cursor>)
    ensures |cs| == n
  {
    seq(n, _ => START)
  }

  lemma {:induction false} StartsAtRowZero(t: Layout)
    requires ValidLayout(t) && FirstEnabled(t.enabled) < |t.enabled|
    ensures ScanAtRow(t, Starts(|t.enabled|), 0)
  {
    var first := FirstEnabled(t.enabled);
    assert Own(t, first)[..0] == [];
    forall c | first + 1 <= c < |t.enabled| && t.enabled[c]
      ensures AtRow(t, START, c, 0)
    {
      var values, n := Values(t, c), Count(t, c);
      RestAtValue(values, 0);
      assert values[0..] == values == values[..n] + values[n..];
      ValuesJoin(values[..n], values[n..]);
    }
  }

  lemma {:induction false} SingleNeverStale(t: Layout, cs: seq<Cursor>)
    requires ValidLayout(t) && |cs| == |t.enabled| && SinglePages(t.store)
    ensures NeverStale(t, cs)
    decreases Ahead(t, cs)
  {
    hide ReadOthers, Values, Kept, PagesEntries;
    var b := GetBatch(t, cs);
    if b.Rows? {
      FirstAdvances(t, cs);
      SingleNeverStale(t, b.cursors);
      var first := FirstEnabled(t.enabled);
      var cs1 := cs[first := cs[first].(valueNo := cs[first].valueNo + 1)];
      OthersNeverStale(t, cs1, first + 1, |PagesEntries(Values(t, first)[cs[first].valueNo])|);
    }
  }

  lemma {:induction false} OthersNeverStale(t: Layout, cs: seq<Cursor>, c: nat, n: nat)
    requires ValidLayout(t) && |cs| == |t.enabled| && c <= |t.enabled| && SinglePages(t.store)
    ensures var o := ReadOthers(t, cs, c, n); o.Columns? ==> !o.stale
    decreases |t.enabled| - c
  {
    if c < |t.enabled| {
      if !t.enabled[c] {
        OthersNeverStale(t, cs, c + 1, n);
      } else {
        var r := ReadColumn(Values(t, c), cs[c], n);
        assert ChunkInside(t, c);
        SinglePagesNeverStale(Values(t, c), cs[c], n);
        if r.Read? {
          OthersNeverStale(t, cs[c := r.cursor], c + 1, n);
        }
      }
    }
  }

  /** With one page per stored value a scan from the start delivers exactly the table's rows that
      pass every filter, in order, and a further scan delivers nothing. */
  lemma {:induction false} ScanIsTable(t: Layout, rows: nat)
    requires ValidLayout(t) && EqualRows(t, rows) && SinglePages(t.store) && FirstEnabled(t.enabled) < |t.enabled|
    ensures var s := ScanAll(t, Starts(|t.enabled|));
            && s.Scanned? && s.rows == TableRows(t, rows, 0, rows)
            && ScanAll(t, s.cursors) == Scanned([], s.cursors, false)
  {
    StartsAtRowZero(t);
    SingleNeverStale(t, Starts(|t.enabled|));
    ScanDelivers(t, Starts(|t.enabled|), 0, rows);
  }
}
