/** What a cut page does to the rest of a scan: the column falls short of its entries for good, so the
    scan fails, or takes entries that lie behind the column (processor.go, lines 654-855). */
module ColumnSpoils {
  import opened ColumnPages
  import opened ColumnBatches
  import opened ColumnCuts

  /** The cursor stands before a page without entries. */
  predicate AtEmptyPage(values: seq<Value>, c: Cursor) {
    && c.valueNo < |values| && c.pageNo < |values[c.valueNo]|
    && PageEntries(values[c.valueNo][c.pageNo]) == []
  }

  /** The first `row` entries were taken, and no others; an old offset may be kept at an empty page. */
  predicate OnCourse(values: seq<Value>, c: Cursor, row: nat) {
    && c.valueNo <= |values| && |Rest(values, c)| + row == |ValuesEntries(values)|
    && (Sane(values, c) || AtEmptyPage(values, c))
  }

  /** More entries than the first `row` are gone. */
  predicate Short(values: seq<Value>, c: Cursor, row: nat) {
    |Rest(values, c)| + row < |ValuesEntries(values)|
  }

  // ----- one read -----

  lemma {:induction false} LeftHasFewer(page: Page, left: nat, h: nat)
    requires 0 < left && left + h + 8 <= |page| && Header(page) == h
    ensures |Entries(page[|page| - left..])| < |PageEntries(page)|
  {
    EntriesCount(page[|page| - left..]);
    EntriesCount(page[h..]);
  }

  /** A cursor that a read leaves in the middle of a page. */
  lemma {:induction false} MiddleIsSane(values: seq<Value>, v: nat, p: nat, left: nat, h: nat)
    requires v < |values| && p < |values[v]| && 0 < left && left + h + 8 <= |values[v][p]|
    requires Header(values[v][p]) == h && h >= 6
    ensures Sane(values, Cursor(v, p, |values[v][p]| - left))
  {
    hide Entries, Sane, PageEntries;
    LeftHasFewer(values[v][p], left, h);
    LeftIsSane(values, v, p, left, |Entries(values[v][p][|values[v][p]| - left..])|);
  }

  /** Every read that does not end stale leaves a sane cursor, wherever it began. */
  lemma {:induction false} FreshIsSane(values: seq<Value>, c: Cursor, n: nat, h: nat)
    requires AllHeaders(values, h) && h >= 6 && BehindEntry(c.pageOffset, h) && n > 0
    ensures var r := ReadColumn(values, c, n);
            r.Read? && !r.stale ==> Sane(values, r.cursor) && r.cursor.valueNo < |values|
    decreases |values| - c.valueNo
  {
    if c.valueNo < |values| {
      var pages := values[c.valueNo];
      var next := Cursor(c.valueNo + 1, 0, 0);
      if c.pageNo >= |pages| {
        FreshIsSane(values, next, n, h);
      } else {
        hide Entries, ReadPages, Rest, ReadColumn, Sane, PageEntries, ValuesEntries, PagesEntries;
        var data := DataAt(pages[c.pageNo], c.pageOffset);
        ReadPagesLeft(pages, c.pageNo, data, n, h);
        var f := ReadPages(pages, c.pageNo, data, n);
        if f.Found? {
          FoundResult(values, c, n);
          if f.left > 0 {
            MiddleIsSane(values, c.valueNo, f.pageNo, f.left, h);
          } else {
            NotMidPage(values, Cursor(c.valueNo, f.pageNo + 1, c.pageOffset));
          }
        } else {
          UsedUpResult(values, c, n);
          FreshIsSane(values, next, n - |f.entries|, h);
        }
      }
    }
  }

  /** What a read takes at least, and that a stale end either loses entries or stands at an empty page. */
  lemma {:induction false} ReadTakes(values: seq<Value>, c: Cursor, n: nat, h: nat)
    requires AllHeaders(values, h) && h >= 6 && BehindEntry(c.pageOffset, h)
    ensures var r := ReadColumn(values, c, n);
            r.Read? ==>
              && BehindEntry(r.cursor.pageOffset, h) && n <= |Rest(values, c)|
              && |Rest(values, r.cursor)| + n <= |Rest(values, c)|
              && (!r.stale ==> |Rest(values, r.cursor)| + n == |Rest(values, c)|)
              && (r.stale && |Rest(values, r.cursor)| + n == |Rest(values, c)| ==> AtEmptyPage(values, r.cursor))
  {
    hide Rest, ReadColumn, PageEntries;
    ReadColumnRest(values, c, n);
    OffsetsBehindEntry(values, c, n, h);
    var r := ReadColumn(values, c, n);
    if r.Read? && r.stale {
      StaleDrops(values, r.cursor);
    }
  }

  /** A column that is short stays short. */
  lemma {:induction false} StaysShort(values: seq<Value>, c: Cursor, n: nat, h: nat, row: nat)
    requires AllHeaders(values, h) && h >= 6 && BehindEntry(c.pageOffset, h) && Short(values, c, row)
    ensures var r := ReadColumn(values, c, n); r.Read? ==> Short(values, r.cursor, row + n)
  {
    hide Rest, ReadColumn, ValuesEntries;
    ReadTakes(values, c, n, h);
  }

  lemma {:induction false} OnCourseOrShort(values: seq<Value>, c: Cursor, n: nat, h: nat, row: nat)
    requires AllHeaders(values, h) && h >= 6 && BehindEntry(c.pageOffset, h) && OnCourse(values, c, row)
    ensures var r := ReadColumn(values, c, n);
            r.Read? ==> OnCourse(values, r.cursor, row + n) || Short(values, r.cursor, row + n)
  {
    hide Rest, ReadColumn, ValuesEntries, Sane, AtEmptyPage;
    ReadTakes(values, c, n, h);
    if n == 0 {
      ReadNothing(values, c);
    } else {
      FreshIsSane(values, c, n, h);
      var r := ReadColumn(values, c, n);
      if r.Read? && r.stale && !Short(values, r.cursor, row + n) {
        EmptyPageInside(values, r.cursor);
      }
    }
  }

  lemma {:induction false} EmptyPageInside(values: seq<Value>, c: Cursor)
    requires AtEmptyPage(values, c)
    ensures c.valueNo < |values| && c.pageNo < |values[c.valueNo]|
  {
  }

  /** At an empty page nothing is read of the page, whatever the offset. */
  lemma {:induction false} EmptyPageIsBoundary(values: seq<Value>, c: Cursor, h: nat)
    requires AtEmptyPage(values, c) && AllHeaders(values, h) && BehindEntry(c.pageOffset, h)
    ensures c.valueNo < |values| && c.pageNo < |values[c.valueNo]|
    ensures Position(values, c) == Before(values, c.valueNo, c.pageNo + 1)
  {
    hide Entries, Before;
    if c.pageOffset > 0 {
      EntriesFewer(values[c.valueNo][c.pageNo], c.pageOffset);
    }
  }

  /** A cut into a page with entries leaves the column short. */
  lemma {:induction false} CutMakesShort(values: seq<Value>, c: Cursor, n: nat, h: nat, row: nat)
    requires AllHeaders(values, h) && h >= 6 && BehindEntry(c.pageOffset, h) && OnCourse(values, c, row)
    requires CutsIntoEntries(values, row, row + n)
    ensures var r := ReadColumn(values, c, n); r.Read? ==> Short(values, r.cursor, row + n)
  {
    hide Rest, ReadColumn, ValuesEntries, Sane, AtEmptyPage, Position, Before, PageEntries, BehindEntry, AllHeaders;
    PositionAndRest(values, c);
    ReadTakes(values, c, n, h);
    if !Sane(values, c) {
      var v, p, q :| 0 <= v < |values| && 0 <= p < |values[v]| && 0 <= q < |values[v]| &&
        InsidePage(values, row, v, p) && EndsPage(values, row + n, v, q) && q + 1 < |values[v]|
        && PageEntries(values[v][q]) != [] && PageEntries(values[v][q + 1]) != [];
      EmptyPageIsBoundary(values, c, h);
      InsideNotAtEnd(values, row, v, p, c.valueNo, c.pageNo + 1);
      assert false;
    } else if ReadColumn(values, c, n).Read? {
      CursorRightUnlessCut(values, c, n, h);
      CursorRightIff(values, c, n, h);
      var r := ReadColumn(values, c, n);
      if !Short(values, r.cursor, row + n) {
        NoEntriesThere(values, r.cursor);
      }
    }
  }

  lemma {:induction false} NoEntriesThere(values: seq<Value>, c: Cursor)
    ensures AtEmptyPage(values, c) ==>
              c.valueNo < |values| && c.pageNo < |values[c.valueNo]|
              && PageEntries(values[c.valueNo][c.pageNo]) == []
  {
  }

  // ----- one batch -----

  /** Every column of a batch is read on its own. */
  lemma {:induction false} OthersCursorAt(t: Layout, cs: seq<Cursor>, from: nat, n: nat, c: nat)
    requires ValidLayout(t) && |cs| == |t.enabled| && from <= c < |t.enabled| && t.enabled[c]
    ensures var o, r := ReadOthers(t, cs, from, n), ReadColumn(Values(t, c), cs[c], n);
            o.Columns? ==> r.Read? && o.cursors[c] == r.cursor
    decreases |t.enabled| - from
  {
    hide ReadColumn, Values;
    if !t.enabled[from] {
      OthersCursorAt(t, cs, from + 1, n, c);
    } else {
      var r := ReadColumn(Values(t, from), cs[from], n);
      if r.Read? {
        var cs' := cs[from := r.cursor];
        if from == c {
          OthersLeaveCursor(t, cs', from + 1, n, c);
        } else {
          OthersCursorAt(t, cs', from + 1, n, c);
        }
      }
    }
  }

  /** One further column of a batch, and the row it begins and ends at. */
  lemma {:induction false} BatchMoves(t: Layout, cs: seq<Cursor>, c: nat)
    requires ValidLayout(t) && |cs| == |t.enabled| && FirstEnabled(t.enabled) < c < |t.enabled| && t.enabled[c]
    requires cs[FirstEnabled(t.enabled)].valueNo < Count(t, FirstEnabled(t.enabled))
    ensures var first := FirstEnabled(t.enabled); var v := cs[first].valueNo;
            var b := GetBatch(t, cs); var n := |PagesEntries(Values(t, first)[v])|;
            && (b.Rows? || b.Failed?)
            && BatchRow(t, v + 1) == BatchRow(t, v) + n
            && (b.Rows? ==>
                  var r := ReadColumn(Values(t, c), cs[c], n);
                  r.Read? && b.cursors[c] == r.cursor && b.cursors[first].valueNo == v + 1)
  {
    var first := FirstEnabled(t.enabled);
    var v := cs[first].valueNo;
    var n := |PagesEntries(Values(t, first)[v])|;
    var cs1 := cs[first := cs[first].(valueNo := v + 1)];
    hide ReadColumn, PagesEntries, ReadOthers, GetBatch, BatchRow, Values;
    BatchRowMoves(t, v);
    OthersOfBatch(t, cs);
    OthersCursorAt(t, cs1, first + 1, n, c);
    if GetBatch(t, cs).Rows? {
      FirstAdvances(t, cs);
    }
  }

  lemma {:induction false} OthersOfBatch(t: Layout, cs: seq<Cursor>)
    requires ValidLayout(t) && |cs| == |t.enabled| && FirstEnabled(t.enabled) < |t.enabled|
    requires cs[FirstEnabled(t.enabled)].valueNo < Count(t, FirstEnabled(t.enabled))
    ensures var first := FirstEnabled(t.enabled); var v := cs[first].valueNo;
            var b, n := GetBatch(t, cs), |PagesEntries(Values(t, first)[v])|;
            var o := ReadOthers(t, cs[first := cs[first].(valueNo := v + 1)], first + 1, n);
            && (b.Rows? || b.Failed?)
            && (b.Rows? ==> o.Columns? && b.cursors == o.cursors)
  {
    hide PagesEntries, ReadOthers, Kept, Values, FiltersFrom;
  }

  lemma {:induction false} BatchRowMoves(t: Layout, v: nat)
    requires ValidLayout(t) && FirstEnabled(t.enabled) < |t.enabled| && v < Count(t, FirstEnabled(t.enabled))
    ensures var first := FirstEnabled(t.enabled);
            v < |Values(t, first)| && BatchRow(t, v + 1) == BatchRow(t, v) + |PagesEntries(Values(t, first)[v])|
  {
    hide PagesEntries;
    var first := FirstEnabled(t.enabled);
    assert Own(t, first)[v] == Values(t, first)[v];
    hide Values, Own;
    ValuesStep(Own(t, first), v);
  }

  // ----- a whole scan -----

  /** The entries stored behind the last row of column `c`. */
  function Behind(t: Layout, c: nat): (es: seq<Entry>)
    requires ValidLayout(t) && c < |t.enabled|
  {
    ValuesEntries(Values(t, c)[Count(t, c)..])
  }

  /** Column `c` has gone on into what is stored behind it. */
  predicate Trespasses(t: Layout, cs: seq<Cursor>, c: nat)
    requires ValidLayout(t) && |cs| == |t.enabled| && c < |t.enabled|
  {
    |Rest(Values(t, c), cs[c])| < |Behind(t, c)|
  }

  /** The scan ends with an error, or with column `c` having gone on behind its own entries. */
  predicate Spoiled(t: Layout, s: Scan, c: nat)
    requires ValidLayout(t) && c < |t.enabled|
  {
    s.ScanFailed? || (s.Scanned? && |s.cursors| == |t.enabled| && Trespasses(t, s.cursors, c))
  }

  lemma {:induction false} AllEntries(t: Layout, c: nat)
    requires ValidLayout(t) && c < |t.enabled|
    ensures |ValuesEntries(Values(t, c))| == |Column(t, c)| + |Behind(t, c)|
  {
    var values, own := Values(t, c), Count(t, c);
    assert values == values[..own] + values[own..];
    ValuesJoin(values[..own], values[own..]);
  }

  lemma {:induction false} HeadersOfColumn(t: Layout, c: nat, h: nat)
    requires ValidLayout(t) && c < |t.enabled| && AllHeaders(t.store, h)
    ensures AllHeaders(Values(t, c), h)
  {
    assert ChunkInside(t, c);
    assert forall v :: 0 <= v < |Values(t, c)| ==> Values(t, c)[v] == t.store[t.chunks[c] + v];
  }

  lemma {:induction false} ScanTurn(t: Layout, cs: seq<Cursor>)
    requires ValidLayout(t) && |cs| == |t.enabled| && FirstEnabled(t.enabled) < |t.enabled|
    ensures var s, b := ScanAll(t, cs), GetBatch(t, cs);
            && (b.Failed? ==> s.ScanFailed?)
            && (b.NoMore? ==> s.Scanned? && s.cursors == cs)
            && (b.Rows? ==>
                  var later := ScanAll(t, b.cursors);
                  (later.ScanFailed? ==> s.ScanFailed?)
                  && (later.Scanned? ==> s.Scanned? && s.cursors == later.cursors))
    ensures GetBatch(t, cs).NoMore? <==> cs[FirstEnabled(t.enabled)].valueNo >= Count(t, FirstEnabled(t.enabled))
  {
  }

  /** A column that is short, or will be cut into a page with entries, spoils the scan. */
  lemma {:induction false} ScanSpoils(t: Layout, cs: seq<Cursor>, c: nat, h: nat, k: nat)
    requires ValidLayout(t) && |cs| == |t.enabled| && FirstEnabled(t.enabled) < c < |t.enabled| && t.enabled[c]
    requires |Column(t, c)| == |Column(t, FirstEnabled(t.enabled))|
    requires AllHeaders(Values(t, c), h) && h >= 6 && BehindEntry(cs[c].pageOffset, h)
    requires var first := FirstEnabled(t.enabled); var v := cs[first].valueNo; var values := Values(t, c);
             && v <= Count(t, first)
             && (Short(values, cs[c], BatchRow(t, v))
                 || (OnCourse(values, cs[c], BatchRow(t, v)) && v <= k < Count(t, first)
                     && CutsIntoEntries(values, BatchRow(t, k), BatchRow(t, k + 1))))
    ensures Spoiled(t, ScanAll(t, cs), c)
    decreases Ahead(t, cs)
  {
    hide ScanAll, GetBatch, ReadColumn, Rest, OnCourse, CutsIntoEntries, AllHeaders, BehindEntry, BatchRow, Values;
    var first := FirstEnabled(t.enabled);
    var v := cs[first].valueNo;
    ScanTurn(t, cs);
    if v >= Count(t, first) {
      AllEntries(t, c);
      LastRow(t);
    } else {
      BatchMoves(t, cs, c);
      var n := BatchRow(t, v + 1) - BatchRow(t, v);
      var b := GetBatch(t, cs);
      if b.Rows? {
        ReadTakes(Values(t, c), cs[c], n, h);
        if Short(Values(t, c), cs[c], BatchRow(t, v)) {
          StaysShort(Values(t, c), cs[c], n, h, BatchRow(t, v));
        } else if k == v {
          CutMakesShort(Values(t, c), cs[c], n, h, BatchRow(t, v));
        } else {
          OnCourseOrShort(Values(t, c), cs[c], n, h, BatchRow(t, v));
        }
        ScanSpoils(t, b.cursors, c, h, k);
      }
    }
  }

  lemma {:induction false} LastRow(t: Layout)
    requires ValidLayout(t) && FirstEnabled(t.enabled) < |t.enabled|
    ensures var first := FirstEnabled(t.enabled); BatchRow(t, Count(t, first)) == |Column(t, first)|
  {
    var first := FirstEnabled(t.enabled);
    assert Own(t, first)[..Count(t, first)] == Own(t, first);
  }

  lemma {:induction false} OwnCutsInto(values: seq<Value>, n: nat, b: nat, e: nat)
    requires n <= |values| && CutsIntoEntries(values[..n], b, e)
    ensures CutsIntoEntries(values, b, e)
  {
    hide Before, PageEntries;
    var own := values[..n];
    var v, p, q :| 0 <= v < |own| && 0 <= p < |own[v]| && 0 <= q < |own[v]| &&
      InsidePage(own, b, v, p) && EndsPage(own, e, v, q) && q + 1 < |own[v]|
      && PageEntries(own[v][q]) != [] && PageEntries(own[v][q + 1]) != [];
    OwnBefore(values, n, v, p);
    OwnBefore(values, n, v, p + 1);
    OwnBefore(values, n, v, q + 1);
    assert InsidePage(values, b, v, p) && EndsPage(values, e, v, q);
  }

  /** Any batch that cuts into a page with entries of a further column spoils the scan: it fails, or
      takes entries that are not the column's. If nothing is stored behind the column, it fails. */
  lemma {:induction false} CutSpoilsScan(t: Layout, rows: nat, h: nat, c: nat, k: nat)
    requires ValidLayout(t) && EqualRows(t, rows) && AllHeaders(t.store, h) && h >= 6
    requires FirstEnabled(t.enabled) < c < |t.enabled| && t.enabled[c] && k < Count(t, FirstEnabled(t.enabled))
    requires CutsIntoEntries(Own(t, c), BatchRow(t, k), BatchRow(t, k + 1))
    ensures Spoiled(t, ScanAll(t, Starts(|t.enabled|)), c)
    ensures Behind(t, c) == [] ==> ScanAll(t, Starts(|t.enabled|)).ScanFailed?
  {
    hide ScanAll, CutsIntoEntries, BatchRow, AllHeaders, Rest, Column;
    var cs := Starts(|t.enabled|);
    HeadersOfColumn(t, c, h);
    OwnCutsInto(Values(t, c), Count(t, c), BatchRow(t, k), BatchRow(t, k + 1));
    assert |Column(t, c)| == |Column(t, FirstEnabled(t.enabled))| == rows;
    StartsOnCourse(t, c);
    ScanSpoils(t, cs, c, h, k);
  }

  lemma {:induction false} StartsOnCourse(t: Layout, c: nat)
    requires ValidLayout(t) && FirstEnabled(t.enabled) < |t.enabled| && c < |t.enabled|
    ensures OnCourse(Values(t, c), START, BatchRow(t, 0)) && BatchRow(t, 0) == 0
  {
    hide PagesEntries, PageEntries;
    assert Own(t, FirstEnabled(t.enabled))[..0] == [];
    RestAtValue(Values(t, c), 0);
    assert Values(t, c)[0..] == Values(t, c);
  }

  // ----- when every page has entries -----

  predicate AllFilled(values: seq<Value>) {
    forall v, p :: 0 <= v < |values| && 0 <= p < |values[v]| ==> PageEntries(values[v][p]) != []
  }

  lemma {:induction false} FilledCut(values: seq<Value>, b: nat, e: nat)
    requires AllFilled(values) && CutsPage(values, b, e)
    ensures CutsIntoEntries(values, b, e)
  {
    hide Before, PageEntries;
  }

  lemma {:induction false} FilledColumn(t: Layout, c: nat)
    requires ValidLayout(t) && c < |t.enabled| && AllFilled(t.store)
    ensures AllFilled(Own(t, c))
  {
    hide PageEntries;
    assert ChunkInside(t, c);
    assert forall v :: 0 <= v < |Own(t, c)| ==> Own(t, c)[v] == t.store[t.chunks[c] + v];
  }

  /** Some column after the first is spoiled. */
  predicate AnySpoiled(t: Layout, s: Scan)
    requires ValidLayout(t)
  {
    exists c :: FirstEnabled(t.enabled) < c < |t.enabled| && t.enabled[c] && Spoiled(t, s, c)
  }

  /** When every page has entries, a scan is spoiled if and only if some batch cuts a page, and if not,
      it is the table's rows that pass every filter, in order. */
  lemma {:induction false} SpoiledIffCut(t: Layout, rows: nat, h: nat)
    requires ValidLayout(t) && EqualRows(t, rows) && AllHeaders(t.store, h) && h >= 6 && AllFilled(t.store)
    requires FirstEnabled(t.enabled) < |t.enabled|
    ensures var s := ScanAll(t, Starts(|t.enabled|)); var n := Count(t, FirstEnabled(t.enabled));
            && (AnySpoiled(t, s) <==> exists k :: 0 <= k < n && BatchCuts(t, k))
            && (!AnySpoiled(t, s) ==> s.Scanned? && s.rows == TableRows(t, rows, 0, rows))
  {
    hide ScanAll, EqualRows, TableRows, CutsIntoEntries, CutsPage, BatchRow, AllHeaders, AllFilled, Spoiled, Own,
         NeverStale, ScanAtRow;
    var cs, n := Starts(|t.enabled|), Count(t, FirstEnabled(t.enabled));
    var s := ScanAll(t, cs);
    if k :| 0 <= k < n && BatchCuts(t, k) {
      var b, e := BatchRow(t, k), BatchRow(t, k + 1);
      var first := FirstEnabled(t.enabled);
      var c :| first + 1 <= c < |t.enabled| && t.enabled[c] && CutsPage(Own(t, c), b, e);
      FilledColumn(t, c);
      FilledCut(Own(t, c), b, e);
      CutSpoilsScan(t, rows, h, c, k);
    } else {
      hide BatchCuts;
      UncutScanIsTable(t, rows);
      StartsAtRowZero(t);
      ScanEndsAtRow(t, cs, 0, rows);
      forall c | FirstEnabled(t.enabled) < c < |t.enabled| && t.enabled[c]
        ensures !Spoiled(t, s, c)
      {
        NotSpoiled(t, s.cursors, rows, c);
        SpoiledMeans(t, s, c);
      }
    }
  }

  lemma {:induction false} SpoiledMeans(t: Layout, s: Scan, c: nat)
    requires ValidLayout(t) && c < |t.enabled| && s.Scanned? && |s.cursors| == |t.enabled|
    ensures Spoiled(t, s, c) <==> Trespasses(t, s.cursors, c)
  {
  }

  lemma {:induction false} NotSpoiled(t: Layout, cs: seq<Cursor>, rows: nat, c: nat)
    requires ValidLayout(t) && |cs| == |t.enabled| && EqualRows(t, rows) && ScanAtRow(t, cs, rows)
    requires FirstEnabled(t.enabled) < c < |t.enabled| && t.enabled[c]
    ensures !Trespasses(t, cs, c)
  {
    hide Rest, ValuesEntries, Values, Own;
    assert AtRow(t, cs[c], c, rows);
  }

  /** A scan without stale batches ends behind the last row in every enabled column. */
  lemma {:induction false} ScanEndsAtRow(t: Layout, cs: seq<Cursor>, row: nat, rows: nat)
    requires ValidLayout(t) && |cs| == |t.enabled| && EqualRows(t, rows) && ScanAtRow(t, cs, row) && NeverStale(t, cs)
    ensures var s := ScanAll(t, cs); s.Scanned? && |s.cursors| == |t.enabled| && ScanAtRow(t, s.cursors, rows)
    decreases Ahead(t, cs)
  {
    hide GetBatch, TableRows, ScanAtRow, EqualRows;
    var first := FirstEnabled(t.enabled);
    ScanHasFirst(t, cs, row);
    if cs[first].valueNo >= Count(t, first) {
      ScanAtEnd(t, cs, row, rows);
    } else {
      var n := |PagesEntries(Values(t, first)[cs[first].valueNo])|;
      BatchIsNextSlice(t, cs, row, rows);
      FirstAdvances(t, cs);
      ScanEndsAtRow(t, GetBatch(t, cs).cursors, row + n, rows);
    }
  }
}
