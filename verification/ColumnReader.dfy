/** The reader with its per-column offsets (processor.go, `Processor`). */
module ColumnReader {
  import opened ColumnPages
  import opened ColumnBatches

  function CountTrue(flags: seq<bool>): (n: nat)
    ensures n <= |flags|
  {
    if flags == [] then 0 else CountTrue(flags[..|flags| - 1]) + if flags[|flags| - 1] then 1 else 0
  }

  lemma {:induction false} CountCleared(flags: seq<bool>, i: nat)
    requires i < |flags| && flags[i]
    ensures CountTrue(flags[i := false]) == CountTrue(flags) - 1
    decreases |flags|
  {
    var last := |flags| - 1;
    if i < last {
      CountCleared(flags[..last], i);
      assert flags[i := false][..last] == flags[..last][i := false];
    } else {
      assert flags[i := false][..last] == flags[..last];
    }
  }

  lemma {:induction false} CountMore(flags: seq<bool>, b: bool)
    ensures CountTrue(flags + [b]) == CountTrue(flags) + if b then 1 else 0
  {
    assert (flags + [b])[..|flags|] == flags;
  }

  /** The flags once the entries `es`, starting at row `row`, were put to the filter. */
  function Narrowed(flags: seq<bool>, row: nat, es: seq<Entry>, filter: Entry -> bool): (r: seq<bool>)
    ensures |r| == |flags|
  {
    seq(|flags|, k requires 0 <= k < |flags| => flags[k] && (row <= k < row + |es| ==> filter(es[k - row])))
  }

  lemma {:induction false} NarrowedTwice(flags: seq<bool>, row: nat, a: seq<Entry>, b: seq<Entry>,
        filter: Entry -> bool)
    ensures Narrowed(Narrowed(flags, row, a, filter), row + |a|, b, filter) == Narrowed(flags, row, a + b, filter)
  {
  }

  lemma {:induction false} NarrowedOnce(flags: seq<bool>, row: nat, e: Entry, filter: Entry -> bool)
    requires row < |flags|
    ensures Narrowed(flags, row, [e], filter) == if filter(e) then flags else flags[row := false]
  {
  }

  /** The first entry of the data, as it is read into eight zero bytes. */
  function FirstEntry(data: seq<Byte>): (e: Entry) {
    if |data| >= 8 then data[..8] else data + seq(8 - |data|, _ => 0)
  }

  function Later(data: seq<Byte>): (r: seq<Byte>) {
    if |data| <= 8 then [] else data[8..]
  }

  lemma {:induction false} EntriesStep(data: seq<Byte>)
    requires data != []
    ensures Entries(data) == [FirstEntry(data)] + Entries(Later(data))
  {
    if |data| == 8 {
      assert data + seq(8 - |data|, _ => 0) == data == data[..8];
    }
  }

  lemma {:induction false} NarrowedNone(flags: seq<bool>, row: nat, filter: Entry -> bool)
    ensures Narrowed(flags, row, [], filter) == flags
  {
  }

  lemma {:induction false} AllEntriesRead(data: seq<Byte>, es: seq<Entry>, rest: seq<Byte>, n: nat)
    requires Entries(data) == es + Entries(rest) && |es| <= n && (rest == [] || |es| == n)
    ensures es == if n <= |Entries(data)| then Entries(data)[..n] else Entries(data)
  {
  }

  predicate AcceptAll(e: Entry) {
    true
  }

  function NoFilters(n: nat): (fs: seq<Entry -> bool>)
    ensures |fs| == n
  {
    if n == 0 then [] else NoFilters(n - 1) + [AcceptAll]
  }

  lemma {:induction false} SameChunks(t: Layout, enabled: seq<bool>, filters: seq<Entry -> bool>)
    requires ValidLayout(t) && |enabled| == |filters| == |t.enabled|
    ensures ValidLayout(Layout(t.store, t.chunks, enabled, filters))
  {
    var t' := Layout(t.store, t.chunks, enabled, filters);
    forall c | 0 <= c < |enabled|
      ensures ChunkInside(t', c)
    {
      assert ChunkInside(t, c);
    }
  }

  class Processor {
    const store: seq<Value>
    const columnChunksValuesNo: seq<nat>
    var enabledColumns: seq<bool>
    var columnFilters: seq<Entry -> bool>
    var valueNoOffsets: seq<nat>
    var pageNoOffsets: seq<nat>
    var pageOffsets: seq<nat>

    ghost function Table(): (t: Layout)
      reads this
    {
      Layout(store, columnChunksValuesNo, enabledColumns, columnFilters)
    }

    ghost predicate Valid()
      reads this
    {
      ValidLayout(Table()) && |valueNoOffsets| == |pageNoOffsets| == |pageOffsets| == |enabledColumns|
    }

    ghost function CursorOf(c: nat): (r: Cursor)
      requires Valid() && c < |enabledColumns|
      reads this
    {
      Cursor(valueNoOffsets[c], pageNoOffsets[c], pageOffsets[c])
    }

    ghost function Cursors(): (cs: seq<Cursor>)
      requires Valid()
      reads this
      ensures |cs| == |enabledColumns|
    {
      seq(|enabledColumns|, c requires 0 <= c < |enabledColumns| && Valid() reads this => CursorOf(c))
    }

    constructor (store: seq<Value>, chunks: seq<nat>, columnsNo: nat)
      requires ValidLayout(Layout(store, chunks, seq(columnsNo, _ => true), NoFilters(columnsNo)))
      ensures Valid() && this.store == store && columnChunksValuesNo == chunks
      ensures enabledColumns == seq(columnsNo, _ => true) && Cursors() == Starts(columnsNo)
    {
      this.store, columnChunksValuesNo := store, chunks;
      enabledColumns := seq(columnsNo, _ => true);
      columnFilters := NoFilters(columnsNo);
      valueNoOffsets := seq(columnsNo, _ => 0);
      pageNoOffsets := seq(columnsNo, _ => 0);
      pageOffsets := seq(columnsNo, _ => 0);
    }

    method ResetOffsets()
      requires Valid()
      modifies this`valueNoOffsets, this`pageNoOffsets, this`pageOffsets
      ensures Valid() && Cursors() == Starts(|enabledColumns|)
    {
      for i := 0 to |enabledColumns|
        invariant Valid()
        invariant forall c :: 0 <= c < i ==> valueNoOffsets[c] == 0 && pageNoOffsets[c] == 0 && pageOffsets[c] == 0
      {
        valueNoOffsets := valueNoOffsets[i := 0];
        pageNoOffsets := pageNoOffsets[i := 0];
        pageOffsets := pageOffsets[i := 0];
      }
    }

    method EnableColumn(c: nat)
      requires Valid() && c < |enabledColumns|
      modifies this`enabledColumns, this`valueNoOffsets, this`pageNoOffsets, this`pageOffsets
      ensures Valid() && enabledColumns == old(enabledColumns)[c := true] && Cursors() == Starts(|enabledColumns|)
    {
      SameChunks(Table(), enabledColumns[c := true], columnFilters);
      enabledColumns := enabledColumns[c := true];
      ResetOffsets();
    }

    method DisableColumn(c: nat)
      requires Valid() && c < |enabledColumns|
      modifies this`enabledColumns, this`valueNoOffsets, this`pageNoOffsets, this`pageOffsets
      ensures Valid() && enabledColumns == old(enabledColumns)[c := false] && Cursors() == Starts(|enabledColumns|)
    {
      SameChunks(Table(), enabledColumns[c := false], columnFilters);
      enabledColumns := enabledColumns[c := false];
      ResetOffsets();
    }

    method SetColumnFilter(c: nat, filter: Entry -> bool)
      requires Valid() && c < |enabledColumns|
      modifies this`columnFilters, this`valueNoOffsets, this`pageNoOffsets, this`pageOffsets
      ensures Valid() && columnFilters == old(columnFilters)[c := filter] && Cursors() == Starts(|enabledColumns|)
    {
      SameChunks(Table(), enabledColumns, columnFilters[c := filter]);
      columnFilters := columnFilters[c := filter];
      ResetOffsets();
    }

    // ----- one column -----

    /** Reads entries until `outRowsNo` values are read or the data ends, and clears the flags of the
        rows whose entry does not pass. */
    method ReadEntries(filter: Entry -> bool, data: seq<Byte>, flags: seq<bool>, count: nat, valuesRead: nat,
          outRowsNo: nat)
      returns (es: seq<Entry>, left: nat, flags': seq<bool>, count': nat)
      requires valuesRead < outRowsNo == |flags| && count == CountTrue(flags)
      ensures var all, n := Entries(data), outRowsNo - valuesRead;
              && es == (if n <= |all| then all[..n] else all)
              && left == (if n <= |all| && 8 * n < |data| then |data| - 8 * n else 0)
      ensures flags' == Narrowed(flags, valuesRead, es, filter) && count' == CountTrue(flags')
    {
      hide Entries, Narrowed, CountTrue;
      es, flags', count' := [], flags, count;
      var rest := data;
      ghost var all := Entries(data);
      var read := valuesRead;
      NarrowedNone(flags, valuesRead, filter);
      assert all == [] + all;
      while rest != [] && read < outRowsNo
        invariant valuesRead <= read <= outRowsNo && |es| == read - valuesRead
        invariant all == es + Entries(rest)
        invariant |rest| == if 8 * |es| < |data| then |data| - 8 * |es| else 0
        invariant flags' == Narrowed(flags, valuesRead, es, filter) && count' == CountTrue(flags')
        decreases |rest|
      {
        var entry := FirstEntry(rest);
        EntriesStep(rest);
        NarrowedTwice(flags, valuesRead, es, [entry], filter);
        NarrowedOnce(flags', read, entry, filter);
        if !filter(entry) {
          if flags'[read] {
            CountCleared(flags', read);
            flags' := flags'[read := false];
            count' := count' - 1;
          } else {
            assert flags'[read := false] == flags';
          }
        }
        assert all == es + [entry] + Entries(Later(rest));
        es := es + [entry];
        rest := Later(rest);
        read := read + 1;
      }
      left := |rest|;
      AllEntriesRead(data, es, rest, outRowsNo - valuesRead);
    }

    /** The pages of one value, from `pageNo` on: the page and the bytes left when the rows are complete. */
    method ReadValue(filter: Entry -> bool, pages: seq<Page>, startNo: nat, startOffset: nat,
                     flags: seq<bool>, count: nat, valuesRead: nat, outRowsNo: nat)
      returns (es: seq<Entry>, found: bool, pageNo: nat, left: nat, flags': seq<bool>, count': nat)
      requires startNo < |pages| && valuesRead < outRowsNo == |flags| && count == CountTrue(flags)
      requires |DataAt(pages[startNo], startOffset)| <= |pages[startNo]|
      ensures ReadPages(pages, startNo, DataAt(pages[startNo], startOffset), outRowsNo - valuesRead)
           == if found then Found(es, pageNo, left) else UsedUp(es)
      ensures flags' == Narrowed(flags, valuesRead, es, filter) && count' == CountTrue(flags')
    {
      hide Entries, ReadPages, Narrowed, CountTrue, Prepend;
      es, flags', count', pageNo := [], flags, count, startNo;
      var data := DataAt(pages[startNo], startOffset);
      ghost var n := outRowsNo - valuesRead;
      ghost var whole := ReadPages(pages, startNo, data, n);
      NarrowedNone(flags, valuesRead, filter);
      PrependNone(whole);
      while true
        invariant pageNo < |pages| && |data| <= |pages[pageNo]| && |es| < n
        invariant whole == Prepend(es, ReadPages(pages, pageNo, data, n - |es|))
        invariant flags' == Narrowed(flags, valuesRead, es, filter) && count' == CountTrue(flags')
        decreases |pages| - pageNo
      {
        var more;
        more, left, flags', count' := ReadEntries(filter, data, flags', count', valuesRead + |es|, outRowsNo);
        NarrowedTwice(flags, valuesRead, es, more, filter);
        PrependStep(pages, pageNo, data, n - |es|, es, more, left);
        es := es + more;
        if valuesRead + |es| == outRowsNo {
          return es, true, pageNo, left, flags', count';
        }
        if pageNo + 1 == |pages| {
          return es, false, pageNo, left, flags', count';
        }
        pageNo := pageNo + 1;
        data := pages[pageNo][Header(pages[pageNo])..];
      }
    }

    method NextValue(i: nat)
      requires Valid() && i < |enabledColumns|
      modifies this`valueNoOffsets, this`pageNoOffsets, this`pageOffsets
      ensures Valid() && CursorOf(i) == Cursor(old(valueNoOffsets[i]) + 1, 0, 0)
      ensures Cursors() == old(Cursors())[i := CursorOf(i)]
    {
      valueNoOffsets := valueNoOffsets[i := valueNoOffsets[i] + 1];
      pageNoOffsets := pageNoOffsets[i := 0];
      pageOffsets := pageOffsets[i := 0];
    }

    /** The offsets after the last row of a batch. At a page end the byte offset stays what it was. */
    method StopInValue(i: nat, page: Page, pageNo: nat, left: nat)
      requires Valid() && i < |enabledColumns| && left <= |page|
      modifies this`pageNoOffsets, this`pageOffsets
      ensures Valid()
      ensures Cursors() == old(Cursors())[i := if left > 0 then Cursor(valueNoOffsets[i], pageNo, |page| - left)
                                               else Cursor(valueNoOffsets[i], pageNo + 1, old(pageOffsets[i]))]
    {
      if left != 0 {
        pageOffsets := pageOffsets[i := |page| - left];
        pageNoOffsets := pageNoOffsets[i := pageNo];
      } else {
        pageNoOffsets := pageNoOffsets[i := pageNo + 1];
      }
    }

    /** Reads `outRowsNo` entries of column `i` and moves its offsets. */
    method ReadRest(i: nat, outRowsNo: nat, flags: seq<bool>, count: nat)
      returns (column: seq<Entry>, ok: bool, flags': seq<bool>, count': nat)
      requires Valid() && i < |enabledColumns| && |flags| == outRowsNo && count == CountTrue(flags)
      modifies this`valueNoOffsets, this`pageNoOffsets, this`pageOffsets
      ensures Valid()
      ensures var r := ReadColumn(Values(Table(), i), old(CursorOf(i)), outRowsNo);
              && ok == r.Read? && Cursors() == old(Cursors())[i := r.cursor]
              && (ok ==> column == r.entries)
      ensures ok ==> flags' == Narrowed(flags, 0, column, columnFilters[i]) && count' == CountTrue(flags')
    {
      hide ReadPages, ReadColumn, Narrowed, CountTrue, PrependRead;
      column, flags', count' := [], flags, count;
      ghost var values, start := Values(Table(), i), Cursors();
      ghost var whole := ReadColumn(values, CursorOf(i), outRowsNo);
      NarrowedNone(flags, 0, columnFilters[i]);
      PrependReadNone(whole);
      assert start == start[i := CursorOf(i)];
      assert ChunkInside(Table(), i);
      while |column| < outRowsNo
        invariant Valid() && |column| <= outRowsNo && Cursors() == start[i := CursorOf(i)]
        invariant whole == PrependRead(column, ReadColumn(values, CursorOf(i), outRowsNo - |column|))
        invariant flags' == Narrowed(flags, 0, column, columnFilters[i]) && count' == CountTrue(flags')
        decreases |values| - valueNoOffsets[i]
      {
        var place := columnChunksValuesNo[i] + valueNoOffsets[i];
        ghost var cursor, n := CursorOf(i), outRowsNo - |column|;
        ReadColumnStep(values, cursor, n, column);
        if place >= |store| {
          return column, false, flags', count';
        }
        var pages := store[place];
        assert pages == values[valueNoOffsets[i]];
        if pageNoOffsets[i] >= |pages| {
          NextValue(i);
        } else {
          var es, found, pageNo, left;
          DataFits(pages[pageNoOffsets[i]], pageOffsets[i]);
          es, found, pageNo, left, flags', count' :=
            ReadValue(columnFilters[i], pages, pageNoOffsets[i], pageOffsets[i], flags', count', |column|, outRowsNo);
          NarrowedTwice(flags, 0, column, es, columnFilters[i]);
          column := column + es;
          if found {
            StopInValue(i, pages[pageNo], pageNo, left);
            return column, true, flags', count';
          }
          NextValue(i);
        }
      }
      ReadNothing(values, CursorOf(i), column);
      ok := true;
    }

    /** All entries of the next value of the first column; one flag each. */
    method ReadFirst(filter: Entry -> bool, pages: seq<Page>) returns (es: seq<Entry>, flags: seq<bool>, count: nat)
      ensures es == PagesEntries(pages) && flags == FlagsOf([es], [filter], |es|) && count == CountTrue(flags)
    {
      hide Entries, PagesEntries, CountTrue;
      es, flags, count := [], [], 0;
      NoFlags();
      for p := 0 to |pages|
        invariant PagesEntries(pages) == es + PagesEntries(pages[p..])
        invariant |flags| == |es| && (forall k :: 0 <= k < |es| ==> flags[k] == filter(es[k]))
              && count == CountTrue(flags)
      {
        var data := pages[p][Header(pages[p])..];
        FirstPage(pages, p);
        ghost var before := es;
        while data != []
          invariant |flags| == |es| && (forall k :: 0 <= k < |es| ==> flags[k] == filter(es[k]))
                && count == CountTrue(flags)
          invariant before + PageEntries(pages[p]) == es + Entries(data)
          decreases |data|
        {
          var entry := FirstEntry(data);
          EntriesStep(data);
          CountMore(flags, filter(entry));
          assert es + ([entry] + Entries(Later(data))) == es + [entry] + Entries(Later(data));
          es := es + [entry];
          if filter(entry) {
            flags := flags + [true];
            count := count + 1;
          } else {
            flags := flags + [false];
          }
          data := Later(data);
        }
        NoEntries();
        assert es + [] == es && before + PageEntries(pages[p]) == es;
        assert before + (PageEntries(pages[p]) + PagesEntries(pages[p + 1..])) == es + PagesEntries(pages[p + 1..]);
      }
      NoPages();
      assert pages[|pages|..] == [] && es + [] == es;
      FirstFlags(es, filter, flags);
    }

    /** The rows whose flag is set. The rows are allocated by the running count, which is their number. */
    method BuildRows(columns: seq<seq<Entry>>, flags: seq<bool>, count: nat, ghost filters: seq<Entry -> bool>)
      returns (rows: seq<seq<Entry>>)
      requires AllLong(columns, |flags|) && |columns| == |filters| && count == CountTrue(flags)
      requires flags == FlagsOf(columns, filters, |flags|)
      ensures Wide(columns, |flags|) && rows == Kept(columns, filters, 0, |flags|)
    {
      hide Passes;
      var outRows := new seq<Entry>[count](_ => []);
      var currentOutRow := 0;
      for i := 0 to |flags|
        invariant currentOutRow == CountTrue(flags[..i]) <= count
        invariant outRows[..currentOutRow] == Kept(columns, filters, 0, i)
      {
        CountPrefix(flags, i + 1);
        assert flags[..i + 1][..i] == flags[..i];
        FlagMeaning(columns, filters, flags, i);
        if flags[i] {
          outRows[currentOutRow] := Row(columns, i);
          currentOutRow := currentOutRow + 1;
          assert outRows[..currentOutRow] == outRows[..currentOutRow - 1] + [Row(columns, i)];
        }
      }
      assert flags[..|flags|] == flags;
      rows := outRows[..];
    }

    method ReadNextColumn(i: nat, n: nat, columns: seq<seq<Entry>>, ghost used: seq<Entry -> bool>, flags: seq<bool>,
          count: nat)
      returns (columns': seq<seq<Entry>>, ok: bool, flags': seq<bool>, count': nat)
      requires Valid() && i < |enabledColumns| && AllLong(columns, n) && |columns| == |used|
      requires |flags| == n && flags == FlagsOf(columns, used, n) && count == CountTrue(flags)
      modifies this`valueNoOffsets, this`pageNoOffsets, this`pageOffsets
      ensures Valid()
      ensures var r := ReadColumn(Values(Table(), i), old(CursorOf(i)), n);
              && ok == r.Read? && Cursors() == old(Cursors())[i := r.cursor]
              && (ok ==> columns' == columns + [r.entries] && AllLong(columns', n) && |flags'| == n
                         && flags' == FlagsOf(columns', used + [columnFilters[i]], n) && count' == CountTrue(flags'))
    {
      hide ReadColumn, CountTrue, Narrowed, FlagsOf, Values;
      ghost var cursor := CursorOf(i);
      var column;
      column, ok, flags', count' := ReadRest(i, n, flags, count);
      columns' := columns + [column];
      if ok {
        ReadLength(Values(Table(), i), cursor, n);
        MoreFlags(columns, used, n, column, columnFilters[i]);
      }
    }

    /** `n` entries of one further column, behind those of `columns`. */
    method ReadOther(i: nat, columns: seq<seq<Entry>>, flags: seq<bool>, count: nat, n: nat,
                     ghost used: seq<Entry -> bool>, ghost whole: Others, ghost first: nat)
      returns (columns': seq<seq<Entry>>, ok: bool, flags': seq<bool>, count': nat)
      requires Valid() && first < i < |enabledColumns| && enabledColumns[i] && AllLong(columns, n)
      requires |flags| == n && |columns| == |used| && flags == FlagsOf(columns, used, n) && count == CountTrue(flags)
      requires OnTheWay(Table(), Cursors(), first, i, n, whole, columns, used)
      modifies this`valueNoOffsets, this`pageNoOffsets, this`pageOffsets
      ensures Valid()
      ensures !ok ==> whole.Broken? && whole.cursors == Cursors()
      ensures ok ==> && AllLong(columns', n) && |flags'| == n && |columns'| == |used| + 1 && columns <= columns'
                     && flags' == FlagsOf(columns', used + [columnFilters[i]], n) && count' == CountTrue(flags')
                     && OnTheWay(Table(), Cursors(), first, i + 1, n, whole, columns', used + [columnFilters[i]])
    {
      hide ReadColumn, ReadOthers, CountTrue, Narrowed, FlagsOf, PrependOthers, Values, AllLong, OnTheWay,
            SameOthers, FiltersFrom;
      ghost var cursor, cs := CursorOf(i), Cursors();
      assert cs[i] == cursor;
      columns', ok, flags', count' := ReadNextColumn(i, n, columns, used, flags, count);
      TakeColumn(Table(), cs, first, i, n, whole, columns, used);
    }

    /** `n` entries of the other enabled columns. */
    method ReadOtherColumns(first: nat, n: nat, firstColumn: seq<Entry>, firstFlags: seq<bool>, firstCount: nat)
      returns (columns: seq<seq<Entry>>, ok: bool, flags: seq<bool>, count: nat)
      requires Valid() && first < |enabledColumns| && enabledColumns[first]
      requires |firstColumn| == |firstFlags| == n && firstFlags == FlagsOf([firstColumn], [columnFilters[first]], n)
      requires firstCount == CountTrue(firstFlags)
      modifies this`valueNoOffsets, this`pageNoOffsets, this`pageOffsets
      ensures Valid()
      ensures var o := ReadOthers(Table(), old(Cursors()), first + 1, n);
              && Cursors() == o.cursors && ok == o.Columns?
              && (ok ==> columns == [firstColumn] + o.columns && AllLong(columns, n) && |flags| == n
                         && |columns| == |FiltersFrom(Table(), first)|
                         && flags == FlagsOf(columns, FiltersFrom(Table(), first), n) && count == CountTrue(flags))
    {
      hide ReadColumn, ReadOthers, CountTrue, Narrowed, FiltersFrom, FlagsOf, AllLong, ValidLayout, Cursors,
            CursorOf, OnTheWay;
      columns, ok, flags, count := [firstColumn], true, firstFlags, firstCount;
      ghost var t := Table();
      ghost var whole := ReadOthers(t, Cursors(), first + 1, n);
      ghost var used := [FilterAt(t, first)];
      OneColumn(firstColumn);
      SetOut(t, Cursors(), first, n, firstColumn);
      for i := first + 1 to |enabledColumns|
        invariant Valid() && Table() == t && ok && OnTheWay(t, Cursors(), first, i, n, whole, columns, used)
        invariant |columns| == |used| && [firstColumn] <= columns
        invariant AllLong(columns, n) && |flags| == n && flags == FlagsOf(columns, used, n) && count == CountTrue(flags)
      {
        if enabledColumns[i] {
          columns, ok, flags, count := ReadOther(i, columns, flags, count, n, used, whole, first);
          if !ok {
            return;
          }
          used := used + [FilterAt(t, i)];
        } else {
          PassColumn(t, Cursors(), first, i, n, whole, columns, used);
        }
      }
      Arrived(t, Cursors(), first, n, whole, columns, used);
    }

    /** The next batch of rows; no more rows when the first enabled column is used up. */
    method GetRowBatch() returns (rows: seq<seq<Entry>>, more: bool, ok: bool)
      requires Valid()
      modifies this`valueNoOffsets, this`pageNoOffsets, this`pageOffsets
      ensures Valid()
      ensures match GetBatch(Table(), old(Cursors()))
              case NoColumns => !ok && Cursors() == old(Cursors())
              case NoMore => ok && !more && rows == [] && Cursors() == old(Cursors())
              case Failed(cs) => !ok && Cursors() == cs
              case Rows(batch, cs, _) => ok && more && rows == batch && Cursors() == cs
    {
      rows, more := [], false;
      var first := 0;
      while first < |enabledColumns| && !enabledColumns[first]
        invariant first <= |enabledColumns| && forall c :: 0 <= c < first ==> !enabledColumns[c]
      {
        first := first + 1;
      }
      FirstIs(enabledColumns, first);
      if first == |enabledColumns| {
        return rows, more, false;
      }
      assert ChunkInside(Table(), first);
      if valueNoOffsets[first] >= columnChunksValuesNo[first + 1] - columnChunksValuesNo[first] {
        assert Cursors()[first] == CursorOf(first);
        return rows, more, true;
      }
      rows, more, ok := ReadBatch(first);
    }

    method ReadBatch(first: nat) returns (rows: seq<seq<Entry>>, more: bool, ok: bool)
      requires Valid() && first == FirstEnabled(enabledColumns) < |enabledColumns|
      requires valueNoOffsets[first] < Count(Table(), first)
      modifies this`valueNoOffsets, this`pageNoOffsets, this`pageOffsets
      ensures Valid()
      ensures match GetBatch(Table(), old(Cursors()))
              case NoColumns => false
              case NoMore => false
              case Failed(cs) => !ok && Cursors() == cs
              case Rows(batch, cs, _) => ok && more && rows == batch && Cursors() == cs
    {
      hide ReadOthers, CountTrue, FiltersFrom, FlagsOf, Kept, PagesEntries;
      ghost var t, start := Table(), Cursors();
      assert ChunkInside(t, first);
      assert start[first] == CursorOf(first);
      var pages := store[columnChunksValuesNo[first] + valueNoOffsets[first]];
      assert pages == Values(t, first)[start[first].valueNo];
      var column, flags, count := ReadFirst(columnFilters[first], pages);
      valueNoOffsets := valueNoOffsets[first := valueNoOffsets[first] + 1];
      assert Cursors() == start[first := start[first].(valueNo := start[first].valueNo + 1)];
      OthersAreWide(t, Cursors(), first + 1, |column|);
      FlagsLength(column, columnFilters[first]);
      var columns;
      columns, ok, flags, count := ReadOtherColumns(first, |column|, column, flags, count);
      if !ok {
        return [], false, false;
      }
      rows := BuildRows(columns, flags, count, FiltersFrom(t, first));
      more := true;
    }

    /** All batches until there is no more. */
    method GetAllRows() returns (rows: seq<seq<Entry>>, ok: bool)
      requires Valid()
      modifies this`valueNoOffsets, this`pageNoOffsets, this`pageOffsets
      ensures Valid()
      ensures match ScanAll(Table(), old(Cursors()))
              case Scanned(all, cs, _) => ok && rows == all && Cursors() == cs
              case ScanFailed(cs) => !ok && Cursors() == cs
              case ScanNoColumns => !ok
    {
      hide GetBatch, ScanAll, PrependScan;
      rows := [];
      ghost var t, start := Table(), Cursors();
      ghost var whole := ScanAll(t, start);
      PrependScanNone(whole);
      var batch, more;
      ghost var cs := start;
      batch, more, ok := GetRowBatch();
      while ok && more
        invariant Valid() && |cs| == |enabledColumns|
        invariant SameScan(whole, PrependScan(rows, ScanAll(t, cs)))
        invariant match GetBatch(t, cs)
                  case NoColumns => !ok
                  case NoMore => ok && !more && Cursors() == cs
                  case Failed(cs') => !ok && Cursors() == cs'
                  case Rows(b, cs', _) => ok && more && batch == b && Cursors() == cs'
        decreases Ahead(t, cs), if ok && more then 1 else 0
      {
        ScanStep(t, cs, rows);
        rows := rows + batch;
        cs := Cursors();
        batch, more, ok := GetRowBatch();
      }
      ScanStep(t, cs, rows);
    }
  }

  // ----- flags -----

  /** Which of the first `n` rows pass the filters of the columns read so far. */
  function FlagsOf(columns: seq<seq<Entry>>, filters: seq<Entry -> bool>, n: nat): (flags: seq<bool>)
    requires AllLong(columns, n) && |columns| == |filters|
    ensures |flags| == n
  {
    seq(n, k requires 0 <= k < n && AllLong(columns, n) => Passes(Row(columns, k), filters))
  }

  lemma {:induction false} FirstFlags(column: seq<Entry>, filter: Entry -> bool, flags: seq<bool>)
    requires |flags| == |column| && forall k :: 0 <= k < |column| ==> flags[k] == filter(column[k])
    ensures flags == FlagsOf([column], [filter], |column|)
  {
    forall k | 0 <= k < |column|
      ensures flags[k] == FlagsOf([column], [filter], |column|)[k]
    {
      var row, filters := Row([column], k), [filter];
      assert row[0] == column[k] && filters[0] == filter;
      assert Passes(row, filters) == filters[0](row[0]);
    }
  }

  lemma {:induction false} OneColumn(column: seq<Entry>)
    ensures AllLong([column], |column|)
  {
  }

  lemma {:induction false} NoFlags()
    ensures CountTrue([]) == 0
  {
  }

  lemma {:induction false} NoEntries()
    ensures Entries([]) == []
  {
  }

  lemma {:induction false} NoPages()
    ensures PagesEntries([]) == []
  {
  }

  lemma {:induction false} FlagsLength(column: seq<Entry>, filter: Entry -> bool)
    ensures |FlagsOf([column], [filter], |column|)| == |column|
  {
  }

  lemma {:induction false} FirstPage(pages: seq<Page>, p: nat)
    requires p < |pages|
    ensures PagesEntries(pages[p..]) == PageEntries(pages[p]) + PagesEntries(pages[p + 1..])
  {
    assert pages[p..][0] == pages[p] && pages[p..][1..] == pages[p + 1..];
  }

  lemma {:induction false} CountPrefix(flags: seq<bool>, i: nat)
    requires i <= |flags|
    ensures CountTrue(flags[..i]) <= CountTrue(flags)
    decreases |flags|
  {
    if i < |flags| {
      var init := flags[..|flags| - 1];
      CountPrefix(init, i);
      assert init[..i] == flags[..i];
    } else {
      assert flags[..i] == flags;
    }
  }

  lemma {:induction false} FlagMeaning(columns: seq<seq<Entry>>, filters: seq<Entry -> bool>, flags: seq<bool>, i: nat)
    requires AllLong(columns, |flags|) && |columns| == |filters| && i < |flags|
          && flags == FlagsOf(columns, filters, |flags|)
    ensures flags[i] == Passes(Row(columns, i), filters)
  {
  }

  /** One more column narrows the flags by its filter. */
  lemma {:induction false} MoreFlags(columns: seq<seq<Entry>>, filters: seq<Entry -> bool>, n: nat,
        column: seq<Entry>, filter: Entry -> bool)
    requires AllLong(columns, n) && |columns| == |filters| && |column| == n
    ensures AllLong(columns + [column], n)
    ensures FlagsOf(columns + [column], filters + [filter], n)
          == Narrowed(FlagsOf(columns, filters, n), 0, column, filter)
  {
    var more, fs := columns + [column], filters + [filter];
    forall k | 0 <= k < n
      ensures Passes(Row(more, k), fs) == (Passes(Row(columns, k), filters) && filter(column[k]))
    {
      var row, longer := Row(columns, k), Row(more, k);
      assert longer == row + [column[k]];
      if Passes(longer, fs) {
        forall j | 0 <= j < |row|
          ensures filters[j](row[j])
        {
          assert fs[j](longer[j]);
        }
        assert fs[|row|](longer[|row|]);
      }
    }
  }

  lemma {:induction false} FiltersStep(t: Layout, c: nat)
    requires ValidLayout(t) && c < |t.enabled|
    ensures FiltersFrom(t, c) == if t.enabled[c] then [t.filters[c]] + FiltersFrom(t, c + 1) else FiltersFrom(t, c + 1)
  {
  }

  lemma {:induction false} FiltersEnd(t: Layout)
    requires ValidLayout(t)
    ensures FiltersFrom(t, |t.enabled|) == []
  {
  }

  lemma {:induction false} FirstIs(enabled: seq<bool>, first: nat)
    requires first <= |enabled| && (first < |enabled| ==> enabled[first]) && forall c :: 0 <= c < first ==> !enabled[c]
    ensures FirstEnabled(enabled) == first
  {
    var f := FirstEnabled(enabled);
    if f < first || first < f {
      assert false;
    }
  }

  // ----- the loop over the other columns -----

  function PrependOthers(columns: seq<seq<Entry>>, o: Others): (o': Others)
    ensures o'.cursors == o.cursors && o'.Columns? == o.Columns?
  {
    match o
    case Columns(more, cs, stale) => Columns(columns + more, cs, stale)
    case Broken(cs) => Broken(cs)
  }

  lemma {:induction false} PrependOthersNone(o: Others)
    ensures PrependOthers([], o) == o
  {
    match o
    case Columns(more, cs, stale) => assert [] + more == more;
    case Broken(cs) =>
  }

  /** Except for its stale flag. */
  predicate SameOthers(a: Others, b: Others) {
    a.cursors == b.cursors && a.Columns? == b.Columns? && (a.Columns? ==> a.columns == b.columns)
  }

  lemma {:induction false} OthersStep(t: Layout, cs: seq<Cursor>, c: nat, n: nat, columns: seq<seq<Entry>>)
    requires ValidLayout(t) && |cs| == |t.enabled| && c < |t.enabled|
    ensures var o := PrependOthers(columns, ReadOthers(t, cs, c, n));
            if !t.enabled[c] then o == PrependOthers(columns, ReadOthers(t, cs, c + 1, n))
            else
              match ReadColumn(Values(t, c), cs[c], n)
              case Missing(c') => o == Broken(cs[c := c'])
              case Read(es, c', _) => SameOthers(o, PrependOthers(columns + [es], ReadOthers(t, cs[c := c'], c + 1, n)))
  {
    if t.enabled[c] {
      var r := ReadColumn(Values(t, c), cs[c], n);
      if r.Read? {
        var later := ReadOthers(t, cs[c := r.cursor], c + 1, n);
        assert later.Columns? ==> columns + ([r.entries] + later.columns) == columns + [r.entries] + later.columns;
      }
    }
  }

  lemma {:induction false} LastOthers(t: Layout, cs: seq<Cursor>, n: nat, columns: seq<seq<Entry>>)
    requires ValidLayout(t) && |cs| == |t.enabled|
    ensures PrependOthers(columns, ReadOthers(t, cs, |t.enabled|, n)) == Columns(columns, cs, false)
  {
    assert columns + [] == columns;
  }

  function FilterAt(t: Layout, c: nat): (f: Entry -> bool)
    requires ValidLayout(t) && c < |t.enabled|
  {
    t.filters[c]
  }

  /** The columns before column `i` are read and their filters collected; what is to come for the
      others is as it was in the beginning. */
  ghost predicate OnTheWay(t: Layout, cs: seq<Cursor>, first: nat, i: nat, n: nat, whole: Others,
                           columns: seq<seq<Entry>>, used: seq<Entry -> bool>)
    requires ValidLayout(t) && |cs| == |t.enabled| && first < i <= |t.enabled|
  {
    && |columns| >= 1
    && SameOthers(whole, PrependOthers(columns[1..], ReadOthers(t, cs, i, n)))
    && used + FiltersFrom(t, i) == FiltersFrom(t, first)
  }

  lemma {:induction false} SetOut(t: Layout, cs: seq<Cursor>, first: nat, n: nat, column: seq<Entry>)
    requires ValidLayout(t) && |cs| == |t.enabled| && first < |t.enabled| && t.enabled[first]
    ensures OnTheWay(t, cs, first, first + 1, n, ReadOthers(t, cs, first + 1, n), [column], [FilterAt(t, first)])
  {
    hide ReadOthers;
    PrependOthersNone(ReadOthers(t, cs, first + 1, n));
    FiltersStep(t, first);
    assert [column][1..] == [];
  }

  lemma {:induction false} PassColumn(t: Layout, cs: seq<Cursor>, first: nat, i: nat, n: nat, whole: Others,
                                      columns: seq<seq<Entry>>, used: seq<Entry -> bool>)
    requires ValidLayout(t) && |cs| == |t.enabled| && first < i < |t.enabled| && !t.enabled[i]
    requires OnTheWay(t, cs, first, i, n, whole, columns, used)
    ensures OnTheWay(t, cs, first, i + 1, n, whole, columns, used)
  {
    hide ReadOthers, PrependOthers;
    FiltersStep(t, i);
    OthersStep(t, cs, i, n, columns[1..]);
  }

  lemma {:induction false} TakeColumn(t: Layout, cs: seq<Cursor>, first: nat, i: nat, n: nat, whole: Others,
                                      columns: seq<seq<Entry>>, used: seq<Entry -> bool>)
    requires ValidLayout(t) && |cs| == |t.enabled| && first < i < |t.enabled| && t.enabled[i]
    requires OnTheWay(t, cs, first, i, n, whole, columns, used)
    ensures match ReadColumn(Values(t, i), cs[i], n)
            case Missing(c') => whole.Broken? && whole.cursors == cs[i := c']
            case Read(es, c', _) => OnTheWay(t, cs[i := c'], first, i + 1, n, whole, columns + [es],
                  used + [t.filters[i]])
  {
    hide ReadOthers, PrependOthers, ReadColumn, Values;
    FiltersStep(t, i);
    OthersStep(t, cs, i, n, columns[1..]);
    var r := ReadColumn(Values(t, i), cs[i], n);
    if r.Read? {
      assert (columns + [r.entries])[1..] == columns[1..] + [r.entries];
      assert used + ([t.filters[i]] + FiltersFrom(t, i + 1)) == used + [t.filters[i]] + FiltersFrom(t, i + 1);
    }
  }

  lemma {:induction false} Arrived(t: Layout, cs: seq<Cursor>, first: nat, n: nat, whole: Others,
                                   columns: seq<seq<Entry>>, used: seq<Entry -> bool>)
    requires ValidLayout(t) && |cs| == |t.enabled| && first < |t.enabled|
    requires OnTheWay(t, cs, first, |t.enabled|, n, whole, columns, used)
    ensures whole.Columns? && whole.cursors == cs && |columns| >= 1 && columns == [columns[0]] + whole.columns
    ensures used == FiltersFrom(t, first)
  {
    hide ReadOthers;
    LastOthers(t, cs, n, columns[1..]);
    FiltersEnd(t);
    assert used + [] == used;
  }

  // ----- the loop over the batches -----

  function PrependScan(rows: seq<seq<Entry>>, s: Scan): (s': Scan) {
    match s
    case Scanned(more, cs, stale) => Scanned(rows + more, cs, stale)
    case ScanFailed(cs) => ScanFailed(cs)
    case ScanNoColumns => ScanNoColumns
  }

  lemma {:induction false} PrependScanNone(s: Scan)
    ensures PrependScan([], s) == s
  {
    match s
    case Scanned(more, cs, stale) => assert [] + more == more;
    case ScanFailed(cs) =>
    case ScanNoColumns =>
  }

  /** Except for its stale flag. */
  predicate SameScan(a: Scan, b: Scan) {
    match a
    case Scanned(rows, cs, _) => b.Scanned? && b.rows == rows && b.cursors == cs
    case ScanFailed(cs) => b == a
    case ScanNoColumns => b == a
  }

  lemma {:induction false} ScanStep(t: Layout, cs: seq<Cursor>, rows: seq<seq<Entry>>)
    requires ValidLayout(t) && |cs| == |t.enabled|
    ensures var s := PrependScan(rows, ScanAll(t, cs));
            match GetBatch(t, cs)
            case NoColumns => s == ScanNoColumns
            case NoMore => s == Scanned(rows, cs, false)
            case Failed(cs') => s == ScanFailed(cs')
            case Rows(batch, cs', _) =>
              |cs'| == |cs| && Ahead(t, cs') < Ahead(t, cs) && SameScan(s, PrependScan(rows + batch, ScanAll(t, cs')))
  {
    match GetBatch(t, cs)
    case NoColumns =>
    case NoMore => assert rows + [] == rows;
    case Failed(cs') =>
    case Rows(batch, cs', _) =>
      FirstAdvances(t, cs);
      var s := ScanAll(t, cs');
      assert s.Scanned? ==> rows + (batch + s.rows) == rows + batch + s.rows;
  }

  lemma {:induction false} DataFits(p: Page, offset: nat)
    ensures |DataAt(p, offset)| <= |p|
  {
  }

  function PrependRead(es: seq<Entry>, r: ReadResult): (r': ReadResult) {
    match r
    case Read(more, c, stale) => Read(es + more, c, stale)
    case Missing(c) => Missing(c)
  }

  lemma {:induction false} PrependReadNone(r: ReadResult)
    ensures PrependRead([], r) == r
  {
    match r
    case Read(more, c, stale) => assert [] + more == more;
    case Missing(c) =>
  }

  lemma {:induction false} ReadNothing(values: seq<Value>, c: Cursor, es: seq<Entry>)
    ensures PrependRead(es, ReadColumn(values, c, 0)) == Read(es, c, false)
  {
    assert es + [] == es;
  }

  /** One turn of the loop over the values of a column. */
  lemma {:induction false} ReadColumnStep(values: seq<Value>, c: Cursor, n: nat, es: seq<Entry>)
    requires n > 0
    ensures var r := PrependRead(es, ReadColumn(values, c, n)); var next := Cursor(c.valueNo + 1, 0, 0);
            if c.valueNo >= |values| then r == Missing(c)
            else if c.pageNo >= |values[c.valueNo]| then r == PrependRead(es, ReadColumn(values, next, n))
            else
              var pages := values[c.valueNo];
              |DataAt(pages[c.pageNo], c.pageOffset)| <= |pages[c.pageNo]|
              && match ReadPages(pages, c.pageNo, DataAt(pages[c.pageNo], c.pageOffset), n)
                 case Found(more, p, left) =>
                   && p < |pages| && left <= |pages[p]| && |more| == n
                   && r.Read? && r.entries == es + more
                   && r.cursor == (if left > 0 then Cursor(c.valueNo, p, |pages[p]| - left)
                         else Cursor(c.valueNo, p + 1, c.pageOffset))
                 case UsedUp(more) => |more| < n && r == PrependRead(es + more, ReadColumn(values, next, n - |more|))
  {
    if c.valueNo < |values| && c.pageNo < |values[c.valueNo]| {
      var pages := values[c.valueNo];
      var r := ReadPages(pages, c.pageNo, DataAt(pages[c.pageNo], c.pageOffset), n);
      if r.UsedUp? {
        PrependReadTwice(es, r.entries, ReadColumn(values, Cursor(c.valueNo + 1, 0, 0), n - |r.entries|));
      }
    }
  }

  lemma {:induction false} PrependReadTwice(a: seq<Entry>, b: seq<Entry>, r: ReadResult)
    ensures PrependRead(a, PrependRead(b, r)) == PrependRead(a + b, r)
  {
    match r
    case Read(more, c, stale) => assert a + (b + more) == a + b + more;
    case Missing(c) =>
  }

  function Prepend(es: seq<Entry>, r: InValue): (r': InValue) {
    match r
    case Found(more, p, left) => Found(es + more, p, left)
    case UsedUp(more) => UsedUp(es + more)
  }

  lemma {:induction false} PrependStep(pages: seq<Page>, pageNo: nat, data: seq<Byte>, n: nat, es: seq<Entry>,
        more: seq<Entry>, left: nat)
    requires n > 0 && pageNo < |pages| && |data| <= |pages[pageNo]|
    requires var all := Entries(data);
             more == (if n <= |all| then all[..n] else all)
                   && left == (if n <= |all| && 8 * n < |data| then |data| - 8 * n else 0)
    ensures var r := Prepend(es, ReadPages(pages, pageNo, data, n));
            if |more| == n then r == Found(es + more, pageNo, left)
            else if pageNo + 1 == |pages| then r == UsedUp(es + more)
            else |more| < n && var next := pages[pageNo + 1];
                 r == Prepend(es + more, ReadPages(pages, pageNo + 1, next[Header(next)..], n - |more|))
  {
    if |more| < n && pageNo + 1 < |pages| {
      var next := pages[pageNo + 1];
      PrependTwice(es, more, ReadPages(pages, pageNo + 1, next[Header(next)..], n - |more|));
    }
  }

  lemma {:induction false} PrependNone(r: InValue)
    ensures Prepend([], r) == r
  {
    match r
    case Found(more, p, left) => assert [] + more == more;
    case UsedUp(more) => assert [] + more == more;
  }

  lemma {:induction false} PrependTwice(a: seq<Entry>, b: seq<Entry>, r: InValue)
    ensures Prepend(a, Prepend(b, r)) == Prepend(a + b, r)
  {
    match r
    case Found(more, p, left) => assert a + (b + more) == a + b + more;
    case UsedUp(more) => assert a + (b + more) == a + b + more;
  }
}
