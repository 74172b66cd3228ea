/** Stored pages of fixed-size entries and the cursor of one column (processor.go, lines 654-855). */
module ColumnPages {

  type Byte = b: int | 0 <= b < 256 witness 0

  /** The eight bytes of an INT64 or DOUBLE. */
  type Entry = e: seq<Byte> | |e| == 8 witness [0, 0, 0, 0, 0, 0, 0, 0]

  /** An uncompressed page: a header, told by its first byte, and entries. */
  type Page = p: seq<Byte> | |p| >= 7 && (p[0] == 2 || p[0] == 3) witness [3, 0, 0, 0, 0, 0, 0]

  /** What is stored under one key. */
  type Value = seq<Page>

  function Header(p: Page): (h: nat)
    ensures h <= |p|
  {
    if p[0] == 3 then 7 else 6
  }

  /** Eight bytes at a time; the last entry is filled with zeros. */
  function Entries(data: seq<Byte>): (es: seq<Entry>)
    ensures |es| == (|data| + 7) / 8
  {
    if data == [] then []
    else if |data| <= 8 then [data + seq(8 - |data|, _ => 0)]
    else [data[..8]] + Entries(data[8..])
  }

  function PageEntries(p: Page): (es: seq<Entry>) {
    Entries(p[Header(p)..])
  }

  function PagesEntries(pages: seq<Page>): (es: seq<Entry>) {
    if pages == [] then [] else PageEntries(pages[0]) + PagesEntries(pages[1..])
  }

  function ValuesEntries(values: seq<Value>): (es: seq<Entry>) {
    if values == [] then [] else PagesEntries(values[0]) + ValuesEntries(values[1..])
  }

  /** Where a column stands: the value, the page in it, and the byte in the page. */
  datatype Cursor = Cursor(valueNo: nat, pageNo: nat, pageOffset: nat)

  const START: Cursor := Cursor(0, 0, 0)

  /** The bytes that reading page `p` at `offset` starts with; at offset 0 the header is skipped. */
  function DataAt(p: Page, offset: nat): (data: seq<Byte>) {
    if offset == 0 then p[Header(p)..] else if offset <= |p| then p[offset..] else []
  }

  /** All entries that reading on from the cursor would deliver. */
  function Rest(values: seq<Value>, c: Cursor): (es: seq<Entry>) {
    if c.valueNo >= |values| then []
    else
      var pages := values[c.valueNo];
      var later := ValuesEntries(values[c.valueNo + 1..]);
      if c.pageNo >= |pages| then later
      else Entries(DataAt(pages[c.pageNo], c.pageOffset)) + PagesEntries(pages[c.pageNo + 1..]) + later
  }

  // ----- reading -----

  /** Reading inside one value: the entries wanted were found, ending in page `pageNo` with
      `left` bytes unread; or the value was used up. */
  datatype InValue = Found(entries: seq<Entry>, pageNo: nat, left: nat) | UsedUp(entries: seq<Entry>)

  function ReadPages(pages: seq<Page>, pageNo: nat, data: seq<Byte>, n: nat): (r: InValue)
    requires n > 0 && pageNo < |pages| && |data| <= |pages[pageNo]|
    ensures r.Found? ==> pageNo <= r.pageNo < |pages| && r.left <= |pages[r.pageNo]| && |r.entries| == n
    ensures r.UsedUp? ==> |r.entries| < n
    decreases |pages| - pageNo
  {
    var es := Entries(data);
    if n <= |es| then Found(es[..n], pageNo, if 8 * n < |data| then |data| - 8 * n else 0)
    else if pageNo + 1 == |pages| then UsedUp(es)
    else
      var next := pages[pageNo + 1];
      match ReadPages(pages, pageNo + 1, next[Header(next)..], n - |es|)
      case Found(more, p, left) => Found(es + more, p, left)
      case UsedUp(more) => UsedUp(es + more)
  }

  /** `stale`: the batch ended exactly at a page end while an older byte offset was kept, and the
      value has a further page, to which that offset will be applied. */
  datatype ReadResult = Read(entries: seq<Entry>, cursor: Cursor, stale: bool) | Missing(cursor: Cursor)

  function ReadColumn(values: seq<Value>, c: Cursor, n: nat): (r: ReadResult)
    decreases |values| - c.valueNo
  {
    if n == 0 then Read([], c, false)
    else if c.valueNo >= |values| then Missing(c)
    else
      var pages := values[c.valueNo];
      if c.pageNo >= |pages| then ReadColumn(values, Cursor(c.valueNo + 1, 0, 0), n)
      else
        match ReadPages(pages, c.pageNo, DataAt(pages[c.pageNo], c.pageOffset), n)
        case Found(es, p, left) =>
          if left > 0 then Read(es, Cursor(c.valueNo, p, |pages[p]| - left), false)
          else Read(es, Cursor(c.valueNo, p + 1, c.pageOffset), c.pageOffset > 0 && p + 1 < |pages|)
        case UsedUp(es) =>
          match ReadColumn(values, Cursor(c.valueNo + 1, 0, 0), n - |es|)
          case Read(more, c', stale) => Read(es + more, c', stale)
          case Missing(c') => Missing(c')
  }

  // ----- reading delivers what the cursor promises -----

  lemma {:induction false} EntriesFrom(data: seq<Byte>, n: nat)
    requires n <= |Entries(data)|
    ensures Entries(data)[n..] == Entries(if 8 * n < |data| then data[8 * n..] else [])
    decreases n
  {
    if n > 0 {
      if |data| <= 8 {
        assert n == 1;
      } else {
        EntriesFrom(data[8..], n - 1);
        assert Entries(data)[n..] == Entries(data[8..])[n - 1..];
        assert 8 * n < |data| ==> data[8..][8 * (n - 1)..] == data[8 * n..];
      }
    }
  }

  predicate IsSuffix(data: seq<Byte>, p: Page) {
    |data| <= |p| && data == p[|p| - |data|..]
  }

  lemma {:induction false} SuffixDrops(data: seq<Byte>, p: Page, k: nat)
    requires IsSuffix(data, p) && k <= |data|
    ensures data[k..] == p[|p| - (|data| - k)..]
  {
  }

  /** What is left of the value behind `left` bytes of page `p`. */
  function Behind(pages: seq<Page>, p: nat, left: nat): (es: seq<Entry>)
    requires p < |pages| && left <= |pages[p]|
  {
    Entries(pages[p][|pages[p]| - left..]) + PagesEntries(pages[p + 1..])
  }

  lemma {:induction false} TakeBoth<T>(a: seq<T>, b: seq<T>, n: nat)
    requires |a| <= n <= |a + b|
    ensures (a + b)[..n] == a + b[..n - |a|] && (a + b)[n..] == b[n - |a|..]
  {
  }

  lemma {:induction false} TakeFirst<T>(a: seq<T>, b: seq<T>, n: nat)
    requires n <= |a|
    ensures (a + b)[..n] == a[..n] && (a + b)[n..] == a[n..] + b
  {
  }

  lemma {:induction false} FoundHere(pages: seq<Page>, pageNo: nat, data: seq<Byte>, n: nat)
    requires 0 < n <= |Entries(data)| && pageNo < |pages| && IsSuffix(data, pages[pageNo])
    ensures var left := if 8 * n < |data| then |data| - 8 * n else 0;
            Behind(pages, pageNo, left) == Entries(data)[n..] + PagesEntries(pages[pageNo + 1..])
  {
    hide Entries, PagesEntries;
    EntriesFrom(data, n);
    var p := pages[pageNo];
    if 8 * n < |data| {
      SuffixDrops(data, p, 8 * n);
    } else {
      assert p[|p|..] == [];
    }
  }

  lemma {:induction false} BodyIsSuffix(p: Page)
    ensures IsSuffix(p[Header(p)..], p) && Entries(p[Header(p)..]) == PageEntries(p)
  {
  }

  lemma {:induction false} NoPagesLeft()
    ensures PagesEntries([]) == []
  {
  }

  lemma {:induction false} ReadPagesRest(pages: seq<Page>, pageNo: nat, data: seq<Byte>, n: nat)
    requires n > 0 && pageNo < |pages| && IsSuffix(data, pages[pageNo])
    ensures var all := Entries(data) + PagesEntries(pages[pageNo + 1..]);
            match ReadPages(pages, pageNo, data, n)
            case Found(es, p, left) => n <= |all| && es == all[..n] && Behind(pages, p, left) == all[n..]
            case UsedUp(es) => es == all
    decreases |pages| - pageNo
  {
    hide Entries, Behind, PagesEntries, PageEntries;
    var es, later := Entries(data), PagesEntries(pages[pageNo + 1..]);
    if n <= |es| {
      FoundHere(pages, pageNo, data, n);
      TakeFirst(es, later, n);
    } else if pageNo + 1 < |pages| {
      var next := pages[pageNo + 1];
      var body := next[Header(next)..];
      ReadPagesRest(pages, pageNo + 1, body, n - |es|);
      assert pages[pageNo + 1..][0] == next && pages[pageNo + 1..][1..] == pages[pageNo + 2..];
      PagesNext(pages, pageNo + 1);
      BodyIsSuffix(next);
      if n <= |es + later| {
        TakeBoth(es, later, n);
      }
    } else {
      NoPagesLeft();
      assert pages[pageNo + 1..] == [] && es + later == es;
    }
  }

  /** Offsets that a batch leaves behind lie behind the header and one entry. */
  predicate ValidOffset(offset: nat) {
    offset == 0 || offset >= 14
  }

  lemma {:induction false} RestAtValue(values: seq<Value>, v: nat)
    requires v <= |values|
    ensures Rest(values, Cursor(v, 0, 0)) == ValuesEntries(values[v..])
  {
    if v < |values| {
      var pages := values[v];
      assert values[v..][0] == pages && values[v..][1..] == values[v + 1..];
      if pages != [] {
        assert pages[0 + 1..] == pages[1..];
      }
    }
  }

  lemma {:induction false} DataIsSuffix(p: Page, offset: nat)
    requires ValidOffset(offset)
    ensures IsSuffix(DataAt(p, offset), p) && (DataAt(p, offset) != [] ==> |DataAt(p, offset)| + 6 <= |p|)
  {
  }

  lemma {:induction false} LeftBehindHeader(pages: seq<Page>, pageNo: nat, data: seq<Byte>, n: nat)
    requires n > 0 && pageNo < |pages| && |data| <= |pages[pageNo]| && (data != [] ==> |data| + 6 <= |pages[pageNo]|)
    ensures var r := ReadPages(pages, pageNo, data, n);
            r.Found? && r.left > 0 ==> r.left + 14 <= |pages[r.pageNo]|
    decreases |pages| - pageNo
  {
    if n > |Entries(data)| && pageNo + 1 < |pages| {
      var next := pages[pageNo + 1];
      LeftBehindHeader(pages, pageNo + 1, next[Header(next)..], n - |Entries(data)|);
    }
  }

  /** A page end reached at offset 0 is the start of the next page. */
  lemma {:induction false} NoEntriesLeft()
    ensures Entries([]) == []
  {
  }

  lemma {:induction false} PagesNext(pages: seq<Page>, p: nat)
    requires p < |pages|
    ensures PagesEntries(pages[p..]) == PageEntries(pages[p]) + PagesEntries(pages[p + 1..])
  {
    assert pages[p..][1..] == pages[p + 1..];
  }

  lemma {:induction false} RestAtPageEnd(values: seq<Value>, v: nat, p: nat, offset: nat)
    requires v < |values| && p < |values[v]| && (offset == 0 || p + 1 == |values[v]|)
    ensures Rest(values, Cursor(v, p + 1, offset)) == Behind(values[v], p, 0) + ValuesEntries(values[v + 1..])
  {
    var pages := values[v];
    assert pages[p][|pages[p]|..] == [];
    NoEntriesLeft();
    if p + 1 < |pages| {
      PagesNext(pages, p + 1);
      hide Entries, PagesEntries, ValuesEntries;
    } else {
      hide Entries, ValuesEntries;
      assert pages[p + 1..] == [];
    }
  }

  lemma {:induction false} RestInPage(values: seq<Value>, v: nat, p: nat, left: nat)
    requires v < |values| && p < |values[v]| && 0 < left < |values[v][p]|
    ensures Rest(values, Cursor(v, p, |values[v][p]| - left))
          == Behind(values[v], p, left) + ValuesEntries(values[v + 1..])
  {
  }

  lemma {:induction false} RestOfValue(values: seq<Value>, c: Cursor)
    requires c.valueNo < |values| && c.pageNo < |values[c.valueNo]|
    ensures Rest(values, c)
          == (Entries(DataAt(values[c.valueNo][c.pageNo], c.pageOffset))
                + PagesEntries(values[c.valueNo][c.pageNo + 1..]))
                               + ValuesEntries(values[c.valueNo + 1..])
  {
  }

  /** What a read of `n` entries owes when `rest` was ahead of the cursor. */
  predicate Delivers(values: seq<Value>, rest: seq<Entry>, n: nat, r: ReadResult) {
    && (r.Read? <==> n <= |rest|)
    && (r.Read? ==> r.entries == rest[..n] && ValidOffset(r.cursor.pageOffset))
    && (r.Read? && !r.stale ==> Rest(values, r.cursor) == rest[n..])
    && (r.Read? && r.stale ==>
          && r.cursor.valueNo < |values| && r.cursor.pageNo < |values[r.cursor.valueNo]| && r.cursor.pageOffset > 0
          && Rest(values, r.cursor.(pageOffset := 0)) == rest[n..])
  }

  lemma {:induction false} FoundDelivers(values: seq<Value>, c: Cursor, n: nat)
    requires ValidOffset(c.pageOffset) && n > 0 && c.valueNo < |values| && c.pageNo < |values[c.valueNo]|
    requires ReadPages(values[c.valueNo], c.pageNo, DataAt(values[c.valueNo][c.pageNo], c.pageOffset), n).Found?
    ensures Delivers(values, Rest(values, c), n, ReadColumn(values, c, n))
  {
    hide Entries, Behind, ReadPages, Rest, DataAt, PagesEntries, ValuesEntries, IsSuffix;
    var pages, later := values[c.valueNo], ValuesEntries(values[c.valueNo + 1..]);
    var data := DataAt(pages[c.pageNo], c.pageOffset);
    var all := Entries(data) + PagesEntries(pages[c.pageNo + 1..]);
    RestOfValue(values, c);
    DataIsSuffix(pages[c.pageNo], c.pageOffset);
    SuffixFits(data, pages[c.pageNo]);
    ReadPagesRest(pages, c.pageNo, data, n);
    LeftBehindHeader(pages, c.pageNo, data, n);
    var found := ReadPages(pages, c.pageNo, data, n);
    TakeFirst(all, later, n);
    if found.left > 0 {
      RestInPage(values, c.valueNo, found.pageNo, found.left);
    } else if c.pageOffset == 0 || found.pageNo + 1 == |pages| {
      RestAtPageEnd(values, c.valueNo, found.pageNo, c.pageOffset);
    } else {
      RestAtPageEnd(values, c.valueNo, found.pageNo, 0);
    }
  }

  lemma {:induction false} SuffixFits(data: seq<Byte>, p: Page)
    requires IsSuffix(data, p)
    ensures |data| <= |p|
  {
  }

  lemma {:induction false} UsedUpDelivers(values: seq<Value>, c: Cursor, n: nat)
    requires ValidOffset(c.pageOffset) && n > 0 && c.valueNo < |values| && c.pageNo < |values[c.valueNo]|
    requires var r := ReadPages(values[c.valueNo], c.pageNo, DataAt(values[c.valueNo][c.pageNo], c.pageOffset), n);
             r.UsedUp? && var next := Cursor(c.valueNo + 1, 0, 0);
             Delivers(values, Rest(values, next), n - |r.entries|, ReadColumn(values, next, n - |r.entries|))
    ensures Delivers(values, Rest(values, c), n, ReadColumn(values, c, n))
  {
    hide Entries, ReadPages, Rest, DataAt, PagesEntries, ValuesEntries, IsSuffix;
    var pages, later := values[c.valueNo], ValuesEntries(values[c.valueNo + 1..]);
    var data := DataAt(pages[c.pageNo], c.pageOffset);
    var all := Entries(data) + PagesEntries(pages[c.pageNo + 1..]);
    RestAtValue(values, c.valueNo + 1);
    RestOfValue(values, c);
    DataIsSuffix(pages[c.pageNo], c.pageOffset);
    SuffixFits(data, pages[c.pageNo]);
    ReadPagesRest(pages, c.pageNo, data, n);
    if n <= |all + later| {
      TakeBoth(all, later, n);
    }
  }

  /** A read succeeds exactly when enough entries are left, delivers the next ones, and leaves the
      cursor behind them unless it ends stale. */
  lemma {:induction false} ReadColumnRest(values: seq<Value>, c: Cursor, n: nat)
    requires ValidOffset(c.pageOffset)
    ensures Delivers(values, Rest(values, c), n, ReadColumn(values, c, n))
    decreases |values| - c.valueNo
  {
    if n > 0 && c.valueNo < |values| {
      var pages := values[c.valueNo];
      var next := Cursor(c.valueNo + 1, 0, 0);
      if c.pageNo >= |pages| {
        RestAtValue(values, c.valueNo + 1);
        ReadColumnRest(values, next, n);
      } else {
        hide Entries, ReadPages, Rest, DataAt, ReadColumn, Delivers, IsSuffix;
        DataIsSuffix(pages[c.pageNo], c.pageOffset);
        SuffixFits(DataAt(pages[c.pageNo], c.pageOffset), pages[c.pageNo]);
        var r := ReadPages(pages, c.pageNo, DataAt(pages[c.pageNo], c.pageOffset), n);
        if r.Found? {
          FoundDelivers(values, c, n);
        } else {
          ReadColumnRest(values, next, n - |r.entries|);
          UsedUpDelivers(values, c, n);
        }
      }
    }
  }

  // ----- one page per stored value -----

  predicate SinglePages(values: seq<Value>) {
    forall v :: 0 <= v < |values| ==> |values[v]| == 1
  }

  /** With one page per value a read never ends stale. */
  lemma {:induction false} SinglePagesNeverStale(values: seq<Value>, c: Cursor, n: nat)
    requires SinglePages(values)
    ensures var r := ReadColumn(values, c, n); r.Read? ==> !r.stale
    decreases |values| - c.valueNo
  {
    if n > 0 && c.valueNo < |values| {
      var pages := values[c.valueNo];
      var next := Cursor(c.valueNo + 1, 0, 0);
      if c.pageNo >= |pages| {
        SinglePagesNeverStale(values, next, n);
      } else {
        var r := ReadPages(pages, c.pageNo, DataAt(pages[c.pageNo], c.pageOffset), n);
        if r.UsedUp? {
          SinglePagesNeverStale(values, next, n - |r.entries|);
        }
      }
    }
  }

  // ----- what a stale offset costs -----

  predicate AllHeaders(values: seq<Value>, h: nat) {
    forall v, p :: 0 <= v < |values| && 0 <= p < |values[v]| ==> Header(values[v][p]) == h
  }

  /** With one kind of header, the offsets left behind lie behind it and one entry. */
  predicate BehindEntry(offset: nat, h: nat) {
    offset == 0 || offset >= h + 8
  }

  lemma {:induction false} ReadPagesLeft(pages: seq<Page>, pageNo: nat, data: seq<Byte>, n: nat, h: nat)
    requires n > 0 && pageNo < |pages| && |data| <= |pages[pageNo]| && (data != [] ==> |data| + h <= |pages[pageNo]|)
    requires forall p :: 0 <= p < |pages| ==> Header(pages[p]) == h
    ensures var r := ReadPages(pages, pageNo, data, n);
            r.Found? && r.left > 0 ==> r.left + h + 8 <= |pages[r.pageNo]|
    decreases |pages| - pageNo
  {
    if n > |Entries(data)| && pageNo + 1 < |pages| {
      var next := pages[pageNo + 1];
      ReadPagesLeft(pages, pageNo + 1, next[Header(next)..], n - |Entries(data)|, h);
    }
  }

  lemma {:induction false} FoundResult(values: seq<Value>, c: Cursor, n: nat)
    requires n > 0 && c.valueNo < |values| && c.pageNo < |values[c.valueNo]|
    requires |DataAt(values[c.valueNo][c.pageNo], c.pageOffset)| <= |values[c.valueNo][c.pageNo]|
    requires ReadPages(values[c.valueNo], c.pageNo, DataAt(values[c.valueNo][c.pageNo], c.pageOffset), n).Found?
    ensures var pages := values[c.valueNo]; var r := ReadColumn(values, c, n);
            var f := ReadPages(pages, c.pageNo, DataAt(pages[c.pageNo], c.pageOffset), n);
            && (f.left > 0 ==> r == Read(f.entries, Cursor(c.valueNo, f.pageNo, |pages[f.pageNo]| - f.left), false))
            && (f.left == 0 ==>
                  r == Read(f.entries, Cursor(c.valueNo, f.pageNo + 1, c.pageOffset), c.pageOffset > 0
                        && f.pageNo + 1 < |pages|))
  {
  }

  lemma {:induction false} UsedUpResult(values: seq<Value>, c: Cursor, n: nat)
    requires n > 0 && c.valueNo < |values| && c.pageNo < |values[c.valueNo]|
    requires |DataAt(values[c.valueNo][c.pageNo], c.pageOffset)| <= |values[c.valueNo][c.pageNo]|
    requires ReadPages(values[c.valueNo], c.pageNo, DataAt(values[c.valueNo][c.pageNo], c.pageOffset), n).UsedUp?
    ensures var es := ReadPages(values[c.valueNo], c.pageNo, DataAt(values[c.valueNo][c.pageNo], c.pageOffset),
          n).entries;
            var r, s := ReadColumn(values, c, n), ReadColumn(values, Cursor(c.valueNo + 1, 0, 0), n - |es|);
            r.Read? == s.Read? && (r.Read? ==> r.stale == s.stale && r.cursor == s.cursor)
  {
  }

  lemma {:induction false} OffsetsBehindEntry(values: seq<Value>, c: Cursor, n: nat, h: nat)
    requires AllHeaders(values, h) && BehindEntry(c.pageOffset, h)
    ensures var r := ReadColumn(values, c, n); r.Read? ==> BehindEntry(r.cursor.pageOffset, h)
    decreases |values| - c.valueNo
  {
    if n > 0 && c.valueNo < |values| {
      var pages := values[c.valueNo];
      var next := Cursor(c.valueNo + 1, 0, 0);
      if c.pageNo >= |pages| {
        OffsetsBehindEntry(values, next, n, h);
      } else {
        hide Entries, ReadPages, ReadColumn;
        var data := DataAt(pages[c.pageNo], c.pageOffset);
        ReadPagesLeft(pages, c.pageNo, data, n, h);
        var r := ReadPages(pages, c.pageNo, data, n);
        if r.UsedUp? {
          UsedUpResult(values, c, n);
          OffsetsBehindEntry(values, next, n - |r.entries|, h);
        } else {
          FoundResult(values, c, n);
        }
      }
    }
  }

  /** Applied to the next page, an old offset drops entries if there are any. */
  lemma {:induction false} StaleDrops(values: seq<Value>, c: Cursor)
    requires c.valueNo < |values| && c.pageNo < |values[c.valueNo]|
    requires c.pageOffset >= Header(values[c.valueNo][c.pageNo]) + 8
    ensures var page := values[c.valueNo][c.pageNo];
            if PageEntries(page) != [] then |Rest(values, c)| < |Rest(values, c.(pageOffset := 0))|
            else Rest(values, c) == Rest(values, c.(pageOffset := 0))
  {
    hide Entries;
    var page := values[c.valueNo][c.pageNo];
    EntriesFewer(page, c.pageOffset);
  }

  lemma {:induction false} EntriesFewer(page: Page, offset: nat)
    requires offset >= Header(page) + 8
    ensures PageEntries(page) != [] ==> |Entries(DataAt(page, offset))| < |PageEntries(page)|
    ensures PageEntries(page) == [] ==> Entries(DataAt(page, offset)) == []
  {
  }

  /** When all pages have the same kind of header, a read leaves the cursor where it should be
      exactly when it does not end stale in front of a page with entries. */
  lemma {:induction false} CursorRightIff(values: seq<Value>, c: Cursor, n: nat, h: nat)
    requires AllHeaders(values, h) && h >= 6 && BehindEntry(c.pageOffset, h) && n <= |Rest(values, c)|
    ensures var r := ReadColumn(values, c, n);
            && r.Read?
            && (r.stale ==> r.cursor.valueNo < |values| && r.cursor.pageNo < |values[r.cursor.valueNo]|)
            && (Rest(values, r.cursor) == Rest(values, c)[n..]
                <==> !(r.stale && PageEntries(values[r.cursor.valueNo][r.cursor.pageNo]) != []))
  {
    hide Rest, ReadColumn, PageEntries;
    ReadColumnRest(values, c, n);
    OffsetsBehindEntry(values, c, n, h);
    var r := ReadColumn(values, c, n);
    if r.stale {
      StaleDrops(values, r.cursor);
    }
  }
}
