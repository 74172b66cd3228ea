/** When a scan over values of several pages goes wrong, in terms of the sizes of the pages alone:
    the branch of `GetRowBatch` that ends a batch at a page end keeps the byte offset of an earlier
    page (processor.go, lines 771-779). */
module ColumnCuts {
  import opened ColumnPages
  import opened ColumnBatches

  /** The entries in the first `p` pages. */
  function InPages(pages: seq<Page>, p: nat): (n: nat)
    requires p <= |pages|
  {
    |PagesEntries(pages[..p])|
  }

  /** The entries of a column before page `p` of its value `v`. */
  function Before(values: seq<Value>, v: nat, p: nat): (n: nat)
    requires v < |values| && p <= |values[v]|
  {
    |ValuesEntries(values[..v])| + InPages(values[v], p)
  }

  /** `x` entries end strictly inside page `p` of value `v`. */
  predicate InsidePage(values: seq<Value>, x: nat, v: nat, p: nat) {
    v < |values| && p < |values[v]| && Before(values, v, p) < x < Before(values, v, p + 1)
  }

  /** The batch of the entries from `b` to `e` begins inside a page and ends at the end of a page of
      the same value that is not its last. */
  predicate CutsPage(values: seq<Value>, b: nat, e: nat) {
    exists v, p, q :: 0 <= v < |values| && 0 <= p < |values[v]| && 0 <= q < |values[v]| &&
      InsidePage(values, b, v, p) && EndsPage(values, e, v, q) && q + 1 < |values[v]|
  }

  predicate EndsPage(values: seq<Value>, x: nat, v: nat, q: nat) {
    v < |values| && q < |values[v]| && x == Before(values, v, q + 1)
  }

  // ----- sizes -----

  lemma {:induction false} PagesJoin(a: seq<Page>, b: seq<Page>)
    ensures PagesEntries(a + b) == PagesEntries(a) + PagesEntries(b)
    decreases |a|
  {
    hide PageEntries;
    if a == [] {
      assert a + b == b;
    } else {
      PagesJoin(a[1..], b);
      assert (a + b)[1..] == a[1..] + b;
    }
  }

  lemma {:induction false} OnePage(page: Page)
    ensures PagesEntries([page]) == PageEntries(page)
  {
    var pages: seq<Page> := [page];
    assert pages[1..] == [];
  }

  lemma {:induction false} InPagesStep(pages: seq<Page>, p: nat)
    requires p < |pages|
    ensures InPages(pages, p + 1) == InPages(pages, p) + |PageEntries(pages[p])|
  {
    hide PagesEntries, PageEntries;
    assert pages[..p + 1] == pages[..p] + [pages[p]];
    PagesJoin(pages[..p], [pages[p]]);
    OnePage(pages[p]);
  }

  lemma {:induction false} InPagesGrow(pages: seq<Page>, p: nat, q: nat)
    requires p <= q <= |pages|
    ensures InPages(pages, p) <= InPages(pages, q)
    decreases q
  {
    if p < q {
      hide InPages;
      InPagesGrow(pages, p, q - 1);
      InPagesStep(pages, q - 1);
    }
  }

  lemma {:induction false} AllPages(pages: seq<Page>)
    ensures InPages(pages, |pages|) == |PagesEntries(pages)| && InPages(pages, 0) == 0
  {
    assert pages[..|pages|] == pages;
  }

  lemma {:induction false} ValuesStep(values: seq<Value>, v: nat)
    requires v < |values|
    ensures |ValuesEntries(values[..v + 1])| == |ValuesEntries(values[..v])| + |PagesEntries(values[v])|
  {
    hide ValuesEntries, PagesEntries;
    assert values[..v + 1] == values[..v] + [values[v]];
    ValuesJoin(values[..v], [values[v]]);
    OneValue(values[v]);
  }

  lemma {:induction false} ValuesGrow(values: seq<Value>, v: nat, w: nat)
    requires v <= w <= |values|
    ensures |ValuesEntries(values[..v])| <= |ValuesEntries(values[..w])|
    decreases w
  {
    if v < w {
      hide ValuesEntries, PagesEntries;
      ValuesGrow(values, v, w - 1);
      ValuesStep(values, w - 1);
    }
  }

  /** Positions come in the order of values and pages. */
  lemma {:induction false} BeforeOrder(values: seq<Value>, v: nat, p: nat, w: nat, q: nat)
    requires v < |values| && p <= |values[v]| && w < |values| && q <= |values[w]|
    requires v < w || (v == w && p <= q)
    ensures Before(values, v, p) <= Before(values, w, q)
  {
    hide ValuesEntries, PagesEntries;
    if v == w {
      InPagesGrow(values[v], p, q);
    } else {
      InPagesGrow(values[v], p, |values[v]|);
      AllPages(values[v]);
      ValuesStep(values, v);
      ValuesGrow(values, v + 1, w);
    }
  }

  /** A position inside a page is not at the beginning or end of any page. */
  lemma {:induction false} InsideNotAtEnd(values: seq<Value>, x: nat, v: nat, p: nat, w: nat, q: nat)
    requires InsidePage(values, x, v, p) && w < |values| && q <= |values[w]|
    ensures x != Before(values, w, q)
  {
    hide Before;
    if w < v || (w == v && q <= p) {
      BeforeOrder(values, w, q, v, p);
    } else {
      BeforeOrder(values, v, p + 1, w, q);
    }
  }

  lemma {:induction false} InsideOnce(values: seq<Value>, x: nat, v: nat, p: nat, w: nat, q: nat)
    requires InsidePage(values, x, v, p) && InsidePage(values, x, w, q)
    ensures v == w && p == q
  {
    hide Before;
    if w < v || (w == v && q < p) {
      BeforeOrder(values, w, q + 1, v, p);
    } else if v < w || p < q {
      BeforeOrder(values, v, p + 1, w, q);
    }
  }

  // ----- reading inside one value -----

  lemma {:induction false} EntriesLeft(data: seq<Byte>, n: nat)
    requires n <= |Entries(data)|
    ensures (8 * n < |data| <==> n < |Entries(data)|)
    ensures 8 * n < |data| ==> |Entries(data[8 * n..])| == |Entries(data)| - n
  {
    EntriesFrom(data, n);
    hide Entries;
    assert |Entries(data)| == (|data| + 7) / 8;
  }

  lemma {:induction false} SuffixEntries(data: seq<Byte>, p: Page, n: nat)
    requires IsSuffix(data, p) && n <= |Entries(data)| && 8 * n < |data|
    ensures |Entries(p[|p| - (|data| - 8 * n)..])| == |Entries(data)| - n
  {
    hide Entries;
    EntriesLeft(data, n);
    SuffixDrops(data, p, 8 * n);
  }

  /** Where reading ends: in the first page whose end is not passed; `at` is where it began. */
  lemma {:induction false} FoundWhere(pages: seq<Page>, pageNo: nat, data: seq<Byte>, n: nat, at: nat)
    requires n > 0 && pageNo < |pages| && IsSuffix(data, pages[pageNo])
    requires InPages(pages, pageNo) <= at && at + |Entries(data)| == InPages(pages, pageNo + 1)
    ensures match ReadPages(pages, pageNo, data, n)
            case Found(_, p, left) =>
              && pageNo <= p < |pages| && InPages(pages, p) < at + n <= InPages(pages, p + 1)
              && (left == 0 <==> at + n == InPages(pages, p + 1)) && left <= |pages[p]|
              && (left > 0 ==> |Entries(pages[p][|pages[p]| - left..])| == InPages(pages, p + 1) - (at + n))
            case UsedUp(es) => at + |es| == InPages(pages, |pages|) < at + n
    decreases |pages| - pageNo
  {
    hide Entries, InPages, PagesEntries;
    if n <= |Entries(data)| {
      EntriesLeft(data, n);
      if 8 * n < |data| {
        SuffixEntries(data, pages[pageNo], n);
      }
      SuffixFits(data, pages[pageNo]);
    } else if pageNo + 1 < |pages| {
      var next := pages[pageNo + 1];
      var body := next[Header(next)..];
      InPagesStep(pages, pageNo + 1);
      BodyIsSuffix(next);
      FoundWhere(pages, pageNo + 1, body, n - |Entries(data)|, at + |Entries(data)|);
    }
  }

  // ----- the cursor -----

  /** The cursor points into a page behind its beginning. */
  predicate MidPage(values: seq<Value>, c: Cursor) {
    c.valueNo < |values| && c.pageNo < |values[c.valueNo]| && c.pageOffset > 0
  }

  /** What every cursor satisfies as long as no read has ended stale: an offset lies strictly inside
      the entries of its page. */
  predicate Sane(values: seq<Value>, c: Cursor) {
    && ValidOffset(c.pageOffset)
    && (MidPage(values, c) ==>
          var page := values[c.valueNo][c.pageNo];
          0 < |Entries(DataAt(page, c.pageOffset))| < |PageEntries(page)|)
  }

  /** The entries read so far. */
  function Position(values: seq<Value>, c: Cursor): (x: int) {
    if c.valueNo >= |values| then |ValuesEntries(values)|
    else if c.pageNo >= |values[c.valueNo]| then Before(values, c.valueNo, |values[c.valueNo]|)
    else Before(values, c.valueNo, c.pageNo + 1) - |Entries(DataAt(values[c.valueNo][c.pageNo], c.pageOffset))|
  }

  lemma {:induction false} PositionStart(values: seq<Value>, v: nat)
    requires v < |values|
    ensures Position(values, Cursor(v, 0, 0)) == Before(values, v, 0) == |ValuesEntries(values[..v])|
  {
    hide ValuesEntries, PagesEntries, Entries;
    AllPages(values[v]);
    if values[v] != [] {
      InPagesStep(values[v], 0);
      BodyIsSuffix(values[v][0]);
    }
  }

  lemma {:induction false} PositionAtPage(values: seq<Value>, v: nat, p: nat)
    requires v < |values| && p <= |values[v]|
    ensures Position(values, Cursor(v, p, 0)) == Before(values, v, p)
  {
    hide ValuesEntries, PagesEntries, Entries;
    if p < |values[v]| {
      InPagesStep(values[v], p);
      BodyIsSuffix(values[v][p]);
    }
  }

  lemma {:induction false} PositionNextValue(values: seq<Value>, v: nat)
    requires v < |values|
    ensures Position(values, Cursor(v + 1, 0, 0)) == Before(values, v, |values[v]|)
  {
    hide ValuesEntries, PagesEntries, Entries;
    AllPages(values[v]);
    ValuesStep(values, v);
    if v + 1 < |values| {
      PositionStart(values, v + 1);
    } else {
      assert values[..v + 1] == values;
    }
  }

  /** What is left and what was read make up the column. */
  lemma {:induction false} PositionAndRest(values: seq<Value>, c: Cursor)
    requires c.valueNo <= |values|
    ensures Position(values, c) + |Rest(values, c)| == |ValuesEntries(values)|
  {
    if c.valueNo < |values| {
      hide ValuesEntries, PagesEntries, Entries;
      var v, pages := c.valueNo, values[c.valueNo];
      ValuesStep(values, v);
      assert values == values[..v + 1] + values[v + 1..];
      ValuesJoin(values[..v + 1], values[v + 1..]);
      AllPages(pages);
      if c.pageNo < |pages| {
        assert pages == pages[..c.pageNo + 1] + pages[c.pageNo + 1..];
        PagesJoin(pages[..c.pageNo + 1], pages[c.pageNo + 1..]);
      }
    }
  }

  // ----- when a read ends stale -----

  /** The cursor stands before a page, at the end `e` of the page before it, which has entries. */
  predicate StandsBehind(values: seq<Value>, c: Cursor, e: nat) {
    && c.valueNo < |values| && 0 < c.pageNo < |values[c.valueNo]|
    && EndsPage(values, e, c.valueNo, c.pageNo - 1) && Before(values, c.valueNo, c.pageNo - 1) < e
  }

  /** Where a read begins inside a value. */
  lemma {:induction false} BeginsAt(values: seq<Value>, c: Cursor)
    requires Sane(values, c) && c.valueNo < |values| && c.pageNo < |values[c.valueNo]|
    ensures var x := Position(values, c);
            && Before(values, c.valueNo, c.pageNo) <= x
            && (c.pageOffset > 0 ==> x >= 0 && InsidePage(values, x, c.valueNo, c.pageNo))
            && (c.pageOffset == 0 ==> x == Before(values, c.valueNo, c.pageNo))
  {
    hide ValuesEntries, PagesEntries, Entries;
    InPagesStep(values[c.valueNo], c.pageNo);
    if c.pageOffset == 0 {
      PositionAtPage(values, c.valueNo, c.pageNo);
    }
  }

  /** A batch that begins at the end of a page, or is empty, cuts no page. */
  lemma {:induction false} NoCut(values: seq<Value>, b: nat, e: nat, v: nat, p: nat)
    requires b == e || (v < |values| && p <= |values[v]| && b == Before(values, v, p))
    ensures !CutsPage(values, b, e)
  {
    hide Before;
    if CutsPage(values, b, e) {
      var w, q, k :| 0 <= w < |values| && 0 <= q < |values[w]| && 0 <= k < |values[w]| &&
        InsidePage(values, b, w, q) && EndsPage(values, e, w, k) && k + 1 < |values[w]|;
      if b == e {
        InsideNotAtEnd(values, b, w, q, w, k + 1);
      } else {
        InsideNotAtEnd(values, b, w, q, v, p);
      }
    }
  }

  /** A batch from inside page `p` of value `v` cuts a page only within that value. */
  lemma {:induction false} CutWithin(values: seq<Value>, b: nat, e: nat, v: nat, p: nat) returns (q: nat)
    requires InsidePage(values, b, v, p) && CutsPage(values, b, e)
    ensures q + 1 < |values[v]| && e == Before(values, v, q + 1)
  {
    hide Before;
    var w, k, m :| 0 <= w < |values| && 0 <= k < |values[w]| && 0 <= m < |values[w]| &&
      InsidePage(values, b, w, k) && EndsPage(values, e, w, m) && m + 1 < |values[w]|;
    InsideOnce(values, b, v, p, w, k);
    q := m;
  }

  /** A batch that ends in page `p` of the value it began in, and cuts a page, ends with page `p`. */
  lemma {:induction false} CutEnds(values: seq<Value>, b: nat, e: nat, v: nat, k: nat, p: nat)
    requires InsidePage(values, b, v, k) && CutsPage(values, b, e) && p < |values[v]|
    requires Before(values, v, p) < e <= Before(values, v, p + 1)
    ensures e == Before(values, v, p + 1) && p + 1 < |values[v]|
  {
    hide Before;
    var q := CutWithin(values, b, e, v, k);
    hide CutsPage, InsidePage;
    if q < p {
      BeforeOrder(values, v, q + 1, v, p);
    } else {
      BeforeOrder(values, v, p + 1, v, q + 1);
    }
  }

  lemma {:induction false} CutHere(values: seq<Value>, b: nat, e: nat, v: nat, k: nat, p: nat)
    requires InsidePage(values, b, v, k) && p + 1 < |values[v]| && e == Before(values, v, p + 1)
    ensures CutsPage(values, b, e)
  {
    hide Before;
    assert EndsPage(values, e, v, p);
  }

  /** A batch that ends inside the value it began in. */
  lemma {:induction false} CutIff(values: seq<Value>, c: Cursor, b: nat, e: nat, p: nat)
    requires Sane(values, c) && c.valueNo < |values| && c.pageNo <= p < |values[c.valueNo]| && b == Position(values, c)
    requires Before(values, c.valueNo, p) < e <= Before(values, c.valueNo, p + 1)
    ensures CutsPage(values, b, e)
          <==> c.pageOffset > 0 && e == Before(values, c.valueNo, p + 1) && p + 1 < |values[c.valueNo]|
  {
    var v := c.valueNo;
    BeginsAt(values, c);
    hide Before, Position, Sane, CutsPage, InsidePage;
    if c.pageOffset == 0 {
      NoCut(values, b, e, v, c.pageNo);
    } else {
      if CutsPage(values, b, e) {
        CutEnds(values, b, e, v, c.pageNo, p);
      }
      if e == Before(values, v, p + 1) && p + 1 < |values[v]| {
        CutHere(values, b, e, v, c.pageNo, p);
      }
    }
  }

  lemma {:induction false} NoCutBeyond(values: seq<Value>, c: Cursor, b: nat, e: nat)
    requires Sane(values, c) && c.valueNo < |values| && c.pageNo < |values[c.valueNo]| && b == Position(values, c)
    requires e > Before(values, c.valueNo, |values[c.valueNo]|)
    ensures !CutsPage(values, b, e)
  {
    var v := c.valueNo;
    BeginsAt(values, c);
    hide Before, Position, Sane;
    if c.pageOffset == 0 {
      NoCut(values, b, e, v, c.pageNo);
    } else if CutsPage(values, b, e) {
      var q := CutWithin(values, b, e, v, c.pageNo);
      BeforeOrder(values, v, q + 1, v, |values[v]|);
    }
  }

  /** The cursor in the middle of a page that a read leaves behind. */
  lemma {:induction false} LeftIsSane(values: seq<Value>, v: nat, p: nat, left: nat, count: nat)
    requires v < |values| && p < |values[v]| && 0 < left && left + 14 <= |values[v][p]|
    requires |Entries(values[v][p][|values[v][p]| - left..])| == count < |PageEntries(values[v][p])|
    ensures Sane(values, Cursor(v, p, |values[v][p]| - left))
  {
    var page := values[v][p];
    assert |page[|page| - left..]| == left;
    EntriesCount(page[|page| - left..]);
    hide Entries;
  }

  lemma {:induction false} EntriesCount(data: seq<Byte>)
    ensures |Entries(data)| == (|data| + 7) / 8
  {
  }

  lemma {:induction false} FoundStale(values: seq<Value>, c: Cursor, n: nat)
    requires Sane(values, c) && n > 0 && c.valueNo < |values| && c.pageNo < |values[c.valueNo]|
    requires ReadPages(values[c.valueNo], c.pageNo, DataAt(values[c.valueNo][c.pageNo], c.pageOffset), n).Found?
    ensures var r := ReadColumn(values, c, n); var b := Position(values, c);
            && r.Read? && b >= 0 && (r.stale <==> CutsPage(values, b, b + n))
            && (!r.stale ==> Sane(values, r.cursor) && r.cursor.valueNo <= |values|)
            && (r.stale ==> StandsBehind(values, r.cursor, b + n))
  {
    hide *;
    var v, pages := c.valueNo, values[c.valueNo];
    var data := DataAt(pages[c.pageNo], c.pageOffset);
    SaneOffset(values, c);
    DataIsSuffix(pages[c.pageNo], c.pageOffset);
    SuffixFits(data, pages[c.pageNo]);
    var found := ReadPages(pages, c.pageNo, data, n);
    var b, p, left := Position(values, c), found.pageNo, found.left;
    FoundResult(values, c, n);
    BeginsAt(values, c);
    PositionAtLeast(values, c);
    var at := b - |ValuesEntries(values[..v])|;
    BeforeParts(values, v, c.pageNo);
    PositionParts(values, c);
    LeftBehindHeader(pages, c.pageNo, data, n);
    FoundWhere(pages, c.pageNo, data, n, at);
    BeforeParts(values, v, p);
    BeforeParts(values, v, p + 1);
    CutIff(values, c, b, b + n, p);
    if left > 0 {
      InPagesStep(pages, p);
      LeftIsSane(values, v, p, left, InPages(pages, p + 1) - (at + n));
    } else {
      NotMidPage(values, Cursor(v, p + 1, c.pageOffset));
      if p + 1 < |pages| {
        StandsThere(values, v, p + 1, c.pageOffset, b + n);
      }
    }
  }

  lemma {:induction false} StandsThere(values: seq<Value>, v: nat, p: nat, offset: nat, e: nat)
    requires v < |values| && 0 < p < |values[v]| && Before(values, v, p - 1) < e == Before(values, v, p)
    ensures StandsBehind(values, Cursor(v, p, offset), e)
  {
  }

  lemma {:induction false} SaneOffset(values: seq<Value>, c: Cursor)
    requires Sane(values, c)
    ensures ValidOffset(c.pageOffset)
  {
  }

  lemma {:induction false} DataFits(values: seq<Value>, c: Cursor)
    requires Sane(values, c) && c.valueNo < |values| && c.pageNo < |values[c.valueNo]|
    ensures |DataAt(values[c.valueNo][c.pageNo], c.pageOffset)| <= |values[c.valueNo][c.pageNo]|
  {
  }

  lemma {:induction false} BeforeParts(values: seq<Value>, v: nat, p: nat)
    requires v < |values| && p <= |values[v]|
    ensures Before(values, v, p) == |ValuesEntries(values[..v])| + InPages(values[v], p)
  {
  }

  lemma {:induction false} PositionParts(values: seq<Value>, c: Cursor)
    requires c.valueNo < |values| && c.pageNo < |values[c.valueNo]|
    ensures Position(values, c)
         == Before(values, c.valueNo, c.pageNo + 1) - |Entries(DataAt(values[c.valueNo][c.pageNo], c.pageOffset))|
    ensures Before(values, c.valueNo, c.pageNo + 1)
         == |ValuesEntries(values[..c.valueNo])| + InPages(values[c.valueNo], c.pageNo + 1)
  {
  }

  lemma {:induction false} NotMidPage(values: seq<Value>, c: Cursor)
    requires ValidOffset(c.pageOffset)
    ensures c.valueNo < |values| && (c.pageOffset == 0 || c.pageNo >= |values[c.valueNo]|) ==> Sane(values, c)
  {
  }

  lemma {:induction false} PositionAtLeast(values: seq<Value>, c: Cursor)
    requires Sane(values, c)
    ensures Position(values, c) >= 0
  {
    if c.valueNo < |values| && c.pageNo < |values[c.valueNo]| {
      BeginsAt(values, c);
    }
  }

  lemma {:induction false} PastPages(values: seq<Value>, c: Cursor)
    requires c.valueNo < |values| && c.pageNo >= |values[c.valueNo]|
    ensures Position(values, c) == Before(values, c.valueNo, |values[c.valueNo]|)
    ensures forall n :: n > 0 ==> ReadColumn(values, c, n) == ReadColumn(values, Cursor(c.valueNo + 1, 0, 0), n)
    ensures Rest(values, c) == Rest(values, Cursor(c.valueNo + 1, 0, 0))
  {
    RestAtValue(values, c.valueNo + 1);
  }

  lemma {:induction false} RestNeedsValue(values: seq<Value>, c: Cursor)
    requires Rest(values, c) != []
    ensures c.valueNo < |values|
  {
  }

  /** A read that goes on behind the value it began in begins anew there. */
  lemma {:induction false} GoesOn(values: seq<Value>, c: Cursor, n: nat)
    requires Sane(values, c) && n > 0 && c.valueNo < |values| && c.pageNo < |values[c.valueNo]|
    requires ReadPages(values[c.valueNo], c.pageNo, DataAt(values[c.valueNo][c.pageNo], c.pageOffset), n).UsedUp?
    ensures var es := ReadPages(values[c.valueNo], c.pageNo, DataAt(values[c.valueNo][c.pageNo], c.pageOffset),
          n).entries;
            var next := Cursor(c.valueNo + 1, 0, 0);
            var r, s := ReadColumn(values, c, n), ReadColumn(values, next, n - |es|);
            && |es| < n && Position(values, c) + |es| == Before(values, c.valueNo, |values[c.valueNo]|)
            && r.Read? == s.Read? && (r.Read? ==> r.stale == s.stale && r.cursor == s.cursor)
            && Position(values, c) >= 0 && !CutsPage(values, Position(values, c), Position(values, c) + n)
  {
    hide *;
    var v, pages := c.valueNo, values[c.valueNo];
    var data := DataAt(pages[c.pageNo], c.pageOffset);
    SaneOffset(values, c);
    DataIsSuffix(pages[c.pageNo], c.pageOffset);
    DataFits(values, c);
    BeginsAt(values, c);
    PositionAtLeast(values, c);
    PositionParts(values, c);
    BeforeParts(values, v, c.pageNo);
    BeforeParts(values, v, |pages|);
    var b := Position(values, c);
    FoundWhere(pages, c.pageNo, data, n, b - |ValuesEntries(values[..v])|);
    UsedUpResult(values, c, n);
    NoCutBeyond(values, c, b, b + n);
  }

  /** A read ends stale exactly when its batch cuts a page; if not, the cursor stays sane. */
  lemma {:induction false} StaleIff(values: seq<Value>, c: Cursor, n: nat)
    requires Sane(values, c) && c.valueNo <= |values| && n <= |Rest(values, c)|
    ensures var r := ReadColumn(values, c, n); var b := Position(values, c);
            && r.Read? && b >= 0 && (r.stale <==> CutsPage(values, b, b + n))
            && (!r.stale ==> Sane(values, r.cursor) && r.cursor.valueNo <= |values|)
            && (r.stale ==> StandsBehind(values, r.cursor, b + n))
    decreases |values| - c.valueNo
  {
    hide Entries, ReadPages, ValuesEntries, PagesEntries, CutsPage, Rest, Position, Before, DataAt, InPages, ReadColumn;
    PositionAtLeast(values, c);
    var b := Position(values, c);
    if n == 0 {
      NoCut(values, b, b, 0, 0);
      ReadNothing(values, c);
    } else {
      RestNeedsValue(values, c);
      var v, pages := c.valueNo, values[c.valueNo];
      var next := Cursor(v + 1, 0, 0);
      PositionNextValue(values, v);
      PositionAndRest(values, c);
      PositionAndRest(values, next);
      if c.pageNo >= |pages| {
        PastPages(values, c);
        StaleIff(values, next, n);
        return;
      }
      DataFits(values, c);
      if ReadPages(pages, c.pageNo, DataAt(pages[c.pageNo], c.pageOffset), n).Found? {
        FoundStale(values, c, n);
      } else {
        GoesOn(values, c, n);
        var es := ReadPages(pages, c.pageNo, DataAt(pages[c.pageNo], c.pageOffset), n).entries;
        StaleIff(values, next, n - |es|);
        NoCut(values, b + |es|, b + n, v, |pages|);
      }
    }
  }

  lemma {:induction false} ReadNothing(values: seq<Value>, c: Cursor)
    ensures ReadColumn(values, c, 0) == Read([], c, false)
  {
  }

  /** The batch cuts a page, and the page behind the cut has entries. */
  predicate CutsIntoEntries(values: seq<Value>, b: nat, e: nat) {
    exists v, p, q :: 0 <= v < |values| && 0 <= p < |values[v]| && 0 <= q < |values[v]| &&
      InsidePage(values, b, v, p) && EndsPage(values, e, v, q) && q + 1 < |values[v]|
      && PageEntries(values[v][q]) != [] && PageEntries(values[v][q + 1]) != []
  }

  lemma {:induction false} EndOnce(values: seq<Value>, e: nat, v: nat, p: nat, q: nat)
    requires EndsPage(values, e, v, p) && EndsPage(values, e, v, q)
    requires Before(values, v, p) < e && Before(values, v, q) < e
    ensures p == q
  {
    hide Before;
    if p < q {
      BeforeOrder(values, v, p + 1, v, q);
    } else if q < p {
      BeforeOrder(values, v, q + 1, v, p);
    }
  }

  lemma {:induction false} HasEntriesIff(values: seq<Value>, v: nat, p: nat)
    requires v < |values| && p < |values[v]|
    ensures PageEntries(values[v][p]) != [] <==> Before(values, v, p) < Before(values, v, p + 1)
  {
    hide ValuesEntries, PagesEntries, PageEntries;
    InPagesStep(values[v], p);
  }

  /** When all pages have the same kind of header, a read leaves the cursor behind what it delivered
      unless its batch cuts into a page with entries. */
  lemma {:induction false} CursorRightUnlessCut(values: seq<Value>, c: Cursor, n: nat, h: nat)
    requires AllHeaders(values, h) && h >= 6 && BehindEntry(c.pageOffset, h)
    requires Sane(values, c) && c.valueNo <= |values| && n <= |Rest(values, c)|
    ensures var r := ReadColumn(values, c, n); var b := Position(values, c);
            && r.Read? && b >= 0
            && (Rest(values, r.cursor) == Rest(values, c)[n..] <==> !CutsIntoEntries(values, b, b + n))
  {
    hide Rest, ReadColumn, PageEntries, Sane, Position, Before, AllHeaders;
    CursorRightIff(values, c, n, h);
    StaleIff(values, c, n);
    var r, b := ReadColumn(values, c, n), Position(values, c);
    var e := b + n;
    if CutsIntoEntries(values, b, e) {
      var v, p, q :| 0 <= v < |values| && 0 <= p < |values[v]| && 0 <= q < |values[v]| &&
        InsidePage(values, b, v, p) && EndsPage(values, e, v, q) && q + 1 < |values[v]|
        && PageEntries(values[v][q]) != [] && PageEntries(values[v][q + 1]) != [];
      assert CutsPage(values, b, e);
      var w, k := r.cursor.valueNo, r.cursor.pageNo - 1;
      HasEntriesIff(values, v, q);
      SameValue(values, e, v, q, w, k);
      EndOnce(values, e, v, q, k);
    } else if r.stale {
      assert CutsPage(values, b, e);
      var v, p, q :| 0 <= v < |values| && 0 <= p < |values[v]| && 0 <= q < |values[v]| &&
        InsidePage(values, b, v, p) && EndsPage(values, e, v, q) && q + 1 < |values[v]|;
      var w, k := r.cursor.valueNo, r.cursor.pageNo - 1;
      HasEntriesIff(values, w, k);
      InsideNotAtEnd(values, b, v, p, v, q + 1);
      CutLast(values, e, v, q, w, k, b, p);
    }
  }

  /** A page with entries ends at one place only. */
  lemma {:induction false} SameValue(values: seq<Value>, e: nat, v: nat, q: nat, w: nat, k: nat)
    requires EndsPage(values, e, v, q) && EndsPage(values, e, w, k)
    requires Before(values, v, q) < e && Before(values, w, k) < e
    ensures v == w
  {
    hide Before;
    if v < w {
      BeforeOrder(values, v, q + 1, w, k);
    } else if w < v {
      BeforeOrder(values, w, k + 1, v, q);
    }
  }

  /** The page with entries that ends where a cut page ends is in the same value. */
  lemma {:induction false} CutLast(values: seq<Value>, e: nat, v: nat, q: nat, w: nat, k: nat, b: nat, p: nat)
    requires InsidePage(values, b, v, p) && EndsPage(values, e, v, q) && EndsPage(values, e, w, k)
    requires Before(values, w, k) < e && b < e
    ensures w == v
  {
    hide Before;
    if w < v {
      BeforeOrder(values, w, k + 1, v, p);
    } else if v < w {
      BeforeOrder(values, v, q + 1, w, k);
    }
  }

  // ----- a whole scan -----

  /** The row at which the batch of value `k` of the first enabled column begins. */
  function BatchRow(t: Layout, k: nat): (row: nat)
    requires ValidLayout(t) && FirstEnabled(t.enabled) < |t.enabled| && k <= Count(t, FirstEnabled(t.enabled))
  {
    |ValuesEntries(Own(t, FirstEnabled(t.enabled))[..k])|
  }

  /** Some enabled column from `c` on has a page cut by the rows from `b` to `e`. */
  predicate CutsColumn(t: Layout, c: nat, b: nat, e: nat)
    requires ValidLayout(t)
  {
    exists k :: c <= k < |t.enabled| && t.enabled[k] && CutsPage(Own(t, k), b, e)
  }

  /** Batch `k` cuts a page of a further column: a matter of page sizes only. */
  predicate BatchCuts(t: Layout, k: nat)
    requires ValidLayout(t) && FirstEnabled(t.enabled) < |t.enabled| && k < Count(t, FirstEnabled(t.enabled))
  {
    CutsColumn(t, FirstEnabled(t.enabled) + 1, BatchRow(t, k), BatchRow(t, k + 1))
  }

  lemma {:induction false} OwnBefore(values: seq<Value>, n: nat, v: nat, p: nat)
    requires v < n <= |values| && p <= |values[v]|
    ensures Before(values[..n], v, p) == Before(values, v, p)
  {
    assert values[..n][..v] == values[..v];
  }

  /** Pages behind the column's own values do not matter. */
  lemma {:induction false} OwnCuts(values: seq<Value>, n: nat, b: nat, e: nat)
    requires n <= |values| && b <= e <= |ValuesEntries(values[..n])|
    ensures CutsPage(values, b, e) <==> CutsPage(values[..n], b, e)
  {
    hide Before;
    var own := values[..n];
    if CutsPage(values, b, e) {
      var v, p, q :| 0 <= v < |values| && 0 <= p < |values[v]| && 0 <= q < |values[v]| &&
        InsidePage(values, b, v, p) && EndsPage(values, e, v, q) && q + 1 < |values[v]|;
      if v >= n {
        ValuesGrow(values, n, v);
        BeforeParts(values, v, p);
      }
      OwnBefore(values, n, v, p);
      OwnBefore(values, n, v, p + 1);
      OwnBefore(values, n, v, q + 1);
      assert InsidePage(own, b, v, p) && EndsPage(own, e, v, q);
    }
    if CutsPage(own, b, e) {
      var v, p, q :| 0 <= v < |own| && 0 <= p < |own[v]| && 0 <= q < |own[v]| &&
        InsidePage(own, b, v, p) && EndsPage(own, e, v, q) && q + 1 < |own[v]|;
      OwnBefore(values, n, v, p);
      OwnBefore(values, n, v, p + 1);
      OwnBefore(values, n, v, q + 1);
      assert InsidePage(values, b, v, p) && EndsPage(values, e, v, q);
    }
  }

  predicate SaneFrom(t: Layout, cs: seq<Cursor>, c: nat)
    requires ValidLayout(t) && |cs| == |t.enabled|
  {
    forall k :: c <= k < |t.enabled| && t.enabled[k] ==> Sane(Values(t, k), cs[k]) && cs[k].valueNo <= |Values(t, k)|
  }

  /** One column: its read ends stale exactly when the batch cuts one of its pages. */
  lemma {:induction false} SliceStaleIff(t: Layout, cursor: Cursor, c: nat, row: nat, n: nat)
    requires ValidLayout(t) && c < |t.enabled| && AtRow(t, cursor, c, row) && row + n <= |Column(t, c)|
    requires Sane(Values(t, c), cursor) && cursor.valueNo <= |Values(t, c)|
    ensures var r := ReadColumn(Values(t, c), cursor, n);
            && r.Read? && (r.stale <==> CutsPage(Own(t, c), row, row + n))
            && (!r.stale ==> Sane(Values(t, c), r.cursor) && r.cursor.valueNo <= |Values(t, c)|)
  {
    hide Rest, ReadColumn, ValuesEntries, CutsPage, Sane, Position;
    var values, own := Values(t, c), Count(t, c);
    assert values == values[..own] + values[own..];
    ValuesJoin(values[..own], values[own..]);
    PositionAndRest(values, cursor);
    StaleIff(values, cursor, n);
    OwnCuts(values, own, row, row + n);
  }

  lemma {:induction false} CutsHead(t: Layout, c: nat, b: nat, e: nat)
    requires ValidLayout(t) && c < |t.enabled|
    ensures CutsColumn(t, c, b, e) <==> (t.enabled[c] && CutsPage(Own(t, c), b, e)) || CutsColumn(t, c + 1, b, e)
  {
    hide CutsPage;
  }

  lemma {:induction false} SaneTail(t: Layout, cs: seq<Cursor>, c: nat, cursor: Cursor)
    requires ValidLayout(t) && |cs| == |t.enabled| && c < |t.enabled| && SaneFrom(t, cs, c)
    ensures SaneFrom(t, cs[c := cursor], c + 1)
    ensures t.enabled[c] ==> Sane(Values(t, c), cs[c]) && cs[c].valueNo <= |Values(t, c)|
  {
    hide Sane;
  }

  lemma {:induction false} SaneWhole(t: Layout, cs: seq<Cursor>, c: nat)
    requires ValidLayout(t) && |cs| == |t.enabled| && c < |t.enabled| && SaneFrom(t, cs, c + 1)
    requires t.enabled[c] ==> Sane(Values(t, c), cs[c]) && cs[c].valueNo <= |Values(t, c)|
    ensures SaneFrom(t, cs, c)
  {
    hide Sane;
  }

  lemma {:induction false} OthersStep(t: Layout, cs: seq<Cursor>, c: nat, n: nat)
    requires ValidLayout(t) && |cs| == |t.enabled| && c < |t.enabled| && t.enabled[c]
    requires ReadColumn(Values(t, c), cs[c], n).Read?
    ensures var r := ReadColumn(Values(t, c), cs[c], n);
            var o, later := ReadOthers(t, cs, c, n), ReadOthers(t, cs[c := r.cursor], c + 1, n);
            later.Columns? ==> o.Columns? && o.cursors == later.cursors && o.stale == (r.stale || later.stale)
  {
  }

  /** A batch ends stale exactly when it cuts a page of one of the columns read for it. */
  lemma {:induction false} OthersStaleIff(t: Layout, cs: seq<Cursor>, c: nat, n: nat, row: nat, rows: nat)
    requires ValidLayout(t) && |cs| == |t.enabled| && c <= |t.enabled|
    requires EqualRows(t, rows) && Aligned(t, cs, c, row) && row + n <= rows && SaneFrom(t, cs, c)
    ensures var o := ReadOthers(t, cs, c, n);
            && o.Columns? && (o.stale <==> CutsColumn(t, c, row, row + n))
            && (!o.stale ==> SaneFrom(t, o.cursors, c))
    decreases |t.enabled| - c
  {
    if c == |t.enabled| {
    } else if !t.enabled[c] {
      hide CutsPage, Sane, Own, AtRow;
      CutsHead(t, c, row, row + n);
      OthersStaleIff(t, cs, c + 1, n, row, rows);
    } else {
      hide *;
      CutsHead(t, c, row, row + n);
      HeadAndTail(t, cs, c, row, rows);
      SaneTail(t, cs, c, cs[c]);
      SliceStaleIff(t, cs[c], c, row, n);
      var r := ReadColumn(Values(t, c), cs[c], n);
      var cs' := cs[c := r.cursor];
      TailAligned(t, cs, c, row, r.cursor);
      SaneTail(t, cs, c, r.cursor);
      OthersStaleIff(t, cs', c + 1, n, row, rows);
      OthersStep(t, cs, c, n);
      OthersLeaveCursor(t, cs', c + 1, n, c);
      if !ReadOthers(t, cs, c, n).stale {
        SaneWhole(t, ReadOthers(t, cs, c, n).cursors, c);
      }
    }
  }

  /** A scan never ends a batch stale exactly when none of the batches still to come cuts a page. */
  lemma {:induction false} NeverStaleIff(t: Layout, cs: seq<Cursor>, row: nat, rows: nat)
    requires ValidLayout(t) && |cs| == |t.enabled| && EqualRows(t, rows) && ScanAtRow(t, cs, row)
    requires SaneFrom(t, cs, FirstEnabled(t.enabled) + 1)
    ensures var first := FirstEnabled(t.enabled);
            NeverStale(t, cs) <==> forall k :: cs[first].valueNo <= k < Count(t, first) ==> !BatchCuts(t, k)
    decreases Ahead(t, cs)
  {
    hide SaneFrom, ReadOthers, Kept, TableRows, EqualRows, Aligned, CutsColumn, Own, GetBatch;
    var first := FirstEnabled(t.enabled);
    var v := cs[first].valueNo;
    if v >= Count(t, first) {
      ScanAtEnd(t, cs, row, rows);
    } else {
      var n := |PagesEntries(Values(t, first)[v])|;
      BatchIsNextSlice(t, cs, row, rows);
      FirstAdvances(t, cs);
      BatchStaleIff(t, cs, row, rows);
      if !GetBatch(t, cs).stale {
        NeverStaleIff(t, GetBatch(t, cs).cursors, row + n, rows);
      }
    }
  }

  lemma {:induction false} BatchStaleIff(t: Layout, cs: seq<Cursor>, row: nat, rows: nat)
    requires ValidLayout(t) && |cs| == |t.enabled| && EqualRows(t, rows) && ScanAtRow(t, cs, row)
    requires SaneFrom(t, cs, FirstEnabled(t.enabled) + 1)
    requires cs[FirstEnabled(t.enabled)].valueNo < Count(t, FirstEnabled(t.enabled))
    ensures var b := GetBatch(t, cs);
            && b.Rows? && (b.stale <==> BatchCuts(t, cs[FirstEnabled(t.enabled)].valueNo))
            && (!b.stale ==> SaneFrom(t, b.cursors, FirstEnabled(t.enabled) + 1))
  {
    hide *;
    ScanHasFirst(t, cs, row);
    var first := FirstEnabled(t.enabled);
    var v := cs[first].valueNo;
    BatchSetting(t, cs, row, rows);
    var es := PagesEntries(Values(t, first)[v]);
    var cs1 := cs[first := cs[first].(valueNo := v + 1)];
    OthersStaleIff(t, cs1, first + 1, |es|, row, rows);
    BatchOfOthers(t, cs);
    BatchCutsIs(t, v);
  }

  lemma {:induction false} BatchCutsIs(t: Layout, k: nat)
    requires ValidLayout(t) && FirstEnabled(t.enabled) < |t.enabled| && k < Count(t, FirstEnabled(t.enabled))
    ensures BatchCuts(t, k) == CutsColumn(t, FirstEnabled(t.enabled) + 1, BatchRow(t, k), BatchRow(t, k + 1))
  {
  }

  lemma {:induction false} BatchOfOthers(t: Layout, cs: seq<Cursor>)
    requires ValidLayout(t) && |cs| == |t.enabled| && FirstEnabled(t.enabled) < |t.enabled|
    requires cs[FirstEnabled(t.enabled)].valueNo < Count(t, FirstEnabled(t.enabled))
    ensures var first := FirstEnabled(t.enabled); var c := cs[first];
            var es := PagesEntries(Values(t, first)[c.valueNo]);
            var o, b := ReadOthers(t, cs[first := c.(valueNo := c.valueNo + 1)], first + 1, |es|), GetBatch(t, cs);
            o.Columns? ==> b.Rows? && b.stale == o.stale && b.cursors == o.cursors
  {
    hide ReadOthers, PagesEntries;
  }

  lemma {:induction false} BatchSetting(t: Layout, cs: seq<Cursor>, row: nat, rows: nat)
    requires ValidLayout(t) && |cs| == |t.enabled| && EqualRows(t, rows) && ScanAtRow(t, cs, row)
    requires SaneFrom(t, cs, FirstEnabled(t.enabled) + 1)
    requires cs[FirstEnabled(t.enabled)].valueNo < Count(t, FirstEnabled(t.enabled))
    ensures var first := FirstEnabled(t.enabled); var v := cs[first].valueNo;
            var n := |PagesEntries(Values(t, first)[v])|; var cs1 := cs[first := cs[first].(valueNo := v + 1)];
            && first < |t.enabled| && row + n <= rows && Aligned(t, cs1, first + 1, row) && SaneFrom(t, cs1, first + 1)
            && row == BatchRow(t, v) && row + n == BatchRow(t, v + 1)
  {
    hide PagesEntries, ValuesEntries, AtRow, Sane, Column, Values, Own;
    var first := FirstEnabled(t.enabled);
    FirstSlice(t, cs[first].valueNo, first, row);
    assert |Column(t, first)| == rows;
  }

  /** A scan from the start delivers exactly the table's rows that pass every filter, in order, if no
      batch cuts a page; and the reader never keeps an offset it should not keep exactly in that case. */
  lemma {:induction false} UncutScanIsTable(t: Layout, rows: nat)
    requires ValidLayout(t) && EqualRows(t, rows) && FirstEnabled(t.enabled) < |t.enabled|
    ensures var cs := Starts(|t.enabled|); var n := Count(t, FirstEnabled(t.enabled));
            && (NeverStale(t, cs) <==> forall k :: 0 <= k < n ==> !BatchCuts(t, k))
            && ((forall k :: 0 <= k < n ==> !BatchCuts(t, k)) ==>
                  ScanAll(t, cs).Scanned? && ScanAll(t, cs).rows == TableRows(t, rows, 0, rows))
  {
    hide ScanAll, TableRows, EqualRows, NeverStale, BatchCuts, ScanAtRow;
    var cs := Starts(|t.enabled|);
    StartsAtRowZero(t);
    StartsSane(t);
    NeverStaleIff(t, cs, 0, rows);
    if NeverStale(t, cs) {
      ScanDelivers(t, cs, 0, rows);
    }
  }

  lemma {:induction false} StartsSane(t: Layout)
    requires ValidLayout(t)
    ensures SaneFrom(t, Starts(|t.enabled|), 0)
  {
  }
}
