/** A table that a scan does not get through: a batch ends at the end of a page in whose middle it
    began, and the old byte offset is applied to the next page. */
module ColumnCutExample {
  import opened ColumnPages
  import opened ColumnBatches
  import opened ColumnCuts

  const HEADER: seq<Byte> := [3, 0, 0, 0, 0, 0, 0]

  function PageOfOne(e: Entry): (p: Page) {
    HEADER + e
  }

  function PageOfTwo(e: Entry, f: Entry): (p: Page) {
    HEADER + (e + f)
  }

  /** Two columns of four entries: four values with a page of one entry each, and one value with two
      pages of two entries. */
  function Example(a: seq<Entry>, q: seq<Entry>): (t: Layout)
    requires |a| == 4 == |q|
    ensures ValidLayout(t)
  {
    var first: seq<Value> := [[PageOfOne(a[0])], [PageOfOne(a[1])], [PageOfOne(a[2])], [PageOfOne(a[3])]];
    var t := Layout(first + Second(q), [0, 4, 5], [true, true], [(e: Entry) => true, (e: Entry) => true]);
    assert ChunkInside(t, 0) && ChunkInside(t, 1);
    t
  }

  function Second(q: seq<Entry>): (values: seq<Value>)
    requires |q| == 4
  {
    [[PageOfTwo(q[0], q[1]), PageOfTwo(q[2], q[3])]]
  }

  lemma {:induction false} EntriesOfOne(e: Entry)
    ensures Entries(e) == [e] && PageEntries(PageOfOne(e)) == [e]
  {
    assert PageOfOne(e)[7..] == e && e + [] == e;
  }

  lemma {:induction false} EntriesOfTwo(e: Entry, f: Entry)
    ensures Entries(e + f) == [e, f] && PageEntries(PageOfTwo(e, f)) == [e, f]
    ensures |PageOfTwo(e, f)| == 23 && PageOfTwo(e, f)[7..] == e + f && PageOfTwo(e, f)[15..] == f
  {
    assert (e + f)[..8] == e && (e + f)[8..] == f;
    EntriesOfOne(f);
    assert PageOfTwo(e, f)[7..] == e + f;
  }

  /** The four reads of the second column: entry 3 comes out as the third, and there is no fourth. */
  lemma {:induction false} SecondColumn(q: seq<Entry>)
    requires |q| == 4
    ensures ReadColumn(Second(q), START, 1) == Read([q[0]], Cursor(0, 0, 15), false)
    ensures ReadColumn(Second(q), Cursor(0, 0, 15), 1) == Read([q[1]], Cursor(0, 1, 15), true)
    ensures ReadColumn(Second(q), Cursor(0, 1, 15), 1) == Read([q[3]], Cursor(0, 2, 15), false)
    ensures ReadColumn(Second(q), Cursor(0, 2, 15), 1) == Missing(Cursor(1, 0, 0))
  {
    hide Entries;
    EntriesOfTwo(q[0], q[1]);
    EntriesOfTwo(q[2], q[3]);
    EntriesOfOne(q[1]);
    EntriesOfOne(q[3]);
    assert [q[0], q[1]][..1] == [q[0]] && [q[1]][..1] == [q[1]] && [q[3]][..1] == [q[3]];
  }

  lemma {:induction false} FirstValues(a: seq<Entry>, q: seq<Entry>, k: nat)
    requires |a| == 4 == |q| && k < 4
    ensures var t := Example(a, q);
            && FirstEnabled(t.enabled) == 0 && Count(t, 0) == 4 && PagesEntries(Values(t, 0)[k]) == [a[k]]
            && Values(t, 1) == Second(q) && Count(t, 1) == 1
  {
    var t := Example(a, q);
    EntriesOfOne(a[k]);
    OnePage(PageOfOne(a[k]));
    assert t.store[0..] == t.store && t.store[4..] == Second(q);
    hide PagesEntries, Entries;
    assert t.enabled[0];
  }

  lemma {:induction false} ExampleFilters(a: seq<Entry>, q: seq<Entry>)
    requires |a| == 4 == |q|
    ensures var fs := FiltersFrom(Example(a, q), 0); |fs| == 2 && forall e :: fs[0](e) && fs[1](e)
  {
    hide PageOfOne, Second;
    var t := Example(a, q);
    assert t.enabled[0] && t.enabled[1];
    assert FiltersFrom(t, 2) == [];
    assert FiltersFrom(t, 1) == [t.filters[1]];
  }

  lemma {:induction false} ExampleRow(a: seq<Entry>, q: seq<Entry>, x: Entry, es: seq<Entry>)
    requires |a| == 4 == |q| && |es| == 1
    ensures |FiltersFrom(Example(a, q), 0)| == 2
    ensures Kept([[x], es], FiltersFrom(Example(a, q), 0), 0, 1) == [[x, es[0]]]
  {
    ExampleFilters(a, q);
    hide FiltersFrom, Example;
    var columns, fs := [[x], es], FiltersFrom(Example(a, q), 0);
    assert Row(columns, 0) == [x, es[0]];
    assert Kept(columns, fs, 0, 0) == [];
  }

  /** One batch of the example, when its first column stands at value `k`. */
  lemma {:induction false} ExampleBatch(a: seq<Entry>, q: seq<Entry>, k: nat, d: Cursor)
    requires |a| == 4 == |q| && k < 4
    ensures var b := GetBatch(Example(a, q), [Cursor(k, 0, 0), d]);
            match ReadColumn(Second(q), d, 1)
            case Missing(_) => b.Failed?
            case Read(es, d', stale) => |es| == 1 && b == Rows([[a[k], es[0]]], [Cursor(k + 1, 0, 0), d'], stale)
  {
    var t := Example(a, q);
    FirstValues(a, q, k);
    ReadLength(Second(q), d, 1);
    hide Entries, PagesEntries, Second, PageOfOne, PageOfTwo, ReadColumn, Values, Count, FirstEnabled, Example;
    var cs1 := [Cursor(k + 1, 0, 0), d];
    assert [Cursor(k, 0, 0), d][0 := Cursor(k + 1, 0, 0)] == cs1;
    ExampleOthers(a, q, cs1);
    if ReadColumn(Second(q), d, 1).Read? {
      var es := ReadColumn(Second(q), d, 1).entries;
      ExampleRow(a, q, a[k], es);
      assert [[a[k]]] + [es] == [[a[k]], es];
    }
  }

  lemma {:induction false} ExampleOthers(a: seq<Entry>, q: seq<Entry>, cs: seq<Cursor>)
    requires |a| == 4 == |q| && |cs| == 2
    ensures var o := ReadOthers(Example(a, q), cs, 1, 1);
            match ReadColumn(Second(q), cs[1], 1)
            case Missing(d') => o == Broken([cs[0], d'])
            case Read(es, d', stale) => o == Columns([es], [cs[0], d'], stale)
  {
    var t := Example(a, q);
    FirstValues(a, q, 0);
    hide ReadColumn, Values, Second, Entries, PagesEntries;
    var r := ReadColumn(Second(q), cs[1], 1);
    if r.Read? {
      assert cs[1 := r.cursor] == [cs[0], r.cursor];
      assert ReadOthers(t, [cs[0], r.cursor], 2, 1) == Columns([], [cs[0], r.cursor], false);
      assert [r.entries] + [] == [r.entries];
    } else {
      assert cs[1 := r.cursor] == [cs[0], r.cursor];
    }
  }

  lemma {:induction false} ScanGoesOn(t: Layout, cs: seq<Cursor>)
    requires ValidLayout(t) && |cs| == |t.enabled|
    ensures GetBatch(t, cs).Failed? ==> ScanAll(t, cs).ScanFailed?
    ensures GetBatch(t, cs).Rows? ==> (ScanAll(t, GetBatch(t, cs).cursors).ScanFailed? ==> ScanAll(t, cs).ScanFailed?)
  {
    hide GetBatch;
    if GetBatch(t, cs).Rows? {
      FirstAdvances(t, cs);
    }
  }

  lemma {:induction false} ExampleRows(a: seq<Entry>, q: seq<Entry>)
    requires |a| == 4 == |q|
    ensures EqualRows(Example(a, q), 4)
  {
    var t := Example(a, q);
    FirstValues(a, q, 0);
    EntriesOfTwo(q[0], q[1]);
    EntriesOfTwo(q[2], q[3]);
    EntriesOfOne(a[0]);
    EntriesOfOne(a[1]);
    EntriesOfOne(a[2]);
    EntriesOfOne(a[3]);
    hide Entries, PageEntries;
    FourValues(PageOfOne(a[0]), PageOfOne(a[1]), PageOfOne(a[2]), PageOfOne(a[3]));
    TwoPages(PageOfTwo(q[0], q[1]), PageOfTwo(q[2], q[3]));
    assert Own(t, 0) == [[PageOfOne(a[0])], [PageOfOne(a[1])], [PageOfOne(a[2])], [PageOfOne(a[3])]];
    assert Own(t, 1) == Second(q);
  }

  lemma {:induction false} SinglePage(page: Page)
    ensures ValuesEntries([[page]]) == PageEntries(page)
  {
    OneValue([page]);
    OnePage(page);
  }

  lemma {:induction false} FourValues(a: Page, b: Page, c: Page, d: Page)
    ensures ValuesEntries([[a], [b], [c], [d]]) == PageEntries(a) + PageEntries(b) + PageEntries(c) + PageEntries(d)
  {
    hide PageEntries, PagesEntries, ValuesEntries;
    var va: seq<Value>, vb: seq<Value>, vc: seq<Value>, vd: seq<Value> := [[a]], [[b]], [[c]], [[d]];
    assert va + vb + vc + vd == [[a], [b], [c], [d]];
    ValuesJoin(va + vb + vc, vd);
    ValuesJoin(va + vb, vc);
    ValuesJoin(va, vb);
    SinglePage(a);
    SinglePage(b);
    SinglePage(c);
    SinglePage(d);
  }

  lemma {:induction false} TwoPages(a: Page, b: Page)
    ensures ValuesEntries([[a, b]]) == PageEntries(a) + PageEntries(b)
  {
    hide PageEntries, PagesEntries, ValuesEntries;
    var pa: seq<Page>, pb: seq<Page> := [a], [b];
    OneValue([a, b]);
    assert pa + pb == [a, b];
    PagesJoin(pa, pb);
    OnePage(a);
    OnePage(b);
  }

  /** All columns have four entries, but the third batch pairs entry 2 with entry 3 and the fourth fails. */
  lemma {:induction false} CutScanFails(a: seq<Entry>, q: seq<Entry>)
    requires |a| == 4 == |q|
    ensures var t := Example(a, q);
            && EqualRows(t, 4) && !NeverStale(t, Starts(2)) && ScanAll(t, Starts(2)).ScanFailed?
            && GetBatch(t, [Cursor(2, 0, 0), Cursor(0, 1, 15)])
                  == Rows([[a[2], q[3]]], [Cursor(3, 0, 0), Cursor(0, 2, 15)], false)
            && GetBatch(t, [Cursor(3, 0, 0), Cursor(0, 2, 15)]).Failed?
  {
    hide GetBatch, ScanAll, Example, Second, ReadColumn, EqualRows;
    var t := Example(a, q);
    FirstValues(a, q, 0);
    ExampleRows(a, q);
    SecondColumn(q);
    ExampleBatch(a, q, 0, START);
    ExampleBatch(a, q, 1, Cursor(0, 0, 15));
    ExampleBatch(a, q, 2, Cursor(0, 1, 15));
    ExampleBatch(a, q, 3, Cursor(0, 2, 15));
    ExampleWidth(a, q);
    assert Starts(2) == [Cursor(0, 0, 0), START];
    ScanGoesOn(t, [Cursor(0, 0, 0), START]);
    ScanGoesOn(t, [Cursor(1, 0, 0), Cursor(0, 0, 15)]);
    ScanGoesOn(t, [Cursor(2, 0, 0), Cursor(0, 1, 15)]);
    ScanGoesOn(t, [Cursor(3, 0, 0), Cursor(0, 2, 15)]);
    NeverStaleStep(t, [Cursor(0, 0, 0), START]);
    NeverStaleStep(t, [Cursor(1, 0, 0), Cursor(0, 0, 15)]);
  }

  lemma {:induction false} ExampleWidth(a: seq<Entry>, q: seq<Entry>)
    requires |a| == 4 == |q|
    ensures |Example(a, q).enabled| == 2
  {
  }

  lemma {:induction false} NeverStaleStep(t: Layout, cs: seq<Cursor>)
    requires ValidLayout(t) && |cs| == |t.enabled|
    ensures GetBatch(t, cs).Rows? && NeverStale(t, cs) ==>
          !GetBatch(t, cs).stale && NeverStale(t, GetBatch(t, cs).cursors)
  {
    hide GetBatch;
  }
}
