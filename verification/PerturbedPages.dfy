/** A perturbed read in bytes: which element is asked for which page of which column, and that the bytes of the pages
    arrive in their column, in order. */
module PerturbedPages {
  import opened ColumnPages
  import opened Permutations
  import opened BulkGet
  import opened PerturbedSlots
  import opened PerturbedReader
  import opened PerturbedTheorem

  /** The bytes of a column's entries, one entry after the other. */
  function Flat(es: seq<Entry>): (bytes: Bytes) {
    if es == [] then [] else es[0] + Flat(es[1..])
  }

  function Joined(pages: seq<Bytes>): (bytes: Bytes) {
    if pages == [] then [] else pages[0] + Joined(pages[1..])
  }

  lemma {:induction false} FlatJoins(a: seq<Entry>, b: seq<Entry>)
    ensures Flat(a + b) == Flat(a) + Flat(b)
  {
    if a == [] {
      assert a + b == b;
    } else {
      FlatJoins(a[1..], b);
      assert (a + b)[1..] == a[1..] + b;
      Associative(a[0], Flat(a[1..]), Flat(b));
    }
  }

  lemma {:induction false} Associative<T>(a: seq<T>, b: seq<T>, c: seq<T>)
    ensures a + (b + c) == a + b + c
  {
  }

  /** Entries are read back from their bytes. */
  lemma {:induction false} EntriesOfFlat(es: seq<Entry>)
    ensures |Flat(es)| == 8 * |es| && Entries(Flat(es)) == es
  {
    if es != [] {
      EntriesOfFlat(es[1..]);
      assert Flat(es)[..8] == es[0] && Flat(es)[8..] == Flat(es[1..]);
      assert es == [es[0]] + es[1..];
      if |es| == 1 {
        assert es[0] + seq(8 - |es[0]|, _ => 0) == es[0];
      }
    }
  }

  /** What a page brings: a rotated one its entries, an output page and a page of a scan the entries behind a header
      of seven bytes that starts with 3 or of six that starts with 2. */
  lemma {:induction false} PagesRead(header: Bytes, es: seq<Entry>)
    ensures PageData(Rotated, Flat(es)) == Some(es)
    ensures (|header| == 7 && header[0] == 3) || (|header| == 6 && header[0] == 2) ==>
              PageData(Plain, header + Flat(es)) == Some(es)
              && (|header + Flat(es)| >= 7 ==> PageEntries(header + Flat(es)) == es)
  {
    EntriesOfFlat(es);
    assert Flat(es)[0..] == Flat(es);
    if (|header| == 7 && header[0] == 3) || (|header| == 6 && header[0] == 2) {
      assert (header + Flat(es))[|header|..] == Flat(es);
    }
  }

  lemma {:induction false} FlatEntries(data: Bytes)
    requires |data| % 8 == 0
    ensures Flat(Entries(data)) == data
  {
    if |data| > 8 {
      FlatEntries(data[8..]);
      assert data == data[..8] + data[8..];
    } else if data != [] {
      assert data + seq(8 - |data|, _ => 0) == data;
      assert Entries(data) == [data];
    }
  }

  /** What a page of its kind brings: a plain page starts with seven or six header bytes. */
  function Contents(kind: Kind, page: Bytes): (bytes: Bytes) {
    var h := if kind != Plain || page == [] then 0 else if page[0] == 3 then 7 else if page[0] == 2 then 6 else 0;
    if h <= |page| then page[h..] else []
  }

  lemma {:induction false} FlatData(kind: Kind, page: Bytes)
    requires kind != Padding && PageData(kind, page).Some?
    ensures Flat(Data(kind, page)) == Contents(kind, page)
  {
    var k := Body(kind, page);
    if k < |page| {
      FlatEntries(page[k..]);
    }
  }

  // ----- which elements are asked for -----

  /** The elements asked for column `c`, in order, those that only fill up a group left out. */
  function Elements(slots: seq<Slot>, c: nat): (indices: seq<nat>) {
    if slots == [] then [] else Own(slots[0], c) + Elements(slots[1..], c)
  }

  function Own(slot: Slot, c: nat): (indices: seq<nat>) {
    if slot.column == c && slot.kind != Padding then [slot.index] else []
  }

  lemma {:induction false} ElementsJoin(a: seq<Slot>, b: seq<Slot>, c: nat)
    ensures Elements(a + b, c) == Elements(a, c) + Elements(b, c)
  {
    if a == [] {
      assert a + b == b;
    } else {
      hide Own;
      ElementsJoin(a[1..], b, c);
      assert (a + b)[1..] == a[1..] + b;
      Associative(Own(a[0], c), Elements(a[1..], c), Elements(b, c));
    }
  }

  lemma {:induction false} ElementsOfNone(slots: seq<Slot>, c: nat)
    requires Foreign(slots, c)
    ensures Elements(slots, c) == []
  {
    if slots != [] {
      ElementsOfNone(slots[1..], c);
    }
  }

  /** `n` numbers from `first` on. */
  function Span(first: nat, n: nat): (s: seq<nat>) {
    seq(n, k requires 0 <= k => first + k)
  }

  lemma {:induction false} SpanFirst(first: nat, n: nat)
    requires n > 0
    ensures Span(first, n) == [first] + Span(first + 1, n - 1)
  {
  }

  lemma {:induction false} NoSpan(first: nat)
    ensures Span(first, 0) == []
  {
  }

  lemma {:induction false} RoundElements(p: Plan, i: nat, t: nat, r: nat)
    requires ValidPlan(p) && i < |p.perturbed| && i < |p.order| && t < Groups(p)
    ensures Chunk(p.chunks, p.perturbed[p.order[i]])
    ensures var c := p.perturbed[p.order[i]];
            Elements(Round(p, t, r), c) == if i / 3 == t then [p.chunks[c] + r] else []
  {
    hide ValidPlan, Elements;
    ColumnInPlan(p, i);
    var c, s := Column(p, i), Round(p, t, r);
    OnlyPlace(p, c, i, 3 * t, r);
    OnlyPlace(p, c, i, 3 * t + 1, r);
    OnlyPlace(p, c, i, 3 * t + 2, r);
    ThreeElements(s, c);
    assert i / 3 == t <==> i == 3 * t || i == 3 * t + 1 || i == 3 * t + 2;
  }

  lemma {:induction false} ThreeElements(s: seq<Slot>, c: nat)
    requires |s| == 3
    ensures Elements(s, c) == Own(s[0], c) + Own(s[1], c) + Own(s[2], c)
  {
    hide Own;
    assert s[1..][1..] == s[2..] && s[2..][1..] == [];
    assert Elements(s[2..], c) == Own(s[2], c) + [];
    assert Elements(s[1..], c) == Own(s[1], c) + Elements(s[2..], c);
  }

  lemma {:induction false} GroupElements(p: Plan, i: nat, t: nat, r: nat)
    requires ValidPlan(p) && i < |p.perturbed| && i < |p.order| && t < Groups(p) && r <= Rounds(p, t)
    ensures Chunk(p.chunks, p.perturbed[p.order[i]])
    ensures var c := p.perturbed[p.order[i]];
            Elements(GroupFrom(p, t, r), c) == if i / 3 == t then Span(p.chunks[c] + r, Rounds(p, t) - r) else []
    decreases Rounds(p, t) - r
  {
    hide ValidPlan, Elements, Round, Rounds, Span;
    ColumnInPlan(p, i);
    RoundElements(p, i, t, r);
    var c := Column(p, i);
    if r == Rounds(p, t) {
      ElementsOfNone([], c);
      NoSpan(p.chunks[c] + r);
    } else {
      GroupElements(p, i, t, r + 1);
      ElementsJoin(Round(p, t, r), GroupFrom(p, t, r + 1), c);
      SpanFirst(p.chunks[c] + r, Rounds(p, t) - r);
    }
  }

  lemma {:induction false} PerturbedElements(p: Plan, i: nat, t: nat)
    requires ValidPlan(p) && i < |p.perturbed| && i < |p.order| && t <= Groups(p)
    ensures Chunk(p.chunks, p.perturbed[p.order[i]]) && i / 3 < Groups(p)
    ensures var c := p.perturbed[p.order[i]];
            Elements(PerturbedFrom(p, t), c) == if i / 3 >= t then Span(p.chunks[c], Rounds(p, i / 3)) else []
    decreases Groups(p) - t
  {
    hide ValidPlan, Elements, GroupFrom, Rounds, Span;
    InGroup(p, i);
    ColumnInPlan(p, i);
    var c := Column(p, i);
    if t == Groups(p) {
      ElementsOfNone([], c);
    } else {
      GroupElements(p, i, t, 0);
      PerturbedElements(p, i, t + 1);
      ElementsJoin(GroupFrom(p, t, 0), PerturbedFrom(p, t + 1), c);
    }
  }

  lemma {:induction false} ColumnElements(p: Plan, d: nat, v: nat, c: nat)
    requires Chunk(p.chunks, d) && v <= Size(p.chunks, d)
    ensures Elements(ColumnFrom(p, d, v), c)
         == if c == d then Span(p.chunks[d] + v, Size(p.chunks, d) - v) else []
    decreases Size(p.chunks, d) - v
  {
    hide Elements, Span;
    if v < Size(p.chunks, d) {
      ColumnElements(p, d, v + 1, c);
      SpanFirst(p.chunks[d] + v, Size(p.chunks, d) - v);
      FirstElements(Slot(d, v, p.chunks[d] + v, Plain), ColumnFrom(p, d, v + 1), c);
    } else {
      NoSpan(p.chunks[d] + v);
      ElementsOfNone([], c);
    }
  }

  lemma {:induction false} FirstElements(slot: Slot, more: seq<Slot>, c: nat)
    ensures Elements([slot] + more, c) == Own(slot, c) + Elements(more, c)
  {
    assert ([slot] + more)[1..] == more;
  }

  lemma {:induction false} OutputElements(p: Plan, c: nat, o: nat)
    requires ValidPlan(p) && o <= |p.outputs|
    ensures c in p.outputs ==> Chunk(p.chunks, c)
    ensures Elements(OutputsFrom(p, o), c)
         == if c in p.outputs[o..] then Span(p.chunks[c], p.chunks[c + 1] - p.chunks[c]) else []
    decreases |p.outputs| - o
  {
    hide Elements, ColumnFrom, Span, ValidPlan;
    OutputHasChunk(p, c);
    if o == |p.outputs| {
      ElementsOfNone([], c);
    } else {
      OutputStep(p, o);
      ColumnElements(p, p.outputs[o], 0, c);
      OutputElements(p, c, o + 1);
      ElementsJoin(ColumnFrom(p, p.outputs[o], 0), OutputsFrom(p, o + 1), c);
      OutputsOnce(p, o);
      assert p.outputs[o..] == [p.outputs[o]] + p.outputs[o + 1..];
    }
  }

  lemma {:induction false} AllElements(p: Plan, c: nat)
    requires ValidPlan(p)
    ensures Elements(Slots(p), c) == Elements(PerturbedFrom(p, 0), c) + Elements(OutputsFrom(p, 0), c)
  {
    hide Elements, PerturbedFrom, OutputsFrom, Slots;
    SlotsAre(p);
    ElementsJoin(PerturbedFrom(p, 0), OutputsFrom(p, 0), c);
  }

  lemma {:induction false} OutputElementsAsked(p: Plan, c: nat)
    requires ValidPlan(p) && c in p.outputs
    ensures Chunk(p.chunks, c) && Elements(Slots(p), c) == Span(p.chunks[c], p.chunks[c + 1] - p.chunks[c])
  {
    hide Elements, PerturbedFrom, OutputsFrom, Span, Slots, ValidPlan, Chunk, Foreign;
    OneRole(p, c);
    AllElements(p, c);
    PerturbedForeign(p, c, 0);
    ElementsOfNone(PerturbedFrom(p, 0), c);
    OutputElements(p, c, 0);
    assert p.outputs[0..] == p.outputs;
  }

  lemma {:induction false} RotatedElementsAsked(p: Plan, i: nat)
    requires ValidPlan(p) && i < |p.perturbed|
    ensures i < |p.order| && i / 3 < Groups(p)
    ensures Elements(Slots(p), p.perturbed[p.order[i]]) == Span(Element(p, i, 0), Rounds(p, i / 3))
  {
    InGroup(p, i);
    hide Elements, PerturbedFrom, OutputsFrom, Span, Slots, Chunk, Rounds;
    var c := p.perturbed[p.order[i]];
    OneRole(p, c);
    AllElements(p, c);
    PerturbedElements(p, i, 0);
    OutputElements(p, c, 0);
    assert p.outputs[0..] == p.outputs;
  }

  /** Which elements are asked for: of an output column all, each once and in order; of a rotated column the first, as
      many as its group has rounds, and all of them exactly when it is the shortest of its group. */
  lemma {:induction false} ElementsAsked(p: Plan, i: nat, c: nat)
    requires ValidPlan(p) && i < |p.perturbed|
    ensures i < |p.order| && i / 3 < Groups(p)
    ensures IsShortest(p, i, Rounds(p, i / 3))
    ensures Elements(Slots(p), p.perturbed[p.order[i]]) == Span(Element(p, i, 0), Rounds(p, i / 3))
    ensures c in p.outputs ==>
              Chunk(p.chunks, c) && Elements(Slots(p), c) == Span(p.chunks[c], p.chunks[c + 1] - p.chunks[c])
  {
    hide Elements, Span, Rounds, Slots, ValidPlan, Chunk, Stored, Element;
    RotatedElementsAsked(p, i);
    if c in p.outputs {
      OutputElementsAsked(p, c);
    }
    RoundsAre(p, i / 3);
    assert i - i % 3 == 3 * (i / 3);
    WholeGroups(p);
  }

  lemma {:induction false} WholeGroups(p: Plan)
    requires ValidPlan(p)
    ensures |p.order| == 3 * Groups(p)
  {
  }

  lemma {:induction false} RoundsAre(p: Plan, t: nat)
    requires ValidPlan(p) && t < Groups(p)
    ensures Rounds(p, t) <= Stored(p, 3 * t) && Rounds(p, t) <= Stored(p, 3 * t + 1)
    ensures Rounds(p, t) <= Stored(p, 3 * t + 2)
    ensures Rounds(p, t) == Stored(p, 3 * t) || Rounds(p, t) == Stored(p, 3 * t + 1)
         || Rounds(p, t) == Stored(p, 3 * t + 2)
  {
    hide ValidPlan;
  }

  // ----- every slot of a read that succeeds -----

  predicate Fine(slots: seq<Slot>, pages: seq<Bytes>, n: nat) {
    |slots| == |pages| && forall j :: 0 <= j < |slots| ==> FineOne(slots[j], pages[j], n)
  }

  predicate FineOne(slot: Slot, page: Bytes, n: nat) {
    slot.index < n && PageData(slot.kind, page).Some?
  }

  lemma {:induction false} FineParts(a: seq<Slot>, b: seq<Slot>, pa: seq<Bytes>, pb: seq<Bytes>, n: nat)
    requires |a| == |pa| && Fine(a + b, pa + pb, n)
    ensures Fine(a, pa, n) && Fine(b, pb, n)
  {
    hide FineOne;
    forall j | 0 <= j < |a|
      ensures FineOne(a[j], pa[j], n)
    {
      assert a[j] == (a + b)[j] && pa[j] == (pa + pb)[j];
    }
    forall j | 0 <= j < |b|
      ensures FineOne(b[j], pb[j], n)
    {
      assert b[j] == (a + b)[|a| + j] && pb[j] == (pa + pb)[|a| + j];
    }
  }

  lemma {:induction false} FineRound(p: Plan, w: Source, t: nat, r: nat, q: nat, n: nat)
    requires ValidPlan(p) && t < Groups(p) && r <= q < Rounds(p, t)
    requires Fine(GroupFrom(p, t, r), GroupReplies(p, w, t, r), n)
    ensures Fine(Round(p, t, q), RoundReplies(p, w, t, q), n)
    decreases q - r
  {
    hide Fine, ValidPlan, Round, RoundReplies, Rounds;
    FineParts(Round(p, t, r), GroupFrom(p, t, r + 1), RoundReplies(p, w, t, r), GroupReplies(p, w, t, r + 1), n);
    if r < q {
      FineRound(p, w, t, r + 1, q, n);
    }
  }

  lemma {:induction false} FineGroup(p: Plan, w: Source, t: nat, u: nat, n: nat)
    requires ValidPlan(p) && t <= u < Groups(p) && Fine(PerturbedFrom(p, t), PerturbedReplies(p, w, t), n)
    ensures Fine(GroupFrom(p, u, 0), GroupReplies(p, w, u, 0), n)
    decreases u - t
  {
    hide Fine, ValidPlan, GroupFrom, GroupReplies, Rounds;
    FineParts(GroupFrom(p, t, 0), PerturbedFrom(p, t + 1), GroupReplies(p, w, t, 0), PerturbedReplies(p, w, t + 1), n);
    if t < u {
      FineGroup(p, w, t + 1, u, n);
    }
  }

  lemma {:induction false} FinePage(p: Plan, w: Source, c: nat, v: nat, q: nat, n: nat)
    requires Chunk(p.chunks, c) && v <= q < Size(p.chunks, c)
    requires Fine(ColumnFrom(p, c, v), ColumnReplies(p, w, c, v), n)
    ensures FineOne(Slot(c, q, p.chunks[c] + q, Plain), PlainPage(p, w, c, q), n)
    decreases q - v
  {
    hide FineOne, PlainPage;
    var slot := Slot(c, v, p.chunks[c] + v, Plain);
    FineParts([slot], ColumnFrom(p, c, v + 1), [PlainPage(p, w, c, v)], ColumnReplies(p, w, c, v + 1), n);
    if v < q {
      FinePage(p, w, c, v + 1, q, n);
    } else {
      assert [slot][0] == slot;
    }
  }

  lemma {:induction false} FineColumn(p: Plan, w: Source, o: nat, k: nat, n: nat)
    requires ValidPlan(p) && o <= k < |p.outputs| && Fine(OutputsFrom(p, o), OutputReplies(p, w, o), n)
    ensures Fine(ColumnFrom(p, p.outputs[k], 0), ColumnReplies(p, w, p.outputs[k], 0), n)
    decreases k - o
  {
    hide Fine, ColumnFrom, ColumnReplies;
    FineParts(ColumnFrom(p, p.outputs[o], 0), OutputsFrom(p, o + 1), ColumnReplies(p, w, p.outputs[o], 0),
          OutputReplies(p, w, o + 1), n);
    if o < k {
      FineColumn(p, w, o + 1, k, n);
    }
  }

  lemma {:induction false} ReadIsFine(p: Plan, m: nat, w: Source, n: int)
    requires ValidPlan(p) && Within(p, m) && Answers(Replier(w.server))
    requires PerturbedRows(p, m, w.elemKeys, w.decompress, n, Replier(w.server)).Rows?
    ensures Fine(PerturbedFrom(p, 0), PerturbedReplies(p, w, 0), |w.elemKeys|)
    ensures Fine(OutputsFrom(p, 0), OutputReplies(p, w, 0), |w.elemKeys|)
  {
    hide ValidPlan, Within, PerturbedFrom, OutputsFrom, PerturbedReplies, OutputReplies, PerturbedRows, PageData;
    ReadSucceedsIff(p, m, w, n);
    FineParts(PerturbedFrom(p, 0), OutputsFrom(p, 0), PerturbedReplies(p, w, 0), OutputReplies(p, w, 0), |w.elemKeys|);
  }

  // ----- rotated columns -----

  /** The number of pages stored for the column at place `k` of the order. */
  function Stored(p: Plan, k: nat): (n: nat)
    requires ValidPlan(p) && k < |p.order|
  {
    var c := p.perturbed[p.order[k]];
    assert Chunk(p.chunks, c);
    p.chunks[c + 1] - p.chunks[c]
  }

  /** The element that holds page `r` of the column at place `k`. */
  function Element(p: Plan, k: nat, r: nat): (index: nat)
    requires ValidPlan(p) && k < |p.order|
  {
    assert Chunk(p.chunks, p.perturbed[p.order[k]]);
    p.chunks[p.perturbed[p.order[k]]] + r
  }

  /** A request to rotate what is stored under an element key. */
  function Rotate(key: Bytes, decompress: bool): (q: Request) {
    Request([0, 0] + key, Some([if decompress then 1 else 0, 0xFF]))
  }

  /** `page` is the answer to place `i` when page `r` of the three columns of its group is asked for. */
  ghost predicate AnswersPlace(p: Plan, w: Source, i: nat, r: nat, page: Bytes)
    requires ValidPlan(p)
  {
    var a := i - i % 3;
    && a + 2 < |p.order|
    && Element(p, a, r) < |w.elemKeys| && Element(p, a + 1, r) < |w.elemKeys| && Element(p, a + 2, r) < |w.elemKeys|
    && var (x, y, z) := w.server.rotate(Rotate(w.elemKeys[Element(p, a, r)], w.decompress),
                                        Rotate(w.elemKeys[Element(p, a + 1, r)], w.decompress),
                                        Rotate(w.elemKeys[Element(p, a + 2, r)], w.decompress));
       page == if i % 3 == 0 then x else if i % 3 == 1 then y else z
  }

  /** As often as the group is rotated: until the first of its three columns has no page left. */
  predicate IsShortest(p: Plan, i: nat, n: nat)
    requires ValidPlan(p)
  {
    var a := i - i % 3;
    && a + 2 < |p.order|
    && n <= Stored(p, a) && n <= Stored(p, a + 1) && n <= Stored(p, a + 2)
    && (n == Stored(p, a) || n == Stored(p, a + 1) || n == Stored(p, a + 2))
  }

  lemma {:induction false} AskIs(p: Plan, w: Source, k: nat, r: nat)
    requires ValidPlan(p) && k < |p.order| && PlaceSlot(p, k, r).index < |w.elemKeys|
    ensures Element(p, k, r) < |w.elemKeys|
    ensures Ask(w, PlaceSlot(p, k, r)) == Rotate(w.elemKeys[Element(p, k, r)], w.decompress)
  {
  }

  lemma {:induction false} ThreeFine(slots: seq<Slot>, pages: seq<Bytes>, n: nat, j: nat)
    requires |slots| == 3 && j < 3 && Fine(slots, pages, n)
    ensures slots[0].index < n && slots[1].index < n && slots[2].index < n && PageData(slots[j].kind, pages[j]).Some?
  {
    assert FineOne(slots[0], pages[0], n) && FineOne(slots[1], pages[1], n) && FineOne(slots[2], pages[2], n);
  }

  lemma {:induction false} RoundAnswers(p: Plan, w: Source, i: nat, r: nat)
    requires ValidPlan(p) && i < |p.perturbed| && i < |p.order| && i / 3 < Groups(p)
    requires Fine(Round(p, i / 3, r), RoundReplies(p, w, i / 3, r), |w.elemKeys|)
    ensures AnswersPlace(p, w, i, r, RotatedPage(p, w, i, r)) && PageData(Rotated, RotatedPage(p, w, i, r)).Some?
  {
    hide ValidPlan, PageData, Ask, Element, Rotate, PlaceSlot, RoundReplies, Fine;
    var t := i / 3;
    var slots, pages := Round(p, t, r), RoundReplies(p, w, t, r);
    ThreeFine(slots, pages, |w.elemKeys|, i % 3);
    assert i - i % 3 == 3 * t;
    AskIs(p, w, 3 * t, r);
    AskIs(p, w, 3 * t + 1, r);
    AskIs(p, w, 3 * t + 2, r);
    OnePlaceOfThree(p, w, i, r);
  }

  lemma {:induction false} OnePlaceOfThree(p: Plan, w: Source, i: nat, r: nat)
    requires ValidPlan(p) && i < |p.perturbed| && i < |p.order| && i / 3 < Groups(p)
    ensures Round(p, i / 3, r)[i % 3].kind == Rotated
    ensures RoundReplies(p, w, i / 3, r)[i % 3] == RotatedPage(p, w, i, r)
  {
    hide ValidPlan, RotatedPage, Column;
    var t := i / 3;
    assert i == 3 * t + i % 3 && (i % 3 == 0 || i % 3 == 1 || i % 3 == 2);
  }

  /** The pages of a rotated column from page `r` on. */
  function PagesFrom(p: Plan, w: Source, i: nat, r: nat): (pages: seq<Bytes>)
    requires ValidPlan(p) && i / 3 < Groups(p) && r <= Rounds(p, i / 3)
  {
    seq(Rounds(p, i / 3) - r, k requires 0 <= k => RotatedPage(p, w, i, r + k))
  }

  lemma {:induction false} FlatRotated(p: Plan, w: Source, i: nat, r: nat)
    requires ValidPlan(p) && i / 3 < Groups(p) && r <= Rounds(p, i / 3)
    requires forall q :: r <= q < Rounds(p, i / 3) ==> PageData(Rotated, RotatedPage(p, w, i, q)).Some?
    ensures Flat(RotatedFrom(p, w, i, r)) == Joined(PagesFrom(p, w, i, r))
    decreases Rounds(p, i / 3) - r
  {
    hide ValidPlan, PageData, Rounds, RotatedPage, Data, Flat;
    if r < Rounds(p, i / 3) {
      var page := RotatedPage(p, w, i, r);
      FlatRotated(p, w, i, r + 1);
      FlatJoins(Data(Rotated, page), RotatedFrom(p, w, i, r + 1));
      FlatData(Rotated, page);
      assert Contents(Rotated, page) == page;
      assert PagesFrom(p, w, i, r)[1..] == PagesFrom(p, w, i, r + 1);
    } else {
      FlatNothing();
    }
  }

  lemma {:induction false} FlatNothing()
    ensures Flat([]) == [] && Joined([]) == []
  {
  }

  /** A rotated column holds, byte for byte, the answers to round 0, 1, 2, ...: in round `r` page `r` of each of the
      three columns of the group is asked for, until one of them has no page left. */
  lemma {:induction false} RotatedBytes(p: Plan, m: nat, w: Source, n: int, i: nat) returns (pages: seq<Bytes>)
    requires ValidPlan(p) && Within(p, m) && Answers(Replier(w.server)) && i < |p.perturbed|
    requires PerturbedRows(p, m, w.elemKeys, w.decompress, n, Replier(w.server)).Rows?
    ensures i < |p.order| && IsShortest(p, i, |pages|)
    ensures forall r :: 0 <= r < |pages| ==> AnswersPlace(p, w, i, r, pages[r])
    ensures var columns := PerturbedRows(p, m, w.elemKeys, w.decompress, n, Replier(w.server)).columns;
            p.perturbed[p.order[i]] < |columns| && Flat(columns[p.perturbed[p.order[i]]]) == Joined(pages)
  {
    hide ValidPlan, Within, PerturbedRows, RotatedFrom, PageData, RotatedPage, Answers, AnswersPlace, Rounds, Flat,
         Joined;
    InGroup(p, i);
    InsideTable(p, m, i);
    ColumnInPlan(p, i);
    PerturbedReadDelivers(p, m, w, n, Column(p, i));
    forall r | 0 <= r < Rounds(p, i / 3)
      ensures AnswersPlace(p, w, i, r, RotatedPage(p, w, i, r)) && PageData(Rotated, RotatedPage(p, w, i, r)).Some?
    {
      PageAnswers(p, m, w, n, i, r);
    }
    FlatRotated(p, w, i, 0);
    pages := PagesFrom(p, w, i, 0);
    assert i - i % 3 == 3 * (i / 3);
    RoundsAre(p, i / 3);
  }

  /** When the three columns of its group have equally many pages, a column gets an answer for every element of its
      own, in order and each once. */
  lemma {:induction false} EqualPagesAllBytes(p: Plan, m: nat, w: Source, n: int, i: nat) returns (pages: seq<Bytes>)
    requires ValidPlan(p) && Within(p, m) && Answers(Replier(w.server)) && i < |p.perturbed|
    requires i < |p.order| && i - i % 3 + 2 < |p.order|
    requires Stored(p, i - i % 3) == Stored(p, i - i % 3 + 1) == Stored(p, i - i % 3 + 2)
    requires PerturbedRows(p, m, w.elemKeys, w.decompress, n, Replier(w.server)).Rows?
    ensures var c := p.perturbed[p.order[i]]; Chunk(p.chunks, c) && |pages| == p.chunks[c + 1] - p.chunks[c]
    ensures var c := p.perturbed[p.order[i]]; Elements(Slots(p), c) == Span(p.chunks[c], |pages|)
    ensures forall r :: 0 <= r < |pages| ==> AnswersPlace(p, w, i, r, pages[r])
    ensures var columns := PerturbedRows(p, m, w.elemKeys, w.decompress, n, Replier(w.server)).columns;
            p.perturbed[p.order[i]] < |columns| && Flat(columns[p.perturbed[p.order[i]]]) == Joined(pages)
  {
    hide PerturbedRows, Answers, Within, Slots, Elements, Span, AnswersPlace, Flat, Joined, Rounds, Stored, ValidPlan;
    ElementsAsked(p, i, 0);
    pages := RotatedBytes(p, m, w, n, i);
    assert i == i - i % 3 || i == i - i % 3 + 1 || i == i - i % 3 + 2;
    StoredIs(p, i);
  }

  lemma {:induction false} StoredIs(p: Plan, i: nat)
    requires ValidPlan(p) && i < |p.order|
    ensures var c := p.perturbed[p.order[i]];
            Chunk(p.chunks, c) && Stored(p, i) == p.chunks[c + 1] - p.chunks[c] && Element(p, i, 0) == p.chunks[c]
  {
    assert Chunk(p.chunks, p.perturbed[p.order[i]]);
  }

  lemma {:induction false} PageAnswers(p: Plan, m: nat, w: Source, n: int, i: nat, r: nat)
    requires ValidPlan(p) && Within(p, m) && Answers(Replier(w.server)) && i < |p.perturbed|
    requires i < |p.order| && i / 3 < Groups(p) && r < Rounds(p, i / 3)
    requires PerturbedRows(p, m, w.elemKeys, w.decompress, n, Replier(w.server)).Rows?
    ensures AnswersPlace(p, w, i, r, RotatedPage(p, w, i, r)) && PageData(Rotated, RotatedPage(p, w, i, r)).Some?
  {
    hide *;
    ReadIsFine(p, m, w, n);
    NoGroupBefore(p, i);
    FineGroup(p, w, 0, i / 3, |w.elemKeys|);
    FineRound(p, w, i / 3, 0, r, |w.elemKeys|);
    RoundAnswers(p, w, i, r);
  }

  lemma {:induction false} NoGroupBefore(p: Plan, i: nat)
    requires i / 3 < Groups(p)
    ensures 0 < Groups(p) && 0 <= i / 3
  {
  }

  // ----- output columns -----

  /** `page` is the answer when page `v` of output column `c` is asked for. */
  ghost predicate AnswersPage(p: Plan, w: Source, c: nat, v: nat, page: Bytes)
    requires Chunk(p.chunks, c)
  {
    && p.chunks[c] + v < |w.elemKeys|
    && page == w.server.single(Request([0, 0] + w.elemKeys[p.chunks[c] + v],
                                       if w.decompress then Some([1, 0]) else None))
  }

  function BodiesFrom(p: Plan, w: Source, c: nat, v: nat): (bodies: seq<Bytes>)
    requires Chunk(p.chunks, c) && v <= Size(p.chunks, c)
  {
    seq(Size(p.chunks, c) - v, k requires 0 <= k => Contents(Plain, PlainPage(p, w, c, v + k)))
  }

  lemma {:induction false} FlatPlain(p: Plan, w: Source, c: nat, v: nat)
    requires Chunk(p.chunks, c) && v <= Size(p.chunks, c)
    requires forall q :: v <= q < Size(p.chunks, c) ==> PageData(Plain, PlainPage(p, w, c, q)).Some?
    ensures Flat(PlainFrom(p, w, c, v)) == Joined(BodiesFrom(p, w, c, v))
    decreases Size(p.chunks, c) - v
  {
    hide PageData, PlainPage, Data, Contents, Flat;
    if v < Size(p.chunks, c) {
      FlatPlain(p, w, c, v + 1);
      FlatJoins(Data(Plain, PlainPage(p, w, c, v)), PlainFrom(p, w, c, v + 1));
      FlatData(Plain, PlainPage(p, w, c, v));
      assert BodiesFrom(p, w, c, v)[1..] == BodiesFrom(p, w, c, v + 1);
    } else {
      FlatNothing();
    }
  }

  /** An output column holds all its pages in order, byte for byte without their headers. */
  lemma {:induction false} OutputBytes(p: Plan, m: nat, w: Source, n: int, o: nat) returns (pages: seq<Bytes>)
    requires ValidPlan(p) && Within(p, m) && Answers(Replier(w.server)) && o < |p.outputs|
    requires PerturbedRows(p, m, w.elemKeys, w.decompress, n, Replier(w.server)).Rows?
    ensures Chunk(p.chunks, p.outputs[o])
    ensures |pages| == p.chunks[p.outputs[o] + 1] - p.chunks[p.outputs[o]]
    ensures forall v :: 0 <= v < |pages| ==> AnswersPage(p, w, p.outputs[o], v, pages[v])
    ensures var columns := PerturbedRows(p, m, w.elemKeys, w.decompress, n, Replier(w.server)).columns;
            p.outputs[o] < |columns|
            && Flat(columns[p.outputs[o]])
                 == Joined(seq(|pages|, v requires 0 <= v < |pages| => Contents(Plain, pages[v])))
  {
    hide PerturbedRows, PlainFrom, Fine, PageData, Answers, ColumnFrom, ColumnReplies, OutputsFrom, OutputReplies,
         Flat, Joined, Contents;
    var c := p.outputs[o];
    PerturbedReadDelivers(p, m, w, n, c);
    ReadIsFine(p, m, w, n);
    FineColumn(p, w, 0, o, |w.elemKeys|);
    forall v | 0 <= v < Size(p.chunks, c)
      ensures AnswersPage(p, w, c, v, PlainPage(p, w, c, v)) && PageData(Plain, PlainPage(p, w, c, v)).Some?
    {
      FinePage(p, w, c, 0, v, |w.elemKeys|);
    }
    FlatPlain(p, w, c, 0);
    pages := seq(Size(p.chunks, c), v requires 0 <= v => PlainPage(p, w, c, v));
    assert BodiesFrom(p, w, c, 0) == seq(|pages|, v requires 0 <= v < |pages| => Contents(Plain, pages[v]));
  }
}
