/** What ends up in each column of a perturbed read, in terms of the pages that the server rotates. */
module PerturbedTheorem {
  import opened ColumnPages
  import opened BulkGet
  import opened Permutations
  import opened PerturbedSlots
  import opened PerturbedReader
  import RotatedData

  /** The stored table as a reader sees it: the element keys of its array, whether pages are to be
      decompressed, and the server. */
  datatype Source = Source(elemKeys: seq<Bytes>, decompress: bool, server: Server)

  function Ask(w: Source, slot: Slot): (q: Request) {
    RequestOf(if slot.index < |w.elemKeys| then w.elemKeys[slot.index] else [], slot.kind != Plain, w.decompress)
  }

  function AskAll(w: Source, slots: seq<Slot>): (qs: seq<Request>)
    ensures |qs| == |slots|
  {
    seq(|slots|, i requires 0 <= i < |slots| => Ask(w, slots[i]))
  }

  /** Page `r` of the column at place `i`, rotated with page `r` of the two other columns of its group. */
  function RotatedPage(p: Plan, w: Source, i: nat, r: nat): (page: Bytes)
    requires ValidPlan(p) && i / 3 < Groups(p)
  {
    var t := i / 3;
    var (a, b, c) := w.server.rotate(Ask(w, PlaceSlot(p, 3 * t, r)), Ask(w, PlaceSlot(p, 3 * t + 1, r)),
          Ask(w, PlaceSlot(p, 3 * t + 2, r)));
    if i % 3 == 0 then a else if i % 3 == 1 then b else c
  }

  /** The rotated entries of the column at place `i`, from page `r` on. */
  function RotatedFrom(p: Plan, w: Source, i: nat, r: nat): (es: seq<Entry>)
    requires ValidPlan(p) && i / 3 < Groups(p) && r <= Rounds(p, i / 3)
    decreases Rounds(p, i / 3) - r
  {
    if r == Rounds(p, i / 3) then [] else Data(Rotated, RotatedPage(p, w, i, r)) + RotatedFrom(p, w, i, r + 1)
  }

  function PlainPage(p: Plan, w: Source, c: nat, v: nat): (page: Bytes)
    requires Chunk(p.chunks, c)
  {
    w.server.single(Ask(w, Slot(c, v, p.chunks[c] + v, Plain)))
  }

  /** The entries of column `c` as stored, from page `v` on. */
  function PlainFrom(p: Plan, w: Source, c: nat, v: nat): (es: seq<Entry>)
    requires Chunk(p.chunks, c) && v <= Size(p.chunks, c)
    decreases Size(p.chunks, c) - v
  {
    if v == Size(p.chunks, c) then [] else Data(Plain, PlainPage(p, w, c, v)) + PlainFrom(p, w, c, v + 1)
  }

  // ----- the replies, slot by slot -----

  function RoundReplies(p: Plan, w: Source, t: nat, r: nat): (rs: seq<Bytes>)
    requires ValidPlan(p) && t < Groups(p)
    ensures |rs| == 3
  {
    [RotatedPage(p, w, 3 * t, r), RotatedPage(p, w, 3 * t + 1, r), RotatedPage(p, w, 3 * t + 2, r)]
  }

  function GroupReplies(p: Plan, w: Source, t: nat, r: nat): (rs: seq<Bytes>)
    requires ValidPlan(p) && t < Groups(p) && r <= Rounds(p, t)
    ensures |rs| == |GroupFrom(p, t, r)|
    decreases Rounds(p, t) - r
  {
    if r == Rounds(p, t) then [] else RoundReplies(p, w, t, r) + GroupReplies(p, w, t, r + 1)
  }

  function PerturbedReplies(p: Plan, w: Source, t: nat): (rs: seq<Bytes>)
    requires ValidPlan(p) && t <= Groups(p)
    ensures |rs| == |PerturbedFrom(p, t)|
    decreases Groups(p) - t
  {
    if t == Groups(p) then [] else GroupReplies(p, w, t, 0) + PerturbedReplies(p, w, t + 1)
  }

  function ColumnReplies(p: Plan, w: Source, c: nat, v: nat): (rs: seq<Bytes>)
    requires Chunk(p.chunks, c) && v <= Size(p.chunks, c)
    ensures |rs| == |ColumnFrom(p, c, v)|
    decreases Size(p.chunks, c) - v
  {
    if v == Size(p.chunks, c) then [] else [PlainPage(p, w, c, v)] + ColumnReplies(p, w, c, v + 1)
  }

  function OutputReplies(p: Plan, w: Source, o: nat): (rs: seq<Bytes>)
    requires ValidPlan(p) && o <= |p.outputs|
    ensures |rs| == |OutputsFrom(p, o)|
    decreases |p.outputs| - o
  {
    if o == |p.outputs| then [] else ColumnReplies(p, w, p.outputs[o], 0) + OutputReplies(p, w, o + 1)
  }

  function Somes(rs: seq<Bytes>): (os: seq<Option<Bytes>>)
    ensures |os| == |rs|
  {
    seq(|rs|, i requires 0 <= i < |rs| => Some(rs[i]))
  }

  lemma {:induction false} SomesPresent(rs: seq<Bytes>)
    ensures FirstMissing(Somes(rs)) == |rs| && Present(Somes(rs)) == rs
  {
    MissingIs(Somes(rs), |rs|);
  }

  lemma {:induction false} SomesJoin(a: seq<Bytes>, b: seq<Bytes>)
    ensures Somes(a + b) == Somes(a) + Somes(b)
  {
  }

  lemma {:induction false} AskJoins(w: Source, a: seq<Slot>, b: seq<Slot>)
    ensures AskAll(w, a + b) == AskAll(w, a) + AskAll(w, b)
  {
  }

  /** Three requests in a row for the columns of a group are answered together. */
  lemma {:induction false} ServeRound(p: Plan, w: Source, t: nat, r: nat, rest: seq<Slot>)
    requires ValidPlan(p) && t < Groups(p)
    ensures Serve(w.server, AskAll(w, Round(p, t, r) + rest))
          == Somes(RoundReplies(p, w, t, r)) + Serve(w.server, AskAll(w, rest))
  {
    var rs := AskAll(w, Round(p, t, r) + rest);
    AskJoins(w, Round(p, t, r), rest);
    AskRound(p, w, t, r);
    hide Serve, AskAll, Ask, PlaceSlot, ValidPlan, Round;
    assert rs[3..] == AskAll(w, rest);
    ServeTriplet(w.server, rs);
    RoundRepliesAre(p, w, t, r);
  }

  lemma {:induction false} AskRound(p: Plan, w: Source, t: nat, r: nat)
    requires ValidPlan(p) && t < Groups(p)
    ensures AskAll(w, Round(p, t, r))
          == [Ask(w, PlaceSlot(p, 3 * t, r)), Ask(w, PlaceSlot(p, 3 * t + 1, r)), Ask(w, PlaceSlot(p, 3 * t + 2, r))]
    ensures Perturbed(Ask(w, PlaceSlot(p, 3 * t, r))) && Perturbed(Ask(w, PlaceSlot(p, 3 * t + 1, r)))
    ensures Perturbed(Ask(w, PlaceSlot(p, 3 * t + 2, r)))
  {
  }

  lemma {:induction false} RoundRepliesAre(p: Plan, w: Source, t: nat, r: nat)
    requires ValidPlan(p) && t < Groups(p)
    ensures var x := w.server.rotate(Ask(w, PlaceSlot(p, 3 * t, r)), Ask(w, PlaceSlot(p, 3 * t + 1, r)),
          Ask(w, PlaceSlot(p, 3 * t + 2, r)));
            Somes(RoundReplies(p, w, t, r)) == [Some(x.0), Some(x.1), Some(x.2)]
  {
    hide ValidPlan, Ask, PlaceSlot;
    assert (3 * t) / 3 == t && (3 * t + 1) / 3 == t && (3 * t + 2) / 3 == t;
    assert (3 * t) % 3 == 0 && (3 * t + 1) % 3 == 1 && (3 * t + 2) % 3 == 2;
  }

  lemma {:induction false} ServeGroup(p: Plan, w: Source, t: nat, r: nat, rest: seq<Slot>)
    requires ValidPlan(p) && t < Groups(p) && r <= Rounds(p, t)
    ensures Serve(w.server, AskAll(w, GroupFrom(p, t, r) + rest))
          == Somes(GroupReplies(p, w, t, r)) + Serve(w.server, AskAll(w, rest))
    decreases Rounds(p, t) - r
  {
    hide Serve, AskAll, ValidPlan, Round, RoundReplies, Rounds, Somes;
    if r == Rounds(p, t) {
      assert GroupFrom(p, t, r) + rest == rest;
      SomesNone();
    } else {
      var later := GroupFrom(p, t, r + 1) + rest;
      assert GroupFrom(p, t, r) + rest == Round(p, t, r) + later;
      ServeRound(p, w, t, r, later);
      ServeGroup(p, w, t, r + 1, rest);
      SomesJoin(RoundReplies(p, w, t, r), GroupReplies(p, w, t, r + 1));
    }
  }

  lemma {:induction false} SomesNone()
    ensures Somes([]) == []
  {
  }

  lemma {:induction false} ServePerturbed(p: Plan, w: Source, t: nat, rest: seq<Slot>)
    requires ValidPlan(p) && t <= Groups(p)
    ensures Serve(w.server, AskAll(w, PerturbedFrom(p, t) + rest))
          == Somes(PerturbedReplies(p, w, t)) + Serve(w.server, AskAll(w, rest))
    decreases Groups(p) - t
  {
    hide *;
    if t == Groups(p) {
      NoGroup(p);
      NoReplies(p, w);
      assert PerturbedFrom(p, t) + rest == rest;
      SomesNone();
    } else {
      var later := PerturbedFrom(p, t + 1) + rest;
      PerturbedStep(p, t);
      RepliesStep(p, w, t);
      assert PerturbedFrom(p, t) + rest == GroupFrom(p, t, 0) + later;
      ServeGroup(p, w, t, 0, later);
      ServePerturbed(p, w, t + 1, rest);
      SomesJoin(GroupReplies(p, w, t, 0), PerturbedReplies(p, w, t + 1));
    }
  }

  lemma {:induction false} NoReplies(p: Plan, w: Source)
    requires ValidPlan(p)
    ensures PerturbedReplies(p, w, Groups(p)) == []
  {
  }

  lemma {:induction false} RepliesStep(p: Plan, w: Source, t: nat)
    requires ValidPlan(p) && t < Groups(p)
    ensures PerturbedReplies(p, w, t) == GroupReplies(p, w, t, 0) + PerturbedReplies(p, w, t + 1)
  {
  }

  lemma {:induction false} ServeOne(w: Source, slot: Slot, rest: seq<Slot>)
    requires slot.kind == Plain
    ensures Serve(w.server, AskAll(w, [slot] + rest))
          == [Some(w.server.single(Ask(w, slot)))] + Serve(w.server, AskAll(w, rest))
  {
    assert AskAll(w, [slot] + rest)[1..] == AskAll(w, rest);
  }

  lemma {:induction false} ServeColumn(p: Plan, w: Source, c: nat, v: nat, rest: seq<Slot>)
    requires Chunk(p.chunks, c) && v <= Size(p.chunks, c)
    ensures Serve(w.server, AskAll(w, ColumnFrom(p, c, v) + rest))
          == Somes(ColumnReplies(p, w, c, v)) + Serve(w.server, AskAll(w, rest))
    decreases Size(p.chunks, c) - v
  {
    hide Serve, AskAll, Ask;
    if v == Size(p.chunks, c) {
      assert ColumnFrom(p, c, v) + rest == rest;
    } else {
      var slot := Slot(c, v, p.chunks[c] + v, Plain);
      var later := ColumnFrom(p, c, v + 1) + rest;
      assert ColumnFrom(p, c, v) + rest == [slot] + later;
      ServeOne(w, slot, later);
      ServeColumn(p, w, c, v + 1, rest);
      assert Somes(ColumnReplies(p, w, c, v)) == [Some(PlainPage(p, w, c, v))] + Somes(ColumnReplies(p, w, c, v + 1));
    }
  }

  lemma {:induction false} ServeOutputs(p: Plan, w: Source, o: nat)
    requires ValidPlan(p) && o <= |p.outputs|
    ensures Serve(w.server, AskAll(w, OutputsFrom(p, o))) == Somes(OutputReplies(p, w, o))
    decreases |p.outputs| - o
  {
    if o < |p.outputs| {
      hide Serve, AskAll, ColumnFrom, ColumnReplies, Somes;
      ServeColumn(p, w, p.outputs[o], 0, OutputsFrom(p, o + 1));
      ServeOutputs(p, w, o + 1);
      SomesJoin(ColumnReplies(p, w, p.outputs[o], 0), OutputReplies(p, w, o + 1));
    }
  }

  function AllReplies(p: Plan, w: Source): (rs: seq<Bytes>)
    requires ValidPlan(p)
    ensures |rs| == |Slots(p)|
  {
    PerturbedReplies(p, w, 0) + OutputReplies(p, w, 0)
  }

  lemma {:induction false} ServeSlots(p: Plan, w: Source)
    requires ValidPlan(p)
    ensures Serve(w.server, AskAll(w, Slots(p))) == Somes(AllReplies(p, w))
  {
    hide Serve, AskAll, ValidPlan, PerturbedFrom, OutputsFrom, PerturbedReplies, OutputReplies, Somes;
    ServePerturbed(p, w, 0, OutputsFrom(p, 0));
    ServeOutputs(p, w, 0);
    SomesJoin(PerturbedReplies(p, w, 0), OutputReplies(p, w, 0));
  }

  // ----- the requests that are sent are the ones for the slots -----

  predicate AllOf(slots: seq<Slot>, plain: bool) {
    forall i :: 0 <= i < |slots| ==> (slots[i].kind == Plain) == plain
  }

  lemma {:induction false} GroupNotPlain(p: Plan, t: nat, r: nat)
    requires ValidPlan(p) && t < Groups(p) && r <= Rounds(p, t)
    ensures AllOf(GroupFrom(p, t, r), false)
    decreases Rounds(p, t) - r
  {
    hide ValidPlan, Column, Rounds;
    if r < Rounds(p, t) {
      GroupNotPlain(p, t, r + 1);
    }
  }

  lemma {:induction false} PerturbedNotPlain(p: Plan, t: nat)
    requires ValidPlan(p) && t <= Groups(p)
    ensures AllOf(PerturbedFrom(p, t), false)
    decreases Groups(p) - t
  {
    hide ValidPlan, GroupFrom;
    if t < Groups(p) {
      GroupNotPlain(p, t, 0);
      PerturbedNotPlain(p, t + 1);
    }
  }

  lemma {:induction false} ColumnPlain(p: Plan, c: nat, v: nat)
    requires Chunk(p.chunks, c) && v <= Size(p.chunks, c)
    ensures AllOf(ColumnFrom(p, c, v), true)
    decreases Size(p.chunks, c) - v
  {
    if v < Size(p.chunks, c) {
      ColumnPlain(p, c, v + 1);
    }
  }

  lemma {:induction false} OutputsPlain(p: Plan, o: nat)
    requires ValidPlan(p) && o <= |p.outputs|
    ensures AllOf(OutputsFrom(p, o), true)
    decreases |p.outputs| - o
  {
    hide ColumnFrom;
    if o < |p.outputs| {
      ColumnPlain(p, p.outputs[o], 0);
      OutputsPlain(p, o + 1);
    }
  }

  lemma {:induction false} SentAreAsked(p: Plan, w: Source, keys: seq<Bytes>)
    requires ValidPlan(p) && KeysOf(Slots(p), w.elemKeys, []) == Built(keys)
    ensures |keys| == |Slots(p)| && Requests(keys, |PerturbedFrom(p, 0)|, w.decompress) == AskAll(w, Slots(p))
  {
    hide ValidPlan, KeysOf, PerturbedFrom, OutputsFrom, RequestOf;
    KeysAre(Slots(p), w.elemKeys, []);
    PerturbedNotPlain(p, 0);
    OutputsPlain(p, 0);
    var slots, cond := Slots(p), |PerturbedFrom(p, 0)|;
    forall i | 0 <= i < |slots|
      ensures Requests(keys, cond, w.decompress)[i] == Ask(w, slots[i])
    {
      assert keys[0 + i] == w.elemKeys[slots[i].index];
      if i < cond {
        assert slots[i] == PerturbedFrom(p, 0)[i];
      } else {
        assert slots[i] == OutputsFrom(p, 0)[i - cond];
      }
    }
  }

  // ----- what one column gets -----

  lemma {:induction false} DataJoins(a: seq<Slot>, b: seq<Slot>, pa: seq<Bytes>, pb: seq<Bytes>, c: nat)
    requires |a| == |pa| && |b| <= |pb|
    ensures ColumnData(a + b, pa + pb, c) == ColumnData(a, pa, c) + ColumnData(b, pb, c)
    decreases |a|
  {
    hide Data, ColumnData;
    if a == [] {
      NoPages(c);
      assert a + b == b && pa + pb == pb;
    } else {
      DataFirst(a, pa, c);
      DataFirst(a + b, pa + pb, c);
      DataJoins(a[1..], b, pa[1..], pb, c);
      assert (a + b)[1..] == a[1..] + b && (pa + pb)[1..] == pa[1..] + pb;
    }
  }

  lemma {:induction false} NoPages(c: nat)
    ensures ColumnData([], [], c) == []
  {
  }

  lemma {:induction false} DataFirst(slots: seq<Slot>, pages: seq<Bytes>, c: nat)
    requires slots != [] && |slots| <= |pages|
    ensures ColumnData(slots, pages, c)
         == (if slots[0].column == c then Data(slots[0].kind, pages[0]) else []) + ColumnData(slots[1..], pages[1..], c)
  {
  }

  lemma {:induction false} NoneOf(slots: seq<Slot>, pages: seq<Bytes>, c: nat)
    requires |slots| <= |pages| && forall i :: 0 <= i < |slots| ==> slots[i].column != c || slots[i].kind == Padding
    ensures ColumnData(slots, pages, c) == []
    decreases |slots|
  {
    if slots != [] {
      NoneOf(slots[1..], pages[1..], c);
    }
  }

  /** The page for place `3 * t + j` is taken by that place alone. */
  lemma {:induction false} OnlyPlace(p: Plan, c: nat, i: nat, k: nat, r: nat)
    requires ValidPlan(p) && i < |p.perturbed| && c == Column(p, i) && k < |p.order|
    ensures var s := PlaceSlot(p, k, r);
            if k == i then s.column == c && s.kind == Rotated else s.column != c || s.kind == Padding
  {
    if k < |p.perturbed| && k != i {
      PlacesDiffer(p, i, k);
    }
  }

  lemma {:induction false} ThreeData(s: seq<Slot>, pages: seq<Bytes>, c: nat)
    requires |s| == 3 == |pages|
    ensures ColumnData(s, pages, c)
         == (if s[0].column == c then Data(s[0].kind, pages[0]) else [])
          + (if s[1].column == c then Data(s[1].kind, pages[1]) else [])
          + (if s[2].column == c then Data(s[2].kind, pages[2]) else [])
  {
    hide Data, ColumnData;
    assert s[1..][1..] == s[2..] && pages[1..][1..] == pages[2..] && s[2..][1..] == [] && pages[2..][1..] == [];
    DataFirst(s, pages, c);
    DataFirst(s[1..], pages[1..], c);
    DataFirst(s[2..], pages[2..], c);
    NoPages(c);
  }

  lemma {:induction false} PaddingGivesNothing()
    ensures forall page :: Data(Padding, page) == []
  {
  }

  /** What place `k` adds to the column at place `i`. */
  lemma {:induction false} PlaceData(p: Plan, c: nat, i: nat, k: nat, r: nat, page: Bytes)
    requires ValidPlan(p) && i < |p.perturbed| && i < |p.order| && c == Column(p, i) && k < |p.order|
    ensures var s := PlaceSlot(p, k, r);
            (if s.column == c then Data(s.kind, page) else []) == if k == i then Data(Rotated, page) else []
  {
    hide ValidPlan, Column;
    OnlyPlace(p, c, i, k, r);
    PaddingGivesNothing();
  }

  lemma {:induction false} RoundData(p: Plan, w: Source, c: nat, i: nat, t: nat, r: nat)
    requires ValidPlan(p) && i < |p.perturbed| && i < |p.order| && c == Column(p, i) && t < Groups(p)
    ensures ColumnData(Round(p, t, r), RoundReplies(p, w, t, r), c)
          == if i / 3 == t then Data(Rotated, RotatedPage(p, w, i, r)) else []
  {
    hide ColumnData, ValidPlan, PlaceSlot, RotatedPage, Column, Data;
    PlaceData(p, c, i, 3 * t, r, RotatedPage(p, w, 3 * t, r));
    PlaceData(p, c, i, 3 * t + 1, r, RotatedPage(p, w, 3 * t + 1, r));
    PlaceData(p, c, i, 3 * t + 2, r, RotatedPage(p, w, 3 * t + 2, r));
    ThreeData(Round(p, t, r), RoundReplies(p, w, t, r), c);
    assert i / 3 == t <==> i == 3 * t || i == 3 * t + 1 || i == 3 * t + 2;
  }

  lemma {:induction false} GroupData(p: Plan, w: Source, c: nat, i: nat, t: nat, r: nat)
    requires ValidPlan(p) && i < |p.perturbed| && i < |p.order| && c == Column(p, i) && t < Groups(p)
          && r <= Rounds(p, t)
    ensures ColumnData(GroupFrom(p, t, r), GroupReplies(p, w, t, r), c)
          == if i / 3 == t then RotatedFrom(p, w, i, r) else []
    decreases Rounds(p, t) - r
  {
    hide ColumnData, ValidPlan, Round, RoundReplies, Rounds, Data, Column;
    if r == Rounds(p, t) {
      NoneOf([], [], c);
    } else {
      RoundData(p, w, c, i, t, r);
      GroupData(p, w, c, i, t, r + 1);
      DataJoins(Round(p, t, r), GroupFrom(p, t, r + 1), RoundReplies(p, w, t, r), GroupReplies(p, w, t, r + 1), c);
    }
  }

  lemma {:induction false} InGroup(p: Plan, i: nat)
    requires ValidPlan(p) && i < |p.perturbed|
    ensures i < |p.order| && i / 3 < Groups(p)
  {
  }

  lemma {:induction false} PerturbedData(p: Plan, w: Source, c: nat, i: nat, t: nat)
    requires ValidPlan(p) && i < |p.perturbed| && i < |p.order| && c == Column(p, i) && t <= Groups(p)
    ensures i / 3 < Groups(p)
    ensures ColumnData(PerturbedFrom(p, t), PerturbedReplies(p, w, t), c)
          == if i / 3 >= t then RotatedFrom(p, w, i, 0) else []
    decreases Groups(p) - t
  {
    hide ColumnData, ValidPlan, GroupFrom, GroupReplies, RotatedFrom, Column, Rounds;
    InGroup(p, i);
    if t == Groups(p) {
      NoneOf([], [], c);
    } else {
      GroupData(p, w, c, i, t, 0);
      PerturbedData(p, w, c, i, t + 1);
      DataJoins(GroupFrom(p, t, 0), PerturbedFrom(p, t + 1), GroupReplies(p, w, t, 0), PerturbedReplies(p, w, t + 1),
            c);
    }
  }

  // ----- columns that are not rotated -----

  predicate Foreign(slots: seq<Slot>, c: nat) {
    forall i :: 0 <= i < |slots| ==> slots[i].column != c
  }

  lemma {:induction false} GroupForeign(p: Plan, c: nat, t: nat, r: nat)
    requires ValidPlan(p) && c !in p.perturbed && t < Groups(p) && r <= Rounds(p, t)
    ensures Foreign(GroupFrom(p, t, r), c)
    decreases Rounds(p, t) - r
  {
    hide ValidPlan, Column, Rounds;
    if r < Rounds(p, t) {
      ColumnInPlan(p, 3 * t);
      ColumnInPlan(p, 3 * t + 1);
      ColumnInPlan(p, 3 * t + 2);
      GroupForeign(p, c, t, r + 1);
    }
  }

  lemma {:induction false} PerturbedForeign(p: Plan, c: nat, t: nat)
    requires ValidPlan(p) && c !in p.perturbed && t <= Groups(p)
    ensures Foreign(PerturbedFrom(p, t), c)
    decreases Groups(p) - t
  {
    hide ValidPlan, GroupFrom;
    if t < Groups(p) {
      GroupForeign(p, c, t, 0);
      PerturbedForeign(p, c, t + 1);
    }
  }

  lemma {:induction false} PlainColumn(p: Plan, w: Source, d: nat, v: nat, c: nat)
    requires Chunk(p.chunks, d) && v <= Size(p.chunks, d)
    ensures ColumnData(ColumnFrom(p, d, v), ColumnReplies(p, w, d, v), c)
          == if c == d then PlainFrom(p, w, c, v) else []
    decreases Size(p.chunks, d) - v
  {
    hide Data, PlainPage;
    if v < Size(p.chunks, d) {
      PlainColumn(p, w, d, v + 1, c);
      assert ColumnFrom(p, d, v)[1..] == ColumnFrom(p, d, v + 1);
      assert ColumnReplies(p, w, d, v)[1..] == ColumnReplies(p, w, d, v + 1);
    }
  }

  lemma {:induction false} OutputData(p: Plan, w: Source, c: nat, o: nat)
    requires ValidPlan(p) && o <= |p.outputs|
    ensures c in p.outputs ==> Chunk(p.chunks, c)
    ensures ColumnData(OutputsFrom(p, o), OutputReplies(p, w, o), c)
          == if c in p.outputs[o..] then PlainFrom(p, w, c, 0) else []
    decreases |p.outputs| - o
  {
    hide ColumnData, ColumnFrom, ColumnReplies, PlainFrom, ValidPlan;
    OutputHasChunk(p, c);
    if o == |p.outputs| {
      NoneOf([], [], c);
    } else {
      var d := p.outputs[o];
      OutputStep(p, o);
      OutputData(p, w, c, o + 1);
      PlainColumn(p, w, d, 0, c);
      DataJoins(ColumnFrom(p, d, 0), OutputsFrom(p, o + 1), ColumnReplies(p, w, d, 0), OutputReplies(p, w, o + 1), c);
      OutputsOnce(p, o);
      assert p.outputs[o..] == [d] + p.outputs[o + 1..];
    }
  }

  lemma {:induction false} OutputHasChunk(p: Plan, c: nat)
    requires ValidPlan(p)
    ensures c in p.outputs ==> Chunk(p.chunks, c)
  {
  }

  lemma {:induction false} OutputsOnce(p: Plan, o: nat)
    requires ValidPlan(p) && o < |p.outputs|
    ensures p.outputs[o] !in p.outputs[o + 1..]
  {
  }

  // ----- the read -----

  predicate KeysExist(p: Plan, w: Source)
    requires ValidPlan(p)
  {
    forall i :: 0 <= i < |Slots(p)| ==> Slots(p)[i].index < |w.elemKeys|
  }

  /** With a bulk size that is a multiple of three, the pages handed out are the server's replies slot by slot. */
  lemma {:induction false} BulkIsReplies(p: Plan, w: Source, keys: seq<Bytes>, n: int)
    requires ValidPlan(p) && KeysOf(Slots(p), w.elemKeys, []) == Built(keys) && n > 0 && n % 3 == 0
    ensures Answers(Replier(w.server))
    ensures Fetched(keys, |PerturbedFrom(p, 0)|, w.decompress, n, Replier(w.server)) == Values(AllReplies(p, w))
  {
    ThreeEach(p, 0);
    KeysAre(Slots(p), w.elemKeys, []);
    SlotsAre(p);
    hide ValidPlan, Slots, KeysOf, PerturbedFrom, AllReplies, Serve, Present, FirstMissing, Sends, Requests;
    BulkSizeDoesNotMatter(w.server, keys, |PerturbedFrom(p, 0)|, w.decompress, n);
    SentAreAsked(p, w, keys);
    ServeSlots(p, w);
    SomesPresent(AllReplies(p, w));
  }

  lemma {:induction false} GroupOfThree(p: Plan, t: nat, r: nat)
    requires ValidPlan(p) && t < Groups(p) && r <= Rounds(p, t)
    ensures |GroupFrom(p, t, r)| == 3 * (Rounds(p, t) - r)
  {
  }

  lemma {:induction false} ThreeEach(p: Plan, t: nat)
    requires ValidPlan(p) && t <= Groups(p)
    ensures |PerturbedFrom(p, t)| % 3 == 0
    decreases Groups(p) - t
  {
    hide ValidPlan, GroupFrom, Rounds, PerturbedFrom;
    if t == Groups(p) {
      NoGroup(p);
    } else {
      PerturbedStep(p, t);
      GroupOfThree(p, t, 0);
      ThreeEach(p, t + 1);
      SumOfThrees(Rounds(p, t), |PerturbedFrom(p, t + 1)|);
    }
  }

  lemma {:induction false} SumOfThrees(a: nat, b: nat)
    requires b % 3 == 0
    ensures (3 * a + b) % 3 == 0
  {
  }

  /** When a perturbed read succeeds. */
  lemma {:induction false} ReadSucceedsIff(p: Plan, m: nat, w: Source, n: int)
    requires ValidPlan(p) && Within(p, m)
    ensures Answers(Replier(w.server))
    ensures PerturbedRows(p, m, w.elemKeys, w.decompress, n, Replier(w.server)).Rows?
       <==> && KeysExist(p, w) && n > 0 && n % 3 == 0
            && forall i :: 0 <= i < |Slots(p)| ==> PageData(Slots(p)[i].kind, AllReplies(p, w)[i]).Some?
    ensures var r := PerturbedRows(p, m, w.elemKeys, w.decompress, n, Replier(w.server));
            r.Rows? ==> InTable(Slots(p), m) && Spread(Slots(p), AllReplies(p, w), NoData(m)) == Some(r.columns)
  {
    hide ValidPlan, Within, Slots, KeysOf, PerturbedFrom, AllReplies, Serve, Spread, PageData, PerturbedRows,
          HandOut, InTable, Sends;
    var serve := Replier(w.server);
    KeysAre(Slots(p), w.elemKeys, []);
    match KeysOf(Slots(p), w.elemKeys, []) {
      case NoKey(index) => RowsWithoutKey(p, m, w.elemKeys, w.decompress, n, serve, index);
      case Built(keys) =>
        RowsWithKeys(p, m, w.elemKeys, w.decompress, n, serve, keys);
        if n > 0 && n % 3 == 0 {
          BulkIsReplies(p, w, keys, n);
          HandOutIs(p, m, AllReplies(p, w));
          SpreadSucceedsIff(Slots(p), AllReplies(p, w), NoData(m));
        }
    }
  }

  /** A perturbed read gives every rotated column the first pages of that column, in order, each
      rotated with the same pages of its two neighbours; every other column that was asked for comes
      as stored, and what was rotated for padding goes nowhere. */
  lemma {:induction false} PerturbedReadDelivers(p: Plan, m: nat, w: Source, n: int, c: nat)
    requires ValidPlan(p) && Within(p, m) && c < m && Answers(Replier(w.server))
    requires PerturbedRows(p, m, w.elemKeys, w.decompress, n, Replier(w.server)).Rows?
    ensures c in p.outputs ==> Chunk(p.chunks, c)
    ensures var r := PerturbedRows(p, m, w.elemKeys, w.decompress, n, Replier(w.server));
            && |r.columns| == m
            && (forall i :: 0 <= i < |p.perturbed| && i < |p.order| && c == Column(p, i) ==>
                  i / 3 < Groups(p) && r.columns[c] == RotatedFrom(p, w, i, 0))
            && (c in p.outputs ==> r.columns[c] == PlainFrom(p, w, c, 0))
            && (c !in p.perturbed && c !in p.outputs ==> r.columns[c] == [])
  {
    hide ValidPlan, Within, Slots, PerturbedFrom, OutputsFrom, PerturbedReplies, OutputReplies, Spread, PageData,
          PerturbedRows, InTable;
    hide ColumnData, RotatedFrom, PlainFrom, Column, Serve;
    ReadSucceedsIff(p, m, w, n);
    var r := PerturbedRows(p, m, w.elemKeys, w.decompress, n, Replier(w.server));
    SpreadIsColumnData(Slots(p), AllReplies(p, w), NoData(m), c);
    SlotsAre(p);
    DataJoins(PerturbedFrom(p, 0), OutputsFrom(p, 0), PerturbedReplies(p, w, 0), OutputReplies(p, w, 0), c);
    OutputData(p, w, c, 0);
    assert p.outputs[0..] == p.outputs;
    OneRole(p, c);
    assert r.columns[c] == ColumnData(PerturbedFrom(p, 0), PerturbedReplies(p, w, 0), c)
          + ColumnData(OutputsFrom(p, 0), OutputReplies(p, w, 0), c);
    if c !in p.perturbed {
      PerturbedForeign(p, c, 0);
      NoneOf(PerturbedFrom(p, 0), PerturbedReplies(p, w, 0), c);
    }
    forall i | 0 <= i < |p.perturbed| && i < |p.order| && c == Column(p, i)
      ensures i / 3 < Groups(p) && r.columns[c] == RotatedFrom(p, w, i, 0)
    {
      PerturbedData(p, w, c, i, 0);
      ColumnInPlan(p, i);
    }
  }

  lemma {:induction false} OneRole(p: Plan, c: nat)
    requires ValidPlan(p)
    ensures !(c in p.perturbed && c in p.outputs)
  {
  }

  /** Every column to rotate has exactly one place before the padding. */
  lemma {:induction false} EveryColumnHasPlace(p: Plan, c: nat) returns (i: nat)
    requires ValidPlan(p) && c in p.perturbed
    ensures i < |p.perturbed| && i < |p.order| && Column(p, i) == c
    ensures forall j :: 0 <= j < |p.perturbed| && j < |p.order| && Column(p, j) == c ==> j == i
  {
    var k :| 0 <= k < |p.perturbed| && p.perturbed[k] == c;
    i := RotatedData.PlaceOf(p.order, |p.perturbed|, k);
    forall j | 0 <= j < |p.perturbed| && j < |p.order| && Column(p, j) == c
      ensures j == i
    {
      if j != i {
        PlacesDiffer(p, i, j);
      }
    }
  }

  // ----- complete columns -----

  /** The rotated entries of the first `n` pages of the column at place `i`. */
  function RotatedPages(p: Plan, w: Source, i: nat, n: nat): (es: seq<Entry>)
    requires ValidPlan(p) && i / 3 < Groups(p)
  {
    if n == 0 then [] else RotatedPages(p, w, i, n - 1) + Data(Rotated, RotatedPage(p, w, i, n - 1))
  }

  lemma {:induction false} RotatedInTwo(p: Plan, w: Source, i: nat, r: nat)
    requires ValidPlan(p) && i / 3 < Groups(p) && r <= Rounds(p, i / 3)
    ensures RotatedPages(p, w, i, r) + RotatedFrom(p, w, i, r) == RotatedPages(p, w, i, Rounds(p, i / 3))
    decreases Rounds(p, i / 3) - r
  {
    hide ValidPlan, Rounds, RotatedPage, Data;
    if r == Rounds(p, i / 3) {
      assert RotatedPages(p, w, i, r) + [] == RotatedPages(p, w, i, r);
    } else {
      var page := Data(Rotated, RotatedPage(p, w, i, r));
      RotatedInTwo(p, w, i, r + 1);
      assert RotatedPages(p, w, i, r) + (page + RotatedFrom(p, w, i, r + 1))
          == RotatedPages(p, w, i, r) + page + RotatedFrom(p, w, i, r + 1);
    }
  }

  /** The three columns of the group have the same number of pages. */
  predicate EqualPages(p: Plan, t: nat)
    requires ValidPlan(p) && t < Groups(p)
  {
    PlaceSize(p, 3 * t) == PlaceSize(p, 3 * t + 1) && PlaceSize(p, 3 * t + 1) == PlaceSize(p, 3 * t + 2)
  }

  /** With equal page counts in its group, a rotated column is delivered whole: all its pages, each
      once and in order. */
  lemma {:induction false} EqualPagesAllDelivered(p: Plan, m: nat, w: Source, n: int, i: nat)
    requires ValidPlan(p) && Within(p, m) && Answers(Replier(w.server)) && i < |p.perturbed|
    requires PerturbedRows(p, m, w.elemKeys, w.decompress, n, Replier(w.server)).Rows?
    ensures i < |p.order| && i / 3 < Groups(p)
    ensures EqualPages(p, i / 3) ==>
              var r := PerturbedRows(p, m, w.elemKeys, w.decompress, n, Replier(w.server)); var c := Column(p, i);
              c < |r.columns| && r.columns[c] == RotatedPages(p, w, i, PlaceSize(p, i))
  {
    hide ValidPlan, PerturbedRows, Column, RotatedFrom, RotatedPages, Rounds, Answers, PlaceSize;
    InGroup(p, i);
    ColumnInPlan(p, i);
    InsideTable(p, m, i);
    PerturbedReadDelivers(p, m, w, n, Column(p, i));
    if EqualPages(p, i / 3) {
      GroupCompleteIff(p, i / 3);
      RotatedInTwo(p, w, i, 0);
      NothingRotated(p, w, i);
      assert i == 3 * (i / 3) || i == 3 * (i / 3) + 1 || i == 3 * (i / 3) + 2;
    }
  }

  lemma {:induction false} NothingRotated(p: Plan, w: Source, i: nat)
    requires ValidPlan(p) && i / 3 < Groups(p)
    ensures RotatedPages(p, w, i, 0) == [] && [] + RotatedFrom(p, w, i, 0) == RotatedFrom(p, w, i, 0)
  {
  }

  lemma {:induction false} InsideTable(p: Plan, m: nat, i: nat)
    requires ValidPlan(p) && Within(p, m) && i < |p.perturbed| && i < |p.order|
    ensures Column(p, i) < m
  {
    ColumnInPlan(p, i);
    hide ValidPlan, Column;
  }
}
