/** Which stored pages a perturbed read asks for, in which order, and where they go
    (processor.go, `GetPerturbedRows`). */
module PerturbedSlots {
  import opened Arithmetic
  import opened ColumnPages
  import opened Permutations
  import opened BulkGet

  /** The columns to rotate, the columns to read as they are, the order in which the first are
      rotated three by three, and where the pages of each column start. */
  datatype Plan = Plan(perturbed: seq<nat>, outputs: seq<nat>, order: seq<int>, chunks: seq<nat>)

  predicate Chunk(chunks: seq<nat>, c: nat) {
    c + 1 < |chunks| && chunks[c] <= chunks[c + 1]
  }

  predicate NoRepeats(s: seq<nat>) {
    forall i, j :: 0 <= i < j < |s| ==> s[i] != s[j]
  }

  predicate ValidPlan(p: Plan) {
    && NoRepeats(p.perturbed) && NoRepeats(p.outputs)
    && (forall i, o :: 0 <= i < |p.perturbed| && 0 <= o < |p.outputs| ==> p.perturbed[i] != p.outputs[o])
    && (forall i :: 0 <= i < |p.perturbed| ==> Chunk(p.chunks, p.perturbed[i]))
    && (forall o :: 0 <= o < |p.outputs| ==> Chunk(p.chunks, p.outputs[o]))
    && Padded(p.order, |p.perturbed|)
  }

  /** The column at place `i` of the order; places from `|perturbed|` on are padding. */
  function Column(p: Plan, i: nat): (c: nat)
    requires ValidPlan(p) && i < |p.order|
    ensures Chunk(p.chunks, c)
  {
    p.perturbed[p.order[i]]
  }

  function Size(chunks: seq<nat>, c: nat): (n: nat)
    requires Chunk(chunks, c)
  {
    chunks[c + 1] - chunks[c]
  }

  function PlaceSize(p: Plan, i: nat): (n: nat)
    requires ValidPlan(p) && i < |p.order|
  {
    Size(p.chunks, Column(p, i))
  }

  function Groups(p: Plan): (n: nat)
    ensures 3 * n <= |p.order|
  {
    |p.order| / 3
  }

  /** How often three pages can be rotated together: as long as none of the columns has run out. */
  function Rounds(p: Plan, t: nat): (n: nat)
    requires ValidPlan(p) && t < Groups(p)
    ensures n <= PlaceSize(p, 3 * t) && n <= PlaceSize(p, 3 * t + 1) && n <= PlaceSize(p, 3 * t + 2)
    ensures n == PlaceSize(p, 3 * t) || n == PlaceSize(p, 3 * t + 1) || n == PlaceSize(p, 3 * t + 2)
  {
    Min(PlaceSize(p, 3 * t), Min(PlaceSize(p, 3 * t + 1), PlaceSize(p, 3 * t + 2)))
  }

  datatype Kind = Rotated | Padding | Plain

  /** Page `page` of column `column`, stored as element `index` of the array. */
  datatype Slot = Slot(column: nat, page: nat, index: nat, kind: Kind)

  function PlaceSlot(p: Plan, i: nat, r: nat): (s: Slot)
    requires ValidPlan(p) && i < |p.order|
  {
    var c := Column(p, i);
    Slot(c, r, p.chunks[c] + r, if i < |p.perturbed| then Rotated else Padding)
  }

  function Round(p: Plan, t: nat, r: nat): (s: seq<Slot>)
    requires ValidPlan(p) && t < Groups(p)
    ensures |s| == 3
  {
    [PlaceSlot(p, 3 * t, r), PlaceSlot(p, 3 * t + 1, r), PlaceSlot(p, 3 * t + 2, r)]
  }

  function GroupFrom(p: Plan, t: nat, r: nat): (s: seq<Slot>)
    requires ValidPlan(p) && t < Groups(p) && r <= Rounds(p, t)
    ensures |s| == 3 * (Rounds(p, t) - r)
    decreases Rounds(p, t) - r
  {
    if r == Rounds(p, t) then [] else Round(p, t, r) + GroupFrom(p, t, r + 1)
  }

  function PerturbedFrom(p: Plan, t: nat): (s: seq<Slot>)
    requires ValidPlan(p) && t <= Groups(p)
    decreases Groups(p) - t
  {
    if t == Groups(p) then [] else GroupFrom(p, t, 0) + PerturbedFrom(p, t + 1)
  }

  function ColumnFrom(p: Plan, c: nat, v: nat): (s: seq<Slot>)
    requires Chunk(p.chunks, c) && v <= Size(p.chunks, c)
    decreases Size(p.chunks, c) - v
  {
    if v == Size(p.chunks, c) then [] else [Slot(c, v, p.chunks[c] + v, Plain)] + ColumnFrom(p, c, v + 1)
  }

  function OutputsFrom(p: Plan, o: nat): (s: seq<Slot>)
    requires ValidPlan(p) && o <= |p.outputs|
    decreases |p.outputs| - o
  {
    if o == |p.outputs| then [] else ColumnFrom(p, p.outputs[o], 0) + OutputsFrom(p, o + 1)
  }

  function Slots(p: Plan): (s: seq<Slot>)
    requires ValidPlan(p)
  {
    PerturbedFrom(p, 0) + OutputsFrom(p, 0)
  }

  // ----- the keys -----

  datatype Built = Built(keys: seq<Bytes>) | NoKey(index: nat)

  /** The element keys of the slots behind those found so far, or the first index that the array does not have. */
  function KeysOf(slots: seq<Slot>, elemKeys: seq<Bytes>, found: seq<Bytes>): (b: Built)
    decreases |slots|
  {
    if slots == [] then Built(found)
    else if slots[0].index >= |elemKeys| then NoKey(slots[0].index)
    else KeysOf(slots[1..], elemKeys, found + [elemKeys[slots[0].index]])
  }

  // ----- the pages -----

  /** Where the entries of a stored page start; rotated pages have no header. */
  function Body(kind: Kind, page: Bytes): (k: nat) {
    if kind == Plain && page != [] && page[0] == 3 then 7
    else if kind == Plain && page != [] && page[0] == 2 then 6 else 0
  }

  /** The entries a slot's page contributes; nothing for padding, and none at all if the page does
      not consist of eight-byte entries. */
  function PageData(kind: Kind, page: Bytes): (es: Option<seq<Entry>>) {
    if kind == Padding then Some([])
    else if kind == Plain && page == [] then None
    else
      var k := Body(kind, page);
      if k >= |page| then Some([])
      else if (|page| - k) % 8 != 0 then None
      else Some(Entries(page[k..]))
  }

  predicate InTable(slots: seq<Slot>, n: nat) {
    forall i :: 0 <= i < |slots| ==> slots[i].column < n
  }

  /** Every page goes behind what its column has so far. */
  function Spread(slots: seq<Slot>, pages: seq<Bytes>, cols: seq<seq<Entry>>): (r: Option<seq<seq<Entry>>>)
    requires InTable(slots, |cols|) && |slots| <= |pages|
    ensures r.Some? ==> |r.value| == |cols|
    decreases |slots|
  {
    if slots == [] then Some(cols)
    else
      match PageData(slots[0].kind, pages[0])
      case None => None
      case Some(es) => Spread(slots[1..], pages[1..], cols[slots[0].column := cols[slots[0].column] + es])
  }

  // ----- one column of the result -----

  function Data(kind: Kind, page: Bytes): (es: seq<Entry>) {
    match PageData(kind, page)
    case None => []
    case Some(es) => es
  }

  function ColumnData(slots: seq<Slot>, pages: seq<Bytes>, c: nat): (es: seq<Entry>)
    requires |slots| <= |pages|
    decreases |slots|
  {
    if slots == [] then []
    else (if slots[0].column == c then Data(slots[0].kind, pages[0]) else []) + ColumnData(slots[1..], pages[1..], c)
  }

  lemma {:induction false} SpreadIsColumnData(slots: seq<Slot>, pages: seq<Bytes>, cols: seq<seq<Entry>>, c: nat)
    requires InTable(slots, |cols|) && |slots| <= |pages| && c < |cols|
    requires Spread(slots, pages, cols).Some?
    ensures Spread(slots, pages, cols).value[c] == cols[c] + ColumnData(slots, pages, c)
    decreases |slots|
  {
    if slots != [] {
      var es := PageData(slots[0].kind, pages[0]).value;
      var d := slots[0].column;
      var cols' := cols[d := cols[d] + es];
      SpreadIsColumnData(slots[1..], pages[1..], cols', c);
      if c == d {
        assert cols[c] + es + ColumnData(slots[1..], pages[1..], c)
              == cols[c] + (es + ColumnData(slots[1..], pages[1..], c));
      } else {
        assert [] + ColumnData(slots[1..], pages[1..], c) == ColumnData(slots[1..], pages[1..], c);
      }
    }
  }

  /** All pages have the right shape exactly when the read succeeds. */
  lemma {:induction false} SpreadSucceedsIff(slots: seq<Slot>, pages: seq<Bytes>, cols: seq<seq<Entry>>)
    requires InTable(slots, |cols|) && |slots| <= |pages|
    ensures Spread(slots, pages, cols).Some?
          <==> forall i :: 0 <= i < |slots| ==> PageData(slots[i].kind, pages[i]).Some?
    decreases |slots|
  {
    if slots != [] && PageData(slots[0].kind, pages[0]).Some? {
      var d := slots[0].column;
      var cols' := cols[d := cols[d] + PageData(slots[0].kind, pages[0]).value];
      SpreadSucceedsIff(slots[1..], pages[1..], cols');
      if Spread(slots[1..], pages[1..], cols').Some? {
        forall i | 0 <= i < |slots|
          ensures PageData(slots[i].kind, pages[i]).Some?
        {
          if i > 0 {
            assert slots[i] == slots[1..][i - 1] && pages[i] == pages[1..][i - 1];
          }
        }
      } else {
        var i :| 0 <= i < |slots[1..]| && PageData(slots[1..][i].kind, pages[1..][i]).None?;
        assert PageData(slots[i + 1].kind, pages[i + 1]).None?;
      }
    }
  }

  // ----- what is asked for -----

  lemma {:induction false} KeysAre(slots: seq<Slot>, elemKeys: seq<Bytes>, found: seq<Bytes>)
    ensures var b := KeysOf(slots, elemKeys, found);
            b.Built? <==> forall i :: 0 <= i < |slots| ==> slots[i].index < |elemKeys|
    ensures var b := KeysOf(slots, elemKeys, found);
            b.Built? ==> |b.keys| == |found| + |slots| && b.keys[..|found|] == found
                         && forall i :: 0 <= i < |slots| ==> b.keys[|found| + i] == elemKeys[slots[i].index]
    decreases |slots|
  {
    if slots != [] && slots[0].index < |elemKeys| {
      var found' := found + [elemKeys[slots[0].index]];
      KeysAre(slots[1..], elemKeys, found');
      var b := KeysOf(slots[1..], elemKeys, found');
      if b.Built? {
        assert b.keys[..|found'|][..|found|] == b.keys[..|found|];
        assert b.keys[|found|] == b.keys[..|found'|][|found|];
        forall i | 0 <= i < |slots|
          ensures slots[i].index < |elemKeys| && b.keys[|found| + i] == elemKeys[slots[i].index]
        {
          if i > 0 {
            assert slots[i] == slots[1..][i - 1];
            assert b.keys[|found| + i] == b.keys[|found'| + (i - 1)];
          }
        }
      } else {
        var i :| 0 <= i < |slots[1..]| && slots[1..][i].index >= |elemKeys|;
        assert slots[i + 1].index >= |elemKeys|;
      }
    }
  }

  /** All three columns of a group are read to their ends exactly when they have the same number of
      pages; a shorter one cuts the others off. */
  lemma {:induction false} GroupCompleteIff(p: Plan, t: nat)
    requires ValidPlan(p) && t < Groups(p)
    ensures var a, b, c := PlaceSize(p, 3 * t), PlaceSize(p, 3 * t + 1), PlaceSize(p, 3 * t + 2);
            (Rounds(p, t) == a && Rounds(p, t) == b && Rounds(p, t) == c) <==> (a == b && b == c)
  {
  }

  /** Different places before the padding hold different columns. */
  lemma {:induction false} PlacesDiffer(p: Plan, i: nat, j: nat)
    requires ValidPlan(p) && i < |p.perturbed| && j < |p.perturbed| && i != j
    ensures Column(p, i) != Column(p, j)
  {
    var s := p.order[..|p.perturbed|];
    assert s[i] == p.order[i] && s[j] == p.order[j];
    assert s[i] != s[j];
  }
}
