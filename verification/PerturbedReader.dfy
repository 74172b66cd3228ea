/** Reading rotated columns: one loop collects the keys, a second one hands out the replies
    (processor.go, `GetPerturbedRows`). */
module PerturbedReader {
  import opened Arithmetic
  import opened ColumnPages
  import opened Permutations
  import opened BulkGet
  import opened PerturbedSlots

  // ----- the plan -----

  function Chosen(enabled: seq<bool>, output: seq<bool>, wanted: bool, n: nat): (s: seq<nat>)
    requires n <= |enabled| == |output|
    ensures forall i :: 0 <= i < |s| ==> s[i] < n && enabled[s[i]] && output[s[i]] == wanted
    ensures NoRepeats(s)
  {
    if n == 0 then []
    else
      var before := Chosen(enabled, output, wanted, n - 1);
      if enabled[n - 1] && output[n - 1] == wanted then before + [n - 1] else before
  }

  lemma {:induction false} AllChosen(enabled: seq<bool>, output: seq<bool>, wanted: bool, n: nat, c: nat)
    requires c < n <= |enabled| == |output|
    ensures c in Chosen(enabled, output, wanted, n) <==> enabled[c] && output[c] == wanted
  {
    if c < n - 1 {
      AllChosen(enabled, output, wanted, n - 1, c);
    }
  }

  /** What is rotated and what is read as it is, for a table with these settings. */
  function PlanFor(enabled: seq<bool>, output: seq<bool>, permutation: seq<int>, chunks: seq<nat>): (p: Plan)
    requires |enabled| == |output|
  {
    var perturbed := Chosen(enabled, output, false, |enabled|);
    Plan(perturbed, Chosen(enabled, output, true, |enabled|), if perturbed == [] then [] else permutation, chunks)
  }

  lemma {:induction false} NoneInBoth(enabled: seq<bool>, output: seq<bool>, n: nat, i: nat, o: nat)
    requires n <= |enabled| == |output|
    requires i < |Chosen(enabled, output, false, n)| && o < |Chosen(enabled, output, true, n)|
    ensures Chosen(enabled, output, false, n)[i] != Chosen(enabled, output, true, n)[o]
  {
  }

  lemma {:induction false} NothingToPad()
    ensures Padded([], 0)
  {
  }

  /** The plan of valid settings is valid, and names every enabled column in its place. */
  lemma {:induction false} PlanIsValid(enabled: seq<bool>, output: seq<bool>, permutation: seq<int>, chunks: seq<nat>)
    requires |enabled| == |output| && forall c :: 0 <= c < |enabled| ==> Chunk(chunks, c)
    requires var n := |Chosen(enabled, output, false, |enabled|)|; n > 0 ==> Padded(permutation, n)
    ensures var p := PlanFor(enabled, output, permutation, chunks);
            && ValidPlan(p) && Within(p, |enabled|)
            && forall c :: 0 <= c < |enabled| ==>
                 (c in p.perturbed <==> enabled[c] && !output[c]) && (c in p.outputs <==> enabled[c] && output[c])
  {
    hide Chosen, Padded;
    var p := PlanFor(enabled, output, permutation, chunks);
    NothingToPad();
    forall i, o | 0 <= i < |p.perturbed| && 0 <= o < |p.outputs|
      ensures p.perturbed[i] != p.outputs[o]
    {
      NoneInBoth(enabled, output, |enabled|, i, o);
    }
    forall c | 0 <= c < |enabled|
      ensures (c in p.perturbed <==> enabled[c] && !output[c]) && (c in p.outputs <==> enabled[c] && output[c])
    {
      AllChosen(enabled, output, false, |enabled|, c);
      AllChosen(enabled, output, true, |enabled|, c);
    }
  }

  /** The number in the offset of column `c` when `j` columns of group `t` are done with round `r`. */
  function Offset(p: Plan, t: nat, r: nat, j: nat, c: nat): (n: nat)
    requires ValidPlan(p) && t < Groups(p)
  {
    if c == Column(p, 3 * t) then (if j > 0 then r + 1 else r)
    else if c == Column(p, 3 * t + 1) then (if j > 1 then r + 1 else r)
    else if c == Column(p, 3 * t + 2) then (if j > 2 then r + 1 else r)
    else 0
  }

  /** The three columns of a group are different ones. */
  lemma {:induction false} GroupDiffers(p: Plan, t: nat)
    requires ValidPlan(p) && t < Groups(p)
    ensures Column(p, 3 * t) != Column(p, 3 * t + 1) && Column(p, 3 * t) != Column(p, 3 * t + 2)
    ensures Column(p, 3 * t + 1) != Column(p, 3 * t + 2)
  {
    assert p.order[3 * t] != p.order[3 * t + 1] && p.order[3 * t] != p.order[3 * t + 2]
          && p.order[3 * t + 1] != p.order[3 * t + 2];
  }

  lemma {:induction false} ColumnInPlan(p: Plan, i: nat)
    requires ValidPlan(p) && i < |p.order|
    ensures Column(p, i) in p.perturbed
  {
  }

  lemma {:induction false} GroupStep(p: Plan, t: nat, r: nat)
    requires ValidPlan(p) && t < Groups(p) && r < Rounds(p, t)
    ensures GroupFrom(p, t, r) == Round(p, t, r) + GroupFrom(p, t, r + 1)
  {
  }

  lemma {:induction false} ColumnStep(p: Plan, c: nat, v: nat)
    requires Chunk(p.chunks, c) && v <= Size(p.chunks, c)
    ensures ColumnFrom(p, c, v)
         == if v == Size(p.chunks, c) then [] else [Slot(c, v, p.chunks[c] + v, Plain)] + ColumnFrom(p, c, v + 1)
  {
  }

  lemma {:induction false} PerturbedStep(p: Plan, t: nat)
    requires ValidPlan(p) && t < Groups(p)
    ensures PerturbedFrom(p, t) == GroupFrom(p, t, 0) + PerturbedFrom(p, t + 1)
  {
  }

  lemma {:induction false} NoGroup(p: Plan)
    requires ValidPlan(p)
    ensures PerturbedFrom(p, Groups(p)) == []
  {
  }

  lemma {:induction false} OrderLength(p: Plan)
    requires ValidPlan(p)
    ensures |p.order| == 3 * Groups(p)
  {
  }

  lemma {:induction false} OutputStep(p: Plan, o: nat)
    requires ValidPlan(p) && o < |p.outputs|
    ensures Chunk(p.chunks, p.outputs[o])
    ensures OutputsFrom(p, o) == ColumnFrom(p, p.outputs[o], 0) + OutputsFrom(p, o + 1)
    ensures |ColumnFrom(p, p.outputs[o], 0)| == Size(p.chunks, p.outputs[o])
  {
    ColumnLength(p, p.outputs[o], 0);
  }

  lemma {:induction false} ColumnLength(p: Plan, c: nat, v: nat)
    requires Chunk(p.chunks, c) && v <= Size(p.chunks, c)
    ensures |ColumnFrom(p, c, v)| == Size(p.chunks, c) - v
    decreases Size(p.chunks, c) - v
  {
    if v < Size(p.chunks, c) {
      ColumnLength(p, c, v + 1);
    }
  }

  lemma {:induction false} OutputInside(p: Plan, o: nat, n: nat)
    requires Within(p, n) && o < |p.outputs|
    ensures p.outputs[o] < n
  {
  }

  lemma {:induction false} NoOutput(p: Plan)
    requires ValidPlan(p)
    ensures OutputsFrom(p, |p.outputs|) == []
  {
  }

  lemma {:induction false} InTableBehind(a: seq<Slot>, b: seq<Slot>, n: nat)
    requires InTable(a + b, n)
    ensures InTable(b, n)
  {
    assert forall i :: 0 <= i < |b| ==> b[i] == (a + b)[|a| + i];
  }

  lemma {:induction false} NothingToSpread(pages: seq<Bytes>, cols: seq<seq<Entry>>)
    ensures InTable([], |cols|) && Spread([], pages, cols) == Some(cols)
  {
  }

  lemma {:induction false} RotatedData(page: Bytes, before: seq<Entry>)
    ensures (match PageData(Rotated, page) case None => None case Some(es) => Some(before + es))
         == if 0 == |page| then Some(before) else if |page| % 8 != 0 then None else Some(before + Entries(page[0..]))
  {
    assert before + [] == before;
  }

  lemma {:induction false} PlainData(page: Bytes, before: seq<Entry>)
    ensures (match PageData(Plain, page) case None => None case Some(es) => Some(before + es))
         == if page == [] then None
            else if Body(Plain, page) >= |page| then Some(before)
            else if (|page| - Body(Plain, page)) % 8 != 0 then None
            else Some(before + Entries(page[Body(Plain, page)..]))
  {
    assert before + [] == before;
  }

  datatype Failure = MissingKey(index: nat) | Bulk(reason: Results) | Ragged

  datatype Rows = Rows(columns: seq<seq<Entry>>) | Failed(why: Failure)

  function NoData(n: nat): (cols: seq<seq<Entry>>)
    ensures |cols| == n && forall c :: 0 <= c < n ==> cols[c] == []
  {
    seq(n, _ => [])
  }

  lemma {:induction false} KeysAppend(slots: seq<Slot>, s: Slot, rest: seq<Slot>, elemKeys: seq<Bytes>,
        found: seq<Bytes>)
    requires slots == [s] + rest
    ensures KeysOf(slots, elemKeys, found)
         == if s.index >= |elemKeys| then NoKey(s.index) else KeysOf(rest, elemKeys, found + [elemKeys[s.index]])
  {
    assert slots[1..] == rest;
  }

  lemma {:induction false} SpreadNext(slots: seq<Slot>, s: Slot, rest: seq<Slot>, pages: seq<Bytes>, k: nat,
        cols: seq<seq<Entry>>)
    requires slots == [s] + rest && InTable(slots, |cols|) && k + |slots| <= |pages|
    ensures s.column < |cols| && InTable(rest, |cols|)
    ensures Spread(slots, pages[k..], cols)
         == (match PageData(s.kind, pages[k])
             case None => None
             case Some(es) => Spread(rest, pages[k + 1..], cols[s.column := cols[s.column] + es]))
  {
    assert slots[0] == s;
    assert slots[1..] == rest && pages[k..][1..] == pages[k + 1..];
    assert forall i :: 0 <= i < |rest| ==> rest[i] == slots[i + 1];
  }

  lemma {:induction false} EntriesNext(data: seq<Byte>, k: nat)
    requires k + 8 <= |data|
    ensures Entries(data[k..]) == [data[k..k + 8]] + Entries(data[k + 8..])
  {
    var d := data[k..];
    assert d[8..] == data[k + 8..] && d[..8] == data[k..k + 8];
    if |d| == 8 {
      assert d + [] == d;
    }
  }

  /** The entries from byte `k` on, behind those in `es`; none at all if the last one is not whole. */
  function WholeEntries(page: Bytes, k: nat, es: seq<Entry>): (out: Option<seq<Entry>>)
    decreases |page| - k
  {
    if k >= |page| then Some(es)
    else if k + 8 > |page| then None
    else WholeEntries(page, k + 8, es + [page[k..k + 8]])
  }

  lemma {:induction false} WholeEntriesAre(page: Bytes, k: nat, es: seq<Entry>)
    ensures WholeEntries(page, k, es)
         == if k >= |page| then Some(es)
            else if (|page| - k) % 8 != 0 then None
            else Some(es + Entries(page[k..]))
    decreases |page| - k
  {
    hide Entries;
    if k + 8 == |page| {
      EntriesNext(page, k);
      NoEntriesLeft();
      assert page[k + 8..] == [] && [page[k..k + 8]] + [] == [page[k..k + 8]];
    } else if k + 8 < |page| {
      EntriesNext(page, k);
      WholeEntriesAre(page, k + 8, es + [page[k..k + 8]]);
      assert es + ([page[k..k + 8]] + Entries(page[k + 8..])) == es + [page[k..k + 8]] + Entries(page[k + 8..]);
    }
  }

  /** Eight bytes at a time, from byte `start` on. */
  method ReadEntries(page: Bytes, start: nat, before: seq<Entry>) returns (out: Option<seq<Entry>>)
    ensures out == if start >= |page| then Some(before)
                   else if (|page| - start) % 8 != 0 then None
                   else Some(before + Entries(page[start..]))
  {
    hide Entries;
    WholeEntriesAre(page, start, before);
    var k: nat := start;
    var es: seq<Entry> := before;
    while k < |page|
      invariant WholeEntries(page, start, before) == WholeEntries(page, k, es)
    {
      if k + 8 > |page| {
        return None;
      }
      es := es + [page[k..k + 8]];
      k := k + 8;
    }
    out := Some(es);
  }

  /** What `GetBulkN` comes to. */
  ghost function Fetched(keys: seq<Bytes>, getCondNo: nat, decompress: bool, n: int,
        serve: seq<Request> -> Reply): (o: Results)
    requires Answers(serve)
  {
    if getCondNo % GROUP != 0 || n % GROUP != 0 then BadArguments
    else if n <= 0 then Panic
    else Sends(Requests(keys, getCondNo, decompress), n, serve)
  }

  lemma {:induction false} FetchedIs(keys: seq<Bytes>, getCondNo: nat, decompress: bool, n: int,
        serve: seq<Request> -> Reply)
    requires Answers(serve)
    ensures Fetched(keys, getCondNo, decompress, n, serve)
         == if getCondNo % GROUP != 0 || n % GROUP != 0 then BadArguments
            else if n <= 0 then Panic
            else Sends(Requests(keys, getCondNo, decompress), n, serve)
  {
  }

  lemma {:induction false} OneEach(rs: seq<Request>, n: nat, serve: seq<Request> -> Reply)
    requires n > 0 && Answers(serve)
    ensures var o := Sends(rs, n, serve); o.Values? ==> |o.values| == |rs|
    decreases |rs|
  {
    if rs != [] {
      OneEach(rs[Min(n, |rs|)..], n, serve);
    }
  }

  lemma {:induction false} FetchedLength(keys: seq<Bytes>, getCondNo: nat, decompress: bool, n: int,
        serve: seq<Request> -> Reply)
    requires Answers(serve)
    ensures var o := Fetched(keys, getCondNo, decompress, n, serve); o.Values? ==> |o.values| == |keys|
  {
    if n > 0 {
      OneEach(Requests(keys, getCondNo, decompress), n, serve);
    }
  }

  lemma {:induction false} SlotsInTable(p: Plan, n: nat)
    requires ValidPlan(p) && Within(p, n)
    ensures InTable(Slots(p), n)
  {
    hide ValidPlan, Within, Slots, InTable;
    GroupsInTable(p, 0, n);
    OutputsInTable(p, 0, n);
    JoinTables(PerturbedFrom(p, 0), OutputsFrom(p, 0), n);
    SlotsAre(p);
  }

  lemma {:induction false} SlotsAre(p: Plan)
    requires ValidPlan(p)
    ensures Slots(p) == PerturbedFrom(p, 0) + OutputsFrom(p, 0)
  {
  }

  lemma {:induction false} JoinTables(a: seq<Slot>, b: seq<Slot>, n: nat)
    requires InTable(a, n) && InTable(b, n)
    ensures InTable(a + b, n)
  {
  }

  lemma {:induction false} RoundInTable(p: Plan, t: nat, r: nat, n: nat)
    requires ValidPlan(p) && t < Groups(p) && Within(p, n)
    ensures InTable(Round(p, t, r), n)
  {
    ColumnInPlan(p, 3 * t);
    ColumnInPlan(p, 3 * t + 1);
    ColumnInPlan(p, 3 * t + 2);
    hide Column, ValidPlan;
  }

  lemma {:induction false} GroupInTable(p: Plan, t: nat, r: nat, n: nat)
    requires ValidPlan(p) && t < Groups(p) && Within(p, n) && r <= Rounds(p, t)
    ensures InTable(GroupFrom(p, t, r), n)
    decreases Rounds(p, t) - r
  {
    hide ValidPlan, Within, Rounds, Round;
    if r < Rounds(p, t) {
      RoundInTable(p, t, r, n);
      GroupInTable(p, t, r + 1, n);
      JoinTables(Round(p, t, r), GroupFrom(p, t, r + 1), n);
    }
  }

  lemma {:induction false} GroupsInTable(p: Plan, t: nat, n: nat)
    requires ValidPlan(p) && t <= Groups(p) && Within(p, n)
    ensures InTable(PerturbedFrom(p, t), n)
    decreases Groups(p) - t
  {
    hide ValidPlan, Within, GroupFrom;
    if t < Groups(p) {
      GroupInTable(p, t, 0, n);
      GroupsInTable(p, t + 1, n);
      JoinTables(GroupFrom(p, t, 0), PerturbedFrom(p, t + 1), n);
    }
  }

  lemma {:induction false} ColumnInTable(p: Plan, c: nat, v: nat, n: nat)
    requires Chunk(p.chunks, c) && v <= Size(p.chunks, c) && c < n
    ensures InTable(ColumnFrom(p, c, v), n)
    decreases Size(p.chunks, c) - v
  {
    if v < Size(p.chunks, c) {
      ColumnInTable(p, c, v + 1, n);
    }
  }

  lemma {:induction false} OutputsInTable(p: Plan, o: nat, n: nat)
    requires ValidPlan(p) && o <= |p.outputs| && Within(p, n)
    ensures InTable(OutputsFrom(p, o), n)
    decreases |p.outputs| - o
  {
    hide ColumnFrom;
    if o < |p.outputs| {
      ColumnInTable(p, p.outputs[o], 0, n);
      OutputsInTable(p, o + 1, n);
      JoinTables(ColumnFrom(p, p.outputs[o], 0), OutputsFrom(p, o + 1), n);
    }
  }

  /** A perturbed read of a table of `m` columns. */
  ghost function PerturbedRows(p: Plan, m: nat, elemKeys: seq<Bytes>, decompress: bool, n: int,
        serve: seq<Request> -> Reply): (r: Rows)
    requires ValidPlan(p) && Within(p, m) && Answers(serve)
  {
    match KeysOf(Slots(p), elemKeys, [])
    case NoKey(index) => Failed(MissingKey(index))
    case Built(keys) =>
      match Fetched(keys, |PerturbedFrom(p, 0)|, decompress, n, serve)
      case Values(pages) => HandOut(p, m, pages)
      case SendFailed => Failed(Bulk(SendFailed))
      case Corrupted(key) => Failed(Bulk(Corrupted(key)))
      case BadArguments => Failed(Bulk(BadArguments))
      case Panic => Failed(Bulk(Panic))
  }

  ghost function HandOut(p: Plan, m: nat, pages: seq<Bytes>): (r: Rows)
    requires ValidPlan(p) && Within(p, m)
  {
    SlotsInTable(p, m);
    if |pages| != |Slots(p)| then Failed(Ragged)
    else
      match Spread(Slots(p), pages, NoData(m))
      case None => Failed(Ragged)
      case Some(cols) => Rows(cols)
  }

  lemma {:induction false} RowsWithoutKey(p: Plan, m: nat, elemKeys: seq<Bytes>, decompress: bool, n: int,
        serve: seq<Request> -> Reply, index: nat)
    requires ValidPlan(p) && Within(p, m) && Answers(serve) && KeysOf(Slots(p), elemKeys, []) == NoKey(index)
    ensures PerturbedRows(p, m, elemKeys, decompress, n, serve) == Failed(MissingKey(index))
  {
    hide ValidPlan, Within, Answers, KeysOf, Slots, Fetched, PerturbedFrom, HandOut;
  }

  lemma {:induction false} RowsWithKeys(p: Plan, m: nat, elemKeys: seq<Bytes>, decompress: bool, n: int,
        serve: seq<Request> -> Reply, keys: seq<Bytes>)
    requires ValidPlan(p) && Within(p, m) && Answers(serve) && KeysOf(Slots(p), elemKeys, []) == Built(keys)
    ensures |keys| == |Slots(p)|
    ensures PerturbedRows(p, m, elemKeys, decompress, n, serve)
         == var bulk := Fetched(keys, |PerturbedFrom(p, 0)|, decompress, n, serve);
            if bulk.Values? then HandOut(p, m, bulk.values) else Failed(Bulk(bulk))
  {
    hide ValidPlan, Within, Answers, KeysOf, Slots, Fetched, PerturbedFrom, HandOut;
    KeysAre(Slots(p), elemKeys, []);
  }

  lemma {:induction false} HandOutIs(p: Plan, m: nat, pages: seq<Bytes>)
    requires ValidPlan(p) && Within(p, m) && |pages| == |Slots(p)|
    ensures InTable(Slots(p), m)
    ensures HandOut(p, m, pages)
         == match Spread(Slots(p), pages, NoData(m)) case None => Failed(Ragged) case Some(cols) => Rows(cols)
  {
    hide ValidPlan, Within, Slots, Spread, InTable;
    SlotsInTable(p, m);
  }

  predicate Within(p: Plan, n: nat) {
    && (forall i :: 0 <= i < |p.perturbed| ==> p.perturbed[i] < n)
    && (forall o :: 0 <= o < |p.outputs| ==> p.outputs[o] < n)
  }

  predicate AtRound(offsets: seq<nat>, p: Plan, t: nat, r: nat, j: nat)
    requires ValidPlan(p) && t < Groups(p)
  {
    forall c :: 0 <= c < |offsets| ==> offsets[c] == Offset(p, t, r, j, c)
  }

  predicate AllZero(offsets: seq<nat>) {
    forall c :: 0 <= c < |offsets| ==> offsets[c] == 0
  }

  lemma {:induction false} AtFirstRound(offsets: seq<nat>, p: Plan, t: nat)
    requires ValidPlan(p) && t < Groups(p) && AllZero(offsets)
    ensures AtRound(offsets, p, t, 0, 0)
  {
  }

  lemma {:induction false} Advance(offsets: seq<nat>, p: Plan, t: nat, r: nat, j: nat)
    requires ValidPlan(p) && t < Groups(p) && j < 3 && Within(p, |offsets|) && AtRound(offsets, p, t, r, j)
    ensures var c := Column(p, 3 * t + j);
            c < |offsets| && offsets[c] == r && AtRound(offsets[c := r + 1], p, t, r, j + 1)
  {
    GroupDiffers(p, t);
    ColumnInPlan(p, 3 * t + j);
    hide Column, ValidPlan;
  }

  lemma {:induction false} NextRound(offsets: seq<nat>, p: Plan, t: nat, r: nat)
    requires ValidPlan(p) && t < Groups(p) && AtRound(offsets, p, t, r, 3)
    ensures AtRound(offsets, p, t, r + 1, 0)
  {
    hide Column, ValidPlan;
  }

  lemma {:induction false} InRound(offsets: seq<nat>, p: Plan, t: nat, r: nat, j: nat)
    requires ValidPlan(p) && t < Groups(p) && j < 3 && Within(p, |offsets|) && AtRound(offsets, p, t, r, 0)
    ensures var c := Column(p, 3 * t + j); c < |offsets| && offsets[c] == r
  {
    ColumnInPlan(p, 3 * t + j);
    hide Column, ValidPlan;
  }

  /** Offsets of the columns of group `t` cleared up to place `j`. */
  predicate Clearing(offsets: seq<nat>, p: Plan, t: nat, j: nat)
    requires ValidPlan(p) && t < Groups(p)
  {
    forall c :: 0 <= c < |offsets| ==>
      offsets[c] == 0 || (j < 1 && c == Column(p, 3 * t)) || (j < 2 && c == Column(p, 3 * t + 1)) || (j < 3
            && c == Column(p, 3 * t + 2))
  }

  lemma {:induction false} StartClearing(offsets: seq<nat>, p: Plan, t: nat, r: nat)
    requires ValidPlan(p) && t < Groups(p) && AtRound(offsets, p, t, r, 0)
    ensures Clearing(offsets, p, t, 0)
  {
    hide Column, ValidPlan;
  }

  lemma {:induction false} ClearNext(offsets: seq<nat>, p: Plan, t: nat, j: nat)
    requires ValidPlan(p) && t < Groups(p) && j < 3 && Within(p, |offsets|) && Clearing(offsets, p, t, j)
    ensures var c := Column(p, 3 * t + j); c < |offsets| && Clearing(offsets[c := 0], p, t, j + 1)
  {
    ColumnInPlan(p, 3 * t + j);
    hide Column, ValidPlan;
  }

  lemma {:induction false} Cleared(offsets: seq<nat>, p: Plan, t: nat)
    requires ValidPlan(p) && t < Groups(p) && Clearing(offsets, p, t, 3)
    ensures AllZero(offsets)
  {
  }

  /** The first `j` columns of the group have more than `r` pages. */
  predicate NotYet(p: Plan, t: nat, r: nat, j: nat)
    requires ValidPlan(p) && t < Groups(p)
  {
    && (j > 0 ==> r < PlaceSize(p, 3 * t)) && (j > 1 ==> r < PlaceSize(p, 3 * t + 1))
    && (j > 2 ==> r < PlaceSize(p, 3 * t + 2))
  }

  lemma {:induction false} RoundAt(p: Plan, t: nat, r: nat, j: nat)
    requires ValidPlan(p) && t < Groups(p) && j < 3
    ensures Round(p, t, r)[j..] == [PlaceSlot(p, 3 * t + j, r)] + Round(p, t, r)[j + 1..]
  {
  }

  lemma {:induction false} HeadFirst(a: seq<Slot>, s: Slot, b: seq<Slot>, rest: seq<Slot>)
    requires a == [s] + b
    ensures a + rest == [s] + (b + rest)
  {
  }

  class PerturbedReader {
    const columnChunksValuesNo: seq<nat>
    const columnsNo: nat
    var enabledColumns: seq<bool>
    var outputColumns: seq<bool>
    var columnPermutation: seq<int>
    var valueNoOffsets: seq<nat>

    function Perturbed(): (s: seq<nat>)
      requires |enabledColumns| == |outputColumns| == columnsNo
      reads this`enabledColumns, this`outputColumns
    {
      Chosen(enabledColumns, outputColumns, false, columnsNo)
    }

    function Outputs(): (s: seq<nat>)
      requires |enabledColumns| == |outputColumns| == columnsNo
      reads this`enabledColumns, this`outputColumns
    {
      Chosen(enabledColumns, outputColumns, true, columnsNo)
    }

    /** The permutation is one that `ColumnPermutation` returns for the columns to rotate. */
    ghost predicate Valid()
      reads this
    {
      && |enabledColumns| == |outputColumns| == |valueNoOffsets| == columnsNo
      && (forall c :: 0 <= c < columnsNo ==> Chunk(columnChunksValuesNo, c))
      && (Perturbed() != [] ==> Padded(columnPermutation, |Perturbed()|))
    }

    ghost function ThePlan(): (p: Plan)
      requires Valid()
      reads this
      ensures ValidPlan(p) && Within(p, columnsNo)
      ensures p == PlanFor(enabledColumns, outputColumns, columnPermutation, columnChunksValuesNo)
    {
      PlanIsValid(enabledColumns, outputColumns, columnPermutation, columnChunksValuesNo);
      PlanFor(enabledColumns, outputColumns, columnPermutation, columnChunksValuesNo)
    }

    constructor (chunks: seq<nat>, enabled: seq<bool>, output: seq<bool>, permutation: seq<int>)
      requires |enabled| == |output| && forall c :: 0 <= c < |enabled| ==> Chunk(chunks, c)
      requires var n := |Chosen(enabled, output, false, |enabled|)|; n > 0 ==> Padded(permutation, n)
      ensures Valid() && AllZero(valueNoOffsets) && columnChunksValuesNo == chunks
      ensures enabledColumns == enabled && outputColumns == output && columnPermutation == permutation
    {
      columnChunksValuesNo, columnsNo := chunks, |enabled|;
      enabledColumns, outputColumns, columnPermutation := enabled, output, permutation;
      valueNoOffsets := seq(|enabled|, _ => 0);
    }

    method ColumnIndices() returns (perturbed: seq<nat>, outputs: seq<nat>)
      requires Valid()
      ensures perturbed == Perturbed() && outputs == Outputs()
    {
      perturbed, outputs := [], [];
      for i := 0 to columnsNo
        invariant perturbed == Chosen(enabledColumns, outputColumns, false, i)
        invariant outputs == Chosen(enabledColumns, outputColumns, true, i)
      {
        if enabledColumns[i] {
          if outputColumns[i] {
            outputs := outputs + [i];
          } else {
            perturbed := perturbed + [i];
          }
        }
      }
    }

    // ----- one group of three columns -----

    /** `p` is what the fields say; `perturbed` its list of columns to rotate. */
    ghost predicate Plans(p: Plan)
      reads this
    {
      ValidPlan(p) && Within(p, columnsNo) && |valueNoOffsets| == columnsNo
      && p.chunks == columnChunksValuesNo && (p.order == columnPermutation || p.order == [])
    }

    method RanOut(perturbed: seq<nat>, i: nat, ghost p: Plan, ghost t: nat, ghost r: nat) returns (done: bool)
      requires Plans(p) && t < Groups(p) && i == 3 * t && perturbed == p.perturbed && r <= Rounds(p, t)
      requires AtRound(valueNoOffsets, p, t, r, 0)
      ensures done == (r == Rounds(p, t))
    {
      hide ValidPlan, Within, AtRound, Rounds;
      InRound(valueNoOffsets, p, t, r, 0);
      InRound(valueNoOffsets, p, t, r, 1);
      InRound(valueNoOffsets, p, t, r, 2);
      done := false;
      for j := 0 to 3
        invariant NotYet(p, t, r, j)
      {
        InRound(valueNoOffsets, p, t, r, j);
        var c := ColumnAt(perturbed, i + j, p);
        if valueNoOffsets[c] >= columnChunksValuesNo[c + 1] - columnChunksValuesNo[c] {
          return true;
        }
      }
    }

    method ColumnAt(perturbed: seq<nat>, i: nat, ghost p: Plan) returns (c: nat)
      requires Plans(p) && perturbed == p.perturbed && i < |p.order|
      ensures c == Column(p, i) && c < columnsNo
    {
      ColumnInPlan(p, i);
      c := perturbed[columnPermutation[i]];
    }

    method ClearGroup(perturbed: seq<nat>, i: nat, ghost p: Plan, ghost t: nat, ghost r: nat)
      requires Plans(p) && t < Groups(p) && i == 3 * t && perturbed == p.perturbed
      requires AtRound(valueNoOffsets, p, t, r, 0)
      modifies this`valueNoOffsets
      ensures Plans(p) && AllZero(valueNoOffsets)
    {
      hide ValidPlan, Within, AtRound, Clearing, AllZero;
      StartClearing(valueNoOffsets, p, t, r);
      for j := 0 to 3
        invariant Plans(p) && Clearing(valueNoOffsets, p, t, j)
      {
        ClearNext(valueNoOffsets, p, t, j);
        var c := ColumnAt(perturbed, i + j, p);
        valueNoOffsets := valueNoOffsets[c := 0];
      }
      Cleared(valueNoOffsets, p, t);
    }

    // ----- first pass: the keys -----

    method KeyRound(perturbed: seq<nat>, i: nat, elemKeys: seq<Bytes>, before: seq<Bytes>,
                    ghost p: Plan, ghost t: nat, ghost r: nat, ghost rest: seq<Slot>)
      returns (keys: seq<Bytes>, missing: Option<nat>)
      requires Plans(p) && t < Groups(p) && i == 3 * t && perturbed == p.perturbed
      requires AtRound(valueNoOffsets, p, t, r, 0)
      modifies this`valueNoOffsets
      ensures KeysOf(Round(p, t, r) + rest, elemKeys, before)
           == if missing.Some? then NoKey(missing.value) else KeysOf(rest, elemKeys, keys)
      ensures missing.None? ==> Plans(p) && AtRound(valueNoOffsets, p, t, r + 1, 0) && |keys| == |before| + 3
    {
      hide ValidPlan, Within, AtRound, KeysOf, Round;
      keys, missing := before, None;
      ghost var slots := Round(p, t, r);
      assert slots[0..] == slots;
      for j := 0 to 3
        invariant Plans(p) && AtRound(valueNoOffsets, p, t, r, j) && |keys| == |before| + j
        invariant KeysOf(slots + rest, elemKeys, before) == KeysOf(slots[j..] + rest, elemKeys, keys)
      {
        Advance(valueNoOffsets, p, t, r, j);
        RoundAt(p, t, r, j);
        HeadFirst(slots[j..], PlaceSlot(p, 3 * t + j, r), slots[j + 1..], rest);
        KeysAppend(slots[j..] + rest, PlaceSlot(p, 3 * t + j, r), slots[j + 1..] + rest, elemKeys, keys);
        var c := ColumnAt(perturbed, i + j, p);
        var index := columnChunksValuesNo[c] + valueNoOffsets[c];
        if index >= |elemKeys| {
          missing := Some(index);
          return;
        }
        keys := keys + [elemKeys[index]];
        valueNoOffsets := valueNoOffsets[c := valueNoOffsets[c] + 1];
      }
      NextRound(valueNoOffsets, p, t, r);
      assert slots[3..] + rest == rest;
    }

    method KeyGroup(perturbed: seq<nat>, i: nat, elemKeys: seq<Bytes>, before: seq<Bytes>,
                    ghost p: Plan, ghost t: nat, ghost rest: seq<Slot>)
      returns (keys: seq<Bytes>, missing: Option<nat>)
      requires Plans(p) && t < Groups(p) && i == 3 * t && perturbed == p.perturbed && AllZero(valueNoOffsets)
      modifies this`valueNoOffsets
      ensures KeysOf(GroupFrom(p, t, 0) + rest, elemKeys, before)
           == if missing.Some? then NoKey(missing.value) else KeysOf(rest, elemKeys, keys)
      ensures missing.None? ==> Plans(p) && AllZero(valueNoOffsets) && |keys| == |before| + |GroupFrom(p, t, 0)|
    {
      hide ValidPlan, Within, AtRound, KeysOf, Round, Rounds, AllZero, GroupFrom;
      AtFirstRound(valueNoOffsets, p, t);
      keys, missing := before, None;
      ghost var r := 0;
      while true
        invariant Plans(p) && r <= Rounds(p, t) && AtRound(valueNoOffsets, p, t, r, 0) && |keys| == |before| + 3 * r
        invariant missing.None?
        invariant KeysOf(GroupFrom(p, t, 0) + rest, elemKeys, before)
              == KeysOf(GroupFrom(p, t, r) + rest, elemKeys, keys)
        decreases Rounds(p, t) - r
      {
        var done := RanOut(perturbed, i, p, t, r);
        if done {
          break;
        }
        GroupStep(p, t, r);
        assert Round(p, t, r) + GroupFrom(p, t, r + 1) + rest == Round(p, t, r) + (GroupFrom(p, t, r + 1) + rest);
        keys, missing := KeyRound(perturbed, i, elemKeys, keys, p, t, r, GroupFrom(p, t, r + 1) + rest);
        if missing.Some? {
          return;
        }
        r := r + 1;
      }
      assert GroupFrom(p, t, r) + rest == rest;
      ClearGroup(perturbed, i, p, t, r);
    }

    method KeyColumn(c: nat, elemKeys: seq<Bytes>, before: seq<Bytes>, ghost p: Plan, ghost rest: seq<Slot>)
      returns (keys: seq<Bytes>, missing: Option<nat>)
      requires Plans(p) && Chunk(p.chunks, c) && c < columnsNo && AllZero(valueNoOffsets)
      modifies this`valueNoOffsets
      ensures KeysOf(ColumnFrom(p, c, 0) + rest, elemKeys, before)
           == if missing.Some? then NoKey(missing.value) else KeysOf(rest, elemKeys, keys)
      ensures missing.None? ==> Plans(p) && AllZero(valueNoOffsets) && |keys| == |before| + Size(p.chunks, c)
    {
      hide ValidPlan, Within, KeysOf, ColumnFrom;
      keys, missing := before, None;
      while valueNoOffsets[c] < columnChunksValuesNo[c + 1] - columnChunksValuesNo[c]
        invariant Plans(p) && AllZero(valueNoOffsets[c := 0]) && valueNoOffsets[c] <= Size(p.chunks, c)
        invariant |keys| == |before| + valueNoOffsets[c] && missing.None?
        invariant KeysOf(ColumnFrom(p, c, 0) + rest, elemKeys, before)
               == KeysOf(ColumnFrom(p, c, valueNoOffsets[c]) + rest, elemKeys, keys)
        decreases Size(p.chunks, c) - valueNoOffsets[c]
      {
        var v := valueNoOffsets[c];
        ghost var s := Slot(c, v, p.chunks[c] + v, Plain);
        ColumnStep(p, c, v);
        HeadFirst(ColumnFrom(p, c, v), s, ColumnFrom(p, c, v + 1), rest);
        KeysAppend(ColumnFrom(p, c, v) + rest, s, ColumnFrom(p, c, v + 1) + rest, elemKeys, keys);
        var index := columnChunksValuesNo[c] + v;
        if index >= |elemKeys| {
          missing := Some(index);
          return;
        }
        keys := keys + [elemKeys[index]];
        assert valueNoOffsets[c := v + 1][c := 0] == valueNoOffsets[c := 0];
        valueNoOffsets := valueNoOffsets[c := v + 1];
      }
      ColumnStep(p, c, valueNoOffsets[c]);
      assert ColumnFrom(p, c, valueNoOffsets[c]) + rest == rest;
      valueNoOffsets := valueNoOffsets[c := 0];
    }

    method KeyGroups(perturbed: seq<nat>, elemKeys: seq<Bytes>, ghost p: Plan, ghost rest: seq<Slot>)
      returns (keys: seq<Bytes>, missing: Option<nat>)
      requires Plans(p) && perturbed == p.perturbed && p.order == columnPermutation && AllZero(valueNoOffsets)
      modifies this`valueNoOffsets
      ensures KeysOf(PerturbedFrom(p, 0) + rest, elemKeys, [])
           == if missing.Some? then NoKey(missing.value) else KeysOf(rest, elemKeys, keys)
      ensures missing.None? ==> Plans(p) && AllZero(valueNoOffsets) && |keys| == |PerturbedFrom(p, 0)|
    {
      hide ValidPlan, Within, KeysOf, AllZero, PerturbedFrom, GroupFrom;
      keys, missing := [], None;
      var i := 0;
      ghost var t := 0;
      OrderLength(p);
      while i < |columnPermutation|
        invariant i == 3 * t && t <= Groups(p) && Plans(p) && AllZero(valueNoOffsets) && missing.None?
        invariant KeysOf(PerturbedFrom(p, 0) + rest, elemKeys, []) == KeysOf(PerturbedFrom(p, t) + rest, elemKeys, keys)
        invariant |keys| + |PerturbedFrom(p, t)| == |PerturbedFrom(p, 0)|
        decreases |columnPermutation| - i
      {
        PerturbedStep(p, t);
        assert GroupFrom(p, t, 0) + PerturbedFrom(p, t + 1) + rest
              == GroupFrom(p, t, 0) + (PerturbedFrom(p, t + 1) + rest);
        keys, missing := KeyGroup(perturbed, i, elemKeys, keys, p, t, PerturbedFrom(p, t + 1) + rest);
        if missing.Some? {
          return;
        }
        i, t := i + 3, t + 1;
      }
      NoGroup(p);
      assert [] + rest == rest;
    }

    method KeyColumns(outputs: seq<nat>, elemKeys: seq<Bytes>, before: seq<Bytes>, ghost p: Plan)
      returns (keys: seq<Bytes>, missing: Option<nat>)
      requires Plans(p) && outputs == p.outputs && AllZero(valueNoOffsets)
      modifies this`valueNoOffsets
      ensures KeysOf(OutputsFrom(p, 0), elemKeys, before) == if missing.Some? then NoKey(missing.value) else Built(keys)
      ensures missing.None? ==> Plans(p) && AllZero(valueNoOffsets) && |keys| == |before| + |OutputsFrom(p, 0)|
    {
      hide ValidPlan, Within, AllZero, OutputsFrom, ColumnFrom;
      keys, missing := before, None;
      for o := 0 to |outputs|
        invariant Plans(p) && AllZero(valueNoOffsets) && missing.None?
        invariant KeysOf(OutputsFrom(p, 0), elemKeys, before) == KeysOf(OutputsFrom(p, o), elemKeys, keys)
        invariant |keys| + |OutputsFrom(p, o)| == |before| + |OutputsFrom(p, 0)|
      {
        OutputStep(p, o);
        OutputInside(p, o, columnsNo);
        keys, missing := KeyColumn(outputs[o], elemKeys, keys, p, OutputsFrom(p, o + 1));
        if missing.Some? {
          return;
        }
      }
      NoOutput(p);
    }

    /** All keys in the order of the slots, how many of them are to be rotated, and how many not. */
    method BuildKeys(perturbed: seq<nat>, outputs: seq<nat>, elemKeys: seq<Bytes>, ghost p: Plan)
      returns (keys: seq<Bytes>, getCondNo: nat, getNo: nat, missing: Option<nat>)
      requires Plans(p) && perturbed == p.perturbed && outputs == p.outputs && AllZero(valueNoOffsets)
      requires p.order == if perturbed == [] then [] else columnPermutation
      modifies this`valueNoOffsets
      ensures KeysOf(Slots(p), elemKeys, []) == if missing.Some? then NoKey(missing.value) else Built(keys)
      ensures missing.None? ==> && Plans(p) && AllZero(valueNoOffsets) && |keys| == getCondNo + getNo
                                && getCondNo == |PerturbedFrom(p, 0)| && getNo == |OutputsFrom(p, 0)|
    {
      hide ValidPlan, Within, KeysOf, AllZero, PerturbedFrom, OutputsFrom;
      keys, getCondNo, getNo, missing := [], 0, 0, None;
      if |perturbed| > 0 {
        keys, missing := KeyGroups(perturbed, elemKeys, p, OutputsFrom(p, 0));
        if missing.Some? {
          return;
        }
        getCondNo := |keys|;
      } else {
        NoGroup(p);
        assert [] + OutputsFrom(p, 0) == OutputsFrom(p, 0);
      }
      keys, missing := KeyColumns(outputs, elemKeys, keys, p);
      if missing.Some? {
        return;
      }
      getNo := |keys| - getCondNo;
    }

    // ----- second pass: the pages -----

    method ReadRound(perturbed: seq<nat>, i: nat, pages: seq<Bytes>, pagesIdx: nat, before: seq<seq<Entry>>,
                     ghost p: Plan, ghost t: nat, ghost r: nat, ghost rest: seq<Slot>)
      returns (outCols: seq<seq<Entry>>, ok: bool)
      requires Plans(p) && t < Groups(p) && i == 3 * t && perturbed == p.perturbed
      requires AtRound(valueNoOffsets, p, t, r, 0)
      requires InTable(Round(p, t, r) + rest, |before|) && pagesIdx + 3 + |rest| == |pages|
      modifies this`valueNoOffsets
      ensures |outCols| == |before| && InTable(rest, |before|)
      ensures Spread(Round(p, t, r) + rest, pages[pagesIdx..], before)
           == if ok then Spread(rest, pages[pagesIdx + 3..], outCols) else None
      ensures ok ==> Plans(p) && AtRound(valueNoOffsets, p, t, r + 1, 0)
    {
      hide ValidPlan, Within, AtRound, Spread, Round, InTable;
      outCols, ok := before, true;
      ghost var slots := Round(p, t, r);
      assert slots[0..] == slots && slots[3..] + rest == rest;
      InTableBehind(slots, rest, |before|);
      for j := 0 to 3
        invariant Plans(p) && AtRound(valueNoOffsets, p, t, r, j) && |outCols| == |before| && ok
        invariant InTable(slots[j..] + rest, |before|)
        invariant Spread(slots + rest, pages[pagesIdx..], before)
              == Spread(slots[j..] + rest, pages[pagesIdx + j..], outCols)
      {
        ghost var s := PlaceSlot(p, 3 * t + j, r);
        Advance(valueNoOffsets, p, t, r, j);
        RoundAt(p, t, r, j);
        HeadFirst(slots[j..], s, slots[j + 1..], rest);
        SpreadNext(slots[j..] + rest, s, slots[j + 1..] + rest, pages, pagesIdx + j, outCols);
        var c := ColumnAt(perturbed, i + j, p);
        if i + j < |perturbed| {
          var more := ReadEntries(pages[pagesIdx + j], 0, outCols[c]);
          RotatedData(pages[pagesIdx + j], outCols[c]);
          if more.None? {
            ok := false;
            return;
          }
          outCols := outCols[c := more.value];
        } else {
          assert outCols[c] + [] == outCols[c];
          assert outCols == outCols[c := outCols[c] + []];
        }
        valueNoOffsets := valueNoOffsets[c := valueNoOffsets[c] + 1];
      }
      NextRound(valueNoOffsets, p, t, r);
    }

    method ReadGroup(perturbed: seq<nat>, i: nat, pages: seq<Bytes>, start: nat, before: seq<seq<Entry>>,
                     ghost p: Plan, ghost t: nat, ghost rest: seq<Slot>)
      returns (outCols: seq<seq<Entry>>, pagesIdx: nat, ok: bool)
      requires Plans(p) && t < Groups(p) && i == 3 * t && perturbed == p.perturbed && AllZero(valueNoOffsets)
      requires InTable(GroupFrom(p, t, 0) + rest, |before|) && start + |GroupFrom(p, t, 0)| + |rest| == |pages|
      modifies this`valueNoOffsets
      ensures |outCols| == |before| && InTable(rest, |before|)
      ensures pagesIdx + |rest| <= |pages|
      ensures Spread(GroupFrom(p, t, 0) + rest, pages[start..], before)
           == if ok then Spread(rest, pages[pagesIdx..], outCols) else None
      ensures ok ==> Plans(p) && AllZero(valueNoOffsets) && pagesIdx + |rest| == |pages|
    {
      hide ValidPlan, Within, AtRound, Spread, Round, Rounds, AllZero, GroupFrom, InTable;
      AtFirstRound(valueNoOffsets, p, t);
      InTableBehind(GroupFrom(p, t, 0), rest, |before|);
      outCols, pagesIdx, ok := before, start, true;
      ghost var r := 0;
      while true
        invariant Plans(p) && r <= Rounds(p, t) && AtRound(valueNoOffsets, p, t, r, 0) && |outCols| == |before| && ok
        invariant pagesIdx + |GroupFrom(p, t, r)| + |rest| == |pages|
        invariant InTable(GroupFrom(p, t, r) + rest, |before|)
        invariant Spread(GroupFrom(p, t, 0) + rest, pages[start..], before)
               == Spread(GroupFrom(p, t, r) + rest, pages[pagesIdx..], outCols)
        decreases Rounds(p, t) - r
      {
        var done := RanOut(perturbed, i, p, t, r);
        if done {
          break;
        }
        GroupStep(p, t, r);
        ghost var later := GroupFrom(p, t, r + 1) + rest;
        assert Round(p, t, r) + GroupFrom(p, t, r + 1) + rest == Round(p, t, r) + later;
        outCols, ok := ReadRound(perturbed, i, pages, pagesIdx, outCols, p, t, r, later);
        if !ok {
          return;
        }
        pagesIdx := pagesIdx + 3;
        r := r + 1;
      }
      assert GroupFrom(p, t, r) + rest == rest;
      ClearGroup(perturbed, i, p, t, r);
    }

    method ReadGroups(perturbed: seq<nat>, pages: seq<Bytes>, before: seq<seq<Entry>>, ghost p: Plan,
          ghost rest: seq<Slot>)
      returns (outCols: seq<seq<Entry>>, pagesIdx: nat, ok: bool)
      requires Plans(p) && perturbed == p.perturbed && p.order == columnPermutation && AllZero(valueNoOffsets)
      requires InTable(PerturbedFrom(p, 0) + rest, |before|) && |PerturbedFrom(p, 0)| + |rest| == |pages|
      modifies this`valueNoOffsets
      ensures |outCols| == |before| && InTable(rest, |before|)
      ensures pagesIdx + |rest| <= |pages|
      ensures Spread(PerturbedFrom(p, 0) + rest, pages, before)
            == if ok then Spread(rest, pages[pagesIdx..], outCols) else None
      ensures ok ==> Plans(p) && AllZero(valueNoOffsets) && pagesIdx + |rest| == |pages|
    {
      hide ValidPlan, Within, Spread, AllZero, PerturbedFrom, GroupFrom, InTable;
      outCols, pagesIdx, ok := before, 0, true;
      var i := 0;
      ghost var t := 0;
      OrderLength(p);
      InTableBehind(PerturbedFrom(p, 0), rest, |before|);
      assert pages[0..] == pages;
      while i < |columnPermutation|
        invariant i == 3 * t && t <= Groups(p) && Plans(p) && AllZero(valueNoOffsets) && |outCols| == |before| && ok
        invariant pagesIdx + |PerturbedFrom(p, t)| + |rest| == |pages| && InTable(PerturbedFrom(p, t) + rest, |before|)
        invariant Spread(PerturbedFrom(p, 0) + rest, pages, before)
              == Spread(PerturbedFrom(p, t) + rest, pages[pagesIdx..], outCols)
        decreases |columnPermutation| - i
      {
        PerturbedStep(p, t);
        ghost var later := PerturbedFrom(p, t + 1) + rest;
        assert GroupFrom(p, t, 0) + PerturbedFrom(p, t + 1) + rest == GroupFrom(p, t, 0) + later;
        outCols, pagesIdx, ok := ReadGroup(perturbed, i, pages, pagesIdx, outCols, p, t, later);
        if !ok {
          return;
        }
        i, t := i + 3, t + 1;
      }
      NoGroup(p);
      assert [] + rest == rest;
    }

    method ReadColumn(c: nat, pages: seq<Bytes>, start: nat, before: seq<seq<Entry>>, ghost p: Plan,
          ghost rest: seq<Slot>)
      returns (outCols: seq<seq<Entry>>, pagesIdx: nat, ok: bool)
      requires Plans(p) && Chunk(p.chunks, c) && c < columnsNo == |before| && AllZero(valueNoOffsets)
      requires InTable(ColumnFrom(p, c, 0) + rest, |before|) && start + |ColumnFrom(p, c, 0)| + |rest| == |pages|
      modifies this`valueNoOffsets
      ensures |outCols| == |before| && InTable(rest, |before|) && pagesIdx + |rest| <= |pages|
      ensures Spread(ColumnFrom(p, c, 0) + rest, pages[start..], before)
           == if ok then Spread(rest, pages[pagesIdx..], outCols) else None
      ensures ok ==> Plans(p) && AllZero(valueNoOffsets) && pagesIdx + |rest| == |pages|
    {
      hide ValidPlan, Within, Spread, ColumnFrom, InTable;
      outCols, pagesIdx, ok := before, start, true;
      InTableBehind(ColumnFrom(p, c, 0), rest, |before|);
      while valueNoOffsets[c] < columnChunksValuesNo[c + 1] - columnChunksValuesNo[c]
        invariant Plans(p) && AllZero(valueNoOffsets[c := 0]) && valueNoOffsets[c] <= Size(p.chunks, c)
              && |outCols| == |before| && ok
        invariant pagesIdx + |ColumnFrom(p, c, valueNoOffsets[c])| + |rest| == |pages|
        invariant InTable(ColumnFrom(p, c, valueNoOffsets[c]) + rest, |before|)
        invariant Spread(ColumnFrom(p, c, 0) + rest, pages[start..], before)
               == Spread(ColumnFrom(p, c, valueNoOffsets[c]) + rest, pages[pagesIdx..], outCols)
        decreases Size(p.chunks, c) - valueNoOffsets[c]
      {
        var v := valueNoOffsets[c];
        ghost var s := Slot(c, v, p.chunks[c] + v, Plain);
        ColumnStep(p, c, v);
        HeadFirst(ColumnFrom(p, c, v), s, ColumnFrom(p, c, v + 1), rest);
        SpreadNext(ColumnFrom(p, c, v) + rest, s, ColumnFrom(p, c, v + 1) + rest, pages, pagesIdx, outCols);
        var page := pages[pagesIdx];
        PlainData(page, outCols[c]);
        if page == [] {
          ok := false;
          return;
        }
        var k := 0;
        if page[0] == 3 {
          k := 7;
        } else if page[0] == 2 {
          k := 6;
        }
        var more := ReadEntries(page, k, outCols[c]);
        if more.None? {
          ok := false;
          return;
        }
        outCols := outCols[c := more.value];
        pagesIdx := pagesIdx + 1;
        assert valueNoOffsets[c := v + 1][c := 0] == valueNoOffsets[c := 0];
        valueNoOffsets := valueNoOffsets[c := v + 1];
      }
      ColumnStep(p, c, valueNoOffsets[c]);
      assert ColumnFrom(p, c, valueNoOffsets[c]) + rest == rest;
      valueNoOffsets := valueNoOffsets[c := 0];
    }

    /** Hands the pages to their columns, visiting the slots again in the order of the keys. */
    method ReadPages(perturbed: seq<nat>, outputs: seq<nat>, pages: seq<Bytes>, ghost p: Plan)
      returns (outCols: seq<seq<Entry>>, ok: bool)
      requires Plans(p) && perturbed == p.perturbed && outputs == p.outputs && AllZero(valueNoOffsets)
      requires p.order == if perturbed == [] then [] else columnPermutation
      requires InTable(Slots(p), columnsNo) && |pages| == |Slots(p)|
      modifies this`valueNoOffsets
      ensures Spread(Slots(p), pages, NoData(columnsNo)) == if ok then Some(outCols) else None
      ensures ok ==> Plans(p) && AllZero(valueNoOffsets)
    {
      hide ValidPlan, Within, Spread, AllZero, PerturbedFrom, OutputsFrom, ColumnFrom, InTable;
      outCols, ok := NoData(columnsNo), true;
      var pagesIdx: nat := 0;
      assert pages[0..] == pages;
      if |perturbed| > 0 {
        outCols, pagesIdx, ok := ReadGroups(perturbed, pages, outCols, p, OutputsFrom(p, 0));
        if !ok {
          return;
        }
      } else {
        NoGroup(p);
        assert [] + OutputsFrom(p, 0) == OutputsFrom(p, 0);
      }
      for o := 0 to |outputs|
        invariant Plans(p) && AllZero(valueNoOffsets) && |outCols| == columnsNo && ok
        invariant pagesIdx + |OutputsFrom(p, o)| == |pages| && InTable(OutputsFrom(p, o), columnsNo)
        invariant Spread(Slots(p), pages, NoData(columnsNo)) == Spread(OutputsFrom(p, o), pages[pagesIdx..], outCols)
      {
        OutputStep(p, o);
        OutputInside(p, o, columnsNo);
        outCols, pagesIdx, ok := ReadColumn(outputs[o], pages, pagesIdx, outCols, p, OutputsFrom(p, o + 1));
        if !ok {
          return;
        }
      }
      NoOutput(p);
      NothingToSpread(pages[pagesIdx..], outCols);
    }

    method GetPerturbedRows(elemKeys: seq<Bytes>, decompress: bool, n: int, serve: seq<Request> -> Reply)
      returns (rows: Rows)
      requires Valid() && AllZero(valueNoOffsets) && Answers(serve)
      modifies this`valueNoOffsets
      ensures rows == PerturbedRows(old(ThePlan()), columnsNo, elemKeys, decompress, n, serve)
      ensures rows.Rows? ==> AllZero(valueNoOffsets) && |valueNoOffsets| == columnsNo
    {
      var perturbed, outputs := ColumnIndices();
      ghost var p := ThePlan();
      hide *;
      PlanFits(p);
      var keys, getCondNo, getNo, missing := BuildKeys(perturbed, outputs, elemKeys, p);
      if missing.Some? {
        RowsWithoutKey(p, columnsNo, elemKeys, decompress, n, serve, missing.value);
        return Failed(MissingKey(missing.value));
      }
      RowsWithKeys(p, columnsNo, elemKeys, decompress, n, serve, keys);
      FetchedLength(keys, getCondNo, decompress, n, serve);
      FetchedIs(keys, getCondNo, decompress, n, serve);
      var bulk := GetBulkN(keys, getCondNo, getNo, decompress, n, serve);
      if !bulk.Values? {
        return Failed(Bulk(bulk));
      }
      HandOutIs(p, columnsNo, bulk.values);
      var outCols, ok := ReadPages(perturbed, outputs, bulk.values, p);
      rows := if ok then Rows(outCols) else Failed(Ragged);
    }

    lemma {:induction false} PlanFits(p: Plan)
      requires Valid() && p == ThePlan()
      ensures Plans(p) && p.perturbed == Perturbed() && p.outputs == Outputs()
      ensures p.order == if p.perturbed == [] then [] else columnPermutation
    {
    }
  }
}
