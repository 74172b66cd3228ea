/** Patterns whose alternatives differ in length: what the compiler makes of them, fix-up included. */
module RegexUneven {
  import Arithmetic
  import opened RegexPattern
  import opened RegexGraph
  import opened RegexAccepts
  import opened RegexFixup
  import opened RegexFixLanguage
  import opened RegexRename
  import opened RegexLayout
  import opened RegexTables
  import opened RegexReader
  import opened RegexPacking
  import opened RegexParsed
  import opened RegexLanguage
  import opened RegexCompile
  import opened RegexTheorem
  import RegexRoom

  // ----- what the fix-up leaves of the flags -----

  /** Accepting and sticky states and loops are those of `g`; further states are neither and do not loop. */
  predicate SameFlags(g: Graph, h: Graph) {
    && |g.states| <= |h.states| && g.tokens == h.tokens
    && forall k :: 0 <= k < |h.states| ==>
         && (h.states[k].accepting <==> k < |g.states| && g.states[k].accepting)
         && (h.states[k].sticky <==> k < |g.states| && g.states[k].sticky)
         && (Edge(h, k, k) <==> k < |g.states| && Edge(g, k, k))
  }

  lemma {:induction false} SplitFlags(g: Graph, i: nat, j: nat)
    requires Sound(g) && Mirrored(g.states) && i < |g.states| && j < |g.states[i].tokens|
    ensures SameFlags(g, Split(g, i, j))
  {
    hide Split, Edge, Sound, Mirrored;
    forall k | 0 <= k <= |g.states|
      ensures Split(g, i, j).states[k].accepting <==> k < |g.states| && g.states[k].accepting
      ensures Split(g, i, j).states[k].sticky <==> k < |g.states| && g.states[k].sticky
      ensures Edge(Split(g, i, j), k, k) <==> k < |g.states| && Edge(g, k, k)
    {
      SplitRest(g, i, j, k);
      SplitEdge(g, i, j, k, k);
    }
  }

  lemma {:induction false} FlagsOn(a: Graph, b: Graph, c: Graph)
    requires SameFlags(a, b) && SameFlags(b, c)
    ensures SameFlags(a, c)
  {
    hide Edge;
  }

  lemma {:induction false} FixStateFlags(g: Graph, i: nat, j: nat, max: nat)
    requires Sound(g) && Mirrored(g.states) && i < |g.states| <= max && 0 < j && FixState(g, i, j, max).Fixed?
    ensures SameFlags(g, FixState(g, i, j, max).graph)
    decreases |g.states[i].tokens| - j
  {
    hide Split, Edge;
    var ts := g.states[i].tokens;
    if j < |ts| {
      if !Differ(g.tokens, ts[j], ts[j - 1]) {
        FixStateFlags(g, i, j + 1, max);
      } else if |g.states| < max {
        var h := Split(g, i, j);
        SplitSound(g, i, j);
        SplitState(g, i, j, i);
        SplitMirrored(g, i, j);
        SplitFlags(g, i, j);
        FixStateFlags(h, i, j + 1, max);
        FlagsOn(g, h, FixState(h, i, j + 1, max).graph);
      }
    }
  }

  lemma {:induction false} FixFlags(g: Graph, i: nat, max: nat)
    requires Sound(g) && Mirrored(g.states) && |g.states| <= max && FixFrom(g, i, max).Fixed?
    ensures SameFlags(g, FixFrom(g, i, max).graph)
    decreases max - i
  {
    hide FixState, Sound, Mirrored, Edge;
    if i < |g.states| {
      var f := FixState(g, i, 1, max);
      FixStateMirrored(g, i, 1, max);
      FixStateFlags(g, i, 1, max);
      FixFlags(f.graph, i + 1, max);
      FlagsOn(g, f.graph, FixFrom(f.graph, i + 1, max).graph);
    }
  }

  // ----- from the fixed graph to the tables -----

  /** A graph that leaves the last state of the hardware free, with one accepting state that does not loop. */
  ghost predicate Ready(h: Graph, acc: nat, charCnt: nat, stateCnt: nat) {
    && Sound(h) && Mirrored(h.states) && acc < |h.states| < stateCnt
    && (forall k :: 0 <= k < |h.states| ==> (h.states[k].accepting <==> k == acc))
    && !Edge(h, acc, acc)
    && charCnt % 2 == 0 && RangesArePairs(h.tokens) && End(h.tokens, |h.tokens|) <= charCnt
    && forall t :: 0 <= t < |h.tokens| ==> h.tokens[t].chars != []
  }

  /** The graph with blank states up to the number of the hardware. */
  function Filled(h: Graph, stateCnt: nat): (g: Graph)
    requires |h.states| <= stateCnt
    ensures |g.states| == stateCnt && g.tokens == h.tokens
  {
    Graph(h.states + BlankStates(stateCnt - |h.states|), h.tokens)
  }

  /** And with the accepting state in the last place. */
  function Placed(h: Graph, acc: nat, stateCnt: nat): (g: Graph)
    requires acc < |h.states| <= stateCnt
    ensures |g.states| == stateCnt && g.tokens == h.tokens
  {
    Filled(h, stateCnt).(states := Swapped(Filled(h, stateCnt).states, acc, stateCnt - 1))
  }

  lemma {:induction false} FilledSound(h: Graph, stateCnt: nat)
    requires Sound(h) && |h.states| <= stateCnt
    ensures Sound(Filled(h, stateCnt))
  {
    var g := Filled(h, stateCnt);
    forall s | 0 <= s < stateCnt
      ensures SoundState(g.states[s], stateCnt, |g.tokens|)
    {
      if s < |h.states| {
        assert SoundState(h.states[s], |h.states|, |h.tokens|);
      }
    }
  }

  lemma {:induction false} ReadyFits(h: Graph, acc: nat, charCnt: nat, stateCnt: nat)
    requires Ready(h, acc, charCnt, stateCnt)
    ensures Fitting(Placed(h, acc, stateCnt), charCnt)
  {
    hide Swapped, Sound, RangesArePairs, End, Mirrored, Edge;
    FilledSound(h, stateCnt);
    SwappedSound(Filled(h, stateCnt), acc, stateCnt - 1);
  }

  lemma {:induction false} ReadyUnlinked(h: Graph, acc: nat, charCnt: nat, stateCnt: nat)
    requires Ready(h, acc, charCnt, stateCnt)
    ensures Unlinked(h.states[acc], acc, stateCnt - 1)
  {
    assert SoundState(h.states[acc], |h.states|, |h.tokens|);
    assert MirroredAt(h.states, acc, acc);
    InMultiset(h.states[acc].inEdges, acc);
    InMultiset(h.states[acc].outEdges, acc);
  }

  lemma {:induction false} RenamedIsPlaced(h: Graph, acc: nat, charCnt: nat, stateCnt: nat)
    requires Ready(h, acc, charCnt, stateCnt)
    ensures FirstAccepting(AllStates(h, stateCnt), |h.states|) == acc
    ensures Renamed(AllStates(h, stateCnt), |h.states|, acc, stateCnt)[..stateCnt] == Placed(h, acc, stateCnt).states
  {
    hide Renamed, Swapped, Unlinked, Mirrored, End, RangesArePairs, Edge;
    var all, n := AllStates(h, stateCnt), |h.states|;
    FilledSound(h, stateCnt);
    assert all[..stateCnt] == Filled(h, stateCnt).states;
    assert forall k :: 0 <= k < n ==> all[k] == h.states[k];
    forall k | 0 <= k < stateCnt
      ensures Targets(all[k].inEdges, stateCnt) && Targets(all[k].outEdges, stateCnt)
    {
      assert all[k] == Filled(h, stateCnt).states[k];
      assert SoundState(all[k], stateCnt, |h.tokens|);
    }
    assert all[n..] == BlankStates(stateCnt + 1 - n);
    ReadyUnlinked(h, acc, charCnt, stateCnt);
    RenameIsSwap(all, n, acc, stateCnt);
  }

  lemma {:induction false} ReadyIsPacked(h: Graph, acc: nat, charCnt: nat, stateCnt: nat)
    requires Ready(h, acc, charCnt, stateCnt)
    ensures Finished(h, charCnt, stateCnt) == Config(PackTables(GraphTables(Placed(h, acc, stateCnt), charCnt)))
  {
    hide PackTables, GraphTables, TablesOf, Renamed, Swapped, StateFits, Fitting, Unlinked, FirstAccepting, Placed,
         Offsets;
    var g := Placed(h, acc, stateCnt);
    var states := Renamed(AllStates(h, stateCnt), |h.states|, acc, stateCnt);
    RenamedIsPlaced(h, acc, charCnt, stateCnt);
    TablesOfPrefix(states, h.tokens, charCnt, stateCnt);
    ReadyFits(h, acc, charCnt, stateCnt);
    forall s | 0 <= s < stateCnt
      ensures StateFits(states[s], Offsets(h.tokens, |h.tokens|), charCnt, stateCnt)
    {
      assert states[s] == g.states[s];
      OffsetsFit(g, charCnt, s);
    }
  }

  // ----- blank states read nothing -----

  lemma {:induction false} FilledLeaves(h: Graph, stateCnt: nat, q: nat, w: Text)
    requires |h.states| <= stateCnt && q < stateCnt
    ensures Leaves(Filled(h, stateCnt), q, w) <==> q < |h.states| && Leaves(h, q, w)
  {
    var g := Filled(h, stateCnt);
    if q < |h.states| {
      assert g.states[q] == h.states[q];
      assert forall u :: StateWord(g, q, u) == StateWord(h, q, u);
    } else {
      assert g.states[q] == BLANK;
    }
  }

  lemma {:induction false} FilledEdge(h: Graph, stateCnt: nat, q: nat, r: nat)
    requires |h.states| <= stateCnt
    ensures Edge(Filled(h, stateCnt), q, r) <==> Edge(h, q, r)
  {
    var g := Filled(h, stateCnt);
    if r < |h.states| {
      assert g.states[r] == h.states[r];
    } else if r < stateCnt {
      assert g.states[r] == BLANK;
    }
  }

  lemma {:induction false} FilledWalks(h: Graph, stateCnt: nat, path: seq<nat>, w: Text)
    requires |h.states| <= stateCnt
    ensures Walks(Filled(h, stateCnt), path, w) <==> Walks(h, path, w)
    decreases |path|
  {
    hide Leaves, Edge, Filled;
    var g := Filled(h, stateCnt);
    if path != [] && path[0] < stateCnt {
      forall u
        ensures Leaves(g, path[0], u) <==> path[0] < |h.states| && Leaves(h, path[0], u)
      {
        FilledLeaves(h, stateCnt, path[0], u);
      }
      if |path| > 1 {
        FilledEdge(h, stateCnt, path[0], path[1]);
        forall v
          ensures Walks(g, path[1..], v) <==> Walks(h, path[1..], v)
        {
          FilledWalks(h, stateCnt, path[1..], v);
        }
      }
    }
  }

  lemma {:induction false} PlacedAccepts(h: Graph, acc: nat, stateCnt: nat, start: nat, w: Text)
    requires acc < |h.states| <= stateCnt && start < stateCnt
    ensures Accepts(Placed(h, acc, stateCnt), Sw(start, acc, stateCnt - 1), stateCnt - 1, w)
       <==> Accepts(h, start, acc, w)
  {
    hide Walks, Swapped, Filled;
    forall path
      ensures Walks(Filled(h, stateCnt), path, w) <==> Walks(h, path, w)
    {
      FilledWalks(h, stateCnt, path, w);
    }
    SwapKeepsLanguage(Filled(h, stateCnt), acc, stateCnt - 1, start, acc, w);
  }

  // ----- room for the copies -----

  /** How many states the fix-up can add from state `i` on: one for each further token of a state that it splits. */
  function Growth(g: Graph, i: nat): (n: nat)
    decreases |g.states| - i
  {
    if i >= |g.states| then 0
    else (if Uniform(g, i) then 0 else |g.states[i].tokens| - 1) + Growth(g, i + 1)
  }

  /** States from `i` on hold as many tokens as before, and those added hold one. */
  predicate SameFrom(g: Graph, h: Graph, i: nat) {
    && |g.states| <= |h.states| && g.tokens == h.tokens
    && (forall k :: i <= k < |g.states| ==> h.states[k].tokens == g.states[k].tokens)
    && forall k :: |g.states| <= k < |h.states| ==> |h.states[k].tokens| == 1
  }

  lemma {:induction false} SameGrowth(g: Graph, h: Graph, i: nat)
    requires SameFrom(g, h, i)
    ensures Growth(h, i) == Growth(g, i)
    decreases |h.states| - i
  {
    if i < |h.states| {
      SameGrowth(g, h, i + 1);
    }
  }

  /** The loop over one state adds at most one state for each token still to be compared. */
  lemma {:induction false} FixStateRoom(g: Graph, i: nat, j: nat, max: nat)
    requires Sound(g) && i < |g.states| && 0 < j <= |g.states[i].tokens|
    requires |g.states| + |g.states[i].tokens| - j <= max
    ensures var f := FixState(g, i, j, max);
            f.Fixed? && |f.graph.states| <= |g.states| + |g.states[i].tokens| - j
    decreases |g.states[i].tokens| - j
  {
    hide Split, Sound;
    var ts := g.states[i].tokens;
    if j < |ts| {
      if !Differ(g.tokens, ts[j], ts[j - 1]) {
        FixStateRoom(g, i, j + 1, max);
      } else {
        var h := Split(g, i, j);
        SplitSound(g, i, j);
        SplitRest(g, i, j, i);
        if j < |Removed(ts, j)| {
          FixStateRoom(h, i, j + 1, max);
        }
      }
    }
  }

  lemma {:induction false} FixRoom(g: Graph, i: nat, max: nat)
    requires Sound(g) && |g.states| + Growth(g, i) <= max
    requires forall k :: 0 <= k < |g.states| ==> g.states[k].tokens != []
    ensures FixFrom(g, i, max).Fixed? && |FixFrom(g, i, max).graph.states| <= |g.states| + Growth(g, i)
    decreases max - i
  {
    hide FixState, Sound, Uniform;
    if i < |g.states| {
      if Uniform(g, i) {
        UniformStays(g, i, 1, max);
        FixRoom(g, i + 1, max);
      } else {
        FixStateRoom(g, i, 1, max);
        var h := FixState(g, i, 1, max).graph;
        FixStateKeeps(g, i, 1, max);
        SameGrowth(g, h, i + 1);
        KeptPrefix(g.tokens, g.states[i].tokens, 1, 0);
        FixRoom(h, i + 1, max);
      }
    }
  }

  // ----- patterns -----

  /** How many states the fix-up can add for a pattern. */
  function Copies(ps: seq<Piece>): (n: nat) {
    if ps == [] then 0
    else Copies(ps[..|ps| - 1]) + if Level(ps[|ps| - 1].item) then 0 else |ps[|ps| - 1].item.alts| - 1
  }

  lemma {:induction false} LevelIsUniform(ps: seq<Piece>, k: nat)
    requires Formed(ps) && k < |ps|
    ensures |Whole(ps).states| == |ps| && |Whole(ps).states[k].tokens| == |ItemTokens(ps[k].item)| > 0
    ensures Level(ps[k].item) ==> Uniform(Whole(ps), k)
  {
    hide Tokens, ItemTokens, FormedItem;
    var g, toks := Whole(ps), ItemTokens(ps[k].item);
    assert ps[..|ps|] == ps;
    assert FormedItem(ps[k].item);
    ItemHasTokens(ps[k].item);
    StateToken(ps, k, 0);
    if Level(ps[k].item) {
      forall p | 1 <= p < |g.states[k].tokens|
        ensures !Differ(g.tokens, g.states[k].tokens[p], g.states[k].tokens[p - 1])
      {
        StateToken(ps, k, p);
        StateToken(ps, k, p - 1);
        ItemTokensEven(ps[k].item, |toks| - 1 - p);
        ItemTokensEven(ps[k].item, |toks| - p);
      }
    }
  }

  lemma {:induction false} GrowthOfPattern(ps: seq<Piece>, k: nat)
    requires Formed(ps) && k <= |ps|
    ensures Growth(Whole(ps), k) <= Copies(ps) - Copies(ps[..k])
    decreases |ps| - k
  {
    hide Uniform, Level, Tokens, ItemTokens;
    if k == |ps| {
      assert ps[..k] == ps;
      WholeSize(ps);
    } else {
      GrowthOfPattern(ps, k + 1);
      assert ps[..k + 1][..k] == ps[..k];
      LevelIsUniform(ps, k);
      AltsAreTokens(ps[k].item);
    }
  }

  lemma {:induction false} WholeSize(ps: seq<Piece>)
    ensures |Whole(ps).states| == |ps|
  {
  }

  lemma {:induction false} AltsAreTokens(item: Item)
    ensures !Level(item) ==> item.Either? && |ItemTokens(item)| == |item.alts|
  {
  }

  /** Pieces with alternatives of different lengths stand between others, without a plus and without a gap. */
  predicate UnevenInside(ps: seq<Piece>) {
    forall k :: 0 <= k < |ps| ==> Level(ps[k].item) || (0 < k < |ps| - 1 && !ps[k].plus && !ps[k].gap)
  }

  lemma {:induction false} InsideIsPlain(ps: seq<Piece>)
    requires Formed(ps) && UnevenInside(ps)
    ensures |Whole(ps).states| == |ps|
    ensures SplitsArePlain(Whole(ps)) && Uniform(Whole(ps), 0) && Uniform(Whole(ps), |ps| - 1)
  {
    hide Uniform, Level, Tokens, ItemTokens;
    forall k | 0 <= k < |ps|
      ensures |Whole(ps).states| == |ps| && (Level(ps[k].item) ==> Uniform(Whole(ps), k))
      ensures !ps[k].plus && !ps[k].gap ==> Plain(Whole(ps), k)
    {
      LevelIsUniform(ps, k);
    }
  }

  /** The fix-up of a pattern that leaves the last state free. */
  lemma {:induction false} PatternIsReady(ps: seq<Piece>, charCnt: nat, stateCnt: nat)
    requires Formed(ps) && |ps| + Copies(ps) < stateCnt && charCnt % 2 == 0 && RegexRoom.Fits(ps, charCnt)
    ensures Sound(Whole(ps)) && Mirrored(Whole(ps).states) && |Whole(ps).states| == |ps|
    ensures var f := FixFrom(Whole(ps), 0, stateCnt + 1);
            && f.Fixed? && Ready(f.graph, |ps| - 1, charCnt, stateCnt)
            && Compiled(Print(ps), charCnt, stateCnt) == Finished(f.graph, charCnt, stateCnt)
  {
    hide Sound, Mirrored, Uniform, FixFrom, Finished, ParseFrom, Print, RegexRoom.Fits, End, RangesArePairs, Tokens;
    var g := Whole(ps);
    WholeIsSound(ps);
    ParsesWhole(ps, charCnt, stateCnt);
    forall k | 0 <= k < |ps|
      ensures |g.states| == |ps| && g.states[k].tokens != []
    {
      LevelIsUniform(ps, k);
    }
    GrowthOfPattern(ps, 0);
    assert ps[..0] == [];
    FixRoom(g, 0, stateCnt + 1);
    FixMirrored(g, 0, stateCnt + 1);
    FixFlags(g, 0, stateCnt + 1);
    WholeFlags(ps);
    RegexRoom.FitsIff(ps, charCnt);
    TokensNotEmpty(ps);
  }

  lemma {:induction false} WholeFlags(ps: seq<Piece>)
    requires Formed(ps)
    ensures Whole(ps).tokens == Tokens(ps) && |Whole(ps).states| == |ps|
    ensures forall k :: 0 <= k < |ps| ==> (Whole(ps).states[k].accepting <==> k == |ps| - 1)
    ensures !Edge(Whole(ps), |ps| - 1, |ps| - 1)
  {
    assert ps[..|ps|] == ps;
  }

  lemma {:induction false} ParsesWhole(ps: seq<Piece>, charCnt: nat, stateCnt: nat)
    requires Formed(ps) && |ps| < stateCnt && RegexRoom.Fits(ps, charCnt)
    ensures ParseFrom(Graph([], []), Print(ps), stateCnt + 1, charCnt + 1) == Parsed(Whole(ps))
    ensures Mirrored(Whole(ps).states)
  {
    hide ParseFrom, Print, RegexRoom.Fits, Formed;
    RegexRoom.FitsIff(ps, charCnt);
    RegexRoom.MoreTokensThanRoom(ps);
    ParsePrinted(ps, 0, stateCnt + 1, charCnt + 1);
    assert ps[0..] == ps && ps[..0] == [] && GraphOf(ps, 0) == Graph([], []);
    ParsedIsSound(Print(ps), charCnt, stateCnt);
  }

  /** The graph that the fix-up makes of a pattern. */
  function FixedGraph(ps: seq<Piece>, stateCnt: nat): (h: Graph)
    requires Formed(ps) && |ps| <= stateCnt + 1
  {
    WholeIsSound(ps);
    var f := FixFrom(Whole(ps), 0, stateCnt + 1);
    if f.Fixed? then f.graph else Whole(ps)
  }

  lemma {:induction false} FixedIsReady(ps: seq<Piece>, charCnt: nat, stateCnt: nat)
    requires Formed(ps) && |ps| + Copies(ps) < stateCnt && charCnt % 2 == 0 && RegexRoom.Fits(ps, charCnt)
    ensures 0 < |ps| && Ready(FixedGraph(ps, stateCnt), |ps| - 1, charCnt, stateCnt)
    ensures FixedGraph(ps, stateCnt).tokens == Tokens(ps) && |ps| - 1 < |FixedGraph(ps, stateCnt).states| < stateCnt
    ensures Compiled(Print(ps), charCnt, stateCnt) == Finished(FixedGraph(ps, stateCnt), charCnt, stateCnt)
  {
    hide Sound, Mirrored, FixFrom, Finished, Compiled, Print, RegexRoom.Fits, Tokens, Edge;
    PatternIsReady(ps, charCnt, stateCnt);
    FixFlags(Whole(ps), 0, stateCnt + 1);
    WholeFlags(ps);
  }

  /** The decoded tables of a compiled pattern are those of the fixed graph. */
  lemma {:induction false} UnevenDecodes(ps: seq<Piece>, charCnt: nat, stateCnt: nat)
    requires Formed(ps) && |ps| + Copies(ps) < stateCnt && RegexRoom.Fits(ps, charCnt)
    requires charCnt % 16 == 0 && stateCnt % 2 == 0
    requires forall t :: 0 <= t < |Tokens(ps)| ==> |Tokens(ps)[t].chars| <= 16
    ensures 0 < |ps| && |ps| - 1 < |FixedGraph(ps, stateCnt).states| < stateCnt
    ensures var g := Placed(FixedGraph(ps, stateCnt), |ps| - 1, stateCnt);
            var o, t := Compiled(Print(ps), charCnt, stateCnt), GraphTables(g, charCnt);
            && o.Config? && |o.bytes| == ConfigLength(charCnt, stateCnt)
            && Decode(o.bytes, charCnt, stateCnt) == t.(lengths := AtLeastOne(t.lengths))
  {
    hide *;
    EvenCount(charCnt);
    FixedIsReady(ps, charCnt, stateCnt);
    var h := FixedGraph(ps, stateCnt);
    ReadyIsPacked(h, |ps| - 1, charCnt, stateCnt);
    var g := Placed(h, |ps| - 1, stateCnt);
    TablesPackable(g, charCnt);
    DecodePacked(GraphTables(g, charCnt), charCnt, stateCnt);
  }

  lemma {:induction false} EvenCount(n: nat)
    requires n % 16 == 0
    ensures n % 2 == 0
  {
    Arithmetic.RemainderIs(n, 2, n / 16 * 8, 0);
  }

  lemma {:induction false} FixedAccepts(ps: seq<Piece>, charCnt: nat, stateCnt: nat, w: Text)
    requires Formed(ps) && |ps| + Copies(ps) < stateCnt && charCnt % 2 == 0 && RegexRoom.Fits(ps, charCnt)
    ensures 0 < |ps|
    ensures Accepts(FixedGraph(ps, stateCnt), 0, |ps| - 1, w) ==> Matches(ps, w)
    ensures UnevenInside(ps) ==> (Accepts(FixedGraph(ps, stateCnt), 0, |ps| - 1, w) <==> Matches(ps, w))
  {
    hide Sound, Mirrored, FixFrom, Finished, Compiled, Print, RegexRoom.Fits, Ready, Accepts, Matches, Uniform,
         SplitsArePlain, UnevenInside;
    PatternIsReady(ps, charCnt, stateCnt);
    GraphAcceptsPattern(ps, w);
    if Accepts(FixedGraph(ps, stateCnt), 0, |ps| - 1, w) {
      FixAddsNothing(Whole(ps), 0, stateCnt + 1, 0, |ps| - 1, w);
    }
    if UnevenInside(ps) {
      InsideIsPlain(ps);
      FixKeepsLanguage(Whole(ps), 0, stateCnt + 1, 0, |ps| - 1, w);
    }
  }

  lemma {:induction false} PlacedTablesAccept(ps: seq<Piece>, charCnt: nat, stateCnt: nat, w: Text)
    requires Formed(ps) && |ps| + Copies(ps) < stateCnt && charCnt % 2 == 0 && RegexRoom.Fits(ps, charCnt)
    ensures 0 < |ps| && |ps| - 1 < |FixedGraph(ps, stateCnt).states| < stateCnt
    ensures var t := GraphTables(Placed(FixedGraph(ps, stateCnt), |ps| - 1, stateCnt), charCnt);
            TableAccepts(t, Entry(ps, stateCnt), stateCnt - 1, w) <==> Accepts(FixedGraph(ps, stateCnt), 0, |ps| - 1, w)
  {
    hide *;
    FixedIsReady(ps, charCnt, stateCnt);
    var h := FixedGraph(ps, stateCnt);
    ReadyFits(h, |ps| - 1, charCnt, stateCnt);
    PlacedAccepts(h, |ps| - 1, stateCnt, 0, w);
    EntryIs(ps, stateCnt);
    TablesAcceptLanguage(Placed(h, |ps| - 1, stateCnt), charCnt, Entry(ps, stateCnt), stateCnt - 1, w);
  }

  lemma {:induction false} EntryIs(ps: seq<Piece>, stateCnt: nat)
    requires 0 < |ps| < stateCnt
    ensures Entry(ps, stateCnt) == Sw(0, |ps| - 1, stateCnt - 1)
  {
  }

  /** The bytes compiled from a pattern whose alternatives may differ in length, read back as the hardware slices them:
      only words of the pattern lead from the entry state to the last state, and all of them do if such alternatives
      stand between other pieces, without plus or gap. */
  lemma {:induction false} CompiledAcceptsUneven(ps: seq<Piece>, charCnt: nat, stateCnt: nat, w: Text)
    requires Formed(ps) && |ps| + Copies(ps) < stateCnt && RegexRoom.Fits(ps, charCnt)
    requires charCnt % 16 == 0 && stateCnt % 2 == 0
    requires forall t :: 0 <= t < |Tokens(ps)| ==> |Tokens(ps)[t].chars| <= 16
    ensures var o := Compiled(Print(ps), charCnt, stateCnt);
            && o.Config? && |o.bytes| == ConfigLength(charCnt, stateCnt)
            && var t := Decode(o.bytes, charCnt, stateCnt);
               && |t.triggers| == |t.sticky|
               && (TableAccepts(t, Entry(ps, stateCnt), stateCnt - 1, w) ==> Matches(ps, w))
               && (UnevenInside(ps) ==>
                     (TableAccepts(t, Entry(ps, stateCnt), stateCnt - 1, w) <==> Matches(ps, w)))
  {
    hide *;
    EvenCount(charCnt);
    UnevenDecodes(ps, charCnt, stateCnt);
    FixedAccepts(ps, charCnt, stateCnt, w);
    PlacedTablesAccept(ps, charCnt, stateCnt, w);
    var t := GraphTables(Placed(FixedGraph(ps, stateCnt), |ps| - 1, stateCnt), charCnt);
    LengthsNeverMatter(t, AtLeastOne(t.lengths), Entry(ps, stateCnt), stateCnt - 1, w);
  }

  // ----- a word that is lost -----

  /** What the fix-up leaves in each state. */
  lemma {:induction false} FixKeepsTokens(g: Graph, i: nat, max: nat, k: nat)
    requires Sound(g) && |g.states| <= max && i <= k < |g.states| && FixFrom(g, i, max).Fixed?
    ensures k < |FixFrom(g, i, max).graph.states|
    ensures FixFrom(g, i, max).graph.states[k].tokens == Kept(g.tokens, g.states[k].tokens, 1)
    decreases max - i
  {
    hide FixState, Sound, Kept;
    FixStateKeeps(g, i, 1, max);
    var h := FixState(g, i, 1, max).graph;
    if i < k {
      FixKeepsTokens(h, i + 1, max, k);
    } else {
      FixFromKeeps(h, i + 1, max, k);
    }
  }

  /** An accepted word ends with what its last state reads. */
  lemma {:induction false} LastStop(g: Graph, path: seq<nat>, w: Text) returns (n: nat)
    requires Walks(g, path, w)
    ensures n <= |w| && path != [] && path[|path| - 1] < |g.states| && Leaves(g, path[|path| - 1], w[n..])
    decreases |path|
  {
    if |path| == 1 {
      n := 0;
      assert w[0..] == w;
    } else {
      var u, v := FirstStop(g, path, w);
      var m := LastStop(g, path[1..], v);
      n := |u| + m;
      assert w[n..] == v[m..];
    }
  }

  const FIRST_PIECE: Piece := Piece(Literal([97]), false, false)
  const ALTERNATIVES: seq<Text> := [[98, 98], [99]]

  /** `a(bb|c)`. */
  const LOSING: seq<Piece> := [FIRST_PIECE, Piece(Either(ALTERNATIVES), false, false)]

  lemma {:induction false} LosingParts()
    ensures |LOSING| == 2 && LOSING[..1] == [FIRST_PIECE] && LOSING[1..] == [LOSING[1]]
    ensures [FIRST_PIECE][..0] == [] && [FIRST_PIECE][1..] == [] && [LOSING[1]][1..] == []
    ensures ALTERNATIVES[..1] == [[98, 98]] && ALTERNATIVES[..1][..0] == []
  {
  }

  lemma {:induction false} LosingForm()
    ensures Formed(LOSING) && Copies(LOSING) == 1
  {
    LosingParts();
    assert |ALTERNATIVES[0]| != |ALTERNATIVES[1]|;
    assert FormedItem(LOSING[0].item) && FormedItem(LOSING[1].item);
    assert Copies(LOSING[..1]) == 0;
  }

  lemma {:induction false} LosingText()
    ensures Print(LOSING) == [97, 40, 98, 98, 124, 99, 41]
  {
    LosingParts();
    assert Joined(ALTERNATIVES) == [98, 98, 124, 99];
    assert Print([LOSING[1]]) == [40, 98, 98, 124, 99, 41];
  }

  lemma {:induction false} LosingTokens()
    ensures Tokens(LOSING) == [Token([97], false), Token([98, 98], false), Token([99], false)]
    ensures |Tokens(LOSING[..1])| == 1
  {
    LosingParts();
    assert AltTokens(ALTERNATIVES) == [Token([98, 98], false), Token([99], false)];
    assert Tokens([FIRST_PIECE]) == [Token([97], false)];
  }

  lemma {:induction false} LosingFits()
    ensures RegexRoom.Fits(LOSING, 16)
  {
    LosingParts();
    assert RegexRoom.Total(ALTERNATIVES[..1]) == 2;
    assert RegexRoom.Total(ALTERNATIVES) == 3;
    assert RegexRoom.Placed(LOSING, [0, 1], 16);
  }

  lemma {:induction false} LosingMatches()
    ensures Matches(LOSING, [97, 98, 98])
  {
    LosingParts();
    var b: Text := [98, 98];
    assert b + [] == b && [97] + b == [97, 98, 98];
    assert b in ALTERNATIVES by { assert ALTERNATIVES[0] == b; }
    assert PieceWord(LOSING[1], b) && Matches([], []);
    assert Matches([LOSING[1]], b);
    assert PieceWord(LOSING[0], [97]) && Matches(LOSING[1..], b);
  }

  lemma {:induction false} LosingFixed()
    ensures Formed(LOSING) && |Whole(LOSING).states| == 2 && Sound(Whole(LOSING)) && Mirrored(Whole(LOSING).states)
    ensures var f := FixFrom(Whole(LOSING), 0, 5); f.Fixed? && f.graph == FixedGraph(LOSING, 4)
  {
    hide FixFrom, Sound, Mirrored, Formed, RegexRoom.Fits, Compiled, Finished, Whole, Ready;
    LosingForm();
    LosingFits();
    PatternIsReady(LOSING, 16, 4);
  }

  lemma {:induction false} LosingStates()
    ensures var g := Whole(LOSING);
            && |g.states| == 2 && g.tokens == Tokens(LOSING) && g.states[1].tokens == [2, 1] && !g.states[1].sticky
            && Differ(g.tokens, 1, 2)
  {
    hide Tokens;
    LosingTokens();
    LosingForm();
    WholeFlags(LOSING);
    assert LOSING[..2] == LOSING;
  }

  /** The state of the alternatives keeps `c` alone. */
  lemma {:induction false} LosingKeeps()
    ensures Formed(LOSING)
    ensures var h := FixedGraph(LOSING, 4);
            |h.states| > 1 && h.tokens == Tokens(LOSING) && h.states[1].tokens == [2] && !h.states[1].sticky
  {
    hide FixFrom, Sound, Mirrored, Edge, Formed, FixedGraph, Whole, Differ, Tokens;
    LosingFixed();
    LosingStates();
    var g := Whole(LOSING);
    FixFlags(g, 0, 5);
    FixKeepsTokens(g, 0, 5, 1);
    assert Removed([2, 1], 1) == [2];
  }

  /** `a(bb|c)` compiles, and the word `abb` is lost: alternatives of different lengths must not come last. */
  lemma {:induction false} LastAlternativeIsLost()
    ensures var o := Compiled([97, 40, 98, 98, 124, 99, 41], 16, 4);
            && o.Config? && |o.bytes| == ConfigLength(16, 4)
            && var t := Decode(o.bytes, 16, 4);
               |t.triggers| == |t.sticky| && !TableAccepts(t, 0, 3, [97, 98, 98])
    ensures Formed(LOSING) && Print(LOSING) == [97, 40, 98, 98, 124, 99, 41] && Matches(LOSING, [97, 98, 98])
  {
    hide Compiled, Decode, TableAccepts, Matches, ConfigLength, FixedGraph, Placed, GraphTables, AtLeastOne, Formed,
         Walks, RegexRoom.Fits, Print;
    LosingForm();
    LosingText();
    LosingFits();
    LosingMatches();
    LosingTokens();
    var w: Text := [97, 98, 98];
    UnevenDecodes(LOSING, 16, 4);
    PlacedTablesAccept(LOSING, 16, 4, w);
    LosingRejects(w);
    var t := GraphTables(Placed(FixedGraph(LOSING, 4), 1, 4), 16);
    LengthsNeverMatter(t, AtLeastOne(t.lengths), 0, 3, w);
  }

  lemma {:induction false} LosingRejects(w: Text)
    requires w == [97, 98, 98]
    ensures Formed(LOSING) && !Accepts(FixedGraph(LOSING, 4), 0, 1, w)
  {
    hide FixedGraph, Walks, Formed;
    LosingKeeps();
    LosingTokens();
    var h := FixedGraph(LOSING, 4);
    forall path | Joins(path, 0, 1)
      ensures !Walks(h, path, w)
    {
      if Walks(h, path, w) {
        var n := LastStop(h, path, w);
        assert false;
      }
    }
  }
}
