/** A compiled pattern, read back from its bytes, accepts exactly the words of the pattern. */
module RegexTheorem {
  import opened RegexPattern
  import opened RegexGraph
  import opened RegexAccepts
  import opened RegexFixup
  import opened RegexRename
  import opened RegexLayout
  import opened RegexTables
  import opened RegexReader
  import opened RegexPacking
  import opened RegexParsed
  import opened RegexLanguage
  import opened RegexCompile

  // ----- the graph of a pattern needs no fix-up -----

  lemma {:induction false} WholeIsSound(ps: seq<Piece>)
    requires Formed(ps)
    ensures Sound(Whole(ps)) && RangesArePairs(Tokens(ps))
  {
    var n, m := |ps|, |Tokens(ps)|;
    ParsePrinted(ps, 0, n, m);
    assert ps[0..] == ps && ps[..0] == [];
    assert GraphOf(ps, 0) == Graph([], []);
    ParseMirrored(Graph([], []), Print(ps), n, m);
    ParsedPairs(Graph([], []), Print(ps), n, m);
    assert ps[..n] == ps;
  }

  lemma {:induction false} ItemTokensNotEmpty(item: Item, j: nat)
    requires FormedItem(item) && j < |ItemTokens(item)|
    ensures ItemTokens(item)[j].chars != []
  {
  }

  lemma {:induction false} ItemTokensEven(item: Item, j: nat)
    requires WellFormedItem(item) && j < |ItemTokens(item)|
    ensures |ItemTokens(item)[j].chars| == |ItemTokens(item)[0].chars|
  {
  }

  /** Token `p` of state `k`, counted from the end. */
  lemma {:induction false} StateToken(ps: seq<Piece>, k: nat, p: nat)
    requires k < |ps| && p < |ItemTokens(ps[k].item)|
    ensures var ts := Whole(ps).states[k].tokens; var toks := ItemTokens(ps[k].item);
            |ts| == |toks| && 0 <= ts[p] < |Tokens(ps)| && Tokens(ps)[ts[p]] == toks[|toks| - 1 - p]
  {
    hide Tokens, ItemTokens;
    var toks, end := ItemTokens(ps[k].item), |Tokens(ps[..k + 1])|;
    TokenPlaces(ps, k);
    assert Whole(ps).states[k] == StateOf(ps, k, |ps|);
    assert Tokens(ps)[end - |toks|..end][|toks| - 1 - p] == toks[|toks| - 1 - p];
  }

  lemma {:induction false} WholeIsEven(ps: seq<Piece>)
    requires WellFormed(ps)
    ensures EvenUpTo(Whole(ps), |ps|)
  {
    var g := Whole(ps);
    assert ps[..|ps|] == ps;
    forall k | 0 <= k < |ps|
      ensures EvenState(g, k)
    {
      var toks := ItemTokens(ps[k].item);
      forall p | 0 <= p < |g.states[k].tokens|
        ensures SameLength(g.tokens, g.states[k].tokens[p], g.states[k].tokens[0])
      {
        StateToken(ps, k, p);
        StateToken(ps, k, 0);
        ItemTokensEven(ps[k].item, |toks| - 1 - p);
        ItemTokensEven(ps[k].item, |toks| - 1);
      }
    }
  }

  lemma {:induction false} TokensNotEmpty(ps: seq<Piece>)
    requires forall k :: 0 <= k < |ps| ==> FormedItem(ps[k].item)
    ensures forall t :: 0 <= t < |Tokens(ps)| ==> Tokens(ps)[t].chars != []
  {
    if ps != [] {
      var item := ps[|ps| - 1].item;
      TokensNotEmpty(ps[..|ps| - 1]);
      assert FormedItem(item);
      forall j | 0 <= j < |ItemTokens(item)|
        ensures ItemTokens(item)[j].chars != []
      {
        ItemTokensNotEmpty(item, j);
      }
    }
  }

  // ----- the array after parsing -----

  /** Where reading starts: the single state of a one-piece pattern is the accepting state. */
  function Entry(ps: seq<Piece>, stateCnt: nat): (s: nat)
    requires 0 < stateCnt
  {
    if |ps| == 1 then stateCnt - 1 else 0
  }

  /** The states of the pattern with blank ones behind, as many as the hardware has. */
  function Padded(ps: seq<Piece>, stateCnt: nat): (g: Graph)
    requires |ps| <= stateCnt
    ensures |g.states| == stateCnt
  {
    Graph(Whole(ps).states + BlankStates(stateCnt - |ps|), Tokens(ps))
  }

  /** The graph whose tables are packed. */
  function Moved(ps: seq<Piece>, stateCnt: nat): (g: Graph)
    requires 0 < |ps| <= stateCnt
    ensures |g.states| == stateCnt
  {
    var g := Padded(ps, stateCnt);
    g.(states := Swapped(g.states, |ps| - 1, stateCnt - 1))
  }

  lemma {:induction false} PaddedSound(ps: seq<Piece>, stateCnt: nat)
    requires WellFormed(ps) && |ps| <= stateCnt
    ensures Sound(Padded(ps, stateCnt))
  {
    var g := Padded(ps, stateCnt);
    WholeIsSound(ps);
    assert ps[..|ps|] == ps;
    forall s | 0 <= s < stateCnt
      ensures SoundState(g.states[s], stateCnt, |g.tokens|)
    {
      if s < |ps| {
        assert SoundState(Whole(ps).states[s], |ps|, |g.tokens|);
      }
    }
  }

  lemma {:induction false} SwappedTargets(edges: seq<int>, i: nat, l: nat, n: nat)
    requires Targets(edges, n) && i < n && l < n
    ensures Targets(SwAll(edges, i, l), n)
  {
  }

  lemma {:induction false} SwappedSound(g: Graph, i: nat, l: nat)
    requires Sound(g) && i < |g.states| && l < |g.states|
    ensures Sound(g.(states := Swapped(g.states, i, l)))
  {
    var h, n := g.(states := Swapped(g.states, i, l)), |g.states|;
    forall s | 0 <= s < n
      ensures SoundState(h.states[s], n, |h.tokens|)
    {
      var was := g.states[Sw(s, i, l)];
      assert SoundState(was, n, |g.tokens|);
      SwappedTargets(was.inEdges, i, l, n);
      SwappedTargets(was.outEdges, i, l, n);
    }
  }

  /** The last piece is the only accepting state, and it has no edge to itself or beyond. */
  lemma {:induction false} LastAccepts(ps: seq<Piece>, stateCnt: nat)
    requires WellFormed(ps) && |ps| <= stateCnt
    ensures FirstAccepting(AllStates(Whole(ps), stateCnt), |ps|) == |ps| - 1
    ensures Unlinked(AllStates(Whole(ps), stateCnt)[|ps| - 1], |ps| - 1, stateCnt - 1)
  {
    hide Tokens, ItemTokens, FormedItem, Level;
    var n := |ps|;
    var i := FirstAccepting(AllStates(Whole(ps), stateCnt), n);
    assert forall k :: 0 <= k < n ==> AllStates(Whole(ps), stateCnt)[k] == StateOf(ps, k, n);
    assert StateOf(ps, n - 1, n).accepting;
  }

  lemma {:induction false} RenamedIsMoved(ps: seq<Piece>, stateCnt: nat)
    requires WellFormed(ps) && |ps| <= stateCnt
    ensures Renamed(AllStates(Whole(ps), stateCnt), |ps|, |ps| - 1, stateCnt)[..stateCnt] == Moved(ps, stateCnt).states
  {
    hide Renamed, Tokens, StateOf, Unlinked, WellFormed;
    var all, n := AllStates(Whole(ps), stateCnt), |ps|;
    LastAccepts(ps, stateCnt);
    PaddedSound(ps, stateCnt);
    assert all[..stateCnt] == Padded(ps, stateCnt).states;
    forall k | 0 <= k < stateCnt
      ensures Targets(all[k].inEdges, stateCnt) && Targets(all[k].outEdges, stateCnt)
    {
      assert all[k] == Padded(ps, stateCnt).states[k];
      assert SoundState(all[k], stateCnt, |Tokens(ps)|);
    }
    assert all[n..] == BlankStates(stateCnt + 1 - n);
    RenameIsSwap(all, n, n - 1, stateCnt);
  }

  lemma {:induction false} TablesOfPrefix(states: seq<State>, tokens: seq<Token>, charCnt: nat, stateCnt: nat)
    requires 0 < stateCnt <= |states|
    ensures TablesOf(states, tokens, stateCnt - 1, charCnt, stateCnt)
         == GraphTables(Graph(states[..stateCnt], tokens), charCnt)
  {
    var a := TablesOf(states, tokens, stateCnt - 1, charCnt, stateCnt);
    var b := GraphTables(Graph(states[..stateCnt], tokens), charCnt);
    forall s | 0 <= s < stateCnt
      ensures a.triggers[s] == b.triggers[s] && a.edges[s] == b.edges[s] && a.lengths[s] == b.lengths[s]
            && a.sticky[s] == b.sticky[s]
    {
      assert states[..stateCnt][s] == states[s];
    }
  }

  lemma {:induction false} MovedFits(ps: seq<Piece>, charCnt: nat, stateCnt: nat)
    requires WellFormed(ps) && |ps| <= stateCnt && charCnt % 2 == 0 && End(Tokens(ps), |Tokens(ps)|) <= charCnt
    ensures Fitting(Moved(ps, stateCnt), charCnt)
  {
    hide Swapped, Sound, Tokens, RangesArePairs, End;
    WholeIsSound(ps);
    PaddedSound(ps, stateCnt);
    SwappedSound(Padded(ps, stateCnt), |ps| - 1, stateCnt - 1);
    TokensNotEmpty(ps);
  }

  // ----- what is compiled -----

  lemma {:induction false} NotMoreTokensThanChars(tokens: seq<Token>, n: nat)
    requires n <= |tokens| && forall t :: 0 <= t < |tokens| ==> tokens[t].chars != []
    ensures n <= End(tokens, n)
  {
    if n > 0 {
      NotMoreTokensThanChars(tokens, n - 1);
    }
  }

  /** Up to the layout, a pattern that fits the arrays always gets through. */
  lemma {:induction false} PrintedFinishes(ps: seq<Piece>, charCnt: nat, stateCnt: nat)
    requires WellFormed(ps) && |ps| <= stateCnt && |Tokens(ps)| <= charCnt + 1
    ensures Compiled(Print(ps), charCnt, stateCnt) == Finished(Whole(ps), charCnt, stateCnt)
  {
    hide Finished, Sound, EvenUpTo, ParseFrom, FixFrom, Print, Formed;
    ParsePrinted(ps, 0, stateCnt + 1, charCnt + 1);
    assert ps[0..] == ps && ps[..0] == [];
    assert GraphOf(ps, 0) == Graph([], []);
    WholeIsSound(ps);
    WholeIsEven(ps);
    EvenGraphStays(Whole(ps), 0, stateCnt + 1);
  }

  lemma {:induction false} MovedIsLaid(ps: seq<Piece>, charCnt: nat, stateCnt: nat)
    requires WellFormed(ps) && |ps| <= stateCnt && charCnt % 2 == 0
    ensures Finished(Whole(ps), charCnt, stateCnt)
         == if End(Tokens(ps), |Tokens(ps)|) > charCnt then TooLong
            else Config(PackTables(GraphTables(Moved(ps, stateCnt), charCnt)))
  {
    hide PackTables, GraphTables, TablesOf, Renamed, Swapped, StateFits, Fitting, Unlinked, FirstAccepting;
    var tokens := Tokens(ps);
    assert ps[..|ps|] == ps;
    var states := Renamed(AllStates(Whole(ps), stateCnt), |ps|, |ps| - 1, stateCnt);
    LastAccepts(ps, stateCnt);
    RenamedIsMoved(ps, stateCnt);
    TablesOfPrefix(states, tokens, charCnt, stateCnt);
    if End(tokens, |tokens|) <= charCnt {
      MovedFits(ps, charCnt, stateCnt);
      forall s | 0 <= s < stateCnt
        ensures StateFits(states[s], Offsets(tokens, |tokens|), charCnt, stateCnt)
      {
        assert states[s] == Moved(ps, stateCnt).states[s];
        OffsetsFit(Moved(ps, stateCnt), charCnt, s);
      }
    }
  }

  /** A pattern compiles to the packed tables of its chain, or does not fit the characters. */
  lemma {:induction false} PrintedCompiles(ps: seq<Piece>, charCnt: nat, stateCnt: nat)
    requires WellFormed(ps) && |ps| <= stateCnt && |Tokens(ps)| <= charCnt + 1 && charCnt % 2 == 0
    ensures Compiled(Print(ps), charCnt, stateCnt)
         == if End(Tokens(ps), |Tokens(ps)|) > charCnt then TooLong
            else Config(PackTables(GraphTables(Moved(ps, stateCnt), charCnt)))
  {
    PrintedFinishes(ps, charCnt, stateCnt);
    MovedIsLaid(ps, charCnt, stateCnt);
  }

  // ----- what is accepted -----

  lemma {:induction false} PaddedReads(ps: seq<Piece>, stateCnt: nat, k: nat, w: Text)
    requires WellFormed(ps) && |ps| <= stateCnt && k < |ps|
    ensures Leaves(Padded(ps, stateCnt), k, w) <==> Leaves(Whole(ps), k, w)
  {
    var g, h := Whole(ps), Padded(ps, stateCnt);
    assert ps[..|ps|] == ps;
    assert g.states[k] == h.states[k] && g.tokens == h.tokens;
    assert forall u :: StateWord(g, k, u) == StateWord(h, k, u);
  }

  lemma {:induction false} PaddedIsChain(ps: seq<Piece>, stateCnt: nat)
    requires WellFormed(ps) && |ps| <= stateCnt
    ensures IsChain(Padded(ps, stateCnt), ps)
  {
    var g, h := Whole(ps), Padded(ps, stateCnt);
    WholeIsChain(ps);
    forall k, w | 0 <= k < |ps|
      ensures Leaves(h, k, w) <==> StopWord(ps[k], w)
    {
      PaddedReads(ps, stateCnt, k, w);
    }
    forall q, r | 0 <= q && 0 <= r
      ensures Edge(h, q, r) <==> r < |ps| && (q + 1 == r || (q == r && ps[r].plus))
    {
      assert r < |ps| ==> h.states[r] == g.states[r] && (Edge(h, q, r) <==> Edge(g, q, r));
      assert |ps| <= r < stateCnt ==> h.states[r] == BLANK;
    }
  }

  lemma {:induction false} MovedAccepts(ps: seq<Piece>, stateCnt: nat, w: Text)
    requires WellFormed(ps) && |ps| <= stateCnt
    ensures Accepts(Moved(ps, stateCnt), Entry(ps, stateCnt), stateCnt - 1, w) <==> Matches(ps, w)
  {
    hide Accepts, Matches, Swapped, IsChain;
    PaddedIsChain(ps, stateCnt);
    ChainAcceptsPattern(Padded(ps, stateCnt), ps, w);
    SwapKeepsLanguage(Padded(ps, stateCnt), |ps| - 1, stateCnt - 1, 0, |ps| - 1, w);
  }

  lemma {:induction false} LengthsIgnored(t: Tables, lengths: seq<nat>, path: seq<nat>, w: Text)
    requires |t.triggers| == |t.sticky|
    ensures TableWalks(t.(lengths := lengths), path, w) <==> TableWalks(t, path, w)
    decreases |path|
  {
    var t' := t.(lengths := lengths);
    assert forall q, u :: 0 <= q < |t.triggers| ==> TableWord(t, q, u) == TableWord(t', q, u);
    if path != [] && path[0] < |t.sticky| {
      forall u
        ensures TableLeaves(t', path[0], u) <==> TableLeaves(t, path[0], u)
      {
      }
      if |path| > 1 {
        forall v
          ensures TableWalks(t', path[1..], v) <==> TableWalks(t, path[1..], v)
        {
          LengthsIgnored(t, lengths, path[1..], v);
        }
      }
    }
  }

  ghost predicate Fits(ps: seq<Piece>, charCnt: nat, stateCnt: nat) {
    && charCnt % 16 == 0 && stateCnt % 2 == 0 && |ps| <= stateCnt && End(Tokens(ps), |Tokens(ps)|) <= charCnt
    && forall t :: 0 <= t < |Tokens(ps)| ==> |Tokens(ps)[t].chars| <= 16
  }

  lemma {:induction false} TablesPackable(g: Graph, charCnt: nat)
    requires charCnt % 16 == 0 && |g.states| % 2 == 0
    requires forall t :: 0 <= t < |g.tokens| ==> |g.tokens[t].chars| <= 16
    ensures Packable(GraphTables(g, charCnt), charCnt, |g.states|)
  {
  }

  lemma {:induction false} MovedPackable(ps: seq<Piece>, charCnt: nat, stateCnt: nat)
    requires WellFormed(ps) && Fits(ps, charCnt, stateCnt)
    ensures |ps| <= stateCnt && 0 < |ps| && |Tokens(ps)| <= charCnt + 1 && charCnt % 2 == 0
          && End(Tokens(ps), |Tokens(ps)|) <= charCnt
    ensures Packable(GraphTables(Moved(ps, stateCnt), charCnt), charCnt, stateCnt)
  {
    hide Packable, GraphTables, Swapped, Tokens, End;
    TokensNotEmpty(ps);
    NotMoreTokensThanChars(Tokens(ps), |Tokens(ps)|);
    TablesPackable(Moved(ps, stateCnt), charCnt);
  }

  /** The decoded tables of a compiled pattern. */
  lemma {:induction false} CompiledDecodes(ps: seq<Piece>, charCnt: nat, stateCnt: nat)
    requires WellFormed(ps) && Fits(ps, charCnt, stateCnt)
    ensures 0 < |ps| <= stateCnt
    ensures var o, t := Compiled(Print(ps), charCnt, stateCnt), GraphTables(Moved(ps, stateCnt), charCnt);
            && o.Config? && |o.bytes| == ConfigLength(charCnt, stateCnt)
            && Decode(o.bytes, charCnt, stateCnt) == t.(lengths := AtLeastOne(t.lengths))
  {
    hide *;
    MovedPackable(ps, charCnt, stateCnt);
    PrintedCompiles(ps, charCnt, stateCnt);
    DecodePacked(GraphTables(Moved(ps, stateCnt), charCnt), charCnt, stateCnt);
  }

  /** The lengths only delay the hardware: they do not show in the path language. */
  lemma {:induction false} LengthsNeverMatter(t: Tables, lengths: seq<nat>, start: nat, end: nat, w: Text)
    requires |t.triggers| == |t.sticky|
    ensures TableAccepts(t.(lengths := lengths), start, end, w) <==> TableAccepts(t, start, end, w)
  {
    hide TableWalks;
    forall path
      ensures TableWalks(t.(lengths := lengths), path, w) <==> TableWalks(t, path, w)
    {
      LengthsIgnored(t, lengths, path, w);
    }
  }

  lemma {:induction false} MovedTablesAccept(ps: seq<Piece>, charCnt: nat, stateCnt: nat, w: Text)
    requires WellFormed(ps) && Fits(ps, charCnt, stateCnt)
    ensures var t := GraphTables(Moved(ps, stateCnt), charCnt);
            TableAccepts(t, Entry(ps, stateCnt), stateCnt - 1, w) <==> Matches(ps, w)
  {
    hide TableAccepts, GraphTables, Swapped, Accepts, Matches, Fitting, Tokens, End, Padded, Whole, Entry;
    MovedFits(ps, charCnt, stateCnt);
    TablesAcceptLanguage(Moved(ps, stateCnt), charCnt, Entry(ps, stateCnt), stateCnt - 1, w);
    MovedAccepts(ps, stateCnt, w);
  }

  /** The bytes compiled from a pattern, read back as the hardware slices them, lead from the entry
      state to the last state exactly on the words of the pattern. */
  lemma {:induction false} CompiledAcceptsPattern(ps: seq<Piece>, charCnt: nat, stateCnt: nat, w: Text)
    requires WellFormed(ps) && Fits(ps, charCnt, stateCnt)
    ensures var o := Compiled(Print(ps), charCnt, stateCnt);
            && o.Config? && |o.bytes| == ConfigLength(charCnt, stateCnt)
            && (var t := Decode(o.bytes, charCnt, stateCnt);
                |t.triggers| == |t.sticky|
                      && (TableAccepts(t, Entry(ps, stateCnt), stateCnt - 1, w) <==> Matches(ps, w)))
  {
    hide Compiled, Decode, GraphTables, Print, TableAccepts, Matches, ConfigLength, AtLeastOne, Swapped, Tokens, End;
    var t := GraphTables(Moved(ps, stateCnt), charCnt);
    CompiledDecodes(ps, charCnt, stateCnt);
    MovedTablesAccept(ps, charCnt, stateCnt, w);
    LengthsNeverMatter(t, AtLeastOne(t.lengths), Entry(ps, stateCnt), stateCnt - 1, w);
  }

  // ----- what the hardware makes of two of the tables -----

  /** A state without incoming transitions is always active (rem_top_ff.v, lines 239-242). For the
      entry state that is so exactly when the first piece is not repeated. */
  lemma {:induction false} EntryAlwaysActive(ps: seq<Piece>, charCnt: nat, stateCnt: nat)
    requires WellFormed(ps) && Fits(ps, charCnt, stateCnt)
    ensures var o, e := Compiled(Print(ps), charCnt, stateCnt), Entry(ps, stateCnt);
            && o.Config? && |o.bytes| == ConfigLength(charCnt, stateCnt)
            && (var t := Decode(o.bytes, charCnt, stateCnt);
                |t.edges| == stateCnt && |t.edges[e]| == stateCnt
                && ((forall q :: 0 <= q < stateCnt ==> !t.edges[e][q]) <==> !ps[0].plus))
  {
    hide Compiled, Decode, Print, ConfigLength, AtLeastOne, Tokens, End;
    var e, g := Entry(ps, stateCnt), Moved(ps, stateCnt);
    CompiledDecodes(ps, charCnt, stateCnt);
    var edges := g.states[e].inEdges;
    assert edges == SwAll(if ps[0].plus then [0] else [], |ps| - 1, stateCnt - 1);
    if ps[0].plus {
      assert GraphTables(g, charCnt).edges[e][edges[0]];
    }
  }

  lemma {:induction false} ItemLengths(item: Item, n: nat)
    requires WellFormedItem(item) && n == |ItemTokens(item)[0].chars|
    ensures (forall w :: ItemWord(item, w) ==> |w| == n) <==> !item.Between?
  {
    match item
    case Literal(text) =>
    case OneOf(chars) =>
    case Between(lo, hi) => assert ItemWord(item, [lo]);
    case Either(alts) =>
  }

  lemma {:induction false} MovedLength(ps: seq<Piece>, charCnt: nat, stateCnt: nat, k: nat)
    requires WellFormed(ps) && |ps| <= stateCnt && k < |ps|
    ensures GraphTables(Moved(ps, stateCnt), charCnt).lengths[Sw(k, |ps| - 1, stateCnt - 1)]
          == |ItemTokens(ps[k].item)[0].chars|
  {
    var g, toks := Moved(ps, stateCnt), ItemTokens(ps[k].item);
    var s := g.states[Sw(k, |ps| - 1, stateCnt - 1)];
    StateToken(ps, k, 0);
    assert s.tokens == Whole(ps).states[k].tokens;
    ItemTokensEven(ps[k].item, |toks| - 1);
  }

  /** The length stored for the state of piece `k` is that of every word of its item, except for a
      range: 2 is stored although its words have one character. */
  lemma {:induction false} LengthTable(ps: seq<Piece>, charCnt: nat, stateCnt: nat, k: nat)
    requires WellFormed(ps) && Fits(ps, charCnt, stateCnt) && k < |ps|
    ensures var o := Compiled(Print(ps), charCnt, stateCnt);
            && o.Config? && |o.bytes| == ConfigLength(charCnt, stateCnt)
            && (var lengths, s := Decode(o.bytes, charCnt, stateCnt).lengths, Sw(k, |ps| - 1, stateCnt - 1);
                s < |lengths| && ((forall w :: ItemWord(ps[k].item, w) ==> |w| == lengths[s])
                      <==> !ps[k].item.Between?))
  {
    hide Compiled, Decode, Print, ConfigLength, Tokens, End, ItemWord;
    CompiledDecodes(ps, charCnt, stateCnt);
    MovedLength(ps, charCnt, stateCnt, k);
    assert WellFormedItem(ps[k].item);
    ItemTokensEven(ps[k].item, 0);
    ItemLengths(ps[k].item, |ItemTokens(ps[k].item)[0].chars|);
  }

  // ----- outside the fragment -----

  lemma {:induction false} JoinedThree(a: Text, b: Text, c: Text)
    ensures Joined([a, b, c]) == a + [BAR] + b + [BAR] + c
  {
    assert [a, b, c][..2] == [a, b] && [a, b][..1] == [a];
    assert Joined([a, b]) == a + [BAR] + b;
  }

  lemma {:induction false} ThreeAlternatives()
    ensures ScanItem([LPAREN, 97, 97, BAR, 98, 98, BAR, 99, RPAREN])
         == Scanned(9, [Token([97, 97], false), Token([98, 98], false), Token([99], false)])
  {
    hide ScanChoice, Joined;
    var alts: seq<Text> := [[97, 97], [98, 98], [99]];
    JoinedThree(alts[0], alts[1], alts[2]);
    assert forall i :: 0 <= i < 3 ==> alts[i] != [] && Free(alts[i], {LPAREN, RPAREN, BAR});
    ScanEither(alts, []);
    var joined: Text := [97, 97, BAR, 98, 98, BAR, 99];
    assert Joined(alts) == joined;
    assert [LPAREN] + joined + [RPAREN] + [] == [LPAREN, 97, 97, BAR, 98, 98, BAR, 99, RPAREN];
    assert AltTokens(alts) == [Token([97, 97], false), Token([98, 98], false), Token([99], false)];
  }

  /** `(aa|bb|c)` is left with two tokens of different lengths in one state: the alternative `bb` is
      split off, `aa` takes its place and is never compared. */
  lemma {:induction false} FixupSkips()
    ensures var r := ParseFrom(Graph([], []), [LPAREN, 97, 97, BAR, 98, 98, BAR, 99, RPAREN], 5, 17);
            && r.Parsed? && Sound(r.graph) && |r.graph.states| <= 5
            && (var f := FixFrom(r.graph, 0, 5);
                f.Fixed? && f.graph.states != [] && f.graph.states[0].tokens == [2, 0] && !EvenState(f.graph, 0))
  {
    var text := [LPAREN, 97, 97, BAR, 98, 98, BAR, 99, RPAREN];
    var tokens := [Token([97, 97], false), Token([98, 98], false), Token([99], false)];
    var g := Graph([State(0, [], [], false, [2, 1, 0], true)], tokens);
    ThreeAlternatives();
    ParseTurn(Graph([], []), text, 5, 17);
    assert LastTokens(3, 3) == [2, 1, 0];
    assert [] + tokens == tokens;
    assert ParseStep(Graph([], []), text, 5, 17) == Ahead(g, 9);
    assert text[9..] == [];
    SplitsOne(g);
  }

  lemma {:induction false} SplitsOne(g: Graph)
    requires g == Graph([State(0, [], [], false, [2, 1, 0], true)],
                        [Token([97, 97], false), Token([98, 98], false), Token([99], false)])
    ensures Sound(g)
    ensures var f := FixFrom(g, 0, 5);
            f.Fixed? && f.graph.states != [] && f.graph.states[0].tokens == [2, 0] && !EvenState(f.graph, 0)
  {
    assert SoundState(g.states[0], 1, 3);
    var h := Split(g, 0, 1);
    SplitSound(g, 0, 1);
    SplitState(g, 0, 1, 0);
    SplitNew(g, 0, 1);
    assert Removed([2, 1, 0], 1) == [2, 0];
    assert FixState(g, 0, 1, 5) == FixState(h, 0, 2, 5) == Fixed(h);
    assert FixFrom(h, 1, 5) == FixFrom(h, 2, 5) == Fixed(h);
    assert !SameLength(h.tokens, h.states[0].tokens[1], h.states[0].tokens[0]);
  }
}
