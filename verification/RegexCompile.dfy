/** The compiler as a whole (fregex.cpp, `fregex_get_config`). */
module RegexCompile {
  import opened RegexPattern
  import opened RegexGraph
  import opened RegexAccepts
  import opened RegexFixup
  import opened RegexRename
  import opened RegexLayout
  import opened RegexTables
  import opened RegexPacking
  import opened RegexParser

  /** `Endless`: the parse loop never ends. `Outside`: an access outside an array. `TooLong`: the
      tokens do not fit the characters, and 0 is returned. */
  datatype Outcome = Config(bytes: Text) | Endless | Outside | TooLong

  // ----- what the parser guarantees about tokens -----

  lemma {:induction false} BarsArePairs(t: Text)
    ensures RangesArePairs(SplitBars(t).closed)
  {
    if t != [] {
      BarsArePairs(t[..|t| - 1]);
    }
  }

  lemma {:induction false} ScannedPairs(t: Text)
    requires t != []
    ensures RangesArePairs(ScanItem(t).tokens)
  {
    BarsArePairs(t[..Span(t, {RPAREN})]);
  }

  lemma {:induction false} ParsedPairs(g: Graph, t: Text, maxStates: nat, maxTokens: nat)
    requires RangesArePairs(g.tokens)
    ensures var r := ParseFrom(g, t, maxStates, maxTokens); r.Parsed? ==> RangesArePairs(r.graph.tokens)
    decreases |t|
  {
    if t != [] {
      ScannedPairs(t);
      ParseTurn(g, t, maxStates, maxTokens);
      var p := ParseStep(g, t, maxStates, maxTokens);
      if p.Ahead? {
        ParsedPairs(p.graph, t[p.length..], maxStates, maxTokens);
      }
    }
  }

  /** Everything the later steps rely on, for any text. */
  lemma {:induction false} ParsedIsSound(pattern: Text, charCnt: nat, stateCnt: nat)
    ensures var r := ParseFrom(Graph([], []), pattern, stateCnt + 1, charCnt + 1);
            r.Parsed? ==> Sound(r.graph) && Mirrored(r.graph.states) && RangesArePairs(r.graph.tokens)
                          && |r.graph.states| <= stateCnt + 1
  {
    ParseMirrored(Graph([], []), pattern, stateCnt + 1, charCnt + 1);
    ParsedPairs(Graph([], []), pattern, stateCnt + 1, charCnt + 1);
  }

  lemma {:induction false} RenamedTokens(states: seq<State>, tokens: seq<Token>, used: nat, i: nat, m: nat)
    requires used <= |states| && 0 < m < |states| && i < |states|
    requires forall k :: 0 <= k < |states| ==> Valid(tokens, states[k].tokens)
    ensures forall k :: 0 <= k < |states| ==> Valid(tokens, Renamed(states, used, i, m)[k].tokens)
  {
    var p := Passes(states, used, i, m);
    forall k | 0 <= k < |states|
      ensures p[k].tokens == states[k].tokens
    {
    }
  }

  // ----- the compiler as a function -----

  function BlankStates(n: nat): (r: seq<State>)
    ensures |r| == n && Blank(r)
  {
    seq(n, _ => BLANK)
  }

  /** The whole state array behind a graph. */
  function AllStates(g: Graph, stateCnt: nat): (r: seq<State>)
    requires |g.states| <= stateCnt + 1
    ensures |r| == stateCnt + 1
  {
    g.states + BlankStates(stateCnt + 1 - |g.states|)
  }

  lemma {:induction false} AllTokensValid(g: Graph, stateCnt: nat)
    requires Sound(g) && |g.states| <= stateCnt + 1
    ensures forall k :: 0 <= k <= stateCnt ==> Valid(g.tokens, AllStates(g, stateCnt)[k].tokens)
  {
    forall k | 0 <= k < |g.states|
      ensures Valid(g.tokens, g.states[k].tokens)
    {
      SoundTokens(g, k);
    }
  }

  /** From the finished state array on. */
  function Laid(states: seq<State>, tokens: seq<Token>, last: nat, charCnt: nat, stateCnt: nat): (o: Outcome)
    requires last < stateCnt < |states|
  {
    if End(tokens, |tokens|) > charCnt then TooLong
    else if exists s ::
              0 <= s <= last && !StateFits(states[s], Offsets(tokens, |tokens|), charCnt, stateCnt) then Outside
    else Config(PackTables(TablesOf(states, tokens, last, charCnt, stateCnt)))
  }

  /** From the fixed graph on: the accepting state is moved; without one only state 0 is used. */
  function Finished(g: Graph, charCnt: nat, stateCnt: nat): (o: Outcome)
    requires |g.states| <= stateCnt + 1 && 0 < stateCnt
  {
    var states, used := AllStates(g, stateCnt), |g.states|;
    var i := FirstAccepting(states, used);
    if i == used then Laid(states, g.tokens, 0, charCnt, stateCnt)
    else Laid(Renamed(states, used, i, stateCnt), g.tokens, stateCnt - 1, charCnt, stateCnt)
  }

  function Compiled(pattern: Text, charCnt: nat, stateCnt: nat): (o: Outcome)
    requires 0 < stateCnt
  {
    ParsedIsSound(pattern, charCnt, stateCnt);
    match ParseFrom(Graph([], []), pattern, stateCnt + 1, charCnt + 1)
    case Stuck => Endless
    case OutOfBounds => Outside
    case Parsed(g) =>
      match FixFrom(g, 0, stateCnt + 1)
      case NoRoom => Outside
      case Fixed(h) => Finished(h, charCnt, stateCnt)
  }

  // ----- the code -----

  method LayConfig(states: seq<State>, tokens: seq<Token>, last: nat, charCnt: nat, stateCnt: nat) returns (o: Outcome)
    requires charCnt % 16 == 0 && stateCnt % 2 == 0 && last < stateCnt < |states| && RangesArePairs(tokens)
    requires forall k :: 0 <= k < |states| ==> Valid(tokens, states[k].tokens)
    ensures o == Laid(states, tokens, last, charCnt, stateCnt)
  {
    hide End, SheetOf, Offsets, RangesArePairs, PackTables;
    SheetSizes(tokens, |tokens|, charCnt);
    var sheet, offs, ok := LayOut(tokens, charCnt);
    if !ok {
      return TooLong;
    }
    var oactivates, otrans := new bool[stateCnt, charCnt]((_, _) => false),
          new bool[stateCnt, stateCnt]((_, _) => false);
    var oslen, osticky := new nat[stateCnt](_ => 0), new bool[stateCnt](_ => false);
    ok := FillTables(states, tokens, offs, last, oactivates, otrans, oslen, osticky);
    if !ok {
      return Outside;
    }
    var bytes := PackConfig(sheet, oactivates, otrans, oslen, osticky,
          TablesOf(states, tokens, last, charCnt, stateCnt));
    return Config(bytes);
  }

  /** What is left to do once the graph `h` stands in the array. */
  method FinishConfig(states: array<State>, tokens: seq<Token>, used: nat, charCnt: nat, stateCnt: nat, ghost h: Graph)
    returns (o: Outcome)
    requires charCnt % 16 == 0 && stateCnt % 2 == 0 && 0 < stateCnt && Sound(h) && RangesArePairs(tokens)
    requires h.tokens == tokens && |h.states| == used <= stateCnt + 1 && states[..] == AllStates(h, stateCnt)
    modifies states
    ensures o == Finished(h, charCnt, stateCnt)
  {
    hide Laid, Renamed, RangesArePairs, Sound;
    AllTokensValid(h, stateCnt);
    ghost var all, i := states[..], FirstAccepting(states[..], used);
    var last, moved := RenameAcceptingState(states, used);
    if i < used {
      RenamedTokens(all, tokens, used, i, stateCnt);
    }
    o := LayConfig(states[..], tokens, last, charCnt, stateCnt);
  }

  method FixConfig(states: array<State>, tokens: seq<Token>, sLoc: int, charCnt: nat, stateCnt: nat, ghost g: Graph)
    returns (o: Outcome)
    requires charCnt % 16 == 0 && stateCnt % 2 == 0 && 0 < stateCnt && Sound(g) && RangesArePairs(tokens)
    requires states.Length == stateCnt + 1 && -1 <= sLoc <= stateCnt && g == Graph(states[..sLoc + 1], tokens)
    requires Blank(states[sLoc + 1..])
    modifies states
    ensures var f := FixFrom(g, 0, stateCnt + 1);
            o == if f.NoRoom? then Outside else Finished(f.graph, charCnt, stateCnt)
  {
    hide Finished, RangesArePairs;
    var sLoc', ok := FixInequalTokens(states, tokens, sLoc);
    if !ok {
      return Outside;
    }
    ghost var h := Graph(states[..sLoc' + 1], tokens);
    assert states[..] == AllStates(h, stateCnt) by {
      assert states[..] == states[..sLoc' + 1] + states[sLoc' + 1..];
    }
    o := FinishConfig(states, tokens, sLoc' + 1, charCnt, stateCnt, h);
  }

  /** Parses, fixes, renames, lays out and packs. */
  method GetConfig(pattern: Text, charCnt: nat, stateCnt: nat) returns (o: Outcome)
    requires forall i :: 0 <= i < |pattern| ==> pattern[i] != 0
    requires charCnt % 16 == 0 && stateCnt % 2 == 0 && 0 < stateCnt
    ensures o == Compiled(pattern, charCnt, stateCnt)
  {
    hide Finished, FixFrom, ParseFrom, Sound, Mirrored, RangesArePairs;
    ParsedIsSound(pattern, charCnt, stateCnt);
    var parser := new Parser(pattern, charCnt, stateCnt);
    var r := parser.Parse();
    if r.Stuck? {
      return Endless;
    }
    if r.OutOfBounds? {
      return Outside;
    }
    var tokens := parser.tokens[..parser.tLoc + 1];
    o := FixConfig(parser.states, tokens, parser.sLoc, charCnt, stateCnt, r.graph);
  }
}
