/** Parsing a printed pattern gives a chain of states, one for each piece. */
module RegexParsed {
  import opened RegexPattern
  import opened RegexGraph

  function AltTokens(alts: seq<Text>): (ts: seq<Token>)
    ensures |ts| == |alts|
  {
    seq(|alts|, i requires 0 <= i < |alts| => Token(alts[i], false))
  }

  function ItemTokens(item: Item): (ts: seq<Token>) {
    match item
    case Literal(text) => [Token(text, false)]
    case OneOf(chars) => Singles(chars)
    case Between(lo, hi) => [Token([lo, hi], true)]
    case Either(alts) => AltTokens(alts)
  }

  /** The tokens of all pieces, in order. */
  function Tokens(ps: seq<Piece>): (ts: seq<Token>) {
    if ps == [] then [] else Tokens(ps[..|ps| - 1]) + ItemTokens(ps[|ps| - 1].item)
  }

  /** State `k` of the chain once `n` pieces are read: it follows state `k - 1`, loops on itself for
      a plus, and is followed by state `k + 1`. */
  function StateOf(ps: seq<Piece>, k: nat, n: nat): (s: State)
    requires k < n <= |ps|
  {
    var loop := if ps[k].plus then [k] else [];
    State(k,
          loop + if k + 1 < n then [k + 1] else [],
          (if k > 0 then [k - 1] else []) + loop,
          ps[k].gap,
          LastTokens(|Tokens(ps[..k + 1])|, |ItemTokens(ps[k].item)|),
          k == |ps| - 1)
  }

  function GraphOf(ps: seq<Piece>, n: nat): (g: Graph)
    requires n <= |ps|
    ensures |g.states| == n
  {
    Graph(seq(n, k requires 0 <= k < n => StateOf(ps, k, n)), Tokens(ps[..n]))
  }

  // ----- scanning one printed item -----

  lemma {:induction false} WithoutKeeps(a: Text, b: Text, drop: set<Byte>)
    requires forall i :: 0 <= i < |b| ==> b[i] !in drop
    ensures Without(a + b, drop) == Without(a, drop) + b
  {
    if b == [] {
      assert a + b == a;
    } else {
      assert (a + b)[..|a + b| - 1] == a + b[..|b| - 1];
      WithoutKeeps(a, b[..|b| - 1], drop);
    }
  }

  lemma {:induction false} SplitBarsOpen(a: Text, b: Text)
    requires Free(b, {LPAREN, RPAREN, BAR})
    ensures SplitBars(a + b) == Choices(SplitBars(a).closed, SplitBars(a).open + b)
  {
    if b == [] {
      assert a + b == a;
    } else {
      assert (a + b)[..|a + b| - 1] == a + b[..|b| - 1];
      SplitBarsOpen(a, b[..|b| - 1]);
    }
  }

  lemma {:induction false} SplitBarsClose(a: Text)
    ensures SplitBars(a + [BAR]) == Choices(SplitBars(a).closed + [Token(SplitBars(a).open, false)], [])
  {
    assert (a + [BAR])[..|a|] == a;
  }

  lemma {:induction false} JoinedHasNoParen(alts: seq<Text>)
    requires forall i :: 0 <= i < |alts| ==> Free(alts[i], {LPAREN, RPAREN, BAR})
    ensures forall i :: 0 <= i < |Joined(alts)| ==> Joined(alts)[i] != RPAREN
  {
    if |alts| > 1 {
      JoinedHasNoParen(alts[..|alts| - 1]);
    }
  }

  lemma {:induction false} JoinedStep(alts: seq<Text>)
    requires |alts| > 1
    ensures [LPAREN] + Joined(alts) == [LPAREN] + Joined(alts[..|alts| - 1]) + [BAR] + alts[|alts| - 1]
  {
    Regrouped([LPAREN], Joined(alts[..|alts| - 1]), [BAR], alts[|alts| - 1]);
  }

  lemma {:induction false} Regrouped(a: Text, b: Text, c: Text, d: Text)
    ensures a + (b + c + d) == a + b + c + d
  {
  }

  lemma {:induction false} SplitJoined(alts: seq<Text>)
    requires alts != [] && forall i :: 0 <= i < |alts| ==> Free(alts[i], {LPAREN, RPAREN, BAR})
    ensures SplitBars([LPAREN] + Joined(alts)) == Choices(AltTokens(alts[..|alts| - 1]), alts[|alts| - 1])
  {
    var init, last := alts[..|alts| - 1], alts[|alts| - 1];
    if |alts| == 1 {
      SplitOpening();
      SplitBarsOpen([LPAREN], last);
      assert [] + last == last && AltTokens(init) == [];
    } else {
      SplitJoined(init);
      JoinedStep(alts);
      assert Free(last, {LPAREN, RPAREN, BAR});
      SplitNext([LPAREN] + Joined(init), AltTokens(init[..|init| - 1]), init[|init| - 1], last);
      AltTokensLast(init);
    }
  }

  lemma {:induction false} AltTokensLast(alts: seq<Text>)
    requires alts != []
    ensures AltTokens(alts) == AltTokens(alts[..|alts| - 1]) + [Token(alts[|alts| - 1], false)]
  {
  }

  lemma {:induction false} SplitOpening()
    ensures SplitBars([LPAREN]) == Choices([], [])
  {
    assert [LPAREN][..0] == [];
  }

  lemma {:induction false} SplitNext(a: Text, closed: seq<Token>, open: Text, last: Text)
    requires SplitBars(a) == Choices(closed, open) && Free(last, {LPAREN, RPAREN, BAR})
    ensures SplitBars(a + [BAR] + last) == Choices(closed + [Token(open, false)], last)
  {
    SplitBarsClose(a);
    SplitBarsOpen(a + [BAR], last);
  }

  lemma {:induction false} ScanLiteral(text: Text, rest: Text)
    requires text != [] && Free(text, SPECIAL) && (rest == [] || rest[0] in SPECIAL)
    ensures ScanSequence(text + rest) == Scanned(|text|, [Token(text, false)])
  {
    SpanIs(text + rest, SPECIAL, |text|);
    assert (text + rest)[..|text|] == text;
  }

  lemma {:induction false} BracketSpan(body: Text, close: Byte, rest: Text)
    requires body != [] && forall i :: 0 <= i < |body| ==> body[i] != close
    ensures var t := body + [close] + rest; Closed(t, close) == |body| + 1 && t[..Span(t, {close})] == body
  {
    var t := body + [close] + rest;
    SpanIs(t, {close}, |body|);
    assert t[..|body|] == body;
  }

  lemma {:induction false} ScanOneOf(chars: Text, rest: Text)
    requires chars != [] && Free(chars, {LBRACKET, RBRACKET, DASH})
    ensures ScanRange([LBRACKET] + chars + [RBRACKET] + rest) == Scanned(|chars| + 2, Singles(chars))
  {
    BracketSpan([LBRACKET] + chars, RBRACKET, rest);
    WithoutKeeps([LBRACKET], chars, {LBRACKET, DASH});
    assert [LBRACKET][..0] == [];
    assert Without([LBRACKET], {LBRACKET, DASH}) == [];
  }

  lemma {:induction false} BetweenBody(lo: Byte, hi: Byte)
    requires Free([lo, hi], {LBRACKET, RBRACKET, DASH})
    ensures Without([LBRACKET, lo, DASH, hi], {LBRACKET, DASH}) == [lo, hi]
    ensures lo !in {LBRACKET, RBRACKET, DASH} && hi !in {LBRACKET, RBRACKET, DASH}
  {
    assert [lo, hi][0] == lo && [lo, hi][1] == hi;
    WithoutKeeps([LBRACKET], [lo], {LBRACKET, DASH});
    WithoutKeeps([LBRACKET, lo, DASH], [hi], {LBRACKET, DASH});
    assert [LBRACKET][..0] == [] && [LBRACKET] + [lo] == [LBRACKET, lo];
    assert [LBRACKET, lo, DASH][..2] == [LBRACKET, lo];
    assert [LBRACKET, lo, DASH] + [hi] == [LBRACKET, lo, DASH, hi];
  }

  lemma {:induction false} ScanBetween(lo: Byte, hi: Byte, rest: Text)
    requires Free([lo, hi], {LBRACKET, RBRACKET, DASH})
    ensures ScanRange([LBRACKET, lo, DASH, hi, RBRACKET] + rest) == Scanned(5, [Token([lo, hi], true)])
  {
    BetweenBody(lo, hi);
    var body := [LBRACKET, lo, DASH, hi];
    BracketSpan(body, RBRACKET, rest);
    assert body + [RBRACKET] + rest == [LBRACKET, lo, DASH, hi, RBRACKET] + rest;
    assert body[2] == DASH;
  }

  lemma {:induction false} ScanEither(alts: seq<Text>, rest: Text)
    requires alts != [] && forall i :: 0 <= i < |alts| ==> alts[i] != [] && Free(alts[i], {LPAREN, RPAREN, BAR})
    ensures ScanChoice([LPAREN] + Joined(alts) + [RPAREN] + rest) == Scanned(|Joined(alts)| + 2, AltTokens(alts))
  {
    JoinedHasNoParen(alts);
    SplitJoined(alts);
    BracketSpan([LPAREN] + Joined(alts), RPAREN, rest);
    AltTokensLast(alts);
  }

  /** An item is read back from its printed form, whatever follows it. */
  lemma {:induction false} ScanPrinted(item: Item, rest: Text)
    requires FormedItem(item)
    requires item.Literal? ==> rest == [] || rest[0] in SPECIAL
    ensures PrintItem(item) != [] && PrintItem(item)[0] !in {PLUS, DOT, STAR}
    ensures ScanItem(PrintItem(item) + rest) == Scanned(|PrintItem(item)|, ItemTokens(item))
  {
    match item
    case Literal(text) => ScanLiteral(text, rest);
    case OneOf(chars) => ScanOneOf(chars, rest);
    case Between(lo, hi) => ScanBetween(lo, hi, rest);
    case Either(alts) => ScanEither(alts, rest);
  }

  // ----- one piece -----

  function Suffixed(g: Graph, p: Piece): (g': Graph)
    requires g.states != []
  {
    var looped := if p.plus then SelfLoop(g) else g;
    if p.gap then MakeSticky(looped) else looped
  }

  lemma {:induction false} ParseSuffix(g: Graph, p: Piece, rest: Text, maxStates: nat, maxTokens: nat)
    requires g.states != []
    ensures ParseFrom(g, PrintSuffix(p) + rest, maxStates, maxTokens)
          == ParseFrom(Suffixed(g, p), rest, maxStates, maxTokens)
  {
    var t := PrintSuffix(p) + rest;
    var afterPlus := (if p.gap then [DOT, STAR] else []) + rest;
    var looped := if p.plus then SelfLoop(g) else g;
    if p.plus {
      assert t[1..] == afterPlus;
    } else {
      assert t == afterPlus;
    }
    if p.gap {
      assert afterPlus[2..] == rest;
    } else {
      assert afterPlus == rest;
    }
  }

  /** State `n` when only its item has been read. */
  function BareState(ps: seq<Piece>, n: nat): (s: State)
    requires n < |ps|
  {
    State(n, [], if n > 0 then [n - 1] else [], false,
          LastTokens(|Tokens(ps[..n + 1])|, |ItemTokens(ps[n].item)|), n == |ps| - 1)
  }

  function ChainThen(ps: seq<Piece>, n: nat, last: State): (states: seq<State>)
    requires n < |ps|
    ensures |states| == n + 1
  {
    seq(n, k requires 0 <= k < n => StateOf(ps, k, n + 1)) + [last]
  }

  lemma {:induction false} ItemHasTokens(item: Item)
    requires FormedItem(item)
    ensures ItemTokens(item) != []
  {
  }

  lemma {:induction false} ItemAdded(ps: seq<Piece>, n: nat)
    requires n < |ps| && FormedItem(ps[n].item)
    ensures var toks := ItemTokens(ps[n].item);
            Extend(GraphOf(ps, n), toks, n == |ps| - 1)
                  == Graph(ChainThen(ps, n, BareState(ps, n)), Tokens(ps[..n + 1]))
  {
    var toks := ItemTokens(ps[n].item);
    ItemHasTokens(ps[n].item);
    assert ps[..n + 1][..n] == ps[..n];
    var added := AddState(GraphOf(ps, n), toks, n == |ps| - 1);
    assert added.tokens == Tokens(ps[..n + 1]);
    LinkedChain(ps, n, added);
  }

  lemma {:induction false} LinkedChain(ps: seq<Piece>, n: nat, added: Graph)
    requires n < |ps|
    requires added.states == GraphOf(ps, n).states + [BareState(ps, n).(inEdges := [])]
    ensures Link(added).states == ChainThen(ps, n, BareState(ps, n))
  {
    var bare := BareState(ps, n).(inEdges := []);
    if n == 0 {
      assert added.states == [bare] == ChainThen(ps, n, bare);
    } else {
      ChainFront(ps, n);
      LastTwoLinked(Front(ps, n - 1, n + 1), StateOf(ps, n - 1, n), bare, added.tokens);
      StateGainsEdge(ps, n);
      assert [] + [n - 1] == [n - 1];
    }
  }

  /** The first `m` states once `n` pieces are read. */
  function Front(ps: seq<Piece>, m: nat, n: nat): (states: seq<State>)
    requires m <= n <= |ps|
    ensures |states| == m
  {
    seq(m, k requires 0 <= k < m => StateOf(ps, k, n))
  }

  lemma {:induction false} ChainFront(ps: seq<Piece>, n: nat)
    requires 0 < n < |ps|
    ensures GraphOf(ps, n).states == Front(ps, n - 1, n + 1) + [StateOf(ps, n - 1, n)]
    ensures ChainThen(ps, n, BareState(ps, n))
          == Front(ps, n - 1, n + 1) + [StateOf(ps, n - 1, n + 1)] + [BareState(ps, n)]
  {
    hide ItemTokens, Tokens, LastTokens;
    assert forall k :: 0 <= k < n - 1 ==> StateOf(ps, k, n) == StateOf(ps, k, n + 1);
    assert GraphOf(ps, n).states == Front(ps, n - 1, n) + [StateOf(ps, n - 1, n)];
    assert Front(ps, n - 1, n) == Front(ps, n - 1, n + 1);
  }

  lemma {:induction false} StateGainsEdge(ps: seq<Piece>, n: nat)
    requires 0 < n < |ps|
    ensures StateOf(ps, n - 1, n + 1) == StateOf(ps, n - 1, n).(outEdges := StateOf(ps, n - 1, n).outEdges + [n])
  {
    var loop := if ps[n - 1].plus then [n - 1] else [];
    assert loop + [] == loop;
  }

  lemma {:induction false} LastTwoLinked(front: seq<State>, a: State, b: State, tokens: seq<Token>)
    ensures var n := |front| + 1;
            Link(Graph(front + [a] + [b], tokens))
              == Graph(front + [a.(outEdges := a.outEdges + [n])] + [b.(inEdges := b.inEdges + [n - 1])], tokens)
  {
    var n := |front| + 1;
    var b' := b.(inEdges := b.inEdges + [n - 1]);
    assert (front + [a] + [b])[n := b'] == front + [a] + [b'];
    var a' := a.(outEdges := a.outEdges + [n]);
    assert (front + [a] + [b'])[n - 1 := a'] == front + [a'] + [b'];
  }

  lemma {:induction false} LastStateChanges(front: seq<State>, s: State, tokens: seq<Token>)
    ensures var n := |front|; var g := Graph(front + [s], tokens);
            && SelfLoop(g) == Graph(front + [s.(outEdges := s.outEdges + [n], inEdges := s.inEdges + [n])], tokens)
            && MakeSticky(g) == Graph(front + [s.(sticky := true)], tokens)
  {
    var n := |front|;
    var to := s.(inEdges := s.inEdges + [n]);
    assert (front + [s])[n := to] == front + [to];
    var both := to.(outEdges := to.outEdges + [n]);
    assert (front + [to])[n := both] == front + [both];
    assert (front + [s])[n := s.(sticky := true)] == front + [s.(sticky := true)];
  }

  lemma {:induction false} FinishedState(ps: seq<Piece>, n: nat)
    requires n < |ps|
    ensures var bare := BareState(ps, n); var loop := if ps[n].plus then [n] else [];
            bare.(outEdges := loop, inEdges := bare.inEdges + loop, sticky := ps[n].gap) == StateOf(ps, n, n + 1)
  {
    var loop := if ps[n].plus then [n] else [];
    assert loop + [] == loop;
  }

  lemma {:induction false} LastSuffixed(front: seq<State>, s: State, p: Piece, tokens: seq<Token>)
    requires !s.sticky
    ensures var n := |front|; var loop := if p.plus then [n] else [];
            Suffixed(Graph(front + [s], tokens), p)
              == Graph(front + [s.(outEdges := s.outEdges + loop, inEdges := s.inEdges + loop, sticky := p.gap)],
                    tokens)
  {
    var n := |front|;
    var loop := if p.plus then [n] else [];
    var looped := s.(outEdges := s.outEdges + loop, inEdges := s.inEdges + loop);
    assert !p.plus ==> looped == s;
    LastStateChanges(front, s, tokens);
    LastStateChanges(front, looped, tokens);
  }

  lemma {:induction false} SuffixAdded(ps: seq<Piece>, n: nat)
    requires n < |ps|
    ensures Suffixed(Graph(ChainThen(ps, n, BareState(ps, n)), Tokens(ps[..n + 1])), ps[n]) == GraphOf(ps, n + 1)
  {
    var front := Front(ps, n, n + 1);
    var bare := BareState(ps, n);
    var loop := if ps[n].plus then [n] else [];
    assert bare.outEdges + loop == loop;
    LastSuffixed(front, bare, ps[n], Tokens(ps[..n + 1]));
    FinishedState(ps, n);
    assert ChainThen(ps, n, bare) == front + [bare];
    assert GraphOf(ps, n + 1).states == front + [StateOf(ps, n, n + 1)];
  }

  lemma {:induction false} TokensGrow(ps: seq<Piece>, n: nat)
    requires n <= |ps|
    ensures |Tokens(ps[..n])| <= |Tokens(ps)|
    decreases |ps| - n
  {
    if n == |ps| {
      assert ps[..n] == ps;
    } else {
      assert ps[..n + 1][..n] == ps[..n];
      TokensGrow(ps, n + 1);
    }
  }

  lemma {:induction false} ParsePiece(g: Graph, p: Piece, later: Text, maxStates: nat, maxTokens: nat, last: bool)
    requires FormedItem(p.item) && Room(g, ItemTokens(p.item), maxStates, maxTokens)
    requires p.item.Literal? ==> PrintSuffix(p) + later == [] || (PrintSuffix(p) + later)[0] in SPECIAL
    requires last <==> PrintSuffix(p) + later == []
    ensures Extend(g, ItemTokens(p.item), last).states != []
    ensures ParseFrom(g, PrintItem(p.item) + (PrintSuffix(p) + later), maxStates, maxTokens)
         == ParseFrom(Suffixed(Extend(g, ItemTokens(p.item), last), p), later, maxStates, maxTokens)
  {
    var rest := PrintSuffix(p) + later;
    var t := PrintItem(p.item) + rest;
    ItemHasTokens(p.item);
    ScanPrinted(p.item, rest);
    assert ParseStep(g, t, maxStates, maxTokens) == Ahead(Extend(g, ItemTokens(p.item), last), |PrintItem(p.item)|);
    ParseTurn(g, t, maxStates, maxTokens);
    assert t[|PrintItem(p.item)|..] == rest;
    ParseSuffix(Extend(g, ItemTokens(p.item), last), p, later, maxStates, maxTokens);
  }

  lemma {:induction false} PieceBuilt(ps: seq<Piece>, n: nat)
    requires n < |ps| && FormedItem(ps[n].item)
    ensures var g := Extend(GraphOf(ps, n), ItemTokens(ps[n].item), n == |ps| - 1);
            g.states != [] && Suffixed(g, ps[n]) == GraphOf(ps, n + 1)
  {
    ItemAdded(ps, n);
    SuffixAdded(ps, n);
  }

  lemma {:induction false} PrintedFrom(ps: seq<Piece>, n: nat)
    requires n < |ps|
    ensures Print(ps[n..]) == PrintItem(ps[n].item) + (PrintSuffix(ps[n]) + Print(ps[n + 1..]))
  {
    assert ps[n..][1..] == ps[n + 1..];
  }

  lemma {:induction false} RoomForNext(ps: seq<Piece>, n: nat, maxStates: nat, maxTokens: nat)
    requires n < |ps| && |ps| <= maxStates && |Tokens(ps)| <= maxTokens
    ensures Room(GraphOf(ps, n), ItemTokens(ps[n].item), maxStates, maxTokens)
  {
    TokensGrow(ps, n + 1);
    assert ps[..n + 1][..n] == ps[..n];
  }

  lemma {:induction false} ParseNth(ps: seq<Piece>, n: nat, maxStates: nat, maxTokens: nat)
    requires Formed(ps) && n < |ps| && |ps| <= maxStates && |Tokens(ps)| <= maxTokens
    ensures ParseFrom(GraphOf(ps, n), Print(ps[n..]), maxStates, maxTokens)
         == ParseFrom(GraphOf(ps, n + 1), Print(ps[n + 1..]), maxStates, maxTokens)
  {
    PrintedFrom(ps, n);
    RoomForNext(ps, n, maxStates, maxTokens);
    NextIsSpecial(ps, n);
    LastEndsText(ps, n);
    PieceBuilt(ps, n);
    ParsePiece(GraphOf(ps, n), ps[n], Print(ps[n + 1..]), maxStates, maxTokens, n == |ps| - 1);
  }

  /** The parse loop, started where the printed form of piece `n` begins, completes the chain. */
  lemma {:induction false} ParsePrinted(ps: seq<Piece>, n: nat, maxStates: nat, maxTokens: nat)
    requires Formed(ps) && n <= |ps| && |ps| <= maxStates && |Tokens(ps)| <= maxTokens
    ensures ParseFrom(GraphOf(ps, n), Print(ps[n..]), maxStates, maxTokens) == Parsed(GraphOf(ps, |ps|))
    decreases |ps| - n
  {
    if n == |ps| {
      assert ps[n..] == [];
    } else {
      ParseNth(ps, n, maxStates, maxTokens);
      ParsePrinted(ps, n + 1, maxStates, maxTokens);
    }
  }

  /** What follows a literal is a suffix or an item that opens with a special character. */
  lemma {:induction false} NextIsSpecial(ps: seq<Piece>, n: nat)
    requires Formed(ps) && n < |ps|
    ensures var rest := PrintSuffix(ps[n]) + Print(ps[n + 1..]);
            ps[n].item.Literal? ==> rest == [] || rest[0] in SPECIAL
  {
    if n + 1 < |ps| {
      assert FormedItem(ps[n + 1].item);
      assert ps[n + 1..][0] == ps[n + 1];
    }
  }

  /** Only the last piece ends the text. */
  lemma {:induction false} LastEndsText(ps: seq<Piece>, n: nat)
    requires Formed(ps) && n < |ps|
    ensures PrintSuffix(ps[n]) + Print(ps[n + 1..]) == [] <==> n == |ps| - 1
  {
    if n + 1 < |ps| {
      assert FormedItem(ps[n + 1].item);
      assert ps[n + 1..][0] == ps[n + 1];
      if ps[n + 1].item.Literal? {
        assert PrintItem(ps[n + 1].item) != [];
      }
    }
  }
}
