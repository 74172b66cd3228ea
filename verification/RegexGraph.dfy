/** The automaton under construction and what scanning one pattern element adds to it
    (fregex.cpp, `parse_sequence` to `parse_wildcard` and the loop that calls them). */
module RegexGraph {
  import opened RegexPattern

  /** `isRange`: the two characters are the bounds of a range. */
  datatype Token = Token(chars: Text, isRange: bool)

  /** Edges point both ways: `inEdges` of the target mirrors `outEdges` of the source. */
  datatype State = State(id: int, outEdges: seq<int>, inEdges: seq<int>, sticky: bool, tokens: seq<int>,
        accepting: bool)

  datatype Graph = Graph(states: seq<State>, tokens: seq<Token>)

  const BLANK: State := State(-1, [], [], false, [], false)

  // ----- scanning -----

  /** How far `t` goes before a character of `stop`. */
  function Span(t: Text, stop: set<Byte>): (n: nat)
    ensures n <= |t|
    ensures forall i :: 0 <= i < n ==> t[i] !in stop
    ensures n < |t| ==> t[n] in stop
  {
    if t == [] || t[0] in stop then 0 else 1 + Span(t[1..], stop)
  }

  lemma {:induction false} SpanIs(t: Text, stop: set<Byte>, n: nat)
    requires n <= |t| && (forall i :: 0 <= i < n ==> t[i] !in stop) && (n < |t| ==> t[n] in stop)
    ensures Span(t, stop) == n
  {
    var m := Span(t, stop);
    if m < n || n < m {
      assert false;
    }
  }

  /** `t` without the characters of `drop`. */
  function Without(t: Text, drop: set<Byte>): (r: Text) {
    if t == [] then []
    else Without(t[..|t| - 1], drop) + if t[|t| - 1] in drop then [] else [t[|t| - 1]]
  }

  /** The alternatives closed by a bar so far, and the one still open. */
  datatype Choices = Choices(closed: seq<Token>, open: Text)

  function SplitBars(t: Text): (c: Choices) {
    if t == [] then Choices([], [])
    else
      var c := SplitBars(t[..|t| - 1]);
      var last := t[|t| - 1];
      if last == LPAREN then c
      else if last == BAR then Choices(c.closed + [Token(c.open, false)], [])
      else Choices(c.closed, c.open + [last])
  }

  lemma {:induction false} NoBars()
    ensures SplitBars([]) == Choices([], [])
  {
  }

  lemma {:induction false} NextBar(t: Text, x: Byte)
    ensures var c := SplitBars(t);
            SplitBars(t + [x]) == if x == LPAREN then c
                                  else if x == BAR then Choices(c.closed + [Token(c.open, false)], [])
                                  else Choices(c.closed, c.open + [x])
  {
    assert (t + [x])[..|t|] == t;
  }

  /** How many characters an element takes and the tokens it defines. */
  datatype Scanned = Scanned(length: nat, tokens: seq<Token>)

  function ScanSequence(t: Text): (s: Scanned)
    requires t != [] && t[0] !in SPECIAL
    ensures 0 < s.length <= |t|
  {
    var n := Span(t, SPECIAL);
    Scanned(n, [Token(t[..n], false)])
  }

  function Singles(chars: Text): (ts: seq<Token>)
    ensures |ts| == |chars|
  {
    seq(|chars|, i requires 0 <= i < |chars| => Token([chars[i]], false))
  }

  function RangeTokens(body: Text): (ts: seq<Token>) {
    var chars := Without(body, {LBRACKET, DASH});
    if DASH in body then
      if |chars| == 2 then [Token(chars, true)] else []
    else Singles(chars)
  }

  /** Up to and including the closing character, if there is one. */
  function Closed(t: Text, close: Byte): (n: nat)
    requires t != []
    ensures 0 < n <= |t|
  {
    var n := Span(t, {close});
    if n < |t| then n + 1 else n
  }

  /** Where the scan for a closing parenthesis stops. */
  lemma {:induction false} ClosedAt(pattern: Text, pos: nat, curPos: nat)
    requires pos <= curPos <= |pattern| && pos < |pattern| && (curPos < |pattern| ==> pattern[curPos] == RPAREN)
    requires forall i :: pos <= i < curPos ==> pattern[i] != RPAREN
    ensures var t := pattern[pos..];
            t[..Span(t, {RPAREN})] == pattern[pos..curPos]
            && pos + Closed(t, RPAREN) == if curPos < |pattern| then curPos + 1 else curPos
  {
    SpanIs(pattern[pos..], {RPAREN}, curPos - pos);
  }

  function ScanRange(t: Text): (s: Scanned)
    requires t != []
    ensures 0 < s.length <= |t|
  {
    Scanned(Closed(t, RBRACKET), RangeTokens(t[..Span(t, {RBRACKET})]))
  }

  function ChoiceTokens(body: Text): (ts: seq<Token>) {
    var c := SplitBars(body);
    c.closed + if c.open != [] then [Token(c.open, false)] else []
  }

  function ScanChoice(t: Text): (s: Scanned)
    requires t != []
    ensures 0 < s.length <= |t|
  {
    Scanned(Closed(t, RPAREN), ChoiceTokens(t[..Span(t, {RPAREN})]))
  }

  function ScanItem(t: Text): (s: Scanned)
    requires t != []
    ensures 0 < s.length <= |t|
  {
    if t[0] !in SPECIAL then ScanSequence(t)
    else if t[0] == LBRACKET || t[0] == RBRACKET then ScanRange(t)
    else ScanChoice(t)
  }

  // ----- building -----

  /** The indices of the last `n` tokens out of `total`, last first. */
  function LastTokens(total: nat, n: nat): (s: seq<int>)
    ensures |s| == n && forall p :: 0 <= p < n ==> s[p] == total - 1 - p
  {
    seq(n, p => total - 1 - p)
  }

  /** One more state for the tokens of an element; an element without tokens adds nothing. */
  function AddState(g: Graph, tokens: seq<Token>, accepting: bool): (g': Graph) {
    if tokens == [] then g
    else
      var all := g.tokens + tokens;
      Graph(g.states + [State(|g.states|, [], [], false, LastTokens(|all|, |tokens|), accepting)], all)
  }

  function AddEdge(states: seq<State>, s: nat, t: nat): (r: seq<State>)
    requires s < |states| && t < |states|
    ensures |r| == |states|
  {
    var to := states[t := states[t].(inEdges := states[t].inEdges + [s])];
    to[s := to[s].(outEdges := to[s].outEdges + [t])]
  }

  /** The new state follows the one before it. */
  function Link(g: Graph): (g': Graph) {
    var n := |g.states|;
    if n < 2 then g else g.(states := AddEdge(g.states, n - 2, n - 1))
  }

  function Extend(g: Graph, tokens: seq<Token>, accepting: bool): (g': Graph) {
    if tokens == [] then g else Link(AddState(g, tokens, accepting))
  }

  function SelfLoop(g: Graph): (g': Graph)
    requires g.states != []
  {
    g.(states := AddEdge(g.states, |g.states| - 1, |g.states| - 1))
  }

  function MakeSticky(g: Graph): (g': Graph)
    requires g.states != []
  {
    var last := |g.states| - 1;
    g.(states := g.states[last := g.states[last].(sticky := true)])
  }

  predicate Room(g: Graph, tokens: seq<Token>, maxStates: nat, maxTokens: nat) {
    |g.tokens| + |tokens| <= maxTokens && (tokens != [] ==> |g.states| < maxStates)
  }

  /** `Stuck`: the parse loop never ends. `OutOfBounds`: a write outside the arrays of states or tokens. */
  datatype ParseResult = Parsed(graph: Graph) | Stuck | OutOfBounds

  /** One turn of the parse loop: `length` characters were taken, or the loop cannot go on. */
  datatype Progress = Ahead(graph: Graph, length: nat) | Blocked(result: ParseResult)

  function ParseStep(g: Graph, t: Text, maxStates: nat, maxTokens: nat): (p: Progress)
    requires t != []
    ensures p.Ahead? ==> 0 < p.length <= |t|
    ensures p.Blocked? ==> !p.result.Parsed?
  {
    if t[0] == PLUS then
      if g.states == [] then Blocked(OutOfBounds) else Ahead(SelfLoop(g), 1)
    else if t[0] == DOT && |t| > 1 && t[1] == STAR then
      if g.states == [] then Blocked(OutOfBounds) else Ahead(MakeSticky(g), 2)
    else if t[0] == DOT || t[0] == STAR then Blocked(Stuck)
    else
      var s := ScanItem(t);
      if !Room(g, s.tokens, maxStates, maxTokens) then Blocked(OutOfBounds)
      else Ahead(Extend(g, s.tokens, s.length == |t|), s.length)
  }

  function ParseFrom(g: Graph, t: Text, maxStates: nat, maxTokens: nat): (r: ParseResult)
    decreases |t|
  {
    if t == [] then Parsed(g)
    else
      match ParseStep(g, t, maxStates, maxTokens)
      case Blocked(result) => result
      case Ahead(g', n) => ParseFrom(g', t[n..], maxStates, maxTokens)
  }

  lemma {:induction false} ParseTurn(g: Graph, t: Text, maxStates: nat, maxTokens: nat)
    requires t != []
    ensures var p := ParseStep(g, t, maxStates, maxTokens);
            ParseFrom(g, t, maxStates, maxTokens)
              == if p.Ahead? then ParseFrom(p.graph, t[p.length..], maxStates, maxTokens) else p.result
  {
  }
}
