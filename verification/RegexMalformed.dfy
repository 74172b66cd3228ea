/** Texts that are no printed pattern: brackets and parentheses that are not as they should be. */
module RegexMalformed {
  import opened RegexPattern
  import opened RegexGraph
  import opened RegexFixup
  import opened RegexCompile

  /** How many characters a bracket is left with. */
  function Listed(body: Text): (n: nat) {
    if body == [] then 0
    else Listed(body[..|body| - 1]) + if body[|body| - 1] in {LBRACKET, DASH} then 0 else 1
  }

  lemma {:induction false} WithoutCounts(body: Text)
    ensures |Without([LBRACKET] + body, {LBRACKET, DASH})| == Listed(body)
  {
    var t := [LBRACKET] + body;
    if body == [] {
      assert t[..|t| - 1] == [];
    } else {
      assert t[..|t| - 1] == [LBRACKET] + body[..|body| - 1];
      WithoutCounts(body[..|body| - 1]);
    }
  }

  /** A closing character ends the scan. */
  lemma {:induction false} SpanOfClosed(front: Text, close: Byte, rest: Text)
    requires close !in front && front != []
    ensures Span(front + [close] + rest, {close}) == |front| && Closed(front + [close] + rest, close) == |front| + 1
    ensures (front + [close] + rest)[..|front|] == front && (front + [close] + rest)[|front| + 1..] == rest
  {
    SpanIs(front + [close] + rest, {close}, |front|);
  }

  lemma {:induction false} SpanOfOpen(front: Text, close: Byte)
    requires close !in front && front != []
    ensures Span(front, {close}) == |front| && Closed(front, close) == |front| && front[..|front|] == front
  {
    SpanIs(front, {close}, |front|);
  }

  /** A bracket with a dash and not exactly two other characters is dropped, wherever it stands. */
  lemma {:induction false} BracketIsSkipped(g: Graph, body: Text, rest: Text, maxStates: nat, maxTokens: nat)
    requires RBRACKET !in body && DASH in body && Listed(body) != 2 && |g.tokens| <= maxTokens
    ensures ParseFrom(g, [LBRACKET] + body + [RBRACKET] + rest, maxStates, maxTokens)
         == ParseFrom(g, rest, maxStates, maxTokens)
  {
    hide Span, Closed, Without, Listed, ParseFrom;
    var front := [LBRACKET] + body;
    var t := front + [RBRACKET] + rest;
    WithoutCounts(body);
    SpanOfClosed(front, RBRACKET, rest);
    assert DASH in front && RangeTokens(front) == [];
    assert ScanItem(t) == Scanned(|front| + 1, []);
    ParseTurn(g, t, maxStates, maxTokens);
  }

  /** So `[a-z0-9]` means nothing: the text compiles as if it were not there. */
  lemma {:induction false} BracketIsDropped(body: Text, rest: Text, charCnt: nat, stateCnt: nat)
    requires RBRACKET !in body && DASH in body && Listed(body) != 2 && 0 < stateCnt
    ensures Compiled([LBRACKET] + body + [RBRACKET] + rest, charCnt, stateCnt) == Compiled(rest, charCnt, stateCnt)
  {
    hide ParseFrom, FixFrom, Finished, Listed;
    BracketIsSkipped(Graph([], []), body, rest, stateCnt + 1, charCnt + 1);
  }

  /** A bracket or parenthesis that is never closed reads to the end, as if it were closed there. */
  lemma {:induction false} UnclosedIsClosed(g: Graph, body: Text, close: Byte, maxStates: nat, maxTokens: nat)
    requires close in {RBRACKET, RPAREN} && close !in body
    ensures var open := if close == RBRACKET then LBRACKET else LPAREN;
            ParseFrom(g, [open] + body, maxStates, maxTokens)
              == ParseFrom(g, [open] + body + [close], maxStates, maxTokens)
  {
    hide Span, Closed, RangeTokens, ChoiceTokens, Room, Extend, ParseFrom;
    var open := if close == RBRACKET then LBRACKET else LPAREN;
    var front := [open] + body;
    var t := front + [close];
    assert t + [] == t;
    SpanOfClosed(front, close, []);
    SpanOfOpen(front, close);
    ParseTurn(g, front, maxStates, maxTokens);
    ParseTurn(g, t, maxStates, maxTokens);
    var s := ScanItem(front);
    assert ScanItem(t) == Scanned(s.length + 1, s.tokens);
    assert front[|front|..] == t[|t|..];
  }
}
