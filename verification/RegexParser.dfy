/** The parser of fregex.cpp: it walks the pattern and fills the state and token arrays. */
module RegexParser {
  import opened RegexPattern
  import opened RegexGraph

  class Parser {
    const pattern: Text
    const states: array<State>
    const tokens: array<Token>
    var sLoc: int
    var tLoc: int

    ghost predicate Valid()
      reads this
    {
      && -1 <= sLoc < states.Length && -1 <= tLoc < tokens.Length
      && forall i :: 0 <= i < |pattern| ==> pattern[i] != 0
    }

    ghost function Built(): (g: Graph)
      reads this, states, tokens
      requires Valid()
    {
      Graph(states[..sLoc + 1], tokens[..tLoc + 1])
    }

    constructor (pattern: Text, charCnt: nat, stateCnt: nat)
      requires forall i :: 0 <= i < |pattern| ==> pattern[i] != 0
      ensures Valid() && fresh(states) && fresh(tokens) && this.pattern == pattern
      ensures states.Length == stateCnt + 1 && tokens.Length == charCnt + 1
      ensures Built() == Graph([], []) && forall x :: 0 <= x <= stateCnt ==> states[x] == BLANK
    {
      this.pattern := pattern;
      states := new State[stateCnt + 1](_ => BLANK);
      tokens := new Token[charCnt + 1](_ => Token([], false));
      sLoc, tLoc := -1, -1;
    }

    /** `*t_loc` steps on and the token is stored, if there is room. */
    method PushToken(t: Token) returns (ok: bool)
      requires Valid()
      modifies this`tLoc, tokens
      ensures Valid() && ok == (old(tLoc) + 1 < tokens.Length) && tLoc == old(tLoc) + if ok then 1 else 0
      ensures ok ==> Built() == old(Built()).(tokens := old(Built()).tokens + [t])
      ensures !ok ==> Built() == old(Built())
    {
      ok := tLoc + 1 < tokens.Length;
      if ok {
        tLoc := tLoc + 1;
        tokens[tLoc] := t;
        assert tokens[..tLoc] == old(tokens[..tLoc + 1]);
        assert tokens[..tLoc + 1] == tokens[..tLoc] + [t];
      }
    }

    /** `*s_loc` steps on and a state holding the last `n` tokens is stored, if there is room. */
    method PushState(n: nat, accepting: bool) returns (ok: bool)
      requires Valid() && n <= tLoc + 1
      modifies this`sLoc, states
      ensures Valid() && ok == (old(sLoc) + 1 < states.Length) && sLoc == old(sLoc) + if ok then 1 else 0
      ensures ok ==> Built() == old(Built()).(states := old(Built()).states
                       + [State(old(sLoc) + 1, [], [], false, LastTokens(tLoc + 1, n), accepting)])
      ensures !ok ==> Built() == old(Built())
      ensures forall x :: sLoc < x < states.Length ==> states[x] == old(states[x])
    {
      ok := sLoc + 1 < states.Length;
      if ok {
        var held := [];
        for p := 0 to n
          invariant held == LastTokens(tLoc + 1, p)
        {
          held := held + [tLoc - p];
        }
        sLoc := sLoc + 1;
        states[sLoc] := State(sLoc, [], [], false, held, accepting);
        assert states[..sLoc] == old(states[..sLoc + 1]);
        assert states[..sLoc + 1] == states[..sLoc] + [states[sLoc]];
      }
    }

    /** The contract of the three element parsers. */
    twostate predicate Added(pos: nat, curPos: nat, ok: bool, s: Scanned)
      reads this, states, tokens
      requires old(Valid()) && Valid() && pos <= |pattern|
    {
      && old(sLoc) <= sLoc <= old(sLoc) + 1
      && ok == Room(old(Built()), s.tokens, states.Length, tokens.Length)
      && (forall x :: sLoc < x < states.Length ==> states[x] == old(states[x]))
      && (ok ==> curPos == pos + s.length && Built() == AddState(old(Built()), s.tokens, curPos == |pattern|))
    }

    /** The scanning loop of `ParseSequence`: the characters up to the next special one. */
    method ReadSequence(pos: nat) returns (curPos: nat, temp: Text)
      requires Valid() && pos < |pattern|
      ensures var t := pattern[pos..]; var n := Span(t, SPECIAL); curPos == pos + n && temp == t[..n]
      ensures pos <= curPos <= |pattern|
    {
      curPos := pos;
      temp := [];
      while curPos < |pattern| && pattern[curPos] !in SPECIAL
        invariant pos <= curPos <= |pattern| && temp == pattern[pos..curPos]
        invariant forall i :: pos <= i < curPos ==> pattern[i] !in SPECIAL
      {
        temp := temp + [pattern[curPos]];
        curPos := curPos + 1;
      }
      SpanIs(pattern[pos..], SPECIAL, curPos - pos);
      assert pattern[pos..][..curPos - pos] == temp;
    }

    method ParseSequence(pos: nat) returns (curPos: nat, ok: bool)
      requires Valid() && pos < |pattern| && pattern[pos] !in SPECIAL
      modifies this`sLoc, this`tLoc, states, tokens
      ensures Valid() && Added(pos, curPos, ok, ScanSequence(pattern[pos..]))
    {
      hide Span;
      var temp;
      curPos, temp := ReadSequence(pos);
      ok := PushItem(Token(temp, false), curPos == |pattern|);
    }

    /** The scanning loop of `ParseRange`: the characters between the brackets. */
    method ReadRange(pos: nat) returns (curPos: nat, temp: Text, isRange: bool)
      requires Valid() && pos < |pattern|
      ensures var t := pattern[pos..]; var body := t[..Span(t, {RBRACKET})];
              curPos == pos + Closed(t, RBRACKET) && temp == Without(body, {LBRACKET, DASH})
                    && isRange == (DASH in body)
    {
      curPos, temp, isRange := pos, [], false;
      while curPos < |pattern| && pattern[curPos] != RBRACKET
        invariant pos <= curPos <= |pattern|
        invariant forall i :: pos <= i < curPos ==> pattern[i] != RBRACKET
        invariant temp == Without(pattern[pos..curPos], {LBRACKET, DASH})
        invariant isRange == (DASH in pattern[pos..curPos])
      {
        assert pattern[pos..curPos + 1][..curPos - pos] == pattern[pos..curPos];
        if pattern[curPos] == LBRACKET {
        } else if pattern[curPos] == DASH {
          isRange := true;
        } else {
          temp := temp + [pattern[curPos]];
        }
        curPos := curPos + 1;
      }
      SpanIs(pattern[pos..], {RBRACKET}, curPos - pos);
      assert pattern[pos..][..curPos - pos] == pattern[pos..curPos];
      if curPos < |pattern| {
        curPos := curPos + 1;
      }
    }

    /** A token and the state that holds it. */
    method PushItem(t: Token, accepting: bool) returns (ok: bool)
      requires Valid()
      modifies this`sLoc, this`tLoc, states, tokens
      ensures Valid() && old(sLoc) <= sLoc <= old(sLoc) + 1
      ensures ok == Room(old(Built()), [t], states.Length, tokens.Length)
      ensures forall x :: sLoc < x < states.Length ==> states[x] == old(states[x])
      ensures ok ==> Built() == AddState(old(Built()), [t], accepting)
    {
      ok := PushToken(t);
      if ok {
        ok := PushState(1, accepting);
      }
    }

    /** One token per character, and the state that holds them all. */
    method PushSet(temp: Text, accepting: bool) returns (ok: bool)
      requires Valid() && temp != []
      modifies this`sLoc, this`tLoc, states, tokens
      ensures Valid() && old(sLoc) <= sLoc <= old(sLoc) + 1
      ensures ok == Room(old(Built()), Singles(temp), states.Length, tokens.Length)
      ensures forall x :: sLoc < x < states.Length ==> states[x] == old(states[x])
      ensures ok ==> Built() == AddState(old(Built()), Singles(temp), accepting)
    {
      ok := PushSingles(temp);
      if ok {
        ok := PushState(|temp|, accepting);
      }
    }

    method ParseRange(pos: nat) returns (curPos: nat, ok: bool)
      requires Valid() && pos < |pattern|
      modifies this`sLoc, this`tLoc, states, tokens
      ensures Valid() && Added(pos, curPos, ok, ScanRange(pattern[pos..]))
    {
      hide Span, Without;
      var temp, isRange;
      curPos, temp, isRange := ReadRange(pos);
      ok := true;
      if |temp| == 2 && isRange {
        ok := PushItem(Token(temp, true), curPos == |pattern|);
      } else if |temp| > 0 && !isRange {
        ok := PushSet(temp, curPos == |pattern|);
      }
    }

    method PushSingles(temp: Text) returns (ok: bool)
      requires Valid()
      modifies this`tLoc, tokens
      ensures Valid() && ok == (old(tLoc) + 1 + |temp| <= tokens.Length) && (ok ==> tLoc == old(tLoc) + |temp|)
      ensures ok ==> Built() == old(Built()).(tokens := old(Built()).tokens + Singles(temp))
    {
      ok := true;
      var p := 0;
      while p < |temp| && ok
        invariant 0 <= p <= |temp| && Valid()
        invariant ok ==> Built() == old(Built()).(tokens := old(Built()).tokens + Singles(temp)[..p])
        invariant ok ==> tLoc == old(tLoc) + p
        invariant !ok ==> old(tLoc) + 1 + |temp| > tokens.Length
        decreases |temp| - p, ok
      {
        ok := PushToken(Token([temp[p]], false));
        assert Singles(temp)[..p + 1] == Singles(temp)[..p] + [Singles(temp)[p]];
        p := if ok then p + 1 else p;
      }
    }

    /** The scanning loop of `ParseChoice`: every alternative closed by a bar becomes a token. */
    method ReadChoice(pos: nat) returns (curPos: nat, temp: Text, patCnt: nat, ok: bool)
      requires Valid() && pos < |pattern|
      modifies this`tLoc, tokens
      ensures Valid()
      ensures var t := pattern[pos..]; var c := SplitBars(t[..Span(t, {RPAREN})]);
              && curPos == pos + Closed(t, RPAREN) && temp == c.open && patCnt == |c.closed|
              && ok == (|old(Built()).tokens| + |c.closed| <= tokens.Length)
              && (ok ==> Built() == old(Built()).(tokens := old(Built()).tokens + c.closed))
    {
      hide SplitBars;
      curPos, temp, patCnt, ok := pos, [], 0, true;
      ghost var count := |Built().tokens|;
      NoBars();
      assert pattern[pos..pos] == [] && Built().tokens + [] == Built().tokens;
      while curPos < |pattern| && pattern[curPos] != RPAREN
        invariant pos <= curPos <= |pattern| && Valid()
        invariant forall i :: pos <= i < curPos ==> pattern[i] != RPAREN
        invariant temp == SplitBars(pattern[pos..curPos]).open
        invariant patCnt == |SplitBars(pattern[pos..curPos]).closed|
        invariant ok == (count + patCnt <= tokens.Length) && (ok ==> tLoc + 1 == count + patCnt)
        invariant ok ==>
                    Built() == old(Built()).(tokens := old(Built()).tokens + SplitBars(pattern[pos..curPos]).closed)
      {
        assert pattern[pos..curPos + 1] == pattern[pos..curPos] + [pattern[curPos]];
        NextBar(pattern[pos..curPos], pattern[curPos]);
        ghost var closed := SplitBars(pattern[pos..curPos]).closed;
        if pattern[curPos] == LPAREN {
        } else if pattern[curPos] == BAR {
          patCnt := patCnt + 1;
          if ok {
            ok := PushToken(Token(temp, false));
            assert old(Built()).tokens + closed + [Token(temp, false)]
                  == old(Built()).tokens + (closed + [Token(temp, false)]);
          }
          temp := [];
        } else {
          temp := temp + [pattern[curPos]];
        }
        curPos := curPos + 1;
      }
      ClosedAt(pattern, pos, curPos);
      if curPos < |pattern| {
        curPos := curPos + 1;
      }
    }

    method ParseChoice(pos: nat) returns (curPos: nat, ok: bool)
      requires Valid() && pos < |pattern|
      modifies this`sLoc, this`tLoc, states, tokens
      ensures Valid() && Added(pos, curPos, ok, ScanChoice(pattern[pos..]))
    {
      hide SplitBars, Span;
      var temp, patCnt;
      curPos, temp, patCnt, ok := ReadChoice(pos);
      assert ok ==> |Built().tokens| == tLoc + 1 >= patCnt;
      if |temp| > 0 {
        patCnt := patCnt + 1;
        if ok {
          ok := PushToken(Token(temp, false));
        }
      }
      if patCnt > 0 && ok {
        ok := PushState(patCnt, curPos == |pattern|);
      }
    }

    /** No step forward means a character the parser cannot get past. */
    method ParseWildcard(pos: nat) returns (curPos: nat, ok: bool)
      requires Valid() && pos < |pattern|
      modifies states
      ensures Valid() && pos <= curPos <= |pattern|
      ensures curPos == if pattern[pos] == DOT && pos + 1 < |pattern| && pattern[pos + 1] == STAR then pos + 2
                        else if pattern[pos] == PLUS then pos + 1 else pos
      ensures ok == (curPos == pos || sLoc >= 0)
      ensures ok ==> Built() == if curPos == pos + 2 then MakeSticky(old(Built()))
                                else if curPos == pos + 1 then SelfLoop(old(Built())) else old(Built())
      ensures forall x :: sLoc < x < states.Length ==> states[x] == old(states[x])
    {
      curPos, ok := pos, true;
      ghost var before := Built();
      if pattern[curPos] == DOT && curPos + 1 < |pattern| && pattern[curPos + 1] == STAR {
        curPos := curPos + 2;
        ok := sLoc >= 0;
        if ok {
          states[sLoc] := states[sLoc].(sticky := true);
          assert Built().states == MakeSticky(before).states;
        }
      } else if pattern[curPos] == PLUS {
        ok := sLoc >= 0;
        if ok {
          states[sLoc] := states[sLoc].(outEdges := states[sLoc].outEdges + [sLoc],
                inEdges := states[sLoc].inEdges + [sLoc]);
          assert Built().states == SelfLoop(before).states;
        }
        curPos := curPos + 1;
      }
    }

    /** One turn of the loop: dispatch on the next character, then link what was added. */
    method ParseElement(pos: nat) returns (curPos: nat, ok: bool)
      requires Valid() && pos < |pattern|
      modifies this`sLoc, this`tLoc, states, tokens
      ensures Valid() && pos <= curPos <= |pattern| && sLoc >= old(sLoc)
      ensures var p := ParseStep(old(Built()), pattern[pos..], states.Length, tokens.Length);
              && ok == (p != Blocked(OutOfBounds))
              && (ok ==> (curPos == pos <==> p.Blocked?))
              && (p.Ahead? ==> curPos == pos + p.length && Built() == p.graph)
      ensures forall x :: sLoc < x < states.Length ==> states[x] == old(states[x])
    {
      if pattern[pos] == PLUS || pattern[pos] == DOT || pattern[pos] == STAR {
        curPos, ok := ParseWildcard(pos);
      } else {
        curPos, ok := ParseLinked(pos);
      }
    }

    /** An element that is not a wildcard, by its first character. */
    method ParseItem(pos: nat) returns (curPos: nat, ok: bool)
      requires Valid() && pos < |pattern| && pattern[pos] !in {PLUS, DOT, STAR}
      modifies this`sLoc, this`tLoc, states, tokens
      ensures Valid() && Added(pos, curPos, ok, ScanItem(pattern[pos..]))
    {
      if pattern[pos] !in SPECIAL {
        curPos, ok := ParseSequence(pos);
      } else if pattern[pos] == LBRACKET || pattern[pos] == RBRACKET {
        curPos, ok := ParseRange(pos);
      } else {
        curPos, ok := ParseChoice(pos);
      }
    }

    method ParseLinked(pos: nat) returns (curPos: nat, ok: bool)
      requires Valid() && pos < |pattern| && pattern[pos] !in {PLUS, DOT, STAR}
      modifies this`sLoc, this`tLoc, states, tokens
      ensures Valid() && pos <= curPos <= |pattern| && sLoc >= old(sLoc)
      ensures var s := ScanItem(pattern[pos..]);
              && ok == Room(old(Built()), s.tokens, states.Length, tokens.Length)
              && (ok ==> curPos == pos + s.length && Built() == Extend(old(Built()), s.tokens, curPos == |pattern|))
      ensures forall x :: sLoc < x < states.Length ==> states[x] == old(states[x])
    {
      var lastSl := sLoc;
      curPos, ok := ParseItem(pos);
      if !ok {
        curPos := pos;
      } else if lastSl >= 0 {
        LinkFrom(lastSl);
      }
    }

    /** The loop over the pattern. */
    method Parse() returns (r: ParseResult)
      requires Valid() && Built() == Graph([], [])
      modifies this`sLoc, this`tLoc, states, tokens
      ensures Valid()
      ensures r == ParseFrom(Graph([], []), pattern, states.Length, tokens.Length)
      ensures r.Parsed? ==> r.graph == Built()
      ensures forall x :: sLoc < x < states.Length ==> states[x] == old(states[x])
    {
      var parsedTo := 0;
      while parsedTo < |pattern|
        invariant 0 <= parsedTo <= |pattern| && Valid()
        invariant ParseFrom(Graph([], []), pattern, states.Length, tokens.Length)
               == ParseFrom(Built(), pattern[parsedTo..], states.Length, tokens.Length)
        invariant forall x :: sLoc < x < states.Length ==> states[x] == old(states[x])
      {
        var lastTo := parsedTo;
        ghost var g, t := Built(), pattern[parsedTo..];
        var ok;
        parsedTo, ok := ParseElement(parsedTo);
        ParseTurn(g, t, states.Length, tokens.Length);
        if !ok {
          return OutOfBounds;
        }
        if parsedTo == lastTo {
          return Stuck;
        }
        assert pattern[lastTo..][parsedTo - lastTo..] == pattern[parsedTo..];
      }
      r := Parsed(Graph(states[..sLoc + 1], tokens[..tLoc + 1]));
    }

    /** The states added since `lastSl` follow the state `lastSl`. */
    method LinkFrom(lastSl: nat)
      requires Valid() && lastSl <= sLoc <= lastSl + 1
      modifies states
      ensures Valid() && Built() == if sLoc == lastSl then old(Built()) else Link(old(Built()))
      ensures forall x :: sLoc < x < states.Length ==> states[x] == old(states[x])
    {
      var csl := lastSl + 1;
      while csl <= sLoc
        invariant lastSl + 1 <= csl <= sLoc + 1
        invariant csl == lastSl + 1 ==> states[..] == old(states[..])
        invariant csl == lastSl + 2 ==> Built() == Link(old(Built()))
        invariant forall x :: sLoc < x < states.Length ==> states[x] == old(states[x])
      {
        states[csl] := states[csl].(inEdges := states[csl].inEdges + [lastSl]);
        states[lastSl] := states[lastSl].(outEdges := states[lastSl].outEdges + [csl]);
        csl := csl + 1;
        assert Built().states == Link(old(Built())).states;
      }
    }
  }
}
