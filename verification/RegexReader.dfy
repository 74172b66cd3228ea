/** The path language of the tables: the words along the paths from the entry state to the last one,
    where a state is left on the words that fire one of its matchers (rem_halfrange.v, rem_decoder.v).
    The delays that the state network takes from the length table, and the states it keeps active
    (rem_onestate.v, rem_top_ff.v), are not part of this reading. */
module RegexReader {
  import opened RegexPattern
  import opened RegexGraph
  import opened RegexAccepts
  import opened RegexFixup
  import opened RegexLayout
  import opened RegexTables

  /** The matcher at place `x` fires after `w`: the last character is its own, or lies in the range
      that ends at `x`, and a linked matcher needs the one before it to have fired. */
  predicate Fires(s: Sheet, x: int, w: Text)
    decreases |w|
  {
    && w != [] && 0 <= x < |s.chars| && |s.linked| == |s.chars| && |s.ranges| == |s.chars| / 2
    && var c := w[|w| - 1];
       if x % 2 == 1 && s.ranges[x / 2] then |w| == 1 && s.chars[x - 1] <= c <= s.chars[x]
       else c == s.chars[x] && if s.linked[x] then Fires(s, x - 1, w[..|w| - 1]) else |w| == 1
  }

  lemma {:induction false} SheetAt(tokens: seq<Token>, charCnt: nat, t: nat, i: nat)
    requires RangesArePairs(tokens) && End(tokens, |tokens|) <= charCnt && charCnt % 2 == 0
    requires t < |tokens| && i < |tokens[t].chars|
    ensures var s := SheetOf(tokens, |tokens|, charCnt); var x := Start(tokens, t) + i;
            && x < charCnt && s.chars[x] == tokens[t].chars[i]
            && (s.linked[x] <==> i > 0 && !tokens[t].isRange)
            && (x % 2 == 1 ==> (s.ranges[x / 2] <==> tokens[t].isRange))
            && (tokens[t].isRange ==> x % 2 == i)
  {
    EndsGrow(tokens, t + 1, |tokens|);
    PlacedAt(tokens, t, i);
  }

  lemma {:induction false} FiresOnLast(s: Sheet, x: nat, w: Text)
    requires w != [] && x < |s.chars| && |s.linked| == |s.chars| && |s.ranges| == |s.chars| / 2
    requires x % 2 == 1 ==> !s.ranges[x / 2]
    ensures var last := |w| - 1;
            Fires(s, x, w) <==>
              w[last] == s.chars[x] && if s.linked[x] then Fires(s, x - 1, w[..last]) else w[..last] == []
  {
  }

  /** The matchers of a literal fire along its characters. */
  lemma {:induction false} LiteralFires(tokens: seq<Token>, charCnt: nat, t: nat, i: nat, w: Text)
    requires RangesArePairs(tokens) && End(tokens, |tokens|) <= charCnt && charCnt % 2 == 0
    requires t < |tokens| && i < |tokens[t].chars| && !tokens[t].isRange
    ensures Fires(SheetOf(tokens, |tokens|, charCnt), Start(tokens, t) + i, w) <==> w == tokens[t].chars[..i + 1]
    decreases i
  {
    hide Fires, SheetOf, Start, End;
    if w == [] {
      NeverOnNothing(SheetOf(tokens, |tokens|, charCnt), Start(tokens, t) + i);
      return;
    }
    SheetAt(tokens, charCnt, t, i);
    SheetSizes(tokens, |tokens|, charCnt);
    var chars := tokens[t].chars;
    var last := |w| - 1;
    FiresOnLast(SheetOf(tokens, |tokens|, charCnt), Start(tokens, t) + i, w);
    SameSnoc(w[..last], chars[..i], w[last], chars[i]);
    assert w == w[..last] + [w[last]] && chars[..i + 1] == chars[..i] + [chars[i]];
    if i > 0 {
      LiteralFires(tokens, charCnt, t, i - 1, w[..last]);
    }
  }

  lemma {:induction false} NeverOnNothing(s: Sheet, x: int)
    ensures !Fires(s, x, [])
  {
  }

  lemma {:induction false} SameSnoc(a: Text, b: Text, x: Byte, y: Byte)
    ensures a + [x] == b + [y] <==> a == b && x == y
  {
    if a + [x] == b + [y] {
      assert |a| == |b|;
      assert (a + [x])[|a|] == (b + [y])[|b|];
      assert a == (a + [x])[..|a|] == (b + [y])[..|b|] == b;
    }
  }

  lemma {:induction false} RangeFires(s: Sheet, x: nat, w: Text)
    requires 0 < x < |s.chars| && |s.linked| == |s.chars| && |s.ranges| == |s.chars| / 2
    requires x % 2 == 1 && s.ranges[x / 2]
    ensures Fires(s, x, w) <==> TokenWord(Token([s.chars[x - 1], s.chars[x]], true), w)
  {
  }

  lemma {:induction false} RangeTokenFires(tokens: seq<Token>, charCnt: nat, t: nat, w: Text)
    requires RangesArePairs(tokens) && End(tokens, |tokens|) <= charCnt && charCnt % 2 == 0
    requires t < |tokens| && tokens[t].isRange
    ensures Fires(SheetOf(tokens, |tokens|, charCnt), Offset(tokens, t), w) <==> TokenWord(tokens[t], w)
  {
    hide Fires, CharAt, RangeAt;
    var lo, hi := tokens[t].chars[0], tokens[t].chars[1];
    var s, x := SheetOf(tokens, |tokens|, charCnt), Start(tokens, t) + 1;
    assert x < charCnt && x % 2 == 1 && s.ranges[x / 2] && s.chars[x - 1] == lo && s.chars[x] == hi by {
      SheetAt(tokens, charCnt, t, 0);
      SheetAt(tokens, charCnt, t, 1);
    }
    RangeFires(s, x, w);
    assert tokens[t] == Token([lo, hi], true);
  }

  /** The matcher at the end of a token fires on exactly what the token stands for. */
  lemma {:induction false} TokenFires(tokens: seq<Token>, charCnt: nat, t: nat, w: Text)
    requires RangesArePairs(tokens) && End(tokens, |tokens|) <= charCnt && charCnt % 2 == 0
    requires t < |tokens| && tokens[t].chars != []
    ensures Fires(SheetOf(tokens, |tokens|, charCnt), Offset(tokens, t), w) <==> TokenWord(tokens[t], w)
  {
    if tokens[t].isRange {
      RangeTokenFires(tokens, charCnt, t, w);
    } else {
      LiteralFires(tokens, charCnt, t, |tokens[t].chars| - 1, w);
      assert tokens[t].chars[..|tokens[t].chars|] == tokens[t].chars;
    }
  }

  // ----- states and paths of the tables -----

  predicate TableWord(t: Tables, q: nat, w: Text)
    requires q < |t.triggers|
  {
    exists x :: 0 <= x < |t.triggers[q]| && t.triggers[q][x] && Fires(t.sheet, x, w)
  }

  ghost predicate TableLeaves(t: Tables, q: nat, w: Text)
    requires q < |t.triggers| && q < |t.sticky|
  {
    if t.sticky[q] then exists u :: u <= w && TableWord(t, q, u) else TableWord(t, q, w)
  }

  predicate TableEdge(t: Tables, q: nat, r: nat) {
    r < |t.edges| && q < |t.edges[r]| && t.edges[r][q]
  }

  ghost predicate TableWalks(t: Tables, path: seq<nat>, w: Text)
    requires |t.triggers| == |t.sticky|
    decreases |path|
  {
    && path != [] && path[0] < |t.sticky|
    && if |path| == 1 then TableLeaves(t, path[0], w)
       else TableEdge(t, path[0], path[1])
            && exists u, v {:trigger TableLeaves(t, path[0], u), TableWalks(t, path[1..], v)} ::
                 w == u + v && TableLeaves(t, path[0], u) && TableWalks(t, path[1..], v)
  }

  /** The tables lead from state `start` to state `end` by reading `w`. */
  ghost predicate TableAccepts(t: Tables, start: nat, end: nat, w: Text)
    requires |t.triggers| == |t.sticky|
  {
    exists path :: Joins(path, start, end) && TableWalks(t, path, w)
  }

  // ----- the tables of a graph -----

  /** What a graph must meet for its tables to be complete. */
  predicate Fitting(g: Graph, charCnt: nat) {
    && charCnt % 2 == 0 && RangesArePairs(g.tokens) && End(g.tokens, |g.tokens|) <= charCnt
    && (forall t :: 0 <= t < |g.tokens| ==> g.tokens[t].chars != [])
    && Sound(g)
  }

  function GraphTables(g: Graph, charCnt: nat): (t: Tables)
    ensures |t.triggers| == |t.sticky| == |t.edges| == |g.states|
  {
    TablesOf(g.states, g.tokens, |g.states| - 1, charCnt, |g.states|)
  }

  lemma {:induction false} OffsetsFit(g: Graph, charCnt: nat, q: nat)
    requires Fitting(g, charCnt) && q < |g.states|
    ensures StateFits(g.states[q], Offsets(g.tokens, |g.tokens|), charCnt, |g.states|)
  {
    assert SoundState(g.states[q], |g.states|, |g.tokens|);
    forall t | 0 <= t < |g.tokens|
      ensures 0 <= Offset(g.tokens, t) < charCnt
    {
      EndsGrow(g.tokens, t + 1, |g.tokens|);
    }
  }

  /** The triggers of state `q` are the ends of its tokens. */
  lemma {:induction false} TriggersAreEnds(g: Graph, charCnt: nat, q: nat, x: nat)
    requires Fitting(g, charCnt) && q < |g.states| && x < charCnt
    ensures GraphTables(g, charCnt).triggers[q][x]
       <==> exists k :: 0 <= k < |g.states[q].tokens| && 0 <= g.states[q].tokens[k] < |g.tokens|
                          && Offset(g.tokens, g.states[q].tokens[k]) == x
  {
    var s, offs := g.states[q], Offsets(g.tokens, |g.tokens|);
    if k :| 0 <= k < |s.tokens| && 0 <= s.tokens[k] < |g.tokens| && Offset(g.tokens, s.tokens[k]) == x {
      assert offs[s.tokens[k]] == x;
    }
  }

  lemma {:induction false} TablesShape(g: Graph, charCnt: nat, q: nat)
    requires q < |g.states|
    ensures var t := GraphTables(g, charCnt);
            |t.triggers[q]| == charCnt && t.sheet == SheetOf(g.tokens, |g.tokens|, charCnt)
  {
  }

  lemma {:induction false} OffsetInside(g: Graph, charCnt: nat, t: nat)
    requires Fitting(g, charCnt) && t < |g.tokens|
    ensures 0 <= Offset(g.tokens, t) < charCnt
  {
    EndsGrow(g.tokens, t + 1, |g.tokens|);
  }

  lemma {:induction false} StateFires(g: Graph, charCnt: nat, q: nat, w: Text)
    requires Fitting(g, charCnt) && q < |g.states|
    ensures TableWord(GraphTables(g, charCnt), q, w) <==> StateWord(g, q, w)
  {
    hide Fires, GraphTables, TokenWord, SheetOf, Offsets, Offset, End, Sound;
    var t, s := GraphTables(g, charCnt), g.states[q];
    TablesShape(g, charCnt, q);
    if TableWord(t, q, w) {
      var x :| 0 <= x < charCnt && t.triggers[q][x] && Fires(t.sheet, x, w);
      TriggersAreEnds(g, charCnt, q, x);
      var k :| 0 <= k < |s.tokens| && 0 <= s.tokens[k] < |g.tokens| && Offset(g.tokens, s.tokens[k]) == x;
      TokenFires(g.tokens, charCnt, s.tokens[k], w);
    }
    if StateWord(g, q, w) {
      var k :| 0 <= k < |s.tokens| && 0 <= s.tokens[k] < |g.tokens| && TokenWord(g.tokens[s.tokens[k]], w);
      TokenFires(g.tokens, charCnt, s.tokens[k], w);
      OffsetInside(g, charCnt, s.tokens[k]);
      TriggersAreEnds(g, charCnt, q, Offset(g.tokens, s.tokens[k]));
    }
  }

  lemma {:induction false} StateLeaves(g: Graph, charCnt: nat, q: nat, w: Text)
    requires Fitting(g, charCnt) && q < |g.states|
    ensures TableLeaves(GraphTables(g, charCnt), q, w) <==> Leaves(g, q, w)
  {
    StateFires(g, charCnt, q, w);
    forall u | u <= w
      ensures TableWord(GraphTables(g, charCnt), q, u) <==> StateWord(g, q, u)
    {
      StateFires(g, charCnt, q, u);
    }
  }

  lemma {:induction false} SameEdges(g: Graph, charCnt: nat, q: nat, r: nat)
    requires Sound(g)
    ensures TableEdge(GraphTables(g, charCnt), q, r) <==> Edge(g, q, r)
  {
    if Edge(g, q, r) {
      assert SoundState(g.states[r], |g.states|, |g.tokens|);
    }
  }

  lemma {:induction false} SameWalks(g: Graph, charCnt: nat, path: seq<nat>, w: Text)
    requires Fitting(g, charCnt)
    ensures TableWalks(GraphTables(g, charCnt), path, w) <==> Walks(g, path, w)
    decreases |path|
  {
    var t := GraphTables(g, charCnt);
    if path != [] && path[0] < |g.states| {
      if |path| == 1 {
        StateLeaves(g, charCnt, path[0], w);
      } else {
        SameEdges(g, charCnt, path[0], path[1]);
        forall u, v | w == u + v
          ensures TableLeaves(t, path[0], u) <==> Leaves(g, path[0], u)
          ensures TableWalks(t, path[1..], v) <==> Walks(g, path[1..], v)
        {
          StateLeaves(g, charCnt, path[0], u);
          SameWalks(g, charCnt, path[1..], v);
        }
      }
    }
  }

  /** The tables accept what the graph accepts. */
  lemma {:induction false} TablesAcceptLanguage(g: Graph, charCnt: nat, start: nat, end: nat, w: Text)
    requires Fitting(g, charCnt)
    ensures TableAccepts(GraphTables(g, charCnt), start, end, w) <==> Accepts(g, start, end, w)
  {
    forall path
      ensures TableWalks(GraphTables(g, charCnt), path, w) <==> Walks(g, path, w)
    {
      SameWalks(g, charCnt, path, w);
    }
  }
}
