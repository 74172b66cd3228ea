/** What the renaming does to an accepting state that is linked to itself or to the last place: the
    two edge arrays disagree afterwards (fregex.cpp, lines 318-390). */
module RegexLinked {
  import opened RegexPattern
  import opened RegexGraph
  import opened RegexFixup
  import opened RegexRename
  import opened RegexParsed

  /** As many edges of `s` to `i` as to `l`. */
  predicate Even(edges: seq<int>, i: int, l: int) {
    multiset(edges)[i] == multiset(edges)[l]
  }

  lemma {:induction false} SwappedCountAt(edges: seq<int>, i: int, l: int, x: int)
    ensures multiset(SwAll(edges, i, l))[x] == multiset(edges)[Sw(x, i, l)]
  {
    SwappedCount(edges, i, l, Sw(x, i, l));
  }

  /** Edges to and from states other than the last place are those of the swap. */
  lemma {:induction false} RenamedEdges(states: seq<State>, used: nat, i: nat, m: nat, k: nat)
    requires Renamable(states, used, i, m) && k < m
    ensures var r, sw := Renamed(states, used, i, m)[k], Swapped(states[..m], i, m - 1)[k];
            if k == m - 1 then r.inEdges == states[i].inEdges && r.outEdges == states[i].outEdges
            else r.inEdges == sw.inEdges && r.outEdges == sw.outEdges
  {
    RenamedAt(states, used, i, m, k);
    EdgesStay(states[i].inEdges, i, m - 1);
    EdgesStay(states[i].outEdges, i, m - 1);
  }

  /** After the renaming every edge is still entered at both ends exactly when the accepting state had
      as many edges to itself as to the last place, in both directions. */
  lemma {:induction false} RenamedMirroredIff(states: seq<State>, used: nat, i: nat, m: nat)
    requires Renamable(states, used, i, m) && Mirrored(states[..m])
    ensures Mirrored(Renamed(states, used, i, m)[..m])
       <==> Even(states[i].inEdges, i, m - 1) && Even(states[i].outEdges, i, m - 1)
  {
    hide Renamed, Swapped, SwAll;
    var l := m - 1;
    var r, sw := Renamed(states, used, i, m)[..m], Swapped(states[..m], i, l);
    SwapMirrored(states[..m], i, l);
    forall k | 0 <= k < m
      ensures (k == l ==> r[k].inEdges == states[i].inEdges && r[k].outEdges == states[i].outEdges)
      ensures (k != l ==> r[k].inEdges == sw[k].inEdges && r[k].outEdges == sw[k].outEdges)
    {
      RenamedEdges(states, used, i, m, k);
    }
    SwappedLast(states[..m], i, l);
    LoopMirrored(states[..m], i);
    forall s | 0 <= s < m && s != l
      ensures MirroredAt(r, l, s) <==> multiset(states[i].outEdges)[s] == multiset(states[i].outEdges)[Sw(s, i, l)]
      ensures MirroredAt(r, s, l) <==> multiset(states[i].inEdges)[s] == multiset(states[i].inEdges)[Sw(s, i, l)]
    {
      assert MirroredAt(sw, l, s) && MirroredAt(sw, s, l);
      SwappedCountAt(states[i].outEdges, i, l, s);
      SwappedCountAt(states[i].inEdges, i, l, s);
    }
    if Even(states[i].inEdges, i, l) && Even(states[i].outEdges, i, l) {
      forall s, t | 0 <= s < m && 0 <= t < m
        ensures MirroredAt(r, s, t)
      {
        assert MirroredAt(sw, s, t);
      }
    }
    if Mirrored(r) && i != l {
      assert MirroredAt(r, l, i) && MirroredAt(r, i, l);
    }
  }

  lemma {:induction false} SwappedLast(states: seq<State>, i: nat, l: nat)
    requires i < |states| && l < |states|
    ensures Swapped(states, i, l)[l].inEdges == SwAll(states[i].inEdges, i, l)
    ensures Swapped(states, i, l)[l].outEdges == SwAll(states[i].outEdges, i, l)
  {
  }

  lemma {:induction false} LoopMirrored(states: seq<State>, i: nat)
    requires i < |states| && Mirrored(states)
    ensures multiset(states[i].inEdges)[i] == multiset(states[i].outEdges)[i]
  {
    assert MirroredAt(states, i, i);
  }

  // ----- such a pattern -----

  /** `x(aa|b)c` */
  const TEXT: Text := [120, LPAREN, 97, 97, BAR, 98, RPAREN, 99]

  const TOKENS: seq<Token> := [Token([120], false), Token([97, 97], false), Token([98], false), Token([99], false)]

  /** As it is parsed: three states in a row. */
  const PARSED: Graph := Graph([State(0, [1], [], false, [0], false), State(1, [2], [0], false, [2, 1], false),
                                State(2, [], [1], false, [3], true)], TOKENS)

  /** After the fix-up: `aa` has a state of its own at the last place. */
  const FIXED: seq<State> := [State(0, [1, 3], [], false, [0], false), State(1, [2], [0], false, [2], false),
                              State(2, [], [1, 3], false, [3], true), State(3, [2], [0], false, [1], false)]

  lemma {:induction false} ParseLiteral(g: Graph, text: Text, rest: Text, maxStates: nat, maxTokens: nat)
    requires text != [] && Free(text, SPECIAL) && (rest == [] || rest[0] in SPECIAL)
    requires |g.states| < maxStates && |g.tokens| < maxTokens
    ensures ParseFrom(g, text + rest, maxStates, maxTokens)
         == ParseFrom(Extend(g, [Token(text, false)], rest == []), rest, maxStates, maxTokens)
  {
    hide ScanSequence, Extend;
    ScanLiteral(text, rest);
    assert (text + rest)[0] == text[0] && (text + rest)[|text|..] == rest;
    ParseTurn(g, text + rest, maxStates, maxTokens);
  }

  lemma {:induction false} ParseEither(g: Graph, alts: seq<Text>, rest: Text, maxStates: nat, maxTokens: nat)
    requires alts != [] && forall i :: 0 <= i < |alts| ==> alts[i] != [] && Free(alts[i], {LPAREN, RPAREN, BAR})
    requires |g.states| < maxStates && |g.tokens| + |AltTokens(alts)| <= maxTokens && AltTokens(alts) != []
    ensures ParseFrom(g, [LPAREN] + Joined(alts) + [RPAREN] + rest, maxStates, maxTokens)
         == ParseFrom(Extend(g, AltTokens(alts), rest == []), rest, maxStates, maxTokens)
  {
    hide ScanChoice, Extend, Joined, AltTokens;
    var t := [LPAREN] + Joined(alts) + [RPAREN] + rest;
    ScanEither(alts, rest);
    assert t[0] == LPAREN && t[|Joined(alts)| + 2..] == rest;
    ParseTurn(g, t, maxStates, maxTokens);
  }

  const ONE: Graph := Graph([State(0, [], [], false, [0], false)], [Token([120], false)])

  const TWO: Graph := Graph([State(0, [1], [], false, [0], false), State(1, [], [0], false, [2, 1], false)],
                            [Token([120], false), Token([97, 97], false), Token([98], false)])

  lemma {:induction false} FirstPiece()
    ensures Extend(Graph([], []), [Token([120], false)], false) == ONE
  {
    assert LastTokens(1, 1) == [0];
  }

  lemma {:induction false} SecondPiece()
    ensures Extend(ONE, [Token([97, 97], false), Token([98], false)], false) == TWO
  {
    assert LastTokens(3, 2) == [2, 1];
    assert [] + [0] == [0] && [] + [1] == [1];
  }

  lemma {:induction false} ThirdPiece()
    ensures Extend(TWO, [Token([99], false)], true) == PARSED
  {
    assert LastTokens(4, 1) == [3];
    assert [] + [1] == [1] && [] + [2] == [2];
    assert TWO.tokens + [Token([99], false)] == TOKENS;
  }

  const ALTS: seq<Text> := [[97, 97], [98]]

  lemma {:induction false} Alternatives()
    ensures Joined(ALTS) == [97, 97, BAR, 98] && AltTokens(ALTS) == [Token([97, 97], false), Token([98], false)]
    ensures forall i :: 0 <= i < |ALTS| ==> ALTS[i] != [] && Free(ALTS[i], {LPAREN, RPAREN, BAR})
  {
    assert ALTS[..1] == [[97, 97]];
  }

  const CHOICE: Text := [LPAREN] + [97, 97, BAR, 98] + [RPAREN] + [99]

  lemma {:induction false} TextParts()
    ensures TEXT == [120] + CHOICE && CHOICE[0] in SPECIAL && Free([120], SPECIAL) && Free([99], SPECIAL)
  {
  }

  lemma {:induction false} ParseX()
    ensures ParseFrom(Graph([], []), TEXT, 5, 17) == ParseFrom(ONE, CHOICE, 5, 17)
  {
    TextParts();
    FirstPiece();
    hide ParseFrom, Extend, Free;
    ParseLiteral(Graph([], []), [120], CHOICE, 5, 17);
  }

  lemma {:induction false} ParseChoices()
    ensures ParseFrom(ONE, CHOICE, 5, 17) == ParseFrom(TWO, [99], 5, 17)
  {
    Alternatives();
    SecondPiece();
    hide ParseFrom, Extend, Free, Joined, AltTokens;
    ParseEither(ONE, ALTS, [99], 5, 17);
  }

  lemma {:induction false} ParseC()
    ensures ParseFrom(TWO, [99], 5, 17) == Parsed(PARSED)
  {
    TextParts();
    ThirdPiece();
    hide ParseFrom, Extend, Free;
    assert [99] + [] == [99];
    ParseLiteral(TWO, [99], [], 5, 17);
    ParsedEmpty(PARSED, 5, 17);
  }

  lemma {:induction false} TextParses()
    ensures ParseFrom(Graph([], []), TEXT, 5, 17) == Parsed(PARSED)
  {
    hide *;
    ParseX();
    ParseChoices();
    ParseC();
  }

  lemma {:induction false} ParsedEmpty(g: Graph, maxStates: nat, maxTokens: nat)
    ensures ParseFrom(g, [], maxStates, maxTokens) == Parsed(g)
  {
  }

  lemma {:induction false} ParsedSound()
    ensures Sound(PARSED) && Mirrored(PARSED.states)
  {
    StateSound(0);
    StateSound(1);
    StateSound(2);
    RowMirrored(0);
    RowMirrored(1);
    RowMirrored(2);
    hide SoundState, MirroredAt;
    ThreeMirrored(PARSED.states);
  }

  lemma {:induction false} StateSound(s: nat)
    requires s < 3
    ensures SoundState(PARSED.states[s], 3, 4)
  {
  }

  lemma {:induction false} ThreeMirrored(states: seq<State>)
    requires |states| == 3
    requires MirroredAt(states, 0, 0) && MirroredAt(states, 0, 1) && MirroredAt(states, 0, 2)
    requires MirroredAt(states, 1, 0) && MirroredAt(states, 1, 1) && MirroredAt(states, 1, 2)
    requires MirroredAt(states, 2, 0) && MirroredAt(states, 2, 1) && MirroredAt(states, 2, 2)
    ensures Mirrored(states)
  {
    hide MirroredAt;
  }

  lemma {:induction false} RowMirrored(s: nat)
    requires s < 3
    ensures MirroredAt(PARSED.states, s, 0) && MirroredAt(PARSED.states, s, 1) && MirroredAt(PARSED.states, s, 2)
  {
  }

  /** The alternative `aa` is split off into a state of its own. */
  lemma {:induction false} TextFixed()
    ensures Sound(PARSED)
    ensures FixFrom(PARSED, 0, 5) == Fixed(Graph(FIXED, TOKENS))
  {
    ParsedSound();
    var split := Split(PARSED, 1, 1);
    assert split.states == FIXED by {
      TextSplits();
    }
    var g := Graph(FIXED, TOKENS);
    assert split == g;
    SplitSound(PARSED, 1, 1);
    hide Split, Sound;
    assert FixState(PARSED, 0, 1, 5) == Fixed(PARSED);
    assert FixState(PARSED, 1, 1, 5) == FixState(g, 1, 2, 5) == Fixed(g);
    assert FixState(g, 2, 1, 5) == Fixed(g) && FixState(g, 3, 1, 5) == Fixed(g);
    hide FixState;
    assert FixFrom(g, 4, 5) == Fixed(g);
    assert FixFrom(g, 3, 5) == Fixed(g);
    assert FixFrom(g, 2, 5) == Fixed(g);
    assert FixFrom(PARSED, 1, 5) == Fixed(g);
  }

  lemma {:induction false} AddInOne(states: seq<State>, t: nat, n: int)
    requires t < |states|
    ensures Targets([t], |states|)
          && AddIn(states, [t], n) == states[t := states[t].(inEdges := states[t].inEdges + [n])]
  {
    var targets: seq<int> := [t];
    assert targets[..0] == [];
  }

  lemma {:induction false} AddOutOne(states: seq<State>, t: nat, n: int)
    requires t < |states|
    ensures Targets([t], |states|)
          && AddOut(states, [t], n) == states[t := states[t].(outEdges := states[t].outEdges + [n])]
  {
    var targets: seq<int> := [t];
    assert targets[..0] == [];
  }

  lemma {:induction false} TextSplits()
    requires Sound(PARSED)
    ensures Split(PARSED, 1, 1).states == FIXED
  {
    var s := PARSED.states[1];
    var twin := Twin(s, 3, 1);
    assert twin == State(3, [2], [0], false, [1], false);
    var a := PARSED.states + [twin];
    var b := AddIn(a, [2], 3);
    AddInOne(a, 2, 3);
    assert b == a[2 := a[2].(inEdges := [1, 3])] by {
      assert [1] + [3] == [1, 3];
    }
    var c := AddOut(b, [0], 3);
    AddOutOne(b, 0, 3);
    assert c == b[0 := b[0].(outEdges := [1, 3])] by {
      assert [1] + [3] == [1, 3];
    }
    assert Removed([2, 1], 1) == [2];
  }

  /** `x(aa|b)c` in 16 characters and 4 states: the accepting state is linked to the last place. After the
      renaming it is entered from itself and not from the state of `aa`, which still leads to it. */
  lemma {:induction false} LinkedRenameBreaks()
    ensures var r := ParseFrom(Graph([], []), TEXT, 5, 17);
            && r.Parsed? && Sound(r.graph) && |r.graph.states| <= 5
            && var f := FixFrom(r.graph, 0, 5);
            && f.Fixed? && |f.graph.states| == 4 && Mirrored(f.graph.states)
            && FirstAccepting(f.graph.states, 4) == 2
            && var states := Renamed(f.graph.states + [BLANK], 4, 2, 4)[..4];
            && !Mirrored(states) && states[3].accepting && states[3].inEdges == [1, 3]
            && states[2].tokens == [1] && states[2].outEdges == [3]
  {
    TextParses();
    ParsedSound();
    TextFixed();
    assert Sound(Graph(FIXED, TOKENS));
    hide ParseFrom, FixFrom, Sound, Mirrored;
    FixMirrored(PARSED, 0, 5);
    FixedRenamed();
  }

  lemma {:induction false} FixedRenamed()
    requires Mirrored(FIXED)
    ensures FirstAccepting(FIXED, 4) == 2
    ensures var states := Renamed(FIXED + [BLANK], 4, 2, 4)[..4];
            && !Mirrored(states) && states[3].accepting && states[3].inEdges == [1, 3]
            && states[2].tokens == [1] && states[2].outEdges == [3]
  {
    var all := FIXED + [BLANK];
    assert all[..4] == FIXED && all[4..] == [BLANK];
    forall k | 0 <= k < 4
      ensures Targets(all[k].inEdges, 4) && Targets(all[k].outEdges, 4)
    {
    }
    assert Renamable(all, 4, 2, 4);
    RenamedMirroredIff(all, 4, 2, 4);
    RenamedAt(all, 4, 2, 4, 2);
    RenamedAt(all, 4, 2, 4, 3);
    assert SwAll([2], 2, 3) == [3];
    assert !Even([1, 3], 2, 3);
    FirstIsTwo();
  }

  lemma {:induction false} FirstIsTwo()
    ensures FirstAccepting(FIXED, 4) == 2
  {
    var i := FirstAccepting(FIXED, 4);
    assert FIXED[2].accepting && !FIXED[0].accepting && !FIXED[1].accepting && !FIXED[3].accepting;
  }
}
