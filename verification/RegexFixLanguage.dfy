/** What the fix-up does to the accepted words: it never adds one, and it loses none as long as no state that it splits
    loops on itself or is sticky. */
module RegexFixLanguage {
  import opened RegexPattern
  import opened RegexGraph
  import opened RegexAccepts
  import opened RegexFixup

  // ----- one split, state by state -----

  /** The state that a state of the split graph came from. */
  function Origin(g: Graph, i: nat, q: nat): (o: nat) {
    if q == |g.states| then i else q
  }

  /** Which edges there are after a split: the new state has those of the old one, and none between the two copies of a
      loop. */
  lemma {:induction false} SplitEdge(g: Graph, i: nat, j: nat, q: nat, r: nat)
    requires Sound(g) && Mirrored(g.states) && i < |g.states| && j < |g.states[i].tokens|
    requires q <= |g.states| && r <= |g.states|
    ensures var n := |g.states|;
            Edge(Split(g, i, j), q, r) <==> !(q == n && r == n) && Edge(g, Origin(g, i, q), Origin(g, i, r))
  {
    var n := |g.states|;
    var h := Split(g, i, j);
    SplitNew(g, i, j);
    assert SoundState(g.states[i], n, |g.tokens|);
    NotAmong(g.states[i].inEdges, n);
    if r < n {
      SplitState(g, i, j, r);
      assert SoundState(g.states[r], n, |g.tokens|);
      NotAmong(g.states[r].inEdges, n);
      assert MirroredAt(g.states, i, r);
      InMultiset(h.states[r].inEdges, q);
      InMultiset(g.states[r].inEdges, Origin(g, i, q));
    } else {
      InMultiset(h.states[r].inEdges, q);
      InMultiset(g.states[i].inEdges, Origin(g, i, q));
      InMultiset(g.states[i].inEdges, q);
    }
  }

  lemma {:induction false} InMultiset(s: seq<int>, x: int)
    ensures x in s <==> multiset(s)[x] > 0
  {
    assert x in s <==> x in multiset(s);
  }

  /** A split leaves everything but edges and the moved token as it was. */
  lemma {:induction false} SplitRest(g: Graph, i: nat, j: nat, k: nat)
    requires Sound(g) && i < |g.states| && j < |g.states[i].tokens| && k <= |g.states|
    ensures var n := |g.states|; var s := Split(g, i, j).states[k];
            if k == n then !s.sticky && !s.accepting && s.tokens == [g.states[i].tokens[j]]
            else
              && s.sticky == g.states[k].sticky && s.accepting == g.states[k].accepting
              && s.tokens == if k == i then Removed(g.states[i].tokens, j) else g.states[k].tokens
  {
    assert SoundState(g.states[i], |g.states|, |g.tokens|);
    if k == |g.states| {
      LinkedNew(g.states, i, g.states[i].tokens[j]);
    } else {
      assert SoundState(g.states[k], |g.states|, |g.tokens|);
      LinkedAt(g.states, i, g.states[i].tokens[j], k);
    }
  }

  lemma {:induction false} RemovedHas(ts: seq<int>, j: nat, x: int)
    requires j < |ts|
    ensures x in ts <==> x in Removed(ts, j) || x == ts[j]
  {
    if x in ts {
      var k :| 0 <= k < |ts| && ts[k] == x;
      if k < j {
        assert Removed(ts, j)[k] == x;
      } else if k > j {
        assert Removed(ts, j)[k - 1] == x;
      }
    }
  }

  /** `w` is the word of one of the tokens `ts`. */
  predicate SomeToken(tokens: seq<Token>, ts: seq<int>, w: Text) {
    exists t :: t in ts && 0 <= t < |tokens| && TokenWord(tokens[t], w)
  }

  lemma {:induction false} StateWordIs(g: Graph, q: nat, w: Text)
    requires q < |g.states|
    ensures StateWord(g, q, w) <==> SomeToken(g.tokens, g.states[q].tokens, w)
  {
    if SomeToken(g.tokens, g.states[q].tokens, w) {
      var t :| t in g.states[q].tokens && 0 <= t < |g.tokens| && TokenWord(g.tokens[t], w);
      var k :| 0 <= k < |g.states[q].tokens| && g.states[q].tokens[k] == t;
    }
  }

  lemma {:induction false} SomeTokenSplits(tokens: seq<Token>, ts: seq<int>, j: nat, w: Text)
    requires j < |ts|
    ensures SomeToken(tokens, ts, w) <==> SomeToken(tokens, Removed(ts, j), w) || SomeToken(tokens, [ts[j]], w)
  {
    forall t | 0 <= t < |tokens| && TokenWord(tokens[t], w)
      ensures t in ts <==> t in Removed(ts, j) || t in [ts[j]]
    {
      RemovedHas(ts, j, t);
    }
  }

  /** The words of a state are shared between it and the state split off. */
  lemma {:induction false} SplitWord(g: Graph, i: nat, j: nat, w: Text)
    requires Sound(g) && i < |g.states| && j < |g.states[i].tokens|
    ensures var h := Split(g, i, j); var n := |g.states|;
            StateWord(g, i, w) <==> StateWord(h, i, w) || StateWord(h, n, w)
    ensures forall q :: 0 <= q < |g.states| && q != i ==> (StateWord(Split(g, i, j), q, w) <==> StateWord(g, q, w))
  {
    hide Split, StateWord, SomeToken;
    var h := Split(g, i, j);
    SplitRest(g, i, j, i);
    SplitRest(g, i, j, |g.states|);
    SomeTokenSplits(g.tokens, g.states[i].tokens, j, w);
    StateWordIs(g, i, w);
    StateWordIs(h, i, w);
    StateWordIs(h, |g.states|, w);
    forall q | 0 <= q < |g.states| && q != i
      ensures StateWord(h, q, w) <==> StateWord(g, q, w)
    {
      SplitRest(g, i, j, q);
      StateWordIs(g, q, w);
      StateWordIs(h, q, w);
    }
  }

  // ----- nothing is added -----

  lemma {:induction false} LeavesOrigin(g: Graph, i: nat, j: nat, q: nat, w: Text)
    requires Sound(g) && i < |g.states| && j < |g.states[i].tokens| && q <= |g.states|
    requires Leaves(Split(g, i, j), q, w)
    ensures Leaves(g, Origin(g, i, q), w)
  {
    hide Split, StateWord;
    var h := Split(g, i, j);
    SplitRest(g, i, j, q);
    if h.states[q].sticky {
      var u :| u <= w && StateWord(h, q, u);
      SplitWord(g, i, j, u);
    } else {
      SplitWord(g, i, j, w);
      assert w <= w;
    }
  }

  function Origins(g: Graph, i: nat, path: seq<nat>): (r: seq<nat>)
    ensures |r| == |path|
  {
    seq(|path|, k requires 0 <= k < |path| => Origin(g, i, path[k]))
  }

  lemma {:induction false} WalksOrigin(g: Graph, i: nat, j: nat, path: seq<nat>, w: Text)
    requires Sound(g) && Mirrored(g.states) && i < |g.states| && j < |g.states[i].tokens|
    requires Walks(Split(g, i, j), path, w)
    ensures Walks(g, Origins(g, i, path), w)
    decreases |path|
  {
    hide Split, Leaves, Edge, Sound, Mirrored;
    if |path| == 1 {
      LeavesOrigin(g, i, j, path[0], w);
    } else {
      var u, v := FirstStop(Split(g, i, j), path, w);
      LeavesOrigin(g, i, j, path[0], u);
      WalksInside(Split(g, i, j), path[1..], v);
      SplitEdge(g, i, j, path[0], path[1]);
      WalksOrigin(g, i, j, path[1..], v);
      WalkOn(g, Origin(g, i, path[0]), Origins(g, i, path[1..]), u, v);
      assert Origins(g, i, path) == [Origin(g, i, path[0])] + Origins(g, i, path[1..]);
    }
  }

  lemma {:induction false} WalksInside(g: Graph, path: seq<nat>, w: Text)
    requires Walks(g, path, w)
    ensures path != [] && path[0] < |g.states|
  {
  }

  /** A split adds no word, whatever the state. */
  lemma {:induction false} SplitAddsNothing(g: Graph, i: nat, j: nat, start: nat, end: nat, w: Text)
    requires Sound(g) && Mirrored(g.states) && i < |g.states| && j < |g.states[i].tokens|
    requires Accepts(Split(g, i, j), start, end, w)
    ensures Accepts(g, Origin(g, i, start), Origin(g, i, end), w)
  {
    hide Split, Walks;
    var path :| Joins(path, start, end) && Walks(Split(g, i, j), path, w);
    WalksOrigin(g, i, j, path, w);
    assert Joins(Origins(g, i, path), Origin(g, i, start), Origin(g, i, end));
  }

  // ----- nothing is lost -----

  /** State `q` neither loops on itself nor lets any characters follow. */
  predicate Plain(g: Graph, q: nat)
    requires q < |g.states|
  {
    !g.states[q].sticky && q !in g.states[q].inEdges
  }

  /** The state of the split graph that reads what a state of the graph reads. */
  lemma {:induction false} LeavesCopy(g: Graph, i: nat, j: nat, q: nat, w: Text) returns (c: nat)
    requires Sound(g) && i < |g.states| && j < |g.states[i].tokens| && q < |g.states| && Plain(g, i)
    requires Leaves(g, q, w)
    ensures c <= |g.states| && Origin(g, i, c) == q && (q != i ==> c == q) && Leaves(Split(g, i, j), c, w)
  {
    hide Split, StateWord;
    var h := Split(g, i, j);
    c := q;
    SplitRest(g, i, j, q);
    SplitRest(g, i, j, |g.states|);
    if g.states[q].sticky {
      var u :| u <= w && StateWord(g, q, u);
      SplitWord(g, i, j, u);
    } else {
      SplitWord(g, i, j, w);
      if q == i && !StateWord(h, i, w) {
        c := |g.states|;
      }
    }
  }

  lemma {:induction false} WalksCopy(g: Graph, i: nat, j: nat, path: seq<nat>, w: Text) returns (copy: seq<nat>)
    requires Sound(g) && Mirrored(g.states) && i < |g.states| && j < |g.states[i].tokens| && Plain(g, i)
    requires Walks(g, path, w)
    ensures |copy| == |path| && Walks(Split(g, i, j), copy, w)
    ensures forall k :: 0 <= k < |path| ==>
              copy[k] <= |g.states| && Origin(g, i, copy[k]) == path[k] && (path[k] != i ==> copy[k] == path[k])
    decreases |path|
  {
    hide Split, Leaves, Sound, Mirrored;
    var c;
    if |path| == 1 {
      c := LeavesCopy(g, i, j, path[0], w);
      copy := [c];
    } else {
      var u, v := FirstStop(g, path, w);
      c := LeavesCopy(g, i, j, path[0], u);
      var rest := WalksCopy(g, i, j, path[1..], v);
      assert Origin(g, i, rest[0]) == path[1..][0];
      SplitEdge(g, i, j, c, rest[0]);
      WalkOn(Split(g, i, j), c, rest, u, v);
      copy := [c] + rest;
      forall k | 0 <= k < |path|
        ensures copy[k] <= |g.states| && Origin(g, i, copy[k]) == path[k] && (path[k] != i ==> copy[k] == path[k])
      {
        assert k > 0 ==> path[k] == path[1..][k - 1] && copy[k] == rest[k - 1];
      }
    }
  }

  /** A split of a plain state changes no word between other states. */
  lemma {:induction false} SplitKeepsLanguage(g: Graph, i: nat, j: nat, start: nat, end: nat, w: Text)
    requires Sound(g) && Mirrored(g.states) && i < |g.states| && j < |g.states[i].tokens| && Plain(g, i)
    requires start < |g.states| && end < |g.states| && start != i && end != i
    ensures Accepts(Split(g, i, j), start, end, w) <==> Accepts(g, start, end, w)
  {
    hide Split, Walks, Plain;
    if Accepts(Split(g, i, j), start, end, w) {
      SplitAddsNothing(g, i, j, start, end, w);
    }
    if Accepts(g, start, end, w) {
      var path :| Joins(path, start, end) && Walks(g, path, w);
      var copy := WalksCopy(g, i, j, path, w);
      assert Joins(copy, start, end);
    }
  }

  // ----- the whole fix-up -----

  /** No token of the state differs in length from the one before it: the fix-up leaves the state alone. */
  predicate Uniform(g: Graph, q: nat)
    requires q < |g.states|
  {
    forall k :: 1 <= k < |g.states[q].tokens| ==>
      !Differ(g.tokens, g.states[q].tokens[k], g.states[q].tokens[k - 1])
  }

  /** Every state that may be split is plain. */
  predicate SplitsArePlain(g: Graph) {
    forall q :: 0 <= q < |g.states| ==> Uniform(g, q) || Plain(g, q)
  }

  lemma {:induction false} PlainStays(g: Graph, i: nat, j: nat, q: nat)
    requires Sound(g) && Mirrored(g.states) && i < |g.states| && j < |g.states[i].tokens| && q < |g.states|
    ensures Plain(Split(g, i, j), q) <==> Plain(g, q)
  {
    hide Split, Sound, Mirrored;
    SplitRest(g, i, j, q);
    SplitEdge(g, i, j, q, q);
  }

  lemma {:induction false} SplitsStayPlain(g: Graph, i: nat, j: nat)
    requires Sound(g) && Mirrored(g.states) && i < |g.states| && j < |g.states[i].tokens|
    requires SplitsArePlain(g) && Plain(g, i)
    ensures SplitsArePlain(Split(g, i, j)) && Plain(Split(g, i, j), i)
    ensures forall q :: 0 <= q < |g.states| && q != i ==> (Uniform(Split(g, i, j), q) <==> Uniform(g, q))
  {
    hide Split, Plain, Sound, Mirrored;
    var h := Split(g, i, j);
    PlainStays(g, i, j, i);
    forall q | 0 <= q <= |g.states|
      ensures q < |g.states| && q != i ==> (Uniform(h, q) <==> Uniform(g, q))
      ensures Uniform(h, q) || Plain(h, q)
    {
      SplitRest(g, i, j, q);
      if q < |g.states| {
        PlainStays(g, i, j, q);
      }
    }
  }

  lemma {:induction false} FixStateKeepsLanguage(g: Graph, i: nat, j: nat, max: nat, start: nat, end: nat, w: Text)
    requires Sound(g) && Mirrored(g.states) && i < |g.states| <= max && 0 < j && FixState(g, i, j, max).Fixed?
    requires SplitsArePlain(g) && start < |g.states| && end < |g.states|
    requires Plain(g, i) || FixState(g, i, j, max).graph == g
    requires (start != i && end != i) || FixState(g, i, j, max).graph == g
    requires Uniform(g, start) && Uniform(g, end)
    ensures var h := FixState(g, i, j, max).graph;
            && SplitsArePlain(h) && |h.states| >= |g.states| && Uniform(h, start) && Uniform(h, end)
            && (Accepts(h, start, end, w) <==> Accepts(g, start, end, w))
    decreases |g.states[i].tokens| - j
  {
    hide Split, Plain, Uniform, Accepts, SplitsArePlain;
    var ts := g.states[i].tokens;
    if j < |ts| {
      if !Differ(g.tokens, ts[j], ts[j - 1]) {
        FixStateKeepsLanguage(g, i, j + 1, max, start, end, w);
      } else if |g.states| < max && Plain(g, i) && start != i && end != i {
        var h := Split(g, i, j);
        SplitSound(g, i, j);
        SplitState(g, i, j, i);
        SplitMirrored(g, i, j);
        SplitsStayPlain(g, i, j);
        SplitKeepsLanguage(g, i, j, start, end, w);
        FixStateKeepsLanguage(h, i, j + 1, max, start, end, w);
      }
    }
  }

  lemma {:induction false} UniformStays(g: Graph, i: nat, j: nat, max: nat)
    requires Sound(g) && i < |g.states| <= max && 0 < j && Uniform(g, i)
    ensures FixState(g, i, j, max) == Fixed(g)
    decreases |g.states[i].tokens| - j
  {
    if j < |g.states[i].tokens| {
      UniformStays(g, i, j + 1, max);
    }
  }

  /** The fix-up changes no word between states that it leaves alone, if those it splits neither loop nor are sticky. */
  lemma {:induction false} FixKeepsLanguage(g: Graph, i: nat, max: nat, start: nat, end: nat, w: Text)
    requires Sound(g) && Mirrored(g.states) && |g.states| <= max && FixFrom(g, i, max).Fixed?
    requires SplitsArePlain(g) && start < |g.states| && end < |g.states| && Uniform(g, start) && Uniform(g, end)
    ensures Accepts(FixFrom(g, i, max).graph, start, end, w) <==> Accepts(g, start, end, w)
    decreases max - i
  {
    hide Plain, Uniform, Accepts, Split, FixState, Sound, Mirrored;
    if i < |g.states| {
      var f := FixState(g, i, 1, max);
      if Uniform(g, i) {
        UniformStays(g, i, 1, max);
      }
      FixStateMirrored(g, i, 1, max);
      FixStateKeepsLanguage(g, i, 1, max, start, end, w);
      FixKeepsLanguage(f.graph, i + 1, max, start, end, w);
    }
  }

  lemma {:induction false} FixStateAddsNothing(g: Graph, i: nat, j: nat, max: nat, start: nat, end: nat, w: Text)
    requires Sound(g) && Mirrored(g.states) && i < |g.states| <= max && 0 < j && FixState(g, i, j, max).Fixed?
    requires start < |g.states| && end < |g.states| && Accepts(FixState(g, i, j, max).graph, start, end, w)
    ensures Accepts(g, start, end, w)
    decreases |g.states[i].tokens| - j
  {
    hide Split, Accepts;
    var ts := g.states[i].tokens;
    if j < |ts| {
      if !Differ(g.tokens, ts[j], ts[j - 1]) {
        FixStateAddsNothing(g, i, j + 1, max, start, end, w);
      } else if |g.states| < max {
        SplitSound(g, i, j);
        SplitState(g, i, j, i);
        SplitMirrored(g, i, j);
        FixStateAddsNothing(Split(g, i, j), i, j + 1, max, start, end, w);
        SplitAddsNothing(g, i, j, start, end, w);
      }
    }
  }

  /** Whatever the graph, the fix-up adds no word. */
  lemma {:induction false} FixAddsNothing(g: Graph, i: nat, max: nat, start: nat, end: nat, w: Text)
    requires Sound(g) && Mirrored(g.states) && |g.states| <= max && FixFrom(g, i, max).Fixed?
    requires start < |g.states| && end < |g.states| && Accepts(FixFrom(g, i, max).graph, start, end, w)
    ensures Accepts(g, start, end, w)
    decreases max - i
  {
    hide Accepts, FixState, Sound, Mirrored;
    if i < |g.states| {
      FixStateMirrored(g, i, 1, max);
      FixAddsNothing(FixState(g, i, 1, max).graph, i + 1, max, start, end, w);
      FixStateAddsNothing(g, i, 1, max, start, end, w);
    }
  }
}
