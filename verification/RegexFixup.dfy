/** Splitting states whose tokens differ in length (fregex.cpp, `fix_inequal_tokens`). */
module RegexFixup {
  import opened RegexPattern
  import opened RegexGraph

  /** Edges and tokens name states and tokens that exist. */
  predicate SoundState(s: State, stateCnt: nat, tokenCnt: nat) {
    && (forall e :: 0 <= e < |s.outEdges| ==> 0 <= s.outEdges[e] < stateCnt)
    && (forall e :: 0 <= e < |s.inEdges| ==> 0 <= s.inEdges[e] < stateCnt)
    && (forall k :: 0 <= k < |s.tokens| ==> 0 <= s.tokens[k] < tokenCnt)
  }

  predicate Sound(g: Graph) {
    forall s :: 0 <= s < |g.states| ==> SoundState(g.states[s], |g.states|, |g.tokens|)
  }

  predicate Targets(edges: seq<int>, n: nat) {
    forall e :: 0 <= e < |edges| ==> 0 <= edges[e] < n
  }

  // ----- one split -----

  /** `n` is appended to the incoming edges of every state in `targets`. */
  function AddIn(states: seq<State>, targets: seq<int>, n: int): (r: seq<State>)
    requires Targets(targets, |states|)
    ensures |r| == |states|
  {
    if targets == [] then states
    else
      var last := |targets| - 1;
      var prev := AddIn(states, targets[..last], n);
      var t := targets[last];
      prev[t := prev[t].(inEdges := prev[t].inEdges + [n])]
  }

  function AddOut(states: seq<State>, targets: seq<int>, n: int): (r: seq<State>)
    requires Targets(targets, |states|)
    ensures |r| == |states|
  {
    if targets == [] then states
    else
      var last := |targets| - 1;
      var prev := AddOut(states, targets[..last], n);
      var t := targets[last];
      prev[t := prev[t].(outEdges := prev[t].outEdges + [n])]
  }

  function Removed(ts: seq<int>, j: nat): (r: seq<int>)
    requires j < |ts|
    ensures |r| == |ts| - 1
  {
    ts[..j] + ts[j + 1..]
  }

  function Twin(s: State, n: int, token: int): (t: State) {
    State(n, s.outEdges, s.inEdges, false, [token], false)
  }

  function Linked(states: seq<State>, i: nat, token: int): (r: seq<State>)
    requires i < |states| && Targets(states[i].outEdges, |states|) && Targets(states[i].inEdges, |states|)
    ensures |r| == |states| + 1
  {
    var n := |states|;
    AddOut(AddIn(states + [Twin(states[i], n, token)], states[i].outEdges, n), states[i].inEdges, n)
  }

  /** Token `j` of state `i` moves to a new state with the same neighbours. */
  function Split(g: Graph, i: nat, j: nat): (g': Graph)
    requires Sound(g) && i < |g.states| && j < |g.states[i].tokens|
    ensures |g'.states| == |g.states| + 1 && g'.tokens == g.tokens
  {
    assert SoundState(g.states[i], |g.states|, |g.tokens|);
    var linked := Linked(g.states, i, g.states[i].tokens[j]);
    g.(states := linked[i := linked[i].(tokens := Removed(g.states[i].tokens, j))])
  }

  lemma {:induction false} AddInAt(states: seq<State>, targets: seq<int>, n: int, k: nat)
    requires Targets(targets, |states|) && k < |states|
    ensures AddIn(states, targets, n)[k] == states[k].(inEdges := AddIn(states, targets, n)[k].inEdges)
    ensures multiset(AddIn(states, targets, n)[k].inEdges)
         == multiset(states[k].inEdges)[n := multiset(states[k].inEdges)[n] + multiset(targets)[k]]
  {
    if targets != [] {
      var last := |targets| - 1;
      AddInAt(states, targets[..last], n, k);
      assert targets == targets[..last] + [targets[last]];
    }
  }

  lemma {:induction false} AddOutAt(states: seq<State>, targets: seq<int>, n: int, k: nat)
    requires Targets(targets, |states|) && k < |states|
    ensures AddOut(states, targets, n)[k] == states[k].(outEdges := AddOut(states, targets, n)[k].outEdges)
    ensures multiset(AddOut(states, targets, n)[k].outEdges)
         == multiset(states[k].outEdges)[n := multiset(states[k].outEdges)[n] + multiset(targets)[k]]
  {
    if targets != [] {
      var last := |targets| - 1;
      AddOutAt(states, targets[..last], n, k);
      assert targets == targets[..last] + [targets[last]];
    }
  }

  lemma {:induction false} NotAmong(edges: seq<int>, n: nat)
    requires Targets(edges, n)
    ensures multiset(edges)[n] == 0
  {
    assert n !in edges;
  }

  /** What one split does to the edges of state `k`. */
  lemma {:induction false} LinkedAt(states: seq<State>, i: nat, token: int, k: nat)
    requires i < |states| && k < |states|
    requires Targets(states[i].outEdges, |states|) && Targets(states[i].inEdges, |states|)
    requires Targets(states[k].outEdges, |states|) && Targets(states[k].inEdges, |states|)
    ensures var n := |states|; var s := Linked(states, i, token)[k];
            && s == states[k].(outEdges := s.outEdges, inEdges := s.inEdges)
            && multiset(s.outEdges) == multiset(states[k].outEdges)[n := multiset(states[i].inEdges)[k]]
            && multiset(s.inEdges) == multiset(states[k].inEdges)[n := multiset(states[i].outEdges)[k]]
  {
    var n := |states|;
    var more := states + [Twin(states[i], n, token)];
    AddInAt(more, states[i].outEdges, n, k);
    AddOutAt(AddIn(more, states[i].outEdges, n), states[i].inEdges, n, k);
    NotAmong(states[k].outEdges, n);
    NotAmong(states[k].inEdges, n);
  }

  lemma {:induction false} LinkedNew(states: seq<State>, i: nat, token: int)
    requires i < |states| && Targets(states[i].outEdges, |states|) && Targets(states[i].inEdges, |states|)
    ensures var n := |states|; var s := Linked(states, i, token)[n];
            && s == Twin(states[i], n, token).(outEdges := s.outEdges, inEdges := s.inEdges)
            && multiset(s.outEdges) == multiset(states[i].outEdges)
            && multiset(s.inEdges) == multiset(states[i].inEdges)
  {
    var n := |states|;
    var more := states + [Twin(states[i], n, token)];
    AddInAt(more, states[i].outEdges, n, n);
    AddOutAt(AddIn(more, states[i].outEdges, n), states[i].inEdges, n, n);
    NotAmong(states[i].outEdges, n);
    NotAmong(states[i].inEdges, n);
  }

  /** An edge list that gained only edges to `n`. */
  lemma {:induction false} StillTargets(edges: seq<int>, was: seq<int>, n: nat, m: nat)
    requires multiset(edges) == multiset(was)[n := m] && Targets(was, n)
    ensures Targets(edges, n + 1)
  {
    forall e | 0 <= e < |edges|
      ensures 0 <= edges[e] < n + 1
    {
      assert edges[e] in multiset(edges);
      if edges[e] != n {
        assert edges[e] in multiset(was);
        assert edges[e] in was;
      }
    }
  }

  lemma {:induction false} SplitState(g: Graph, i: nat, j: nat, k: nat)
    requires Sound(g) && i < |g.states| && j < |g.states[i].tokens| && k < |g.states|
    ensures var n := |g.states|; var s := Split(g, i, j).states[k];
            && multiset(s.outEdges) == multiset(g.states[k].outEdges)[n := multiset(g.states[i].inEdges)[k]]
            && multiset(s.inEdges) == multiset(g.states[k].inEdges)[n := multiset(g.states[i].outEdges)[k]]
            && s.tokens == (if k == i then Removed(g.states[i].tokens, j) else g.states[k].tokens)
            && SoundState(s, n + 1, |g.tokens|)
  {
    var n := |g.states|;
    assert SoundState(g.states[i], n, |g.tokens|) && SoundState(g.states[k], n, |g.tokens|);
    LinkedAt(g.states, i, g.states[i].tokens[j], k);
    var s := Split(g, i, j).states[k];
    StillTargets(s.outEdges, g.states[k].outEdges, n, multiset(g.states[i].inEdges)[k]);
    StillTargets(s.inEdges, g.states[k].inEdges, n, multiset(g.states[i].outEdges)[k]);
  }

  lemma {:induction false} SplitNew(g: Graph, i: nat, j: nat)
    requires Sound(g) && i < |g.states| && j < |g.states[i].tokens|
    ensures var n := |g.states|; var s := Split(g, i, j).states[n];
            && multiset(s.outEdges) == multiset(g.states[i].outEdges)
                  && multiset(s.inEdges) == multiset(g.states[i].inEdges)
            && s.tokens == [g.states[i].tokens[j]] && SoundState(s, n + 1, |g.tokens|)
  {
    var n := |g.states|;
    assert SoundState(g.states[i], n, |g.tokens|);
    LinkedNew(g.states, i, g.states[i].tokens[j]);
    var s := Split(g, i, j).states[n];
    NotAmong(g.states[i].outEdges, n);
    NotAmong(g.states[i].inEdges, n);
    assert multiset(s.outEdges) == multiset(g.states[i].outEdges)[n := 0];
    assert multiset(s.inEdges) == multiset(g.states[i].inEdges)[n := 0];
    StillTargets(s.outEdges, g.states[i].outEdges, n, 0);
    StillTargets(s.inEdges, g.states[i].inEdges, n, 0);
  }

  lemma {:induction false} SplitSound(g: Graph, i: nat, j: nat)
    requires Sound(g) && i < |g.states| && j < |g.states[i].tokens|
    ensures Sound(Split(g, i, j))
  {
    forall k | 0 <= k < |g.states|
      ensures SoundState(Split(g, i, j).states[k], |g.states| + 1, |g.tokens|)
    {
      SplitState(g, i, j, k);
    }
    SplitNew(g, i, j);
  }

  // ----- mirrored edges -----

  /** State `s` leads to `t` as often as `t` says it is reached from `s`. */
  predicate MirroredAt(states: seq<State>, s: nat, t: nat)
    requires s < |states| && t < |states|
  {
    multiset(states[s].outEdges)[t] == multiset(states[t].inEdges)[s]
  }

  predicate Mirrored(states: seq<State>) {
    forall s, t :: 0 <= s < |states| && 0 <= t < |states| ==> MirroredAt(states, s, t)
  }

  lemma {:induction false} SplitMirroredAt(g: Graph, i: nat, j: nat, s: nat, t: nat)
    requires Sound(g) && Mirrored(g.states) && i < |g.states| && j < |g.states[i].tokens|
    requires s <= |g.states| && t <= |g.states|
    ensures MirroredAt(Split(g, i, j).states, s, t)
  {
    var n := |g.states|;
    SplitNew(g, i, j);
    assert SoundState(g.states[i], n, |g.tokens|);
    NotAmong(g.states[i].outEdges, n);
    if s < n {
      SplitState(g, i, j, s);
      assert MirroredAt(g.states, s, i);
    }
    if t < n {
      SplitState(g, i, j, t);
      assert MirroredAt(g.states, i, t);
    }
    if s < n && t < n {
      assert MirroredAt(g.states, s, t);
    }
    if s == n && t == n {
      NotAmong(g.states[i].inEdges, n);
    }
  }

  /** Splitting a state keeps the two edge arrays each other's mirror image. */
  lemma {:induction false} SplitMirrored(g: Graph, i: nat, j: nat)
    requires Sound(g) && Mirrored(g.states) && i < |g.states| && j < |g.states[i].tokens|
    ensures Mirrored(Split(g, i, j).states)
  {
    forall s, t | 0 <= s <= |g.states| && 0 <= t <= |g.states|
      ensures MirroredAt(Split(g, i, j).states, s, t)
    {
      SplitMirroredAt(g, i, j, s, t);
    }
  }

  lemma {:induction false} NewStateMirrored(g: Graph, tokens: seq<Token>, accepting: bool)
    requires Sound(g) && Mirrored(g.states)
    ensures Sound(AddState(g, tokens, accepting)) && Mirrored(AddState(g, tokens, accepting).states)
  {
    if tokens != [] {
      var n, h := |g.states|, AddState(g, tokens, accepting);
      forall s | 0 <= s < n
        ensures SoundState(h.states[s], n + 1, |h.tokens|) && n !in h.states[s].outEdges && n !in h.states[s].inEdges
      {
        assert SoundState(g.states[s], n, |g.tokens|);
      }
      assert SoundState(h.states[n], n + 1, |h.tokens|);
      forall s, t | 0 <= s <= n && 0 <= t <= n
        ensures MirroredAt(h.states, s, t)
      {
        assert s < n && t < n ==> MirroredAt(g.states, s, t);
      }
    }
  }

  lemma {:induction false} EdgeMirrored(g: Graph, s: nat, t: nat)
    requires Sound(g) && Mirrored(g.states) && s < |g.states| && t < |g.states|
    ensures Sound(g.(states := AddEdge(g.states, s, t))) && Mirrored(AddEdge(g.states, s, t))
  {
    EdgeSound(g, s, t);
    hide Sound, AddEdge, MirroredAt;
    forall a, b | 0 <= a < |g.states| && 0 <= b < |g.states|
      ensures MirroredAt(AddEdge(g.states, s, t), a, b)
    {
      assert MirroredAt(g.states, a, b);
      EdgeMirroredAt(g.states, s, t, a, b);
    }
  }

  lemma {:induction false} EdgeMirroredAt(states: seq<State>, s: nat, t: nat, a: nat, b: nat)
    requires s < |states| && t < |states| && a < |states| && b < |states| && MirroredAt(states, a, b)
    ensures MirroredAt(AddEdge(states, s, t), a, b)
  {
  }

  lemma {:induction false} EdgeSound(g: Graph, s: nat, t: nat)
    requires Sound(g) && s < |g.states| && t < |g.states|
    ensures Sound(g.(states := AddEdge(g.states, s, t)))
  {
    var n, after := |g.states|, AddEdge(g.states, s, t);
    forall k | 0 <= k < n
      ensures SoundState(after[k], n, |g.tokens|)
    {
      assert SoundState(g.states[k], n, |g.tokens|);
    }
  }

  lemma {:induction false} StickyMirrored(g: Graph)
    requires Sound(g) && Mirrored(g.states) && g.states != []
    ensures Sound(MakeSticky(g)) && Mirrored(MakeSticky(g).states)
  {
    var n, after := |g.states|, MakeSticky(g).states;
    forall k | 0 <= k < n
      ensures SoundState(after[k], n, |g.tokens|)
    {
      assert SoundState(g.states[k], n, |g.tokens|);
    }
    forall a, b | 0 <= a < n && 0 <= b < n
      ensures MirroredAt(after, a, b)
    {
      assert MirroredAt(g.states, a, b);
    }
  }

  lemma {:induction false} ExtendMirrored(g: Graph, tokens: seq<Token>, accepting: bool)
    requires Sound(g) && Mirrored(g.states)
    ensures Sound(Extend(g, tokens, accepting)) && Mirrored(Extend(g, tokens, accepting).states)
  {
    hide Sound, Mirrored, AddEdge;
    var n := |g.states|;
    if tokens != [] {
      NewStateMirrored(g, tokens, accepting);
      if n > 0 {
        EdgeMirrored(AddState(g, tokens, accepting), n - 1, n);
      }
    }
  }

  lemma {:induction false} SuffixMirrored(g: Graph)
    requires Sound(g) && Mirrored(g.states) && g.states != []
    ensures Sound(SelfLoop(g)) && Mirrored(SelfLoop(g).states) && Sound(MakeSticky(g)) && Mirrored(MakeSticky(g).states)
  {
    var last := |g.states| - 1;
    EdgeMirrored(g, last, last);
    StickyMirrored(g);
  }

  lemma {:induction false} StepMirrored(g: Graph, t: Text, maxStates: nat, maxTokens: nat)
    requires t != [] && Sound(g) && Mirrored(g.states)
    ensures var p := ParseStep(g, t, maxStates, maxTokens);
            p.Ahead? ==> Sound(p.graph) && Mirrored(p.graph.states)
                         && (|g.states| <= maxStates ==> |p.graph.states| <= maxStates)
  {
    var p := ParseStep(g, t, maxStates, maxTokens);
    if p.Ahead? {
      if t[0] in {PLUS, DOT} {
        SuffixMirrored(g);
      } else {
        var s := ScanItem(t);
        ExtendMirrored(g, s.tokens, s.length == |t|);
      }
    }
  }

  /** Whatever text is parsed, concatenation and self-loops keep the edge arrays mirrored, as long as
      they have room for the edges. */
  lemma {:induction false} ParseMirrored(g: Graph, t: Text, maxStates: nat, maxTokens: nat)
    requires Sound(g) && Mirrored(g.states) && |g.states| <= maxStates
    ensures var r := ParseFrom(g, t, maxStates, maxTokens);
            r.Parsed? ==> Sound(r.graph) && Mirrored(r.graph.states) && |r.graph.states| <= maxStates
    decreases |t|
  {
    if t != [] {
      StepMirrored(g, t, maxStates, maxTokens);
      ParseTurn(g, t, maxStates, maxTokens);
      var p := ParseStep(g, t, maxStates, maxTokens);
      if p.Ahead? {
        ParseMirrored(p.graph, t[p.length..], maxStates, maxTokens);
      }
    }
  }

  // ----- the whole fix-up -----

  /** `NoRoom`: a new state is written outside the array. */
  datatype Fixed = Fixed(graph: Graph) | NoRoom

  predicate Differ(tokens: seq<Token>, a: int, b: int) {
    0 <= a < |tokens| && 0 <= b < |tokens| && |tokens[a].chars| != |tokens[b].chars|
  }

  /** The loop over the tokens of state `i`. A token after a removed one takes its index and is skipped. */
  function FixState(g: Graph, i: nat, j: nat, max: nat): (f: Fixed)
    requires Sound(g) && i < |g.states| <= max && 0 < j
    ensures f.Fixed? ==> Sound(f.graph) && |g.states| <= |f.graph.states| <= max
    decreases |g.states[i].tokens| - j
  {
    var ts := g.states[i].tokens;
    if j >= |ts| then Fixed(g)
    else if !Differ(g.tokens, ts[j], ts[j - 1]) then FixState(g, i, j + 1, max)
    else if |g.states| == max then NoRoom
    else
      SplitSound(g, i, j);
      SplitState(g, i, j, i);
      FixState(Split(g, i, j), i, j + 1, max)
  }

  function FixFrom(g: Graph, i: nat, max: nat): (f: Fixed)
    requires Sound(g) && |g.states| <= max
    ensures f.Fixed? ==> Sound(f.graph) && |f.graph.states| <= max
    decreases max - i
  {
    if i >= |g.states| then Fixed(g)
    else
      match FixState(g, i, 1, max)
      case NoRoom => NoRoom
      case Fixed(g') => FixFrom(g', i + 1, max)
  }

  lemma {:induction false} FixStateMirrored(g: Graph, i: nat, j: nat, max: nat)
    requires Sound(g) && i < |g.states| <= max && 0 < j && Mirrored(g.states)
    ensures FixState(g, i, j, max).Fixed? ==> Mirrored(FixState(g, i, j, max).graph.states)
    decreases |g.states[i].tokens| - j
  {
    var ts := g.states[i].tokens;
    if j < |ts| {
      if !Differ(g.tokens, ts[j], ts[j - 1]) {
        FixStateMirrored(g, i, j + 1, max);
      } else if |g.states| < max {
        SplitSound(g, i, j);
        SplitState(g, i, j, i);
        SplitMirrored(g, i, j);
        FixStateMirrored(Split(g, i, j), i, j + 1, max);
      }
    }
  }

  /** The whole fix-up keeps the edge arrays mirrored. */
  lemma {:induction false} FixMirrored(g: Graph, i: nat, max: nat)
    requires Sound(g) && |g.states| <= max && Mirrored(g.states)
    ensures FixFrom(g, i, max).Fixed? ==> Mirrored(FixFrom(g, i, max).graph.states)
    decreases max - i
  {
    if i < |g.states| {
      FixStateMirrored(g, i, 1, max);
      var f := FixState(g, i, 1, max);
      if f.Fixed? {
        FixMirrored(f.graph, i + 1, max);
      }
    }
  }

  // ----- what the fix-up is for -----

  predicate SameLength(tokens: seq<Token>, a: int, b: int) {
    0 <= a < |tokens| && 0 <= b < |tokens| && |tokens[a].chars| == |tokens[b].chars|
  }

  predicate Even(tokens: seq<Token>, ts: seq<int>) {
    forall k :: 0 <= k < |ts| ==> SameLength(tokens, ts[k], ts[0])
  }

  /** From place `j` on, no two tokens in a row both differ in length from the first. */
  predicate NoTwoOdd(tokens: seq<Token>, ts: seq<int>, j: nat) {
    forall k :: j <= k < |ts| - 1 ==> SameLength(tokens, ts[k], ts[0]) || SameLength(tokens, ts[k + 1], ts[0])
  }

  /** The tokens that the loop leaves in a state. */
  function Kept(tokens: seq<Token>, ts: seq<int>, j: nat): (r: seq<int>)
    requires 0 < j
    decreases |ts| - j
  {
    if j >= |ts| then ts
    else if !Differ(tokens, ts[j], ts[j - 1]) then Kept(tokens, ts, j + 1)
    else Kept(tokens, Removed(ts, j), j + 1)
  }

  predicate Valid(tokens: seq<Token>, ts: seq<int>) {
    forall k :: 0 <= k < |ts| ==> 0 <= ts[k] < |tokens|
  }

  lemma {:induction false} KeptPrefix(tokens: seq<Token>, ts: seq<int>, j: nat, k: nat)
    requires 0 < j && k < j && k < |ts|
    ensures k < |Kept(tokens, ts, j)| && Kept(tokens, ts, j)[k] == ts[k]
    decreases |ts| - j
  {
    if j < |ts| {
      if !Differ(tokens, ts[j], ts[j - 1]) {
        KeptPrefix(tokens, ts, j + 1, k);
      } else {
        KeptPrefix(tokens, Removed(ts, j), j + 1, k);
      }
    }
  }

  lemma {:induction false} RemovedNoTwo(tokens: seq<Token>, ts: seq<int>, j: nat)
    requires Valid(tokens, ts) && 0 < j && j + 1 < |ts| && !SameLength(tokens, ts[j], ts[0])
          && SameLength(tokens, ts[j + 1], ts[0])
    ensures NoTwoOdd(tokens, ts, j) <==> NoTwoOdd(tokens, Removed(ts, j), j + 1)
  {
    var rest := Removed(ts, j);
    if NoTwoOdd(tokens, rest, j + 1) {
      forall k | j <= k < |ts| - 1
        ensures SameLength(tokens, ts[k], ts[0]) || SameLength(tokens, ts[k + 1], ts[0])
      {
        if k > j + 1 {
          assert rest[k - 1] == ts[k] && rest[k - 1 + 1] == ts[k + 1];
        }
      }
    }
  }

  /** The loop leaves tokens of one length exactly when no two in a row differ from the first. */
  lemma {:induction false} KeptEven(tokens: seq<Token>, ts: seq<int>, j: nat)
    requires Valid(tokens, ts) && 0 < j <= |ts| + 1
    requires forall k :: 0 <= k < j && k < |ts| ==> SameLength(tokens, ts[k], ts[0])
    ensures Even(tokens, Kept(tokens, ts, j)) <==> NoTwoOdd(tokens, ts, j)
    decreases |ts| - j
  {
    if j < |ts| {
      if !Differ(tokens, ts[j], ts[j - 1]) {
        KeptEven(tokens, ts, j + 1);
      } else if j + 1 == |ts| || SameLength(tokens, ts[j + 1], ts[0]) {
        KeptEven(tokens, Removed(ts, j), j + 1);
        if j + 1 < |ts| {
          RemovedNoTwo(tokens, ts, j);
        }
      } else {
        var rest := Removed(ts, j);
        KeptPrefix(tokens, rest, j + 1, j);
        KeptPrefix(tokens, rest, j + 1, 0);
        assert !SameLength(tokens, ts[j], ts[0]) && rest[j] == ts[j + 1];
      }
    }
  }

  /** What the loop over state `i` does to the tokens of every state. */
  lemma {:induction false} FixStateKeeps(g: Graph, i: nat, j: nat, max: nat)
    requires Sound(g) && i < |g.states| <= max && 0 < j && FixState(g, i, j, max).Fixed?
    ensures var h := FixState(g, i, j, max).graph;
            && h.tokens == g.tokens && |g.states| <= |h.states|
            && h.states[i].tokens == Kept(g.tokens, g.states[i].tokens, j)
            && (forall k :: 0 <= k < |g.states| && k != i ==> h.states[k].tokens == g.states[k].tokens)
            && (forall k :: |g.states| <= k < |h.states| ==> |h.states[k].tokens| == 1)
    decreases |g.states[i].tokens| - j
  {
    hide Split, Sound;
    var ts := g.states[i].tokens;
    if j < |ts| {
      if !Differ(g.tokens, ts[j], ts[j - 1]) {
        FixStateKeeps(g, i, j + 1, max);
      } else {
        var h := Split(g, i, j);
        SplitSound(g, i, j);
        SplitNew(g, i, j);
        forall k | 0 <= k < |g.states|
          ensures h.states[k].tokens == (if k == i then Removed(ts, j) else g.states[k].tokens)
        {
          SplitState(g, i, j, k);
        }
        FixStateKeeps(h, i, j + 1, max);
      }
    }
  }

  predicate EvenState(g: Graph, k: nat)
    requires k < |g.states|
  {
    Even(g.tokens, g.states[k].tokens)
  }

  predicate NoTwoOddState(g: Graph, k: nat)
    requires k < |g.states|
  {
    NoTwoOdd(g.tokens, g.states[k].tokens, 1)
  }

  predicate EvenUpTo(g: Graph, i: nat) {
    forall k :: 0 <= k < i && k < |g.states| ==> EvenState(g, k)
  }

  predicate NoTwoOddFrom(g: Graph, i: nat) {
    forall k :: i <= k < |g.states| ==> NoTwoOddState(g, k)
  }

  lemma {:induction false} SoundTokens(g: Graph, k: nat)
    requires Sound(g) && k < |g.states|
    ensures Valid(g.tokens, g.states[k].tokens)
  {
    assert SoundState(g.states[k], |g.states|, |g.tokens|);
  }

  lemma {:induction false} SingletonEven(g: Graph, k: nat)
    requires Sound(g) && k < |g.states| && |g.states[k].tokens| == 1
    ensures EvenState(g, k) && NoTwoOddState(g, k)
  {
    SoundTokens(g, k);
  }

  lemma {:induction false} FixStateEven(g: Graph, i: nat, max: nat)
    requires Sound(g) && i < |g.states| <= max && FixState(g, i, 1, max).Fixed?
    ensures var h := FixState(g, i, 1, max).graph;
            && i < |h.states| && (EvenState(h, i) <==> NoTwoOddState(g, i))
            && (EvenUpTo(g, i) ==> EvenUpTo(h, i))
            && (NoTwoOddFrom(g, i + 1) <==> NoTwoOddFrom(h, i + 1))
  {
    var h := FixState(g, i, 1, max).graph;
    FixStateKeeps(g, i, 1, max);
    SoundTokens(g, i);
    KeptEven(g.tokens, g.states[i].tokens, 1);
    forall k | i + 1 <= k < |h.states|
      ensures NoTwoOddState(h, k) <==> k >= |g.states| || NoTwoOddState(g, k)
    {
      if k >= |g.states| {
        SingletonEven(h, k);
      }
    }
    if EvenUpTo(g, i) {
      forall k | 0 <= k < i
        ensures EvenState(h, k)
      {
        assert EvenState(g, k);
      }
    }
  }

  /** States that the loop has passed stay as they are. */
  lemma {:induction false} FixFromKeeps(g: Graph, i: nat, max: nat, k: nat)
    requires Sound(g) && |g.states| <= max && k < i && k < |g.states| && FixFrom(g, i, max).Fixed?
    ensures var h := FixFrom(g, i, max).graph;
            h.tokens == g.tokens && |g.states| <= |h.states| && h.states[k].tokens == g.states[k].tokens
    decreases max - i
  {
    if i < |g.states| {
      FixStateKeeps(g, i, 1, max);
      FixFromKeeps(FixState(g, i, 1, max).graph, i + 1, max, k);
    }
  }

  lemma {:induction false} FixFromEven(g: Graph, i: nat, max: nat)
    requires Sound(g) && |g.states| <= max && EvenUpTo(g, i) && FixFrom(g, i, max).Fixed?
    ensures var h := FixFrom(g, i, max).graph; EvenUpTo(h, |h.states|) <==> NoTwoOddFrom(g, i)
    decreases max - i
  {
    hide FixState, Sound, NoTwoOddState;
    if i < |g.states| {
      var h := FixState(g, i, 1, max).graph;
      FixStateEven(g, i, max);
      if NoTwoOddState(g, i) {
        assert EvenUpTo(h, i + 1);
        FixFromEven(h, i + 1, max);
        assert NoTwoOddFrom(g, i) <==> NoTwoOddFrom(g, i + 1);
      } else {
        FixFromKeeps(h, i + 1, max, i);
        var last := FixFrom(h, i + 1, max).graph;
        assert !EvenState(last, i);
      }
    }
  }

  /** The fix-up leaves every state with tokens of one length exactly when no state held two tokens
      in a row that both differ in length from its first. */
  lemma {:induction false} FixupEvens(g: Graph, max: nat)
    requires Sound(g) && |g.states| <= max && FixFrom(g, 0, max).Fixed?
    ensures var h := FixFrom(g, 0, max).graph; EvenUpTo(h, |h.states|) <==> NoTwoOddFrom(g, 0)
  {
    FixFromEven(g, 0, max);
  }

  lemma {:induction false} EvenStateStays(g: Graph, i: nat, j: nat, max: nat)
    requires Sound(g) && i < |g.states| <= max && 0 < j && EvenState(g, i)
    ensures FixState(g, i, j, max) == Fixed(g)
    decreases |g.states[i].tokens| - j
  {
    var ts := g.states[i].tokens;
    if j < |ts| {
      assert SameLength(g.tokens, ts[j], ts[0]) && SameLength(g.tokens, ts[j - 1], ts[0]);
      EvenStateStays(g, i, j + 1, max);
    }
  }

  /** Nothing changes when every state's tokens already have one length. */
  lemma {:induction false} EvenGraphStays(g: Graph, i: nat, max: nat)
    requires Sound(g) && |g.states| <= max && EvenUpTo(g, |g.states|)
    ensures FixFrom(g, i, max) == Fixed(g)
    decreases max - i
  {
    if i < |g.states| {
      assert EvenState(g, i);
      EvenStateStays(g, i, 1, max);
      EvenGraphStays(g, i + 1, max);
    }
  }

  // ----- the code -----

  method AppendIn(states: array<State>, ghost m: nat, targets: seq<int>, n: int)
    requires m <= states.Length && Targets(targets, m)
    modifies states
    ensures states[..m] == AddIn(old(states[..m]), targets, n) && states[m..] == old(states[m..])
  {
    for r := 0 to |targets|
      invariant states[..m] == AddIn(old(states[..m]), targets[..r], n) && states[m..] == old(states[m..])
    {
      var other := targets[r];
      ghost var before := states[..m];
      states[other] := states[other].(inEdges := states[other].inEdges + [n]);
      assert targets[..r + 1][..r] == targets[..r];
      assert states[..m] == before[other := before[other].(inEdges := before[other].inEdges + [n])];
    }
    assert targets[..|targets|] == targets;
  }

  method AppendOut(states: array<State>, ghost m: nat, targets: seq<int>, n: int)
    requires m <= states.Length && Targets(targets, m)
    modifies states
    ensures states[..m] == AddOut(old(states[..m]), targets, n) && states[m..] == old(states[m..])
  {
    for r := 0 to |targets|
      invariant states[..m] == AddOut(old(states[..m]), targets[..r], n) && states[m..] == old(states[m..])
    {
      var other := targets[r];
      ghost var before := states[..m];
      states[other] := states[other].(outEdges := states[other].outEdges + [n]);
      assert targets[..r + 1][..r] == targets[..r];
      assert states[..m] == before[other := before[other].(outEdges := before[other].outEdges + [n])];
    }
    assert targets[..|targets|] == targets;
  }

  /** The tokens behind `j` move up by one place. */
  method ShiftTokens(ts: seq<int>, j: nat) returns (shifted: seq<int>)
    requires j < |ts|
    ensures shifted == Removed(ts, j)
  {
    shifted := ts;
    for r := j to |ts| - 1
      invariant |shifted| == |ts| && shifted[..r] == ts[..j] + ts[j + 1..r + 1] && shifted[r..] == ts[r..]
    {
      shifted := shifted[r := shifted[r + 1]];
    }
    shifted := shifted[..|ts| - 1];
  }

  method SplitOff(states: array<State>, ghost tokens: seq<Token>, n: nat, i: nat, j: nat)
    requires i < n < states.Length && states[n] == BLANK
    requires Sound(Graph(states[..n], tokens)) && j < |states[i].tokens|
    modifies states
    ensures states[..n + 1] == Split(Graph(old(states[..n]), tokens), i, j).states
    ensures states[n + 1..] == old(states[n + 1..])
  {
    ghost var g := Graph(states[..n], tokens);
    assert SoundState(g.states[i], n, |tokens|);
    var s := states[i];
    states[n] := State(n, s.outEdges, s.inEdges, states[n].sticky, [s.tokens[j]], false);
    assert states[..n + 1] == g.states + [Twin(s, n, s.tokens[j])];
    AppendIn(states, n + 1, s.outEdges, n);
    AppendOut(states, n + 1, s.inEdges, n);
    ghost var linked := states[..n + 1];
    assert linked == Linked(g.states, i, s.tokens[j]);
    LinkedAt(g.states, i, s.tokens[j], i);
    var shifted := ShiftTokens(states[i].tokens, j);
    states[i] := states[i].(tokens := shifted);
    assert states[..n + 1] == linked[i := linked[i].(tokens := shifted)];
  }

  lemma {:induction false} FixStateTurn(g: Graph, i: nat, j: nat, max: nat)
    requires Sound(g) && i < |g.states| <= max && 0 < j < |g.states[i].tokens|
    ensures Valid(g.tokens, g.states[i].tokens)
    ensures Differ(g.tokens, g.states[i].tokens[j], g.states[i].tokens[j - 1]) && |g.states| < max ==>
              && Sound(Split(g, i, j)) && |Split(g, i, j).states[i].tokens| < |g.states[i].tokens|
              && FixState(g, i, j, max) == FixState(Split(g, i, j), i, j + 1, max)
  {
    SoundTokens(g, i);
    SplitSound(g, i, j);
    SplitState(g, i, j, i);
  }

  predicate Blank(states: seq<State>) {
    forall x :: 0 <= x < |states| ==> states[x] == BLANK
  }

  /** One comparison of the loop: `sLoc'` steps on if token `j` is split off. */
  method FixTurn(states: array<State>, tokens: seq<Token>, sLoc: int, i: nat, j: nat) returns (sLoc': int, ok: bool)
    requires i <= sLoc < states.Length && Sound(Graph(states[..sLoc + 1], tokens)) && Blank(states[sLoc + 1..])
    requires 0 < j < |states[i].tokens|
    modifies states
    ensures var f := FixState(Graph(old(states[..sLoc + 1]), tokens), i, j, states.Length);
            if ok then sLoc <= sLoc' < states.Length && Sound(Graph(states[..sLoc' + 1], tokens))
                       && f == FixState(Graph(states[..sLoc' + 1], tokens), i, j + 1, states.Length)
            else f == NoRoom
    ensures ok ==> Blank(states[sLoc' + 1..]) && |states[i].tokens| <= old(|states[i].tokens|)
  {
    sLoc', ok := sLoc, true;
    ghost var g := Graph(states[..sLoc + 1], tokens);
    FixStateTurn(g, i, j, states.Length);
    var ts := states[i].tokens;
    if |tokens[ts[j]].chars| != |tokens[ts[j - 1]].chars| {
      if sLoc + 1 == states.Length {
        return sLoc, false;
      }
      assert states[sLoc + 1..][0] == BLANK;
      SplitOff(states, tokens, sLoc + 1, i, j);
      sLoc' := sLoc + 1;
      assert Graph(states[..sLoc' + 1], tokens) == Split(g, i, j);
      assert states[i] == Split(g, i, j).states[i];
    }
  }

  method FixOne(states: array<State>, tokens: seq<Token>, sLoc: int, i: nat) returns (sLoc': int, ok: bool)
    requires i <= sLoc < states.Length && Sound(Graph(states[..sLoc + 1], tokens)) && Blank(states[sLoc + 1..])
    modifies states
    ensures var f := FixState(Graph(old(states[..sLoc + 1]), tokens), i, 1, states.Length);
            if ok then sLoc <= sLoc' < states.Length && f == Fixed(Graph(states[..sLoc' + 1], tokens)) else f == NoRoom
    ensures ok ==> Blank(states[sLoc' + 1..])
  {
    hide Sound, Blank;
    sLoc', ok := sLoc, true;
    var j := 1;
    while j < |states[i].tokens|
      invariant sLoc <= sLoc' < states.Length && 0 < j && Sound(Graph(states[..sLoc' + 1], tokens))
      invariant Blank(states[sLoc' + 1..])
      invariant FixState(Graph(states[..sLoc' + 1], tokens), i, j, states.Length)
             == FixState(Graph(old(states[..sLoc + 1]), tokens), i, 1, states.Length)
      decreases |states[i].tokens| - j
    {
      sLoc', ok := FixTurn(states, tokens, sLoc', i, j);
      if !ok {
        return;
      }
      j := j + 1;
    }
  }

  lemma {:induction false} FixFromTurn(g: Graph, i: nat, max: nat)
    requires Sound(g) && i < |g.states| <= max
    ensures var f := FixState(g, i, 1, max);
            && (f.NoRoom? ==> FixFrom(g, i, max) == NoRoom)
            && (f.Fixed? ==>
                  && Sound(f.graph) && |f.graph.states| <= max
                  && FixFrom(g, i, max) == FixFrom(f.graph, i + 1, max))
  {
  }

  /** The fix-up in place: the states past `sLoc'` stay blank. */
  method FixInequalTokens(states: array<State>, tokens: seq<Token>, sLoc: int) returns (sLoc': int, ok: bool)
    requires -1 <= sLoc < states.Length && Sound(Graph(states[..sLoc + 1], tokens)) && Blank(states[sLoc + 1..])
    modifies states
    ensures var f := FixFrom(Graph(old(states[..sLoc + 1]), tokens), 0, states.Length);
            if ok then sLoc <= sLoc' < states.Length && f == Fixed(Graph(states[..sLoc' + 1], tokens)) else f == NoRoom
    ensures ok ==> Blank(states[sLoc' + 1..])
  {
    sLoc', ok := sLoc, true;
    var i := 0;
    while i < sLoc' + 1
      invariant sLoc <= sLoc' < states.Length && 0 <= i && ok && Sound(Graph(states[..sLoc' + 1], tokens))
      invariant Blank(states[sLoc' + 1..])
      invariant FixFrom(Graph(states[..sLoc' + 1], tokens), i, states.Length)
             == FixFrom(Graph(old(states[..sLoc + 1]), tokens), 0, states.Length)
      decreases states.Length - i
    {
      hide FixFrom, FixState, Sound, Blank;
      FixFromTurn(Graph(states[..sLoc' + 1], tokens), i, states.Length);
      sLoc', ok := FixOne(states, tokens, sLoc', i);
      if !ok {
        return;
      }
      i := i + 1;
    }
  }
}
