/** Moving the accepting state to the last place (fregex.cpp, `rename_accepting_state`). */
module RegexRename {
  import opened RegexPattern
  import opened RegexGraph
  import opened RegexAccepts
  import opened RegexFixup

  // ----- what the code computes -----

  function Replaced(edges: seq<int>, from: int, to: int): (r: seq<int>)
    ensures |r| == |edges|
  {
    seq(|edges|, e requires 0 <= e < |edges| => if edges[e] == from then to else edges[e])
  }

  function ReplacedState(s: State, from: int, to: int): (r: State) {
    s.(inEdges := Replaced(s.inEdges, from, to), outEdges := Replaced(s.outEdges, from, to))
  }

  /** One pass over the edges of every used state but state `i`. */
  function Pass(states: seq<State>, used: nat, i: nat, from: int, to: int): (r: seq<State>)
    requires used <= |states|
    ensures |r| == |states|
  {
    seq(|states|, k requires 0 <= k < |states| =>
      if k < used && k != i then ReplacedState(states[k], from, to) else states[k])
  }

  /** The edges to `m - 1` and to `i` change places by way of the spare number `m`. */
  function Passes(states: seq<State>, used: nat, i: nat, m: nat): (r: seq<State>)
    requires used <= |states|
    ensures |r| == |states|
  {
    Pass(Pass(Pass(states, used, i, m - 1, m), used, i, i, m - 1), used, i, m, i)
  }

  /** States `i` and `m - 1` change places by way of the spare entry `m`. */
  function Exchanged(states: seq<State>, i: nat, m: nat): (r: seq<State>)
    requires 0 < m < |states| && i < |states|
    ensures |r| == |states|
  {
    var a := states[m := states[m - 1]];
    var b := a[m - 1 := a[i]];
    var c := b[i := b[m]];
    var d := c[i := c[i].(id := i)];
    d[m - 1 := d[m - 1].(id := m - 1)]
  }

  function Renamed(states: seq<State>, used: nat, i: nat, m: nat): (r: seq<State>)
    requires used <= |states| && 0 < m < |states| && i < |states|
    ensures |r| == |states|
  {
    Exchanged(Passes(states, used, i, m), i, m)
  }

  /** The first accepting state among the used ones, or `used`. */
  function FirstAccepting(states: seq<State>, used: nat): (i: nat)
    requires used <= |states|
    ensures i <= used && (i < used ==> states[i].accepting) && forall k :: 0 <= k < i ==> !states[k].accepting
  {
    if used == 0 then 0
    else
      var i := FirstAccepting(states, used - 1);
      if i < used - 1 || states[used - 1].accepting then i else used
  }

  // ----- the code -----

  method ReplaceEdges(edges: seq<int>, from: int, to: int) returns (r: seq<int>)
    ensures r == Replaced(edges, from, to)
  {
    r := edges;
    for e := 0 to |edges|
      invariant |r| == |edges|
      invariant forall k :: 0 <= k < e ==> r[k] == Replaced(edges, from, to)[k]
      invariant forall k :: e <= k < |edges| ==> r[k] == edges[k]
    {
      if r[e] == from {
        r := r[e := to];
      }
    }
  }

  method RenamePass(states: array<State>, used: nat, i: nat, from: int, to: int)
    requires used <= states.Length
    modifies states
    ensures states[..] == Pass(old(states[..]), used, i, from, to)
  {
    ghost var before := states[..];
    ghost var after := Pass(before, used, i, from, to);
    for s := 0 to used
      invariant states[..s] == after[..s] && states[s..] == before[s..]
    {
      if s != i {
        var ins := ReplaceEdges(states[s].inEdges, from, to);
        var outs := ReplaceEdges(states[s].outEdges, from, to);
        assert states[s] == before[s];
        states[s] := states[s].(inEdges := ins, outEdges := outs);
      }
      assert states[s] == after[s];
    }
    assert states[..] == states[..used] + states[used..];
    assert after == after[..used] + after[used..];
  }

  /** The index of the accepting state afterwards; 0 when there is none. `ok` is false for a write outside the array. */
  method RenameAcceptingState(states: array<State>, used: nat) returns (last: int, ok: bool)
    requires used <= states.Length && 0 < states.Length
    modifies states
    ensures var was := old(states[..]); var i := FirstAccepting(was, used); var m := states.Length - 1;
            if i == used then ok && last == 0 && states[..] == was
            else if m == 0 then !ok
            else ok && last == m - 1 && states[..] == Renamed(was, used, i, m)
  {
    var m := states.Length - 1;
    var i := 0;
    while i < used && !states[i].accepting
      invariant i <= used && forall k :: 0 <= k < i ==> !states[k].accepting
    {
      i := i + 1;
    }
    assert i == FirstAccepting(states[..], used);
    if i == used {
      return 0, true;
    }
    if m == 0 {
      return 0, false;
    }
    RenamePass(states, used, i, m - 1, m);
    RenamePass(states, used, i, i, m - 1);
    RenamePass(states, used, i, m, i);
    ghost var passed := states[..];
    states[m] := states[m - 1];
    states[m - 1] := states[i];
    states[i] := states[m];
    states[i] := states[i].(id := i);
    states[m - 1] := states[m - 1].(id := m - 1);
    assert states[..] == Exchanged(passed, i, m);
    return m - 1, true;
  }

  // ----- a swap of two numbers -----

  function Sw(x: int, i: int, l: int): (y: int) {
    if x == i then l else if x == l then i else x
  }

  function SwAll(edges: seq<int>, i: int, l: int): (r: seq<int>)
    ensures |r| == |edges|
  {
    seq(|edges|, e requires 0 <= e < |edges| => Sw(edges[e], i, l))
  }

  function SwState(s: State, i: int, l: int): (r: State) {
    s.(inEdges := SwAll(s.inEdges, i, l), outEdges := SwAll(s.outEdges, i, l))
  }

  /** State `k` of the swapped graph is state `Sw(k)` with its edges swapped; the two swapped states
      are numbered by their place. */
  function SwappedState(states: seq<State>, k: nat, i: nat, l: nat): (s: State)
    requires k < |states| && i < |states| && l < |states|
  {
    var s := SwState(states[Sw(k, i, l)], i, l);
    if k == i || k == l then s.(id := k) else s
  }

  function Swapped(states: seq<State>, i: nat, l: nat): (r: seq<State>)
    requires i < |states| && l < |states|
    ensures |r| == |states|
  {
    seq(|states|, k requires 0 <= k < |states| => SwappedState(states, k, i, l))
  }

  lemma {:induction false} PassesOnState(states: seq<State>, used: nat, i: nat, m: nat, k: nat)
    requires used <= m && |states| == m + 1 && i < used && k < m && Blank(states[used..])
    requires Targets(states[k].inEdges, m) && Targets(states[k].outEdges, m)
    ensures Passes(states, used, i, m)[k] == if k == i then states[k] else SwState(states[k], i, m - 1)
  {
    var p1 := Pass(states, used, i, m - 1, m);
    var p2 := Pass(p1, used, i, i, m - 1);
    var p3 := Pass(p2, used, i, m, i);
    if k >= used {
      assert states[k] == states[used..][k - used];
      assert SwAll([], i, m - 1) == [];
      assert p3[k] == p2[k] == p1[k] == states[k];
    } else if k != i {
      assert p3[k].inEdges == SwAll(states[k].inEdges, i, m - 1);
      assert p3[k].outEdges == SwAll(states[k].outEdges, i, m - 1);
    }
  }

  /** The edges of the accepting state itself are not rewritten. */
  predicate Unlinked(s: State, i: int, l: int) {
    i == l || (i !in s.inEdges && i !in s.outEdges && l !in s.inEdges && l !in s.outEdges)
  }

  lemma {:induction false} EdgesStay(edges: seq<int>, i: int, l: int)
    ensures SwAll(edges, i, l) == edges <==> i == l || (i !in edges && l !in edges)
  {
    if i == l || (i !in edges && l !in edges) {
      assert forall e :: 0 <= e < |edges| ==> edges[e] in edges;
      assert SwAll(edges, i, l) == edges;
    } else {
      var e :| 0 <= e < |edges| && (edges[e] == i || edges[e] == l);
      assert SwAll(edges, i, l)[e] != edges[e];
    }
  }

  lemma {:induction false} UnlinkedStays(s: State, i: int, l: int)
    ensures Unlinked(s, i, l) <==> SwState(s, i, l) == s
  {
    EdgesStay(s.inEdges, i, l);
    EdgesStay(s.outEdges, i, l);
  }

  ghost predicate Renamable(states: seq<State>, used: nat, i: nat, m: nat) {
    && |states| == m + 1 && i < used <= m && Blank(states[used..])
    && forall k :: 0 <= k < m ==> Targets(states[k].inEdges, m) && Targets(states[k].outEdges, m)
  }

  lemma {:induction false} RenamedAt(states: seq<State>, used: nat, i: nat, m: nat, k: nat)
    requires Renamable(states, used, i, m) && k < m
    ensures var o := Sw(k, i, m - 1);
            var s := if o == i then states[i] else SwState(states[o], i, m - 1);
            Renamed(states, used, i, m)[k] == if k == i || k == m - 1 then s.(id := k) else s
  {
    PassesOnState(states, used, i, m, Sw(k, i, m - 1));
  }

  /** The code swaps `i` and `m - 1` throughout the graph exactly when the accepting state is not
      linked to itself or to `m - 1` (or already is `m - 1`). */
  lemma {:induction false} RenameIsSwap(states: seq<State>, used: nat, i: nat, m: nat)
    requires Renamable(states, used, i, m)
    ensures Renamed(states, used, i, m)[..m] == Swapped(states[..m], i, m - 1) <==> Unlinked(states[i], i, m - 1)
  {
    var r, sw := Renamed(states, used, i, m), Swapped(states[..m], i, m - 1);
    UnlinkedStays(states[i], i, m - 1);
    forall k | 0 <= k < m
      ensures r[k] == sw[k] <==> k != m - 1 || Unlinked(states[i], i, m - 1)
    {
      RenamedAt(states, used, i, m, k);
      SameButId(states[i], SwState(states[i], i, m - 1), m - 1);
    }
    if r[..m] == sw {
      assert r[..m][m - 1] == sw[m - 1];
    }
  }

  lemma {:induction false} SameButId(s: State, t: State, k: int)
    requires s.id == t.id
    ensures s.(id := k) == t.(id := k) <==> s == t
  {
    if s.(id := k) == t.(id := k) {
      assert s.(id := k).(id := s.id) == t.(id := k).(id := s.id);
    }
  }

  // ----- what a swap keeps -----

  lemma {:induction false} SwappedCount(edges: seq<int>, i: int, l: int, x: int)
    ensures multiset(SwAll(edges, i, l))[Sw(x, i, l)] == multiset(edges)[x]
  {
    if edges != [] {
      var last := |edges| - 1;
      SwappedCount(edges[..last], i, l, x);
      assert SwAll(edges, i, l) == SwAll(edges[..last], i, l) + [Sw(edges[last], i, l)];
      assert edges == edges[..last] + [edges[last]];
    } else {
      assert SwAll(edges, i, l) == [];
    }
  }

  /** A swap keeps the edge arrays mirrored. */
  lemma {:induction false} SwapMirrored(states: seq<State>, i: nat, l: nat)
    requires i < |states| && l < |states| && Mirrored(states)
    ensures Mirrored(Swapped(states, i, l))
  {
    forall s, t | 0 <= s < |states| && 0 <= t < |states|
      ensures MirroredAt(Swapped(states, i, l), s, t)
    {
      assert MirroredAt(states, Sw(s, i, l), Sw(t, i, l));
      SwapMirroredAt(states, i, l, s, t);
    }
  }

  lemma {:induction false} SwapMirroredAt(states: seq<State>, i: nat, l: nat, s: nat, t: nat)
    requires i < |states| && l < |states| && s < |states| && t < |states|
    requires MirroredAt(states, Sw(s, i, l), Sw(t, i, l))
    ensures MirroredAt(Swapped(states, i, l), s, t)
  {
    hide SwAll;
    var s', t' := Sw(s, i, l), Sw(t, i, l);
    SwappedCount(states[s'].outEdges, i, l, t');
    SwappedCount(states[t'].inEdges, i, l, s');
  }

  function SwPath(path: seq<nat>, i: nat, l: nat): (r: seq<nat>)
    ensures |r| == |path|
  {
    seq(|path|, p requires 0 <= p < |path| => Sw(path[p], i, l))
  }

  lemma {:induction false} SwappedEdge(g: Graph, i: nat, l: nat, q: nat, r: nat)
    requires i < |g.states| && l < |g.states| && Edge(g, q, r)
    ensures Edge(g.(states := Swapped(g.states, i, l)), Sw(q, i, l), Sw(r, i, l))
  {
    var h := g.(states := Swapped(g.states, i, l));
    var e :| 0 <= e < |g.states[r].inEdges| && g.states[r].inEdges[e] == q;
    assert h.states[Sw(r, i, l)].inEdges[e] == Sw(q, i, l);
  }

  lemma {:induction false} SwappedLeaves(g: Graph, i: nat, l: nat, q: nat, w: Text)
    requires i < |g.states| && l < |g.states| && q < |g.states| && Leaves(g, q, w)
    ensures Leaves(g.(states := Swapped(g.states, i, l)), Sw(q, i, l), w)
  {
    var h := g.(states := Swapped(g.states, i, l));
    assert h.states[Sw(q, i, l)].tokens == g.states[q].tokens;
    assert forall u :: StateWord(g, q, u) ==> StateWord(h, Sw(q, i, l), u);
  }

  lemma {:induction false} SwappedStop(g: Graph, i: nat, l: nat, path: seq<nat>, u: Text, v: Text)
    requires i < |g.states| && l < |g.states| && |path| > 1 && path[0] < |g.states|
    requires Leaves(g, path[0], u) && Edge(g, path[0], path[1])
    requires Walks(g.(states := Swapped(g.states, i, l)), SwPath(path[1..], i, l), v)
    ensures Walks(g.(states := Swapped(g.states, i, l)), SwPath(path, i, l), u + v)
  {
    hide Leaves, Walks, Edge, Swapped;
    var h := g.(states := Swapped(g.states, i, l));
    assert Leaves(h, Sw(path[0], i, l), u) by { SwappedLeaves(g, i, l, path[0], u); }
    assert Edge(h, Sw(path[0], i, l), Sw(path[1], i, l)) by { SwappedEdge(g, i, l, path[0], path[1]); }
    WalkOn(h, Sw(path[0], i, l), SwPath(path[1..], i, l), u, v);
    assert SwPath(path, i, l) == [Sw(path[0], i, l)] + SwPath(path[1..], i, l);
  }

  lemma {:induction false} SwappedWalk(g: Graph, i: nat, l: nat, path: seq<nat>, w: Text)
    requires i < |g.states| && l < |g.states| && Walks(g, path, w)
    ensures Walks(g.(states := Swapped(g.states, i, l)), SwPath(path, i, l), w)
    decreases |path|
  {
    if |path| == 1 {
      SwappedLeaves(g, i, l, path[0], w);
    } else {
      var u, v := FirstStop(g, path, w);
      SwappedWalk(g, i, l, path[1..], v);
      SwappedStop(g, i, l, path, u, v);
    }
  }

  lemma {:induction false} SwapTwice(states: seq<State>, i: nat, l: nat, k: nat)
    requires i < |states| && l < |states| && k < |states|
    ensures var t := Swapped(Swapped(states, i, l), i, l)[k];
            t == states[k].(id := t.id)
  {
    var s := states[k];
    assert SwAll(SwAll(s.inEdges, i, l), i, l) == s.inEdges;
    assert SwAll(SwAll(s.outEdges, i, l), i, l) == s.outEdges;
  }

  /** Numbers do not matter to what is read. */
  lemma {:induction false} WalkIgnoresIds(g: Graph, h: Graph, path: seq<nat>, w: Text)
    requires g.tokens == h.tokens && |g.states| == |h.states|
    requires forall k :: 0 <= k < |g.states| ==> h.states[k] == g.states[k].(id := h.states[k].id)
    requires Walks(g, path, w)
    ensures Walks(h, path, w)
    decreases |path|
  {
    assert forall q, u :: 0 <= q < |g.states| && Leaves(g, q, u) ==> Leaves(h, q, u) by {
      assert forall q, u :: 0 <= q < |g.states| ==> StateWord(g, q, u) == StateWord(h, q, u);
    }
    if |path| > 1 {
      var u, v := FirstStop(g, path, w);
      WalkIgnoresIds(g, h, path[1..], v);
      assert Leaves(h, path[0], u) && Walks(h, path[1..], v);
    }
  }

  lemma {:induction false} SwappedAccepts(g: Graph, i: nat, l: nat, start: nat, end: nat, w: Text)
    requires i < |g.states| && l < |g.states| && Accepts(g, start, end, w)
    ensures Accepts(g.(states := Swapped(g.states, i, l)), Sw(start, i, l), Sw(end, i, l), w)
  {
    var path :| Joins(path, start, end) && Walks(g, path, w);
    SwappedWalk(g, i, l, path, w);
    assert Joins(SwPath(path, i, l), Sw(start, i, l), Sw(end, i, l));
  }

  /** A swap keeps the language between any two states. */
  lemma {:induction false} SwapKeepsLanguage(g: Graph, i: nat, l: nat, start: nat, end: nat, w: Text)
    requires i < |g.states| && l < |g.states|
    ensures Accepts(g, start, end, w)
       <==> Accepts(g.(states := Swapped(g.states, i, l)), Sw(start, i, l), Sw(end, i, l), w)
  {
    var h := g.(states := Swapped(g.states, i, l));
    if Accepts(g, start, end, w) {
      SwappedAccepts(g, i, l, start, end, w);
    }
    if Accepts(h, Sw(start, i, l), Sw(end, i, l), w) {
      SwappedAccepts(h, i, l, Sw(start, i, l), Sw(end, i, l), w);
      var back := h.(states := Swapped(h.states, i, l));
      var path :| Joins(path, start, end) && Walks(back, path, w);
      forall k | 0 <= k < |g.states|
        ensures g.states[k] == back.states[k].(id := g.states[k].id)
      {
        SwapTwice(g.states, i, l, k);
      }
      WalkIgnoresIds(back, g, path, w);
    }
  }
}
