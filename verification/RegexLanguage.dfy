/** The chain built for a pattern accepts exactly the words of the pattern. */
module RegexLanguage {
  import opened RegexPattern
  import opened RegexGraph
  import opened RegexParsed
  import opened RegexAccepts

  // ----- one state -----

  lemma {:induction false} TokensOfItem(item: Item, w: Text)
    requires FormedItem(item)
    ensures ItemWord(item, w) <==> exists j :: 0 <= j < |ItemTokens(item)| && TokenWord(ItemTokens(item)[j], w)
  {
    var ts := ItemTokens(item);
    match item
    case Literal(text) =>
      assert TokenWord(ts[0], w) <==> w == text;
    case OneOf(chars) =>
      if ItemWord(item, w) {
        var j :| 0 <= j < |chars| && chars[j] == w[0];
        assert w == [w[0]];
        assert TokenWord(ts[j], w);
      }
    case Between(lo, hi) =>
      assert TokenWord(ts[0], w) <==> |w| == 1 && lo <= w[0] <= hi;
    case Either(alts) =>
      if ItemWord(item, w) {
        var j :| 0 <= j < |alts| && alts[j] == w;
        assert TokenWord(ts[j], w);
      }
  }

  lemma {:induction false} TokensPrefix(ps: seq<Piece>, k: nat)
    requires k <= |ps|
    ensures |Tokens(ps[..k])| <= |Tokens(ps)| && Tokens(ps)[..|Tokens(ps[..k])|] == Tokens(ps[..k])
    decreases |ps|
  {
    if k < |ps| {
      var init := ps[..|ps| - 1];
      TokensPrefix(init, k);
      assert init[..k] == ps[..k];
    } else {
      assert ps[..k] == ps;
    }
  }

  function Whole(ps: seq<Piece>): (g: Graph)
    ensures |g.states| == |ps|
  {
    GraphOf(ps, |ps|)
  }

  /** The tokens of piece `k` are the stretch that ends where the first `k + 1` pieces end. */
  lemma {:induction false} TokenPlaces(ps: seq<Piece>, k: nat)
    requires k < |ps|
    ensures var n := |ItemTokens(ps[k].item)|; var end := |Tokens(ps[..k + 1])|;
            n <= end <= |Tokens(ps)| && Tokens(ps)[end - n..end] == ItemTokens(ps[k].item)
  {
    TokensPrefix(ps, k + 1);
    assert ps[..k + 1][..k] == ps[..k];
    Stretch(Tokens(ps), Tokens(ps[..k]), ItemTokens(ps[k].item));
  }

  lemma {:induction false} Stretch<T>(all: seq<T>, a: seq<T>, b: seq<T>)
    requires |a + b| <= |all| && all[..|a + b|] == a + b
    ensures all[|a|..|a + b|] == b
  {
    assert all[|a|..|a + b|] == all[..|a + b|][|a|..];
  }

  /** What the last `n` of the first `end` tokens read. */
  lemma {:induction false} HeldTokens(g: Graph, q: nat, end: nat, toks: seq<Token>, w: Text)
    requires q < |g.states| && |toks| <= end <= |g.tokens| && g.tokens[end - |toks|..end] == toks
    requires g.states[q].tokens == LastTokens(end, |toks|)
    ensures StateWord(g, q, w) <==> exists j :: 0 <= j < |toks| && TokenWord(toks[j], w)
  {
    var held := g.states[q].tokens;
    if StateWord(g, q, w) {
      var p :| 0 <= p < |held| && 0 <= held[p] < |g.tokens| && TokenWord(g.tokens[held[p]], w);
      assert toks[|toks| - 1 - p] == g.tokens[end - |toks|..end][|toks| - 1 - p];
    }
    if j :| 0 <= j < |toks| && TokenWord(toks[j], w) {
      var p := |toks| - 1 - j;
      assert toks[j] == g.tokens[end - |toks|..end][j];
      assert held[p] == end - 1 - p;
    }
  }

  lemma {:induction false} StateReadsItem(ps: seq<Piece>, k: nat, w: Text)
    requires k < |ps| && FormedItem(ps[k].item)
    ensures StateWord(Whole(ps), k, w) <==> ItemWord(ps[k].item, w)
  {
    hide StateWord, ItemWord, TokenWord, FormedItem, ItemTokens, Tokens;
    assert ps[..|ps|] == ps;
    TokenPlaces(ps, k);
    HeldTokens(Whole(ps), k, |Tokens(ps[..k + 1])|, ItemTokens(ps[k].item), w);
    TokensOfItem(ps[k].item, w);
  }

  /** What one stop at the state of piece `p` reads. */
  ghost predicate StopWord(p: Piece, w: Text) {
    if p.gap then exists u :: u <= w && ItemWord(p.item, u) else ItemWord(p.item, w)
  }

  lemma {:induction false} LeavesIsStop(ps: seq<Piece>, k: nat, w: Text)
    requires k < |ps| && FormedItem(ps[k].item)
    ensures Leaves(Whole(ps), k, w) <==> StopWord(ps[k], w)
  {
    assert Whole(ps).states[k] == StateOf(ps, k, |ps|);
    StateReadsItem(ps, k, w);
    forall u | u <= w
      ensures StateWord(Whole(ps), k, u) <==> ItemWord(ps[k].item, u)
    {
      StateReadsItem(ps, k, u);
    }
  }

  /** What the proofs below need to know about the graph of a pattern. */
  ghost predicate IsChain(g: Graph, ps: seq<Piece>) {
    && |g.states| >= |ps|
    && (forall k, w :: 0 <= k < |ps| ==> (Leaves(g, k, w) <==> StopWord(ps[k], w)))
    && (forall q, r :: 0 <= q && 0 <= r ==> (Edge(g, q, r) <==> r < |ps| && (q + 1 == r || (q == r && ps[r].plus))))
  }

  lemma {:induction false} WholeIsChain(ps: seq<Piece>)
    requires Formed(ps)
    ensures IsChain(Whole(ps), ps)
  {
    var g := Whole(ps);
    forall k, w | 0 <= k < |ps|
      ensures Leaves(g, k, w) <==> StopWord(ps[k], w)
    {
      LeavesIsStop(ps, k, w);
    }
    forall q, r | 0 <= q && 0 <= r
      ensures Edge(g, q, r) <==> r < |ps| && (q + 1 == r || (q == r && ps[r].plus))
    {
      if r < |ps| {
        assert g.states[r] == StateOf(ps, r, |ps|);
      }
    }
  }

  // ----- stops and words -----

  lemma {:induction false} StopIsWord(p: Piece, w: Text)
    requires StopWord(p, w)
    ensures PieceWord(p, w)
  {
    if p.gap {
      var u :| u <= w && ItemWord(p.item, u);
      assert PieceBody(p, u);
    }
  }

  /** One more stop in front of a word of a repeated piece. */
  lemma {:induction false} LoopIsWord(p: Piece, u: Text, v: Text)
    requires FormedItem(p.item) && p.plus && StopWord(p, u) && PieceWord(p, v)
    ensures PieceWord(p, u + v)
  {
    if p.gap {
      var first :| first <= u && ItemWord(p.item, first);
      assert PieceBody(p, first) && first <= u + v;
    } else {
      assert u != [];
    }
  }

  /** A piece with a gap, or without a plus, is read in one stop. */
  lemma {:induction false} WordIsStop(p: Piece, w: Text)
    requires PieceWord(p, w) && (p.gap || !p.plus)
    ensures StopWord(p, w)
  {
    if p.gap {
      var body :| body <= w && PieceBody(p, body);
      if !ItemWord(p.item, body) {
        var u, v :| u != [] && body == u + v && ItemWord(p.item, u) && Repeated(p.item, v);
        assert u <= w;
      }
    }
  }

  lemma {:induction false} MatchesCons(p: Piece, ps: seq<Piece>, u: Text, v: Text)
    requires PieceWord(p, u) && Matches(ps, v)
    ensures Matches([p] + ps, u + v)
  {
    var all := [p] + ps;
    assert all[1..] == ps;
    assert PieceWord(all[0], u) && Matches(all[1..], v);
  }

  lemma {:induction false} MatchesSplit(p: Piece, ps: seq<Piece>, w: Text) returns (u: Text, v: Text)
    requires Matches([p] + ps, w)
    ensures w == u + v && PieceWord(p, u) && Matches(ps, v)
  {
    assert ([p] + ps)[1..] == ps;
    u, v :| w == u + v && PieceWord(([p] + ps)[0], u) && Matches(([p] + ps)[1..], v);
  }

  lemma {:induction false} Regrouped(a: Text, b: Text, c: Text)
    ensures a + (b + c) == a + b + c
  {
  }

  /** Stopping once more at a repeated piece. */
  lemma {:induction false} LoopMatches(p: Piece, rest: seq<Piece>, u: Text, w: Text)
    requires FormedItem(p.item) && p.plus && StopWord(p, u) && Matches([p] + rest, w)
    ensures Matches([p] + rest, u + w)
  {
    var x, v := MatchesSplit(p, rest, w);
    assert PieceWord(p, u + x) by { LoopIsWord(p, u, x); }
    MatchesCons(p, rest, u + x, v);
    Regrouped(u, x, v);
  }

  lemma {:induction false} LastStop(p: Piece, w: Text)
    requires StopWord(p, w)
    ensures Matches([p], w)
  {
    StopIsWord(p, w);
    MatchesCons(p, [], w, []);
    assert w + [] == w && [p] + [] == [p];
  }

  /** A stop at piece `k`, then a word of the pieces from `next` on. */
  lemma {:induction false} StopMatches(ps: seq<Piece>, k: nat, next: nat, u: Text, v: Text)
    requires k < |ps| && next < |ps| && FormedItem(ps[k].item) && StopWord(ps[k], u) && Matches(ps[next..], v)
    requires next == k + 1 || (next == k && ps[k].plus)
    ensures Matches(ps[k..], u + v)
  {
    assert ps[k..] == [ps[k]] + ps[k + 1..];
    if next == k + 1 {
      StopIsWord(ps[k], u);
      MatchesCons(ps[k], ps[k + 1..], u, v);
    } else {
      LoopMatches(ps[k], ps[k + 1..], u, v);
    }
  }

  // ----- from a path to a word of the pattern -----

  lemma {:induction false} WalkTurn(g: Graph, ps: seq<Piece>, path: seq<nat>, w: Text) returns (u: Text, v: Text)
    requires IsChain(g, ps) && |path| > 1 && Walks(g, path, w)
    ensures w == u + v && path[0] < |ps| && path[1] < |ps| && StopWord(ps[path[0]], u) && Walks(g, path[1..], v)
    ensures path[1] == path[0] + 1 || (path[1] == path[0] && ps[path[0]].plus)
  {
    u, v := FirstStop(g, path, w);
  }

  lemma {:induction false} JoinsTail(path: seq<nat>, start: nat, end: nat)
    requires |path| > 1 && Joins(path, start, end)
    ensures Joins(path[1..], path[1], end)
  {
  }

  lemma {:induction false} WalkIsWord(g: Graph, ps: seq<Piece>, k: nat, path: seq<nat>, w: Text)
    requires IsChain(g, ps) && Formed(ps) && k < |ps| && Joins(path, k, |ps| - 1) && Walks(g, path, w)
    ensures Matches(ps[k..], w)
    decreases |path|
  {
    if |path| == 1 {
      LastStop(ps[k], w);
      assert ps[k..] == [ps[k]];
    } else {
      var u, v := WalkTurn(g, ps, path, w);
      JoinsTail(path, k, |ps| - 1);
      WalkIsWord(g, ps, path[1], path[1..], v);
      StopMatches(ps, k, path[1], u, v);
    }
  }

  // ----- from a word of the pattern to a path -----

  ghost predicate WalksTo(g: Graph, path: seq<nat>, start: nat, end: nat, w: Text) {
    Joins(path, start, end) && Walks(g, path, w)
  }

  /** One stop in front of a path. */
  lemma {:induction false} StopThenWalk(g: Graph, ps: seq<Piece>, k: nat, next: nat, u: Text, path: seq<nat>, v: Text)
    requires IsChain(g, ps) && k < |ps| && next < |ps| && StopWord(ps[k], u)
    requires next == k + 1 || (next == k && ps[k].plus)
    requires WalksTo(g, path, next, |ps| - 1, v)
    ensures WalksTo(g, [k] + path, k, |ps| - 1, u + v)
  {
    assert Edge(g, k, next);
    WalkOn(g, k, path, u, v);
  }

  /** A repeated item is read by going round its state. */
  lemma {:induction false} RepeatedWalk(g: Graph, ps: seq<Piece>, k: nat, w: Text, path: seq<nat>, v: Text)
    returns (path': seq<nat>)
    requires IsChain(g, ps) && k + 1 < |ps| && ps[k].plus && !ps[k].gap && Repeated(ps[k].item, w)
    requires WalksTo(g, path, k + 1, |ps| - 1, v)
    ensures WalksTo(g, path', k, |ps| - 1, w + v)
    decreases |w|
  {
    if ItemWord(ps[k].item, w) {
      StopThenWalk(g, ps, k, k + 1, w, path, v);
      path' := [k] + path;
    } else {
      var first, more :| first != [] && w == first + more && ItemWord(ps[k].item, first) && Repeated(ps[k].item, more);
      var rest := RepeatedWalk(g, ps, k, more, path, v);
      StopThenWalk(g, ps, k, k, first, rest, more + v);
      Regrouped(first, more, v);
      path' := [k] + rest;
    }
  }

  lemma {:induction false} PieceWalk(g: Graph, ps: seq<Piece>, k: nat, u: Text, path: seq<nat>, v: Text)
    returns (path': seq<nat>)
    requires IsChain(g, ps) && k + 1 < |ps| && PieceWord(ps[k], u)
    requires WalksTo(g, path, k + 1, |ps| - 1, v)
    ensures WalksTo(g, path', k, |ps| - 1, u + v)
  {
    if ps[k].plus && !ps[k].gap {
      path' := RepeatedWalk(g, ps, k, u, path, v);
    } else {
      WordIsStop(ps[k], u);
      StopThenWalk(g, ps, k, k + 1, u, path, v);
      path' := [k] + path;
    }
  }

  lemma {:induction false} LastWalk(g: Graph, ps: seq<Piece>, k: nat, w: Text)
    requires IsChain(g, ps) && k + 1 == |ps| && !ps[k].plus && PieceWord(ps[k], w)
    ensures WalksTo(g, [k], k, k, w)
  {
    WordIsStop(ps[k], w);
  }

  lemma {:induction false} WordHasWalk(g: Graph, ps: seq<Piece>, k: nat, w: Text) returns (path: seq<nat>)
    requires IsChain(g, ps) && Formed(ps) && k < |ps| && Matches(ps[k..], w)
    ensures WalksTo(g, path, k, |ps| - 1, w)
    decreases |ps| - k
  {
    assert ps[k..] == [ps[k]] + ps[k + 1..];
    var u, v := MatchesSplit(ps[k], ps[k + 1..], w);
    if k + 1 == |ps| {
      assert v == [] && u == w;
      LastWalk(g, ps, k, w);
      path := [k];
    } else {
      var rest := WordHasWalk(g, ps, k + 1, v);
      path := PieceWalk(g, ps, k, u, rest, v);
    }
  }

  /** The graph built for a pattern accepts exactly its words, from its first state to its last. */
  lemma {:induction false} GraphAcceptsPattern(ps: seq<Piece>, w: Text)
    requires Formed(ps)
    ensures Accepts(Whole(ps), 0, |ps| - 1, w) <==> Matches(ps, w)
  {
    WholeIsChain(ps);
    ChainAcceptsPattern(Whole(ps), ps, w);
  }

  lemma {:induction false} ChainAcceptsPattern(g: Graph, ps: seq<Piece>, w: Text)
    requires IsChain(g, ps) && Formed(ps)
    ensures Accepts(g, 0, |ps| - 1, w) <==> Matches(ps, w)
  {
    assert ps[0..] == ps;
    if Accepts(g, 0, |ps| - 1, w) {
      var path :| Joins(path, 0, |ps| - 1) && Walks(g, path, w);
      WalkIsWord(g, ps, 0, path, w);
    }
    if Matches(ps, w) {
      var path := WordHasWalk(g, ps, 0, w);
    }
  }
}
