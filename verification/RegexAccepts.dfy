/** What a graph accepts: the words along its paths. */
module RegexAccepts {
  import opened RegexPattern
  import opened RegexGraph

  predicate TokenWord(t: Token, w: Text) {
    if t.isRange then |t.chars| == 2 && |w| == 1 && t.chars[0] <= w[0] <= t.chars[1] else w == t.chars
  }

  /** State `q` reads `w` as one of its tokens. */
  predicate StateWord(g: Graph, q: nat, w: Text)
    requires q < |g.states|
  {
    exists k :: 0 <= k < |g.states[q].tokens| && 0 <= g.states[q].tokens[k] < |g.tokens|
             && TokenWord(g.tokens[g.states[q].tokens[k]], w)
  }

  /** State `q` reads `w`; a sticky state lets any characters follow its token. */
  ghost predicate Leaves(g: Graph, q: nat, w: Text)
    requires q < |g.states|
  {
    if g.states[q].sticky then exists u :: u <= w && StateWord(g, q, u) else StateWord(g, q, w)
  }

  predicate Edge(g: Graph, q: nat, r: nat) {
    r < |g.states| && q in g.states[r].inEdges
  }

  /** `w` is read along `path`. */
  ghost predicate Walks(g: Graph, path: seq<nat>, w: Text)
    decreases |path|
  {
    && path != [] && path[0] < |g.states|
    && if |path| == 1 then Leaves(g, path[0], w)
       else Edge(g, path[0], path[1])
            && exists u, v {:trigger Leaves(g, path[0], u), Walks(g, path[1..], v)} ::
                 w == u + v && Leaves(g, path[0], u) && Walks(g, path[1..], v)
  }

  ghost predicate Joins(path: seq<nat>, start: nat, end: nat) {
    path != [] && path[0] == start && path[|path| - 1] == end
  }

  ghost predicate Accepts(g: Graph, start: nat, end: nat, w: Text) {
    exists path :: Joins(path, start, end) && Walks(g, path, w)
  }

  lemma {:induction false} WalkOn(g: Graph, q: nat, path: seq<nat>, u: Text, v: Text)
    requires path != [] && Walks(g, path, v) && q < |g.states| && Leaves(g, q, u) && Edge(g, q, path[0])
    ensures Walks(g, [q] + path, u + v)
  {
    assert ([q] + path)[1..] == path;
  }

  lemma {:induction false} FirstStop(g: Graph, path: seq<nat>, w: Text) returns (u: Text, v: Text)
    requires |path| > 1 && Walks(g, path, w)
    ensures w == u + v && path[0] < |g.states| && Edge(g, path[0], path[1])
    ensures Leaves(g, path[0], u) && Walks(g, path[1..], v)
  {
    u, v :| w == u + v && Leaves(g, path[0], u) && Walks(g, path[1..], v);
  }
}
