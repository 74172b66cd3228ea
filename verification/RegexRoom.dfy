/** Which patterns fit the hardware, told from their items alone. */
module RegexRoom {
  import opened RegexPattern
  import opened RegexGraph
  import opened RegexFixup
  import opened RegexLayout
  import opened RegexPacking
  import opened RegexParsed
  import opened RegexCompile
  import opened RegexTheorem

  // ----- tokens -----

  /** A token starts as early as it can: behind the token before it, and a range at an even place. */
  lemma {:induction false} StartIsLeast(tokens: seq<Token>, t: nat, x: nat)
    requires t < |tokens|
    ensures var from := if t == 0 then 0 else Start(tokens, t - 1) + |tokens[t - 1].chars|;
            && Start(tokens, t) >= from && (tokens[t].isRange ==> Start(tokens, t) % 2 == 0)
            && (x >= from && (tokens[t].isRange ==> x % 2 == 0) ==> x >= Start(tokens, t))
  {
  }

  /** How many characters the first `t` tokens have. */
  function Chars(tokens: seq<Token>, t: nat): (n: nat)
    requires t <= |tokens|
  {
    if t == 0 then 0 else Chars(tokens, t - 1) + |tokens[t - 1].chars|
  }

  /** Without ranges a token starts where the characters before it end. */
  lemma {:induction false} WithoutRanges(tokens: seq<Token>, t: nat)
    requires t < |tokens| && forall u :: 0 <= u <= t ==> !tokens[u].isRange
    ensures Start(tokens, t) == Chars(tokens, t)
    decreases t
  {
    if t > 0 {
      WithoutRanges(tokens, t - 1);
      StartIsLeast(tokens, t, Chars(tokens, t));
    }
  }

  // ----- pieces -----

  function Total(alts: seq<Text>): (n: nat) {
    if alts == [] then 0 else Total(alts[..|alts| - 1]) + |alts[|alts| - 1]|
  }

  /** How many characters of the hardware an item takes. */
  function Width(item: Item): (n: nat) {
    match item
    case Literal(text) => |text|
    case OneOf(chars) => |chars|
    case Between(_, _) => 2
    case Either(alts) => Total(alts)
  }

  /** How many tokens an item is made of. */
  function TokenCount(item: Item): (n: nat) {
    match item
    case Literal(_) => 1
    case OneOf(chars) => |chars|
    case Between(_, _) => 1
    case Either(alts) => |alts|
  }

  function TotalTokens(ps: seq<Piece>): (n: nat) {
    if ps == [] then 0 else TotalTokens(ps[..|ps| - 1]) + TokenCount(ps[|ps| - 1].item)
  }

  function TotalWidth(ps: seq<Piece>): (n: nat) {
    if ps == [] then 0 else TotalWidth(ps[..|ps| - 1]) + Width(ps[|ps| - 1].item)
  }

  /** The items one behind the other among `charCnt` characters, every range at an even place. */
  predicate Placed(ps: seq<Piece>, at: seq<nat>, charCnt: nat) {
    && |at| == |ps|
    && (forall k :: 0 <= k < |ps| - 1 ==> at[k] + Width(ps[k].item) <= at[k + 1])
    && (forall k :: 0 <= k < |ps| && ps[k].item.Between? ==> at[k] % 2 == 0)
    && (ps != [] ==> at[|ps| - 1] + Width(ps[|ps| - 1].item) <= charCnt)
  }

  ghost predicate Fits(ps: seq<Piece>, charCnt: nat) {
    exists at :: Placed(ps, at, charCnt)
  }

  // ----- where the items of a pattern end -----

  lemma {:induction false} EndOfPrefix(a: seq<Token>, b: seq<Token>, t: nat)
    requires t <= |a|
    ensures End(a + b, t) == End(a, t)
  {
    if t > 0 {
      EndOfPrefix(a, b, t - 1);
    }
  }

  /** Tokens that are no ranges follow on without a gap. */
  lemma {:induction false} EndOfPlain(a: seq<Token>, b: seq<Token>, t: nat)
    requires t <= |b| && forall u :: 0 <= u < |b| ==> !b[u].isRange
    ensures End(a + b, |a| + t) == End(a, |a|) + Chars(b, t)
  {
    if t == 0 {
      EndOfPrefix(a, b, |a|);
    } else {
      EndOfPlain(a, b, t - 1);
      assert (a + b)[|a| + t - 1] == b[t - 1];
    }
  }

  lemma {:induction false} CharsOfSingles(chars: Text, n: nat)
    requires n <= |chars|
    ensures Chars(Singles(chars), n) == n
  {
    if n > 0 {
      CharsOfSingles(chars, n - 1);
    }
  }

  lemma {:induction false} CharsOfAlts(alts: seq<Text>, n: nat)
    requires n <= |alts|
    ensures Chars(AltTokens(alts), n) == Total(alts[..n])
  {
    if n > 0 {
      CharsOfAlts(alts, n - 1);
      assert alts[..n][..n - 1] == alts[..n - 1];
    }
  }

  lemma {:induction false} CharsOfItem(item: Item)
    ensures !item.Between? ==> Chars(ItemTokens(item), |ItemTokens(item)|) == Width(item)
    ensures |ItemTokens(item)| == TokenCount(item)
  {
    match item
    case Literal(text) => assert Chars(ItemTokens(item), 0) == 0;
    case OneOf(chars) => CharsOfSingles(chars, |chars|);
    case Between(_, _) =>
    case Either(alts) =>
      CharsOfAlts(alts, |alts|);
      assert alts[..|alts|] == alts;
  }

  /** Where the tokens of a pattern end. */
  function EndOf(ps: seq<Piece>): (e: nat) {
    End(Tokens(ps), |Tokens(ps)|)
  }

  lemma {:induction false} EndOfRange(ps: seq<Piece>, x: nat)
    requires ps != [] && ps[|ps| - 1].item.Between?
    ensures var before := EndOf(ps[..|ps| - 1]);
            && EndOf(ps) - 2 >= before && (EndOf(ps) - 2) % 2 == 0
            && (x >= before && x % 2 == 0 ==> x + 2 >= EndOf(ps))
  {
    var front, last := Tokens(ps[..|ps| - 1]), ItemTokens(ps[|ps| - 1].item);
    EndOfPrefix(front, last, |front|);
    assert Tokens(ps) == front + last && (front + last)[|front|] == last[0];
    StartIsLeast(Tokens(ps), |front|, x);
  }

  lemma {:induction false} EndOfOther(ps: seq<Piece>)
    requires ps != [] && !ps[|ps| - 1].item.Between?
    ensures EndOf(ps) == EndOf(ps[..|ps| - 1]) + Width(ps[|ps| - 1].item)
  {
    hide End, Chars, ItemTokens, Width;
    var item := ps[|ps| - 1].item;
    CharsOfItem(item);
    NoRangeTokens(item);
    EndOfPlain(Tokens(ps[..|ps| - 1]), ItemTokens(item), |ItemTokens(item)|);
  }

  lemma {:induction false} NoRangeTokens(item: Item)
    requires !item.Between?
    ensures forall u :: 0 <= u < |ItemTokens(item)| ==> !ItemTokens(item)[u].isRange
  {
  }

  /** The last item is placed as early as possible. */
  lemma {:induction false} EndOfNext(ps: seq<Piece>, x: nat)
    requires ps != []
    ensures var before, item := EndOf(ps[..|ps| - 1]), ps[|ps| - 1].item;
            && EndOf(ps) - Width(item) >= before
            && (item.Between? ==> (EndOf(ps) - Width(item)) % 2 == 0)
            && (x >= before && (item.Between? ==> x % 2 == 0) ==> x + Width(item) >= EndOf(ps))
  {
    hide EndOf;
    if ps[|ps| - 1].item.Between? {
      EndOfRange(ps, x);
    } else {
      EndOfOther(ps);
    }
  }

  // ----- a pattern fits exactly when its items can be placed -----

  lemma {:induction false} PlacedPrefix(ps: seq<Piece>, at: seq<nat>, charCnt: nat)
    requires ps != [] && Placed(ps, at, charCnt)
    ensures Placed(ps[..|ps| - 1], at[..|ps| - 1], at[|ps| - 1])
  {
  }

  lemma {:induction false} PlacedMore(ps: seq<Piece>, at: seq<nat>, x: nat, charCnt: nat)
    requires ps != [] && Placed(ps[..|ps| - 1], at, x) && x + Width(ps[|ps| - 1].item) <= charCnt
    requires ps[|ps| - 1].item.Between? ==> x % 2 == 0
    ensures Placed(ps, at + [x], charCnt)
  {
    var all := at + [x];
    var front := ps[..|ps| - 1];
    forall k | 0 <= k < |ps| - 1
      ensures all[k] + Width(ps[k].item) <= all[k + 1]
    {
      assert front[k] == ps[k];
    }
    forall k | 0 <= k < |ps| && ps[k].item.Between?
      ensures all[k] % 2 == 0
    {
      assert k < |front| ==> front[k] == ps[k];
    }
  }

  lemma {:induction false} NoLaterEnd(ps: seq<Piece>, at: seq<nat>, charCnt: nat)
    requires Placed(ps, at, charCnt)
    ensures EndOf(ps) <= charCnt
  {
    if ps != [] {
      PlacedPrefix(ps, at, charCnt);
      NoLaterEnd(ps[..|ps| - 1], at[..|ps| - 1], at[|ps| - 1]);
      EndOfNext(ps, at[|ps| - 1]);
    }
  }

  lemma {:induction false} EarliestPlaces(ps: seq<Piece>, charCnt: nat) returns (at: seq<nat>)
    requires EndOf(ps) <= charCnt
    ensures Placed(ps, at, charCnt)
  {
    if ps == [] {
      at := [];
    } else {
      EndOfNext(ps, 0);
      var x := EndOf(ps) - Width(ps[|ps| - 1].item);
      at := EarliestPlaces(ps[..|ps| - 1], x);
      PlacedMore(ps, at, x, charCnt);
      at := at + [x];
    }
  }

  lemma {:induction false} FitsIff(ps: seq<Piece>, charCnt: nat)
    ensures Fits(ps, charCnt) <==> EndOf(ps) <= charCnt
  {
    if EndOf(ps) <= charCnt {
      var at := EarliestPlaces(ps, charCnt);
    }
    forall at | Placed(ps, at, charCnt)
      ensures EndOf(ps) <= charCnt
    {
      NoLaterEnd(ps, at, charCnt);
    }
  }

  lemma {:induction false} FitsByWidth(ps: seq<Piece>, charCnt: nat)
    requires forall k :: 0 <= k < |ps| ==> !ps[k].item.Between?
    ensures EndOf(ps) == TotalWidth(ps)
  {
    if ps != [] {
      FitsByWidth(ps[..|ps| - 1], charCnt);
      EndOfNext(ps, EndOf(ps[..|ps| - 1]));
    }
  }

  // ----- what does not fit the arrays -----

  lemma {:induction false} CountTokens(ps: seq<Piece>)
    ensures |Tokens(ps)| == TotalTokens(ps)
  {
    if ps != [] {
      CountTokens(ps[..|ps| - 1]);
      CharsOfItem(ps[|ps| - 1].item);
    }
  }

  /** The parse loop at piece `n`: it goes on to the next piece, or there is no room. */
  lemma {:induction false} ParseNext(ps: seq<Piece>, n: nat, maxStates: nat, maxTokens: nat)
    requires Formed(ps) && n < |ps|
    ensures ParseFrom(GraphOf(ps, n), Print(ps[n..]), maxStates, maxTokens)
         == if n < maxStates && |Tokens(ps[..n + 1])| <= maxTokens
            then ParseFrom(GraphOf(ps, n + 1), Print(ps[n + 1..]), maxStates, maxTokens)
            else OutOfBounds
  {
    hide ParseFrom, Extend, Print, PrintItem, PrintSuffix;
    var g, rest := GraphOf(ps, n), PrintSuffix(ps[n]) + Print(ps[n + 1..]);
    var item := ps[n].item;
    PrintedFrom(ps, n);
    NextIsSpecial(ps, n);
    LastEndsText(ps, n);
    TokensOfNext(ps, n);
    ItemHasTokens(item);
    ScanPrinted(item, rest);
    if Room(g, ItemTokens(item), maxStates, maxTokens) {
      PieceBuilt(ps, n);
      ParsePiece(g, ps[n], Print(ps[n + 1..]), maxStates, maxTokens, n == |ps| - 1);
    } else {
      ParseTurn(g, Print(ps[n..]), maxStates, maxTokens);
    }
  }

  lemma {:induction false} TokensOfNext(ps: seq<Piece>, n: nat)
    requires n < |ps|
    ensures |Tokens(ps[..n + 1])| == |GraphOf(ps, n).tokens| + |ItemTokens(ps[n].item)|
  {
    assert ps[..n + 1][..n] == ps[..n];
  }

  /** Too many pieces or tokens: the parse loop runs out of the arrays. */
  lemma {:induction false} TooManyParts(ps: seq<Piece>, n: nat, maxStates: nat, maxTokens: nat)
    requires Formed(ps) && n <= |ps| && n <= maxStates && |Tokens(ps[..n])| <= maxTokens
    requires |ps| > maxStates || |Tokens(ps)| > maxTokens
    ensures ParseFrom(GraphOf(ps, n), Print(ps[n..]), maxStates, maxTokens) == OutOfBounds
    decreases |ps| - n
  {
    hide ParseFrom, Print, Tokens, Formed;
    assert ps[..|ps|] == ps;
    ParseNext(ps, n, maxStates, maxTokens);
    if n < maxStates && |Tokens(ps[..n + 1])| <= maxTokens {
      TooManyParts(ps, n + 1, maxStates, maxTokens);
    }
  }

  lemma {:induction false} OutsideArrays(ps: seq<Piece>, charCnt: nat, stateCnt: nat)
    requires Formed(ps) && 0 < stateCnt && (|ps| > stateCnt + 1 || TotalTokens(ps) > charCnt + 1)
    ensures Compiled(Print(ps), charCnt, stateCnt) == Outside
  {
    hide ParseFrom, FixFrom, Finished, Print, Sound;
    CountTokens(ps);
    assert ps[..0] == [] && ps[0..] == ps && GraphOf(ps, 0) == Graph([], []);
    TooManyParts(ps, 0, stateCnt + 1, charCnt + 1);
  }

  // ----- the compiler -----

  /** A pattern is compiled exactly when its items can be placed. One that cannot be is too long, unless its tokens are
      already too many for the array that holds them while the pattern is parsed. */
  lemma {:induction false} CompiledIffFits(ps: seq<Piece>, charCnt: nat, stateCnt: nat)
    requires WellFormed(ps) && 0 < |ps| <= stateCnt && charCnt % 2 == 0
    ensures var o := Compiled(Print(ps), charCnt, stateCnt);
            && (o.Config? <==> Fits(ps, charCnt))
            && (o.TooLong? <==> !Fits(ps, charCnt) && TotalTokens(ps) <= charCnt + 1)
            && (o.Outside? <==> TotalTokens(ps) > charCnt + 1)
  {
    hide Compiled, PackTables, Finished, Formed, Print, Fits;
    FitsIff(ps, charCnt);
    CountTokens(ps);
    if TotalTokens(ps) <= charCnt + 1 {
      PrintedCompiles(ps, charCnt, stateCnt);
    } else {
      OutsideArrays(ps, charCnt, stateCnt);
      MoreTokensThanRoom(ps);
    }
  }

  lemma {:induction false} MoreTokensThanRoom(ps: seq<Piece>)
    requires Formed(ps)
    ensures |Tokens(ps)| <= EndOf(ps)
  {
    TokensNotEmpty(ps);
    NotMoreTokensThanChars(Tokens(ps), |Tokens(ps)|);
  }

  /** Without ranges: exactly when there are enough characters. */
  lemma {:induction false} CompiledIffEnough(ps: seq<Piece>, charCnt: nat, stateCnt: nat)
    requires WellFormed(ps) && 0 < |ps| <= stateCnt && charCnt % 2 == 0
    requires forall k :: 0 <= k < |ps| ==> !ps[k].item.Between?
    ensures Compiled(Print(ps), charCnt, stateCnt).Config? <==> TotalWidth(ps) <= charCnt
    ensures TotalTokens(ps) <= charCnt + 1 ==>
              (Compiled(Print(ps), charCnt, stateCnt) == TooLong <==> TotalWidth(ps) > charCnt)
  {
    hide Compiled, Formed, Print, Fits;
    CompiledIffFits(ps, charCnt, stateCnt);
    FitsIff(ps, charCnt);
    FitsByWidth(ps, charCnt);
  }

  /** Special characters where an item should begin: a dot without a star and a lone star are never passed, and a plus
      or `.*` without an item before it changes a state outside the array. */
  lemma {:induction false} StrayCharacters(rest: Text, charCnt: nat, stateCnt: nat)
    requires 0 < stateCnt
    ensures (rest == [] || rest[0] != STAR) ==> Compiled([DOT] + rest, charCnt, stateCnt) == Endless
    ensures Compiled([STAR] + rest, charCnt, stateCnt) == Endless
    ensures Compiled([PLUS] + rest, charCnt, stateCnt) == Outside
    ensures Compiled([DOT, STAR] + rest, charCnt, stateCnt) == Outside
  {
    hide FixFrom, Finished, ScanItem, Room, Extend;
    var g := Graph([], []);
    ParseTurn(g, [DOT] + rest, stateCnt + 1, charCnt + 1);
    ParseTurn(g, [STAR] + rest, stateCnt + 1, charCnt + 1);
    ParseTurn(g, [PLUS] + rest, stateCnt + 1, charCnt + 1);
    ParseTurn(g, [DOT, STAR] + rest, stateCnt + 1, charCnt + 1);
  }
}
