/** Placing the tokens in the character array, and the tables of one configuration (fregex.cpp,
    `fregex_get_config` up to the packing). */
module RegexLayout {
  import opened RegexPattern
  import opened RegexGraph
  import opened RegexAccepts
  import opened RegexFixup

  // ----- places -----

  /** A range starts at an even place. */
  function Aligned(t: Token, e: nat): (s: nat)
    ensures e <= s <= e + 1
    ensures t.isRange ==> s % 2 == 0
  {
    if t.isRange && e % 2 != 0 then e + 1 else e
  }

  /** Where the first `t` tokens end. */
  function End(tokens: seq<Token>, t: nat): (e: nat)
    requires t <= |tokens|
  {
    if t == 0 then 0 else Aligned(tokens[t - 1], End(tokens, t - 1)) + |tokens[t - 1].chars|
  }

  function Start(tokens: seq<Token>, t: nat): (s: nat)
    requires t < |tokens|
    ensures End(tokens, t) <= s && s + |tokens[t].chars| == End(tokens, t + 1)
  {
    Aligned(tokens[t], End(tokens, t))
  }

  /** The place of the last character, `real_offs`. */
  function Offset(tokens: seq<Token>, t: nat): (x: int)
    requires t < |tokens|
  {
    Start(tokens, t) + |tokens[t].chars| - 1
  }

  predicate RangesArePairs(tokens: seq<Token>) {
    forall t :: 0 <= t < |tokens| && tokens[t].isRange ==> |tokens[t].chars| == 2
  }

  /** Which of the first `n` tokens covers place `x`; -1 for none. */
  function Owner(tokens: seq<Token>, n: nat, x: nat): (o: int)
    requires n <= |tokens|
    ensures -1 <= o < n && (o >= 0 ==> Start(tokens, o) <= x < End(tokens, o + 1))
  {
    if n == 0 then -1
    else if Start(tokens, n - 1) <= x < End(tokens, n) then n - 1
    else Owner(tokens, n - 1, x)
  }

  function CharAt(tokens: seq<Token>, n: nat, x: nat): (c: Byte)
    requires n <= |tokens|
  {
    var o := Owner(tokens, n, x);
    if o < 0 then 0 else tokens[o].chars[x - Start(tokens, o)]
  }

  /** Place `x` continues a literal. */
  predicate LinkedAt(tokens: seq<Token>, n: nat, x: nat)
    requires n <= |tokens|
  {
    var o := Owner(tokens, n, x);
    o >= 0 && !tokens[o].isRange && Start(tokens, o) < x
  }

  /** Places `2 * p` and `2 * p + 1` hold the bounds of a range. */
  predicate RangeAt(tokens: seq<Token>, n: nat, p: nat)
    requires n <= |tokens|
  {
    var o := Owner(tokens, n, 2 * p + 1);
    o >= 0 && tokens[o].isRange
  }

  lemma {:induction false} EndsGrow(tokens: seq<Token>, s: nat, t: nat)
    requires s <= t <= |tokens|
    ensures End(tokens, s) <= End(tokens, t)
    decreases t
  {
    if s < t {
      EndsGrow(tokens, s, t - 1);
    }
  }

  /** The tokens occupy disjoint stretches. */
  lemma {:induction false} Disjoint(tokens: seq<Token>, s: nat, t: nat)
    requires s < t < |tokens|
    ensures End(tokens, s + 1) <= Start(tokens, t)
  {
    EndsGrow(tokens, s + 1, t);
  }

  lemma {:induction false} OwnerIs(tokens: seq<Token>, n: nat, t: nat, x: nat)
    requires t < n <= |tokens| && Start(tokens, t) <= x < End(tokens, t + 1)
    ensures Owner(tokens, n, x) == t
    decreases n
  {
    if t < n - 1 {
      Disjoint(tokens, t, n - 1);
      OwnerIs(tokens, n - 1, t, x);
    }
  }

  lemma {:induction false} NoOwner(tokens: seq<Token>, n: nat, x: nat)
    requires n <= |tokens| && End(tokens, n) <= x
    ensures Owner(tokens, n, x) == -1
  {
    if n > 0 {
      EndsGrow(tokens, n - 1, n);
      NoOwner(tokens, n - 1, x);
    }
  }

  /** Every character of every token is found at its own place. */
  lemma {:induction false} PlacedAt(tokens: seq<Token>, t: nat, i: nat)
    requires RangesArePairs(tokens) && t < |tokens| && i < |tokens[t].chars|
    ensures var x := Start(tokens, t) + i; var n := |tokens|;
            && CharAt(tokens, n, x) == tokens[t].chars[i]
            && (LinkedAt(tokens, n, x) <==> i > 0 && !tokens[t].isRange)
            && (x % 2 == 1 ==> (RangeAt(tokens, n, x / 2) <==> tokens[t].isRange))
            && (tokens[t].isRange ==> x % 2 == i)
  {
    OwnerIs(tokens, |tokens|, t, Start(tokens, t) + i);
  }

  // ----- the code that places the tokens -----

  datatype Sheet = Sheet(chars: Text, linked: seq<bool>, ranges: seq<bool>)

  function SheetOf(tokens: seq<Token>, n: nat, charCnt: nat): (s: Sheet)
    requires n <= |tokens|
  {
    Sheet(seq(charCnt, x requires 0 <= x => CharAt(tokens, n, x)),
          seq(charCnt, x requires 0 <= x => LinkedAt(tokens, n, x)),
          seq(charCnt / 2, p requires 0 <= p => RangeAt(tokens, n, p)))
  }

  lemma {:induction false} SheetSizes(tokens: seq<Token>, n: nat, charCnt: nat)
    requires n <= |tokens|
    ensures var s := SheetOf(tokens, n, charCnt);
            |s.chars| == |s.linked| == charCnt && |s.ranges| == charCnt / 2
  {
  }

  function Offsets(tokens: seq<Token>, n: nat): (r: seq<int>)
    requires n <= |tokens|
    ensures |r| == n
  {
    seq(n, t requires 0 <= t < n => Offset(tokens, t))
  }

  lemma {:induction false} NoTokens(tokens: seq<Token>)
    ensures Offsets(tokens, 0) == [] && End(tokens, 0) == 0
  {
  }

  lemma {:induction false} NextOffset(tokens: seq<Token>, t: nat)
    requires t < |tokens|
    ensures Offsets(tokens, t + 1) == Offsets(tokens, t) + [End(tokens, t + 1) - 1]
  {
  }

  ghost predicate Holds(ochars: array<Byte>, oseq: array<bool>, orange: array<bool>, s: Sheet)
    reads ochars, oseq, orange
  {
    ochars[..] == s.chars && oseq[..] == s.linked && orange[..] == s.ranges
  }

  /** The sheet with the first `i` characters of token `t` added. */
  ghost predicate Partly(s: Sheet, tokens: seq<Token>, t: nat, i: nat, charCnt: nat)
    requires t < |tokens| && i <= |tokens[t].chars|
  {
    var from := Start(tokens, t);
    && |s.chars| == |s.linked| == charCnt && |s.ranges| == charCnt / 2
    && (forall x :: 0 <= x < charCnt ==>
          s.chars[x] == (if from <= x < from + i then tokens[t].chars[x - from] else CharAt(tokens, t, x)))
    && (forall x :: 0 <= x < charCnt ==>
          s.linked[x] == (if from <= x < from + i then x > from && !tokens[t].isRange else LinkedAt(tokens, t, x)))
    && (forall p :: 0 <= p < charCnt / 2 ==>
          s.ranges[p] == (RangeAt(tokens, t, p) || (tokens[t].isRange && i == 2 && from == 2 * p)))
  }

  lemma {:induction false} PartlyStarts(tokens: seq<Token>, t: nat, charCnt: nat)
    requires t < |tokens| && RangesArePairs(tokens)
    ensures Partly(SheetOf(tokens, t, charCnt), tokens, t, 0, charCnt)
  {
  }

  lemma {:induction false} CharAdded(tokens: seq<Token>, t: nat, x: nat)
    requires t < |tokens|
    ensures var from, to := Start(tokens, t), End(tokens, t + 1);
            && CharAt(tokens, t + 1, x) == (if from <= x < to then tokens[t].chars[x - from] else CharAt(tokens, t, x))
            && LinkedAt(tokens, t + 1, x)
                  == (if from <= x < to then x > from && !tokens[t].isRange else LinkedAt(tokens, t, x))
  {
  }

  lemma {:induction false} RangeAdded(tokens: seq<Token>, t: nat, p: nat)
    requires t < |tokens| && RangesArePairs(tokens)
    ensures RangeAt(tokens, t + 1, p) == (RangeAt(tokens, t, p) || (tokens[t].isRange && Start(tokens, t) == 2 * p))
  {
    if Start(tokens, t) <= 2 * p + 1 {
      NoOwner(tokens, t, 2 * p + 1);
    }
  }

  lemma {:induction false} PartlyEnds(s: Sheet, tokens: seq<Token>, t: nat, charCnt: nat)
    requires t < |tokens| && RangesArePairs(tokens) && Partly(s, tokens, t, |tokens[t].chars|, charCnt)
    ensures s == SheetOf(tokens, t + 1, charCnt)
  {
    forall x | 0 <= x < charCnt
      ensures s.chars[x] == CharAt(tokens, t + 1, x) && s.linked[x] == LinkedAt(tokens, t + 1, x)
    {
      CharAdded(tokens, t, x);
    }
    forall p | 0 <= p < charCnt / 2
      ensures s.ranges[p] == RangeAt(tokens, t + 1, p)
    {
      RangeAdded(tokens, t, p);
    }
  }

  lemma {:induction false} PartlyGrows(s: Sheet, tokens: seq<Token>, t: nat, i: nat, charCnt: nat)
    requires t < |tokens| && RangesArePairs(tokens) && i < |tokens[t].chars| && charCnt % 2 == 0
    requires Partly(s, tokens, t, i, charCnt) && Start(tokens, t) + i < charCnt
    ensures var x := Start(tokens, t) + i; var ranged := tokens[t].isRange;
            Partly(Sheet(s.chars[x := tokens[t].chars[i]], s.linked[x := i > 0 && !ranged],
                  s.ranges[x / 2 := i > 0 && ranged]),
                   tokens, t, i + 1, charCnt)
  {
    var x := Start(tokens, t) + i;
    forall p | 0 <= p < charCnt / 2
      ensures p == x / 2 ==> !RangeAt(tokens, t, p)
    {
      if p == x / 2 {
        RangeBehind(tokens, t, p);
      }
    }
  }

  /** No earlier range reaches the pair where token `t` or one of its characters stands. */
  lemma {:induction false} RangeBehind(tokens: seq<Token>, t: nat, p: nat)
    requires t < |tokens| && RangesArePairs(tokens) && Start(tokens, t) <= 2 * p + 1
    ensures !RangeAt(tokens, t, p)
  {
    NoOwner(tokens, t, 2 * p + 1);
  }

  /** Copies the characters of token `t`, from `cpos` on. */
  method PlaceToken(ochars: array<Byte>, oseq: array<bool>, orange: array<bool>, tokens: seq<Token>, t: nat, start: nat)
    returns (cpos: nat, ok: bool)
    requires oseq != orange && t < |tokens| && RangesArePairs(tokens) && start == End(tokens, t) <= ochars.Length
    requires ochars.Length % 2 == 0 && Holds(ochars, oseq, orange, SheetOf(tokens, t, ochars.Length))
    modifies ochars, oseq, orange
    ensures ok <==> End(tokens, t + 1) <= ochars.Length
    ensures ok ==> cpos == End(tokens, t + 1) && Holds(ochars, oseq, orange, SheetOf(tokens, t + 1, ochars.Length))
  {
    hide Partly, SheetOf, RangesArePairs;
    cpos, ok := start, true;
    if tokens[t].isRange && cpos % 2 != 0 {
      cpos := cpos + 1;
    }
    PartlyStarts(tokens, t, ochars.Length);
    for i := 0 to |tokens[t].chars|
      invariant cpos == Start(tokens, t) + i <= ochars.Length
      invariant Partly(Sheet(ochars[..], oseq[..], orange[..]), tokens, t, i, ochars.Length)
    {
      if cpos == ochars.Length {
        return cpos, false;
      }
      ghost var before := Sheet(ochars[..], oseq[..], orange[..]);
      PartlyGrows(before, tokens, t, i, ochars.Length);
      ochars[cpos] := tokens[t].chars[i];
      oseq[cpos] := i > 0 && !tokens[t].isRange;
      orange[cpos / 2] := i > 0 && tokens[t].isRange;
      assert ochars[..] == before.chars[cpos := tokens[t].chars[i]];
      cpos := cpos + 1;
    }
    PartlyEnds(Sheet(ochars[..], oseq[..], orange[..]), tokens, t, ochars.Length);
  }

  /** Places every token; not `ok` when a character falls behind the last place. */
  method LayOut(tokens: seq<Token>, charCnt: nat) returns (s: Sheet, offs: seq<int>, ok: bool)
    requires charCnt % 2 == 0 && RangesArePairs(tokens)
    ensures ok <==> End(tokens, |tokens|) <= charCnt
    ensures ok ==> s == SheetOf(tokens, |tokens|, charCnt) && offs == Offsets(tokens, |tokens|)
  {
    var ochars, oseq, orange := new Byte[charCnt](_ => 0), new bool[charCnt](_ => false),
          new bool[charCnt / 2](_ => false);
    var cpos: int := 0;
    offs, ok, s := [], true, Sheet([], [], []);
    assert Holds(ochars, oseq, orange, SheetOf(tokens, 0, charCnt));
    hide SheetOf, RangesArePairs, Offset, Offsets, End;
    NoTokens(tokens);
    for t := 0 to |tokens|
      invariant cpos == End(tokens, t) <= charCnt && ok
      invariant offs == Offsets(tokens, t)
      invariant Holds(ochars, oseq, orange, SheetOf(tokens, t, charCnt))
    {
      cpos, ok := PlaceToken(ochars, oseq, orange, tokens, t, cpos);
      if !ok {
        EndsGrow(tokens, t + 1, |tokens|);
        return;
      }
      NextOffset(tokens, t);
      offs := offs + [cpos - 1];
    }
    s := Sheet(ochars[..], oseq[..], orange[..]);
  }
}
