/** The tables of one configuration and what a reader of the tables accepts. */
module RegexTables {
  import opened RegexPattern
  import opened RegexGraph
  import opened RegexAccepts
  import opened RegexFixup
  import opened RegexLayout

  /** `triggers[s][x]`: state `s` listens to place `x`; `edges[s][q]`: state `q` leads to state `s`. */
  datatype Tables = Tables(sheet: Sheet, triggers: seq<seq<bool>>, edges: seq<seq<bool>>, lengths: seq<nat>,
        sticky: seq<bool>)

  predicate TriggersUpTo(s: State, k: nat, offs: seq<int>, x: int)
    requires k <= |s.tokens|
  {
    exists j :: 0 <= j < k && 0 <= s.tokens[j] < |offs| && offs[s.tokens[j]] == x
  }

  predicate Triggers(s: State, offs: seq<int>, x: int) {
    TriggersUpTo(s, |s.tokens|, offs, x)
  }

  function FirstLength(s: State, tokens: seq<Token>): (n: nat) {
    if s.tokens != [] && 0 <= s.tokens[0] < |tokens| then |tokens[s.tokens[0]].chars| else 0
  }

  /** Only the states up to `last` have entries. */
  function TablesOf(states: seq<State>, tokens: seq<Token>, last: int, charCnt: nat, stateCnt: nat): (t: Tables)
    requires last < stateCnt <= |states|
  {
    var offs := Offsets(tokens, |tokens|);
    Tables(SheetOf(tokens, |tokens|, charCnt),
           seq(stateCnt, s requires 0 <= s < stateCnt => seq(charCnt, x => s <= last && Triggers(states[s], offs, x))),
           seq(stateCnt, s requires 0 <= s < stateCnt => seq(stateCnt, q => s <= last && q in states[s].inEdges)),
           seq(stateCnt, s requires 0 <= s < stateCnt => if s <= last then FirstLength(states[s], tokens) else 0),
           seq(stateCnt, s requires 0 <= s < stateCnt => s <= last && states[s].sticky))
  }

  /** Every entry that state `s` sets is inside the tables. */
  predicate StateFits(s: State, offs: seq<int>, charCnt: nat, stateCnt: nat) {
    && (forall k :: 0 <= k < |s.tokens| ==> 0 <= s.tokens[k] < |offs| && 0 <= offs[s.tokens[k]] < charCnt)
    && (forall e :: 0 <= e < |s.inEdges| ==> 0 <= s.inEdges[e] < stateCnt)
  }

  // ----- the code -----

  /** Row `s` of the arrays is what the tables say. */
  ghost predicate RowFilled(t: Tables, s: nat, oactivates: array2<bool>, otrans: array2<bool>, oslen: array<nat>,
        osticky: array<bool>)
    requires s < |t.triggers| && |t.triggers| == |t.edges| == |t.lengths| == |t.sticky|
    requires s < oactivates.Length0 && oactivates.Length0 == otrans.Length0 == oslen.Length == osticky.Length
    requires |t.triggers[s]| == oactivates.Length1 && |t.edges[s]| == otrans.Length1
    reads oactivates, otrans, oslen, osticky
  {
    && (forall x :: 0 <= x < oactivates.Length1 ==> oactivates[s, x] == t.triggers[s][x])
    && (forall q :: 0 <= q < otrans.Length1 ==> otrans[s, q] == t.edges[s][q])
    && oslen[s] == t.lengths[s] && osticky[s] == t.sticky[s]
  }

  /** Nothing is set in row `s`. */
  ghost predicate RowClear(s: nat, oactivates: array2<bool>, otrans: array2<bool>, oslen: array<nat>,
        osticky: array<bool>)
    requires s < oactivates.Length0 && oactivates.Length0 == otrans.Length0 == oslen.Length == osticky.Length
    reads oactivates, otrans, oslen, osticky
  {
    && (forall x :: 0 <= x < oactivates.Length1 ==> !oactivates[s, x])
    && (forall q :: 0 <= q < otrans.Length1 ==> !otrans[s, q])
    && oslen[s] == 0 && !osticky[s]
  }

  predicate Shaped(t: Tables, charCnt: nat, stateCnt: nat) {
    && |t.triggers| == |t.edges| == |t.lengths| == |t.sticky| == stateCnt
    && (forall s :: 0 <= s < stateCnt ==> |t.triggers[s]| == charCnt && |t.edges[s]| == stateCnt)
  }

  method MarkTriggers(s: State, row: nat, offs: seq<int>, oactivates: array2<bool>) returns (ok: bool)
    requires row < oactivates.Length0 && forall k :: 0 <= k < |s.tokens| ==> 0 <= s.tokens[k] < |offs|
    requires forall x :: 0 <= x < oactivates.Length1 ==> !oactivates[row, x]
    modifies oactivates
    ensures ok <==> forall k :: 0 <= k < |s.tokens| ==> 0 <= offs[s.tokens[k]] < oactivates.Length1
    ensures ok ==> forall x :: 0 <= x < oactivates.Length1 ==> oactivates[row, x] == Triggers(s, offs, x)
    ensures forall r, x :: 0 <= r < oactivates.Length0 && r != row && 0 <= x < oactivates.Length1
              ==> oactivates[r, x] == old(oactivates[r, x])
  {
    for k := 0 to |s.tokens|
      invariant forall j :: 0 <= j < k ==> 0 <= offs[s.tokens[j]] < oactivates.Length1
      invariant forall x :: 0 <= x < oactivates.Length1 ==> oactivates[row, x] == TriggersUpTo(s, k, offs, x)
      invariant forall r, x :: 0 <= r < oactivates.Length0 && r != row && 0 <= x < oactivates.Length1
                  ==> oactivates[r, x] == old(oactivates[r, x])
    {
      var off := offs[s.tokens[k]];
      if off < 0 || off >= oactivates.Length1 {
        return false;
      }
      oactivates[row, off] := true;
    }
    return true;
  }

  method MarkEdges(s: State, row: nat, otrans: array2<bool>) returns (ok: bool)
    requires row < otrans.Length0 && forall q :: 0 <= q < otrans.Length1 ==> !otrans[row, q]
    modifies otrans
    ensures ok <==> forall e :: 0 <= e < |s.inEdges| ==> 0 <= s.inEdges[e] < otrans.Length1
    ensures ok ==> forall q :: 0 <= q < otrans.Length1 ==> otrans[row, q] == (q in s.inEdges)
    ensures forall r, q :: 0 <= r < otrans.Length0 && r != row && 0 <= q < otrans.Length1
              ==> otrans[r, q] == old(otrans[r, q])
  {
    for e := 0 to |s.inEdges|
      invariant forall j :: 0 <= j < e ==> 0 <= s.inEdges[j] < otrans.Length1
      invariant forall q :: 0 <= q < otrans.Length1 ==> otrans[row, q] == (q in s.inEdges[..e])
      invariant forall r, q :: 0 <= r < otrans.Length0 && r != row && 0 <= q < otrans.Length1
                  ==> otrans[r, q] == old(otrans[r, q])
    {
      var q := s.inEdges[e];
      if q < 0 || q >= otrans.Length1 {
        return false;
      }
      otrans[row, q] := true;
      assert s.inEdges[..e + 1] == s.inEdges[..e] + [q];
    }
    assert s.inEdges[..|s.inEdges|] == s.inEdges;
    return true;
  }

  /** The entries of one state; the other rows stay as they are. */
  method FillRow(s: State, row: nat, tokens: seq<Token>, offs: seq<int>,
                 oactivates: array2<bool>, otrans: array2<bool>, oslen: array<nat>, osticky: array<bool>)
                       returns (ok: bool)
    requires oactivates != otrans && offs == Offsets(tokens, |tokens|)
    requires oactivates.Length0 == otrans.Length0 == oslen.Length == osticky.Length && row < oslen.Length
    requires (forall k :: 0 <= k < |s.tokens| ==> 0 <= s.tokens[k] < |offs|)
          && RowClear(row, oactivates, otrans, oslen, osticky)
    modifies oactivates, otrans, oslen, osticky
    ensures ok <==> StateFits(s, offs, oactivates.Length1, otrans.Length1)
    ensures ok ==> (forall x :: 0 <= x < oactivates.Length1 ==> oactivates[row, x] == Triggers(s, offs, x))
                   && (forall q :: 0 <= q < otrans.Length1 ==> otrans[row, q] == (q in s.inEdges))
                   && oslen[row] == FirstLength(s, tokens) && osticky[row] == s.sticky
    ensures forall r, x :: 0 <= r < oactivates.Length0 && r != row && 0 <= x < oactivates.Length1
              ==> oactivates[r, x] == old(oactivates[r, x])
    ensures forall r, q :: 0 <= r < otrans.Length0 && r != row && 0 <= q < otrans.Length1 ==>
          otrans[r, q] == old(otrans[r, q])
    ensures forall r :: 0 <= r < oslen.Length && r != row ==> oslen[r] == old(oslen[r]) && osticky[r] == old(osticky[r])
  {
    osticky[row] := s.sticky;
    oslen[row] := if |s.tokens| > 0 then |tokens[s.tokens[0]].chars| else 0;
    ok := MarkTriggers(s, row, offs, oactivates);
    if ok {
      ok := MarkEdges(s, row, otrans);
    }
  }

  /** Fills row `s`; what is filled or clear elsewhere stays so. */
  method FillNext(states: seq<State>, tokens: seq<Token>, offs: seq<int>, ghost last: int, s: nat,
                  oactivates: array2<bool>, otrans: array2<bool>, oslen: array<nat>, osticky: array<bool>)
                        returns (ok: bool)
    requires oactivates != otrans
    requires oactivates.Length0 == otrans.Length0 == otrans.Length1 == oslen.Length == osticky.Length
    requires s <= last < oslen.Length <= |states| && offs == Offsets(tokens, |tokens|)
    requires Valid(tokens, states[s].tokens) && RowClear(s, oactivates, otrans, oslen, osticky)
    modifies oactivates, otrans, oslen, osticky
    ensures ok <==> StateFits(states[s], offs, oactivates.Length1, oslen.Length)
    ensures var t := TablesOf(states, tokens, last, oactivates.Length1, oslen.Length);
            && Shaped(t, oactivates.Length1, oslen.Length)
            && (ok ==> RowFilled(t, s, oactivates, otrans, oslen, osticky))
            && (forall r :: 0 <= r < oslen.Length && r != s && old(RowFilled(t, r, oactivates, otrans, oslen, osticky))
                  ==> RowFilled(t, r, oactivates, otrans, oslen, osticky))
    ensures forall r :: 0 <= r < oslen.Length && r != s && old(RowClear(r, oactivates, otrans, oslen, osticky))
              ==> RowClear(r, oactivates, otrans, oslen, osticky)
  {
    ok := FillRow(states[s], s, tokens, offs, oactivates, otrans, oslen, osticky);
  }

  /** Fills the rows of the states up to `last`; the others stay clear. */
  method FillTables(states: seq<State>, tokens: seq<Token>, offs: seq<int>, last: int,
                    oactivates: array2<bool>, otrans: array2<bool>, oslen: array<nat>, osticky: array<bool>)
                          returns (ok: bool)
    requires oactivates != otrans
    requires oactivates.Length0 == otrans.Length0 == otrans.Length1 == oslen.Length == osticky.Length
    requires -1 <= last < oslen.Length <= |states| && offs == Offsets(tokens, |tokens|)
    requires forall s :: 0 <= s <= last ==> Valid(tokens, states[s].tokens)
    requires forall s :: 0 <= s < oslen.Length ==> RowClear(s, oactivates, otrans, oslen, osticky)
    modifies oactivates, otrans, oslen, osticky
    ensures ok <==> forall s :: 0 <= s <= last ==> StateFits(states[s], offs, oactivates.Length1, oslen.Length)
    ensures var t := TablesOf(states, tokens, last, oactivates.Length1, oslen.Length);
            Shaped(t, oactivates.Length1, oslen.Length)
            && (ok ==> forall s :: 0 <= s < oslen.Length ==> RowFilled(t, s, oactivates, otrans, oslen, osticky))
  {
    ghost var t := TablesOf(states, tokens, last, oactivates.Length1, oslen.Length);
    ok := true;
    for s := 0 to last + 1
      invariant ok
      invariant forall r :: 0 <= r < s ==> StateFits(states[r], offs, oactivates.Length1, oslen.Length)
      invariant forall r :: 0 <= r < s ==> RowFilled(t, r, oactivates, otrans, oslen, osticky)
      invariant forall r :: s <= r < oslen.Length ==> RowClear(r, oactivates, otrans, oslen, osticky)
    {
      hide RowFilled, RowClear, StateFits, TablesOf;
      assert Valid(tokens, states[s].tokens) && RowClear(s, oactivates, otrans, oslen, osticky);
      ok := FillNext(states, tokens, offs, last, s, oactivates, otrans, oslen, osticky);
      if !ok {
        return;
      }
    }
    forall r | last < r < oslen.Length
      ensures RowFilled(t, r, oactivates, otrans, oslen, osticky)
    {
      assert RowClear(r, oactivates, otrans, oslen, osticky);
    }
  }
}
