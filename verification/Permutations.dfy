/** The padded column permutation (rotpert.go, `ColumnPermutation`). */
module Permutations {

  // ----- what the result is used for -----

  predicate Distinct(s: seq<int>) {
    forall i, j :: 0 <= i < j < |s| ==> s[i] != s[j]
  }

  predicate Columns(s: seq<int>, size: nat) {
    forall i :: 0 <= i < |s| ==> 0 <= s[i] < size
  }

  /** A list of the columns 0 to `size - 1`, each once. */
  predicate Permutes(s: seq<int>, size: nat) {
    |s| == size && Columns(s, size) && Distinct(s)
  }

  function RoundUp3(n: nat): (m: nat)
    ensures n <= m < n + 3 && m % 3 == 0
  {
    (n + 2) / 3 * 3
  }

  /** The three columns that are rotated together have different numbers. */
  predicate DistinctTriplets(s: seq<int>) {
    forall j :: 0 <= j < |s| / 3 ==>
      s[3 * j] != s[3 * j + 1] && s[3 * j] != s[3 * j + 2] && s[3 * j + 1] != s[3 * j + 2]
  }

  predicate Padded(s: seq<int>, size: nat) {
    && |s| == RoundUp3(size) && Columns(s, size)
    && Permutes(s[..size], size) && DistinctTriplets(s)
  }

  // ----- the shuffle -----

  function Swapped(s: seq<int>, i: nat, j: nat): (r: seq<int>)
    requires i < |s| && j < |s|
    ensures |r| == |s|
  {
    s[i := s[j]][j := s[i]]
  }

  /** Random picks for shuffling the first `n` entries: the first below `n`, the next below `n - 1`, and so on. */
  predicate Picks(picks: seq<nat>, n: nat) {
    |picks| + 1 == n && forall k :: 0 <= k < |picks| ==> picks[k] < n - k
  }

  function Shuffled(s: seq<int>, n: nat, picks: seq<nat>): (r: seq<int>)
    requires 0 < n <= |s| && Picks(picks, n)
    ensures |r| == |s|
    decreases n
  {
    if n == 1 then s else Shuffled(Swapped(s, picks[0], n - 1), n - 1, picks[1..])
  }

  lemma {:induction false} SwapKeeps(s: seq<int>, i: nat, j: nat, size: nat)
    requires i < |s| && j < |s| && Permutes(s, size)
    ensures Permutes(Swapped(s, i, j), size)
  {
  }

  lemma {:induction false} ShuffleKeeps(s: seq<int>, n: nat, picks: seq<nat>, size: nat)
    requires 0 < n <= |s| && Picks(picks, n) && Permutes(s, size)
    ensures Permutes(Shuffled(s, n, picks), size)
    decreases n
  {
    if n > 1 {
      SwapKeeps(s, picks[0], n - 1, size);
      ShuffleKeeps(Swapped(s, picks[0], n - 1), n - 1, picks[1..], size);
    }
  }

  /** Entries from `n` on are final. */
  lemma {:induction false} TailIsFinal(s: seq<int>, n: nat, picks: seq<nat>, k: nat)
    requires 0 < n <= k < |s| && Picks(picks, n)
    ensures Shuffled(s, n, picks)[k] == s[k]
    decreases n
  {
    if n > 1 {
      TailIsFinal(Swapped(s, picks[0], n - 1), n - 1, picks[1..], k);
    }
  }

  /** Different picks give different orders. */
  lemma {:induction false} ShuffleInjective(s: seq<int>, n: nat, p: seq<nat>, q: seq<nat>)
    requires 0 < n <= |s| && Picks(p, n) && Picks(q, n) && Distinct(s)
    requires Shuffled(s, n, p) == Shuffled(s, n, q)
    ensures p == q
    decreases n
  {
    if n > 1 {
      var sp, sq := Swapped(s, p[0], n - 1), Swapped(s, q[0], n - 1);
      TailIsFinal(sp, n - 1, p[1..], n - 1);
      TailIsFinal(sq, n - 1, q[1..], n - 1);
      assert s[p[0]] == s[q[0]];
      assert p[0] == q[0];
      ShuffleInjective(sp, n - 1, p[1..], q[1..]);
      assert p == [p[0]] + p[1..] && q == [q[0]] + q[1..];
    }
  }

  predicate SameEntries(s: seq<int>, t: seq<int>, n: nat)
    requires n <= |s| == |t|
  {
    && (forall i :: n <= i < |s| ==> s[i] == t[i])
    && (forall i :: 0 <= i < n ==> t[i] in s[..n])
  }

  lemma {:induction false} Removes(s: seq<int>, t: seq<int>, n: nat, pick: nat)
    requires 1 < n <= |s| == |t| && SameEntries(s, t, n) && Distinct(t) && pick < n && s[pick] == t[n - 1]
    ensures SameEntries(Swapped(s, pick, n - 1), t, n - 1)
  {
    var r := Swapped(s, pick, n - 1);
    forall i | 0 <= i < n - 1
      ensures t[i] in r[..n - 1]
    {
      var j :| 0 <= j < n && s[j] == t[i];
      assert t[i] != t[n - 1];
      if j == n - 1 {
        assert r[..n - 1][pick] == t[i];
      } else {
        assert r[..n - 1][j] == t[i];
      }
    }
  }

  /** Every order is reached by some picks. */
  lemma {:induction false} ShuffleReaches(s: seq<int>, t: seq<int>, n: nat) returns (picks: seq<nat>)
    requires 0 < n <= |s| == |t| && SameEntries(s, t, n) && Distinct(t)
    ensures Picks(picks, n) && Shuffled(s, n, picks) == t
    decreases n
  {
    if n == 1 {
      picks := [];
      assert t[0] in s[..1];
      assert s == t;
    } else {
      assert t[n - 1] in s[..n];
      var pick :| 0 <= pick < n && s[pick] == t[n - 1];
      Removes(s, t, n, pick);
      var rest := ShuffleReaches(Swapped(s, pick, n - 1), t, n - 1);
      picks := [pick] + rest;
      assert picks[1..] == rest;
    }
  }

  // ----- the padding -----

  /** The next pick that differs from the last two entries, if the random source yields one. */
  function FirstOther(a: int, b: int, size: nat, random: seq<nat>): (k: nat)
    requires size > 0
    ensures k <= |random|
    ensures forall j :: 0 <= j < k ==> random[j] % size == a || random[j] % size == b
    ensures k < |random| ==> random[k] % size != a && random[k] % size != b
  {
    if random == [] || (random[0] % size != a && random[0] % size != b) then 0
    else 1 + FirstOther(a, b, size, random[1..])
  }

  predicate Other(p: int, a: int, b: int, size: nat) {
    0 <= p < size && p != a && p != b
  }

  /** An acceptable pick exists exactly when there are three columns. */
  lemma {:induction false} ThirdColumn(a: int, b: int, size: nat)
    requires 0 <= a < size && 0 <= b < size && (size > 1 ==> a != b)
    ensures (exists p :: Other(p, a, b, size)) <==> size >= 3
  {
    if size >= 3 {
      assert Other(0, a, b, size) || Other(1, a, b, size) || Other(2, a, b, size);
    }
  }

  /** `Waiting`: the given random numbers are used up and no acceptable pick was among them. */
  datatype Outcome = Done(columns: seq<int>) | Waiting

  /** The entry before the last, if there is one. */
  function Before(s: seq<int>): (b: int)
    requires s != []
  {
    if |s| > 1 then s[|s| - 2] else s[0]
  }

  /** `count` more entries, each different from the two before it. With a single column there is
      only one entry before the first. */
  function Pad(s: seq<int>, size: nat, count: nat, random: seq<nat>): (o: Outcome)
    requires |s| >= size > 0
    decreases count
  {
    if count == 0 then Done(s)
    else
      var a, b := s[|s| - 1], Before(s);
      var k := FirstOther(a, b, size, random);
      if k == |random| then Waiting else Pad(s + [random[k] % size], size, count - 1, random[k + 1..])
  }

  function Identity(size: nat): (s: seq<int>)
    ensures |s| == size
  {
    seq(size, i => i)
  }

  /** `Intn` of each bound in turn. */
  function ShufflePicks(random: seq<nat>, n: nat): (picks: seq<nat>)
    requires n > 0 && |random| >= n - 1
    ensures Picks(picks, n)
  {
    seq(n - 1, k requires 0 <= k < n - 1 => random[k] % (n - k))
  }

  function OrderedPadding(size: nat): (p: seq<int>) {
    if size % 3 == 0 then [] else if size % 3 == 1 then [size - 2, size - 3] else [size - 3]
  }

  function Result(size: nat, ordered: bool, random: seq<nat>): (o: Outcome) {
    if ordered then Done(Identity(size) + OrderedPadding(size))
    else if size == 0 then Done([])
    else if |random| < size - 1 then Waiting
    else
      var s := Shuffled(Identity(size), size, ShufflePicks(random, size));
      Pad(s, size, RoundUp3(size) - size, random[size - 1..])
  }

  // ----- the code -----

  lemma {:induction false} FirstOtherStep(a: int, b: int, size: nat, random: seq<nat>, at: nat)
    requires size > 0 && at < |random|
    ensures var p := random[at] % size;
            FirstOther(a, b, size, random[at..])
                  == if p != a && p != b then 0 else 1 + FirstOther(a, b, size, random[at + 1..])
  {
    assert random[at..][1..] == random[at + 1..];
  }

  /** Draws until the pick differs from the last two entries. */
  method PickOther(padded: seq<int>, size: nat, random: seq<nat>, start: nat) returns (pick: int, at: nat, found: bool)
    requires |padded| >= size > 0 && Columns(padded, size) && start <= |random|
    ensures var a, b := padded[|padded| - 1], Before(padded);
            var k := FirstOther(a, b, size, random[start..]);
            found == (k < |random| - start) && (found ==> at == start + k + 1 && pick == random[start + k] % size)
  {
    var a := padded[|padded| - 1];
    ghost var b := Before(padded);
    ghost var k := FirstOther(a, b, size, random[start..]);
    pick, at := a, start;
    while pick == a || pick == padded[|padded| - 2]
      invariant start <= at <= |random| && 0 <= pick < size
      invariant pick == a || pick == b ==> k == at - start + FirstOther(a, b, size, random[at..])
      invariant pick != a && pick != b ==> at > start && k == at - 1 - start && pick == random[at - 1] % size
      decreases |random| - at
    {
      if at == |random| {
        return pick, at, false;
      }
      FirstOtherStep(a, b, size, random, at);
      pick := random[at] % size;
      at := at + 1;
    }
    found := true;
  }

  lemma {:induction false} PadOne(s: seq<int>, size: nat, count: nat, random: seq<nat>, start: nat)
    requires |s| >= size > 0 && count > 0 && start <= |random|
    ensures var k := FirstOther(s[|s| - 1], Before(s), size, random[start..]);
            Pad(s, size, count, random[start..])
              == if k < |random| - start then
                   Pad(s + [random[start + k] % size], size, count - 1, random[start + k + 1..])
                 else Waiting
  {
    var k := FirstOther(s[|s| - 1], Before(s), size, random[start..]);
    if k < |random| - start {
      assert random[start..][k + 1..] == random[start + k + 1..];
    }
  }

  lemma {:induction false} PadNothing(s: seq<int>, size: nat, random: seq<nat>)
    requires |s| >= size > 0
    ensures Pad(s, size, 0, random) == Done(s)
  {
  }

  method PadRandomly(permutation: seq<int>, size: nat, random: seq<nat>, start: nat)
    returns (padded: seq<int>, done: bool)
    requires |permutation| == size > 0 && Columns(permutation, size) && start <= |random| && size % 3 != 0
    ensures Pad(permutation, size, 3 - size % 3, random[start..]) == if done then Done(padded) else Waiting
  {
    hide Pad, FirstOther, Before;
    padded := permutation;
    var at := start;
    for i := 0 to 3 - size % 3
      invariant |padded| == size + i && Columns(padded, size) && start <= at <= |random|
      invariant Pad(permutation, size, 3 - size % 3, random[start..])
            == Pad(padded, size, 3 - size % 3 - i, random[at..])
    {
      PadOne(padded, size, 3 - size % 3 - i, random, at);
      var pick, found;
      pick, at, found := PickOther(padded, size, random, at);
      if !found {
        return padded, false;
      }
      padded := padded + [pick];
    }
    PadNothing(padded, size, random[at..]);
    done := true;
  }

  /** Swaps a random entry of the first `i` to place `i - 1`, for `i` from the size down. */
  method Shuffle(permutation: array<int>, random: seq<nat>)
    requires permutation.Length > 0 && |random| >= permutation.Length - 1
    modifies permutation
    ensures permutation[..]
          == Shuffled(old(permutation[..]), permutation.Length, ShufflePicks(random, permutation.Length))
  {
    ghost var n, was := permutation.Length, permutation[..];
    ghost var picks := ShufflePicks(random, n);
    var at := 0;
    for i := permutation.Length downto 1
      invariant at == n - i && Picks(picks[at..], i)
      invariant Shuffled(was, n, picks) == Shuffled(permutation[..], i, picks[at..])
    {
      var pick := random[at] % (i + 1);
      ghost var before := permutation[..];
      permutation[pick], permutation[i] := permutation[i], permutation[pick];
      assert permutation[..] == Swapped(before, pick, i);
      assert picks[at..][0] == pick && picks[at..][1..] == picks[at + 1..];
      at := at + 1;
    }
  }

  lemma {:induction false} IdentityPermutes(size: nat)
    ensures Permutes(Identity(size), size)
  {
  }

  /** The entries behind an ordered permutation: `size - 2` and `size - 3`, or the latter alone. */
  method PadOrdered(permutation: seq<int>, size: nat) returns (padded: seq<int>)
    requires size % 3 != 0
    ensures padded == permutation + OrderedPadding(size)
  {
    padded := permutation;
    for i := 3 - size % 3 downto 0
      invariant padded == permutation + OrderedPadding(size)[..3 - size % 3 - i]
    {
      padded := padded + [size - 4 + (i + 1)];
    }
  }

  method ShuffledColumns(size: nat, random: seq<nat>) returns (columns: seq<int>)
    requires size > 0 && |random| >= size - 1
    ensures columns == Shuffled(Identity(size), size, ShufflePicks(random, size)) && Permutes(columns, size)
  {
    var permutation := new int[size](i => i);
    assert permutation[..] == Identity(size);
    Shuffle(permutation, random);
    columns := permutation[..];
    IdentityPermutes(size);
    ShuffleKeeps(Identity(size), size, ShufflePicks(random, size), size);
  }

  method ColumnPermutation(size: nat, ordered: bool, random: seq<nat>) returns (columns: seq<int>, done: bool)
    ensures Result(size, ordered, random) == if done then Done(columns) else Waiting
  {
    hide Pad, Shuffled, ShufflePicks;
    columns, done := seq(size, i => i), true;
    if ordered {
      if size % 3 != 0 {
        columns := PadOrdered(columns, size);
      }
      return;
    }
    if size == 0 {
      return;
    }
    if |random| < size - 1 {
      return columns, false;
    }
    columns := ShuffledColumns(size, random);
    if size % 3 != 0 {
      columns, done := PadRandomly(columns, size, random, size - 1);
    } else {
      NoPadding(columns, size, random[size - 1..]);
    }
  }

  lemma {:induction false} NoPadding(s: seq<int>, size: nat, random: seq<nat>)
    requires |s| >= size > 0
    ensures Pad(s, size, 0, random) == Done(s)
  {
  }

  // ----- what it guarantees -----

  lemma {:induction false} PadKeepsColumns(s: seq<int>, size: nat, count: nat, random: seq<nat>)
    requires |s| >= size > 0 && Columns(s, size) && Pad(s, size, count, random).Done?
    ensures var t := Pad(s, size, count, random).columns;
            && |t| == |s| + count && Columns(t, size) && t[..|s|] == s
            && (|s| > 1 ==> forall i :: |s| <= i < |t| ==> t[i] != t[i - 1] && t[i] != t[i - 2])
    decreases count
  {
    hide FirstOther, Pad;
    if count == 0 {
      NoPadding(s, size, random);
    } else {
      var a, b := s[|s| - 1], Before(s);
      var k := FirstOther(a, b, size, random);
      PadNext(s, size, count, random);
      var next := s + [random[k] % size];
      PadKeepsColumns(next, size, count - 1, random[k + 1..]);
      OneEarlier(s, random[k] % size, Pad(s, size, count, random).columns);
    }
  }

  lemma {:induction false} PadNext(s: seq<int>, size: nat, count: nat, random: seq<nat>)
    requires |s| >= size > 0 && count > 0 && Pad(s, size, count, random).Done?
    ensures var k := FirstOther(s[|s| - 1], Before(s), size, random);
            k < |random| && Pad(s, size, count, random) == Pad(s + [random[k] % size], size, count - 1, random[k + 1..])
  {
  }

  lemma {:induction false} OneEarlier(s: seq<int>, x: int, t: seq<int>)
    requires |s| > 0 && |t| > |s| && t[..|s| + 1] == s + [x] && x != s[|s| - 1] && x != Before(s)
    requires forall i :: |s| + 1 <= i < |t| ==> t[i] != t[i - 1] && t[i] != t[i - 2]
    ensures t[..|s|] == s
    ensures |s| > 1 ==> forall i :: |s| <= i < |t| ==> t[i] != t[i - 1] && t[i] != t[i - 2]
  {
    assert t[..|s|] == t[..|s| + 1][..|s|] == s;
    assert t[|s|] == t[..|s| + 1][|s|] == x && t[|s| - 1] == t[..|s| + 1][|s| - 1] == s[|s| - 1];
    assert |s| > 1 ==> t[|s| - 2] == t[..|s| + 1][|s| - 2] == s[|s| - 2];
  }

  /** Whatever the random numbers, the list is a permutation padded to a multiple of three with
      columns that make every triplet distinct. */
  lemma {:induction false} AlwaysPadded(size: nat, ordered: bool, random: seq<nat>)
    requires size >= 3 && Result(size, ordered, random).Done?
    ensures Padded(Result(size, ordered, random).columns, size)
  {
    var t := Result(size, ordered, random).columns;
    IdentityPermutes(size);
    if ordered {
      assert t[..size] == Identity(size);
      OrderedTriplets(size);
    } else {
      var s := Shuffled(Identity(size), size, ShufflePicks(random, size));
      ShuffleKeeps(Identity(size), size, ShufflePicks(random, size), size);
      PadKeepsColumns(s, size, RoundUp3(size) - size, random[size - 1..]);
      TripletsOf(t, size);
    }
  }

  lemma {:induction false} OrderedTriplets(size: nat)
    requires size >= 3
    ensures var t := Identity(size) + OrderedPadding(size);
            |t| == RoundUp3(size) && Columns(t, size) && DistinctTriplets(t)
  {
    var t := Identity(size) + OrderedPadding(size);
    assert forall i :: 0 <= i < size ==> t[i] == i;
    assert t[size..] == OrderedPadding(size);
  }

  /** A permutation with distinct neighbours behind it has distinct triplets. */
  lemma {:induction false} TripletsOf(t: seq<int>, size: nat)
    requires size >= 3 && |t| == RoundUp3(size) && Permutes(t[..size], size)
    requires forall i :: size <= i < |t| ==> t[i] != t[i - 1] && t[i] != t[i - 2]
    ensures DistinctTriplets(t)
  {
    forall j | 0 <= j < |t| / 3
      ensures t[3 * j] != t[3 * j + 1] && t[3 * j] != t[3 * j + 2] && t[3 * j + 1] != t[3 * j + 2]
    {
      var i := 3 * j;
      assert i < size ==> t[..size][i] == t[i];
      assert i + 1 < size ==> t[..size][i + 1] == t[i + 1];
      assert i + 2 < size ==> t[..size][i + 2] == t[i + 2];
    }
  }

  lemma {:induction false} FirstOtherIs(a: int, b: int, size: nat, random: seq<nat>, k: nat)
    requires size > 0 && k <= |random|
    requires forall j :: 0 <= j < k ==> random[j] % size == a || random[j] % size == b
    requires k < |random| ==> random[k] % size != a && random[k] % size != b
    ensures FirstOther(a, b, size, random) == k
  {
    var m := FirstOther(a, b, size, random);
    if m < k || k < m {
      assert false;
    }
  }

  /** One or two columns: the shuffled list never gets its padding, whatever is drawn. */
  lemma {:induction false} SmallNeverEnds(size: nat, random: seq<nat>)
    requires 0 < size < 3
    ensures Result(size, false, random) == Waiting
  {
    if |random| >= size - 1 {
      var s := Shuffled(Identity(size), size, ShufflePicks(random, size));
      IdentityPermutes(size);
      ShuffleKeeps(Identity(size), size, ShufflePicks(random, size), size);
      var a, b := s[|s| - 1], Before(s);
      var rest := random[size - 1..];
      FirstOtherIs(a, b, size, rest, |rest|);
    }
  }

  /** One or two columns in order: the padding is negative, which is no column. */
  lemma {:induction false} SmallOrdered(size: nat, random: seq<nat>)
    requires 0 < size < 3
    ensures Result(size, true, random).Done? && !Columns(Result(size, true, random).columns, size)
  {
    var t := Result(size, true, random).columns;
    assert t[size] < 0;
  }

  lemma {:induction false} FirstOtherStable(a: int, b: int, size: nat, random: seq<nat>, more: seq<nat>)
    requires size > 0 && FirstOther(a, b, size, random) < |random|
    ensures FirstOther(a, b, size, random + more) == FirstOther(a, b, size, random)
  {
    FirstOtherIs(a, b, size, random + more, FirstOther(a, b, size, random));
  }

  /** Nothing acceptable so far, and `p` is drawn next. */
  lemma {:induction false} FirstOtherNext(a: int, b: int, size: nat, random: seq<nat>, p: nat, more: seq<nat>)
    requires size > 0 && Other(p, a, b, size) && FirstOther(a, b, size, random) == |random|
    ensures FirstOther(a, b, size, random + ([p] + more)) == |random|
  {
    hide FirstOther;
    var all := random + ([p] + more);
    assert all[|random|] == p && p % size == p;
    FirstOtherIs(a, b, size, all, |random|);
  }

  lemma {:induction false} PadStep(s: seq<int>, size: nat, count: nat, random: seq<nat>, k: nat)
    requires |s| >= size >= 3 && count > 0 && k < |random| && FirstOther(s[|s| - 1], s[|s| - 2], size, random) == k
    ensures Pad(s, size, count, random) == Pad(s + [random[k] % size], size, count - 1, random[k + 1..])
  {
  }

  lemma {:induction false} AnotherPick(s: seq<int>, size: nat, p: int)
    requires |s| >= size >= 3 && Columns(s, size) && Other(p, s[|s| - 1], s[|s| - 2], size)
    ensures var t := s + [p]; Columns(t, size) && t[|t| - 1] != t[|t| - 2]
  {
  }

  /** The next acceptable pick was already drawn. */
  lemma {:induction false} PadAlready(s: seq<int>, size: nat, count: nat, random: seq<nat>, more: seq<nat>)
    requires |s| >= size >= 3 && count > 0
    requires var k := FirstOther(s[|s| - 1], s[|s| - 2], size, random);
             k < |random| && Pad(s + [random[k] % size], size, count - 1, random[k + 1..] + more).Done?
    ensures Pad(s, size, count, random + more).Done?
  {
    hide Pad, FirstOther;
    var k := FirstOther(s[|s| - 1], s[|s| - 2], size, random);
    FirstOtherStable(s[|s| - 1], s[|s| - 2], size, random, more);
    PadStep(s, size, count, random + more, k);
    assert (random + more)[k + 1..] == random[k + 1..] + more;
  }

  /** `p` is drawn next. */
  lemma {:induction false} PadNow(s: seq<int>, size: nat, count: nat, random: seq<nat>, p: nat, rest: seq<nat>)
    requires |s| >= size >= 3 && count > 0 && Other(p, s[|s| - 1], s[|s| - 2], size)
    requires FirstOther(s[|s| - 1], s[|s| - 2], size, random) == |random|
    requires Pad(s + [p], size, count - 1, [] + rest).Done?
    ensures Pad(s, size, count, random + ([p] + rest)).Done?
  {
    hide Pad, FirstOther;
    var all := random + ([p] + rest);
    FirstOtherNext(s[|s| - 1], s[|s| - 2], size, random, p, rest);
    PadStep(s, size, count, all, |random|);
    assert all[|random|] % size == p;
    assert all[|random| + 1..] == [] + rest;
  }

  /** With three columns or more the padding can always be completed, whatever was drawn before. */
  lemma {:induction false} PadCanEnd(s: seq<int>, size: nat, count: nat, random: seq<nat>) returns (more: seq<nat>)
    requires |s| >= size >= 3 && Columns(s, size) && s[|s| - 1] != s[|s| - 2]
    ensures Pad(s, size, count, random + more).Done?
    decreases count
  {
    hide Pad, FirstOther, Columns;
    if count == 0 {
      more := [];
      NoPadding(s, size, random + more);
    } else {
      var a, b := s[|s| - 1], s[|s| - 2];
      var k := FirstOther(a, b, size, random);
      if k < |random| {
        AnotherPick(s, size, random[k] % size);
        more := PadCanEnd(s + [random[k] % size], size, count - 1, random[k + 1..]);
        PadAlready(s, size, count, random, more);
      } else {
        LastTwo(s, size);
        ThirdColumn(a, b, size);
        var p: nat :| Other(p, a, b, size);
        AnotherPick(s, size, p);
        var rest := PadCanEnd(s + [p], size, count - 1, []);
        more := [p] + rest;
        PadNow(s, size, count, random, p, rest);
      }
    }
  }

  lemma {:induction false} LastTwo(s: seq<int>, size: nat)
    requires |s| >= 2 && Columns(s, size)
    ensures 0 <= s[|s| - 1] < size && 0 <= s[|s| - 2] < size
  {
  }

  lemma {:induction false} DistinctLast(s: seq<int>)
    requires Distinct(s) && |s| >= 2
    ensures s[|s| - 1] != s[|s| - 2]
  {
  }

  /** With three columns or more, the shuffled list can always still be completed. */
  lemma {:induction false} ShuffledCanEnd(size: nat, random: seq<nat>) returns (more: seq<nat>)
    requires size >= 3
    ensures Result(size, false, random + more).Done?
  {
    hide Pad, Shuffled;
    var zeros: seq<nat> := seq(if |random| < size - 1 then size - 1 - |random| else 0, _ => 0);
    var all := random + zeros;
    var s := Shuffled(Identity(size), size, ShufflePicks(all, size));
    IdentityPermutes(size);
    ShuffleKeeps(Identity(size), size, ShufflePicks(all, size), size);
    DistinctLast(s);
    var rest := PadCanEnd(s, size, RoundUp3(size) - size, all[size - 1..]);
    more := zeros + rest;
    assert random + more == all + rest;
    assert (all + rest)[size - 1..] == all[size - 1..] + rest;
    assert ShufflePicks(all + rest, size) == ShufflePicks(all, size);
  }

  // ----- what exactly comes out -----

  /** Ordered: the columns as they are, and behind them `size - 2` and `size - 3`, or `size - 3` alone, or nothing. */
  lemma {:induction false} OrderedIs(size: nat, random: seq<nat>)
    ensures Result(size, true, random).Done?
    ensures var columns := Result(size, true, random).columns;
            && |columns| >= size && (forall i :: 0 <= i < size ==> columns[i] == i)
            && (size % 3 == 0 ==> |columns| == size)
            && (size % 3 == 1 ==> |columns| == size + 2 && columns[size] == size - 2 && columns[size + 1] == size - 3)
            && (size % 3 == 2 ==> |columns| == size + 1 && columns[size] == size - 3)
  {
  }

  /** Shuffled: every order comes out for some random numbers. */
  lemma {:induction false} EveryOrderIsDrawn(size: nat, order: seq<int>) returns (random: seq<nat>)
    requires size >= 3 && Permutes(order, size)
    ensures var o := Result(size, false, random); o.Done? && |o.columns| >= size && o.columns[..size] == order
  {
    hide Shuffled, Result, Pad, ShufflePicks;
    var picks := PicksOf(size, order);
    var more := ShuffledCanEnd(size, picks);
    random := picks + more;
    DrawnFirst(picks, more, size);
    PicksAreDrawn(picks, size);
    ResultIs(size, random);
    PadKeepsColumns(order, size, RoundUp3(size) - size, random[size - 1..]);
  }

  lemma {:induction false} PicksOf(size: nat, order: seq<int>) returns (picks: seq<nat>)
    requires size > 0 && Permutes(order, size)
    ensures Picks(picks, size) && Shuffled(Identity(size), size, picks) == order
  {
    forall i | 0 <= i < size
      ensures order[i] in Identity(size)[..size]
    {
      assert Identity(size)[..size][order[i]] == order[i];
    }
    picks := ShuffleReaches(Identity(size), order, size);
  }

  lemma {:induction false} ResultIs(size: nat, random: seq<nat>)
    requires size > 0 && |random| >= size - 1
    ensures Result(size, false, random)
         == Pad(Shuffled(Identity(size), size, ShufflePicks(random, size)), size, RoundUp3(size) - size,
                random[size - 1..])
  {
    hide Shuffled, Pad;
  }

  lemma {:induction false} PicksAreDrawn(picks: seq<nat>, size: nat)
    requires size > 0 && Picks(picks, size)
    ensures ShufflePicks(picks, size) == picks
  {
  }

  lemma {:induction false} DrawnFirst(random: seq<nat>, more: seq<nat>, size: nat)
    requires size > 0 && |random| == size - 1
    ensures ShufflePicks(random + more, size) == ShufflePicks(random, size)
  {
  }
}
