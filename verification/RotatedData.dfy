/** Rotating whole records by a column permutation, and what stays the same (rotpert.go, `RotateData3D`). */
module RotatedData {
  import opened Permutations
  import opened Rotation

  /** The three columns of group `g`. */
  function Triple(row: seq<real>, columns: seq<int>, g: nat): (t: seq<real>)
    requires Columns(columns, |row|) && 3 * g + 2 < |columns|
    ensures |t| == 3
  {
    [row[columns[3 * g]], row[columns[3 * g + 1]], row[columns[3 * g + 2]]]
  }

  /** `out` after the first `n` positions were written; positions behind the last column write nothing. */
  function Written(row: seq<real>, m: Matrix, columns: seq<int>, n: nat): (out: seq<real>)
    requires Columns(columns, |row|) && |columns| % 3 == 0 && n <= |columns|
    ensures |out| == |row|
  {
    if n == 0 then seq(|row|, _ => 0.0)
    else
      var p := n - 1;
      var out := Written(row, m, columns, p);
      if p < |row| then out[columns[p] := Rotated(m, Triple(row, columns, p / 3))[p % 3]] else out
  }

  lemma {:induction false} NextWritten(row: seq<real>, m: Matrix, columns: seq<int>, g: nat, k: nat)
    requires Columns(columns, |row|) && |columns| % 3 == 0 && k < 3 && 3 * g + 2 < |columns|
    ensures var p := 3 * g + k; var out := Written(row, m, columns, p);
            Written(row, m, columns, p + 1)
                  == if p < |row| then out[columns[p] := Rotated(m, Triple(row, columns, g))[k]] else out
  {
    assert (3 * g + k) / 3 == g && (3 * g + k) % 3 == k;
  }

  /** Rotates one group and writes its columns that exist. */
  method RotateGroup(rotatedRow: array<real>, row: seq<real>, m: Matrix, columns: seq<int>, j: nat, ghost g: nat)
    requires rotatedRow.Length == |row| && Columns(columns, |row|) && |columns| % 3 == 0 && j == 3 * g
          && j + 2 < |columns|
    requires rotatedRow[..] == Written(row, m, columns, j)
    modifies rotatedRow
    ensures rotatedRow[..] == Written(row, m, columns, j + 3)
  {
    hide Rotated, Written;
    var rotated := RotateVector3D(m, [row[columns[j]], row[columns[j + 1]], row[columns[j + 2]]]);
    for k := 0 to 3
      invariant rotatedRow[..] == Written(row, m, columns, j + k)
    {
      NextWritten(row, m, columns, g, k);
      ghost var before := rotatedRow[..];
      if j + k < |row| {
        rotatedRow[columns[j + k]] := rotated[k];
        assert rotatedRow[..] == before[columns[j + k] := rotated[k]];
      }
    }
  }

  method RotateRow(row: seq<real>, m: Matrix, columns: seq<int>) returns (out: seq<real>)
    requires Columns(columns, |row|) && |columns| % 3 == 0
    ensures out == Written(row, m, columns, |columns|)
  {
    hide Rotated, Triple;
    var rotatedRow := new real[|row|](_ => 0.0);
    var j := 0;
    while j < |columns|
      invariant 0 <= j <= |columns| && j % 3 == 0 && rotatedRow[..] == Written(row, m, columns, j)
    {
      RotateGroup(rotatedRow, row, m, columns, j, j / 3);
      j := j + 3;
    }
    out := rotatedRow[..];
  }

  method RotateData3D(data: seq<seq<real>>, m: Matrix, columns: seq<int>) returns (rotatedData: seq<seq<real>>)
    requires |columns| % 3 == 0 && forall i :: 0 <= i < |data| ==> Columns(columns, |data[i]|)
    ensures |rotatedData| == |data|
    ensures forall i :: 0 <= i < |data| ==> rotatedData[i] == Written(data[i], m, columns, |columns|)
  {
    rotatedData := [];
    for i := 0 to |data|
      invariant |rotatedData| == i
      invariant forall k :: 0 <= k < i ==> rotatedData[k] == Written(data[k], m, columns, |columns|)
    {
      var row := RotateRow(data[i], m, columns);
      rotatedData := rotatedData + [row];
    }
  }

  // ----- every column exactly once -----

  lemma {:induction false} WrittenAt(row: seq<real>, m: Matrix, columns: seq<int>, n: nat, p: nat)
    requires Columns(columns, |row|) && |columns| % 3 == 0 && p < n <= |columns| && p < |row| <= |columns|
    requires Distinct(columns[..|row|])
    ensures Written(row, m, columns, n)[columns[p]] == Rotated(m, Triple(row, columns, p / 3))[p % 3]
    decreases n
  {
    if p < n - 1 {
      WrittenAt(row, m, columns, n - 1, p);
      assert n - 1 < |row| ==> columns[..|row|][p] == columns[p] && columns[..|row|][n - 1] == columns[n - 1];
    }
  }

  /** The positions behind the last column, which only fill up the last group, write nothing. */
  lemma {:induction false} PaddingWritesNothing(row: seq<real>, m: Matrix, columns: seq<int>, n: nat)
    requires Columns(columns, |row|) && |columns| % 3 == 0 && |row| <= n <= |columns|
    ensures Written(row, m, columns, n) == Written(row, m, columns, |row|)
    decreases n
  {
    if n > |row| {
      PaddingWritesNothing(row, m, columns, n - 1);
    }
  }

  /** Every column of the row is written exactly once, at the only position that names it, with its
      coordinate of the rotated group that the position belongs to. */
  lemma {:induction false} EveryColumnOnce(row: seq<real>, m: Matrix, columns: seq<int>, c: nat) returns (p: nat)
    requires Padded(columns, |row|) && c < |row|
    ensures p < |row| && columns[p] == c && forall q :: 0 <= q < |row| && columns[q] == c ==> q == p
    ensures Written(row, m, columns, |columns|)[c] == Rotated(m, Triple(row, columns, p / 3))[p % 3]
    ensures Written(row, m, columns, |columns|) == Written(row, m, columns, |row|)
  {
    hide Written, Rotated;
    p := PlaceOf(columns, |row|, c);
    WrittenAt(row, m, columns, |columns|, p);
    PaddingWritesNothing(row, m, columns, |columns|);
    forall q | 0 <= q < |row| && columns[q] == c
      ensures q == p
    {
      var front := columns[..|row|];
      assert front[q] == front[p];
    }
  }

  // ----- sums over the columns -----

  function SumOver(f: seq<real>, columns: seq<int>): (s: real)
    requires Columns(columns, |f|)
  {
    if columns == [] then 0.0
    else SumOver(f, columns[..|columns| - 1]) + f[columns[|columns| - 1]]
  }

  lemma {:induction false} SumWithout(f: seq<real>, columns: seq<int>, i: nat)
    requires Columns(columns, |f|) && i < |columns|
    ensures SumOver(f, columns) == SumOver(f, columns[..i] + columns[i + 1..]) + f[columns[i]]
    decreases |columns|
  {
    var last := |columns| - 1;
    if i < last {
      SumWithout(f, columns[..last], i);
      var rest := columns[..i] + columns[i + 1..];
      assert rest[..|rest| - 1] == columns[..last][..i] + columns[..last][i + 1..];
    } else {
      assert columns[..i] + columns[i + 1..] == columns[..last];
    }
  }

  /** The order of the columns does not matter. */
  lemma {:induction false} SumPermuted(f: seq<real>, s: seq<int>, t: seq<int>)
    requires Columns(s, |f|) && Columns(t, |f|) && multiset(s) == multiset(t)
    ensures SumOver(f, s) == SumOver(f, t)
    decreases |t|
  {
    if t == [] {
      assert |multiset(s)| == 0;
      assert s == [];
    } else {
      hide SumOver;
      var t' := t[..|t| - 1];
      var i := Find(s, t);
      var s' := s[..i] + s[i + 1..];
      RemoveOne(s, i);
      RemoveOne(t, |t| - 1);
      assert t' + t[|t| - 1 + 1..] == t';
      SumWithout(f, s, i);
      SumWithout(f, t, |t| - 1);
      SumPermuted(f, s', t');
    }
  }

  lemma {:induction false} Find(s: seq<int>, t: seq<int>) returns (i: nat)
    requires multiset(s) == multiset(t) && t != []
    ensures i < |s| && s[i] == t[|t| - 1]
  {
    var x := t[|t| - 1];
    assert x in multiset(t);
    assert x in s;
    i :| 0 <= i < |s| && s[i] == x;
  }

  lemma {:induction false} RemoveOne(s: seq<int>, i: nat)
    requires i < |s|
    ensures multiset(s[..i] + s[i + 1..]) == multiset(s) - multiset{s[i]}
  {
    assert s == s[..i] + [s[i]] + s[i + 1..];
  }

  lemma {:induction false} DistinctCount(s: seq<int>, x: int)
    requires Distinct(s)
    ensures multiset(s)[x] == if x in s then 1 else 0
  {
    if s != [] {
      DistinctCount(s[..|s| - 1], x);
      assert s == s[..|s| - 1] + [s[|s| - 1]];
    }
  }

  function Elements(s: seq<int>): (e: set<int>) {
    set x | x in s
  }

  lemma {:induction false} DistinctElements(s: seq<int>)
    requires Distinct(s)
    ensures |Elements(s)| == |s|
  {
    if s != [] {
      var init, last := s[..|s| - 1], s[|s| - 1];
      DistinctElements(init);
      assert Elements(s) == Elements(init) + {last};
    }
  }

  lemma {:induction false} SubsetAll(a: set<int>, b: set<int>)
    requires a <= b && |a| == |b|
    ensures a == b
  {
    assert |b - a| == 0;
  }

  /** A permutation misses no column. */
  lemma {:induction false} PermutesAll(s: seq<int>, n: nat)
    requires Permutes(s, n)
    ensures multiset(s) == multiset(Identity(n))
  {
    IdentityPermutes(n);
    var id := Identity(n);
    DistinctElements(s);
    DistinctElements(id);
    forall x | x in Elements(s)
      ensures x in Elements(id)
    {
      assert id[x] == x;
    }
    SubsetAll(Elements(s), Elements(id));
    forall x
      ensures multiset(s)[x] == multiset(id)[x]
    {
      DistinctCount(s, x);
      DistinctCount(id, x);
      assert x in s <==> x in Elements(s);
      assert x in id <==> x in Elements(id);
    }
  }

  // ----- distances -----

  /** The squared differences, column by column. */
  function Squares(u: seq<real>, v: seq<real>): (f: seq<real>)
    requires |u| == |v|
    ensures |f| == |u|
  {
    seq(|u|, c requires 0 <= c < |u| => (u[c] - v[c]) * (u[c] - v[c]))
  }

  /** The squared distance of two records. */
  function SquaredDistance(u: seq<real>, v: seq<real>): (d: real)
    requires |u| == |v|
  {
    IdentityPermutes(|u|);
    SumOver(Squares(u, v), Identity(|u|))
  }

  /** What the columns of group `g` add to the squared distance. */
  function GroupDistance(u: seq<real>, v: seq<real>, columns: seq<int>, g: nat): (d: real)
    requires |u| == |v| && Columns(columns, |u|) && 3 * g + 2 < |columns|
  {
    SquareLength(Minus(Triple(u, columns, g), Triple(v, columns, g)))
  }

  lemma {:induction false} SumOfGroup(u: seq<real>, v: seq<real>, columns: seq<int>, g: nat)
    requires |u| == |v| && Columns(columns, |u|) && 3 * g + 2 < |columns|
    ensures SumOver(Squares(u, v), columns[..3 * g + 3])
         == SumOver(Squares(u, v), columns[..3 * g]) + GroupDistance(u, v, columns, g)
  {
    var f, p := Squares(u, v), 3 * g;
    assert columns[..p + 1][..p] == columns[..p];
    assert columns[..p + 2][..p + 1] == columns[..p + 1];
    assert columns[..p + 3][..p + 2] == columns[..p + 2];
    assert SumOver(f, columns[..p + 1]) == SumOver(f, columns[..p]) + f[columns[p]];
    assert SumOver(f, columns[..p + 2]) == SumOver(f, columns[..p + 1]) + f[columns[p + 1]];
    assert SumOver(f, columns[..p + 3]) == SumOver(f, columns[..p + 2]) + f[columns[p + 2]];
  }

  /** The columns of a complete group hold the rotated triple. */
  lemma {:induction false} GroupIsRotated(row: seq<real>, m: Matrix, columns: seq<int>, g: nat)
    requires Padded(columns, |row|) && 3 * g + 2 < |row|
    ensures Triple(Written(row, m, columns, |columns|), columns, g) == Rotated(m, Triple(row, columns, g))
  {
    hide Rotated, Written;
    WrittenAt(row, m, columns, |columns|, 3 * g);
    WrittenAt(row, m, columns, |columns|, 3 * g + 1);
    WrittenAt(row, m, columns, |columns|, 3 * g + 2);
    assert (3 * g + 1) / 3 == g && (3 * g + 1) % 3 == 1 && (3 * g + 2) / 3 == g && (3 * g + 2) % 3 == 2;
  }

  lemma {:induction false} GroupKept(u: seq<real>, v: seq<real>, m: Matrix, columns: seq<int>, g: nat)
    requires |u| == |v| && Padded(columns, |u|) && 3 * g + 2 < |u| && Orthogonal(m)
    ensures var n := |columns|;
            GroupDistance(Written(u, m, columns, n), Written(v, m, columns, n), columns, g)
                  == GroupDistance(u, v, columns, g)
  {
    hide Rotated, Written, Triple, SquareLength;
    GroupIsRotated(u, m, columns, g);
    GroupIsRotated(v, m, columns, g);
    RotatedMinus(m, Triple(u, columns, g), Triple(v, columns, g));
    KeepsLength(m, Minus(Triple(u, columns, g), Triple(v, columns, g)));
  }

  /** Over the first `n` groups, as long as they are complete, the squared distance stays. */
  lemma {:induction false} GroupsKept(u: seq<real>, v: seq<real>, m: Matrix, columns: seq<int>, n: nat)
    requires |u| == |v| && Padded(columns, |u|) && 3 * n <= |u| && Orthogonal(m)
    ensures SumOver(Squares(Written(u, m, columns, |columns|), Written(v, m, columns, |columns|)), columns[..3 * n])
         == SumOver(Squares(u, v), columns[..3 * n])
  {
    if n > 0 {
      hide Written, GroupDistance, Squares;
      var u', v' := Written(u, m, columns, |columns|), Written(v, m, columns, |columns|);
      GroupsKept(u, v, m, columns, n - 1);
      GroupKept(u, v, m, columns, n - 1);
      SumOfGroup(u, v, columns, n - 1);
      SumOfGroup(u', v', columns, n - 1);
    }
  }

  /** With a multiple of three columns, rotating keeps the distance of any two records. */
  lemma {:induction false} DistancesKept(u: seq<real>, v: seq<real>, m: Matrix, columns: seq<int>)
    requires |u| == |v| && |u| % 3 == 0 && Padded(columns, |u|) && Orthogonal(m)
    ensures var n := |columns|;
            SquaredDistance(Written(u, m, columns, n), Written(v, m, columns, n)) == SquaredDistance(u, v)
  {
    hide Written, Squares;
    var u', v' := Written(u, m, columns, |columns|), Written(v, m, columns, |columns|);
    GroupsKept(u, v, m, columns, |u| / 3);
    assert columns[..3 * (|u| / 3)] == columns[..|u|] == columns;
    IdentityPermutes(|u|);
    PermutesAll(columns, |u|);
    SumPermuted(Squares(u, v), columns, Identity(|u|));
    SumPermuted(Squares(u', v'), columns, Identity(|u|));
  }

  // ----- when the last group is incomplete -----

  function Zero(n: nat): (v: seq<real>)
    ensures |v| == n
  {
    seq(n, _ => 0.0)
  }

  function Unit(n: nat, c: int): (v: seq<real>)
    ensures |v| == n
  {
    seq(n, i => if i == c then 1.0 else 0.0)
  }

  /** A quarter turn: the first two coordinates do not depend on the first. */
  lemma {:induction false} QuarterTurn(v: seq<real>)
    requires |v| == 3
    ensures var m := RotationMatrixXZ(1.0, 0.0);
            IsRotation(m) && Rotated(m, v)[0] == -v[1] && Rotated(m, v)[1] == -v[2] && Rotated(m, v)[2] == v[0]
  {
    hide Dot, IsRotation;
    var m := RotationMatrixXZ(1.0, 0.0);
    XZIsRotation(1.0, 0.0);
    assert m[0] == [0.0, -1.0, 0.0] && m[1] == [0.0, 0.0, -1.0] && m[2] == [1.0, 0.0, 0.0];
    DotThree([0.0, -1.0, 0.0], v);
    DotThree([0.0, 0.0, -1.0], v);
    DotThree([1.0, 0.0, 0.0], v);
  }

  /** The first column of an incomplete group, rotated by a quarter turn, is lost. */
  lemma {:induction false} UnitIsLost(columns: seq<int>, n: nat)
    requires Padded(columns, n) && n >= 3 && n % 3 != 0
    ensures var m := RotationMatrixXZ(1.0, 0.0);
            Written(Unit(n, columns[n / 3 * 3]), m, columns, |columns|) == Zero(n)
  {
    var m, a := RotationMatrixXZ(1.0, 0.0), columns[n / 3 * 3];
    var u := Unit(n, a);
    var out := Written(u, m, columns, |columns|);
    forall c | 0 <= c < n
      ensures out[c] == 0.0
    {
      var p := PlaceOf(columns, n, c);
      WrittenAt(u, m, columns, |columns|, p);
      UnitTriple(columns, n, p);
    }
  }

  lemma {:induction false} PlaceOf(columns: seq<int>, n: nat, c: nat) returns (p: nat)
    requires Padded(columns, n) && c < n
    ensures p < n && columns[p] == c
  {
    PermutesAll(columns[..n], n);
    assert Identity(n)[c] == c;
    assert c in multiset(Identity(n));
    assert c in columns[..n];
    p :| 0 <= p < n && columns[..n][p] == c;
  }

  /** No other position of a complete group, and none of its own group, names the first column of
      the incomplete group. */
  lemma {:induction false} OnlyThere(columns: seq<int>, n: nat, q: nat)
    requires Padded(columns, n) && n >= 3 && n % 3 != 0 && q < |columns| && q != n / 3 * 3
    ensures columns[q] != columns[n / 3 * 3]
  {
    var last := n / 3 * 3;
    if q < n {
      assert columns[..n][q] != columns[..n][last];
    } else {
      var g := n / 3;
      assert DistinctTriplets(columns) && g < |columns| / 3;
      assert columns[3 * g] != columns[3 * g + 1] && columns[3 * g] != columns[3 * g + 2];
    }
  }

  lemma {:induction false} UnitTriple(columns: seq<int>, n: nat, p: nat)
    requires Padded(columns, n) && n >= 3 && n % 3 != 0 && p < n
    ensures var u := Unit(n, columns[n / 3 * 3]);
            Rotated(RotationMatrixXZ(1.0, 0.0), Triple(u, columns, p / 3))[p % 3] == 0.0
  {
    hide Rotated, Padded, RotationMatrixXZ, IsRotation;
    var g := p / 3;
    assert Columns(columns, n) && |columns| == RoundUp3(n) by { PaddedMeans(columns, n); }
    OnlyThere(columns, n, 3 * g + 1);
    OnlyThere(columns, n, 3 * g + 2);
    if p % 3 == 2 {
      OnlyThere(columns, n, 3 * g);
    }
    QuarterTurn(Triple(Unit(n, columns[n / 3 * 3]), columns, g));
  }

  lemma {:induction false} PaddedMeans(columns: seq<int>, n: nat)
    requires Padded(columns, n)
    ensures Columns(columns, n) && |columns| == RoundUp3(n)
  {
  }

  lemma {:induction false} SumOfZeros(f: seq<real>, columns: seq<int>)
    requires Columns(columns, |f|) && forall c :: 0 <= c < |f| ==> f[c] == 0.0
    ensures SumOver(f, columns) == 0.0
    decreases |columns|
  {
    if columns != [] {
      SumOfZeros(f, columns[..|columns| - 1]);
    }
  }

  lemma {:induction false} UnitDistance(n: nat, a: nat)
    requires a < n
    ensures SquaredDistance(Zero(n), Unit(n, a)) == 1.0 && SquaredDistance(Zero(n), Zero(n)) == 0.0
  {
    IdentityPermutes(n);
    var id, f := Identity(n), Squares(Zero(n), Unit(n, a));
    SumWithout(f, id, a);
    SumUnhit(f, id[..a] + id[a + 1..], a);
    SumOfZeros(Squares(Zero(n), Zero(n)), id);
  }

  lemma {:induction false} SumUnhit(f: seq<real>, columns: seq<int>, a: nat)
    requires Columns(columns, |f|) && a !in columns && forall c :: 0 <= c < |f| && c != a ==> f[c] == 0.0
    ensures SumOver(f, columns) == 0.0
    decreases |columns|
  {
    if columns != [] {
      SumUnhit(f, columns[..|columns| - 1], a);
    }
  }

  ghost predicate KeepsDistance(columns: seq<int>, m: Matrix, u: seq<real>, v: seq<real>)
    requires |u| == |v| && Padded(columns, |u|)
  {
    SquaredDistance(Written(u, m, columns, |columns|), Written(v, m, columns, |columns|)) == SquaredDistance(u, v)
  }

  /** Every rotation keeps every distance exactly when the columns come in complete groups. */
  lemma {:induction false} DistancesKeptIff(columns: seq<int>, n: nat)
    requires n >= 3 && Padded(columns, n)
    ensures (forall m: Matrix, u, v :: IsRotation(m) && |u| == |v| == n ==> KeepsDistance(columns, m, u, v))
          <==> n % 3 == 0
  {
    if n % 3 == 0 {
      forall m: Matrix, u, v | IsRotation(m) && |u| == |v| == n
        ensures KeepsDistance(columns, m, u, v)
      {
        DistancesKept(u, v, m, columns);
      }
    } else {
      var m, a := RotationMatrixXZ(1.0, 0.0), columns[n / 3 * 3];
      XZIsRotation(1.0, 0.0);
      UnitIsLost(columns, n);
      ZeroStays(columns, n, m);
      UnitDistance(n, a);
      assert !KeepsDistance(columns, m, Zero(n), Unit(n, a));
    }
  }

  lemma {:induction false} ZeroStays(columns: seq<int>, n: nat, m: Matrix)
    requires Padded(columns, n)
    ensures Written(Zero(n), m, columns, |columns|) == Zero(n)
  {
    hide Written;
    var out := Written(Zero(n), m, columns, |columns|);
    forall c | 0 <= c < n
      ensures out[c] == 0.0
    {
      var p := PlaceOf(columns, n, c);
      WrittenAt(Zero(n), m, columns, |columns|, p);
      DotThree(m[p % 3], Triple(Zero(n), columns, p / 3));
    }
  }
}
