/** Rotating three columns at a time, over the reals (rotpert.go). The sine and cosine of the angle
    are two numbers whose squares add up to one. */
module Rotation {
  import opened Permutations

  type Matrix = m: seq<seq<real>> | |m| == 3 && |m[0]| == 3 && |m[1]| == 3 && |m[2]| == 3
    witness [[0.0, 0.0, 0.0], [0.0, 0.0, 0.0], [0.0, 0.0, 0.0]]

  function RotationMatrixXY(sinA: real, cosA: real): (m: Matrix) {
    [[cosA, 0.0, sinA],
     [sinA * sinA, cosA, -(sinA * cosA)],
     [-(sinA * cosA), sinA, cosA * cosA]]
  }

  function RotationMatrixYZ(sinA: real, cosA: real): (m: Matrix) {
    [[cosA * cosA, -(sinA * cosA), sinA],
     [sinA, cosA, 0.0],
     [-(sinA * cosA), sinA * sinA, cosA]]
  }

  function RotationMatrixXZ(sinA: real, cosA: real): (m: Matrix) {
    [[cosA, -sinA, 0.0],
     [sinA * cosA, cosA * cosA, -sinA],
     [sinA * sinA, sinA * cosA, cosA]]
  }

  // ----- orthogonal matrices -----

  function ColumnProduct(m: Matrix, a: nat, b: nat): (p: real)
    requires a < 3 && b < 3
  {
    m[0][a] * m[0][b] + m[1][a] * m[1][b] + m[2][a] * m[2][b]
  }

  /** The columns have length one and are at right angles. */
  predicate Orthogonal(m: Matrix) {
    && ColumnProduct(m, 0, 0) == 1.0 && ColumnProduct(m, 1, 1) == 1.0 && ColumnProduct(m, 2, 2) == 1.0
    && ColumnProduct(m, 0, 1) == 0.0 && ColumnProduct(m, 0, 2) == 0.0 && ColumnProduct(m, 1, 2) == 0.0
  }

  function Determinant(m: Matrix): (d: real) {
    m[0][0] * (m[1][1] * m[2][2] - m[1][2] * m[2][1])
    - m[0][1] * (m[1][0] * m[2][2] - m[1][2] * m[2][0])
    + m[0][2] * (m[1][0] * m[2][1] - m[1][1] * m[2][0])
  }

  predicate IsRotation(m: Matrix) {
    Orthogonal(m) && Determinant(m) == 1.0
  }

  /** Products of the sine `s` and cosine `c` of one angle. */
  lemma {:induction false} Trigonometry(s: real, c: real)
    requires s * s + c * c == 1.0
    ensures (s * s) * (s * s) + (s * c) * (s * c) == s * s
    ensures (c * c) * (c * c) + (s * c) * (s * c) == c * c
    ensures (s * s) * c - s * (s * c) == 0.0
    ensures s * (s * s) + c * (s * c) == s && s * (s * c) + c * (c * c) == c
    ensures (s * s) * (s * c) + (c * c) * (s * c) == s * c
  {
    assert (s * c) * (s * c) == (s * s) * (c * c);
    assert (s * s) * (s * s) + (s * s) * (c * c) == (s * s) * (s * s + c * c);
    assert (c * c) * (c * c) + (s * s) * (c * c) == (c * c) * (s * s + c * c);
    assert s * (s * s) + c * (s * c) == s * (s * s + c * c);
    assert s * (s * c) + c * (c * c) == c * (s * s + c * c);
    assert (s * s) * (s * c) + (c * c) * (s * c) == (s * c) * (s * s + c * c);
  }

  lemma {:induction false} XYIsRotation(s: real, c: real)
    requires s * s + c * c == 1.0
    ensures IsRotation(RotationMatrixXY(s, c))
  {
    Trigonometry(s, c);
  }

  lemma {:induction false} YZIsRotation(s: real, c: real)
    requires s * s + c * c == 1.0
    ensures IsRotation(RotationMatrixYZ(s, c))
  {
    Trigonometry(s, c);
  }

  lemma {:induction false} XZIsRotation(s: real, c: real)
    requires s * s + c * c == 1.0
    ensures IsRotation(RotationMatrixXZ(s, c))
  {
    Trigonometry(s, c);
  }

  // ----- one vector -----

  /** The first `n` terms of row `i` times `vec`. */
  function Dot(row: seq<real>, vec: seq<real>, n: nat): (d: real)
    requires n <= |row| && n <= |vec|
  {
    if n == 0 then 0.0 else Dot(row, vec, n - 1) + row[n - 1] * vec[n - 1]
  }

  function Rotated(m: Matrix, vec: seq<real>): (r: seq<real>)
    requires |vec| == 3
    ensures |r| == 3
  {
    [Dot(m[0], vec, 3), Dot(m[1], vec, 3), Dot(m[2], vec, 3)]
  }

  // ----- which rotations they are -----

  /** Turned about the first axis. */
  function AboutX(s: real, c: real, v: (real, real, real)): (w: (real, real, real)) {
    (v.0, c * v.1 - s * v.2, s * v.1 + c * v.2)
  }

  function AboutY(s: real, c: real, v: (real, real, real)): (w: (real, real, real)) {
    (c * v.0 + s * v.2, v.1, -(s * v.0) + c * v.2)
  }

  function AboutZ(s: real, c: real, v: (real, real, real)): (w: (real, real, real)) {
    (c * v.0 - s * v.1, s * v.0 + c * v.1, v.2)
  }

  lemma {:induction false} RotatedIs(m: Matrix, v: seq<real>)
    requires |v| == 3
    ensures forall i :: 0 <= i < 3 ==> Rotated(m, v)[i] == m[i][0] * v[0] + m[i][1] * v[1] + m[i][2] * v[2]
  {
    hide Dot;
    DotThree(m[0], v);
    DotThree(m[1], v);
    DotThree(m[2], v);
  }

  /** A coordinate that is turned again. */
  lemma {:induction false} Expand(s: real, a: real, x: real, b: real, y: real)
    ensures s * (a * x + b * y) == (s * a) * x + (s * b) * y
  {
  }

  /** The XY family turns about the second axis and then, by the same angle, about the first. */
  lemma {:induction false} XYTurns(s: real, c: real, v: seq<real>)
    requires |v| == 3
    ensures var r, w := Rotated(RotationMatrixXY(s, c), v), AboutX(s, c, AboutY(s, c, (v[0], v[1], v[2])));
            r[0] == w.0 && r[1] == w.1 && r[2] == w.2
  {
    hide Rotated;
    RotatedIs(RotationMatrixXY(s, c), v);
    Expand(s, -s, v[0], c, v[2]);
    Expand(c, -s, v[0], c, v[2]);
  }

  /** The YZ family turns about the third axis and then about the second. */
  lemma {:induction false} YZTurns(s: real, c: real, v: seq<real>)
    requires |v| == 3
    ensures var r, w := Rotated(RotationMatrixYZ(s, c), v), AboutY(s, c, AboutZ(s, c, (v[0], v[1], v[2])));
            r[0] == w.0 && r[1] == w.1 && r[2] == w.2
  {
    hide Rotated;
    RotatedIs(RotationMatrixYZ(s, c), v);
    Expand(s, c, v[0], -s, v[1]);
    Expand(c, c, v[0], -s, v[1]);
  }

  /** The XZ family turns about the third axis and then about the first. */
  lemma {:induction false} XZTurns(s: real, c: real, v: seq<real>)
    requires |v| == 3
    ensures var r, w := Rotated(RotationMatrixXZ(s, c), v), AboutX(s, c, AboutZ(s, c, (v[0], v[1], v[2])));
            r[0] == w.0 && r[1] == w.1 && r[2] == w.2
  {
    hide Rotated;
    RotatedIs(RotationMatrixXZ(s, c), v);
    Expand(s, s, v[0], c, v[1]);
    Expand(c, s, v[0], c, v[1]);
  }

  method RotateVector3D(m: Matrix, vec: seq<real>) returns (r: seq<real>)
    requires |vec| == 3
    ensures r == Rotated(m, vec)
  {
    var result := new real[3](_ => 0.0);
    for i := 0 to 3
      invariant forall k :: 0 <= k < i ==> result[k] == Dot(m[k], vec, 3)
      invariant forall k :: i <= k < 3 ==> result[k] == 0.0
    {
      for j := 0 to 3
        invariant forall k :: 0 <= k < i ==> result[k] == Dot(m[k], vec, 3)
        invariant result[i] == Dot(m[i], vec, j)
        invariant forall k :: i < k < 3 ==> result[k] == 0.0
      {
        result[i] := result[i] + m[i][j] * vec[j];
      }
    }
    r := result[..];
  }

  function SquareLength(v: seq<real>): (l: real)
    requires |v| == 3
  {
    v[0] * v[0] + v[1] * v[1] + v[2] * v[2]
  }

  function Minus(u: seq<real>, v: seq<real>): (d: seq<real>)
    requires |u| == |v|
    ensures |d| == |u|
  {
    seq(|u|, i requires 0 <= i < |u| => u[i] - v[i])
  }

  lemma {:induction false} SquareOfSum(a: real, b: real, c: real)
    ensures (a + b + c) * (a + b + c) == a * a + b * b + c * c + 2.0 * (a * b) + 2.0 * (a * c) + 2.0 * (b * c)
  {
  }

  lemma {:induction false} Products(p: real, x: real, q: real, y: real)
    ensures (p * x) * (q * y) == (p * q) * (x * y)
  {
  }

  /** The square of `p * x + q * y + r * z`, multiplied out. */
  function Quadratic(p: real, q: real, r: real, x: real, y: real, z: real): (d: real) {
    (p * p) * (x * x) + (q * q) * (y * y) + (r * r) * (z * z)
    + 2.0 * ((p * q) * (x * y)) + 2.0 * ((p * r) * (x * z)) + 2.0 * ((q * r) * (y * z))
  }

  lemma {:induction false} RowSquare(p: real, q: real, r: real, x: real, y: real, z: real)
    ensures (p * x + q * y + r * z) * (p * x + q * y + r * z) == Quadratic(p, q, r, x, y, z)
  {
    SquareOfSum(p * x, q * y, r * z);
    Products(p, x, p, x);
    Products(q, y, q, y);
    Products(r, z, r, z);
    Products(p, x, q, y);
    Products(p, x, r, z);
    Products(q, y, r, z);
  }

  lemma {:induction false} GatherOne(a: real, b: real, c: real, x: real)
    requires a + b + c == 1.0
    ensures a * x + b * x + c * x == x
  {
    assert a * x + b * x + c * x == (a + b + c) * x;
  }

  lemma {:induction false} GatherNone(a: real, b: real, c: real, x: real)
    requires a + b + c == 0.0
    ensures a * x + b * x + c * x == 0.0
  {
    assert a * x + b * x + c * x == (a + b + c) * x;
  }

  lemma {:induction false} DotThree(row: seq<real>, vec: seq<real>)
    requires |row| == 3 && |vec| == 3
    ensures Dot(row, vec, 3) == row[0] * vec[0] + row[1] * vec[1] + row[2] * vec[2]
  {
    assert Dot(row, vec, 1) == row[0] * vec[0];
    assert Dot(row, vec, 2) == row[0] * vec[0] + row[1] * vec[1];
  }

  lemma {:induction false} ThreeSquares(m: Matrix, x: real, y: real, z: real)
    requires Orthogonal(m)
    ensures Quadratic(m[0][0], m[0][1], m[0][2], x, y, z) + Quadratic(m[1][0], m[1][1], m[1][2], x, y, z)
            + Quadratic(m[2][0], m[2][1], m[2][2], x, y, z) == x * x + y * y + z * z
  {
    GatherOne(m[0][0] * m[0][0], m[1][0] * m[1][0], m[2][0] * m[2][0], x * x);
    GatherOne(m[0][1] * m[0][1], m[1][1] * m[1][1], m[2][1] * m[2][1], y * y);
    GatherOne(m[0][2] * m[0][2], m[1][2] * m[1][2], m[2][2] * m[2][2], z * z);
    GatherNone(m[0][0] * m[0][1], m[1][0] * m[1][1], m[2][0] * m[2][1], x * y);
    GatherNone(m[0][0] * m[0][2], m[1][0] * m[1][2], m[2][0] * m[2][2], x * z);
    GatherNone(m[0][1] * m[0][2], m[1][1] * m[1][2], m[2][1] * m[2][2], y * z);
  }

  lemma {:induction false} DotSquare(row: seq<real>, v: seq<real>)
    requires |row| == 3 && |v| == 3
    ensures Dot(row, v, 3) * Dot(row, v, 3) == Quadratic(row[0], row[1], row[2], v[0], v[1], v[2])
  {
    DotThree(row, v);
    RowSquare(row[0], row[1], row[2], v[0], v[1], v[2]);
  }

  /** A rotation keeps lengths. */
  lemma {:induction false} KeepsLength(m: Matrix, v: seq<real>)
    requires |v| == 3 && Orthogonal(m)
    ensures SquareLength(Rotated(m, v)) == SquareLength(v)
  {
    hide Dot, Quadratic, Orthogonal;
    DotSquare(m[0], v);
    DotSquare(m[1], v);
    DotSquare(m[2], v);
    ThreeSquares(m, v[0], v[1], v[2]);
  }

  lemma {:induction false} DotMinus(row: seq<real>, u: seq<real>, v: seq<real>)
    requires |row| == 3 && |u| == 3 && |v| == 3
    ensures Dot(row, Minus(u, v), 3) == Dot(row, u, 3) - Dot(row, v, 3)
  {
    hide Dot;
    DotThree(row, u);
    DotThree(row, v);
    DotThree(row, Minus(u, v));
    Distribute(row[0], u[0], v[0]);
    Distribute(row[1], u[1], v[1]);
    Distribute(row[2], u[2], v[2]);
  }

  lemma {:induction false} RotatedMinus(m: Matrix, u: seq<real>, v: seq<real>)
    requires |u| == 3 && |v| == 3
    ensures Minus(Rotated(m, u), Rotated(m, v)) == Rotated(m, Minus(u, v))
  {
    hide Dot;
    DotMinus(m[0], u, v);
    DotMinus(m[1], u, v);
    DotMinus(m[2], u, v);
  }

  lemma {:induction false} Distribute(a: real, x: real, y: real)
    ensures a * (x - y) == a * x - a * y
  {
  }
}
