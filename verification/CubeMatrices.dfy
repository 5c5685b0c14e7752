/** The proper rotation matrices of the cube: their enumeration and the little linear algebra they need. */
module CubeMatrices {
  import opened CubeGeometry

  /** A matrix by its rows. */
  datatype Matrix = Matrix(x: Vec, y: Vec, z: Vec)

  const AXES: seq<Vec> := [Vec(1, 0, 0), Vec(-1, 0, 0), Vec(0, 1, 0), Vec(0, -1, 0), Vec(0, 0, 1), Vec(0, 0, -1)]

  predicate IsAxis(v: Vec) {
    v == Vec(1, 0, 0) || v == Vec(-1, 0, 0) || v == Vec(0, 1, 0) || v == Vec(0, -1, 0) || v == Vec(0, 0, 1) || v == Vec(0, 0, -1)
  }

  function Cross(u: Vec, v: Vec): Vec {
    Vec(u.y * v.z - u.z * v.y, u.z * v.x - u.x * v.z, u.x * v.y - u.y * v.x)
  }

  function Det(a: Vec, b: Vec, c: Vec): int {
    a.x * (b.y * c.z - b.z * c.y) - a.y * (b.x * c.z - b.z * c.x) + a.z * (b.x * c.y - b.y * c.x)
  }

  function MatVec(m: Matrix, v: Vec): Vec {
    Vec(Dot(m.x, v), Dot(m.y, v), Dot(m.z, v))
  }

  function Transposed(m: Matrix): Matrix {
    Matrix(Vec(m.x.x, m.y.x, m.z.x), Vec(m.x.y, m.y.y, m.z.y), Vec(m.x.z, m.y.z, m.z.z))
  }

  /** The matrix product: each row of the left times the columns of the right. */
  function Product(a: Matrix, b: Matrix): Matrix {
    var t := Transposed(b);
    Matrix(MatVec(t, a.x), MatVec(t, a.y), MatVec(t, a.z))
  }

  /** A proper rotation of the cube, without reference to how it is enumerated: axis rows of determinant one. */
  predicate IsRotation(m: Matrix) {
    IsAxis(m.x) && IsAxis(m.y) && IsAxis(m.z) && Det(m.x, m.y, m.z) == 1
  }

  // ----- linear algebra -----

  lemma Distributes(a: int, b: int, c: int)
    ensures a * (b + c) == a * b + a * c && a * (b - c) == a * b - a * c
  {
  }

  lemma DotLinear(r: Vec, u: Vec, v: Vec)
    ensures Dot(r, Add(u, v)) == Dot(r, u) + Dot(r, v) && Dot(r, Sub(u, v)) == Dot(r, u) - Dot(r, v)
  {
    Distributes(r.x, u.x, v.x);
    Distributes(r.y, u.y, v.y);
    Distributes(r.z, u.z, v.z);
  }

  lemma DotScale(r: Vec, k: int, v: Vec)
    ensures Dot(r, Scale(k, v)) == k * Dot(r, v)
  {
    assert r.x * (k * v.x) == k * (r.x * v.x) && r.y * (k * v.y) == k * (r.y * v.y) && r.z * (k * v.z) == k * (r.z * v.z);
    Distributes(k, r.x * v.x, r.y * v.y);
    Distributes(k, r.x * v.x + r.y * v.y, r.z * v.z);
  }

  lemma MatVecLinear(m: Matrix, u: Vec, v: Vec)
    ensures MatVec(m, Add(u, v)) == Add(MatVec(m, u), MatVec(m, v))
    ensures MatVec(m, Sub(u, v)) == Sub(MatVec(m, u), MatVec(m, v))
  {
    DotLinear(m.x, u, v);
    DotLinear(m.y, u, v);
    DotLinear(m.z, u, v);
  }

  lemma MatVecScale(m: Matrix, k: int, v: Vec)
    ensures MatVec(m, Scale(k, v)) == Scale(k, MatVec(m, v))
  {
    DotScale(m.x, k, v);
    DotScale(m.y, k, v);
    DotScale(m.z, k, v);
  }

  // ----- axes by direction -----

  datatype Direction = X | Y | Z

  function DirectionOf(v: Vec): Direction {
    if v.x != 0 then X else if v.y != 0 then Y else Z
  }

  function Coordinate(v: Vec, d: Direction): int {
    match d case X => v.x case Y => v.y case Z => v.z
  }

  lemma AxisPicks(a: Vec, v: Vec)
    requires IsAxis(a)
    ensures Dot(a, v) == Coordinate(v, DirectionOf(a)) || Dot(a, v) == -Coordinate(v, DirectionOf(a))
  {
  }

  lemma AxesPerpendicular(a: Vec, b: Vec)
    requires IsAxis(a) && IsAxis(b)
    ensures Dot(a, b) == 0 <==> DirectionOf(a) != DirectionOf(b)
  {
    hide Dot;
    AxisPicks(a, b);
  }

  predicate Along(v: Vec, axis: Vec) {
    v == axis || v == Neg(axis)
  }

  lemma AxesAlong(a: Vec, b: Vec)
    requires IsAxis(a) && IsAxis(b)
    ensures Along(a, b) <==> DirectionOf(a) == DirectionOf(b)
  {
  }

  /** The determinant is the product of the third row with the cross product of the first two. */
  lemma DetIsTriple(a: Vec, b: Vec, c: Vec)
    ensures Det(a, b, c) == Dot(c, Cross(a, b))
  {
    Distributes(a.x, b.y * c.z, b.z * c.y);
    Distributes(a.y, b.x * c.z, b.z * c.x);
    Distributes(a.z, b.x * c.y, b.y * c.x);
    Distributes(c.x, a.y * b.z, a.z * b.y);
    Distributes(c.y, a.z * b.x, a.x * b.z);
    Distributes(c.z, a.x * b.y, a.y * b.x);
    assert a.x * (b.y * c.z) == c.z * (a.x * b.y) && a.x * (b.z * c.y) == c.y * (a.x * b.z);
    assert a.y * (b.x * c.z) == c.z * (a.y * b.x) && a.y * (b.z * c.x) == c.x * (a.y * b.z);
    assert a.z * (b.x * c.y) == c.y * (a.z * b.x) && a.z * (b.y * c.x) == c.x * (a.z * b.y);
  }

  function TimesSign(s: int, v: int): int {
    if s == 0 then 0 else if s > 0 then v else -v
  }

  lemma SignProduct(s: int, v: int)
    requires -1 <= s <= 1
    ensures s * v == TimesSign(s, v)
  {
  }

  /** The cross product with an axis, without products. */
  lemma CrossOfAxis(a: Vec, b: Vec)
    requires IsAxis(a)
    ensures Cross(a, b) == Vec(TimesSign(a.y, b.z) - TimesSign(a.z, b.y), TimesSign(a.z, b.x) - TimesSign(a.x, b.z),
                               TimesSign(a.x, b.y) - TimesSign(a.y, b.x))
  {
    hide TimesSign;
    SignProduct(a.y, b.z);
    SignProduct(a.z, b.y);
    SignProduct(a.z, b.x);
    SignProduct(a.x, b.z);
    SignProduct(a.x, b.y);
    SignProduct(a.y, b.x);
  }

  lemma CrossOfAxes(a: Vec, b: Vec)
    requires IsAxis(a) && IsAxis(b)
    ensures if DirectionOf(a) == DirectionOf(b) then Cross(a, b) == Vec(0, 0, 0)
            else IsAxis(Cross(a, b)) && DirectionOf(Cross(a, b)) != DirectionOf(a) && DirectionOf(Cross(a, b)) != DirectionOf(b)
  {
    hide Cross;
    CrossOfAxis(a, b);
  }

  lemma AxisProduct(c: Vec, d: Vec)
    requires IsAxis(c) && (IsAxis(d) || d == Vec(0, 0, 0))
    ensures Dot(c, d) == 1 <==> c == d
  {
    hide Dot;
    AxisPicks(c, d);
    AxisSelf(c);
  }

  lemma AxisSelf(c: Vec)
    requires IsAxis(c)
    ensures forall d :: (IsAxis(d) || d == Vec(0, 0, 0)) ==> (Dot(c, d) == 1 <==> c == d)
  {
    forall d | IsAxis(d) || d == Vec(0, 0, 0) ensures Dot(c, d) == 1 <==> c == d {
      SignProduct(c.x, d.x);
      SignProduct(c.y, d.y);
      SignProduct(c.z, d.z);
    }
  }

  /** A rotation is two perpendicular axes and their cross product: the first two rows determine it. */
  lemma RotationRows(m: Matrix)
    ensures IsRotation(m) <==> IsAxis(m.x) && IsAxis(m.y) && DirectionOf(m.x) != DirectionOf(m.y) && m.z == Cross(m.x, m.y)
  {
    hide Dot, Cross, Det, DirectionOf;
    if IsAxis(m.x) && IsAxis(m.y) {
      CrossOfAxes(m.x, m.y);
      DetIsTriple(m.x, m.y, m.z);
      if IsAxis(m.z) {
        AxisProduct(m.z, Cross(m.x, m.y));
      }
    }
  }

  lemma RotationDirections(m: Matrix)
    requires IsRotation(m)
    ensures DirectionOf(m.x) != DirectionOf(m.y) && DirectionOf(m.z) != DirectionOf(m.x) && DirectionOf(m.z) != DirectionOf(m.y)
  {
    hide DirectionOf, Cross, IsAxis;
    RotationRows(m);
    CrossOfAxes(m.x, m.y);
  }

  /** A rotation only shuffles the coordinates and changes signs. */
  lemma RotationShuffles(m: Matrix, v: Vec)
    requires IsRotation(m)
    ensures Shuffled(MatVec(m, v), v.x, v.y, v.z)
  {
    hide Dot, DirectionOf, IsAxis, Det;
    RotationDirections(m);
    AxisPicks(m.x, v);
    AxisPicks(m.y, v);
    AxisPicks(m.z, v);
  }

  lemma RotationKeepsNorm(m: Matrix, v: Vec)
    requires IsRotation(m)
    ensures Dot(MatVec(m, v), MatVec(m, v)) == Dot(v, v)
  {
    hide MatVec, IsRotation, Shuffled;
    RotationShuffles(m, v);
    ShuffledSquares(MatVec(m, v), v.x, v.y, v.z);
  }

  lemma SquareOfSum(a: int, b: int)
    ensures (a + b) * (a + b) == a * a + 2 * (a * b) + b * b
  {
  }

  lemma NormOfSum(u: Vec, v: Vec)
    ensures Dot(Add(u, v), Add(u, v)) == Dot(u, u) + 2 * Dot(u, v) + Dot(v, v)
  {
    SquareOfSum(u.x, v.x);
    SquareOfSum(u.y, v.y);
    SquareOfSum(u.z, v.z);
  }

  lemma RotationKeepsDot(m: Matrix, u: Vec, v: Vec)
    requires IsRotation(m)
    ensures Dot(MatVec(m, u), MatVec(m, v)) == Dot(u, v)
  {
    hide IsRotation, MatVec, Dot, Add;
    MatVecLinear(m, u, v);
    RotationKeepsNorm(m, u);
    RotationKeepsNorm(m, v);
    RotationKeepsNorm(m, Add(u, v));
    NormOfSum(u, v);
    NormOfSum(MatVec(m, u), MatVec(m, v));
  }

  lemma RotationKeepsAxes(m: Matrix, v: Vec)
    requires IsRotation(m) && IsAxis(v)
    ensures IsAxis(MatVec(m, v))
  {
    hide IsRotation, MatVec;
    RotationShuffles(m, v);
  }

  // ----- the enumeration -----

  function AxisRank(v: Vec): (r: nat)
    requires IsAxis(v)
    ensures r < 6 && AXES[r] == v
  {
    if v == Vec(1, 0, 0) then 0 else if v == Vec(-1, 0, 0) then 1 else if v == Vec(0, 1, 0) then 2
    else if v == Vec(0, -1, 0) then 3 else if v == Vec(0, 0, 1) then 4 else 5
  }

  lemma AxisAt(i: nat)
    requires i < 6
    ensures IsAxis(AXES[i]) && AxisRank(AXES[i]) == i
  {
  }

  function MatrixOf(x: Vec, y: Vec): Matrix {
    Matrix(x, y, Cross(x, y))
  }

  /** How many of the first j axes are perpendicular to an axis. */
  function Perpendiculars(x: Vec, j: nat): nat
    requires j <= 6
  {
    if j == 0 then 0 else Perpendiculars(x, j - 1) + if Dot(x, AXES[j - 1]) == 0 then 1 else 0
  }

  lemma FourPerpendiculars(i: nat)
    requires i < 6
    ensures Perpendiculars(AXES[i], 6) == 4
  {
    hide Dot;
    var x := AXES[i];
    AxisAt(i);
    AxesPerpendicular(x, AXES[0]);
    AxesPerpendicular(x, AXES[1]);
    AxesPerpendicular(x, AXES[2]);
    AxesPerpendicular(x, AXES[3]);
    AxesPerpendicular(x, AXES[4]);
    AxesPerpendicular(x, AXES[5]);
    assert Perpendiculars(x, 6) == Perpendiculars(x, 3) + (if Dot(x, AXES[3]) == 0 then 1 else 0)
                                   + (if Dot(x, AXES[4]) == 0 then 1 else 0) + (if Dot(x, AXES[5]) == 0 then 1 else 0);
    assert Perpendiculars(x, 3) == (if Dot(x, AXES[0]) == 0 then 1 else 0)
                                   + (if Dot(x, AXES[1]) == 0 then 1 else 0) + (if Dot(x, AXES[2]) == 0 then 1 else 0);
  }

  /** Visited in the double loop before the pair (i, j). */
  predicate Before(m: Matrix, i: nat, j: nat)
    requires IsAxis(m.x) && IsAxis(m.y)
  {
    AxisRank(m.x) < i || (AxisRank(m.x) == i && AxisRank(m.y) < j)
  }

  /** The list so far: exactly the rotations visited, each once. */
  ghost predicate Collected(result: seq<Matrix>, i: nat, j: nat) {
    && (forall m :: m in result <==> IsRotation(m) && Before(m, i, j))
    && (forall k, l :: 0 <= k < l < |result| ==> result[k] != result[l])
  }

  /** One pass of the inner loop: a perpendicular pair gives a new matrix of determinant one, any other pair is skipped. */
  method Consider(x: Vec, y: Vec, ghost i: nat, ghost j: nat, result: seq<Matrix>) returns (result': seq<Matrix>)
    requires i < 6 && j < 6 && x == AXES[i] && y == AXES[j] && Collected(result, i, j)
    ensures Collected(result', i, j + 1)
    ensures |result'| == |result| + if Dot(x, y) == 0 then 1 else 0
  {
    AxisAt(i);
    AxisAt(j);
    var m := MatrixOf(x, y);
    ConsiderStep(i, j, result);
    if Dot(x, y) != 0 {
      return result;
    }
    if Det(m.x, m.y, m.z) == 1 && m !in result {
      result' := result + [m];
    } else {
      result' := result;
    }
  }

  lemma ConsiderStep(i: nat, j: nat, result: seq<Matrix>)
    requires i < 6 && j < 6 && Collected(result, i, j)
    ensures var m := MatrixOf(AXES[i], AXES[j]);
      if Dot(AXES[i], AXES[j]) == 0 then Det(m.x, m.y, m.z) == 1 && m !in result && Collected(result + [m], i, j + 1)
      else Collected(result, i, j + 1)
  {
    hide Dot, Det, Cross, DirectionOf;
    var x, y := AXES[i], AXES[j];
    var m := MatrixOf(x, y);
    AxisAt(i);
    AxisAt(j);
    AxesPerpendicular(x, y);
    RotationRows(m);
    assert !Before(m, i, j) && Before(m, i, j + 1);
    forall q ensures IsRotation(q) && Before(q, i, j + 1) <==>
                     (IsRotation(q) && Before(q, i, j)) || (Dot(x, y) == 0 && q == m) {
      NewlyVisited(q, i, j);
    }
  }

  lemma NewlyVisited(q: Matrix, i: nat, j: nat)
    requires i < 6 && j < 6
    ensures IsRotation(q) && Before(q, i, j + 1) <==>
            (IsRotation(q) && Before(q, i, j)) || (Dot(AXES[i], AXES[j]) == 0 && q == MatrixOf(AXES[i], AXES[j]))
  {
    hide Dot, Det, Cross, DirectionOf, IsRotation, IsAxis;
    AxisAt(i);
    AxisAt(j);
    AxesPerpendicular(AXES[i], AXES[j]);
    RotationRows(q);
    RotationRows(MatrixOf(AXES[i], AXES[j]));
    RotationIsAxes(q);
  }

  lemma RotationIsAxes(q: Matrix)
    ensures IsRotation(q) ==> IsAxis(q.x) && IsAxis(q.y)
  {
  }

  datatype Rotations = Matrices(matrices: seq<Matrix>) | WrongCount

  /** The double loop over the axes finds every proper rotation once: there are 24. */
  method RotationMatrices() returns (r: Rotations)
    ensures r.Matrices? && |r.matrices| == 24
    ensures forall m :: m in r.matrices <==> IsRotation(m)
    ensures forall k, l :: 0 <= k < l < 24 ==> r.matrices[k] != r.matrices[l]
  {
    hide IsRotation, Dot, IsAxis;
    var result: seq<Matrix> := [];
    NothingYet();
    for i := 0 to 6
      invariant Collected(result, i, 0) && |result| == 4 * i
    {
      for j := 0 to 6
        invariant Collected(result, i, j) && |result| == 4 * i + Perpendiculars(AXES[i], j)
      {
        result := Consider(AXES[i], AXES[j], i, j, result);
      }
      FourPerpendiculars(i);
      NextRow(result, i);
    }
    AllVisited(result);
    if |result| != 24 {
      return WrongCount;
    }
    return Matrices(result);
  }

  lemma NothingYet()
    ensures Collected([], 0, 0)
  {
  }

  lemma NextRow(result: seq<Matrix>, i: nat)
    requires Collected(result, i, 6)
    ensures Collected(result, i + 1, 0)
  {
    hide Det, Cross, Dot;
    forall m ensures IsRotation(m) && Before(m, i + 1, 0) <==> IsRotation(m) && Before(m, i, 6) {
    }
  }

  lemma AllVisited(result: seq<Matrix>)
    requires Collected(result, 6, 0)
    ensures forall m :: m in result <==> IsRotation(m)
    ensures forall k, l :: 0 <= k < l < |result| ==> result[k] != result[l]
  {
  }

  // ----- products -----

  /** A product of matrices acts as one matrix after the other. */
  lemma ProductActs(a: Matrix, b: Matrix, v: Vec)
    ensures MatVec(Product(a, b), v) == MatVec(a, MatVec(b, v))
  {
    hide MatVec, Transposed;
    ProductRow(a.x, b, v);
    ProductRow(a.y, b, v);
    ProductRow(a.z, b, v);
    MatVecRows(Product(a, b), v);
    MatVecRows(a, MatVec(b, v));
  }

  lemma MatVecRows(m: Matrix, v: Vec)
    ensures MatVec(m, v) == Vec(Dot(m.x, v), Dot(m.y, v), Dot(m.z, v))
  {
  }

  lemma SumTimes(a: int, b: int, c: int, v: int)
    ensures (a + b + c) * v == a * v + b * v + c * v
  {
  }

  lemma ProductRow(r: Vec, b: Matrix, v: Vec)
    ensures Dot(MatVec(Transposed(b), r), v) == Dot(r, MatVec(b, v))
  {
    var t := Transposed(b);
    SumTimes(b.x.x * r.x, b.y.x * r.y, b.z.x * r.z, v.x);
    SumTimes(b.x.y * r.x, b.y.y * r.y, b.z.y * r.z, v.y);
    SumTimes(b.x.z * r.x, b.y.z * r.y, b.z.z * r.z, v.z);
    SumTimes(b.x.x * v.x, b.x.y * v.y, b.x.z * v.z, r.x);
    SumTimes(b.y.x * v.x, b.y.y * v.y, b.y.z * v.z, r.y);
    SumTimes(b.z.x * v.x, b.z.y * v.y, b.z.z * v.z, r.z);
    Turn(b.x.x, r.x, v.x);
    Turn(b.x.y, r.x, v.y);
    Turn(b.x.z, r.x, v.z);
    Turn(b.y.x, r.y, v.x);
    Turn(b.y.y, r.y, v.y);
    Turn(b.y.z, r.y, v.z);
    Turn(b.z.x, r.z, v.x);
    Turn(b.z.y, r.z, v.y);
    Turn(b.z.z, r.z, v.z);
  }

  lemma Turn(b: int, r: int, v: int)
    ensures (b * r) * v == (b * v) * r
  {
  }

  // ----- products of rotations are rotations -----

  lemma CrossesCycle(x: Vec, y: Vec)
    requires IsAxis(x) && IsAxis(y) && DirectionOf(x) != DirectionOf(y)
    ensures Cross(y, Cross(x, y)) == x && Cross(Cross(x, y), x) == y
  {
    hide Cross;
    CrossOfAxis(x, y);
    CrossOfAxes(x, y);
    CrossOfAxis(y, Cross(x, y));
    CrossOfAxis(Cross(x, y), x);
  }

  function Mul4(a: int, b: int, c: int, d: int): int { (a * b) * (c * d) }

  lemma Mul4Swaps(a: int, b: int, c: int, d: int)
    ensures Mul4(a, b, c, d) == Mul4(a, d, c, b)
  {
    Regroup(a, b, c, d);
    Regroup(a, d, c, b);
  }

  lemma Regroup(a: int, b: int, c: int, d: int)
    ensures (a * b) * (c * d) == (a * c) * (b * d)
  {
    assert (a * b) * (c * d) == a * (b * (c * d));
    assert b * (c * d) == c * (b * d);
    assert a * (c * (b * d)) == (a * c) * (b * d);
  }

  function MinorTimes(yi: int, yj: int, zi: int, zj: int, ui: int, uj: int, vi: int, vj: int): int {
    (yi * zj - yj * zi) * (ui * vj - uj * vi)
  }

  lemma MinorExpands(yi: int, yj: int, zi: int, zj: int, ui: int, uj: int, vi: int, vj: int)
    ensures MinorTimes(yi, yj, zi, zj, ui, uj, vi, vj) ==
            Mul4(yi, ui, zj, vj) - Mul4(yi, uj, zj, vi) - Mul4(yj, ui, zi, vj) + Mul4(yj, uj, zi, vi)
  {
    var a, b, c, d := yi * zj, yj * zi, ui * vj, uj * vi;
    Distributes(a, c, d);
    Distributes(b, c, d);
    Distributes(c - d, a, b);
    Regroup(yi, zj, ui, vj);
    Regroup(yi, zj, uj, vi);
    Regroup(yj, zi, ui, vj);
    Regroup(yj, zi, uj, vi);
  }

  lemma CrossesExpand(y: Vec, z: Vec, u: Vec, v: Vec)
    ensures Dot(Cross(y, z), Cross(u, v)) == MinorTimes(y.y, y.z, z.y, z.z, u.y, u.z, v.y, v.z)
                                             + MinorTimes(y.z, y.x, z.z, z.x, u.z, u.x, v.z, v.x)
                                             + MinorTimes(y.x, y.y, z.x, z.y, u.x, u.y, v.x, v.y)
  {
  }

  lemma SumProduct(a: int, b: int, c: int, d: int, e: int, f: int)
    ensures (a + b + c) * (d + e + f) == a * d + a * e + a * f + b * d + b * e + b * f + c * d + c * e + c * f
  {
    var s := d + e + f;
    SumTimes(a, b, c, s);
    SumTimes(d, e, f, a);
    SumTimes(d, e, f, b);
    SumTimes(d, e, f, c);
  }

  lemma DotsExpand(y: Vec, u: Vec, z: Vec, v: Vec)
    ensures Dot(y, u) * Dot(z, v) ==
            Mul4(y.x, u.x, z.x, v.x) + Mul4(y.x, u.x, z.y, v.y) + Mul4(y.x, u.x, z.z, v.z)
            + Mul4(y.y, u.y, z.x, v.x) + Mul4(y.y, u.y, z.y, v.y) + Mul4(y.y, u.y, z.z, v.z)
            + Mul4(y.z, u.z, z.x, v.x) + Mul4(y.z, u.z, z.y, v.y) + Mul4(y.z, u.z, z.z, v.z)
  {
    SumProduct(y.x * u.x, y.y * u.y, y.z * u.z, z.x * v.x, z.y * v.y, z.z * v.z);
  }

  /** The identity of Binet and Cauchy for cross products. */
  lemma CrossDot(y: Vec, z: Vec, u: Vec, v: Vec)
    ensures Dot(Cross(y, z), Cross(u, v)) == Dot(y, u) * Dot(z, v) - Dot(y, v) * Dot(z, u)
  {
    hide Dot, Cross, Mul4, MinorTimes;
    CrossesExpand(y, z, u, v);
    MinorExpands(y.y, y.z, z.y, z.z, u.y, u.z, v.y, v.z);
    MinorExpands(y.z, y.x, z.z, z.x, u.z, u.x, v.z, v.x);
    MinorExpands(y.x, y.y, z.x, z.y, u.x, u.y, v.x, v.y);
    DotsExpand(y, u, z, v);
    DotsExpand(y, v, z, u);
    Mul4Swaps(y.x, v.x, z.x, u.x);
    Mul4Swaps(y.x, v.x, z.y, u.y);
    Mul4Swaps(y.x, v.x, z.z, u.z);
    Mul4Swaps(y.y, v.y, z.x, u.x);
    Mul4Swaps(y.y, v.y, z.y, u.y);
    Mul4Swaps(y.y, v.y, z.z, u.z);
    Mul4Swaps(y.z, v.z, z.x, u.x);
    Mul4Swaps(y.z, v.z, z.y, u.y);
    Mul4Swaps(y.z, v.z, z.z, u.z);
  }

  /** A rotation takes cross products to cross products. */
  lemma RotationKeepsCross(m: Matrix, u: Vec, v: Vec)
    requires IsRotation(m)
    ensures Cross(MatVec(m, u), MatVec(m, v)) == MatVec(m, Cross(u, v))
  {
    hide IsRotation, IsAxis, DirectionOf, Dot;
    RotationRows(m);
    CrossesCycle(m.x, m.y);
    CrossDot(m.y, m.z, u, v);
    CrossDot(m.z, m.x, u, v);
    CrossDot(m.x, m.y, u, v);
  }

  lemma DetTransposed(m: Matrix)
    ensures Det(Transposed(m).x, Transposed(m).y, Transposed(m).z) == Det(m.x, m.y, m.z)
  {
    var a, b, c := m.x, m.y, m.z;
    Distributes(a.x, b.y * c.z, b.z * c.y);
    Distributes(a.y, b.x * c.z, b.z * c.x);
    Distributes(a.z, b.x * c.y, b.y * c.x);
    Distributes(a.x, b.y * c.z, c.y * b.z);
    Distributes(b.x, a.y * c.z, c.y * a.z);
    Distributes(c.x, a.y * b.z, b.y * a.z);
    Turn3(a.x, b.y, c.z);
    Turn3(a.x, b.z, c.y);
    Turn3(a.y, b.x, c.z);
    Turn3(a.y, b.z, c.x);
    Turn3(a.z, b.x, c.y);
    Turn3(a.z, b.y, c.x);
  }

  lemma Turn3(a: int, b: int, c: int)
    ensures a * (b * c) == b * (a * c) == c * (a * b)
  {
  }

  lemma RotationTransposed(m: Matrix)
    requires IsRotation(m)
    ensures IsRotation(Transposed(m))
  {
    hide Det;
    RotationDirections(m);
    DetTransposed(m);
  }

  /** The rotations are closed under the product. */
  lemma ProductIsRotation(a: Matrix, b: Matrix)
    requires IsRotation(a) && IsRotation(b)
    ensures IsRotation(Product(a, b))
  {
    hide IsRotation, MatVec, Transposed, Dot, Cross, DirectionOf, IsAxis;
    var t, p := Transposed(b), Product(a, b);
    RotationTransposed(b);
    RotationRows(a);
    RotationKeepsAxes(t, a.x);
    RotationKeepsAxes(t, a.y);
    RotationKeepsDot(t, a.x, a.y);
    AxesPerpendicular(a.x, a.y);
    AxesPerpendicular(p.x, p.y);
    RotationKeepsCross(t, a.x, a.y);
    RotationRows(p);
  }
}
