/** What the interpolation of software/klipper/extras/bed_mesh.py does between the probed points
    (class ZMesh): Lagrange interpolation reproduces every bed whose heights are polynomial
    along each axis, and the bicubic spline is the cubic with given values and slopes. */
module MeshShape {
  import opened Support
  import opened Polynomial
  import opened ZMesh

  // ---------- one axis ----------

  ghost function NumeratorPoly(pts: seq<real>, i: nat, k: nat): (p: seq<real>)
    requires i < |pts| && k <= |pts|
    ensures |p| == if k > i then k else k + 1
  {
    if k == 0 then [1.0]
    else if k - 1 == i then NumeratorPoly(pts, i, k - 1)
    else TimesFactor(NumeratorPoly(pts, i, k - 1), pts[k - 1])
  }

  lemma {:induction false} NumeratorIsPoly(pts: seq<real>, i: nat, c: real, k: nat)
    requires i < |pts| && k <= |pts|
    ensures Eval(NumeratorPoly(pts, i, k), c) == Numerator(pts, i, c, k)
  {
    hide Times, TimesFactor, Eval;
    if k == 0 {
      EvalConstant(1.0, c);
    } else {
      NumeratorIsPoly(pts, i, c, k - 1);
      if k - 1 != i {
        EvalTimesFactor(NumeratorPoly(pts, i, k - 1), pts[k - 1], c);
      }
    }
  }

  lemma EvalConstant(v: real, x: real)
    ensures Eval([v], x) == v
  {
    TimesZero(x);
    assert [v][1..] == [];
  }

  ghost function SumPoly(pts: seq<real>, zs: seq<real>, k: nat): (p: seq<real>)
    requires |pts| == |zs| && k <= |pts| && Distinct(pts)
    ensures |p| <= |pts|
  {
    if k == 0 then []
    else Add(SumPoly(pts, zs, k - 1),
             Scale(zs[k - 1] / Denominator(pts, k - 1, |pts|), NumeratorPoly(pts, k - 1, |pts|)))
  }

  lemma {:induction false} SumIsPoly(pts: seq<real>, zs: seq<real>, c: real, k: nat)
    requires |pts| == |zs| && k <= |pts| && Distinct(pts)
    ensures Eval(SumPoly(pts, zs, k), c) == LagrangeSum(pts, zs, c, k)
  {
    hide Times, Eval, Term, Numerator, Denominator, NumeratorPoly, Add, Scale;
    if k == 0 {
      EvalNothing(c);
    } else {
      SumIsPoly(pts, zs, c, k - 1);
      var d, p := Denominator(pts, k - 1, |pts|), NumeratorPoly(pts, k - 1, |pts|);
      EvalAdd(SumPoly(pts, zs, k - 1), Scale(zs[k - 1] / d, p), c);
      EvalScale(zs[k - 1] / d, p, c);
      NumeratorIsPoly(pts, k - 1, c, |pts|);
      TermIs(zs[k - 1], Numerator(pts, k - 1, c, |pts|), d);
    }
  }

  lemma EvalNothing(x: real)
    ensures Eval([], x) == 0.0
  {
  }

  lemma TermIs(z: real, n: real, d: real)
    requires d != 0.0
    ensures Times(z / d, n) == Term(z, n, d)
  {
    var q := z / d;
    assert q * d == z;
    assert z * n == q * n * d;
  }

  // Heights on a polynomial with no more coefficients than probed points are found again at
  // every coordinate.
  lemma LagrangeIsPolynomial(pts: seq<real>, zs: seq<real>, p: seq<real>, c: real)
    requires |pts| == |zs| && Distinct(pts) && |p| <= |pts|
    requires forall m :: 0 <= m < |pts| ==> zs[m] == Eval(p, pts[m])
    ensures LagrangeSum(pts, zs, c, |pts|) == Eval(p, c)
  {
    hide Times, Eval, LagrangeSum, SumPoly, Add, Scale;
    var n := |pts|;
    var sum := SumPoly(pts, zs, n);
    var gap := Add(sum, Scale(-1.0, p));
    forall x ensures Eval(gap, x) == LagrangeSum(pts, zs, x, n) - Eval(p, x) {
      EvalAdd(sum, Scale(-1.0, p), x);
      EvalScale(-1.0, p, x);
      TimesMinusOne(Eval(p, x));
      SumIsPoly(pts, zs, x, n);
    }
    forall m | 0 <= m < n ensures Eval(gap, pts[m]) == 0.0 {
      LagrangeAtPoint(pts, zs, m, n);
    }
    TooManyRoots(gap, pts, c);
  }

  lemma TimesMinusOne(x: real)
    ensures Times(-1.0, x) == -x
  {
  }

  // So is every grid point of an axis.
  lemma AtPolynomial(a: Axis, nodes: seq<real>, p: seq<real>, index: nat)
    requires ValidAxis(a) && |nodes| == a.nodes && index < Count(a) && |p| <= a.nodes
    requires forall k :: 0 <= k < a.nodes ==> nodes[k] == Eval(p, Coordinate(a, k * Mult(a)))
    ensures At(Lagrange, a, nodes, index) == Eval(p, Coordinate(a, index))
  {
    hide Eval, LagrangeSum, Coordinate, Mult, Count;
    CellOfIndex(a, index);
    if index % Mult(a) == 0 {
      WholeCells(index, Mult(a));
    } else {
      NodePointsDistinct(a);
      LagrangeIsPolynomial(NodePoints(a), nodes, p, Coordinate(a, index));
    }
  }

  lemma WholeCells(index: nat, m: nat)
    requires m > 0 && index % m == 0
    ensures index / m * m == index
  {
  }

  // ---------- the whole grid ----------

  // P[a] holds the coefficients, by powers of y, of the power a of x.
  ghost function Eval2(P: seq<seq<real>>, x: real, y: real): real {
    if P == [] then 0.0 else Eval(P[0], y) + Times(x, Eval2(P[1..], x, y))
  }

  ghost function AlongRow(P: seq<seq<real>>, y: real): (p: seq<real>)
    ensures |p| == |P|
  {
    if P == [] then [] else [Eval(P[0], y)] + AlongRow(P[1..], y)
  }

  lemma {:induction false} EvalAlongRow(P: seq<seq<real>>, x: real, y: real)
    ensures Eval(AlongRow(P, y), x) == Eval2(P, x, y)
  {
    hide Times;
    if P != [] {
      EvalAlongRow(P[1..], x, y);
      assert AlongRow(P, y)[1..] == AlongRow(P[1..], y);
    }
  }

  ghost function AlongColumn(P: seq<seq<real>>, x: real): (p: seq<real>)
  {
    if P == [] then [] else Add(P[0], Scale(x, AlongColumn(P[1..], x)))
  }

  ghost predicate DegreeBelow(P: seq<seq<real>>, n: nat) {
    forall a :: 0 <= a < |P| ==> |P[a]| <= n
  }

  lemma {:induction false} EvalAlongColumn(P: seq<seq<real>>, x: real, y: real, n: nat)
    requires DegreeBelow(P, n)
    ensures Eval(AlongColumn(P, x), y) == Eval2(P, x, y) && |AlongColumn(P, x)| <= n
  {
    hide Times, Eval, Add, Scale;
    EvalNothing(y);
    if P != [] {
      EvalAlongColumn(P[1..], x, y, n);
      var rest := AlongColumn(P[1..], x);
      EvalAdd(P[0], Scale(x, rest), y);
      EvalScale(x, rest, y);
    }
  }

  // The probed heights lie on the polynomial P.
  ghost predicate ProbedOn(P: seq<seq<real>>, x: Axis, y: Axis, z: seq<seq<real>>)
    requires ValidAxis(x) && ValidAxis(y) && Rectangular(z, x.nodes, y.nodes)
  {
    forall k, l :: 0 <= k < y.nodes && 0 <= l < x.nodes ==>
      z[k][l] == Eval2(P, Coordinate(x, l * Mult(x)), Coordinate(y, k * Mult(y)))
  }

  // Lagrange interpolation finds such a bed again in every cell of the filled grid.
  lemma FilledPolynomial(P: seq<seq<real>>, x: Axis, y: Axis, z: seq<seq<real>>, j: nat, i: nat)
    requires ValidAxis(x) && ValidAxis(y) && Rectangular(z, x.nodes, y.nodes) && i < Count(x) && j < Count(y)
    requires |P| <= x.nodes && DegreeBelow(P, y.nodes) && ProbedOn(P, x, y, z)
    ensures Filled(Lagrange, x, y, z, j, i) == Eval2(P, Coordinate(x, i), Coordinate(y, j))
  {
    hide Eval, Eval2, AlongRow, AlongColumn, Coordinate, Mult, Count, At;
    var atX := Coordinate(x, i);
    var column := AlongColumn(P, atX);
    forall k | 0 <= k < y.nodes
      ensures At(Lagrange, x, z[k], i) == Eval(column, Coordinate(y, k * Mult(y)))
    {
      var atY := Coordinate(y, k * Mult(y));
      forall l | 0 <= l < x.nodes ensures z[k][l] == Eval(AlongRow(P, atY), Coordinate(x, l * Mult(x))) {
        EvalAlongRow(P, Coordinate(x, l * Mult(x)), atY);
      }
      AtPolynomial(x, z[k], AlongRow(P, atY), i);
      EvalAlongRow(P, atX, atY);
      EvalAlongColumn(P, atX, atY, y.nodes);
    }
    EvalAlongColumn(P, atX, Coordinate(y, j), y.nodes);
    AtPolynomial(y, ColumnNodes(Lagrange, x, y, z, i), column, j);
  }

  // A flat bed, tilted or not, is filled flat.
  lemma FilledPlane(a: real, b: real, c: real, x: Axis, y: Axis, z: seq<seq<real>>, j: nat, i: nat)
    requires ValidAxis(x) && ValidAxis(y) && Rectangular(z, x.nodes, y.nodes) && i < Count(x) && j < Count(y)
    requires forall k, l :: 0 <= k < y.nodes && 0 <= l < x.nodes ==>
      z[k][l] == Plane(a, b, c, Coordinate(x, l * Mult(x)), Coordinate(y, k * Mult(y)))
    ensures Filled(Lagrange, x, y, z, j, i) == Plane(a, b, c, Coordinate(x, i), Coordinate(y, j))
  {
    hide Eval2, Coordinate, Mult, Count, Filled, Plane;
    var P := [[a, c], [b]];
    forall u, v ensures Eval2(P, u, v) == Plane(a, b, c, u, v) {
      PlaneIs(a, b, c, u, v);
    }
    FilledPolynomial(P, x, y, z, j, i);
  }

  lemma PlaneIs(a: real, b: real, c: real, u: real, v: real)
    ensures Eval2([[a, c], [b]], u, v) == Plane(a, b, c, u, v)
  {
    hide Times;
    var P := [[a, c], [b]];
    assert P[1..] == [[b]] && [[b]][1..] == [] && [a, c][1..] == [c];
    EvalConstant(b, v);
    EvalConstant(c, v);
    TimesZero(u);
    assert Eval2([[b]], u, v) == b;
    assert Eval([a, c], v) == a + Times(v, c);
    Products(b, c, u, v);
  }

  lemma Products(b: real, c: real, u: real, v: real)
    ensures Times(u, b) == b * u && Times(v, c) == c * v
  {
  }

  // With either algorithm a level bed is filled level.
  lemma FilledLevel(algo: Algorithm, h: real, x: Axis, y: Axis, z: seq<seq<real>>, j: nat, i: nat)
    requires ValidAxis(x) && ValidAxis(y) && Rectangular(z, x.nodes, y.nodes) && i < Count(x) && j < Count(y)
    requires forall k, l :: 0 <= k < y.nodes && 0 <= l < x.nodes ==> z[k][l] == h
    ensures Filled(algo, x, y, z, j, i) == h
  {
    hide At, Count;
    forall k | 0 <= k < y.nodes ensures At(algo, x, z[k], i) == h {
      AtLevel(algo, x, z[k], h, i);
    }
    AtLevel(algo, y, ColumnNodes(algo, x, y, z, i), h, j);
  }

  lemma AtLevel(algo: Algorithm, a: Axis, nodes: seq<real>, h: real, index: nat)
    requires ValidAxis(a) && |nodes| == a.nodes && index < Count(a)
    requires forall k :: 0 <= k < a.nodes ==> nodes[k] == h
    ensures At(algo, a, nodes, index) == h
  {
    hide Eval, LagrangeSum, Coordinate, Mult, Count, Spline;
    CellOfIndex(a, index);
    match algo
    case Lagrange =>
      forall c ensures Eval([h], c) == h { EvalConstant(h, c); }
      AtPolynomial(a, nodes, [h], index);
    case Bicubic(tension) =>
      if index % Mult(a) != 0 {
        SplineEnds(ControlAt(nodes, Mult(a), index), tension);
      }
  }

  // ---------- the spline ----------

  function Derivative(p: seq<real>): (d: seq<real>)
    ensures |d| == if p == [] then 0 else |p| - 1
  {
    seq(if p == [] then 0 else |p| - 1, k requires 0 <= k < |p| - 1 => (k + 1) as real * p[k + 1])
  }

  // In its segment the spline is the cubic that joins the two middle values, with the slopes
  // of the neighbouring values times the tension at its ends.
  lemma SplineIsCubic(c: Control, tension: real, p: seq<real>)
    requires |p| == 4
    requires Eval(p, 0.0) == c.p1 && Eval(p, 1.0) == c.p2
    requires Eval(Derivative(p), 0.0) == tension * (c.p2 - c.p0)
    requires Eval(Derivative(p), 1.0) == tension * (c.p3 - c.p1)
    ensures Spline(c, tension) == Eval(p, c.t)
  {
    hide Eval, Spline, Cubic;
    var d := Derivative(p);
    EvalCubic(p, 0.0);
    EvalCubic(p, 1.0);
    EvalCubic(p, c.t);
    EvalQuadratic(d, 0.0);
    EvalQuadratic(d, 1.0);
    CubicEnds(p[0], p[1], p[2], p[3]);
    CubicEnds(d[0], d[1], d[2], 0.0);
    SplineOf(c, tension, p[0], p[1], p[2], p[3]);
  }

  function Cubic(a0: real, a1: real, a2: real, a3: real, x: real): real {
    a0 + x * (a1 + x * (a2 + x * a3))
  }

  lemma CubicEnds(a0: real, a1: real, a2: real, a3: real)
    ensures Cubic(a0, a1, a2, a3, 0.0) == a0 && Cubic(a0, a1, a2, a3, 1.0) == a0 + a1 + a2 + a3
  {
  }

  // The slope at a node, the same from both sides: its neighbours' difference times the tension,
  // where an outermost node is its own neighbour.
  function Slope(nodes: seq<real>, tension: real, k: nat): real
    requires k < |nodes|
  {
    tension * (nodes[if k + 1 < |nodes| then k + 1 else k] - nodes[if k > 0 then k - 1 else k])
  }

  // Between two nodes the interpolated values are on the cubic with the nodes' values and slopes.
  lemma BicubicBetween(a: Axis, nodes: seq<real>, tension: real, k: nat, r: nat, p: seq<real>)
    requires ValidAxis(a) && |nodes| == a.nodes && k + 1 < a.nodes && 0 < r < Mult(a)
    requires |p| == 4 && Eval(p, 0.0) == nodes[k] && Eval(p, 1.0) == nodes[k + 1]
    requires Eval(Derivative(p), 0.0) == Slope(nodes, tension, k)
    requires Eval(Derivative(p), 1.0) == Slope(nodes, tension, k + 1)
    ensures k * Mult(a) + r < Count(a)
    ensures At(Bicubic(tension), a, nodes, k * Mult(a) + r) == Eval(p, r as real / Mult(a) as real)
  {
    hide Eval, Spline, Derivative;
    var m := Mult(a);
    IndexSplit(k, r, m);
    AtLeast(a.nodes - 1, k + 1, m);
    assert (k + 1) * m == k * m + m;
    SplineIsCubic(ControlAt(nodes, m, k * m + r), tension, p);
  }

  lemma IndexSplit(k: nat, r: nat, m: nat)
    requires r < m
    ensures (k * m + r) / m == k && (k * m + r) % m == r
  {
    var e := (k * m + r) / m - k;
    assert e * m == r - (k * m + r) % m;
    SmallBounds(e, m);
  }

  lemma EvalCubic(p: seq<real>, x: real)
    requires |p| == 4
    ensures Eval(p, x) == Cubic(p[0], p[1], p[2], p[3], x)
  {
    hide Times, Eval;
    EvalQuadratic(p[1..], x);
    EvalNext(p, x);
  }

  lemma EvalQuadratic(p: seq<real>, x: real)
    requires |p| == 3
    ensures Eval(p, x) == Cubic(p[0], p[1], p[2], 0.0, x)
  {
    hide Eval;
    EvalNext(p, x);
    EvalNext(p[1..], x);
    assert p[1..][1..] == [p[2]];
    EvalConstant(p[2], x);
  }

  lemma EvalNext(p: seq<real>, x: real)
    requires p != []
    ensures Eval(p, x) == p[0] + x * Eval(p[1..], x)
  {
  }

  lemma SplineOf(c: Control, tension: real, a0: real, a1: real, a2: real, a3: real)
    requires a0 == c.p1 && a0 + a1 + a2 + a3 == c.p2
    requires a1 == tension * (c.p2 - c.p0) && a1 + 2.0 * a2 + 3.0 * a3 == tension * (c.p3 - c.p1)
    ensures Spline(c, tension) == Cubic(a0, a1, a2, a3, c.t)
  {
    var t := c.t;
    var t2 := t * t;
    var t3 := t2 * t;
    var m2 := tension * (c.p3 - c.p1);
    assert a2 == 3.0 * (c.p2 - c.p1) - 2.0 * a1 - m2;
    assert a3 == a1 + m2 - 2.0 * (c.p2 - c.p1);
    Expand(t, a0, a1, a2, a3);
    Regroup(c.p1, c.p2, a1, m2, t, t2, t3);
  }

  lemma Expand(t: real, a0: real, a1: real, a2: real, a3: real)
    ensures a0 + t * (a1 + t * (a2 + t * a3)) == a0 + a1 * t + a2 * (t * t) + a3 * (t * t * t)
  {
    assert t * (a2 + t * a3) == a2 * t + a3 * (t * t);
    assert t * (a2 * t) == a2 * (t * t);
    assert t * (a3 * (t * t)) == a3 * (t * t * t);
  }

  lemma Regroup(p1: real, p2: real, m1: real, m2: real, t: real, t2: real, t3: real)
    ensures p1 * (2.0 * t3 - 3.0 * t2 + 1.0) + p2 * (-2.0 * t3 + 3.0 * t2) + m1 * (t3 - 2.0 * t2 + t) + m2 * (t3 - t2)
         == p1 + m1 * t + (3.0 * (p2 - p1) - 2.0 * m1 - m2) * t2 + (m1 + m2 - 2.0 * (p2 - p1)) * t3
  {
  }

  // With tension one half, values on a parabola are continued on it.
  lemma SplineKeepsParabola(c: Control, u: real, v: real, w: real)
    requires c.p0 == u - v + w && c.p1 == u && c.p2 == u + v + w && c.p3 == u + 2.0 * v + 4.0 * w
    ensures Spline(c, 0.5) == u + c.t * (v + c.t * w)
  {
    hide Spline;
    SplineOf(c, 0.5, u, v, w, 0.0);
  }
}
