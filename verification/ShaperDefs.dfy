/** The input shapers that can be configured (software/klipper/extras/shaper_defs.py).

    Exponentials and roots are parameters with their defining equations. */
module ShaperDefs {
  import opened ShaperCalibrate
  import opened Support

  datatype Kind = Zv | Zvd | Mzv | Ei | TwoHumpEi | ThreeHumpEi

  // What the definitions compute with functions that are not modelled: the exponential k of the
  // damping, the period td, the square root of two, and for the humped shapers a cube root x
  // over the square root xRoot, and another square root.
  datatype Parameters = Parameters(k: real, td: real, root2: real, x: real, xRoot: real, root: real)

  const V_TOL: real := 0.05
  const V2: real := 0.0025

  predicate IsRoot(r: real, x: real) {
    r >= 0.0 && r * r == x
  }

  function Cube(x: real): real {
    x * x * x
  }

  predicate ValidParameters(p: Parameters) {
    && p.k > 0.0 && p.td > 0.0 && IsRoot(p.root2, 2.0)
    && p.x > 0.0 && IsRoot(p.xRoot, 1.0 - V2) && Cube(p.x) == V2 * (p.xRoot + 1.0)
    && IsRoot(p.root, 2.0 * (V_TOL + 1.0) * V_TOL)
  }

  function TwoHumpFirst(x: real): real
    requires x != 0.0
  {
    (3.0 * x * x + 2.0 * x + 3.0 * V2) / (16.0 * x)
  }

  function ThreeHumpFirst(root: real): real {
    0.0625 * (1.0 + 3.0 * V_TOL + 2.0 * root)
  }

  function Weights(kind: Kind, p: Parameters): seq<real>
    requires p.x != 0.0 && p.root2 != 0.0
  {
    var k2 := Scaled(p.k, p.k);
    match kind
    case Zv => [1.0, p.k]
    case Zvd => [1.0, 2.0 * p.k, k2]
    case Mzv =>
      var a1 := 1.0 - 1.0 / p.root2;
      [a1, Scaled(p.root2 - 1.0, p.k), Scaled(a1, k2)]
    case Ei =>
      var a1 := 0.25 * (1.0 + V_TOL);
      [a1, 0.5 * (1.0 - V_TOL) * p.k, Scaled(a1, k2)]
    case TwoHumpEi =>
      var a1 := TwoHumpFirst(p.x);
      var a2 := Scaled(0.5 - a1, p.k);
      [a1, a2, Scaled(a2, p.k), Scaled(a1, Scaled(k2, p.k))]
    case ThreeHumpEi =>
      var a1 := ThreeHumpFirst(p.root);
      var a2 := 0.25 * (1.0 - V_TOL) * p.k;
      [a1, a2, Scaled(0.5 * (1.0 + V_TOL) - 2.0 * a1, k2), Scaled(a2, k2), Scaled(a1, Scaled(k2, k2))]
  }

  function ImpulseTimes(kind: Kind, td: real): seq<real> {
    match kind
    case Zv => [0.0, 0.5 * td]
    case Zvd => [0.0, 0.5 * td, td]
    case Mzv => [0.0, 0.375 * td, 0.75 * td]
    case Ei => [0.0, 0.5 * td, td]
    case TwoHumpEi => [0.0, 0.5 * td, td, 1.5 * td]
    case ThreeHumpEi => [0.0, 0.5 * td, td, 1.5 * td, 2.0 * td]
  }

  // Every input shaper that can be configured is spread, so the search ends for all of them.
  lemma ConfiguredShapersAreSpread(kind: Kind, p: Parameters)
    requires ValidParameters(p)
    ensures p.root2 != 0.0
    ensures var s := Impulses(Weights(kind, p), ImpulseTimes(kind, p.td)); Valid(s) && Spread(s)
  {
    hide Valid, Spread;
    WeightsPositive(kind, p);
    PositiveIsSpread(Impulses(Weights(kind, p), ImpulseTimes(kind, p.td)));
  }

  lemma WeightsPositive(kind: Kind, p: Parameters)
    requires ValidParameters(p)
    ensures p.root2 != 0.0 && |Weights(kind, p)| == |ImpulseTimes(kind, p.td)| >= 2
    ensures forall i :: 0 <= i < |Weights(kind, p)| ==> Weights(kind, p)[i] > 0.0
  {
    hide Scaled, IsRoot, Cube, TwoHumpFirst;
    var k := p.k;
    var k2 := Scaled(k, k);
    ScaledSign(k, k);
    SmallRoots(p);
    match kind
    case Zv =>
    case Zvd =>
    case Mzv =>
      ScaledSign(p.root2 - 1.0, k);
      ScaledSign(1.0 - 1.0 / p.root2, k2);
    case Ei => ScaledSign(0.25 * (1.0 + V_TOL), k2);
    case TwoHumpEi =>
      var a1 := TwoHumpFirst(p.x);
      TwoHumpBetween(p);
      ScaledSign(0.5 - a1, k);
      ScaledSign(Scaled(0.5 - a1, k), k);
      ScaledSign(k2, k);
      ScaledSign(a1, Scaled(k2, k));
    case ThreeHumpEi =>
      var a1 := ThreeHumpFirst(p.root);
      ScaledSign(0.5 * (1.0 + V_TOL) - 2.0 * a1, k2);
      ScaledSign(0.25 * (1.0 - V_TOL) * k, k2);
      ScaledSign(k2, k2);
      ScaledSign(a1, Scaled(k2, k2));
  }

  // Positive weights, the first two at different times.
  lemma PositiveIsSpread(s: Impulses)
    requires |s.a| == |s.t| >= 2 && (forall i :: 0 <= i < |s.a| ==> s.a[i] > 0.0) && s.t[0] != s.t[1]
    ensures Valid(s) && Spread(s)
  {
    WeightPositive(s, |s.a|);
    assert s.a[0] > 0.0 && s.a[1] > 0.0;
  }

  lemma {:induction false} WeightPositive(s: Impulses, n: nat)
    requires n <= |s.a| && forall i :: 0 <= i < |s.a| ==> s.a[i] > 0.0
    ensures Weight(s, n) >= 0.0 && (n > 0 ==> Weight(s, n) > 0.0)
  {
    if n > 0 {
      WeightPositive(s, n - 1);
    }
  }

  lemma SquareOrder(x: real, y: real)
    requires x >= 0.0 && y > 0.0
    ensures x * x < y * y <==> x < y
  {
    var d, sum := y - x, y + x;
    assert d * sum == y * y - x * x;
    Sign(d, sum);
  }

  lemma CubeOrder(x: real, y: real)
    requires x > 0.0 && y > 0.0
    ensures Cube(x) < Cube(y) <==> x < y
  {
    var d, sum := y - x, x * x + x * y + y * y;
    ProductSign(x, x);
    ProductSign(x, y);
    ProductSign(y, y);
    assert d * sum == Cube(y) - Cube(x);
    Sign(d, sum);
  }

  lemma SmallRoots(p: Parameters)
    requires ValidParameters(p)
    ensures p.root2 > 1.0 && 1.0 - 1.0 / p.root2 > 0.0 && 0.0 <= p.root < 1.0 && 0.0 <= p.xRoot < 1.0
  {
    SquareOrder(1.0, if p.root2 > 0.0 then p.root2 else 1.0);
    SquareOrder(p.root, 1.0);
    SquareOrder(p.xRoot, 1.0);
    var q := 1.0 / p.root2;
    assert q * p.root2 == 1.0;
    var u := q - 1.0;
    assert u * p.root2 == 1.0 - p.root2;
    Sign(u, p.root2);
  }

  lemma TwoHumpBetween(p: Parameters)
    requires ValidParameters(p)
    ensures 0.0 < TwoHumpFirst(p.x) < 0.5
  {
    hide IsRoot;
    SmallRoots(p);
    var x := p.x;
    CubeOrder(x, 1.0);
    CubeOrder(0.01, x);
    HumpFraction(x);
  }

  lemma HumpFraction(x: real)
    requires 0.01 < x < 1.0
    ensures 0.0 < TwoHumpFirst(x) < 0.5
  {
    var sq, bottom := x * x, 16.0 * x;
    ProductSign(x, x);
    ProductSign(x - 0.01, 1.0 - x);
    assert (x - 0.01) * (1.0 - x) == 1.01 * x - sq - 0.01;
    var top := 3.0 * x * x + 2.0 * x + 3.0 * V2;
    assert top == 3.0 * sq + 2.0 * x + 0.0075;
    var q := top / bottom;
    assert q * bottom == top;
    Sign(q, bottom);
    var u := 0.5 - q;
    assert u * bottom == 8.0 * x - top;
    Sign(u, bottom);
  }

  // ---------- the vibration that is left ----------

  function Power(k: real, n: nat): real {
    if n == 0 then 1.0 else Scaled(Power(k, n - 1), k)
  }

  lemma {:induction false} PowerPositive(k: real, n: nat)
    requires k > 0.0
    ensures Power(k, n) > 0.0
  {
    hide Scaled;
    if n > 0 {
      PowerPositive(k, n - 1);
      ScaledSign(Power(k, n - 1), k);
    }
  }

  // The state of the vibration, seen at the moment of the first impulse.
  datatype Phasor = Phasor(re: real, im: real)

  function Turn(v: Phasor, angle: Phasor): Phasor {
    Phasor(Scaled(v.re, angle.re) - Scaled(v.im, angle.im), Scaled(v.re, angle.im) + Scaled(v.im, angle.re))
  }

  function Turned(angle: Phasor, n: nat): Phasor {
    if n == 0 then Phasor(1.0, 0.0) else Turn(Turned(angle, n - 1), angle)
  }

  // The sum of the first n impulses, one every turn, the damping being k for each.
  function Left(a: seq<real>, k: real, angle: Phasor, n: nat): Phasor
    requires n <= |a| && k > 0.0
  {
    if n == 0 then Phasor(0.0, 0.0)
    else
      PowerPositive(k, n - 1);
      var before, at, size := Left(a, k, angle, n - 1), Turned(angle, n - 1), a[n - 1] / Power(k, n - 1);
      Phasor(before.re + Scaled(size, at.re), before.im + Scaled(size, at.im))
  }

  // What a single impulse of the same strength leaves.
  function Whole(a: seq<real>, k: real, n: nat): real
    requires n <= |a| && k > 0.0
  {
    if n == 0 then 0.0
    else
      PowerPositive(k, n - 1);
      Whole(a, k, n - 1) + a[n - 1] / Power(k, n - 1)
  }

  // Impulses are half a period of the vibration apart, those of the mzv shaper three eighths.
  function Spacing(kind: Kind): real {
    if kind.Mzv? then 0.375 else 0.5
  }

  // A turn by 180 or 135 degrees.
  function TurnOf(kind: Kind, root2: real): Phasor
    requires root2 != 0.0
  {
    if kind.Mzv? then Phasor(-1.0 / root2, 1.0 / root2) else Phasor(-1.0, 0.0)
  }

  lemma EvenlySpaced(kind: Kind, td: real, j: nat)
    requires j < |ImpulseTimes(kind, td)|
    ensures ImpulseTimes(kind, td)[j] == Scaled(Spacing(kind) * j as real, td)
  {
  }

  // The weights that remain without damping.
  function Undamped(kind: Kind, p: Parameters): seq<real>
    requires p.x != 0.0 && p.root2 != 0.0
  {
    match kind
    case Zv => [1.0, 1.0]
    case Zvd => [1.0, 2.0, 1.0]
    case Mzv => [1.0 - 1.0 / p.root2, p.root2 - 1.0, 1.0 - 1.0 / p.root2]
    case Ei => [0.25 * (1.0 + V_TOL), 0.5 * (1.0 - V_TOL), 0.25 * (1.0 + V_TOL)]
    case TwoHumpEi =>
      var a1 := TwoHumpFirst(p.x);
      [a1, 0.5 - a1, 0.5 - a1, a1]
    case ThreeHumpEi =>
      var a1 := ThreeHumpFirst(p.root);
      [a1, 0.25 * (1.0 - V_TOL), 0.5 * (1.0 + V_TOL) - 2.0 * a1, 0.25 * (1.0 - V_TOL), a1]
  }

  lemma DampedWeights(kind: Kind, p: Parameters, j: nat)
    requires p.x != 0.0 && p.root2 != 0.0 && j < |Weights(kind, p)|
    ensures |Undamped(kind, p)| == |Weights(kind, p)| && Weights(kind, p)[j] == Scaled(Undamped(kind, p)[j], Power(p.k, j))
  {
    hide Power, Scaled, TwoHumpFirst, ThreeHumpFirst;
    SmallPowers(p.k);
    ScaledOne(Undamped(kind, p)[0]);
    Products(p.k, Scaled(p.k, p.k), Undamped(kind, p)[if j < |Undamped(kind, p)| then j else 0]);
  }

  lemma SmallPowers(k: real)
    ensures Power(k, 0) == 1.0 && Power(k, 1) == k && Power(k, 2) == Scaled(k, k)
    ensures Power(k, 3) == Scaled(Scaled(k, k), k) && Power(k, 4) == Scaled(Scaled(k, k), Scaled(k, k))
  {
    assert Power(k, 1) == 1.0 * k;
    assert Power(k, 2) == Power(k, 1) * k;
    assert Power(k, 3) == Power(k, 2) * k;
    assert Power(k, 4) == Power(k, 3) * k;
    assert k * k * k * k == (k * k) * (k * k);
  }

  lemma ScaledOne(x: real)
    ensures Scaled(x, 1.0) == x
  {
  }

  lemma Products(k: real, k2: real, x: real)
    requires k2 == Scaled(k, k)
    ensures x * k == Scaled(x, k) && Scaled(Scaled(x, k), k) == Scaled(x, k2)
    ensures Scaled(1.0, k) == k && Scaled(1.0, k2) == k2 && Scaled(Scaled(x, k), k2) == Scaled(x, Scaled(k2, k))
  {
    assert x * k * k == x * (k * k);
    assert x * k * k2 == x * (k2 * k);
  }

  // What the three steps of a sum leave, for weights that are u times the powers of k.
  ghost predicate Damped(a: seq<real>, u: seq<real>, k: real) {
    |a| == |u| && forall j :: 0 <= j < |a| ==> a[j] == Scaled(u[j], Power(k, j))
  }

  // The sum of the first n of u, in which every turn by half a period changes the sign.
  function Alternating(u: seq<real>, n: nat): real
    requires n <= |u|
  {
    if n == 0 then 0.0 else Alternating(u, n - 1) + if n % 2 == 1 then u[n - 1] else -u[n - 1]
  }

  lemma HalfTurn(x: real)
    ensures Turn(Phasor(x, 0.0), Phasor(-1.0, 0.0)) == Phasor(-x, 0.0)
  {
  }

  lemma {:induction false} HalfTurns(angle: Phasor, n: nat)
    requires angle == Phasor(-1.0, 0.0)
    ensures Turned(angle, n) == Phasor(if n % 2 == 0 then 1.0 else -1.0, 0.0)
  {
    hide Turn;
    if n > 0 {
      HalfTurns(angle, n - 1);
      HalfTurn(if n % 2 == 0 then -1.0 else 1.0);
    }
  }

  lemma Undone(x: real, y: real)
    requires y > 0.0
    ensures Scaled(x, y) / y == x
  {
  }

  lemma {:induction false} LeftAlternates(a: seq<real>, u: seq<real>, k: real, n: nat)
    requires Damped(a, u, k) && k > 0.0 && n <= |a|
    ensures Left(a, k, Phasor(-1.0, 0.0), n) == Phasor(Alternating(u, n), 0.0)
  {
    hide Power, Scaled, Turned, Damped;
    if n > 0 {
      LeftAlternates(a, u, k, n - 1);
      PowerPositive(k, n - 1);
      HalfTurns(Phasor(-1.0, 0.0), n - 1);
      SizeOf(a, u, k, n - 1);
      Signs(u[n - 1]);
    }
  }

  lemma SizeOf(a: seq<real>, u: seq<real>, k: real, j: nat)
    requires Damped(a, u, k) && k > 0.0 && j < |a|
    ensures Power(k, j) > 0.0 && j < |u| && a[j] / Power(k, j) == u[j]
  {
    hide Power, Scaled;
    PowerPositive(k, j);
    Undone(u[j], Power(k, j));
  }

  lemma Signs(x: real)
    ensures Scaled(x, 1.0) == x && Scaled(x, -1.0) == -x && Scaled(x, 0.0) == 0.0
  {
  }

  function Total(u: seq<real>, n: nat): real
    requires n <= |u|
  {
    if n == 0 then 0.0 else Total(u, n - 1) + u[n - 1]
  }

  lemma {:induction false} WholeIsTotal(a: seq<real>, u: seq<real>, k: real, n: nat)
    requires Damped(a, u, k) && k > 0.0 && n <= |a|
    ensures Whole(a, k, n) == Total(u, n)
  {
    hide Power, Damped;
    if n > 0 {
      WholeIsTotal(a, u, k, n - 1);
      SizeOf(a, u, k, n - 1);
    }
  }

  // The part of the vibration that is left.
  function Tolerance(kind: Kind): real {
    if kind.Ei? || kind.ThreeHumpEi? then 0.05 else 0.0
  }

  // At the frequency it is made for, and whatever the damping, a shaper leaves nothing of the
  // vibration, or exactly a twentieth of it in the case of the ei and 3hump_ei shapers.
  lemma VibrationLeft(kind: Kind, p: Parameters)
    requires ValidParameters(p)
    ensures p.root2 != 0.0
    ensures var a := Weights(kind, p);
            && Left(a, p.k, TurnOf(kind, p.root2), |a|) == Phasor(Scaled(Tolerance(kind), Whole(a, p.k, |a|)), 0.0)
            && Whole(a, p.k, |a|) > 0.0
  {
    hide Power, Scaled, Left, Whole, Alternating, Total, IsRoot, Cube, TwoHumpFirst, ThreeHumpFirst;
    SmallRoots(p);
    var a, u := Weights(kind, p), Undamped(kind, p);
    forall j | 0 <= j < |a| ensures |u| == |a| && a[j] == Scaled(u[j], Power(p.k, j)) {
      DampedWeights(kind, p, j);
    }
    assert |a| > 0;
    DampedWeights(kind, p, 0);
    WholeIsTotal(a, u, p.k, |a|);
    if kind.Mzv? {
      MzvLeft(p, a, u);
      NothingScaled(Whole(a, p.k, |a|));
    } else {
      LeftAlternates(a, u, p.k, |a|);
      HalfTurnShapers(kind, p);
    }
  }

  // The sums of up to five weights.
  lemma TotalOf(u: seq<real>)
    requires 2 <= |u| <= 5
    ensures Total(u, |u|) == u[0] + u[1] + (if |u| > 2 then u[2] else 0.0) + (if |u| > 3 then u[3] else 0.0)
                             + (if |u| > 4 then u[4] else 0.0)
    ensures Alternating(u, |u|) == u[0] - u[1] + (if |u| > 2 then u[2] else 0.0) - (if |u| > 3 then u[3] else 0.0)
                                   + (if |u| > 4 then u[4] else 0.0)
  {
    assert Total(u, 1) == u[0] && Alternating(u, 1) == u[0];
    assert Total(u, 2) == u[0] + u[1] && Alternating(u, 2) == u[0] - u[1];
    if |u| > 2 {
      assert Total(u, 3) == Total(u, 2) + u[2] && Alternating(u, 3) == Alternating(u, 2) + u[2];
      if |u| > 3 {
        assert Total(u, 4) == Total(u, 3) + u[3] && Alternating(u, 4) == Alternating(u, 3) - u[3];
      }
    }
  }

  lemma HalfTurnShapers(kind: Kind, p: Parameters)
    requires ValidParameters(p) && p.root2 != 0.0 && !kind.Mzv?
    ensures var u := Undamped(kind, p);
            && 2 <= |u| <= 5 && Total(u, |u|) > 0.0
            && Alternating(u, |u|) == Scaled(Tolerance(kind), Total(u, |u|))
  {
    hide IsRoot, Cube, TwoHumpFirst, ThreeHumpFirst, Total, Alternating;
    TotalOf(Undamped(kind, p));
  }

  // Turning by 135 degrees twice is turning by 270.
  lemma TurnTwice(angle: Phasor, q: real)
    requires angle == Phasor(-q, q) && Scaled(q, q) == 0.5
    ensures Turned(angle, 0) == Phasor(1.0, 0.0) && Turned(angle, 1) == angle && Turned(angle, 2) == Phasor(0.0, -1.0)
  {
    assert Turned(angle, 1) == Turn(Turned(angle, 0), angle);
    assert Turned(angle, 2) == Turn(angle, angle);
  }

  lemma RootInverse(root2: real) returns (q: real)
    requires root2 > 1.0 && root2 * root2 == 2.0
    ensures q == 1.0 / root2 && -1.0 / root2 == -q && Scaled(q, q) == 0.5 && Scaled(root2 - 1.0, q) == 1.0 - q && q < 1.0
  {
    q := 1.0 / root2;
    assert q * root2 == 1.0;
    assert q * q * (root2 * root2) == q * root2 * (q * root2);
    var u := q - 1.0;
    assert u * root2 == 1.0 - root2;
    Sign(u, root2);
  }

  lemma ThreeLeft(a: seq<real>, k: real, angle: Phasor, u0: real, u1: real, u2: real)
    requires k > 0.0 && |a| == 3
    requires Power(k, 0) > 0.0 && Power(k, 1) > 0.0 && Power(k, 2) > 0.0
    requires a[0] / Power(k, 0) == u0 && a[1] / Power(k, 1) == u1 && a[2] / Power(k, 2) == u2
    ensures Left(a, k, angle, 3) ==
            Phasor(Scaled(u0, Turned(angle, 0).re) + Scaled(u1, Turned(angle, 1).re) + Scaled(u2, Turned(angle, 2).re),
                   Scaled(u0, Turned(angle, 0).im) + Scaled(u1, Turned(angle, 1).im) + Scaled(u2, Turned(angle, 2).im))
  {
    hide Power, Scaled, Turned;
    var l0, l1, l2 := Left(a, k, angle, 0), Left(a, k, angle, 1), Left(a, k, angle, 2);
    assert l0 == Phasor(0.0, 0.0);
    assert l1 == Phasor(l0.re + Scaled(u0, Turned(angle, 0).re), l0.im + Scaled(u0, Turned(angle, 0).im));
    assert l2 == Phasor(l1.re + Scaled(u1, Turned(angle, 1).re), l1.im + Scaled(u1, Turned(angle, 1).im));
  }

  lemma MzvLeft(p: Parameters, a: seq<real>, u: seq<real>)
    requires ValidParameters(p) && p.root2 > 1.0 && Damped(a, u, p.k) && u == Undamped(Mzv, p)
    ensures Left(a, p.k, TurnOf(Mzv, p.root2), 3) == Phasor(0.0, 0.0) && Total(u, 3) > 0.0
  {
    hide Power, Left, Scaled, Turned, Total, Cube;
    var q := RootInverse(p.root2);
    TurnTwice(TurnOf(Mzv, p.root2), q);
    SizeOf(a, u, p.k, 0);
    SizeOf(a, u, p.k, 1);
    SizeOf(a, u, p.k, 2);
    ThreeLeft(a, p.k, TurnOf(Mzv, p.root2), u[0], u[1], u[2]);
    Signs(u[0]);
    Signs(u[2]);
    ScaledMinus(u[1], q);
    TotalOf(u);
  }

  lemma ScaledMinus(x: real, q: real)
    ensures Scaled(x, -q) == -Scaled(x, q)
  {
  }
}
