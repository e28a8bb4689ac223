/** How the humped input shapers answer to other frequencies than their own
    (software/klipper/extras/shaper_defs.py): without damping, between their zeros the vibration
    left never exceeds the tolerance, and every hump reaches exactly that. */
module ShaperHumps {
  import opened ShaperCalibrate
  import opened ShaperDefs
  import opened Support

  // ---------- the response at any frequency ----------

  // A frequency is given by the turn it makes from one impulse to the next.
  ghost predicate Unit(z: Phasor) {
    Scaled(z.re, z.re) + Scaled(z.im, z.im) == 1.0
  }

  function Norm(v: Phasor): real {
    Scaled(v.re, v.re) + Scaled(v.im, v.im)
  }

  function Plus(v: Phasor, w: Phasor): Phasor {
    Phasor(v.re + w.re, v.im + w.im)
  }

  function Stretch(x: real, v: Phasor): Phasor {
    Phasor(Scaled(x, v.re), Scaled(x, v.im))
  }

  lemma {:induction false} NoDamping(n: nat)
    ensures Power(1.0, n) == 1.0
  {
    if n > 0 {
      NoDamping(n - 1);
    }
  }

  lemma LeftNext(u: seq<real>, z: Phasor, n: nat)
    requires n < |u|
    ensures Left(u, 1.0, z, n + 1) == Plus(Left(u, 1.0, z, n), Stretch(u[n], Turned(z, n)))
  {
    hide Turned, Scaled, Power;
    NoDamping(n);
    assert u[n] / Power(1.0, n) == u[n];
  }

  // On the unit circle a turn twice is twice the cosine times a turn, less none.
  lemma TurnAgain(v: Phasor, z: Phasor)
    requires Unit(z)
    ensures var once := Turn(v, z);
            Turn(once, z) == Phasor(Scaled(2.0 * z.re, once.re) - v.re, Scaled(2.0 * z.re, once.im) - v.im)
  {
    var c, s, x, y := z.re, z.im, v.re, v.im;
    var cc, ss, cs := c * c, s * s, c * s;
    assert (x * c - y * s) * c - (x * s + y * c) * s == x * (cc - ss) - 2.0 * (y * cs);
    assert 2.0 * c * (x * c - y * s) - x == 2.0 * (x * cc) - 2.0 * (y * cs) - x;
    assert x * (cc - ss) == 2.0 * (x * cc) - x by {
      assert cc - ss == 2.0 * cc - 1.0;
      assert x * (2.0 * cc - 1.0) == 2.0 * (x * cc) - x;
    }
    assert (x * c - y * s) * s + (x * s + y * c) * c == 2.0 * (x * cs) + y * (cc - ss);
    assert 2.0 * c * (x * s + y * c) - y == 2.0 * (x * cs) + 2.0 * (y * cc) - y;
    assert y * (cc - ss) == 2.0 * (y * cc) - y by {
      assert cc - ss == 2.0 * cc - 1.0;
      assert y * (2.0 * cc - 1.0) == 2.0 * (y * cc) - y;
    }
  }

  lemma TurnedTwice(z: Phasor, n: nat)
    requires Unit(z)
    ensures Turned(z, n + 2) == Plus(Stretch(2.0 * z.re, Turned(z, n + 1)), Stretch(-1.0, Turned(z, n)))
  {
    hide Turn;
    TurnAgain(Turned(z, n), z);
  }

  lemma TurnedOnce(z: Phasor)
    ensures Turned(z, 0) == Phasor(1.0, 0.0) && Turned(z, 1) == z
  {
  }

  lemma {:induction false} TurnedUnit(z: Phasor, n: nat)
    requires Unit(z)
    ensures Norm(Turned(z, n)) == 1.0
  {
    hide Turn, Norm, Scaled;
    if n == 0 {
      NormOne();
    } else {
      TurnedUnit(z, n - 1);
      NormOfTurn(Turned(z, n - 1), z);
      ScaledUnit();
    }
  }

  lemma NormOne()
    ensures Norm(Phasor(1.0, 0.0)) == 1.0
  {
  }

  lemma ScaledUnit()
    ensures Scaled(1.0, 1.0) == 1.0
  {
  }

  lemma NormOfTurn(v: Phasor, z: Phasor)
    ensures Norm(Turn(v, z)) == Scaled(Norm(v), Norm(z)) && Norm(z) == Scaled(z.re, z.re) + Scaled(z.im, z.im)
  {
    var x, y, c, s := v.re, v.im, z.re, z.im;
    var xx, yy, cc, ss := x * x, y * y, c * c, s * s;
    var cross := x * c * (y * s);
    assert (x * c - y * s) * (x * c - y * s) == xx * cc - 2.0 * cross + yy * ss by {
      assert (x * c) * (x * c) == xx * cc && (y * s) * (y * s) == yy * ss;
    }
    assert (x * s + y * c) * (x * s + y * c) == xx * ss + 2.0 * cross + yy * cc by {
      assert (x * s) * (x * s) == xx * ss && (y * c) * (y * c) == yy * cc && (x * s) * (y * c) == cross;
    }
    assert (xx + yy) * (cc + ss) == xx * cc + xx * ss + yy * cc + yy * ss;
  }

  lemma NormOfStretch(q: real, v: Phasor)
    ensures Norm(Stretch(q, v)) == Scaled(Scaled(q, q), Norm(v))
  {
    var x, y := v.re, v.im;
    assert (q * x) * (q * x) == q * q * (x * x) && (q * y) * (q * y) == q * q * (y * y);
    assert q * q * (x * x + y * y) == q * q * (x * x) + q * q * (y * y);
  }

  // ---------- four impulses ----------

  // a, b, b, a at any frequency: the turns from the first to the second and to the third
  // impulse, stretched.
  lemma FourImpulses(u: seq<real>, z: Phasor)
    requires |u| == 4 && u[0] == u[3] && u[1] == u[2] && Unit(z)
    ensures Left(u, 1.0, z, 4) ==
            Stretch(2.0 * Scaled(u[0], z.re) + u[1] - u[0], Plus(Turned(z, 1), Turned(z, 2)))
  {
    hide Left, Turned, Power, Unit;
    NothingLeft(u, z);
    LeftNext(u, z, 0);
    LeftNext(u, z, 1);
    LeftNext(u, z, 2);
    LeftNext(u, z, 3);
    TurnedTwice(z, 0);
    TurnedTwice(z, 1);
    var z0, z1, z2, z3 := Turned(z, 0), Turned(z, 1), Turned(z, 2), Turned(z, 3);
    FourTerms(u[0], u[1], z.re, z0.re, z1.re, z2.re, z3.re);
    FourTerms(u[0], u[1], z.re, z0.im, z1.im, z2.im, z3.im);
  }

  lemma NothingLeft(u: seq<real>, z: Phasor)
    ensures Left(u, 1.0, z, 0) == Phasor(0.0, 0.0)
  {
  }

  lemma FourTerms(a: real, b: real, c: real, x0: real, x1: real, x2: real, x3: real)
    requires x2 == Scaled(2.0 * c, x1) + Scaled(-1.0, x0) && x3 == Scaled(2.0 * c, x2) + Scaled(-1.0, x1)
    ensures 0.0 + Scaled(a, x0) + Scaled(b, x1) + Scaled(b, x2) + Scaled(a, x3) == Scaled(2.0 * Scaled(a, c) + b - a, x1 + x2)
  {
    var e1, e2 := c * x1, c * x2;
    assert x2 == 2.0 * e1 - x0 && x3 == 2.0 * e2 - x1;
    assert a * c * x1 == a * e1 && a * c * x2 == a * e2;
    assert a * (x0 + x2) == 2.0 * (a * e1);
    assert a * (x1 + x3) == 2.0 * (a * e2);
    assert (2.0 * (a * c) + b - a) * (x1 + x2) == 2.0 * (a * c * x1) + 2.0 * (a * c * x2) + b * x1 + b * x2 - a * x1 - a * x2;
  }

  lemma NextTurns(z: Phasor)
    requires Unit(z)
    ensures Norm(Plus(Turned(z, 1), Turned(z, 2))) == 2.0 + 2.0 * z.re
  {
    hide Turned, Unit, Norm;
    TurnedOnce(z);
    TurnedTwice(z, 0);
    var next := Plus(Turned(z, 1), Turned(z, 2));
    Doubled(z.re, z.im);
    OneAndTurn(z, next);
  }

  lemma Doubled(c: real, s: real)
    ensures Scaled(2.0 * c, c) + Scaled(-1.0, 1.0) == 2.0 * (c * c) - 1.0
    ensures Scaled(2.0 * c, s) + Scaled(-1.0, 0.0) == 2.0 * (c * s)
  {
  }

  lemma OneAndTurn(z: Phasor, next: Phasor)
    requires Unit(z) && next == Phasor(z.re + (2.0 * (z.re * z.re) - 1.0), z.im + 2.0 * (z.re * z.im))
    ensures Norm(next) == 2.0 + 2.0 * z.re
  {
    var c, s := z.re, z.im;
    var w := 1.0 + 2.0 * c;
    SquaresOf(c, s * s, w);
    assert next.im == s * w;
    assert next.im * next.im == s * s * (w * w);
    assert next.re == c * w - 1.0;
  }

  lemma SquaresOf(c: real, ss: real, w: real)
    requires w == 1.0 + 2.0 * c && ss == 1.0 - c * c
    ensures (c * w - 1.0) * (c * w - 1.0) + ss * (w * w) == 2.0 + 2.0 * c
  {
    var cc, ww, cw := c * c, w * w, c * w;
    assert cw == c + 2.0 * cc && ww == 1.0 + 4.0 * c + 4.0 * cc;
    assert cw * cw == cc * ww;
    assert ss * ww == ww - cc * ww;
  }

  // ---------- the 2hump_ei shaper ----------

  // The equation the first weight solves.
  lemma TwoHumpEquation(p: Parameters)
    requires ValidParameters(p)
    ensures var d := 8.0 * TwoHumpFirst(p.x) - 1.0; d > 0.0 && d * d * d == 54.0 * V2 * TwoHumpFirst(p.x)
  {
    hide TwoHumpFirst;
    var x := p.x;
    SmallRoots(p);
    CubeSquare(p.xRoot, Cube(x));
    TwoHumpValue(x);
    TwoHumpCubic(x, x * x, TwoHumpFirst(x));
  }

  lemma CubeSquare(root: real, cube: real)
    requires root * root == 1.0 - V2 && cube == V2 * (root + 1.0)
    ensures cube * cube == 2.0 * V2 * cube - V2 * V2 * V2
  {
    assert cube - V2 == V2 * root;
    assert (V2 * root) * (V2 * root) == V2 * V2 * (1.0 - V2);
    assert (cube - V2) * (cube - V2) == cube * cube - 2.0 * V2 * cube + V2 * V2;
  }

  lemma TwoHumpValue(x: real)
    requires x > 0.0
    ensures 16.0 * (x * TwoHumpFirst(x)) == 3.0 * (x * x) + 2.0 * x + 3.0 * V2
    ensures 2.0 * (x * (8.0 * TwoHumpFirst(x) - 1.0)) == 3.0 * (x * x) + 3.0 * V2
    ensures 8.0 * TwoHumpFirst(x) - 1.0 > 0.0
  {
    var top, bottom := 3.0 * x * x + 2.0 * x + 3.0 * V2, 16.0 * x;
    var a := top / bottom;
    assert a * bottom == top;
    assert a * bottom == 16.0 * (x * a);
    var d := 8.0 * a - 1.0;
    assert 2.0 * (x * d) == 16.0 * (x * a) - 2.0 * x;
    ProductSign(x, x);
    Sign(d, x);
    assert d * x == x * d;
  }

  lemma TwoHumpCubic(x: real, sq: real, a: real)
    requires x > 0.0 && sq == x * x && (x * sq) * (x * sq) == 2.0 * V2 * (x * sq) - V2 * V2 * V2
    requires 16.0 * (x * a) == 3.0 * sq + 2.0 * x + 3.0 * V2
    requires 2.0 * (x * (8.0 * a - 1.0)) == 3.0 * sq + 3.0 * V2
    ensures var d := 8.0 * a - 1.0; d * d * d == 54.0 * V2 * a
  {
    var d, v := 8.0 * a - 1.0, V2;
    var w := sq + v;
    var cube := x * sq;
    assert 2.0 * (x * d) == 3.0 * w;
    // both sides times 8 x^3
    var m := x * d;
    assert 8.0 * (m * m * m) == 27.0 * (w * w * w) by {
      assert m == 1.5 * w;
    }
    assert w * w * w == sq * sq * sq + 3.0 * v * (sq * sq) + 3.0 * v * v * sq + v * v * v;
    assert sq * sq * sq == cube * cube;
    assert sq * sq == x * cube;
    var right := x * x * (16.0 * (x * a));
    assert right == sq * (3.0 * sq + 2.0 * x + 3.0 * v);
    assert sq * (3.0 * sq + 2.0 * x + 3.0 * v) == 3.0 * (sq * sq) + 2.0 * cube + 3.0 * v * sq;
    assert 27.0 * (w * w * w) == 27.0 * v * right;
    assert m * m * m == cube * (d * d * d);
    assert right == 16.0 * (cube * a);
    assert cube > 0.0 by {
      ProductSign(x, x);
      ProductSign(x, sq);
    }
    assert cube * (8.0 * (d * d * d)) == cube * (27.0 * v * 16.0 * a);
    SameFactor(8.0 * (d * d * d), 27.0 * v * 16.0 * a, cube);
  }

  // The norm in terms of e, which says where the hump is, and of the distance h from it.
  lemma HumpSquare(a: real, e: real, h: real)
    ensures Scaled(Scaled(-2.0 * Scaled(a, h + e), -2.0 * Scaled(a, h + e)), e - 2.0 * h) ==
            4.0 * Scaled(Scaled(a, a), e * e * e) - 4.0 * Scaled(Scaled(a, a), Scaled(h * h, 2.0 * h + 3.0 * e))
  {
    var aa, s := a * a, h + e;
    assert (-2.0 * (a * s)) * (-2.0 * (a * s)) == 4.0 * (aa * (s * s));
    assert s * s == h * h + 2.0 * (h * e) + e * e;
    assert (h * h) * (e - 2.0 * h) == (h * h) * e - 2.0 * (h * h * h);
    assert (h * e) * (e - 2.0 * h) == h * (e * e) - 2.0 * ((h * h) * e);
    assert (e * e) * (e - 2.0 * h) == e * e * e - 2.0 * (h * (e * e));
    var cubic := s * s * (e - 2.0 * h);
    assert cubic == e * e * e - (h * h) * (2.0 * h + 3.0 * e);
    assert 4.0 * (aa * (s * s)) * (e - 2.0 * h) == 4.0 * (aa * cubic);
    assert aa * cubic == aa * (e * e * e) - aa * ((h * h) * (2.0 * h + 3.0 * e));
  }

  lemma HumpDepth(a: real, d: real, e: real)
    requires a > 0.0 && d * d * d == 54.0 * V2 * a && e * (6.0 * a) == d
    ensures 4.0 * Scaled(Scaled(a, a), e * e * e) == V2
  {
    var ae := e * a;
    assert d == 6.0 * ae;
    assert d * d * d == 216.0 * (ae * ae * ae);
    assert ae * ae * ae == a * (a * a * (e * e * e));
    assert a * (216.0 * (a * a * (e * e * e))) == a * (54.0 * V2);
    SameFactor(216.0 * (a * a * (e * e * e)), 54.0 * V2, a);
  }

  lemma HumpExcess(a: real, e: real, h: real)
    requires e > 0.0
    ensures h >= -e ==> Scaled(Scaled(a, a), Scaled(h * h, 2.0 * h + 3.0 * e)) >= 0.0
    ensures h == 0.0 ==> Scaled(Scaled(a, a), Scaled(h * h, 2.0 * h + 3.0 * e)) == 0.0
  {
    SquareSign(a);
    SquareSign(h);
    if h >= -e {
      ProductSign(h * h, 2.0 * h + 3.0 * e);
      ProductSign(a * a, h * h * (2.0 * h + 3.0 * e));
    }
  }

  // The cosine of the turn at which the 2hump_ei shaper, with first weight a, has its hump.
  function HumpCosine(a: real): real
    requires a != 0.0
  {
    (8.0 * a - 1.0) / (12.0 * a) - 1.0
  }

  // Between its two zeros the 2hump_ei shaper leaves at most a twentieth of the vibration, as
  // a square one four-hundredth, and at the hump exactly that.
  lemma TwoHumps(p: Parameters, z: Phasor)
    requires ValidParameters(p) && Unit(z)
    ensures p.root2 != 0.0
    ensures var u := Undamped(TwoHumpEi, p);
            && u[0] != 0.0
            && (4.0 * Scaled(u[0], 1.0 - z.re) >= 1.0 ==> Norm(Left(u, 1.0, z, 4)) <= 0.0025)
            && (z.re == HumpCosine(u[0]) ==> Norm(Left(u, 1.0, z, 4)) == 0.0025)
  {
    hide Left, Turned, Unit, Norm, TwoHumpFirst, IsRoot, Cube, Scaled;
    SmallRoots(p);
    TwoHumpEquation(p);
    TwoHumpBetween(p);
    var u := Undamped(TwoHumpEi, p);
    var a := u[0];
    var d := 8.0 * a - 1.0;
    var e := PartOf(d, a);
    var h := e / 2.0 - 1.0 - z.re;
    FourImpulses(u, z);
    HumpStretch(a, d, e, h, z.re);
    var next := Plus(Turned(z, 1), Turned(z, 2));
    NormOfStretch(-2.0 * Scaled(a, h + e), next);
    NextTurns(z);
    HumpSquare(a, e, h);
    HumpDepth(a, d, e);
    HumpExcess(a, e, h);
  }

  lemma PartOf(d: real, a: real) returns (e: real)
    requires a > 0.0 && d > 0.0
    ensures e > 0.0 && e * (6.0 * a) == d && e / 2.0 == d / (12.0 * a)
  {
    e := d / (6.0 * a);
    assert e * (6.0 * a) == d;
    Sign(e, 6.0 * a);
    assert e / 2.0 * (12.0 * a) == d;
  }

  lemma HumpStretch(a: real, d: real, e: real, h: real, c: real)
    requires a > 0.0 && d == 8.0 * a - 1.0 && e * (6.0 * a) == d && h == e / 2.0 - 1.0 - c
    ensures 2.0 * Scaled(a, c) + (0.5 - a) - a == -2.0 * Scaled(a, h + e)
    ensures 4.0 * Scaled(a, 1.0 - c) >= 1.0 <==> h >= -e
  {
    var ae, ac := a * e, a * c;
    assert 6.0 * ae == 8.0 * a - 1.0;
    assert a * (h + e) == 1.5 * ae - a - ac;
    assert a * (1.0 - c) == a - ac;
    Sign(h + e, a);
    assert (h + e) * a == a * (h + e);
  }

  // ---------- the 3hump_ei shaper ----------

  // a, b, c, b, a at any frequency.
  lemma FiveImpulses(u: seq<real>, z: Phasor)
    requires |u| == 5 && u[0] == u[4] && u[1] == u[3] && Unit(z)
    ensures Left(u, 1.0, z, 5) ==
            Stretch(4.0 * Scaled(u[0], Scaled(z.re, z.re)) + 2.0 * Scaled(u[1], z.re) + u[2] - 2.0 * u[0], Turned(z, 2))
  {
    hide Left, Turned, Power, Unit;
    NothingLeft(u, z);
    LeftNext(u, z, 0);
    LeftNext(u, z, 1);
    LeftNext(u, z, 2);
    LeftNext(u, z, 3);
    LeftNext(u, z, 4);
    TurnedTwice(z, 0);
    TurnedTwice(z, 1);
    TurnedTwice(z, 2);
    var z0, z1, z2, z3, z4 := Turned(z, 0), Turned(z, 1), Turned(z, 2), Turned(z, 3), Turned(z, 4);
    FiveTerms(u[0], u[1], u[2], z.re, z0.re, z1.re, z2.re, z3.re, z4.re);
    FiveTerms(u[0], u[1], u[2], z.re, z0.im, z1.im, z2.im, z3.im, z4.im);
  }

  lemma FiveTerms(a: real, b: real, w: real, c: real, x0: real, x1: real, x2: real, x3: real, x4: real)
    requires x2 == Scaled(2.0 * c, x1) + Scaled(-1.0, x0) && x3 == Scaled(2.0 * c, x2) + Scaled(-1.0, x1)
    requires x4 == Scaled(2.0 * c, x3) + Scaled(-1.0, x2)
    ensures 0.0 + Scaled(a, x0) + Scaled(b, x1) + Scaled(w, x2) + Scaled(b, x3) + Scaled(a, x4) ==
            Scaled(4.0 * Scaled(a, Scaled(c, c)) + 2.0 * Scaled(b, c) + w - 2.0 * a, x2)
  {
    var e1, e2, e3 := c * x1, c * x2, c * x3;
    assert x1 + x3 == 2.0 * e2;
    assert x0 + x4 == 2.0 * e1 + 2.0 * e3 - 2.0 * x2;
    assert e1 + e3 == c * (x1 + x3);
    assert c * (2.0 * e2) == 2.0 * (c * c * x2);
    assert b * (x1 + x3) == 2.0 * (b * e2) && b * e2 == b * c * x2;
    assert a * (x0 + x4) == 4.0 * (a * (c * c * x2)) - 2.0 * (a * x2);
    assert a * (c * c * x2) == a * (c * c) * x2;
    assert (4.0 * (a * (c * c)) + 2.0 * (b * c) + w - 2.0 * a) * x2 ==
           4.0 * (a * (c * c) * x2) + 2.0 * (b * c * x2) + w * x2 - 2.0 * (a * x2);
  }

  lemma ThreeHumpEquation(root: real)
    requires root >= 0.0 && root * root == 2.0 * (V_TOL + 1.0) * V_TOL
    ensures var a, b := ThreeHumpFirst(root), 0.25 * (1.0 - V_TOL);
            a > 0.0 && b * b == Scaled(4.0 * a, 0.5 * (1.0 + V_TOL) - 4.0 * a + V_TOL)
  {
    var s := 1.0 + 3.0 * V_TOL;
    assert (s + 2.0 * root) * (s - 2.0 * root) == s * s - 4.0 * (root * root);
  }

  // Up to the frequency where it leaves a twentieth for the last time, the 3hump_ei shaper
  // leaves at most that, and at its own frequency and at its humps exactly that.
  lemma ThreeHumps(p: Parameters, z: Phasor)
    requires ValidParameters(p) && Unit(z)
    ensures p.root2 != 0.0
    ensures var u := Undamped(ThreeHumpEi, p);
            && (2.0 * Scaled(u[0], 1.0 - z.re) >= u[1] ==> Norm(Left(u, 1.0, z, 5)) <= 0.0025)
            && (z.re == -1.0 || 4.0 * Scaled(u[0], z.re) == -u[1] ==> Norm(Left(u, 1.0, z, 5)) == 0.0025)
  {
    hide Left, Turned, Unit, Norm, ThreeHumpFirst, Cube, Scaled;
    SmallRoots(p);
    ThreeHumpEquation(p.root);
    var u := Undamped(ThreeHumpEi, p);
    var a, b := u[0], u[1];
    var w := 4.0 * Scaled(a, Scaled(z.re, z.re)) + 2.0 * Scaled(b, z.re) + u[2] - 2.0 * a;
    FiveImpulses(u, z);
    TurnedUnit(z, 2);
    NormOfStretch(w, Turned(z, 2));
    ScaledOne(Scaled(w, w));
    CosineRange(z);
    Parabola(a, b, u[2] - 2.0 * a, z.re, w);
  }

  lemma CosineRange(z: Phasor)
    requires Unit(z)
    ensures -1.0 <= z.re <= 1.0
  {
    SquareSign(z.im);
    SquareOverOne(z.re);
    SquareOverOne(-z.re);
    assert -z.re * -z.re == z.re * z.re;
  }

  lemma SquareOverOne(c: real)
    ensures c > 1.0 ==> c * c > 1.0
  {
  }

  lemma Parabola(a: real, b: real, rest: real, c: real, w: real)
    requires a > 0.0 && b == 0.25 * (1.0 - V_TOL) && rest == 0.5 * (1.0 + V_TOL) - 4.0 * a
    requires b * b == Scaled(4.0 * a, rest + V_TOL) && -1.0 <= c <= 1.0
    requires w == 4.0 * Scaled(a, Scaled(c, c)) + 2.0 * Scaled(b, c) + rest
    ensures 2.0 * Scaled(a, 1.0 - c) >= b ==> Scaled(w, w) <= 0.0025
    ensures c == -1.0 || 4.0 * Scaled(a, c) == -b ==> Scaled(w, w) == 0.0025
  {
    // 4 a (w + V_TOL) is a square, and w - V_TOL a product of two linear factors.
    var ac, low := a * c, 4.0 * (a * c) + b;
    assert low * low == 16.0 * (ac * ac) + 8.0 * (ac * b) + b * b;
    assert 4.0 * a * (w + V_TOL) == low * low by {
      assert a * (4.0 * (a * (c * c))) == 4.0 * (ac * ac);
      assert a * (2.0 * (b * c)) == 2.0 * (ac * b);
    }
    SquareSign(low);
    Sign(w + V_TOL, 4.0 * a);
    assert (w + V_TOL) * (4.0 * a) == low * low;
    var high := 2.0 * (a * (c - 1.0)) + b;
    assert w - V_TOL == 2.0 * ((c + 1.0) * high) by {
      assert (c + 1.0) * (a * (c - 1.0)) == a * (c * c) - a;
      assert (c + 1.0) * b == b * c + b;
    }
    assert a * (c - 1.0) == -(a * (1.0 - c));
    if high <= 0.0 {
      ProductSign(c + 1.0, -high);
      assert (c + 1.0) * -high == -((c + 1.0) * high);
      BetweenSquares(w);
    }
  }

  lemma BetweenSquares(w: real)
    requires -V_TOL <= w <= V_TOL
    ensures Scaled(w, w) <= 0.0025
  {
    ProductSign(V_TOL - w, V_TOL + w);
    assert (V_TOL - w) * (V_TOL + w) == 0.0025 - w * w;
  }
}
