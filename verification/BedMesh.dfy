/** The bed mesh move transform (software/klipper/extras/bed_mesh.py, classes BedMesh and
    MoveSplitter): the height correction that fades out with height, its inverse, and the
    splitting of moves along the mesh.  Arithmetic is exact. */
module BedMesh {
  import opened Support
  import opened ZMesh

  datatype Pos = Pos(x: real, y: real, z: real, e: real)

  const FADE_DISABLE: real := 2147483647.0

  // ---------- fading ----------

  datatype Fade = Fade(start: real, end: real, dist: real)

  // The configured band; an empty one disables fading.
  function FadeConfig(start: real, end: real): Fade {
    if end - start <= 0.0 then Fade(FADE_DISABLE, FADE_DISABLE, end - start) else Fade(start, end, end - start)
  }

  ghost predicate Enabled(f: Fade) {
    f.dist == f.end - f.start > 0.0
  }

  // The share of the correction in force at a height, s being the height plus tool offset.
  function FactorAt(f: Fade, s: real): real
    requires s >= f.end || s < f.start || f.dist != 0.0
  {
    if s >= f.end then 0.0 else if s >= f.start then (f.end - s) / f.dist else 1.0
  }

  ghost predicate FadeUsable(f: Fade) {
    f.dist == 0.0 ==> f.start == f.end
  }

  // What a move adds to a commanded height, m being the height of the mesh there.
  function Correction(factor: real, m: real, target: real): real {
    factor * (m - target) + target
  }

  // get_position's factor for a toolhead height; None is a division by zero.
  function RecoveredFactor(f: Fade, target: real, m: real, fadeZ: real): Option<real> {
    if Min(fadeZ, fadeZ - m) >= f.end then Some(0.0)
    else if Max(fadeZ, fadeZ - m) >= f.start then
      if f.dist - (m - target) == 0.0 then None
      else Some(Constrain((f.end + target - fadeZ) / (f.dist - (m - target)), 0.0, 1.0))
    else Some(1.0)
  }

  // The commanded height for a toolhead height.
  function Recover(f: Fade, target: real, toolOffset: real, m: real, z: real): Option<real> {
    var factor := RecoveredFactor(f, target, m, z + toolOffset);
    if factor.None? then None else Some(z - Correction(factor.value, m, target))
  }

  function Lifted(f: Fade, target: real, toolOffset: real, m: real, z: real): real
    requires FadeUsable(f)
  {
    z + Correction(FactorAt(f, z + toolOffset), m, target)
  }

  // ---------- when the transform can be undone ----------

  // The factor the toolhead height leads back to, by zones of the commanded height.
  ghost predicate FactorKept(f: Fade, target: real, m: real, s: real)
    requires Enabled(f)
  {
    RecoveredFactor(f, target, m, s + Correction(FactorAt(f, s), m, target)) == Some(FactorAt(f, s))
  }

  lemma SameHeightIff(f: Fade, target: real, toolOffset: real, m: real, z: real)
    requires Enabled(f)
    ensures var g := RecoveredFactor(f, target, m, z + toolOffset + Correction(FactorAt(f, z + toolOffset), m, target));
            Recover(f, target, toolOffset, m, Lifted(f, target, toolOffset, m, z)) == Some(z) <==>
            g.Some? && (m == target || g.value == FactorAt(f, z + toolOffset))
  {
    hide RecoveredFactor, FactorAt, Correction;
    var h := FactorAt(f, z + toolOffset);
    var up := Lifted(f, target, toolOffset, m, z);
    assert up + toolOffset == z + toolOffset + Correction(h, m, target);
    var g := RecoveredFactor(f, target, m, up + toolOffset);
    if g.Some? {
      SameCorrection(g.value, h, m, target);
      assert Recover(f, target, toolOffset, m, up) == Some(up - Correction(g.value, m, target));
      assert up == z + Correction(h, m, target);
    }
  }

  lemma SameCorrection(g: real, h: real, m: real, target: real)
    ensures Correction(g, m, target) == Correction(h, m, target) <==> m == target || g == h
  {
    SameProduct(g, h, m - target);
  }

  lemma SameProduct(g: real, h: real, d: real)
    ensures g * d == h * d <==> g == h || d == 0.0
  {
    if g * d == h * d && d != 0.0 {
      assert (g - h) * d == 0.0;
    }
  }

  // The guards of get_position that decide which factor is taken, seen from the commanded
  // height: above the band, inside it and below it.
  ghost predicate Recoverable(f: Fade, target: real, m: real, s: real)
    requires Enabled(f)
  {
    var d := m - target;
    if s >= f.end then
      || Min(s + target, s - d) >= f.end
      || (Max(s + target, s - d) >= f.start && (f.dist > d || (f.dist < d && s == f.end)))
    else if s >= f.start then
      var top := s + Correction(FactorAt(f, s), m, target);
      && Min(top, top - m) < f.end
      && (if Max(top, top - m) >= f.start then f.dist != d else s == f.start)
    else
      s + m < f.start || f.dist > d
  }

  lemma QuotientSign(x: real, y: real)
    requires y != 0.0
    ensures y > 0.0 ==> (x / y <= 0.0 <==> x <= 0.0) && (x / y >= 1.0 <==> x >= y)
    ensures y < 0.0 ==> (x / y <= 0.0 <==> x >= 0.0) && (x / y >= 1.0 <==> x <= y)
  {
    var q := x / y;
    assert q * y == x;
    var u := q - 1.0;
    assert u * y == x - y;
    if y > 0.0 {
      Sign(q, y);
      Sign(u, y);
    } else {
      Sign(q, -y);
      Sign(u, -y);
      assert q * -y == -x && u * -y == y - x;
    }
  }

  lemma ConstrainEnds(v: real)
    ensures Constrain(v, 0.0, 1.0) == 0.0 <==> v <= 0.0
    ensures Constrain(v, 0.0, 1.0) == 1.0 <==> v >= 1.0
    ensures 0.0 <= v <= 1.0 ==> Constrain(v, 0.0, 1.0) == v
  {
  }

  lemma AboveBand(f: Fade, target: real, m: real, s: real)
    requires Enabled(f) && s >= f.end && m != target
    ensures FactorKept(f, target, m, s) <==> Recoverable(f, target, m, s)
  {
    var d := m - target;
    assert Correction(0.0, m, target) == target;
    var e := f.dist - d;
    if e != 0.0 {
      QuotientSign(f.end - s, e);
      ConstrainEnds((f.end - s) / e);
      assert f.end + target - (s + target) == f.end - s;
    }
  }

  lemma BelowBand(f: Fade, target: real, m: real, s: real)
    requires Enabled(f) && s < f.start && m != target
    ensures FactorKept(f, target, m, s) <==> Recoverable(f, target, m, s)
  {
    var d := m - target;
    assert Correction(1.0, m, target) == m;
    var e := f.dist - d;
    if e != 0.0 {
      QuotientSign(f.end - s - d, e);
      ConstrainEnds((f.end - s - d) / e);
      assert f.end + target - (s + m) == f.end - s - d;
    }
  }

  lemma FactorInside(f: Fade, s: real)
    requires Enabled(f) && f.start <= s < f.end
    ensures 0.0 < FactorAt(f, s) <= 1.0 && (FactorAt(f, s) == 1.0 <==> s == f.start)
    ensures FactorAt(f, s) * f.dist == f.end - s
  {
    QuotientSign(f.end - s, f.dist);
  }

  // Inside the band the algebra gives back the very factor.
  lemma BandAlgebra(f: Fade, target: real, m: real, s: real, h: real)
    requires Enabled(f) && h * f.dist == f.end - s && f.dist - (m - target) != 0.0
    ensures (f.end + target - (s + Correction(h, m, target))) / (f.dist - (m - target)) == h
  {
    var d := m - target;
    var e := f.dist - d;
    var p := h * d;
    assert h * e == h * f.dist - p;
    assert f.end + target - (s + Correction(h, m, target)) == h * e;
    Quotient(h, e, h * e);
  }

  lemma Quotient(h: real, e: real, x: real)
    requires e != 0.0 && x == h * e
    ensures x / e == h
  {
  }

  lemma InsideBand(f: Fade, target: real, m: real, s: real)
    requires Enabled(f) && f.start <= s < f.end
    ensures FactorKept(f, target, m, s) <==> Recoverable(f, target, m, s)
  {
    hide Correction, FactorAt, Constrain;
    FactorInside(f, s);
    var h := FactorAt(f, s);
    if f.dist - (m - target) != 0.0 {
      BandAlgebra(f, target, m, s, h);
      ConstrainEnds(h);
    }
  }

  // Exactly when get_position after a move gives the commanded height back, for any target
  // and any mesh height: where the correction is not zero, the zones' guards decide.
  lemma TransformUndoneIff(f: Fade, target: real, toolOffset: real, m: real, z: real)
    requires Enabled(f)
    ensures Recover(f, target, toolOffset, m, Lifted(f, target, toolOffset, m, z)) == Some(z) <==>
            m == target || Recoverable(f, target, m, z + toolOffset)
  {
    hide Recover, Lifted, RecoveredFactor, Correction, FactorAt, Recoverable;
    SameHeightIff(f, target, toolOffset, m, z);
    var s := z + toolOffset;
    if m == target {
      LevelFactor(f, target, s + Correction(FactorAt(f, s), m, target));
    } else if s >= f.end {
      AboveBand(f, target, m, s);
    } else if s < f.start {
      BelowBand(f, target, m, s);
    } else {
      InsideBand(f, target, m, s);
    }
  }

  lemma LevelFactor(f: Fade, m: real, fadeZ: real)
    requires Enabled(f)
    ensures RecoveredFactor(f, m, m, fadeZ).Some?
  {
  }

  // With fade target 0 and a mesh no higher or lower than the fade distance, every height,
  // below, inside or above the band, is given back.
  lemma ZeroTargetUndone(f: Fade, toolOffset: real, m: real, z: real)
    requires Enabled(f) && Abs(m) < f.dist
    ensures Recover(f, 0.0, toolOffset, m, Lifted(f, 0.0, toolOffset, m, z)) == Some(z)
  {
    hide Recover, Lifted, Correction, FactorAt;
    TransformUndoneIff(f, 0.0, toolOffset, m, z);
    var s := z + toolOffset;
    if f.start <= s < f.end {
      FactorInside(f, s);
      ZeroTargetGuards(f, m, s, FactorAt(f, s));
    }
  }

  lemma ZeroTargetGuards(f: Fade, m: real, s: real, h: real)
    requires Enabled(f) && f.start <= s < f.end && 0.0 < h <= 1.0
    ensures var top := s + Correction(h, m, 0.0);
            Min(top, top - m) < f.end && Max(top, top - m) >= f.start
  {
    var p := h * m;
    assert Correction(h, m, 0.0) == p;
    var u := 1.0 - h;
    assert p - m == -(u * m);
    if m >= 0.0 {
      ProductSign(h, m);
      ProductSign(u, m);
    } else {
      ProductSign(h, -m);
      ProductSign(u, -m);
      assert h * -m == -p && u * -m == -(u * m);
    }
  }

  // ---------- when the transform keeps the order of heights ----------

  // A higher commanded height always leads to a higher one of the toolhead.
  ghost predicate Rises(f: Fade, target: real, toolOffset: real, m: real)
    requires Enabled(f)
  {
    forall y, z :: y < z ==> Lifted(f, target, toolOffset, m, y) < Lifted(f, target, toolOffset, m, z)
  }

  // Between two heights the factor falls by no more than their share of the band.
  lemma FactorFalls(f: Fade, s: real, u: real)
    requires Enabled(f) && s <= u
    ensures FactorAt(f, u) <= FactorAt(f, s)
    ensures (FactorAt(f, s) - FactorAt(f, u)) * f.dist <= u - s
  {
    hide FactorAt;
    FactorZones(f, s);
    FactorZones(f, u);
    var g, h := FactorAt(f, s), FactorAt(f, u);
    var fall := g - h;
    assert fall * f.dist == g * f.dist - h * f.dist;
    Sign(fall, f.dist);
  }

  lemma FactorZones(f: Fade, s: real)
    requires Enabled(f)
    ensures FactorAt(f, s) * f.dist == if s >= f.end then 0.0 else if s >= f.start then f.end - s else f.dist
  {
    if f.start <= s < f.end {
      FactorInside(f, s);
    }
  }

  // It does so exactly where the mesh exceeds the target by less than the fade distance;
  // elsewhere the toolhead comes down while it is told to rise through the band.
  lemma RisesIff(f: Fade, target: real, toolOffset: real, m: real)
    requires Enabled(f)
    ensures Rises(f, target, toolOffset, m) <==> m - target < f.dist
  {
    hide Lifted;
    var low, high := f.start - toolOffset, f.end - toolOffset;
    BandEnds(f, target, toolOffset, m);
    assert Rises(f, target, toolOffset, m) ==>
      Lifted(f, target, toolOffset, m, low) < Lifted(f, target, toolOffset, m, high);
    if m - target < f.dist {
      forall y, z | y < z ensures Lifted(f, target, toolOffset, m, y) < Lifted(f, target, toolOffset, m, z) {
        KeepsOrder(f, target, toolOffset, m, y, z);
      }
    }
  }

  lemma BandEnds(f: Fade, target: real, toolOffset: real, m: real)
    requires Enabled(f)
    ensures Lifted(f, target, toolOffset, m, f.start - toolOffset) == f.start - toolOffset + m
    ensures Lifted(f, target, toolOffset, m, f.end - toolOffset) == f.end - toolOffset + target
  {
    hide FactorAt;
    FactorInside(f, f.start);
    FactorZones(f, f.end);
    Sign(FactorAt(f, f.end), f.dist);
    assert Correction(1.0, m, target) == m && Correction(0.0, m, target) == target;
  }

  lemma KeepsOrder(f: Fade, target: real, toolOffset: real, m: real, y: real, z: real)
    requires Enabled(f) && m - target < f.dist && y < z
    ensures Lifted(f, target, toolOffset, m, y) < Lifted(f, target, toolOffset, m, z)
  {
    hide FactorAt, Correction;
    var s, u := y + toolOffset, z + toolOffset;
    FactorFalls(f, s, u);
    FactorDifference(FactorAt(f, s), FactorAt(f, u), m, target);
    FallIsLess(FactorAt(f, s) - FactorAt(f, u), f.dist, m - target, u - s);
  }

  lemma FallIsLess(fall: real, dist: real, d: real, rise: real)
    requires fall >= 0.0 && fall * dist <= rise && rise > 0.0 && d < dist
    ensures fall * d < rise
  {
    var left := dist - d;
    ProductSign(fall, left);
    assert fall * left == fall * dist - fall * d;
    if fall == 0.0 {
      assert fall * d == 0.0;
    }
  }

  lemma FactorDifference(g: real, h: real, m: real, target: real)
    ensures Correction(g, m, target) - Correction(h, m, target) == (g - h) * (m - target)
  {
  }

  // With fading disabled the correction is never faded, and it is undone for every height
  // below the value that stands for "never".
  lemma DisabledUndone(f: Fade, toolOffset: real, m: real, z: real)
    requires f.start == f.end == FADE_DISABLE
    requires z + toolOffset < FADE_DISABLE && z + toolOffset + m < FADE_DISABLE
    ensures Recover(f, 0.0, toolOffset, m, Lifted(f, 0.0, toolOffset, m, z)) == Some(z)
  {
    assert Correction(1.0, m, 0.0) == m;
    assert Lifted(f, 0.0, toolOffset, m, z) == z + m;
  }

  // ---------- accepting a mesh ----------

  datatype Acceptance = Accepted(target: real) | TargetOutOfRange | OutsideFadeRange

  // set_mesh for a mesh with heights from lo to hi; no configured target means the average.
  function AcceptMesh(f: Fade, configured: Option<real>, lo: real, hi: real, average: real): Acceptance {
    if f.end == FADE_DISABLE then Accepted(0.0)
    else if configured.Some? && !(lo <= configured.value <= hi) && configured.value != 0.0 then TargetOutOfRange
    else if f.dist <= Max(Abs(lo), Abs(hi)) then OutsideFadeRange
    else Accepted(if configured.Some? then configured.value else average)
  }

  // A mesh the source accepts with a target inside its range, whose position is not given
  // back: inside the band, get_position takes the correction for faded out.
  lemma TargetNotUndone(f: Fade, m: real, s: real, average: real)
    requires f == Fade(1.0, 2.0, 1.0) && m == 0.0 && s == 1.875
    ensures AcceptMesh(f, Some(0.5), m, 0.5, average) == Accepted(0.5)
    ensures Recover(f, 0.5, 0.0, m, Lifted(f, 0.5, 0.0, m, s)) != Some(s)
  {
    TransformUndoneIff(f, 0.5, 0.0, m, s);
    assert FactorAt(f, s) == 0.125;
    assert Correction(0.125, 0.0, 0.5) == 0.4375;
  }

  // ---------- splitting a move ----------

  predicate AxisMoves(d: real) {
    !IsClose(d, 0.0, 0.000000001, 0.0000000001)
  }

  // A move over a mesh: its ends, the fade factor, and the splitter's settings.
  datatype Plan = Plan(prev: Pos, next: Pos, factor: real, length: real,
                       surface: Surface, target: real, check: real, delta: real)

  ghost predicate ValidPlan(p: Plan) {
    && ValidSurface(p.surface) && p.check > 0.0 && p.delta > 0.0 && p.length >= 0.0
    && var dx, dy, dz := p.next.x - p.prev.x, p.next.y - p.prev.y, p.next.z - p.prev.z;
       p.length * p.length == dx * dx + dy * dy + dz * dz
  }

  function OffsetAt(p: Plan, pos: Pos): real
    requires ValidSurface(p.surface)
  {
    Correction(p.factor, CalcZ(p.surface, pos.x, pos.y), p.target)
  }

  // An axis at the fraction t of the move; one that does not move stays where it was.
  function AxisAt(t: real, prev: real, next: real): real {
    if AxisMoves(next - prev) then Lerp(t, prev, next) else prev
  }

  function PointAt(p: Plan, d: real): Pos
    requires p.length != 0.0
  {
    var t := d / p.length;
    Pos(AxisAt(t, p.prev.x, p.next.x), AxisAt(t, p.prev.y, p.next.y),
        AxisAt(t, p.prev.z, p.next.z), AxisAt(t, p.prev.e, p.next.e))
  }

  function Raised(pos: Pos, offset: real): Pos {
    pos.(z := pos.z + offset)
  }

  predicate Travels(p: Plan) {
    AxisMoves(p.next.x - p.prev.x) || AxisMoves(p.next.y - p.prev.y)
  }

  // Whether another checkpoint lies ahead of a distance.
  predicate MoreChecks(p: Plan, d: real) {
    Travels(p) && d + p.check < p.length
  }

  ghost function Left(p: Plan, d: real): int
    requires p.check > 0.0
  {
    ((p.length - d) / p.check).Floor
  }

  lemma LeftDecreases(p: Plan, d: real)
    requires p.check > 0.0 && d + p.check < p.length
    ensures 0 <= Left(p, d + p.check) < Left(p, d)
  {
    var a, b := (p.length - d) / p.check, (p.length - (d + p.check)) / p.check;
    assert a * p.check == p.length - d;
    assert b * p.check == p.length - d - p.check;
    var u := a - b - 1.0;
    assert u * p.check == 0.0;
    Sign(u, p.check);
    Sign(b, p.check);
  }

  // The points sent for the rest of a move: one at each checkpoint whose offset differs from
  // the last one used by the threshold or more, and the end of the move.
  function Path(p: Plan, d: real, last: real): seq<Pos>
    requires ValidPlan(p) && d >= 0.0
    decreases Left(p, d)
  {
    if MoreChecks(p, d) then
      LeftDecreases(p, d);
      var offset := OffsetAt(p, PointAt(p, d + p.check));
      if Abs(offset - last) >= p.delta
      then [Raised(PointAt(p, d + p.check), offset)] + Path(p, d + p.check, offset)
      else Path(p, d + p.check, last)
    else [Raised(p.next, OffsetAt(p, p.next))]
  }

  // The distances along the move of the points before the last.
  ghost function Distances(p: Plan, d: real, last: real): seq<real>
    requires ValidPlan(p) && d >= 0.0
    decreases Left(p, d)
  {
    if MoreChecks(p, d) then
      LeftDecreases(p, d);
      var offset := OffsetAt(p, PointAt(p, d + p.check));
      if Abs(offset - last) >= p.delta
      then [d + p.check] + Distances(p, d + p.check, offset)
      else Distances(p, d + p.check, last)
    else []
  }

  // The points lie on the move in strictly increasing order, each raised by the offset of the
  // mesh at its own position, and the last one is the raised target.
  lemma {:induction false} PathFollowsMove(p: Plan, d: real, last: real)
    requires ValidPlan(p) && d >= 0.0
    ensures var path, ds := Path(p, d, last), Distances(p, d, last);
            && |path| == |ds| + 1
            && path[|ds|] == Raised(p.next, OffsetAt(p, p.next))
            && (forall i :: 0 <= i < |ds| ==> d < ds[i] < p.length)
            && (forall i, j :: 0 <= i < j < |ds| ==> ds[i] < ds[j])
            && (forall i :: 0 <= i < |ds| ==>
                  && path[i] == Raised(PointAt(p, ds[i]), OffsetAt(p, PointAt(p, ds[i])))
                  && OnMove(p, ds[i], PointAt(p, ds[i])))
    decreases Left(p, d)
  {
    hide OffsetAt, PointAt, Left, OnMove;
    PathStep(p, d, last);
    if MoreChecks(p, d) {
      Ahead(p, d);
      PointOnMove(p, d + p.check);
      var offset := OffsetAt(p, PointAt(p, d + p.check));
      PathFollowsMove(p, d + p.check, if Abs(offset - last) >= p.delta then offset else last);
    }
  }

  // An axis moves when its ends are more than 1e-10 apart.
  lemma AxisMovesIff(d: real)
    ensures AxisMoves(d) <==> d > 0.0000000001 || d < -0.0000000001
  {
  }

  // The point at a distance lies on the move: every moving axis has gone the same share of its
  // way, d of length, and the others have not moved.
  lemma PointOnMove(p: Plan, d: real)
    requires p.length != 0.0
    ensures OnMove(p, d, PointAt(p, d))
  {
    hide AxisMoves, Lerp;
    ShareOfWay(p.prev.x, p.next.x, d, p.length);
    ShareOfWay(p.prev.y, p.next.y, d, p.length);
    ShareOfWay(p.prev.z, p.next.z, d, p.length);
    ShareOfWay(p.prev.e, p.next.e, d, p.length);
  }

  predicate OnMove(p: Plan, d: real, at: Pos) {
    && AxisOnMove(p.prev.x, p.next.x, at.x, d, p.length) && AxisOnMove(p.prev.y, p.next.y, at.y, d, p.length)
    && AxisOnMove(p.prev.z, p.next.z, at.z, d, p.length) && AxisOnMove(p.prev.e, p.next.e, at.e, d, p.length)
  }

  predicate AxisOnMove(prev: real, next: real, at: real, d: real, length: real) {
    if AxisMoves(next - prev) then (at - prev) * length == d * (next - prev) else at == prev
  }

  lemma ShareOfWay(prev: real, next: real, d: real, length: real)
    requires length != 0.0
    ensures (Lerp(d / length, prev, next) - prev) * length == d * (next - prev)
  {
    var t := d / length;
    assert t * length == d;
    var way := next - prev;
    assert Lerp(t, prev, next) - prev == t * way;
    assert (t * way) * length == t * length * way;
  }

  // Points further along are further on every moving axis, so the points of a path are
  // distinct and in order.
  lemma PointsInOrder(p: Plan, d1: real, d2: real)
    requires ValidPlan(p) && 0.0 <= d1 < d2 < p.length
    ensures AxisMoves(p.next.x - p.prev.x) ==>
              (PointAt(p, d2).x - PointAt(p, d1).x) * (p.next.x - p.prev.x) > 0.0
    ensures AxisMoves(p.next.y - p.prev.y) ==>
              (PointAt(p, d2).y - PointAt(p, d1).y) * (p.next.y - p.prev.y) > 0.0
    ensures Travels(p) ==> PointAt(p, d1).x != PointAt(p, d2).x || PointAt(p, d1).y != PointAt(p, d2).y
  {
    hide PointAt, AxisMoves;
    PointOnMove(p, d1);
    PointOnMove(p, d2);
    AxisMovesIff(p.next.x - p.prev.x);
    AxisMovesIff(p.next.y - p.prev.y);
    FurtherOn(PointAt(p, d1).x, PointAt(p, d2).x, p.prev.x, p.next.x, d1, d2, p.length);
    FurtherOn(PointAt(p, d1).y, PointAt(p, d2).y, p.prev.y, p.next.y, d1, d2, p.length);
  }

  lemma FurtherOn(a: real, b: real, prev: real, next: real, d1: real, d2: real, length: real)
    requires length > 0.0 && d1 < d2
    ensures next != prev && (a - prev) * length == d1 * (next - prev) && (b - prev) * length == d2 * (next - prev) ==>
              (b - a) * (next - prev) > 0.0
  {
    var way := next - prev;
    if way != 0.0 && (a - prev) * length == d1 * way && (b - prev) * length == d2 * way {
      var step := b - a;
      assert step * length == (d2 - d1) * way;
      SquareSign(way);
      var sq := way * way;
      var e := step * way;
      assert e * length == (d2 - d1) * sq by {
        assert e * length == step * length * way;
      }
      Sign(d2 - d1, sq);
      Sign(e, length);
    }
  }

  lemma Ahead(p: Plan, d: real)
    requires ValidPlan(p) && d >= 0.0 && MoreChecks(p, d)
    ensures 0.0 <= d < d + p.check < p.length && 0 <= Left(p, d + p.check) < Left(p, d)
  {
    LeftDecreases(p, d);
  }

  lemma PathStep(p: Plan, d: real, last: real)
    requires ValidPlan(p) && d >= 0.0
    ensures MoreChecks(p, d) ==>
              var offset := OffsetAt(p, PointAt(p, d + p.check));
              if Abs(offset - last) >= p.delta then
                && Path(p, d, last) == [Raised(PointAt(p, d + p.check), offset)] + Path(p, d + p.check, offset)
                && Distances(p, d, last) == [d + p.check] + Distances(p, d + p.check, offset)
              else Path(p, d, last) == Path(p, d + p.check, last) && Distances(p, d, last) == Distances(p, d + p.check, last)
    ensures !MoreChecks(p, d) ==> Path(p, d, last) == [Raised(p.next, OffsetAt(p, p.next))] && Distances(p, d, last) == []
  {
  }

  ghost function Checkpoint(p: Plan, d: real, k: nat): (c: real)
    requires p.check > 0.0
    ensures c >= d
    decreases k
  {
    if k == 0 then d else Checkpoint(p, d + p.check, k - 1)
  }

  lemma {:induction false} CheckpointAhead(p: Plan, d: real, k: nat)
    requires p.check > 0.0
    ensures d <= Checkpoint(p, d, k) && (k > 0 ==> d < Checkpoint(p, d, k))
    decreases k
  {
    if k > 0 {
      CheckpointAhead(p, d + p.check, k - 1);
    }
  }

  // The offset in force at a distance: that of the last point sent up to there, or the one
  // before any was.
  ghost function InForce(p: Plan, ds: seq<real>, last: real, c: real): real
    requires ValidSurface(p.surface) && p.length != 0.0
  {
    if ds == [] || ds[0] > c then last
    else InForce(p, ds[1..], OffsetAt(p, PointAt(p, ds[0])), c)
  }

  // At every checkpoint, sent or passed over, the offset in force is within the threshold of
  // the mesh's own.
  lemma {:induction false} OffsetStaysClose(p: Plan, d: real, last: real, k: nat)
    requires ValidPlan(p) && d >= 0.0 && k > 0 && Travels(p) && Checkpoint(p, d, k) < p.length
    ensures var c := Checkpoint(p, d, k);
            Abs(OffsetAt(p, PointAt(p, c)) - InForce(p, Distances(p, d, last), last, c)) < p.delta
    decreases k
  {
    hide OffsetAt, PointAt, Path;
    CheckpointAhead(p, d + p.check, k - 1);
    PathStep(p, d, last);
    var c, offset := Checkpoint(p, d, k), OffsetAt(p, PointAt(p, d + p.check));
    var sent := Abs(offset - last) >= p.delta;
    var used := if sent then offset else last;
    var ds, rest := Distances(p, d, last), Distances(p, d + p.check, used);
    if sent {
      assert ds[1..] == rest;
    }
    if k == 1 {
      assert c == Checkpoint(p, d + p.check, 0) == d + p.check;
      PathFollowsMove(p, c, used);
      assert InForce(p, rest, used, c) == used;
    } else {
      OffsetStaysClose(p, d + p.check, used, k - 1);
    }
  }

  // A point is sent only where the offset has changed by the threshold or more.
  lemma {:induction false} SendsOnlyChanges(p: Plan, d: real, last: real, i: nat)
    requires ValidPlan(p) && d >= 0.0 && i < |Distances(p, d, last)|
    ensures p.length > 0.0
    ensures var ds := Distances(p, d, last);
            var before := if i == 0 then last else OffsetAt(p, PointAt(p, ds[i - 1]));
            Abs(OffsetAt(p, PointAt(p, ds[i])) - before) >= p.delta
    decreases Left(p, d)
  {
    hide OffsetAt, PointAt, Path, Left;
    PathStep(p, d, last);
    if MoreChecks(p, d) {
      Ahead(p, d);
      var offset := OffsetAt(p, PointAt(p, d + p.check));
      if Abs(offset - last) < p.delta {
        SendsOnlyChanges(p, d + p.check, last, i);
      } else if i > 0 {
        SendsOnlyChanges(p, d + p.check, offset, i - 1);
      }
    }
  }

  lemma CorrectionIs(factor: real, m: real, target: real, adj: real)
    requires adj == factor * (m - target) + target
    ensures Correction(factor, m, target) == adj
  {
  }

  datatype AxisMove = AxisMove(x: bool, y: bool, z: bool, e: bool)

  function AxesOf(prev: Pos, next: Pos): AxisMove {
    AxisMove(AxisMoves(next.x - prev.x), AxisMoves(next.y - prev.y),
             AxisMoves(next.z - prev.z), AxisMoves(next.e - prev.e))
  }

  datatype Outcome = Sent(pos: Pos) | Complete | SliceError

  class MoveSplitter {
    const splitDeltaZ: real
    const moveCheckDistance: real
    var zMesh: Option<Surface>
    var fadeOffset: real
    var prevPos: Pos
    var nextPos: Pos
    var currentPos: Pos
    var zFactor: real
    var zOffset: real
    var traverseComplete: bool
    var distanceChecked: real
    var totalMoveLength: real
    var axisMove: AxisMove

    ghost predicate Valid()
      reads this
    {
      splitDeltaZ > 0.0 && moveCheckDistance > 0.0 && (zMesh.Some? ==> ValidSurface(zMesh.value))
    }

    ghost function CurrentPlan(): Plan
      requires zMesh.Some?
      reads this
    {
      Plan(prevPos, nextPos, zFactor, totalMoveLength, zMesh.value, fadeOffset, moveCheckDistance, splitDeltaZ)
    }

    // A move is being split: axes that do not move still have their first coordinate.
    ghost predicate Splitting()
      reads this
    {
      && Valid() && zMesh.Some? && ValidPlan(CurrentPlan()) && distanceChecked >= 0.0
      && axisMove == AxesOf(prevPos, nextPos)
      && (!traverseComplete ==> Unmoved(axisMove, prevPos, currentPos))
    }

    // The points still to be sent.
    ghost function Remaining(): seq<Pos>
      requires Splitting()
      reads this
    {
      if traverseComplete then [] else Path(CurrentPlan(), distanceChecked, zOffset)
    }

    constructor (splitDeltaZ: real, moveCheckDistance: real)
      requires splitDeltaZ >= 0.01 && moveCheckDistance >= 3.0
      ensures Valid() && zMesh == None && this.splitDeltaZ == splitDeltaZ && this.moveCheckDistance == moveCheckDistance
    {
      this.splitDeltaZ, this.moveCheckDistance := splitDeltaZ, moveCheckDistance;
      zMesh, fadeOffset := None, 0.0;
    }

    method Initialize(mesh: Option<Surface>, fadeOffset: real)
      requires Valid() && (mesh.Some? ==> ValidSurface(mesh.value))
      modifies this
      ensures Valid() && zMesh == mesh && this.fadeOffset == fadeOffset
    {
      zMesh, this.fadeOffset := mesh, fadeOffset;
    }

    // length is the square root taken by the source.
    method BuildMove(prev: Pos, next: Pos, factor: real, length: real)
      requires Valid() && zMesh.Some?
      requires ValidPlan(Plan(prev, next, factor, length, zMesh.value, fadeOffset, moveCheckDistance, splitDeltaZ))
      modifies this
      ensures Splitting() && !traverseComplete && zMesh == old(zMesh) && fadeOffset == old(fadeOffset)
      ensures CurrentPlan() == Plan(prev, next, factor, length, zMesh.value, fadeOffset, moveCheckDistance, splitDeltaZ)
      ensures Remaining() == Path(CurrentPlan(), 0.0, OffsetAt(CurrentPlan(), prev))
    {
      hide CalcZ, Path;
      prevPos, nextPos, currentPos, zFactor := prev, next, prev, factor;
      zOffset := CalcZOffset(prev);
      traverseComplete, distanceChecked, totalMoveLength := false, 0.0, length;
      axisMove := AxesOf(prev, next);
    }

    method CalcZOffset(pos: Pos) returns (offset: real)
      requires Valid() && zMesh.Some?
      ensures offset == OffsetAt(CurrentPlan(), pos)
    {
      hide CalcZ, ValidSurface;
      var z := CalcZ(zMesh.value, pos.x, pos.y);
      offset := zFactor * (z - fadeOffset) + fadeOffset;
      CorrectionIs(zFactor, z, fadeOffset, offset);
    }

    method SetNextMove(distanceFromPrev: real) returns (ok: bool)
      requires Splitting() && !traverseComplete && totalMoveLength > 0.0
      modifies this`currentPos
      ensures Splitting() && CurrentPlan() == old(CurrentPlan())
      ensures ok <==> 0.0 <= distanceFromPrev <= totalMoveLength
      ensures ok ==> currentPos == PointAt(CurrentPlan(), distanceFromPrev) && OnMove(CurrentPlan(), distanceFromPrev, currentPos)
    {
      hide CalcZ, IsClose, Lerp, OnMove;
      PointOnMove(CurrentPlan(), distanceFromPrev);
      var t := distanceFromPrev / totalMoveLength;
      UnitQuotient(distanceFromPrev, totalMoveLength);
      if t > 1.0 || t < 0.0 {
        return false;
      }
      if axisMove.x {
        currentPos := currentPos.(x := Lerp(t, prevPos.x, nextPos.x));
      }
      if axisMove.y {
        currentPos := currentPos.(y := Lerp(t, prevPos.y, nextPos.y));
      }
      if axisMove.z {
        currentPos := currentPos.(z := Lerp(t, prevPos.z, nextPos.z));
      }
      if axisMove.e {
        currentPos := currentPos.(e := Lerp(t, prevPos.e, nextPos.e));
      }
      ok := true;
    }

    // Each call takes the next point of the path; the slice error is never raised.
    method Split() returns (r: Outcome)
      requires Splitting()
      modifies this
      ensures Splitting() && CurrentPlan() == old(CurrentPlan()) && zMesh == old(zMesh)
      ensures old(traverseComplete) ==> r == Complete && Remaining() == []
      ensures !old(traverseComplete) ==> r.Sent? && old(Remaining()) == [r.pos] + Remaining()
    {
      hide OffsetAt, PointAt, Path, IsClose, CalcZ, Left;
      if traverseComplete {
        return Complete;
      }
      ghost var p := CurrentPlan();
      if axisMove.x || axisMove.y {
        while distanceChecked + moveCheckDistance < totalMoveLength
          invariant Splitting() && !traverseComplete && CurrentPlan() == p && zMesh == old(zMesh)
          invariant Path(p, distanceChecked, zOffset) == old(Remaining())
          decreases Left(p, distanceChecked)
        {
          PathStep(p, distanceChecked, zOffset);
          Ahead(p, distanceChecked);
          distanceChecked := distanceChecked + moveCheckDistance;
          var ok := SetNextMove(distanceChecked);
          if !ok {
            return SliceError;
          }
          var nextZ := CalcZOffset(currentPos);
          if Abs(nextZ - zOffset) >= splitDeltaZ {
            zOffset := nextZ;
            return Sent(Pos(currentPos.x, currentPos.y, currentPos.z + zOffset, currentPos.e));
          }
        }
      }
      PathStep(p, distanceChecked, zOffset);
      currentPos := nextPos;
      zOffset := CalcZOffset(currentPos);
      currentPos := currentPos.(z := currentPos.z + zOffset);
      traverseComplete := true;
      r := Sent(currentPos);
    }
  }

  ghost predicate Unmoved(axes: AxisMove, prev: Pos, pos: Pos) {
    && (!axes.x ==> pos.x == prev.x) && (!axes.y ==> pos.y == prev.y)
    && (!axes.z ==> pos.z == prev.z) && (!axes.e ==> pos.e == prev.e)
  }

  lemma UnitQuotient(x: real, y: real)
    requires y > 0.0
    ensures x / y > 1.0 <==> x > y
    ensures x / y < 0.0 <==> x < 0.0
  {
    var q := x / y;
    assert q * y == x;
    var u := q - 1.0;
    assert u * y == x - y;
    Sign(q, y);
    Sign(u, y);
  }

  // ---------- the transform ----------

  // The toolhead the transform feeds: where it is and the moves it was given.
  class Toolhead {
    var position: Pos
    var moves: seq<Pos>

    constructor (position: Pos)
      ensures this.position == position && moves == []
    {
      this.position, moves := position, [];
    }

    method Move(pos: Pos)
      modifies this
      ensures position == pos && moves == old(moves) + [pos]
    {
      position, moves := pos, moves + [pos];
    }
  }

  // The height of the mesh in use at a position.
  function MeshHeight(mesh: Option<Surface>, pos: Pos): real
    requires mesh.Some? ==> ValidSurface(mesh.value)
  {
    if mesh.Some? then CalcZ(mesh.value, pos.x, pos.y) else 0.0
  }

  // What get_position reports for a toolhead position; None is a division by zero.
  function Reported(f: Fade, target: real, toolOffset: real, mesh: Option<Surface>, at: Pos): Option<Pos>
    requires mesh.Some? ==> ValidSurface(mesh.value)
  {
    if mesh.None? then Some(at.(z := at.z - target))
    else
      var z := Recover(f, target, toolOffset, MeshHeight(mesh, at), at.z);
      if z.None? then None else Some(at.(z := z.value))
  }

  // Where a move to a commanded position leaves the toolhead.
  function Destination(f: Fade, target: real, toolOffset: real, mesh: Option<Surface>, pos: Pos): Pos
    requires FadeUsable(f) && (mesh.Some? ==> ValidSurface(mesh.value))
  {
    if mesh.None? then Raised(pos, target)
    else pos.(z := Lifted(f, target, toolOffset, MeshHeight(mesh, pos), pos.z))
  }

  lemma NoCorrection(m: real, target: real)
    ensures Correction(0.0, m, target) == target
  {
  }

  // get_position after a move gives the commanded position exactly when the guards allow it,
  // and always with fade target 0 and an accepted mesh.
  lemma PositionUndoneIff(f: Fade, target: real, toolOffset: real, mesh: Option<Surface>, pos: Pos)
    requires FadeUsable(f) && (mesh.Some? ==> ValidSurface(mesh.value))
    ensures var at := Destination(f, target, toolOffset, mesh, pos);
            && (mesh.None? ==> Reported(f, target, toolOffset, mesh, at) == Some(pos))
            && (mesh.Some? && Enabled(f) ==>
                  var m := MeshHeight(mesh, pos);
                  Reported(f, target, toolOffset, mesh, at) == Some(pos) <==>
                  m == target || Recoverable(f, target, m, pos.z + toolOffset))
  {
    hide Recover, Lifted, CalcZ, Recoverable;
    if mesh.Some? && Enabled(f) {
      TransformUndoneIff(f, target, toolOffset, MeshHeight(mesh, pos), pos.z);
    }
  }

  lemma SurfaceNonEmpty(s: Surface)
    requires ValidSurface(s)
    ensures NonEmpty(s.rows)
  {
  }

  // set_mesh with the mesh's own range and average.
  function AcceptSurface(f: Fade, configured: Option<real>, s: Surface): Acceptance
    requires ValidSurface(s)
  {
    SurfaceNonEmpty(s);
    AcceptMesh(f, configured, Lowest(s.rows), Highest(s.rows), Average(s.rows))
  }

  predicate RangeBelow(s: Surface, dist: real)
    requires ValidSurface(s)
  {
    SurfaceNonEmpty(s);
    Max(Abs(Lowest(s.rows)), Abs(Highest(s.rows))) < dist
  }

  lemma MeshHeightBelow(s: Surface, dist: real, pos: Pos)
    requires ValidSurface(s) && RangeBelow(s, dist)
    ensures Abs(CalcZ(s, pos.x, pos.y)) < dist
  {
    hide CalcZ, Lowest, Highest, Within;
    SurfaceNonEmpty(s);
    RangeHolds(s.rows);
    CalcZWithin(s, pos.x, pos.y, Lowest(s.rows), Highest(s.rows));
  }

  lemma HandOver(sent: seq<Pos>, p: Pos, rest: seq<Pos>)
    ensures sent + [p] + rest == sent + ([p] + rest)
  {
  }

  class BedMesh {
    const fade: Fade
    const baseFadeTarget: Option<real>
    const splitter: MoveSplitter
    const toolhead: Toolhead
    var zMesh: Option<Surface>
    var fadeTarget: real
    var toolOffset: real
    var lastPosition: Pos

    ghost predicate Valid()
      reads this, splitter
    {
      && (Enabled(fade) || (fade.start == fade.end == FADE_DISABLE && fade.dist <= 0.0))
      && splitter.Valid()
      && (zMesh.None? ==> fadeTarget == 0.0)
      && (zMesh.Some? ==>
            && splitter.zMesh == zMesh && splitter.fadeOffset == fadeTarget
            && ValidSurface(zMesh.value)
            && (fade.end == FADE_DISABLE ==> fadeTarget == 0.0)
            && (fade.end != FADE_DISABLE ==> RangeBelow(zMesh.value, fade.dist)))
    }

    constructor (fadeStart: real, fadeEnd: real, baseFadeTarget: Option<real>, splitter: MoveSplitter, toolhead: Toolhead)
      requires splitter.Valid()
      ensures Valid() && zMesh == None && toolOffset == 0.0
      ensures fade == FadeConfig(fadeStart, fadeEnd) && this.splitter == splitter && this.toolhead == toolhead
    {
      fade := FadeConfig(fadeStart, fadeEnd);
      this.baseFadeTarget, this.splitter, this.toolhead := baseFadeTarget, splitter, toolhead;
      zMesh, fadeTarget, toolOffset, lastPosition := None, 0.0, 0.0, Pos(0.0, 0.0, 0.0, 0.0);
    }

    // A refused mesh leaves none.
    method SetMesh(mesh: Option<Surface>) returns (r: Acceptance)
      requires Valid() && (mesh.Some? ==> ValidSurface(mesh.value))
      modifies this, splitter
      ensures Valid()
      ensures r == if mesh.None? then Accepted(0.0) else AcceptSurface(fade, baseFadeTarget, mesh.value)
      ensures r.Accepted? ==> zMesh == mesh && fadeTarget == r.target && toolOffset == 0.0
      ensures !r.Accepted? ==> zMesh == None && fadeTarget == 0.0 && toolOffset == old(toolOffset)
      ensures lastPosition == old(lastPosition)
    {
      hide ValidSurface, Lowest, Highest, Average;
      if mesh.Some? && fade.end != FADE_DISABLE {
        SurfaceNonEmpty(mesh.value);
        var lo, hi := Lowest(mesh.value.rows), Highest(mesh.value.rows);
        if baseFadeTarget.None? {
          fadeTarget := Average(mesh.value.rows);
        } else {
          fadeTarget := baseFadeTarget.value;
          if !(lo <= fadeTarget <= hi) && fadeTarget != 0.0 {
            zMesh, fadeTarget := None, 0.0;
            return TargetOutOfRange;
          }
        }
        if fade.dist <= Max(Abs(lo), Abs(hi)) {
          zMesh, fadeTarget := None, 0.0;
          return OutsideFadeRange;
        }
      } else {
        fadeTarget := 0.0;
      }
      toolOffset, zMesh := 0.0, mesh;
      splitter.Initialize(mesh, fadeTarget);
      r := Accepted(fadeTarget);
    }

    method GetZFactor(zPos: real) returns (factor: real)
      requires Valid()
      ensures factor == FactorAt(fade, zPos + toolOffset)
    {
      var z := zPos + toolOffset;
      if z >= fade.end {
        return 0.0;
      } else if z >= fade.start {
        return (fade.end - z) / fade.dist;
      } else {
        return 1.0;
      }
    }

    // None is the division by zero, which leaves the last position as it was.
    method GetPosition() returns (r: Option<Pos>)
      requires Valid()
      modifies this`lastPosition
      ensures Valid()
      ensures r == Reported(fade, fadeTarget, toolOffset, zMesh, toolhead.position)
      ensures lastPosition == if r.Some? then r.value else old(lastPosition)
    {
      hide CalcZ, Constrain, ValidSurface, RangeBelow, Enabled, Correction, Min, Max;
      var at := toolhead.position;
      if zMesh.None? {
        lastPosition := at.(z := at.z - fadeTarget);
      } else {
        var maxAdj := CalcZ(zMesh.value, at.x, at.y);
        var factor := 1.0;
        var zAdj := maxAdj - fadeTarget;
        var fadeZPos := at.z + toolOffset;
        if Min(fadeZPos, fadeZPos - maxAdj) >= fade.end {
          factor := 0.0;
        } else if Max(fadeZPos, fadeZPos - maxAdj) >= fade.start {
          if fade.dist - zAdj == 0.0 {
            return None;
          }
          factor := (fade.end + fadeTarget - fadeZPos) / (fade.dist - zAdj);
          factor := Constrain(factor, 0.0, 1.0);
        }
        assert RecoveredFactor(fade, fadeTarget, maxAdj, fadeZPos) == Some(factor);
        var finalZAdj := factor * zAdj + fadeTarget;
        CorrectionIs(factor, maxAdj, fadeTarget, finalZAdj);
        lastPosition := at.(z := at.z - finalZAdj);
      }
      r := Some(lastPosition);
    }

    // With fade target 0 every accepted mesh lets get_position give back every commanded
    // position: below, inside and above the fade band, on or off the mesh.
    lemma MoveIsUndone(pos: Pos)
      requires Valid() && fadeTarget == 0.0 && (fade.end != FADE_DISABLE || zMesh.None?)
      ensures Reported(fade, fadeTarget, toolOffset, zMesh, Destination(fade, fadeTarget, toolOffset, zMesh, pos)) == Some(pos)
    {
      hide CalcZ, Recover, Lifted, ValidSurface, RangeBelow;
      if zMesh.Some? {
        MeshHeightBelow(zMesh.value, fade.dist, pos);
        ZeroTargetUndone(fade, toolOffset, MeshHeight(zMesh, pos), pos.z);
      }
    }

    ghost function PlanFor(newpos: Pos, length: real): Plan
      requires Valid() && zMesh.Some?
      reads this, splitter
    {
      Plan(lastPosition, newpos, FactorAt(fade, newpos.z + toolOffset), length, zMesh.value, fadeTarget,
           splitter.moveCheckDistance, splitter.splitDeltaZ)
    }

    // The moves the toolhead is to be given for a commanded position.
    ghost function MovesFor(newpos: Pos, length: real): seq<Pos>
      requires Valid() && (zMesh.Some? ==> ValidPlan(PlanFor(newpos, length)))
      reads this, splitter
    {
      if zMesh.None? || FactorAt(fade, newpos.z + toolOffset) == 0.0 then [Raised(newpos, fadeTarget)]
      else
        var p := PlanFor(newpos, length);
        Path(p, 0.0, OffsetAt(p, p.prev))
    }

    // The last move leads to the corrected position.
    lemma LastMove(newpos: Pos, length: real)
      requires Valid() && (zMesh.Some? ==> ValidPlan(PlanFor(newpos, length)))
      ensures var moves := MovesFor(newpos, length);
              moves != [] && moves[|moves| - 1] == Destination(fade, fadeTarget, toolOffset, zMesh, newpos)
    {
      hide Path, FactorAt, ValidSurface, RangeBelow, CalcZ;
      if zMesh.Some? {
        var p := PlanFor(newpos, length);
        if p.factor == 0.0 {
          NoCorrection(MeshHeight(zMesh, newpos), fadeTarget);
        } else {
          PathFollowsMove(p, 0.0, OffsetAt(p, p.prev));
        }
      }
    }

    // The loop of move, which hands over the points one by one.
    method SendMoves()
      requires splitter.Splitting() && !splitter.traverseComplete && splitter.zMesh == zMesh
      modifies splitter, toolhead
      ensures splitter.Valid() && splitter.zMesh == zMesh && splitter.fadeOffset == old(splitter.fadeOffset)
      ensures toolhead.moves == old(toolhead.moves) + old(splitter.Remaining())
      ensures toolhead.moves != [] && toolhead.position == toolhead.moves[|toolhead.moves| - 1]
    {
      hide Path, ValidPlan, ValidSurface, AxesOf, Unmoved, Enabled, RangeBelow;
      ghost var p, moves := splitter.CurrentPlan(), splitter.Remaining();
      while !splitter.traverseComplete
        invariant splitter.Splitting() && splitter.CurrentPlan() == p && splitter.zMesh == zMesh
        invariant toolhead.moves + splitter.Remaining() == old(toolhead.moves) + moves
        invariant splitter.traverseComplete ==> toolhead.moves != [] && toolhead.position == toolhead.moves[|toolhead.moves| - 1]
        decreases |splitter.Remaining()|
      {
        ghost var sent := toolhead.moves;
        var r := splitter.Split();
        toolhead.Move(r.pos);
        HandOver(sent, r.pos, splitter.Remaining());
      }
    }

    // length is the square root the splitter takes of the move's extent.  The splitter always
    // supplies the next point, so the move never fails.
    method Move(newpos: Pos, length: real)
      requires Valid() && (zMesh.Some? ==> ValidPlan(PlanFor(newpos, length)))
      modifies this`lastPosition, splitter, toolhead
      ensures Valid() && lastPosition == newpos
      ensures toolhead.moves == old(toolhead.moves) + old(MovesFor(newpos, length))
      ensures toolhead.position == Destination(fade, fadeTarget, toolOffset, zMesh, newpos)
    {
      hide Path, OffsetAt, FactorAt, ValidSurface, RangeBelow, ValidPlan, Destination, Raised;
      ghost var moves := MovesFor(newpos, length);
      LastMove(newpos, length);
      var factor := GetZFactor(newpos.z);
      if zMesh.None? || factor == 0.0 {
        toolhead.Move(Raised(newpos, fadeTarget));
      } else {
        splitter.BuildMove(lastPosition, newpos, factor, length);
        assert splitter.Remaining() == moves;
        SendMoves();
      }
      lastPosition := newpos;
    }
  }
}
