/** From probed heights to the finished mesh (software/klipper/extras/bed_mesh.py, the last part
    of BedMeshCalibrate.probe_finalize). */
module Finish {
  import opened Calibrate
  import opened MeshFill
  import opened ProbePath
  import opened Support
  import opened ZMesh

  // The extent of the base points, found by searching them.
  method Extent(points: seq<Point>) returns (min: Point, max: Point)
    requires points != []
    ensures forall k :: 0 <= k < |points| ==> min.x <= points[k].x <= max.x && min.y <= points[k].y <= max.y
    ensures exists k :: 0 <= k < |points| && points[k].x == min.x
    ensures exists k :: 0 <= k < |points| && points[k].x == max.x
    ensures exists k :: 0 <= k < |points| && points[k].y == min.y
    ensures exists k :: 0 <= k < |points| && points[k].y == max.y
  {
    min, max := points[0], points[0];
    for k := 0 to |points|
      invariant min.x <= max.x && min.y <= max.y
      invariant forall j :: 0 <= j < k ==> min.x <= points[j].x <= max.x && min.y <= points[j].y <= max.y
      invariant exists j :: 0 <= j < |points| && points[j].x == min.x
      invariant exists j :: 0 <= j < |points| && points[j].x == max.x
      invariant exists j :: 0 <= j < |points| && points[j].y == min.y
      invariant exists j :: 0 <= j < |points| && points[j].y == max.y
    {
      var p := points[k];
      min := Point(Min(min.x, p.x), Min(min.y, p.y));
      max := Point(Max(max.x, p.x), Max(max.y, p.y));
    }
  }

  // Of a grid it is the first and the last column and row.
  lemma GridExtent(g: Grid, min: Point, max: Point)
    requires ValidGrid(g) && BasePoints(g) != []
    requires var points := BasePoints(g);
             && (forall k :: 0 <= k < |points| ==> min.x <= points[k].x <= max.x && min.y <= points[k].y <= max.y)
             && (exists k :: 0 <= k < |points| && points[k].x == min.x)
             && (exists k :: 0 <= k < |points| && points[k].x == max.x)
             && (exists k :: 0 <= k < |points| && points[k].y == min.y)
             && (exists k :: 0 <= k < |points| && points[k].y == max.y)
    ensures min == GridPoint(g, 0, 0) && max == GridPoint(g, g.xCount - 1, g.yCount - 1)
  {
    hide Rows, Index, Tick;
    var points := BasePoints(g);
    forall k | 0 <= k < |points|
      ensures GridPoint(g, 0, 0).x <= points[k].x <= GridPoint(g, g.xCount - 1, 0).x
      ensures GridPoint(g, 0, 0).y <= points[k].y <= GridPoint(g, 0, g.yCount - 1).y
    {
      var c, r := PlaceOfPoint(g, g.yCount, k);
      TicksRise(g.minX, g.xDist, 0, c);
      TicksRise(g.minX, g.xDist, c, g.xCount - 1);
      TicksRise(g.minY, g.yDist, 0, r);
      TicksRise(g.minY, g.yDist, r, g.yCount - 1);
    }
    GridPointProbed(g, 0, 0);
    GridPointProbed(g, g.xCount - 1, g.yCount - 1);
  }

  lemma TicksRise(min: real, dist: real, a: nat, b: nat)
    requires dist > 0.0 && a <= b
    ensures Tick(min, dist, a) <= Tick(min, dist, b)
  {
    ProductSign((b - a) as real, dist);
    assert b as real * dist - a as real * dist == (b - a) as real * dist;
  }

  lemma {:induction false} PlaceOfPoint(g: Grid, n: nat, k: nat) returns (c: nat, r: nat)
    requires k < |Rows(g, n)|
    ensures c < g.xCount && r < n && Rows(g, n)[k] == GridPoint(g, c, r)
  {
    hide GridPoint;
    var before := Rows(g, n - 1);
    NextRow(g, n - 1);
    if k < |before| {
      c, r := PlaceOfPoint(g, n - 1, k);
    } else {
      c, r := ProbePath.Column(g, n - 1, k - |before|), n - 1;
    }
  }

  lemma PointsExist(g: Grid)
    requires ValidGrid(g)
    ensures BasePoints(g) != []
  {
    hide BasePoints;
    GridPointProbed(g, 0, 0);
  }

  lemma AxesOf(g: Grid, xPps: nat, yPps: nat)
    requires ValidGrid(g)
    ensures GridPoint(g, 0, 0) == Point(g.minX, g.minY)
    ensures ValidAxis(Axis(g.minX, MaxX(g), g.xCount, xPps))
    ensures ValidAxis(Axis(g.minY, Tick(g.minY, g.yDist, g.yCount - 1), g.yCount, yPps))
  {
    NodeCoordinate(g.minX, g.xDist, g.xCount, xPps, 0);
    NodeCoordinate(g.minY, g.yDist, g.yCount, yPps, 0);
  }

  lemma ProbedShape(g: Grid, s: Substitutes, h: seq<real>, zOffset: real)
    ensures var r := FinalOf(g, s, h, zOffset); r.Probed? ==> Rectangular(r.matrix, g.xCount, g.yCount)
  {
    hide BasePoints, Index, Apart, Corrected;
    PointCount(g);
    var z := Corrected(BasePoints(g), s, h);
    if |z| == |BasePoints(g)| {
      MatrixWidth(g, z, zOffset);
    }
  }

  lemma IsSurface(s: Surface, algo: Option<Algorithm>, g: Grid, matrix: seq<seq<real>>)
    requires ValidGrid(g) && ValidSurface(s) && s.offsetX == 0.0 == s.offsetY
    requires s.x == Axis(g.minX, MaxX(g), g.xCount, s.x.pps)
    requires s.y == Axis(g.minY, Tick(g.minY, g.yDist, g.yCount - 1), g.yCount, s.y.pps)
    requires Rectangular(matrix, g.xCount, g.yCount)
    requires algo == None ==> s.x.pps == s.y.pps == 0 && s.rows == matrix
    requires algo.Some? ==> forall j, i :: 0 <= j < Count(s.y) && 0 <= i < Count(s.x) ==>
                              s.rows[j][i] == Filled(algo.value, s.x, s.y, matrix, j, i)
    ensures SurfaceOf(s, algo, g, matrix)
  {
    hide Filled, Count, Tick;
  }

  // The mesh is built over the extent of the base points and, if the reference is inside, made
  // zero there; no algorithm stands for 'direct'.
  method FinishMesh(ghost g: Grid, cal: BedMeshCalibrate, heights: seq<real>, offset: real,
                    algo: Option<Algorithm>, xPps: nat, yPps: nat)
    returns (r: Finalized, mesh: MeshObject?, ghost before: Option<Surface>)
    requires cal.probeMgr.Valid() && ValidGrid(g) && cal.probeMgr.basePoints == BasePoints(g)
    requires cal.xCount == g.xCount && cal.yCount == g.yCount && (algo == None ==> xPps == yPps == 0)
    requires cal.probeMgr.zrefMode.InMesh? ==> cal.probeMgr.zeroRefPos.Some?
    ensures !r.NoPositions? ==>
              var probed := cal.probeMgr.zrefMode.Probe?;
              && (probed ==> heights != [])
              && r == FinalOf(g, cal.probeMgr.substitutes, if probed then heights[..|heights| - 1] else heights,
                              if probed then heights[|heights| - 1] else offset)
    ensures mesh != null <==> r.Probed?
    ensures mesh != null ==>
              && mesh.Ready() && before.Some? && SurfaceOf(before.value, algo, g, r.matrix)
              && ValidSurface(before.value) && mesh.View().x == before.value.x && mesh.View().y == before.value.y
    ensures mesh != null && !cal.probeMgr.zrefMode.InMesh? ==> mesh.View() == before.value
    ensures mesh != null && cal.probeMgr.zrefMode.InMesh? ==>
              var ref := cal.probeMgr.zeroRefPos.value;
              var height := CalcZ(before.value, ref.x, ref.y);
              && mesh.View() == before.value.(rows := mesh.View().rows)
              && Shifted(mesh.View().rows, before.value.rows, if algo == None then height + height else height)
  {
    hide SurfaceOf, BasePoints, CalcZ, Filled, Count, Shifted, ValidSubstitutes, Index, FinalOf, Tick, GridPoint, Rectangular;
    before := None;
    mesh := null;
    r := cal.ProbeFinalize(g, heights, offset);
    if !r.Probed? {
      return;
    }
    ghost var h := if cal.probeMgr.zrefMode.Probe? then heights[..|heights| - 1] else heights;
    ghost var z0 := if cal.probeMgr.zrefMode.Probe? then heights[|heights| - 1] else offset;
    ProbedShape(g, cal.probeMgr.substitutes, h, z0);
    PointsExist(g);
    var min, max := Extent(cal.probeMgr.basePoints);
    GridExtent(g, min, max);
    AxesOf(g, xPps, yPps);
    LastPoint(g);
    mesh := new MeshObject(Axis(min.x, max.x, cal.xCount, xPps), Axis(min.y, max.y, cal.yCount, yPps), algo);
    var z := new MeshFill.Matrix(r.matrix);
    RowsOf(r.matrix, g.xCount, g.yCount);
    mesh.BuildMesh(z);
    before := Some(mesh.View());
    IsSurface(before.value, algo, g, r.matrix);
    if cal.probeMgr.zrefMode.InMesh? {
      mesh.SetZeroReference(cal.probeMgr.zeroRefPos.value.x, cal.probeMgr.zeroRefPos.value.y);
    }
  }

  lemma LastPoint(g: Grid)
    ensures GridPoint(g, g.xCount - 1, g.yCount - 1) == Point(MaxX(g), Tick(g.minY, g.yDist, g.yCount - 1))
  {
  }

  lemma RowsOf(rows: seq<seq<real>>, width: nat, height: nat)
    requires Rectangular(rows, width, height)
    ensures |rows| == height && forall r :: r in rows ==> |r| == width
  {
  }

  // What the finished mesh says where the bed was probed: the mean of the heights measured for
  // that grid point, less the offset, and less the height at the reference if one is set.
  lemma MeshTellsReadings(before: Surface, after: Surface, algo: Option<Algorithm>, g: Grid, s: Substitutes,
                          h: seq<real>, zOffset: real, reference: Option<Point>, c: nat, r: nat)
    requires ValidGrid(g) && ValidSubstitutes(s, |BasePoints(g)|) && AllApart(g, g.yCount)
    requires |h| == |StdPath(BasePoints(g), s, |BasePoints(g)|)| && c < g.xCount && r < g.yCount
    requires FinalOf(g, s, h, zOffset).Probed? && SurfaceOf(before, algo, g, FinalOf(g, s, h, zOffset).matrix)
    requires ValidSurface(before)
    requires var height := if reference.None? then 0.0 else CalcZ(before, reference.value.x, reference.value.y);
             && after == before.(rows := after.rows)
             && Shifted(after.rows, before.rows, if algo == None then height + height else height)
    ensures Index(g.xCount, r, ProbePath.Column(g, r, c)) < |BasePoints(g)| && ValidSurface(after)
    ensures var height := if reference.None? then 0.0 else CalcZ(before, reference.value.x, reference.value.y);
            CalcZ(after, GridPoint(g, c, r).x, GridPoint(g, c, r).y) ==
            Reading(BasePoints(g), s, h, Index(g.xCount, r, ProbePath.Column(g, r, c))) - zOffset
            - (if algo == None then height + height else height)
    ensures reference.Some? && algo.Some? ==> CalcZ(after, reference.value.x, reference.value.y) == 0.0
  {
    hide SurfaceOf, CalcZ, BasePoints, StdPath, FinalOf, Reading, Index, GridPoint, Apart, Shifted, ValidSubstitutes, ValidSurface;
    ProbedMatrix(g, s, h, zOffset);
    var p := GridPoint(g, c, r);
    var height := if reference.None? then 0.0 else CalcZ(before, reference.value.x, reference.value.y);
    var shift := if algo == None then height + height else height;
    SurfaceThroughProbed(before, algo, g, FinalOf(g, s, h, zOffset).matrix, c, r);
    CalcZShift(before, after.rows, shift, p.x, p.y);
    if reference.Some? {
      CalcZShift(before, after.rows, shift, reference.value.x, reference.value.y);
    }
  }
}
