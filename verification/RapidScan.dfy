/** What becomes of a rapid scan (software/klipper/extras/bed_mesh.py, RapidScanHelper and
    BedMeshCalibrate.probe_finalize): the heights sampled along the rapid path are handed over
    as if they had been measured along the standard path. */
module RapidScan {
  import opened Averages
  import opened Calibrate
  import opened ProbePath
  import opened Support

  // The place among the sampled heights where those of a base point begin.
  function RapidStart(points: seq<Point>, s: Substitutes, i: nat): nat
    requires i <= |points|
  {
    |RapidPath(points, s, i)|
  }

  // How many samples have been left out before a base point.
  function Lost(points: seq<Point>, s: Substitutes, i: nat): nat
    requires i <= |points|
  {
    if i == 0 then 0 else Lost(points, s, i - 1) + if Loses(points, s, i - 1) then 1 else 0
  }

  // The mean of the heights sampled for a base point.
  function RapidReading(points: seq<Point>, s: Substitutes, h: seq<real>, i: nat): real
    requires i < |points|
  {
    var k := RapidStart(points, s, i);
    Mean(Slice(h, k, k + |RapidBlock(points, s, i)|))
  }

  lemma RapidNext(points: seq<Point>, s: Substitutes, i: nat)
    requires i < |points|
    ensures RapidStart(points, s, i + 1) == RapidStart(points, s, i) + |RapidBlock(points, s, i)|
    ensures Start(points, s, i + 1) == Start(points, s, i) + |Block(points, s, i)|
    ensures |Block(points, s, i)| == |RapidBlock(points, s, i)| + if Loses(points, s, i) then 1 else 0
    ensures Lost(points, s, i + 1) == Lost(points, s, i) + if Loses(points, s, i) then 1 else 0
  {
    hide DirChange;
  }

  // Every sample left out brings the heights of all later base points one place forward.
  lemma {:induction false} HeightsRunAhead(points: seq<Point>, s: Substitutes, i: nat)
    requires i <= |points|
    ensures Start(points, s, i) == RapidStart(points, s, i) + Lost(points, s, i)
    ensures Lost(points, s, i) == 0 <==> forall k :: 0 <= k < i ==> !Loses(points, s, k)
  {
    hide Start, RapidStart, Lost, Loses;
    if i == 0 {
      AtFirst(points, s);
    } else {
      HeightsRunAhead(points, s, i - 1);
      RapidNext(points, s, i - 1);
    }
  }

  lemma AtFirst(points: seq<Point>, s: Substitutes)
    ensures Start(points, s, 0) == RapidStart(points, s, 0) == Lost(points, s, 0) == 0
  {
  }

  lemma {:induction false} RapidStartGrows(points: seq<Point>, s: Substitutes, i: nat, n: nat)
    requires i <= n <= |points|
    ensures RapidStart(points, s, i) <= RapidStart(points, s, n)
    decreases n - i
  {
    hide RapidStart;
    if i < n {
      RapidNext(points, s, i);
      RapidStartGrows(points, s, i + 1, n);
    }
  }

  // Whether the length check stops a scan: exactly when, counted along the standard path, an
  // unsubstituted base point lies beyond the heights that were sampled.
  lemma ScanSizeIff(g: Grid, s: Substitutes, h: seq<real>, zOffset: real)
    requires ValidSubstitutes(s, |BasePoints(g)|) && |h| == RapidStart(BasePoints(g), s, |BasePoints(g)|)
    ensures var points := BasePoints(g);
            FinalOf(g, s, h, zOffset) == InvalidSize <==>
            exists i :: 0 <= i < |points| && i !in s.at && Start(points, s, i) >= |h|
  {
    hide BasePoints, Start, RapidStart, Entries, Slice, Apart, ValidSubstitutes;
    var points := BasePoints(g);
    HeightsRunAhead(points, s, |points|);
    LengthAcceptedIff(points, s, h);
  }

  // One entry for every base point when none beyond the heights stands alone.
  lemma {:induction false} EntryAt(points: seq<Point>, s: Substitutes, h: seq<real>, i: nat, n: nat)
    requires i < n <= |points| && forall k :: 0 <= k < n && k !in s.at ==> Start(points, s, k) < |h|
    ensures |Entries(points, s, h, n)| == n && [Entries(points, s, h, n)[i]] == Entry(points, s, h, i)
    decreases n
  {
    hide Start, Entries, Entry;
    CountEntries(points, s, h, n);
    CountEntries(points, s, h, n - 1);
    EntryNext(points, s, h, n - 1);
    if i < n - 1 {
      EntryAt(points, s, h, i, n - 1);
    }
  }

  // Before the first sample left out every base point gets the mean of its own heights.
  lemma RightBeforeLoss(points: seq<Point>, s: Substitutes, h: seq<real>, i: nat)
    requires i < |points| && ValidSubstitutes(s, |points|) && |h| >= RapidStart(points, s, i + 1)
    requires Lost(points, s, i + 1) == 0
    ensures Entry(points, s, h, i) == [RapidReading(points, s, h, i)]
  {
    hide Start, RapidStart, Entry, Lost, ValidSubstitutes, Slice, Mean;
    RapidNext(points, s, i);
    HeightsRunAhead(points, s, i);
    EntryIsMean(points, s, h, i);
  }

  // After it, a base point that is not substituted gets a height that was sampled as many
  // places later as samples were left out before.
  lemma ShiftedAfterLoss(g: Grid, s: Substitutes, h: seq<real>, zOffset: real, i: nat)
    requires ValidSubstitutes(s, |BasePoints(g)|) && |h| == RapidStart(BasePoints(g), s, |BasePoints(g)|)
    requires FinalOf(g, s, h, zOffset) != InvalidSize && i < |BasePoints(g)| && i !in s.at
    ensures var points := BasePoints(g);
            var k := RapidStart(points, s, i) + Lost(points, s, i);
            k < |h| && |Corrected(points, s, h)| == |points| && Corrected(points, s, h)[i] == h[k]
  {
    hide BasePoints, Start, RapidStart, Lost, Entries, Apart, ValidSubstitutes, Matrix;
    var points := BasePoints(g);
    ScanSizeIff(g, s, h, zOffset);
    HeightsRunAhead(points, s, i);
    HeightsRunAhead(points, s, |points|);
    EntryAt(points, s, h, i, |points|);
  }

  // A cell holds the mean of the heights sampled for the base point at its own place.
  ghost predicate CellRight(g: Grid, s: Substitutes, h: seq<real>, zOffset: real, m: seq<seq<real>>, r: nat, c: nat)
    requires c < g.xCount
  {
    && r < |m| && |m[r]| == g.xCount
    && var i := Index(g.xCount, r, Column(g, r, c));
       && i < |BasePoints(g)| && BasePoints(g)[i] == GridPoint(g, c, r)
       && m[r][c] == RapidReading(BasePoints(g), s, h, i) - zOffset
  }

  // A scan ends with a matrix all of whose cells are right.
  ghost predicate ScanRight(g: Grid, s: Substitutes, h: seq<real>, zOffset: real) {
    var r := FinalOf(g, s, h, zOffset);
    && r.Probed? && |r.matrix| == g.yCount
    && forall row: nat, c: nat :: row < g.yCount && c < g.xCount ==> CellRight(g, s, h, zOffset, r.matrix, row, c)
  }

  lemma RightWithoutLoss(g: Grid, s: Substitutes, h: seq<real>, zOffset: real)
    requires ValidGrid(g) && ValidSubstitutes(s, |BasePoints(g)|) && AllApart(g, g.yCount)
    requires |h| == RapidStart(BasePoints(g), s, |BasePoints(g)|) && Lost(BasePoints(g), s, |BasePoints(g)|) == 0
    ensures ScanRight(g, s, h, zOffset)
  {
    hide BasePoints, RapidStart, Lost, FinalOf, Index, Column, Reading, RapidReading, Apart, ValidSubstitutes, GridPoint;
    var points := BasePoints(g);
    HeightsRunAhead(points, s, |points|);
    ProbedMatrix(g, s, h, zOffset);
    var m := FinalOf(g, s, h, zOffset).matrix;
    forall r: nat, c: nat | r < g.yCount && c < g.xCount ensures CellRight(g, s, h, zOffset, m, r, c) {
      var i := Index(g.xCount, r, Column(g, r, c));
      assert |m[r]| == g.xCount && m[r][c] == Reading(points, s, h, i) - zOffset;
      SameReading(points, s, h, i);
    }
  }

  lemma SameReading(points: seq<Point>, s: Substitutes, h: seq<real>, i: nat)
    requires i < |points| && Lost(points, s, |points|) == 0
    ensures Reading(points, s, h, i) == RapidReading(points, s, h, i)
  {
    hide Start, RapidStart, Lost, Loses, Mean, Slice, Block;
    HeightsRunAhead(points, s, |points|);
    HeightsRunAhead(points, s, i);
  }

  // Heights that tell the samples of a base point from all later ones.
  function Telling(end: nat, total: nat): (h: seq<real>)
    ensures |h| == total
  {
    seq(total, k requires 0 <= k < total => if k < end then 1.0 else 0.0)
  }

  // The first base point to lose a sample is given three quarters of what was measured there.
  lemma WrongAtFirstLoss(points: seq<Point>, s: Substitutes, f: nat)
    requires f < |points| && ValidSubstitutes(s, |points|) && Loses(points, s, f) && Lost(points, s, f) == 0
    ensures var h := Telling(RapidStart(points, s, f) + 3, RapidStart(points, s, |points|));
            && RapidReading(points, s, h, f) == 1.0 && Entry(points, s, h, f) == [0.75]
  {
    hide Lost, DirChange, ValidSubstitutes, StdPath, RapidPath, Sum;
    RapidNext(points, s, f);
    HeightsRunAhead(points, s, f);
    RapidStartGrows(points, s, f + 1, |points|);
    var k, total := RapidStart(points, s, f), RapidStart(points, s, |points|);
    var h := Telling(k + 3, total);
    assert Slice(h, k, k + 3) == [1.0, 1.0, 1.0];
    SumOfThree();
    assert Slice(h, k, k + 4) == if k + 3 < total then [1.0, 1.0, 1.0, 0.0] else [1.0, 1.0, 1.0];
  }

  lemma SumOfThree()
    ensures Sum([1.0, 1.0, 1.0]) == 3.0 && Sum([1.0, 1.0, 1.0, 0.0]) == 3.0
  {
    assert [1.0, 1.0, 1.0][..2] == [1.0, 1.0] && [1.0, 1.0][..1] == [1.0] && [1.0][..0] == [];
    assert Sum([1.0]) == 1.0 && Sum([1.0, 1.0]) == 2.0;
    assert [1.0, 1.0, 1.0, 0.0][..3] == [1.0, 1.0, 1.0];
  }

  // The cell of a base point.
  lemma CellOfPoint(g: Grid, f: nat) returns (r: nat, c: nat)
    requires ValidGrid(g) && f < |BasePoints(g)|
    ensures r < g.yCount && c < g.xCount && Index(g.xCount, r, Column(g, r, c)) == f
  {
    hide BasePoints;
    PointCount(g);
    r := f / g.xCount;
    RowOf(f, g.xCount, g.yCount);
    c := Column(g, r, f % g.xCount);
  }

  lemma RowOf(f: nat, w: nat, n: nat)
    requires w > 0 && f < Index(w, n, 0)
    ensures f / w < n && f % w < w && Index(w, f / w, f % w) == f
  {
    var r := f / w;
    assert f == r * w + f % w;
    NotNegative(r - n, w);
    assert (r - n) * w == r * w - n * w;
  }

  lemma NotNegative(x: int, w: nat)
    ensures x >= 0 ==> x * w >= 0
  {
  }

  lemma WrongWithLoss(g: Grid, s: Substitutes, zOffset: real, f: nat)
    requires ValidGrid(g) && ValidSubstitutes(s, |BasePoints(g)|) && AllApart(g, g.yCount)
    requires f < |BasePoints(g)| && Loses(BasePoints(g), s, f) && Lost(BasePoints(g), s, f) == 0
    ensures exists h: seq<real> :: |h| == RapidStart(BasePoints(g), s, |BasePoints(g)|) && !ScanRight(g, s, h, zOffset)
  {
    hide BasePoints, RapidStart, Lost, Loses, Entries, Entry, Index, Column, RapidReading, Apart,
      ValidSubstitutes, Telling, ScanRight;
    var points := BasePoints(g);
    var h := Telling(RapidStart(points, s, f) + 3, RapidStart(points, s, |points|));
    WrongAtFirstLoss(points, s, f);
    var r, c := CellOfPoint(g, f);
    RightCell(g, s, h, zOffset, r, c);
    if FinalOf(g, s, h, zOffset) != InvalidSize {
      ScanSizeIff(g, s, h, zOffset);
      EntryAt(points, s, h, f, |points|);
      PointCount(g);
      CellIs(g, Corrected(points, s, h), zOffset, r, c);
    }
    assert !ScanRight(g, s, h, zOffset);
  }

  lemma RightCell(g: Grid, s: Substitutes, h: seq<real>, zOffset: real, r: nat, c: nat)
    requires r < g.yCount && c < g.xCount
    ensures ScanRight(g, s, h, zOffset) ==>
              FinalOf(g, s, h, zOffset).Probed? && CellRight(g, s, h, zOffset, FinalOf(g, s, h, zOffset).matrix, r, c)
  {
  }

  lemma CellIs(g: Grid, z: seq<real>, offset: real, r: nat, c: nat)
    requires |z| == Index(g.xCount, g.yCount, 0) && r < g.yCount && c < g.xCount
    ensures Index(g.xCount, r, Column(g, r, c)) < |z|
    ensures Matrix(g, z, offset, g.yCount)[r][c] == z[Index(g.xCount, r, Column(g, r, c))] - offset
  {
    hide Index;
    IndexIn(g.xCount, r, Column(g, r, c), g.yCount);
  }

  // A rapid scan is right for all heights exactly when no point where the direction changes has
  // four substitutes.
  lemma ScanRightIff(g: Grid, s: Substitutes, zOffset: real)
    requires ValidGrid(g) && ValidSubstitutes(s, |BasePoints(g)|) && AllApart(g, g.yCount)
    ensures var points := BasePoints(g);
            (forall h: seq<real> :: |h| == RapidStart(points, s, |points|) ==> ScanRight(g, s, h, zOffset)) <==>
            forall i :: 0 <= i < |points| ==> !Loses(points, s, i)
  {
    hide BasePoints, RapidStart, Lost, Loses, ScanRight, Apart, ValidSubstitutes;
    var points := BasePoints(g);
    HeightsRunAhead(points, s, |points|);
    if Lost(points, s, |points|) == 0 {
      forall h: seq<real> | |h| == RapidStart(points, s, |points|) ensures ScanRight(g, s, h, zOffset) {
        RightWithoutLoss(g, s, h, zOffset);
      }
    } else {
      var f := FirstLoss(points, s, |points|);
      WrongWithLoss(g, s, zOffset, f);
    }
  }

  lemma {:induction false} FirstLoss(points: seq<Point>, s: Substitutes, n: nat) returns (f: nat)
    requires n <= |points| && Lost(points, s, n) > 0
    ensures f < n && Loses(points, s, f) && Lost(points, s, f) == 0
  {
    hide Loses;
    if Lost(points, s, n - 1) > 0 {
      f := FirstLoss(points, s, n - 1);
    } else {
      f := n - 1;
    }
  }

  // ---------- a mesh that is scanned wrong ----------

  // Nine points ten apart; the right ends of the second and the third row are faulty.
  const MESH_MAX := Point(20.0, 20.0)
  const FAULTY := [Region(Point(15.0, 5.0), Point(20.0, 15.0)), Region(Point(15.0, 17.0), Point(20.0, 20.0))]

  predicate IsExample(g: Grid) {
    g == Grid(0.0, 0.0, 10.0, 10.0, 3, 3)
  }

  lemma ExampleIsGenerated(g: Grid)
    ensures IsExample(GridOf(3, 3, Point(0.0, 0.0), MESH_MAX))
    ensures IsExample(g) ==> ValidGrid(g) && AllApart(g, 3) && Index(3, 3, 0) == 9
  {
    assert (20.0 - 0.0) / 2.0 * 100.0 == 1000.0;
  }

  // The substitutes such a mesh is given when its points are generated.
  ghost predicate GivenSubstitutes(g: Grid, s: Substitutes) {
    SubstitutesAre(s, BasePoints(g), FAULTY, BedOf(g, MESH_MAX), |BasePoints(g)|)
  }

  lemma {:induction false} InsideAll(points: seq<Point>, bed: Region)
    requires forall p :: p in points ==> InRegion(p, bed, 0.000001)
    ensures Inside(points, bed) == points
  {
    hide InRegion, Inside;
    InsideStep(points, bed);
    if points != [] {
      var n := |points| - 1;
      InsideAll(points[..n], bed);
      assert points[n] in points && points == points[..n] + [points[n]];
    }
  }

  lemma TwoRegions(a: Region, b: Region, p: Point)
    ensures FirstRegion([a, b], p) ==
            if InRegion(p, a, 0.00001) then Some(a) else if InRegion(p, b, 0.00001) then Some(b) else None
  {
    assert [a, b][1..] == [b] && [b][1..] == [];
    hide InRegion;
    assert FirstRegion([], p) == None;
    assert FirstRegion([b], p) == if InRegion(p, b, 0.00001) then Some(b) else None;
  }

  // Base point j of row r.
  lemma ExamplePoint(g: Grid, r: nat, j: nat)
    requires IsExample(g) && r < 3 && j < 3
    ensures 3 * r + j < |BasePoints(g)| == 9 && Index(3, r, j) == 3 * r + j
    ensures BasePoints(g)[3 * r + j] ==
            Point(if r == 1 then 20.0 - 10.0 * j as real else 10.0 * j as real, 10.0 * r as real)
  {
    hide Rows;
    ExampleIsGenerated(g);
    PointCount(g);
    RowsAt(g, 3, r, j);
  }

  function ExampleWants(g: Grid, i: nat): Option<seq<Point>>
    requires i < |BasePoints(g)|
  {
    Wanted(BasePoints(g), FAULTY, BedOf(g, MESH_MAX), i)
  }

  predicate FourOrNone(wanted: Option<seq<Point>>, four: bool) {
    if four then wanted.Some? && |wanted.value| == 4 else wanted.None?
  }

  // Only the two right ends are faulty, and all four points around them can be reached.
  lemma ExampleWanted(g: Grid, i: nat)
    requires IsExample(g) && i < |BasePoints(g)|
    ensures FourOrNone(ExampleWants(g, i), i == 3 || i == 8)
  {
    hide BasePoints, Reversed, FirstRegion, Inside;
    ExampleIsGenerated(g);
    PointCount(g);
    ExamplePoint(g, i / 3, i % 3);
    var points, bed := BasePoints(g), BedOf(g, MESH_MAX);
    var p := points[i];
    TwoRegions(FAULTY[0], FAULTY[1], p);
    var region := FirstRegion(FAULTY, p);
    if region.Some? {
      InsideAll(Beside(p, region.value, Reversed(points, i)), bed);
    }
  }

  // So generating the points of this mesh does not fail for want of substitutes.
  lemma ExampleIsAccepted(g: Grid, i: nat)
    requires IsExample(g) && i < |BasePoints(g)|
    ensures ExampleWants(g, i) != Some([])
  {
    hide BasePoints, ExampleWants, IsExample;
    ExampleWanted(g, i);
  }

  // Four substitutes for the fourth and the ninth of nine points; rows of three.
  ghost predicate ExampleShape(points: seq<Point>, s: Substitutes) {
    && |points| == 9
    && forall i: nat :: i < 9 ==>
         && (i in s.at <==> i == 3 || i == 8) && (i in s.at ==> |s.at[i]| == 4)
         && (DirChange(points, i) <==> i == 3 || i == 6)
  }

  lemma GivenIsWanted(g: Grid, s: Substitutes, i: nat)
    requires GivenSubstitutes(g, s) && i < |BasePoints(g)|
    ensures ExampleWants(g, i) == if i in s.at then Some(s.at[i]) else None
  {
    hide Wanted;
  }

  lemma ExampleHasShape(g: Grid, s: Substitutes)
    requires IsExample(g) && GivenSubstitutes(g, s)
    ensures ExampleShape(BasePoints(g), s)
  {
    hide BasePoints, DirChange, GivenSubstitutes, Apart, ExampleWants;
    ExampleIsGenerated(g);
    ExamplePoint(g, 0, 0);
    forall i: nat | i < 9
      ensures (i in s.at <==> i == 3 || i == 8) && (i in s.at ==> |s.at[i]| == 4)
      ensures DirChange(BasePoints(g), i) <==> i == 3 || i == 6
    {
      var r, j := i / 3, i % 3;
      ExamplePoint(g, r, j);
      ExampleWanted(g, i);
      GivenIsWanted(g, s, i);
      GridDirChange(g, r, j);
    }
  }

  // One block of either path, and the one sample that is left out.
  lemma ExampleBlock(points: seq<Point>, s: Substitutes, i: nat)
    requires ExampleShape(points, s) && i < 9
    ensures Start(points, s, i + 1) == Start(points, s, i) + if i == 3 || i == 8 then 4 else 1
    ensures RapidStart(points, s, i + 1) == RapidStart(points, s, i) + if i == 3 then 3 else if i == 8 then 4 else 1
    ensures Loses(points, s, i) <==> i == 3
  {
    hide Start, RapidStart, DirChange;
    RapidNext(points, s, i);
  }

  // Where the heights of the base points begin in both paths.
  lemma ExampleStarts(points: seq<Point>, s: Substitutes)
    requires ExampleShape(points, s)
    ensures |points| == 9 && Loses(points, s, 3)
    ensures Start(points, s, 4) == 7 && Start(points, s, 9) == 15 && forall i :: 0 <= i < 8 ==> Start(points, s, i) < 11
    ensures RapidStart(points, s, 4) == 6 && RapidStart(points, s, 5) == 7 && RapidStart(points, s, 9) == 14
  {
    hide Start, RapidStart, Loses;
    AtFirst(points, s);
    ExampleBlock(points, s, 0);
    ExampleBlock(points, s, 1);
    ExampleBlock(points, s, 2);
    ExampleBlock(points, s, 3);
    ExampleBlock(points, s, 4);
    ExampleBlock(points, s, 5);
    ExampleBlock(points, s, 6);
    ExampleBlock(points, s, 7);
    ExampleBlock(points, s, 8);
  }

  // On this mesh a rapid scan takes 14 heights where the path has 15.  The length check lets
  // them through, a matrix results, and base point 4 is given the height of base point 5; for
  // some heights the matrix is not right.
  lemma ScanGoesWrong(g: Grid, s: Substitutes, zOffset: real)
    requires g == GridOf(3, 3, Point(0.0, 0.0), MESH_MAX) && GivenSubstitutes(g, s)
    ensures var points := BasePoints(g);
            && |points| == 9 && |StdPath(points, s, 9)| == 15 && |RapidPath(points, s, 9)| == 14
            && RapidStart(points, s, 4) == 6 && RapidStart(points, s, 5) == 7
            && (forall h: seq<real> :: |h| == 14 ==>
                  && FinalOf(g, s, h, zOffset).Probed?
                  && |Corrected(points, s, h)| == 9 && Corrected(points, s, h)[4] == h[7])
            && exists h: seq<real> :: |h| == 14 && !ScanRight(g, s, h, zOffset)
  {
    hide BasePoints, StdPath, RapidPath, Loses, ScanRight, Entries, Slice, Matrix, IsExample, Apart, GivenSubstitutes;
    var points := BasePoints(g);
    ExampleIsGenerated(g);
    ExampleHasShape(g, s);
    ExampleStarts(points, s);
    GivenAreValid(g, s);
    HeightsRunAhead(points, s, 4);
    forall h: seq<real> | |h| == 14
      ensures FinalOf(g, s, h, zOffset).Probed? && |Corrected(points, s, h)| == 9 && Corrected(points, s, h)[4] == h[7]
    {
      ScanSizeIff(g, s, h, zOffset);
      ShiftedAfterLoss(g, s, h, zOffset, 4);
    }
    ScanRightIff(g, s, zOffset);
  }

  lemma GivenAreValid(g: Grid, s: Substitutes)
    requires GivenSubstitutes(g, s)
    ensures ValidSubstitutes(s, |BasePoints(g)|)
  {
  }
}
