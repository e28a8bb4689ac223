/** Where the bed is probed (software/klipper/extras/bed_mesh.py, class ProbeManager): the
    zig-zag grid, the points that replace those in faulty regions, the standard path through
    them and the path of a rapid scan.  Rectangular beds; arithmetic is exact. */
module ProbePath {
  import opened Support

  datatype Point = Point(x: real, y: real)

  // ---------- the grid ----------

  datatype Grid = Grid(minX: real, minY: real, xDist: real, yDist: real, xCount: nat, yCount: nat)

  ghost predicate ValidGrid(g: Grid) {
    g.xDist >= 1.0 && g.yDist >= 1.0 && g.xCount >= 3 && g.yCount >= 3
  }

  function Tick(min: real, dist: real, k: int): real {
    min + k as real * dist
  }

  function MaxX(g: Grid): real {
    Tick(g.minX, g.xDist, g.xCount - 1)
  }

  // The point of column c and row r.
  function GridPoint(g: Grid, c: int, r: int): Point {
    Point(Tick(g.minX, g.xDist, c), Tick(g.minY, g.yDist, r))
  }

  // The position of entry j of row r in a list of rows of width w.
  function Index(w: nat, r: nat, j: nat): (k: nat) {
    r * w + j
  }

  lemma IndexStep(w: nat, r: nat, j: nat)
    ensures Index(w, 0, j) == j
    ensures Index(w, r, j + 1) == Index(w, r, j) + 1
    ensures Index(w, r, w) == Index(w, r + 1, 0)
  {
  }

  lemma IndexIn(w: nat, r: nat, j: nat, n: nat)
    requires r < n && j < w
    ensures Index(w, r, 0) <= Index(w, r, j) < Index(w, n, 0)
  {
    assert (n - 1 - r) * w >= 0;
    assert n * w == r * w + w + (n - 1 - r) * w;
  }

  // Even rows are probed from left to right, odd ones from right to left.
  function Column(g: Grid, r: nat, j: int): (c: int)
    ensures 0 <= j < g.xCount ==> 0 <= c < g.xCount
  {
    if r % 2 == 0 then j else g.xCount - 1 - j
  }

  function Row(g: Grid, r: nat): (row: seq<Point>)
    ensures |row| == g.xCount
  {
    seq(g.xCount, j requires 0 <= j < g.xCount => GridPoint(g, Column(g, r, j), r))
  }

  function Rows(g: Grid, n: nat): (points: seq<Point>)
    ensures |points| == Index(g.xCount, n, 0)
  {
    if n == 0 then [] else
      IndexStep(g.xCount, n - 1, 0);
      Rows(g, n - 1) + Row(g, n - 1)
  }

  function BasePoints(g: Grid): seq<Point> {
    Rows(g, g.yCount)
  }

  lemma {:induction false} RowsAt(g: Grid, n: nat, r: nat, j: nat)
    requires r < n && j < g.xCount
    ensures Index(g.xCount, r, j) < |Rows(g, n)|
    ensures Rows(g, n)[Index(g.xCount, r, j)] == GridPoint(g, Column(g, r, j), r)
  {
    IndexIn(g.xCount, r, j, n);
    if r < n - 1 {
      RowsAt(g, n - 1, r, j);
    } else {
      assert Index(g.xCount, r, j) == Index(g.xCount, r, 0) + j;
    }
  }

  // Every grid point is probed, at the zig-zag index of its row and column.
  lemma GridPointProbed(g: Grid, c: nat, r: nat)
    requires c < g.xCount && r < g.yCount
    ensures Index(g.xCount, r, Column(g, r, c)) < |BasePoints(g)|
    ensures BasePoints(g)[Index(g.xCount, r, Column(g, r, c))] == GridPoint(g, c, r)
  {
    RowsAt(g, g.yCount, r, Column(g, r, c));
  }

  // ---------- telling rows apart ----------

  // Whether rows r - 1 and r are not taken for one: a relative tolerance decides.
  predicate Apart(g: Grid, r: nat) {
    g.yDist > 0.000000001 * Max(Abs(Tick(g.minY, g.yDist, r)), Abs(Tick(g.minY, g.yDist, r - 1)))
  }

  predicate AllApart(g: Grid, n: nat) {
    forall r :: 1 <= r < n ==> Apart(g, r)
  }

  lemma NextTick(min: real, dist: real, k: int)
    ensures Tick(min, dist, k) == Tick(min, dist, k - 1) + dist
  {
  }

  // Whatever absolute tolerance up to .1 is used, rows are told apart alike.
  lemma RowsClose(g: Grid, r: nat, absTol: real)
    requires ValidGrid(g) && 0.0 <= absTol <= 0.1
    ensures IsClose(Tick(g.minY, g.yDist, r), Tick(g.minY, g.yDist, r - 1), 0.000000001, absTol) <==> !Apart(g, r)
  {
    hide Tick;
    NextTick(g.minY, g.yDist, r);
  }

  lemma SameClose(y: real, absTol: real)
    requires absTol >= 0.0
    ensures IsClose(y, y, 0.000000001, absTol)
  {
    var a := Max(Abs(y), Abs(y));
    assert 0.000000001 * a >= 0.0;
  }

  // ---------- substitutes ----------

  // An ordered dictionary: its keys in the order of insertion, and their points.
  datatype Substitutes = Substitutes(keys: seq<nat>, at: map<nat, seq<Point>>)

  ghost predicate Increasing(keys: seq<nat>) {
    forall j, k :: 0 <= j < k < |keys| ==> keys[j] < keys[k]
  }

  ghost predicate ValidSubstitutes(s: Substitutes, n: nat) {
    && Increasing(s.keys)
    && (forall i: nat :: i in s.at <==> i in s.keys)
    && (forall i: nat :: i in s.at ==> i < n && 1 <= |s.at[i]| <= 4)
  }

  // What is probed for a base point.
  function Block(points: seq<Point>, s: Substitutes, i: nat): seq<Point>
    requires i < |points|
  {
    if i in s.at then s.at[i] else [points[i]]
  }

  function StdPath(points: seq<Point>, s: Substitutes, n: nat): seq<Point>
    requires n <= |points|
  {
    if n == 0 then [] else StdPath(points, s, n - 1) + Block(points, s, n - 1)
  }

  datatype Region = Region(min: Point, max: Point)

  predicate InRegion(p: Point, r: Region, tol: real) {
    && r.max.x + tol >= p.x >= r.min.x - tol
    && r.max.y + tol >= p.y >= r.min.y - tol
  }

  function FirstRegion(regions: seq<Region>, p: Point): Option<Region> {
    if regions == [] then None
    else if InRegion(p, regions[0], 0.00001) then Some(regions[0])
    else FirstRegion(regions[1..], p)
  }

  // Whether the row of a base point is passed from right to left, by the changes of y so far.
  function Reversed(points: seq<Point>, i: nat): bool
    requires i < |points|
  {
    i > 0 && (Reversed(points, i - 1) != !IsClose(points[i].y, points[i - 1].y, 0.000000001, 0.0))
  }

  // The points beside, below, above and beside a point, on the edges of its region, in the
  // direction of travel.
  function Beside(p: Point, r: Region, reversed: bool): seq<Point> {
    var left, right := Point(r.min.x, p.y), Point(r.max.x, p.y);
    [if reversed then right else left, Point(p.x, r.min.y), Point(p.x, r.max.y), if reversed then left else right]
  }

  function Inside(points: seq<Point>, bed: Region): (kept: seq<Point>)
    ensures |kept| <= |points|
    ensures forall p :: p in kept <==> p in points && InRegion(p, bed, 0.000001)
  {
    if points == [] then []
    else
      var n := |points| - 1;
      Inside(points[..n], bed) + if InRegion(points[n], bed, 0.000001) then [points[n]] else []
  }

  // The substitutes a base point is given; None outside every faulty region.
  function Wanted(points: seq<Point>, regions: seq<Region>, bed: Region, i: nat): Option<seq<Point>>
    requires i < |points|
  {
    var r := FirstRegion(regions, points[i]);
    if r.None? then None else Some(Inside(Beside(points[i], r.value, Reversed(points, i)), bed))
  }

  // The substitutes are those of the four points beside, below and above the base point on the
  // edges of its region that are inside the bed, each as often as it occurs among the four.
  lemma SubstitutesAreEdges(points: seq<Point>, regions: seq<Region>, bed: Region, i: nat, p: Point) returns (k: nat)
    requires i < |points| && Wanted(points, regions, bed, i).Some?
    ensures IsFirstRegion(regions, points[i], k)
    ensures var base, r := points[i], regions[k];
            multiset(Wanted(points, regions, bed, i).value)[p] ==
            if Reachable(bed, p)
            then multiset{Point(r.min.x, base.y), Point(base.x, r.min.y), Point(base.x, r.max.y), Point(r.max.x, base.y)}[p]
            else 0
  {
    hide InRegion, IsFirstRegion;
    k := FirstRegionHolds(regions, points[i]);
    InsideCounts(Beside(points[i], regions[k], Reversed(points, i)), bed, p);
    ReachableIff(bed, p);
  }

  predicate Reachable(bed: Region, p: Point) {
    bed.min.x - 0.000001 <= p.x <= bed.max.x + 0.000001 && bed.min.y - 0.000001 <= p.y <= bed.max.y + 0.000001
  }

  lemma ReachableIff(bed: Region, p: Point)
    ensures Reachable(bed, p) <==> InRegion(p, bed, 0.000001)
  {
  }

  // Region k holds the point, with a margin, and none before it does.
  ghost predicate IsFirstRegion(regions: seq<Region>, p: Point, k: nat) {
    && k < |regions|
    && regions[k].min.x <= p.x + 0.00001 && p.x <= regions[k].max.x + 0.00001
    && regions[k].min.y <= p.y + 0.00001 && p.y <= regions[k].max.y + 0.00001
    && forall j :: 0 <= j < k ==> !InRegion(p, regions[j], 0.00001)
  }

  lemma {:induction false} InsideCounts(points: seq<Point>, bed: Region, p: Point)
    ensures multiset(Inside(points, bed))[p] == if InRegion(p, bed, 0.000001) then multiset(points)[p] else 0
  {
    hide InRegion, Inside;
    InsideStep(points, bed);
    if points != [] {
      var n := |points| - 1;
      InsideCounts(points[..n], bed, p);
      assert points == points[..n] + [points[n]];
    }
  }

  // Of two points that are kept the one that was first stays first.
  lemma {:induction false} InsideOrder(points: seq<Point>, bed: Region, i: nat, j: nat) returns (k: nat, l: nat)
    requires i < j < |Inside(points, bed)|
    ensures k < l < |points| && points[k] == Inside(points, bed)[i] && points[l] == Inside(points, bed)[j]
  {
    hide InRegion, Inside;
    InsideStep(points, bed);
    var n := |points| - 1;
    var kept := Inside(points[..n], bed);
    if j < |kept| {
      k, l := InsideOrder(points[..n], bed, i, j);
    } else {
      assert kept[i] in points[..n];
      k :| 0 <= k < n && points[k] == kept[i];
      l := n;
    }
  }

  // The point below comes before the one above.
  lemma LowerEdgeFirst(points: seq<Point>, regions: seq<Region>, bed: Region, i: nat, j: nat, k: nat)
    requires i < |points| && Wanted(points, regions, bed, i).Some? && j < k < |Wanted(points, regions, bed, i).value|
    ensures FirstRegion(regions, points[i]).Some?
    ensures var v, r := Wanted(points, regions, bed, i).value, FirstRegion(regions, points[i]).value;
            r.min.y < points[i].y < r.max.y ==> !(v[j].y == r.max.y && v[k].y == r.min.y)
  {
    hide InRegion, Inside;
    var r := FirstRegion(regions, points[i]).value;
    var m, n := InsideOrder(Beside(points[i], r, Reversed(points, i)), bed, j, k);
  }

  // Later points are not behind earlier ones in the direction of travel, up to the tolerance
  // with which regions are tested.
  ghost predicate Follows(points: seq<Point>, reversed: bool) {
    forall i, j :: 0 <= i < j < |points| ==>
      if reversed then points[j].x <= points[i].x + 0.00001 else points[i].x <= points[j].x + 0.00001
  }

  lemma {:induction false} InsideFollows(points: seq<Point>, bed: Region, reversed: bool)
    requires Follows(points, reversed)
    ensures Follows(Inside(points, bed), reversed)
  {
    hide InRegion, Inside;
    InsideStep(points, bed);
    if points != [] {
      var n := |points| - 1;
      var kept := Inside(points[..n], bed);
      InsideFollows(points[..n], bed, reversed);
      forall i | 0 <= i < |kept|
        ensures if reversed then points[n].x <= kept[i].x + 0.00001 else kept[i].x <= points[n].x + 0.00001
      {
        assert kept[i] in points[..n];
        var k :| 0 <= k < n && points[k] == kept[i];
      }
    }
  }

  lemma InsideStep(points: seq<Point>, bed: Region)
    ensures Inside(points, bed) ==
            if points == [] then []
            else Inside(points[..|points| - 1], bed) +
                 if InRegion(points[|points| - 1], bed, 0.000001) then [points[|points| - 1]] else []
  {
  }

  // The substitutes of a point are passed in the direction its row is travelled.
  lemma SubstitutesFollowTravel(points: seq<Point>, regions: seq<Region>, bed: Region, i: nat)
    requires i < |points| && Wanted(points, regions, bed, i).Some?
    requires forall r :: r in regions ==> r.min.x <= r.max.x
    ensures Follows(Wanted(points, regions, bed, i).value, Reversed(points, i))
  {
    var k := FirstRegionHolds(regions, points[i]);
    var r := regions[k];
    assert r.min.x <= r.max.x;
    InsideFollows(Beside(points[i], r, Reversed(points, i)), bed, Reversed(points, i));
  }

  lemma {:induction false} FirstRegionHolds(regions: seq<Region>, p: Point) returns (k: nat)
    ensures var r := FirstRegion(regions, p);
            if r.Some? then IsFirstRegion(regions, p, k) && r.value == regions[k]
            else forall j :: 0 <= j < |regions| ==> !InRegion(p, regions[j], 0.00001)
  {
    if regions == [] || InRegion(p, regions[0], 0.00001) {
      k := 0;
    } else {
      k := FirstRegionHolds(regions[1..], p);
      k := k + 1;
    }
  }

  // On a grid whose rows are told apart, the odd rows are the reversed ones.
  lemma {:induction false} OddRowsReversed(g: Grid, r: nat, j: nat)
    requires ValidGrid(g) && r < g.yCount && j < g.xCount && AllApart(g, g.yCount)
    ensures Index(g.xCount, r, j) < |BasePoints(g)|
    ensures Reversed(BasePoints(g), Index(g.xCount, r, j)) <==> r % 2 == 1
    decreases r, j
  {
    hide Rows, Tick, Apart, IsClose;
    RowsAt(g, g.yCount, r, j);
    if j > 0 {
      OddRowsReversed(g, r, j - 1);
      IndexStep(g.xCount, r, j - 1);
      RowsAt(g, g.yCount, r, j - 1);
      SameClose(Tick(g.minY, g.yDist, r), 0.0);
    } else if r > 0 {
      var w := g.xCount;
      OddRowsReversed(g, r - 1, w - 1);
      IndexStep(w, r - 1, w - 1);
      RowsAt(g, g.yCount, r - 1, w - 1);
      RowsClose(g, r, 0.0);
    }
  }

  // ---------- the rapid path ----------

  datatype Step = Step(pt: Point, sample: bool)

  // The points of a path at which samples are taken.
  function Samples(path: seq<Step>): seq<Point> {
    if path == [] then []
    else Samples(path[..|path| - 1]) + Sampled(path[|path| - 1])
  }

  function Sampled(s: Step): seq<Point> {
    if s.sample then [s.pt] else []
  }

  lemma SamplesPush(path: seq<Step>, s: Step)
    ensures Samples(path + [s]) == Samples(path) + Sampled(s)
  {
    assert (path + [s])[..|path|] == path;
  }

  lemma SamplesNone()
    ensures Samples([]) == []
  {
  }

  lemma {:induction false} SamplesAppend(a: seq<Step>, b: seq<Step>)
    ensures Samples(a + b) == Samples(a) + Samples(b)
  {
    hide Sampled, Samples;
    if b == [] {
      assert a + b == a;
      SamplesNone();
    } else {
      var c, last := b[..|b| - 1], b[|b| - 1];
      SamplesAppend(a, c);
      assert b == c + [last] && a + b == (a + c) + [last];
      SamplesPush(a + c, last);
      SamplesPush(c, last);
    }
  }

  function Travel(points: seq<Point>): (path: seq<Step>)
    ensures |path| == |points|
  {
    seq(|points|, i requires 0 <= i < |points| => Step(points[i], false))
  }

  lemma {:induction false} NoSamples(path: seq<Step>)
    requires forall i :: 0 <= i < |path| ==> !path[i].sample
    ensures Samples(path) == []
  {
    if path != [] {
      NoSamples(path[..|path| - 1]);
    }
  }

  predicate DirChange(points: seq<Point>, i: nat)
    requires i < |points|
  {
    i > 0 && !IsClose(points[i].y, points[i - 1].y, 0.000000001, 0.000001)
  }

  // What a rapid scan samples for a base point: where the direction changes, the last of
  // four substitutes is left out.
  function RapidBlock(points: seq<Point>, s: Substitutes, i: nat): seq<Point>
    requires i < |points|
  {
    if Loses(points, s, i) then s.at[i][..3] else Block(points, s, i)
  }

  predicate Loses(points: seq<Point>, s: Substitutes, i: nat)
    requires i < |points|
  {
    i in s.at && |s.at[i]| == 4 && DirChange(points, i)
  }

  function RapidPath(points: seq<Point>, s: Substitutes, n: nat): seq<Point>
    requires n <= |points|
  {
    if n == 0 then [] else RapidPath(points, s, n - 1) + RapidBlock(points, s, n - 1)
  }

  // A rapid scan samples exactly the standard path unless a point where the direction changes
  // has four substitutes.
  lemma {:induction false} RapidMatchesStdIff(points: seq<Point>, s: Substitutes, n: nat)
    requires n <= |points|
    ensures |RapidPath(points, s, n)| <= |StdPath(points, s, n)|
    ensures RapidPath(points, s, n) == StdPath(points, s, n) <==> forall i :: 0 <= i < n ==> !Loses(points, s, i)
    ensures |RapidPath(points, s, n)| == |StdPath(points, s, n)| ==> RapidPath(points, s, n) == StdPath(points, s, n)
  {
    if n > 0 {
      RapidMatchesStdIff(points, s, n - 1);
      assert Loses(points, s, n - 1) ==> |RapidBlock(points, s, n - 1)| < |Block(points, s, n - 1)|;
    }
  }

  // On a grid the direction changes at the first point of each row but the first.
  lemma GridDirChange(g: Grid, r: nat, j: nat)
    requires ValidGrid(g) && r < g.yCount && j < g.xCount && AllApart(g, g.yCount)
    ensures Index(g.xCount, r, j) < |BasePoints(g)|
    ensures DirChange(BasePoints(g), Index(g.xCount, r, j)) <==> j == 0 && r > 0
  {
    hide Rows, Tick, Apart, IsClose;
    RowsAt(g, g.yCount, r, j);
    if j > 0 {
      IndexStep(g.xCount, r, j - 1);
      RowsAt(g, g.yCount, r, j - 1);
      SameClose(Tick(g.minY, g.yDist, r), 0.000001);
    } else if r > 0 {
      var w := g.xCount;
      IndexStep(w, r - 1, w - 1);
      RowsAt(g, g.yCount, r - 1, w - 1);
      RowsClose(g, r, 0.000001);
    }
  }

  // ---------- the manager ----------

  datatype ZrefMode = Disabled | InMesh | Probe

  datatype Outcome = Generated | TooClose | ReferenceInRegion | NoCoordinates(index: nat)

  // Distances are floored to the next hundredth.
  function Floored(dist: real): real {
    (dist * 100.0).Floor as real / 100.0
  }

  function GridOf(xCount: nat, yCount: nat, meshMin: Point, meshMax: Point): Grid
    requires xCount >= 2 && yCount >= 2
  {
    Grid(meshMin.x, meshMin.y, Floored((meshMax.x - meshMin.x) / (xCount - 1) as real),
         Floored((meshMax.y - meshMin.y) / (yCount - 1) as real), xCount, yCount)
  }

  // A whole number of hundredths, less than one of them below.
  lemma FlooredBounds(dist: real) returns (n: int)
    ensures Floored(dist) * 100.0 == n as real
    ensures Floored(dist) <= dist < Floored(dist) + 0.01
  {
    var hundredths := dist * 100.0;
    n := hundredths.Floor;
  }

  // No point of the grid leaves the configured bounds, and its last column and row miss them
  // by less than a hundredth for each step.
  lemma GridInsideMesh(xCount: nat, yCount: nat, meshMin: Point, meshMax: Point, c: nat, r: nat)
    requires xCount >= 3 && yCount >= 3 && ValidGrid(GridOf(xCount, yCount, meshMin, meshMax)) && c < xCount && r < yCount
    ensures var g := GridOf(xCount, yCount, meshMin, meshMax);
            && meshMin.x <= GridPoint(g, c, r).x <= meshMax.x && meshMin.y <= GridPoint(g, c, r).y <= meshMax.y
            && meshMax.x - MaxX(g) < 0.01 * (xCount - 1) as real
            && meshMax.y - Tick(g.minY, g.yDist, yCount - 1) < 0.01 * (yCount - 1) as real
  {
    hide Floored;
    TicksInside(meshMin.x, meshMax.x, xCount - 1, c);
    TicksInside(meshMin.y, meshMax.y, yCount - 1, r);
  }

  lemma TicksInside(min: real, max: real, steps: nat, k: nat)
    requires steps > 0 && k <= steps && Floored((max - min) / steps as real) >= 1.0
    ensures var dist := Floored((max - min) / steps as real);
            min <= Tick(min, dist, k) <= max && max - Tick(min, dist, steps) < 0.01 * steps as real
  {
    var exact := (max - min) / steps as real;
    var dist := Floored(exact);
    var n := FlooredBounds(exact);
    assert exact * steps as real == max - min;
    ProductSign(k as real, dist);
    ProductSign((steps - k) as real, dist);
    ProductSign(steps as real, exact - dist);
    ProductSign(steps as real, dist + 0.01 - exact);
    assert (steps - k) as real * dist == steps as real * dist - k as real * dist;
    assert steps as real * (exact - dist) == (max - min) - steps as real * dist;
    assert steps as real * (dist + 0.01 - exact) == steps as real * dist + 0.01 * steps as real - (max - min);
  }

  // How far a rapid scan may overshoot: as configured, and by what the mesh leaves free of
  // the configured one on both sides.
  function OvershootOf(configured: real, origMinX: real, origMaxX: real, g: Grid): real {
    configured + Min(Max(0.0, g.minX - origMinX), Max(0.0, origMaxX - MaxX(g))).Floor as real
  }

  // What is added is the largest whole number of millimetres that the configured mesh leaves
  // free on both sides, if any.
  lemma OvershootIs(configured: real, origMinX: real, origMaxX: real, g: Grid) returns (n: nat)
    ensures OvershootOf(configured, origMinX, origMaxX, g) == configured + n as real
    ensures n > 0 ==> origMinX <= g.minX - n as real && MaxX(g) + n as real <= origMaxX
    ensures g.minX - (n + 1) as real < origMinX || MaxX(g) + (n + 1) as real > origMaxX
  {
    hide MaxX;
    n := Min(Max(0.0, g.minX - origMinX), Max(0.0, origMaxX - MaxX(g))).Floor;
  }

  // The bounds substitutes must lie in: only the largest x follows the floored distance.
  function BedOf(g: Grid, meshMax: Point): Region {
    Region(Point(g.minX, g.minY), Point(MaxX(g), meshMax.y))
  }

  // The substitutes of the first n base points.
  ghost predicate SubstitutesAre(s: Substitutes, points: seq<Point>, regions: seq<Region>, bed: Region, n: nat)
    requires n <= |points|
  {
    && ValidSubstitutes(s, n)
    && forall i :: 0 <= i < n ==> if i in s.at then Wanted(points, regions, bed, i) == Some(s.at[i])
                                  else Wanted(points, regions, bed, i) == None
  }

  class ProbeManager {
    const cfgOvershoot: real
    const faultyRegions: seq<Region>
    const zeroRefPos: Option<Point>
    const origMinX: real
    const origMaxX: real
    var zrefMode: ZrefMode
    var basePoints: seq<Point>
    var substitutes: Substitutes
    var overshoot: real

    ghost predicate Valid()
      reads this
    {
      ValidSubstitutes(substitutes, |basePoints|) && (zrefMode.Probe? ==> zeroRefPos.Some?)
    }

    ghost function Reference(): seq<Point>
      requires Valid()
      reads this
    {
      if zrefMode.Probe? then [zeroRefPos.value] else []
    }

    constructor (cfgOvershoot: real, faultyRegions: seq<Region>, zeroRefPos: Option<Point>, origMinX: real, origMaxX: real)
      ensures Valid() && basePoints == [] && substitutes == Substitutes([], map[])
      ensures this.faultyRegions == faultyRegions && this.zeroRefPos == zeroRefPos && overshoot == cfgOvershoot
    {
      this.cfgOvershoot, this.faultyRegions, this.zeroRefPos := cfgOvershoot, faultyRegions, zeroRefPos;
      this.origMinX, this.origMaxX := origMinX, origMaxX;
      zrefMode, basePoints, substitutes, overshoot := Disabled, [], Substitutes([], map[]), cfgOvershoot;
    }

    method GeneratePoints(xCount: nat, yCount: nat, meshMin: Point, meshMax: Point, manual: bool) returns (r: Outcome)
      requires Valid() && xCount >= 3 && yCount >= 3
      modifies this
      ensures Valid()
      ensures var g := GridOf(xCount, yCount, meshMin, meshMax);
              && (r.TooClose? <==> g.xDist < 1.0 || g.yDist < 1.0)
              && (r.TooClose? ==> basePoints == old(basePoints) && substitutes == old(substitutes) && zrefMode == old(zrefMode))
              && (!r.TooClose? ==>
                    && ValidGrid(g) && basePoints == BasePoints(g)
                    && overshoot == OvershootOf(cfgOvershoot, origMinX, origMaxX, g)
                    && zrefMode == (if zeroRefPos.None? || manual then Disabled
                                    else if InRegion(zeroRefPos.value, Region(meshMin, meshMax), 0.0) then InMesh else Probe)
                    && (r.Generated? ==> SubstitutesAre(substitutes, basePoints, faultyRegions, BedOf(g, meshMax), |basePoints|))
                    && (r.NoCoordinates? ==>
                          r.index < |basePoints| && Wanted(basePoints, faultyRegions, BedOf(g, meshMax), r.index) == Some([])))
    {
      hide Rows, Wanted;
      var xDist := (meshMax.x - meshMin.x) / (xCount - 1) as real;
      var yDist := (meshMax.y - meshMin.y) / (yCount - 1) as real;
      xDist, yDist := Floored(xDist), Floored(yDist);
      if xDist < 1.0 || yDist < 1.0 {
        return TooClose;
      }
      ghost var g := GridOf(xCount, yCount, meshMin, meshMax);
      var maxX := meshMin.x + xDist * (xCount - 1) as real;
      var posY := meshMin.y;
      var points := [];
      NoRows(g);
      for i := 0 to yCount
        invariant points == Rows(g, i) && posY == Tick(g.minY, yDist, i)
      {
        for j := 0 to xCount
          invariant points == Rows(g, i) + Row(g, i)[..j]
        {
          var posX;
          if i % 2 == 0 {
            posX := meshMin.x + j as real * xDist;
          } else {
            posX := maxX - j as real * xDist;
          }
          Backwards(g.minX, xDist, xCount, j, maxX);
          assert Point(posX, posY) == Row(g, i)[j];
          points := points + [Point(posX, posY)];
          assert Row(g, i)[..j + 1] == Row(g, i)[..j] + [Row(g, i)[j]];
        }
        assert Row(g, i)[..xCount] == Row(g, i);
        NextRow(g, i);
        NextTick(g.minY, yDist, i + 1);
        posY := posY + yDist;
      }
      if zeroRefPos.None? || manual {
        zrefMode := Disabled;
      } else if InRegion(zeroRefPos.value, Region(meshMin, meshMax), 0.0) {
        zrefMode := InMesh;
      } else {
        zrefMode := Probe;
      }
      basePoints := points;
      substitutes := Substitutes([], map[]);
      var addOvs := Min(Max(0.0, meshMin.x - origMinX), Max(0.0, origMaxX - maxX));
      overshoot := cfgOvershoot + addOvs.Floor as real;
      Backwards(g.minX, xDist, xCount, 0, maxX);
      r := ProcessFaultyRegions(Region(meshMin, Point(maxX, meshMax.y)));
    }

    // Fails for the first point without a reachable substitute; until then every point in a
    // faulty region gets its substitutes, and no other does.
    method ProcessFaultyRegions(bed: Region) returns (r: Outcome)
      requires basePoints != [] && substitutes == Substitutes([], map[]) && (zrefMode.Probe? ==> zeroRefPos.Some?)
      modifies this`substitutes
      ensures Valid()
      ensures r.ReferenceInRegion? <==>
                zrefMode.Probe? && exists k :: 0 <= k < |faultyRegions| && InRegion(zeroRefPos.value, faultyRegions[k], 0.0)
      ensures r.Generated? ==> SubstitutesAre(substitutes, basePoints, faultyRegions, bed, |basePoints|)
      ensures r.NoCoordinates? ==>
                && r.index < |basePoints| && Wanted(basePoints, faultyRegions, bed, r.index) == Some([])
                && SubstitutesAre(substitutes, basePoints, faultyRegions, bed, r.index)
      ensures !r.TooClose?
    {
      hide InRegion, IsClose, Wanted, SubstitutesAre;
      Nothing(basePoints, faultyRegions, bed);
      if faultyRegions == [] {
        return Generated;
      }
      if zrefMode.Probe? {
        for k := 0 to |faultyRegions|
          invariant forall j :: 0 <= j < k ==> !InRegion(zeroRefPos.value, faultyRegions[j], 0.0)
        {
          if InRegion(zeroRefPos.value, faultyRegions[k], 0.0) {
            return ReferenceInRegion;
          }
        }
      }
      var lastY := basePoints[0].y;
      var isReversed := false;
      for i := 0 to |basePoints|
        invariant SubstitutesAre(substitutes, basePoints, faultyRegions, bed, i)
        invariant i > 0 ==> lastY == basePoints[i - 1].y && isReversed == Reversed(basePoints, i - 1)
        invariant i == 0 ==> lastY == basePoints[0].y && !isReversed
      {
        var coord := basePoints[i];
        SameClose(coord.y, 0.0);
        if !IsClose(coord.y, lastY, 0.000000001, 0.0) {
          isReversed := !isReversed;
        }
        lastY := coord.y;
        assert isReversed == Reversed(basePoints, i);
        var adjCoords := FindAdjacent(coord, isReversed);
        if adjCoords != [] {
          var validCoords := KeepInside(adjCoords, bed);
          IsWanted(basePoints, faultyRegions, bed, i, adjCoords);
          if validCoords == [] {
            StillValid(substitutes, basePoints, faultyRegions, bed, i);
            return NoCoordinates(i);
          }
          AddSubstitute(substitutes, basePoints, faultyRegions, bed, i, validCoords);
          substitutes := Substitutes(substitutes.keys + [i], substitutes.at[i := validCoords]);
        } else {
          NotWanted(substitutes, basePoints, faultyRegions, bed, i);
        }
      }
      StillValid(substitutes, basePoints, faultyRegions, bed, |basePoints|);
      r := Generated;
    }

    // The points beside a point on the edges of the first region holding it, if any.
    method FindAdjacent(coord: Point, isReversed: bool) returns (adjCoords: seq<Point>)
      ensures var region := FirstRegion(faultyRegions, coord);
              adjCoords == if region.None? then [] else Beside(coord, region.value, isReversed)
    {
      adjCoords := [];
      for k := 0 to |faultyRegions|
        invariant FirstRegion(faultyRegions, coord) == FirstRegion(faultyRegions[k..], coord)
      {
        var region := faultyRegions[k];
        if InRegion(coord, region, 0.00001) {
          adjCoords := [Point(region.min.x, coord.y), Point(coord.x, region.min.y),
                        Point(coord.x, region.max.y), Point(region.max.x, coord.y)];
          if isReversed {
            var first := adjCoords[0];
            adjCoords := adjCoords[0 := adjCoords[|adjCoords| - 1]];
            adjCoords := adjCoords[|adjCoords| - 1 := first];
          }
          return;
        }
        assert faultyRegions[k..][1..] == faultyRegions[k + 1..];
      }
    }

    method KeepInside(coords: seq<Point>, bed: Region) returns (validCoords: seq<Point>)
      ensures validCoords == Inside(coords, bed)
    {
      validCoords := [];
      for m := 0 to |coords|
        invariant validCoords == Inside(coords[..m], bed)
      {
        assert coords[..m + 1][..m] == coords[..m];
        if InRegion(coords[m], bed, 0.000001) {
          validCoords := validCoords + [coords[m]];
        }
      }
      assert coords[..|coords|] == coords;
    }

    method GetStdPath() returns (path: seq<Point>)
      requires Valid()
      ensures path == StdPath(basePoints, substitutes, |basePoints|) + Reference()
    {
      path := [];
      for idx := 0 to |basePoints|
        invariant path == StdPath(basePoints, substitutes, idx)
      {
        if idx in substitutes.at {
          ghost var before := path;
          for m := 0 to |substitutes.at[idx]|
            invariant path == before + substitutes.at[idx][..m]
          {
            path := path + [substitutes.at[idx][m]];
          }
          assert substitutes.at[idx][..|substitutes.at[idx]|] == substitutes.at[idx];
        } else {
          path := path + [basePoints[idx]];
        }
      }
      if zrefMode.Probe? {
        path := path + [zeroRefPos.value];
      }
    }

    // The points of a turn between rows; arcs gives them when there is room to overshoot.
    function DirChangePath(arcs: (Point, Point, bool) -> seq<Point>, last: Point, next: Point, ascndX: bool): (path: seq<Step>)
      reads this`overshoot
      ensures Samples(path) == []
      ensures |path| == (if overshoot == 0.0 then 0 else |arcs(last, next, ascndX)|)
      ensures forall i :: 0 <= i < |path| ==> path[i].pt == arcs(last, next, ascndX)[i]
    {
      var path := if overshoot == 0.0 then [] else Travel(arcs(last, next, ascndX));
      NoSamples(path);
      path
    }

    // Samples every substitute of a base point, except that the last of four is left out
    // where the direction changes.
    method GenFaultyPath(arcs: (Point, Point, bool) -> seq<Point>, last: Point, idx: nat, ascndX: bool, dirChange: bool)
      returns (path: seq<Step>)
      requires Valid() && idx in substitutes.at && dirChange == DirChange(basePoints, idx)
      ensures Samples(path) == RapidBlock(basePoints, substitutes, idx) && path != []
    {
      hide DirChange, Samples;
      var subs := substitutes.at[idx];
      var subCnt := |subs|;
      path := [];
      SamplesNone();
      if dirChange {
        path := DirChangePath(arcs, last, subs[0], ascndX);
      }
      var firstCorner := subCnt == 2 && idx < |substitutes.keys| && substitutes.keys[idx] == idx;
      path := Take(path, subs[0]);
      assert Samples(path) == [subs[0]];
      if subCnt == 1 {
        return;
      }
      var lastPt, nextPt := subs[0], subs[1];
      if subCnt == 2 {
        if firstCorner || dirChange {
          path := Pass(path, Point(nextPt.x, lastPt.y));
        } else {
          path := Pass(path, Point(lastPt.x, nextPt.y));
        }
        path := Take(path, nextPt);
      } else {
        if dirChange {
          if overshoot != 0.0 {
            var turn := DirChangePath(arcs, lastPt, nextPt, ascndX);
            SamplesAppend(path, turn);
            path := path + turn;
          } else {
            var shift := if ascndX then -2.0 else 2.0;
            path := Pass(path, Point(lastPt.x + shift, lastPt.y));
            path := Pass(path, Point(lastPt.x + shift, nextPt.y));
          }
          path := Take(path, nextPt);
          lastPt, nextPt := subs[1], subs[2];
        } else {
          path := Pass(path, Point(lastPt.x, nextPt.y));
          path := Take(path, nextPt);
          lastPt, nextPt := subs[1], subs[2];
          if subCnt == 4 {
            var shift := if ascndX then 2.0 else -2.0;
            path := Pass(path, Point(lastPt.x + shift, lastPt.y));
            path := Pass(path, Point(nextPt.x - shift, nextPt.y));
            path := Take(path, nextPt);
            lastPt, nextPt := subs[2], subs[3];
          }
        }
        path := Pass(path, Point(nextPt.x, lastPt.y));
        path := Take(path, nextPt);
      }
    }

    // The path of a rapid scan: its samples are the rapid path and the reference, if probed.
    method IterRapidPath(arcs: (Point, Point, bool) -> seq<Point>) returns (path: seq<Step>)
      requires Valid() && basePoints != []
      ensures Samples(path) == RapidPath(basePoints, substitutes, |basePoints|) + Reference()
    {
      hide Samples, IsClose, ValidSubstitutes, RapidPath, RapidBlock;
      var ascndX := true;
      var lastBasePt, lastMvPt := basePoints[0], basePoints[0];
      path := [];
      SamplesNone();
      if overshoot != 0.0 {
        var shift := Min(8.0, overshoot);
        lastMvPt := Point(lastBasePt.x - shift, lastBasePt.y);
        path := Pass(path, lastMvPt);
      }
      NoPath(basePoints, substitutes);
      for idx := 0 to |basePoints|
        invariant Samples(path) == RapidPath(basePoints, substitutes, idx)
        invariant lastBasePt == basePoints[if idx == 0 then 0 else idx - 1]
      {
        var pt := basePoints[idx];
        var dirChange := !IsClose(pt.y, lastBasePt.y, 0.000000001, 0.000001);
        SameClose(pt.y, 0.000001);
        if idx in substitutes.at {
          var faulty := GenFaultyPath(arcs, lastMvPt, idx, ascndX, dirChange);
          SamplesAppend(path, faulty);
          path := path + faulty;
          lastMvPt := faulty[|faulty| - 1].pt;
        } else {
          if dirChange {
            var turn := DirChangePath(arcs, lastMvPt, pt, ascndX);
            SamplesAppend(path, turn);
            path := path + turn;
          }
          path := Take(path, pt);
          lastMvPt := pt;
        }
        NextBlock(basePoints, substitutes, idx);
        lastBasePt := pt;
        ascndX := ascndX != dirChange;
      }
      if zrefMode.Probe? {
        if overshoot != 0.0 {
          var shift := Min(4.0, overshoot);
          shift := if ascndX then shift else -shift;
          path := Pass(path, Point(lastMvPt.x + shift, lastMvPt.y));
        }
        path := Take(path, zeroRefPos.value);
      }
    }
  }

  function Take(path: seq<Step>, pt: Point): (r: seq<Step>)
    ensures Samples(r) == Samples(path) + [pt] && r != []
  {
    SamplesPush(path, Step(pt, true));
    path + [Step(pt, true)]
  }

  function Pass(path: seq<Step>, pt: Point): (r: seq<Step>)
    ensures Samples(r) == Samples(path)
  {
    SamplesPush(path, Step(pt, false));
    path + [Step(pt, false)]
  }

  lemma NoPath(points: seq<Point>, s: Substitutes)
    ensures RapidPath(points, s, 0) == []
  {
  }

  lemma NextBlock(points: seq<Point>, s: Substitutes, i: nat)
    requires i < |points|
    ensures RapidPath(points, s, i + 1) == RapidPath(points, s, i) + RapidBlock(points, s, i)
    ensures i !in s.at ==> RapidBlock(points, s, i) == [points[i]]
  {
  }

  lemma NoRows(g: Grid)
    ensures Rows(g, 0) == []
  {
  }

  lemma NextRow(g: Grid, r: nat)
    ensures Rows(g, r + 1) == Rows(g, r) + Row(g, r)
  {
  }

  lemma Backwards(min: real, dist: real, count: nat, j: nat, max: real)
    requires max == min + dist * (count - 1) as real
    ensures max == Tick(min, dist, count - 1)
    ensures max - j as real * dist == Tick(min, dist, count - 1 - j)
  {
    assert (count - 1 - j) as real == (count - 1) as real - j as real;
  }

  lemma Nothing(points: seq<Point>, regions: seq<Region>, bed: Region)
    ensures SubstitutesAre(Substitutes([], map[]), points, regions, bed, 0)
    ensures regions == [] ==> SubstitutesAre(Substitutes([], map[]), points, regions, bed, |points|)
  {
  }

  lemma IsWanted(points: seq<Point>, regions: seq<Region>, bed: Region, i: nat, adjacent: seq<Point>)
    requires i < |points| && adjacent != []
    requires var region := FirstRegion(regions, points[i]);
             adjacent == if region.None? then [] else Beside(points[i], region.value, Reversed(points, i))
    ensures Wanted(points, regions, bed, i) == Some(Inside(adjacent, bed)) && |adjacent| == 4
  {
  }

  lemma AddSubstitute(s: Substitutes, points: seq<Point>, regions: seq<Region>, bed: Region, i: nat, pts: seq<Point>)
    requires i < |points| && SubstitutesAre(s, points, regions, bed, i)
    requires Wanted(points, regions, bed, i) == Some(pts) && 1 <= |pts| <= 4
    ensures SubstitutesAre(Substitutes(s.keys + [i], s.at[i := pts]), points, regions, bed, i + 1)
  {
    hide Wanted;
    KeyAdded(s, i, pts);
  }

  lemma KeyAdded(s: Substitutes, i: nat, pts: seq<Point>)
    requires ValidSubstitutes(s, i) && 1 <= |pts| <= 4
    ensures ValidSubstitutes(Substitutes(s.keys + [i], s.at[i := pts]), i + 1)
  {
    var keys := s.keys + [i];
    forall j, k | 0 <= j < k < |keys| ensures keys[j] < keys[k] {
      assert keys[j] in s.keys;
    }
    forall k: nat ensures k in s.at[i := pts] <==> k in keys {
      assert k in keys <==> k in s.keys || k == i;
    }
  }

  lemma NotWanted(s: Substitutes, points: seq<Point>, regions: seq<Region>, bed: Region, i: nat)
    requires i < |points| && SubstitutesAre(s, points, regions, bed, i) && FirstRegion(regions, points[i]).None?
    ensures SubstitutesAre(s, points, regions, bed, i + 1)
  {
    hide FirstRegion;
  }

  lemma StillValid(s: Substitutes, points: seq<Point>, regions: seq<Region>, bed: Region, n: nat)
    requires n <= |points| && SubstitutesAre(s, points, regions, bed, n)
    ensures ValidSubstitutes(s, |points|)
  {
  }
}
