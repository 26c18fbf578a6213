/** Building a contour by casting rays from an expected center
    (constructContour.py): each ray samples the grid at half-pixel steps,
    keeps the pixels that are above a tolerance, and orders them from the
    highest value down; the contour takes the best pixel of every ray. */
module ConstructContour {
  import opened Common
  import opened RealMath
  import opened Geometry

  /** A sampled grid value and where it was found. */
  datatype Pixel = Pixel(value: real, pixel: Point)

  /** Largest number of samples a ray takes. */
  const SafetyLimit: nat := 1000

  /** Parameter step between two samples of a ray. */
  const Dt: real := 0.5

  predicate InGrid(grid: array2<real>, p: Point)
  {
    0 <= p.x < grid.Length0 && 0 <= p.y < grid.Length1
  }

  /** The point at parameter t of the ray from start along direction * dir. */
  function RayPoint(start: Vec, dir: Vec, t: real, direction: real): Vec
  {
    Vec(start.x + t * direction * dir.x, start.y + t * direction * dir.y)
  }

  /** The pixel examined at parameter t: that point, rounded. */
  function Sample(start: Vec, dir: Vec, t: real, direction: real): Point
  {
    var p := RayPoint(start, dir, t, direction);
    Point(Round(p.x), Round(p.y))
  }

  /** Sample k of the ray in direction 1, at t = k * dt. */
  function SampleAt(start: Vec, dir: Vec, k: nat): Point
  {
    Sample(start, dir, k as real * Dt, 1.0)
  }

  /** The state of a ray: the last pixel examined, whether the ray has
      left the grid, and the pixels kept so far, in visit order. */
  datatype Ray = Ray(pix: Point, done: bool, found: seq<Pixel>)

  /** One sample at pixel p. A pixel equal to the last one examined is
      skipped; a pixel outside the grid ends the ray; a pixel inside it is
      kept when its value exceeds tol. */
  function Visit(grid: array2<real>, tol: real, s: Ray, p: Point): Ray
    reads grid
  {
    if s.pix == p then s
    else if InGrid(grid, p) then
      Ray(p, s.done, if grid[p.x, p.y] > tol then s.found + [Pixel(grid[p.x, p.y], p)] else s.found)
    else Ray(p, true, s.found)
  }

  /** The ray continued from state s at sample k until it leaves the grid
      or has taken SafetyLimit samples. */
  function Scan(grid: array2<real>, start: Vec, dir: Vec, tol: real, s: Ray, k: nat): Ray
    reads grid
    decreases SafetyLimit - k
  {
    if s.done || k >= SafetyLimit then s
    else Scan(grid, start, dir, tol, Visit(grid, tol, s, SampleAt(start, dir, k)), k + 1)
  }

  /** The ray as find_radial_edge casts it: the last-pixel tracker starts
      at (0, 0), and the samples count from 0. */
  const Origin := Point(0, 0)

  function RayFound(grid: array2<real>, start: Vec, dir: Vec, tol: real): seq<Pixel>
    reads grid
  {
    Scan(grid, start, dir, tol, Ray(Origin, false, []), 0).found
  }

  // ---------------------------------------------------------------------
  // Python's sorted(..., key=value, reverse=True): a stable sort from the
  // highest value down.

  /** x placed before the first element whose value is not above its own. */
  function InsertByValue(x: Pixel, s: seq<Pixel>): seq<Pixel>
  {
    if |s| == 0 then [x]
    else if s[0].value <= x.value then [x] + s
    else [s[0]] + InsertByValue(x, s[1..])
  }

  function SortByValue(s: seq<Pixel>): seq<Pixel>
  {
    if |s| == 0 then [] else InsertByValue(s[0], SortByValue(s[1..]))
  }

  ghost predicate NonIncreasing(s: seq<Pixel>)
  {
    forall i, j :: 0 <= i < j < |s| ==> s[i].value >= s[j].value
  }

  /** The elements of value v, in their order. */
  function WithValue(s: seq<Pixel>, v: real): seq<Pixel>
  {
    if |s| == 0 then []
    else (if s[0].value == v then [s[0]] else []) + WithValue(s[1..], v)
  }

  lemma {:induction false} InsertByValueMultiset(x: Pixel, s: seq<Pixel>)
    ensures multiset(InsertByValue(x, s)) == multiset(s) + multiset{x}
  {
    if |s| > 0 && s[0].value > x.value {
      InsertByValueMultiset(x, s[1..]);
      assert s == [s[0]] + s[1..];
    }
  }

  lemma {:induction false} InsertByValueSorted(x: Pixel, s: seq<Pixel>)
    requires NonIncreasing(s)
    ensures NonIncreasing(InsertByValue(x, s))
  {
    if |s| > 0 {
      if s[0].value <= x.value {
        assert forall j :: 0 <= j < |s| ==> s[0].value >= s[j].value;
      } else {
        var rest := InsertByValue(x, s[1..]);
        InsertByValueSorted(x, s[1..]);
        InsertByValueMultiset(x, s[1..]);
        forall j | 0 <= j < |rest| ensures s[0].value >= rest[j].value {
          assert rest[j] in multiset(s[1..]) + multiset{x};
          if rest[j] != x {
            assert rest[j] in s[1..];
          }
        }
      }
    }
  }

  lemma {:induction false} InsertByValueWithValue(x: Pixel, s: seq<Pixel>, v: real)
    requires NonIncreasing(s)
    ensures WithValue(InsertByValue(x, s), v) == (if x.value == v then [x] else []) + WithValue(s, v)
  {
    if |s| > 0 && s[0].value > x.value {
      var rest := InsertByValue(x, s[1..]);
      InsertByValueWithValue(x, s[1..], v);
      assert ([s[0]] + rest)[1..] == rest;
      assert WithValue(InsertByValue(x, s), v) == (if s[0].value == v then [s[0]] else []) + WithValue(rest, v);
      assert WithValue(s, v) == (if s[0].value == v then [s[0]] else []) + WithValue(s[1..], v);
      assert x.value == v ==> s[0].value != v;
    } else if |s| > 0 {
      assert ([x] + s)[1..] == s;
    }
  }

  /** The sort orders by value from the highest down, is a permutation, and
      is stable: the elements of any one value keep their order. */
  lemma {:induction false} SortByValueSpec(s: seq<Pixel>)
    ensures NonIncreasing(SortByValue(s))
    ensures multiset(SortByValue(s)) == multiset(s)
    ensures forall v :: WithValue(SortByValue(s), v) == WithValue(s, v)
  {
    if |s| > 0 {
      var rest := SortByValue(s[1..]);
      SortByValueSpec(s[1..]);
      InsertByValueSorted(s[0], rest);
      InsertByValueMultiset(s[0], rest);
      assert s == [s[0]] + s[1..];
      forall v ensures WithValue(SortByValue(s), v) == WithValue(s, v) {
        InsertByValueWithValue(s[0], rest, v);
      }
    }
  }

  /** What find_radial_edge returns, with the values: the kept pixels of
      the ray from the highest value down. */
  function RadialEdge(grid: array2<real>, start: Vec, dir: Vec, tol: real): seq<Pixel>
    reads grid
  {
    SortByValue(RayFound(grid, start, dir, tol))
  }

  function Positions(s: seq<Pixel>): (r: seq<Point>)
    ensures |r| == |s|
    ensures forall i :: 0 <= i < |s| ==> r[i] == s[i].pixel
  {
    seq(|s|, i requires 0 <= i < |s| => s[i].pixel)
  }

  // ---------------------------------------------------------------------
  // Properties of a ray

  /** The pixel examined just before sample k: the tracker's start (0, 0)
      for the first sample, and sample k - 1 after it. */
  function PrevSample(start: Vec, dir: Vec, k: nat): Point
  {
    if k == 0 then Origin else SampleAt(start, dir, k - 1)
  }

  /** A pixel the ray keeps: a sample taken before the safety limit that
      differs from the pixel examined before it, inside the grid, whose
      value exceeds tol. */
  ghost predicate Kept(grid: array2<real>, start: Vec, dir: Vec, tol: real, e: Pixel)
    reads grid
  {
    InGrid(grid, e.pixel) && e.value == grid[e.pixel.x, e.pixel.y] && e.value > tol
    && exists j :: 0 <= j < SafetyLimit && e.pixel == SampleAt(start, dir, j)
                   && e.pixel != PrevSample(start, dir, j)
  }

  lemma {:induction false} ScanSpec(grid: array2<real>, start: Vec, dir: Vec, tol: real, s: Ray, k: nat)
    requires k <= SafetyLimit && |s.found| <= k
    requires s.pix == PrevSample(start, dir, k)
    requires forall e :: e in s.found ==> Kept(grid, start, dir, tol, e)
    ensures |Scan(grid, start, dir, tol, s, k).found| <= SafetyLimit
    ensures forall e :: e in Scan(grid, start, dir, tol, s, k).found ==> Kept(grid, start, dir, tol, e)
    decreases SafetyLimit - k
  {
    if !s.done && k < SafetyLimit {
      var p := SampleAt(start, dir, k);
      var next := Visit(grid, tol, s, p);
      forall e | e in next.found ensures Kept(grid, start, dir, tol, e) {
        if e !in s.found {
          assert e == Pixel(grid[p.x, p.y], p);
          assert p != PrevSample(start, dir, k);
        }
      }
      assert next.pix == PrevSample(start, dir, k + 1);
      ScanSpec(grid, start, dir, tol, next, k + 1);
    }
  }

  /** find_radial_edge returns at most SafetyLimit pixels, each inside the
      grid with a value above tol, each one of the samples start + t * dir
      for t = 0, 0.5, 1, ... that differs from the pixel examined before
      it, ordered from the highest value down; pixels of
      equal value keep the order in which the ray met them. */
  lemma RadialEdgeSpec(grid: array2<real>, start: Vec, dir: Vec, tol: real)
    ensures |RadialEdge(grid, start, dir, tol)| <= SafetyLimit
    ensures forall e :: e in RadialEdge(grid, start, dir, tol) ==> Kept(grid, start, dir, tol, e)
    ensures NonIncreasing(RadialEdge(grid, start, dir, tol))
    ensures multiset(RadialEdge(grid, start, dir, tol)) == multiset(RayFound(grid, start, dir, tol))
    ensures forall v :: WithValue(RadialEdge(grid, start, dir, tol), v) == WithValue(RayFound(grid, start, dir, tol), v)
  {
    var found := RayFound(grid, start, dir, tol);
    ScanSpec(grid, start, dir, tol, Ray(Origin, false, []), 0);
    SortByValueSpec(found);
    assert |multiset(RadialEdge(grid, start, dir, tol))| == |found|;
    forall e | e in RadialEdge(grid, start, dir, tol) ensures Kept(grid, start, dir, tol, e) {
      assert e in multiset(found);
    }
  }

  /** The result is non-empty only when some sample inside the grid
      exceeds tol. */
  lemma SomethingAboveTol(grid: array2<real>, start: Vec, dir: Vec, tol: real)
    ensures RadialEdge(grid, start, dir, tol) != [] ==>
      exists j :: 0 <= j < SafetyLimit && InGrid(grid, SampleAt(start, dir, j))
        && grid[SampleAt(start, dir, j).x, SampleAt(start, dir, j).y] > tol
  {
    RadialEdgeSpec(grid, start, dir, tol);
    if RadialEdge(grid, start, dir, tol) != [] {
      var e := RadialEdge(grid, start, dir, tol)[0];
      assert Kept(grid, start, dir, tol, e);
    }
  }

  /** The last-pixel tracker starts at (0, 0): when the start point rounds
      to (0, 0), the first sample is skipped as if already examined. */
  lemma OriginStartSkipped(grid: array2<real>, start: Vec, dir: Vec, tol: real)
    requires SampleAt(start, dir, 0) == Origin
    ensures RayFound(grid, start, dir, tol) == Scan(grid, start, dir, tol, Ray(Origin, false, []), 1).found
  {
    assert Visit(grid, tol, Ray(Origin, false, []), SampleAt(start, dir, 0)) == Ray(Origin, false, []);
  }

  // ---------------------------------------------------------------------
  // The program's loops

  /** find_radial_edge: the ray cast (CastRay), then the kept pixels from
      the highest value down. */
  method FindRadialEdge(grid: array2<real>, start: Vec, dir: Vec, tol: real)
    returns (bestFits: seq<Point>)
    ensures bestFits == Positions(RadialEdge(grid, start, dir, tol))
  {
    bestFits := [];
    var vectorList, _ := CastRay(grid, start, dir, tol);
    if |vectorList| > 0 {
      var sortedList := SortByValue(vectorList);
      var i := 0;
      while i < |sortedList|
        invariant 0 <= i <= |sortedList|
        invariant bestFits == Positions(sortedList[..i])
      {
        bestFits := bestFits + [sortedList[i].pixel];
        i := i + 1;
      }
      assert sortedList[..i] == sortedList;
    }
  }

  /** The sampling loops of find_radial_edge over the two directions 1
      and -1. They share the `done` flag and the sample count, so the second
      direction never takes a sample: the pixels kept are those of the
      first direction (firstDirection, as its loop leaves them). */
  method CastRay(grid: array2<real>, start: Vec, dir: Vec, tol: real)
    returns (vectorList: seq<Pixel>, ghost firstDirection: seq<Pixel>)
    ensures vectorList == RayFound(grid, start, dir, tol)
    ensures vectorList == firstDirection
  {
    ghost var final := Scan(grid, start, dir, tol, Ray(Origin, false, []), 0);
    vectorList := [];
    var pixX, pixY := 0, 0;
    var done := false;
    var safetyCount := 0;
    firstDirection := [];
    for d := 0 to 2
      invariant safetyCount <= SafetyLimit
      invariant d == 0 ==> safetyCount == 0
      invariant d > 0 ==> done || safetyCount >= SafetyLimit
      invariant Scan(grid, start, dir, tol, Ray(Point(pixX, pixY), done, vectorList), safetyCount) == final
      invariant d > 0 ==> vectorList == firstDirection
    {
      var direction := if d == 0 then 1.0 else -1.0;
      var t := 0.0;
      while !done && safetyCount < SafetyLimit
        invariant safetyCount <= SafetyLimit
        invariant d == 0 ==> t == safetyCount as real * Dt
        invariant d > 0 ==> done || safetyCount >= SafetyLimit
        invariant Scan(grid, start, dir, tol, Ray(Point(pixX, pixY), done, vectorList), safetyCount) == final
        invariant d > 0 ==> vectorList == firstDirection
      {
        var p := RayPoint(start, dir, t, direction);
        ghost var before := Ray(Point(pixX, pixY), done, vectorList);
        assert Sample(start, dir, t, direction) == SampleAt(start, dir, safetyCount);
        ScanStep(grid, start, dir, tol, before, safetyCount);
        pixX, pixY, done, vectorList := Examine(grid, tol, pixX, pixY, done, vectorList, p.x, p.y);
        safetyCount := safetyCount + 1;
        t := t + Dt;
      }
      if d == 0 {
        firstDirection := vectorList;
      }
    }
  }

  lemma ScanStep(grid: array2<real>, start: Vec, dir: Vec, tol: real, s: Ray, k: nat)
    requires !s.done && k < SafetyLimit
    ensures Scan(grid, start, dir, tol, s, k) == Scan(grid, start, dir, tol, Visit(grid, tol, s, SampleAt(start, dir, k)), k + 1)
  {
  }

  /** The body of the sampling loop for the point (x, y). */
  method Examine(grid: array2<real>, tol: real, pixX: int, pixY: int, done: bool, vectorList: seq<Pixel>, x: real, y: real)
    returns (pixX': int, pixY': int, done': bool, vectorList': seq<Pixel>)
    ensures Ray(Point(pixX', pixY'), done', vectorList') ==
      Visit(grid, tol, Ray(Point(pixX, pixY), done, vectorList), Point(Round(x), Round(y)))
  {
    pixX', pixY', done', vectorList' := pixX, pixY, done, vectorList;
    if pixX != Round(x) || pixY != Round(y) {
      pixX' := Round(x);
      pixY' := Round(y);
      if 0 <= pixX' < grid.Length0 && 0 <= pixY' < grid.Length1 {
        var pixelValue := grid[pixX', pixY'];
        if pixelValue > tol {
          vectorList' := vectorList + [Pixel(pixelValue, Point(pixX', pixY'))];
        }
      } else {
        done' := true;
      }
    }
  }

  // ---------------------------------------------------------------------
  // detect_circle_edge_points

  /** How far the mask is shifted along one axis of size `size` for a
      center at coordinate c: by size - 2c when c lies in the first half,
      else not at all. */
  function Displacement(size: nat, c: real): nat
  {
    if c < size as real / 2.0 then (size as real - 2.0 * c).Floor else 0
  }

  /** The first pixel of every non-empty ray, in ray order. */
  function Heads(rays: seq<seq<Point>>): seq<Point>
  {
    if |rays| == 0 then []
    else Heads(rays[..|rays| - 1]) + (if |rays[|rays| - 1]| > 0 then [rays[|rays| - 1][0]] else [])
  }

  /** At most one contour point per ray, exactly one per ray when no ray is
      empty, and each the first pixel of some ray. */
  lemma {:induction false} HeadsSpec(rays: seq<seq<Point>>)
    ensures |Heads(rays)| <= |rays|
    ensures (forall i :: 0 <= i < |rays| ==> |rays[i]| > 0) ==> |Heads(rays)| == |rays|
    ensures forall p :: p in Heads(rays) ==> exists i :: 0 <= i < |rays| && |rays[i]| > 0 && p == rays[i][0]
  {
    if |rays| > 0 {
      var front := rays[..|rays| - 1];
      HeadsSpec(front);
      forall p | p in Heads(rays)
        ensures exists i :: 0 <= i < |rays| && |rays[i]| > 0 && p == rays[i][0]
      {
        if p in Heads(front) {
          var i :| 0 <= i < |front| && |front[i]| > 0 && p == front[i][0];
          assert rays[i] == front[i];
        }
      }
    }
  }

  /** detect_circle_edge_points with the mask created from the expected
      circle and the ray directions (cos, sin of 2 pi i / n) as inputs. The
      grid is multiplied by the shifted mask in place, and the rays are cast
      on the masked grid. */
  method DetectCircleEdgePoints(grid: array2<real>, center: Vec, dirs: seq<Vec>, radialTol: real, mask: array2<real>)
    returns (points: seq<Point>, directions: seq<seq<Point>>)
    requires mask != grid
    requires grid.Length0 + Displacement(grid.Length0, center.x) <= mask.Length0
    requires grid.Length1 + Displacement(grid.Length1, center.y) <= mask.Length1
    modifies grid
    ensures forall i, j :: 0 <= i < grid.Length0 && 0 <= j < grid.Length1 ==>
      grid[i, j] == old(grid[i, j]) * mask[i + Displacement(grid.Length0, center.x), j + Displacement(grid.Length1, center.y)]
    ensures |directions| == |dirs|
    ensures forall i :: 0 <= i < |dirs| ==> directions[i] == Positions(RadialEdge(grid, center, dirs[i], radialTol))
    ensures points == Heads(directions)
  {
    var d0 := Displacement(grid.Length0, center.x);
    var d1 := Displacement(grid.Length1, center.y);
    ApplyMask(grid, mask, d0, d1);
    points, directions := FindEdges(grid, center, dirs, radialTol);
  }

  /** The loop of detect_circle_edge_points over the ray directions on the
      masked grid: the fits of every direction, and the first fit of each
      direction that has one. */
  method FindEdges(grid: array2<real>, center: Vec, dirs: seq<Vec>, radialTol: real)
    returns (points: seq<Point>, directions: seq<seq<Point>>)
    ensures |directions| == |dirs|
    ensures forall i :: 0 <= i < |dirs| ==> directions[i] == Positions(RadialEdge(grid, center, dirs[i], radialTol))
    ensures points == Heads(directions)
  {
    points := [];
    directions := [];
    var i := 0;
    while i < |dirs|
      invariant 0 <= i <= |dirs|
      invariant |directions| == i
      invariant forall k :: 0 <= k < i ==> directions[k] == Positions(RadialEdge(grid, center, dirs[k], radialTol))
      invariant points == Heads(directions)
    {
      var bestFits := FindRadialEdge(grid, center, dirs[i], radialTol);
      directions := directions + [bestFits];
      assert directions[..|directions| - 1] == directions[..i];
      if |bestFits| > 0 {
        points := points + [bestFits[0]];
      }
      i := i + 1;
    }
  }

  /** The nested loop of detect_circle_edge_points writing grid[i, j] *
      mask[i + d0, j + d1] into every cell of the grid. */
  method ApplyMask(grid: array2<real>, mask: array2<real>, d0: nat, d1: nat)
    requires mask != grid
    requires grid.Length0 + d0 <= mask.Length0 && grid.Length1 + d1 <= mask.Length1
    modifies grid
    ensures forall i, j :: 0 <= i < grid.Length0 && 0 <= j < grid.Length1 ==>
      grid[i, j] == old(grid[i, j]) * mask[i + d0, j + d1]
  {
    var i := 0;
    while i < grid.Length0
      invariant 0 <= i <= grid.Length0
      invariant forall a, b :: 0 <= a < i && 0 <= b < grid.Length1 ==> grid[a, b] == old(grid[a, b]) * mask[a + d0, b + d1]
      invariant forall a, b :: i <= a < grid.Length0 && 0 <= b < grid.Length1 ==> grid[a, b] == old(grid[a, b])
    {
      var j := 0;
      while j < grid.Length1
        invariant 0 <= j <= grid.Length1
        invariant forall a, b :: 0 <= a < i && 0 <= b < grid.Length1 ==> grid[a, b] == old(grid[a, b]) * mask[a + d0, b + d1]
        invariant forall b :: 0 <= b < j ==> grid[i, b] == old(grid[i, b]) * mask[i + d0, b + d1]
        invariant forall a, b :: i <= a < grid.Length0 && 0 <= b < grid.Length1 && (a > i || b >= j) ==> grid[a, b] == old(grid[a, b])
      {
        grid[i, j] := grid[i, j] * mask[i + d0, j + d1];
        j := j + 1;
      }
      i := i + 1;
    }
  }
}
