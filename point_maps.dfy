/** The point maps of constructContour.py: translate_points and
    scale_points. */
module PointMaps {
  import opened RealMath
  import opened Geometry

  /** translate_points: point i shifted by trans. */
  function Translated(points: seq<Point>, trans: Point): (r: seq<Point>)
    ensures |r| == |points|
    ensures forall i :: 0 <= i < |points| ==> r[i] == Point(points[i].x + trans.x, points[i].y + trans.y)
  {
    seq(|points|, i requires 0 <= i < |points| => Point(points[i].x + trans.x, points[i].y + trans.y))
  }

  method TranslatePoints(points: seq<Point>, trans: Point) returns (newPoints: seq<Point>)
    ensures newPoints == Translated(points, trans)
  {
    newPoints := [];
    var i := 0;
    while i < |points|
      invariant 0 <= i <= |points|
      invariant newPoints == Translated(points[..i], trans)
    {
      newPoints := newPoints + [Point(points[i].x + trans.x, points[i].y + trans.y)];
      i := i + 1;
    }
    assert points[..i] == points;
  }

  /** One point as scale_points scales it: componentwise by scale, each
      coordinate rounded to an integer when doRound is set. */
  function ScaledPoint(p: Vec, scale: Vec, doRound: bool): Vec
  {
    if doRound then Vec(Round(p.x * scale.x) as real, Round(p.y * scale.y) as real)
    else Vec(p.x * scale.x, p.y * scale.y)
  }

  /** scale_points: every point scaled, in order. */
  function Scaled(points: seq<Vec>, scale: Vec, doRound: bool): (r: seq<Vec>)
    ensures |r| == |points|
    ensures forall i :: 0 <= i < |points| ==> r[i] == ScaledPoint(points[i], scale, doRound)
  {
    seq(|points|, i requires 0 <= i < |points| => ScaledPoint(points[i], scale, doRound))
  }

  method ScalePoints(points: seq<Vec>, scale: Vec, doRound: bool) returns (newPoints: seq<Vec>)
    ensures newPoints == Scaled(points, scale, doRound)
  {
    newPoints := [];
    var i := 0;
    while i < |points|
      invariant 0 <= i <= |points|
      invariant |newPoints| == i
      invariant forall j :: 0 <= j < i ==> newPoints[j] == ScaledPoint(points[j], scale, doRound)
    {
      var scaled := ScaleOne(points[i], scale, doRound);
      newPoints := newPoints + [scaled];
      i := i + 1;
    }
  }

  /** The body of the loop of scale_points for one point. */
  method ScaleOne(point: Vec, scale: Vec, doRound: bool) returns (scaled: Vec)
    ensures scaled == ScaledPoint(point, scale, doRound)
  {
    if doRound {
      scaled := Vec(Round(point.x * scale.x) as real, Round(point.y * scale.y) as real);
    } else {
      scaled := Vec(point.x * scale.x, point.y * scale.y);
    }
  }
}
