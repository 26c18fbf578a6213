/** Shape descriptors of a closed polygonal contour, and the Particle that
    stores them (analyseContour.py).

    Each descriptor is given twice: a specification function over the
    contour (built on a running sum over the first k points, `...UpTo`),
    and the program's accumulator loop as a method proved equal to it. The
    point before the first one of a contour is its last one. */
module Descriptors {
  import opened Common
  import opened RealMath
  import opened Geometry
  import opened Statistics

  /** The ordered pixel points of a closed polygon. */
  type Contour = seq<Point>

  /** Euclidean distance; zero exactly when the points coincide. */
  function LineLength(a: Vec, b: Vec): (r: real)
    ensures 0.0 <= r
    ensures r == 0.0 <==> a == b
  {
    var dx := b.x - a.x;
    var dy := b.y - a.y;
    assert a != b ==> 0.0 < Sq(dx) + Sq(dy) by {
      if dx != 0.0 {
        SqPositive(dx);
      } else if dy != 0.0 {
        SqPositive(dy);
      }
    }
    Sqrt(Sq(dx) + Sq(dy))
  }

  /** Area of a triangle by the shoelace formula; zero when two of its
      vertices coincide. */
  function TriangleArea(a: Vec, b: Vec, c: Vec): (r: real)
    ensures 0.0 <= r
    ensures a == b || b == c || c == a ==> r == 0.0
  {
    Abs(a.x * (b.y - c.y) + b.x * (c.y - a.y) + c.x * (a.y - b.y)) / 2.0
  }

  function Prev(c: Contour, i: nat): Point
    requires i < |c|
  {
    c[PrevIndex(|c|, i)]
  }

  // ---------------------------------------------------------------------
  // Specification functions

  /** Length of the edge that ends at point i. */
  function Edge(c: Contour, i: nat): real
    requires i < |c|
  {
    LineLength(ToVec(c[i]), ToVec(Prev(c, i)))
  }

  function PerimeterUpTo(c: Contour, k: nat): (r: real)
    requires k <= |c|
    ensures 0.0 <= r
  {
    if k == 0 then 0.0 else PerimeterUpTo(c, k - 1) + Edge(c, k - 1)
  }

  function Perimeter(c: Contour): (r: real)
    ensures 0.0 <= r
  {
    if |c| > 0 then PerimeterUpTo(c, |c|) else 0.0
  }

  /** First moment of the edge from q to p: its length times its midpoint. */
  function EdgeMoment(q: Vec, p: Vec): Vec
  {
    var l := LineLength(q, p);
    Vec(l * (p.x + q.x) / 2.0, l * (p.y + q.y) / 2.0)
  }

  /** First moment of the edge that ends at point i. */
  function MomentTerm(c: Contour, i: nat): Vec
    requires i < |c|
  {
    EdgeMoment(ToVec(Prev(c, i)), ToVec(c[i]))
  }

  function MomentUpTo(c: Contour, k: nat): Vec
    requires k <= |c|
  {
    if k == 0 then Vec(0.0, 0.0)
    else
      var m := MomentUpTo(c, k - 1);
      var t := MomentTerm(c, k - 1);
      Vec(m.x + t.x, m.y + t.y)
  }

  /** The center of mass of the contour's edges, or the origin when the
      contour is empty or has zero perimeter. */
  function Center(c: Contour): Vec
  {
    if |c| > 0 then
      var p := Perimeter(c);
      if p != 0.0 then
        var m := MomentUpTo(c, |c|);
        Vec(m.x / p, m.y / p)
      else Vec(0.0, 0.0)
    else Vec(0.0, 0.0)
  }

  /** Area of the triangle spanned by the edge ending at point i and the
      center. */
  function Triangle(c: Contour, i: nat, center: Vec): real
    requires i < |c|
  {
    TriangleArea(ToVec(c[i]), ToVec(Prev(c, i)), center)
  }

  function AreaUpTo(c: Contour, k: nat, center: Vec): (r: real)
    requires k <= |c|
    ensures 0.0 <= r
  {
    if k == 0 then 0.0 else AreaUpTo(c, k - 1, center) + Triangle(c, k - 1, center)
  }

  function Area(c: Contour): (r: real)
    ensures 0.0 <= r
  {
    if |c| > 0 then AreaUpTo(c, |c|, Center(c)) else 0.0
  }

  /** Twice the area over the perimeter, divided by cos(pi / n) for a
      contour of n points; zero for an empty contour or a zero perimeter. */
  function Radius(c: Contour): (r: real)
    ensures 0.0 <= r
  {
    if |c| > 0 then
      var p := Perimeter(c);
      var a := Area(c);
      if p != 0.0 then
        OnePointContourPerimeter(c);
        CosOfPiOver(|c|);
        DivNonNegative(2.0 * a, p);
        DivNonNegative(2.0 * a / p, Cos(Pi / |c| as real));
        (2.0 * a / p) / Cos(Pi / |c| as real)
      else 0.0
    else 0.0
  }

  /** 4 pi A / P^2; zero for an empty contour or a zero perimeter. */
  function Circularity(c: Contour): (r: real)
    ensures 0.0 <= r
  {
    if |c| > 0 then
      var p := Perimeter(c);
      var a := Area(c);
      if p != 0.0 then
        SqPositive(p);
        MulNonNegative(4.0 * Pi, a);
        DivNonNegative(4.0 * Pi * a, Sq(p));
        4.0 * Pi * a / Sq(p)
      else 0.0
    else 0.0
  }

  /** Distances of the contour's points to `center`, in contour order. */
  function Radii(c: Contour, center: Vec): (s: seq<real>)
    ensures |s| == |c|
    ensures forall i :: 0 <= i < |c| ==> s[i] == LineLength(ToVec(c[i]), center)
  {
    seq(|c|, i requires 0 <= i < |c| => LineLength(ToVec(c[i]), center))
  }

  /** Mean distance of the points to the center; zero for an empty contour. */
  function RadialAverage(c: Contour): (r: real)
    ensures 0.0 <= r
  {
    var s := Radii(c, Center(c));
    MeanNonNegative(s);
    Mean(s)
  }

  function RadialVariance(c: Contour): (r: real)
    ensures 0.0 <= r
  {
    Variance(Radii(c, Center(c)))
  }

  function RadialSd(c: Contour): (r: real)
    ensures 0.0 <= r
    ensures r == 0.0 <==> RadialVariance(c) == 0.0
  {
    Sqrt(RadialVariance(c))
  }

  /** Mean squared change of the distance to the center between each point
      and the point before it. */
  function RadialDifferenceVariance(c: Contour): (r: real)
    ensures 0.0 <= r
  {
    StepVariance(Radii(c, Center(c)))
  }

  function RadialDifferenceSd(c: Contour): (r: real)
    ensures 0.0 <= r
    ensures r == 0.0 <==> RadialDifferenceVariance(c) == 0.0
  {
    Sqrt(RadialDifferenceVariance(c))
  }

  // ---------------------------------------------------------------------
  // Properties

  lemma OnePointContourPerimeter(c: Contour)
    ensures |c| == 1 ==> Perimeter(c) == 0.0
  {
    if |c| == 1 {
      assert Edge(c, 0) == LineLength(ToVec(c[0]), ToVec(c[0]));
      assert Perimeter(c) == PerimeterUpTo(c, 0) + Edge(c, 0);
    }
  }

  /** Every descriptor of an empty contour is zero, and its center is the
      origin. */
  lemma EmptyContourDescriptors(c: Contour)
    requires |c| == 0
    ensures Center(c) == Vec(0.0, 0.0)
    ensures Perimeter(c) == 0.0 && Area(c) == 0.0
    ensures Radius(c) == 0.0 && Circularity(c) == 0.0
    ensures RadialAverage(c) == 0.0 && RadialVariance(c) == 0.0
    ensures RadialDifferenceVariance(c) == 0.0
  {
  }

  /** A one-point contour has a single edge of length zero, so it falls in
      the zero-perimeter case of every descriptor: its center is the origin
      and its area, radius and circularity are zero. */
  lemma OnePointContourDescriptors(c: Contour)
    requires |c| == 1
    ensures Perimeter(c) == 0.0 && Center(c) == Vec(0.0, 0.0)
    ensures Area(c) == 0.0 && Radius(c) == 0.0 && Circularity(c) == 0.0
  {
    OnePointContourPerimeter(c);
    var v := ToVec(c[0]);
    assert Triangle(c, 0, Center(c)) == TriangleArea(v, v, Center(c));
    assert Area(c) == AreaUpTo(c, 0, Center(c)) + Triangle(c, 0, Center(c));
  }

  /** The fact get_outliers relies on when it is given a contour's own
      radial statistics: the radial distances spread exactly when
      consecutive distances differ somewhere, so when the deviation it
      divides by first is not zero, the difference deviation it divides by
      next is not zero either, and the contour is not empty. */
  lemma SpreadIffSteps(c: Contour)
    ensures RadialSd(c) == 0.0 <==> RadialDifferenceSd(c) == 0.0
    ensures RadialSd(c) != 0.0 ==> 0 < |c|
  {
    Statistics.SpreadIffSteps(Radii(c, Center(c)));
  }

  // ---------------------------------------------------------------------
  // The program's accumulator loops

  method GetPerimeter(c: Contour) returns (perimeter: real)
    ensures perimeter == Perimeter(c)
  {
    if |c| > 0 {
      perimeter := 0.0;
      var prev := c[|c| - 1];
      var k := 0;
      while k < |c|
        invariant 0 <= k <= |c|
        invariant k < |c| ==> prev == Prev(c, k)
        invariant perimeter == PerimeterUpTo(c, k)
      {
        var point := c[k];
        perimeter := perimeter + LineLength(ToVec(point), ToVec(prev));
        prev := point;
        k := k + 1;
      }
    } else {
      perimeter := 0.0;
    }
  }

  method GetCenter(c: Contour) returns (center: Vec)
    ensures center == Center(c)
  {
    if |c| > 0 {
      var moment := Vec(0.0, 0.0);
      var p := GetPerimeter(c);
      var prev := c[|c| - 1];
      var k := 0;
      while k < |c|
        invariant 0 <= k <= |c|
        invariant k < |c| ==> prev == Prev(c, k)
        invariant moment == MomentUpTo(c, k)
      {
        var point := c[k];
        var term := EdgeMoment(ToVec(prev), ToVec(point));
        moment := moment.(x := moment.x + term.x);
        moment := moment.(y := moment.y + term.y);
        prev := point;
        k := k + 1;
      }
      if p != 0.0 {
        center := Vec(moment.x / p, moment.y / p);
      } else {
        center := Vec(0.0, 0.0);
      }
    } else {
      center := Vec(0.0, 0.0);
    }
  }

  method GetArea(c: Contour) returns (area: real)
    ensures area == Area(c)
  {
    if |c| > 0 {
      area := 0.0;
      var center := GetCenter(c);
      var prev := c[|c| - 1];
      var k := 0;
      while k < |c|
        invariant 0 <= k <= |c|
        invariant k < |c| ==> prev == Prev(c, k)
        invariant area == AreaUpTo(c, k, center)
      {
        var point := c[k];
        area := area + TriangleArea(ToVec(point), ToVec(prev), center);
        prev := point;
        k := k + 1;
      }
    } else {
      area := 0.0;
    }
  }

  method GetRadius(c: Contour) returns (r: real)
    ensures r == Radius(c)
  {
    if |c| > 0 {
      var perimeter := GetPerimeter(c);
      var area := GetArea(c);
      if perimeter != 0.0 {
        r := 2.0 * area / perimeter;
        CosOfPiOver(|c|);
        r := r / Cos(Pi / |c| as real);
      } else {
        r := 0.0;
      }
    } else {
      r := 0.0;
    }
  }

  method GetCircularity(c: Contour) returns (circ: real)
    ensures circ == Circularity(c)
  {
    if |c| > 0 {
      var perimeter := GetPerimeter(c);
      var area := GetArea(c);
      if perimeter != 0.0 {
        SqPositive(perimeter);
        circ := 4.0 * Pi * area / Sq(perimeter);
      } else {
        circ := 0.0;
      }
    } else {
      circ := 0.0;
    }
  }

  /** The program also counts the points (moment_0); the count is |c|,
      which is not zero on this branch, so the count's zero test is left
      out. */
  method GetRadialAverage(c: Contour) returns (r: real)
    ensures r == RadialAverage(c)
  {
    if |c| > 0 {
      var center := GetCenter(c);
      ghost var radii := Radii(c, center);
      var count := 0;
      var total := 0.0;
      var k := 0;
      while k < |c|
        invariant 0 <= k <= |c|
        invariant count == k
        invariant total == Sum(radii[..k])
      {
        var radius := LineLength(ToVec(c[k]), center);
        SumStep(radii, k);
        count := count + 1;
        total := total + radius;
        k := k + 1;
      }
      assert radii[..k] == radii;
      r := total / count as real;
    } else {
      r := 0.0;
    }
  }

  method GetRadialVariance(c: Contour) returns (variance: real)
    ensures variance == RadialVariance(c)
  {
    if |c| > 0 {
      var center := GetCenter(c);
      var average := GetRadialAverage(c);
      ghost var radii := Radii(c, center);
      var count := 0;
      var total := 0.0;
      var k := 0;
      while k < |c|
        invariant 0 <= k <= |c|
        invariant count == k
        invariant total == SqDevUpTo(radii, k, average)
      {
        var radius := LineLength(ToVec(c[k]), center);
        count := count + 1;
        total := total + Sq(radius - average);
        k := k + 1;
      }
      assert average == Mean(radii);
      variance := total / count as real;
    } else {
      variance := 0.0;
    }
  }

  method GetRadialDifferenceVariance(c: Contour) returns (variance: real)
    ensures variance == RadialDifferenceVariance(c)
  {
    if |c| > 0 {
      var center := GetCenter(c);
      ghost var radii := Radii(c, center);
      var prevRadius := LineLength(ToVec(c[|c| - 1]), center);
      var count := 0;
      var total := 0.0;
      var k := 0;
      while k < |c|
        invariant 0 <= k <= |c|
        invariant count == k
        invariant k < |c| ==> prevRadius == radii[PrevIndex(|c|, k)]
        invariant total == StepUpTo(radii, k)
      {
        var radius := LineLength(ToVec(c[k]), center);
        count := count + 1;
        total := total + Sq(radius - prevRadius);
        prevRadius := radius;
        k := k + 1;
      }
      variance := total / count as real;
    } else {
      variance := 0.0;
    }
  }

  // ---------------------------------------------------------------------
  // The particle

  /** A detected particle: its contour and the descriptors computed from it
      when it was built. The descriptors are never recomputed; only the
      contour is changed afterwards (by outlier removal). */
  class Particle {
    var contour: Contour
    const center: Vec
    const area: real
    const perimeter: real
    const radius: real
    const circularity: real
    const radialAverage: real
    const radialSd: real
    const radialSdConsecutive: real

    /** Every stored descriptor is the descriptor of the current contour. */
    ghost predicate DescriptorsMatch()
      reads this
    {
      center == Center(contour) && area == Area(contour)
      && perimeter == Perimeter(contour) && radius == Radius(contour)
      && circularity == Circularity(contour)
      && radialAverage == RadialAverage(contour)
      && radialSd == RadialSd(contour)
      && radialSdConsecutive == RadialDifferenceSd(contour)
    }

    constructor (contour: Contour)
      ensures this.contour == contour
      ensures DescriptorsMatch()
    {
      var c := GetCenter(contour);
      var a := GetArea(contour);
      var p := GetPerimeter(contour);
      var r := GetRadius(contour);
      var circ := GetCircularity(contour);
      var avg := GetRadialAverage(contour);
      var variance := GetRadialVariance(contour);
      var diffVariance := GetRadialDifferenceVariance(contour);
      this.contour := contour;
      center := c;
      area := a;
      perimeter := p;
      radius := r;
      circularity := circ;
      radialAverage := avg;
      radialSd := Sqrt(variance);
      radialSdConsecutive := Sqrt(diffVariance);
    }
  }
}
