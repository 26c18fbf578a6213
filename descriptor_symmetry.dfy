/** Two symmetries of the contour descriptors of analyseContour.py. The
    descriptors do not depend on which point a closed contour starts from
    (a cyclic rotation of its points), and moving every point by the same
    offset moves the center by that offset and leaves the other
    descriptors as they are. */
module DescriptorSymmetry {
  import opened Common
  import opened Geometry
  import opened RealMath
  import opened Statistics
  import opened Descriptors
  import opened PointMaps

  // ---------------------------------------------------------------------
  // Edge terms as sequences

  /** The contour read from point k on, wrapping round to its start. */
  function Rotated<T>(s: seq<T>, k: nat): (r: seq<T>)
    requires k <= |s|
    ensures |r| == |s|
  {
    s[k..] + s[..k]
  }

  /** The index in s of element i of Rotated(s, k). */
  function RotIndex(n: nat, k: nat, i: nat): (j: nat)
    requires k < n && i < n
    ensures j < n
  {
    if i + k < n then i + k else i + k - n
  }

  /** A term f(point, point before it) for every point of the contour. */
  function Terms(c: Contour, f: (Point, Point) -> real): (t: seq<real>)
    ensures |t| == |c|
    ensures forall i {:trigger t[i]} :: 0 <= i < |c| ==> t[i] == f(c[i], Prev(c, i))
  {
    seq(|c|, i requires 0 <= i < |c| => f(c[i], Prev(c, i)))
  }

  function EdgeOf(p: Point, q: Point): real
  {
    LineLength(ToVec(p), ToVec(q))
  }

  function MomentXOf(p: Point, q: Point): real
  {
    EdgeMoment(ToVec(q), ToVec(p)).x
  }

  function MomentYOf(p: Point, q: Point): real
  {
    EdgeMoment(ToVec(q), ToVec(p)).y
  }

  function TriangleAt(center: Vec): (Point, Point) -> real
  {
    (p: Point, q: Point) => TriangleArea(ToVec(p), ToVec(q), center)
  }

  lemma {:induction false} PerimeterAsSum(c: Contour, k: nat)
    requires k <= |c|
    ensures PerimeterUpTo(c, k) == Sum(Terms(c, EdgeOf)[..k])
  {
    if k > 0 {
      PerimeterAsSum(c, k - 1);
      SumStep(Terms(c, EdgeOf), k - 1);
    }
  }

  lemma {:induction false} MomentXAsSum(c: Contour, k: nat)
    requires k <= |c|
    ensures MomentUpTo(c, k).x == Sum(Terms(c, MomentXOf)[..k])
  {
    if k > 0 {
      MomentXAsSum(c, k - 1);
      var t := Terms(c, MomentXOf);
      assert Sum(t[..k]) == Sum(t[..k - 1]) + MomentTerm(c, k - 1).x by {
        SumStep(t, k - 1);
      }
    }
  }

  lemma {:induction false} MomentYAsSum(c: Contour, k: nat)
    requires k <= |c|
    ensures MomentUpTo(c, k).y == Sum(Terms(c, MomentYOf)[..k])
  {
    if k > 0 {
      MomentYAsSum(c, k - 1);
      var t := Terms(c, MomentYOf);
      assert Sum(t[..k]) == Sum(t[..k - 1]) + MomentTerm(c, k - 1).y by {
        SumStep(t, k - 1);
      }
    }
  }

  lemma {:induction false} AreaAsSum(c: Contour, k: nat, center: Vec)
    requires k <= |c|
    ensures AreaUpTo(c, k, center) == Sum(Terms(c, TriangleAt(center))[..k])
  {
    if k > 0 {
      AreaAsSum(c, k - 1, center);
      assert Terms(c, TriangleAt(center))[k - 1] == Triangle(c, k - 1, center);
      SumStep(Terms(c, TriangleAt(center)), k - 1);
    }
  }

  lemma TakeAll<T>(s: seq<T>)
    ensures s[..|s|] == s
  {
  }

  // ---------------------------------------------------------------------
  // Rotation

  lemma SumRotated(s: seq<real>, k: nat)
    requires k <= |s|
    ensures Sum(Rotated(s, k)) == Sum(s)
  {
    SumConcat(s[k..], s[..k]);
    SumConcat(s[..k], s[k..]);
    assert s[..k] + s[k..] == s;
  }

  /** Point i of the rotated contour, and the point before it, are point
      RotIndex(n, k, i) of the contour and the point before that. */
  lemma RotatedNeighbours(c: Contour, k: nat, i: nat)
    requires k < |c| && i < |c|
    ensures Rotated(c, k)[i] == c[RotIndex(|c|, k, i)]
    ensures Prev(Rotated(c, k), i) == Prev(c, RotIndex(|c|, k, i))
  {
  }

  lemma TermsRotated(c: Contour, k: nat, f: (Point, Point) -> real)
    requires k < |c|
    ensures Terms(Rotated(c, k), f) == Rotated(Terms(c, f), k)
  {
    var t := Terms(c, f);
    forall i | 0 <= i < |c| ensures Terms(Rotated(c, k), f)[i] == Rotated(t, k)[i] {
      RotatedNeighbours(c, k, i);
      assert Rotated(t, k)[i] == t[RotIndex(|c|, k, i)];
    }
  }

  /** The sum of a term over the edges does not depend on the starting
      point. */
  lemma RotatedTermSum(c: Contour, k: nat, f: (Point, Point) -> real)
    requires k < |c|
    ensures Sum(Terms(Rotated(c, k), f)) == Sum(Terms(c, f))
  {
    TermsRotated(c, k, f);
    SumRotated(Terms(c, f), k);
  }

  lemma PerimeterRotated(c: Contour, k: nat)
    requires k < |c|
    ensures Perimeter(Rotated(c, k)) == Perimeter(c)
  {
    var r := Rotated(c, k);
    PerimeterAsSum(c, |c|);
    PerimeterAsSum(r, |r|);
    TakeAll(Terms(c, EdgeOf));
    TakeAll(Terms(r, EdgeOf));
    RotatedTermSum(c, k, EdgeOf);
  }

  lemma CenterRotated(c: Contour, k: nat)
    requires k < |c|
    ensures Center(Rotated(c, k)) == Center(c)
  {
    var r := Rotated(c, k);
    PerimeterRotated(c, k);
    MomentXAsSum(c, |c|);
    MomentXAsSum(r, |r|);
    MomentYAsSum(c, |c|);
    MomentYAsSum(r, |r|);
    TakeAll(Terms(c, MomentXOf));
    TakeAll(Terms(r, MomentXOf));
    TakeAll(Terms(c, MomentYOf));
    TakeAll(Terms(r, MomentYOf));
    RotatedTermSum(c, k, MomentXOf);
    RotatedTermSum(c, k, MomentYOf);
  }

  lemma AreaRotated(c: Contour, k: nat)
    requires k < |c|
    ensures Area(Rotated(c, k)) == Area(c)
  {
    var r := Rotated(c, k);
    var center := Center(c);
    CenterRotated(c, k);
    AreaAsSum(c, |c|, center);
    AreaAsSum(r, |r|, center);
    TakeAll(Terms(c, TriangleAt(center)));
    TakeAll(Terms(r, TriangleAt(center)));
    RotatedTermSum(c, k, TriangleAt(center));
  }

  /** Starting a closed contour at its point k changes neither its
      perimeter, its center, its area, its radius nor its circularity. */
  lemma RotationInvariant(c: Contour, k: nat)
    requires k < |c|
    ensures Perimeter(Rotated(c, k)) == Perimeter(c)
    ensures Center(Rotated(c, k)) == Center(c)
    ensures Area(Rotated(c, k)) == Area(c)
    ensures Radius(Rotated(c, k)) == Radius(c)
    ensures Circularity(Rotated(c, k)) == Circularity(c)
  {
    PerimeterRotated(c, k);
    CenterRotated(c, k);
    AreaRotated(c, k);
  }

  // ---------------------------------------------------------------------
  // Translation

  function Shifted(p: Vec, v: Point): Vec
  {
    Vec(p.x + v.x as real, p.y + v.y as real)
  }

  lemma LineLengthShifted(a: Vec, b: Vec, v: Point)
    ensures LineLength(Shifted(a, v), Shifted(b, v)) == LineLength(a, b)
  {
    assert Shifted(b, v).x - Shifted(a, v).x == b.x - a.x;
    assert Shifted(b, v).y - Shifted(a, v).y == b.y - a.y;
  }

  lemma TriangleAreaShifted(a: Vec, b: Vec, c: Vec, v: Point)
    ensures TriangleArea(Shifted(a, v), Shifted(b, v), Shifted(c, v)) == TriangleArea(a, b, c)
  {
    var w := v.x as real;
    var d1, d2, d3 := b.y - c.y, c.y - a.y, a.y - b.y;
    assert Shifted(b, v).y - Shifted(c, v).y == d1;
    assert Shifted(c, v).y - Shifted(a, v).y == d2;
    assert Shifted(a, v).y - Shifted(b, v).y == d3;
    assert (a.x + w) * d1 == a.x * d1 + w * d1;
    assert (b.x + w) * d2 == b.x * d2 + w * d2;
    assert (c.x + w) * d3 == c.x * d3 + w * d3;
    assert w * d1 + w * d2 + w * d3 == w * (d1 + d2 + d3);
  }

  lemma EdgeMomentShifted(q: Vec, p: Vec, v: Point)
    ensures EdgeMoment(Shifted(q, v), Shifted(p, v)).x == EdgeMoment(q, p).x + LineLength(q, p) * v.x as real
    ensures EdgeMoment(Shifted(q, v), Shifted(p, v)).y == EdgeMoment(q, p).y + LineLength(q, p) * v.y as real
  {
    var l := LineLength(q, p);
    LineLengthShifted(q, p, v);
    var wx, wy := v.x as real, v.y as real;
    assert l * ((p.x + wx) + (q.x + wx)) == l * (p.x + q.x) + 2.0 * (l * wx);
    assert l * ((p.y + wy) + (q.y + wy)) == l * (p.y + q.y) + 2.0 * (l * wy);
  }

  lemma TranslatedNeighbours(c: Contour, v: Point, i: nat)
    requires i < |c|
    ensures ToVec(Translated(c, v)[i]) == Shifted(ToVec(c[i]), v)
    ensures ToVec(Prev(Translated(c, v), i)) == Shifted(ToVec(Prev(c, i)), v)
  {
  }

  lemma {:induction false} PerimeterUpToTranslated(c: Contour, v: Point, k: nat)
    requires k <= |c|
    ensures PerimeterUpTo(Translated(c, v), k) == PerimeterUpTo(c, k)
  {
    if k > 0 {
      PerimeterUpToTranslated(c, v, k - 1);
      TranslatedNeighbours(c, v, k - 1);
      LineLengthShifted(ToVec(c[k - 1]), ToVec(Prev(c, k - 1)), v);
    }
  }

  /** Termwise a == b + e * w, so the sums too. */
  lemma {:induction false} SumShiftedTerms(a: seq<real>, b: seq<real>, e: seq<real>, w: real)
    requires |a| == |b| == |e|
    requires forall i :: 0 <= i < |a| ==> a[i] == b[i] + e[i] * w
    ensures Sum(a) == Sum(b) + Sum(e) * w
  {
    if |a| > 0 {
      var n := |a| - 1;
      SumShiftedTerms(a[..n], b[..n], e[..n], w);
      assert (Sum(e[..n]) + e[n]) * w == Sum(e[..n]) * w + e[n] * w;
    }
  }

  function ShiftedPoint(p: Point, v: Point): Point
  {
    Point(p.x + v.x, p.y + v.y)
  }

  /** When moving both points by v adds w times f to the term g, moving
      the contour by v moves the ratio of the g-sum to the f-sum by w. */
  lemma ShiftedRatio(c: Contour, v: Point, f: (Point, Point) -> real, g: (Point, Point) -> real, w: real)
    requires forall p, q {:trigger g(ShiftedPoint(p, v), ShiftedPoint(q, v))} ::
      g(ShiftedPoint(p, v), ShiftedPoint(q, v)) == g(p, q) + f(p, q) * w
    requires Sum(Terms(c, f)) != 0.0
    ensures Sum(Terms(Translated(c, v), g)) / Sum(Terms(c, f)) == Sum(Terms(c, g)) / Sum(Terms(c, f)) + w
  {
    var t := Translated(c, v);
    var a, b, e := Terms(t, g), Terms(c, g), Terms(c, f);
    forall i | 0 <= i < |c| ensures a[i] == b[i] + e[i] * w {
      assert t[i] == ShiftedPoint(c[i], v);
      assert Prev(t, i) == ShiftedPoint(Prev(c, i), v);
    }
    assert Sum(a) == Sum(b) + Sum(e) * w by {
      SumShiftedTerms(a, b, e, w);
    }
    DivShift(Sum(a), Sum(b), Sum(e), w);
  }

  lemma LineLengthSymmetric(a: Vec, b: Vec)
    ensures LineLength(a, b) == LineLength(b, a)
  {
    assert Sq(b.x - a.x) == Sq(a.x - b.x);
    assert Sq(b.y - a.y) == Sq(a.y - b.y);
  }

  lemma {:induction false} AreaUpToTranslated(c: Contour, v: Point, k: nat, center: Vec)
    requires k <= |c|
    ensures AreaUpTo(Translated(c, v), k, Shifted(center, v)) == AreaUpTo(c, k, center)
  {
    if k > 0 {
      AreaUpToTranslated(c, v, k - 1, center);
      TranslatedNeighbours(c, v, k - 1);
      TriangleAreaShifted(ToVec(c[k - 1]), ToVec(Prev(c, k - 1)), center, v);
    }
  }

  lemma PerimeterTranslated(c: Contour, v: Point)
    ensures Perimeter(Translated(c, v)) == Perimeter(c)
  {
    PerimeterUpToTranslated(c, v, |c|);
  }

  lemma DivShift(mt: real, m: real, p: real, w: real)
    requires p != 0.0 && mt == m + p * w
    ensures mt / p == m / p + w
  {
    assert (m + p * w) / p == m / p + (p * w) / p;
  }

  lemma MomentXOfShifted(v: Point)
    ensures forall p, q {:trigger MomentXOf(ShiftedPoint(p, v), ShiftedPoint(q, v))} ::
      MomentXOf(ShiftedPoint(p, v), ShiftedPoint(q, v)) == MomentXOf(p, q) + EdgeOf(p, q) * v.x as real
  {
    forall p, q
      ensures MomentXOf(ShiftedPoint(p, v), ShiftedPoint(q, v)) == MomentXOf(p, q) + EdgeOf(p, q) * v.x as real
    {
      assert ToVec(ShiftedPoint(p, v)) == Shifted(ToVec(p), v);
      assert ToVec(ShiftedPoint(q, v)) == Shifted(ToVec(q), v);
      EdgeMomentShifted(ToVec(q), ToVec(p), v);
      LineLengthSymmetric(ToVec(q), ToVec(p));
    }
  }

  lemma MomentYOfShifted(v: Point)
    ensures forall p, q {:trigger MomentYOf(ShiftedPoint(p, v), ShiftedPoint(q, v))} ::
      MomentYOf(ShiftedPoint(p, v), ShiftedPoint(q, v)) == MomentYOf(p, q) + EdgeOf(p, q) * v.y as real
  {
    forall p, q
      ensures MomentYOf(ShiftedPoint(p, v), ShiftedPoint(q, v)) == MomentYOf(p, q) + EdgeOf(p, q) * v.y as real
    {
      assert ToVec(ShiftedPoint(p, v)) == Shifted(ToVec(p), v);
      assert ToVec(ShiftedPoint(q, v)) == Shifted(ToVec(q), v);
      EdgeMomentShifted(ToVec(q), ToVec(p), v);
      LineLengthSymmetric(ToVec(q), ToVec(p));
    }
  }

  lemma CenterAsSums(c: Contour)
    requires Perimeter(c) != 0.0
    ensures Perimeter(c) == Sum(Terms(c, EdgeOf))
    ensures Center(c) == Vec(Sum(Terms(c, MomentXOf)) / Sum(Terms(c, EdgeOf)),
                             Sum(Terms(c, MomentYOf)) / Sum(Terms(c, EdgeOf)))
  {
    PerimeterAsSum(c, |c|);
    MomentXAsSum(c, |c|);
    MomentYAsSum(c, |c|);
    TakeAll(Terms(c, EdgeOf));
    TakeAll(Terms(c, MomentXOf));
    TakeAll(Terms(c, MomentYOf));
  }

  /** The translated contour's center, over the original's perimeter. */
  lemma TranslatedCenterAsSums(c: Contour, v: Point)
    requires Perimeter(c) != 0.0 && Perimeter(c) == Sum(Terms(c, EdgeOf))
    ensures Center(Translated(c, v)) == Vec(Sum(Terms(Translated(c, v), MomentXOf)) / Sum(Terms(c, EdgeOf)),
                                           Sum(Terms(Translated(c, v), MomentYOf)) / Sum(Terms(c, EdgeOf)))
  {
    PerimeterTranslated(c, v);
    CenterAsSums(c);
    CenterAsSums(Translated(c, v));
  }

  lemma MomentXRatioTranslated(c: Contour, v: Point)
    requires Sum(Terms(c, EdgeOf)) != 0.0
    ensures Sum(Terms(Translated(c, v), MomentXOf)) / Sum(Terms(c, EdgeOf))
      == Sum(Terms(c, MomentXOf)) / Sum(Terms(c, EdgeOf)) + v.x as real
  {
    MomentXOfShifted(v);
    ShiftedRatio(c, v, EdgeOf, MomentXOf, v.x as real);
  }

  lemma MomentYRatioTranslated(c: Contour, v: Point)
    requires Sum(Terms(c, EdgeOf)) != 0.0
    ensures Sum(Terms(Translated(c, v), MomentYOf)) / Sum(Terms(c, EdgeOf))
      == Sum(Terms(c, MomentYOf)) / Sum(Terms(c, EdgeOf)) + v.y as real
  {
    MomentYOfShifted(v);
    ShiftedRatio(c, v, EdgeOf, MomentYOf, v.y as real);
  }

  /** With a non-zero perimeter the center moves with the points. */
  lemma CenterTranslated(c: Contour, v: Point)
    requires Perimeter(c) != 0.0
    ensures Center(Translated(c, v)) == Shifted(Center(c), v)
  {
    CenterAsSums(c);
    TranslatedCenterAsSums(c, v);
    MomentXRatioTranslated(c, v);
    MomentYRatioTranslated(c, v);
  }

  /** A contour of zero perimeter has all its points equal, so each of its
      triangles is degenerate and its area is zero. */
  lemma ZeroPerimeterArea(c: Contour)
    requires Perimeter(c) == 0.0
    ensures Area(c) == 0.0
  {
    if |c| > 0 {
      var center := Center(c);
      var edges := Terms(c, EdgeOf);
      PerimeterAsSum(c, |c|);
      TakeAll(edges);
      forall i | 0 <= i < |c| ensures 0.0 <= edges[i] {
      }
      SumZeroTerms(edges);
      var tri := Terms(c, TriangleAt(center));
      forall i | 0 <= i < |c| ensures tri[i] == 0.0 {
        assert edges[i] == EdgeOf(c[i], Prev(c, i)) == 0.0;
      }
      SumConstant(tri, 0.0);
      AreaAsSum(c, |c|, center);
      TakeAll(tri);
    }
  }

  lemma AreaTranslated(c: Contour, v: Point)
    ensures Area(Translated(c, v)) == Area(c)
  {
    var t := Translated(c, v);
    PerimeterTranslated(c, v);
    if Perimeter(c) != 0.0 {
      CenterTranslated(c, v);
      AreaUpToTranslated(c, v, |c|, Center(c));
    } else {
      ZeroPerimeterArea(c);
      ZeroPerimeterArea(t);
    }
  }

  lemma RadiiTranslated(c: Contour, v: Point, center: Vec)
    ensures Radii(Translated(c, v), Shifted(center, v)) == Radii(c, center)
  {
    forall i | 0 <= i < |c|
      ensures Radii(Translated(c, v), Shifted(center, v))[i] == Radii(c, center)[i]
    {
      TranslatedNeighbours(c, v, i);
      LineLengthShifted(ToVec(c[i]), center, v);
    }
  }

  /** Moving every point by v leaves the perimeter, the area, the radius
      and the circularity as they are; when the perimeter is not zero it
      moves the center by v and leaves the radial statistics as they are.
      A contour of zero perimeter keeps its center at the origin. */
  lemma TranslationInvariant(c: Contour, v: Point)
    ensures Perimeter(Translated(c, v)) == Perimeter(c)
    ensures Area(Translated(c, v)) == Area(c)
    ensures Radius(Translated(c, v)) == Radius(c)
    ensures Circularity(Translated(c, v)) == Circularity(c)
    ensures Perimeter(c) == 0.0 ==> Center(Translated(c, v)) == Center(c) == Vec(0.0, 0.0)
    ensures Perimeter(c) != 0.0 ==> Center(Translated(c, v)) == Shifted(Center(c), v)
    ensures Perimeter(c) != 0.0 ==>
      RadialAverage(Translated(c, v)) == RadialAverage(c)
      && RadialSd(Translated(c, v)) == RadialSd(c)
      && RadialDifferenceSd(Translated(c, v)) == RadialDifferenceSd(c)
  {
    PerimeterTranslated(c, v);
    AreaTranslated(c, v);
    if Perimeter(c) != 0.0 {
      CenterTranslated(c, v);
      RadiiTranslated(c, v, Center(c));
    }
  }
}
