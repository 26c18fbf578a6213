/** The image-level steps of analyseImage.py that the model covers: the
    picture cut around a candidate center (obtain_picture), the downscaling
    factor (rescale_image), normalisation to [0, 1] (normalize_image), the
    choice of the template particle (find_matches), outlier removal on a
    particle (remove_outliers), and the round structure of the search
    (analyse). The image-processing collaborators (OpenCV, skimage and the
    ray-casting that builds a contour from an edges map) are inputs. */
module AnalyseImage {
  import opened Common
  import opened RealMath
  import opened Geometry
  import opened Settings
  import opened Descriptors
  import opened Outliers
  import opened Registry
  import opened NumpyOps

  // ---------------------------------------------------------------------
  // obtain_picture

  /** int(min(max(0, v), size)): v clamped to [0, size], then truncated,
      which for a non-negative number is the floor. */
  function Clamp(v: real, size: nat): (r: int)
    ensures 0 <= r <= size
  {
    var c := if v < 0.0 then 0.0 else if v > size as real then size as real else v;
    c.Floor
  }

  lemma ClampMonotone(v: real, w: real, size: nat)
    requires v <= w
    ensures Clamp(v, size) <= Clamp(w, size)
  {
    var cv := if v < 0.0 then 0.0 else if v > size as real then size as real else v;
    var cw := if w < 0.0 then 0.0 else if w > size as real then size as real else w;
    assert cv <= cw;
    assert cv.Floor as real <= cv <= cw;
  }

  /** The rows [minX, maxX) and columns [minY, maxY) of a picture. */
  datatype Window = Window(minX: int, maxX: int, minY: int, maxY: int)

  /** Half the side of the picture: round(factor * radius). */
  function HalfSize(radius: real, factor: real): int
  {
    Round(factor * radius)
  }

  /** The square of half-side half around center, cut to an image of
      size0 x size1. */
  function PictureWindow(size0: nat, size1: nat, center: Vec, half: int): Window
  {
    Window(Clamp(center.x - half as real, size0), Clamp(center.x + half as real, size0),
           Clamp(center.y - half as real, size1), Clamp(center.y + half as real, size1))
  }

  /** With a non-negative half-side the window lies in the image and is not
      inverted: 0 <= minX <= maxX <= size0, and likewise for y. */
  lemma PictureWindowBounds(size0: nat, size1: nat, center: Vec, half: int)
    requires 0 <= half
    ensures 0 <= PictureWindow(size0, size1, center, half).minX
      <= PictureWindow(size0, size1, center, half).maxX <= size0
    ensures 0 <= PictureWindow(size0, size1, center, half).minY
      <= PictureWindow(size0, size1, center, half).maxY <= size1
  {
    ClampMonotone(center.x - half as real, center.x + half as real, size0);
    ClampMonotone(center.y - half as real, center.y + half as real, size1);
  }

  /** obtain_picture: the corner is the window's lowest cell, the circle's
      center is given relative to it, and the picture is a copy of the
      window's cells (numpy's slice, empty when the window is inverted). */
  method ObtainPicture(image: array2<real>, center: Vec, radius: real, factor: real)
    returns (grid: array2<real>, circleCenter: Vec, corner: Point)
    ensures var w := PictureWindow(image.Length0, image.Length1, center, HalfSize(radius, factor));
      corner == Point(w.minX, w.minY)
      && circleCenter == Vec(center.x - w.minX as real, center.y - w.minY as real)
      && fresh(grid)
      && grid.Length0 == Max(0, w.maxX - w.minX) && grid.Length1 == Max(0, w.maxY - w.minY)
      && forall i, j :: 0 <= i < grid.Length0 && 0 <= j < grid.Length1 ==>
           grid[i, j] == image[w.minX + i, w.minY + j]
  {
    var half := Round(factor * radius);
    var minX := Clamp(center.x - half as real, image.Length0);
    var maxX := Clamp(center.x + half as real, image.Length0);
    var minY := Clamp(center.y - half as real, image.Length1);
    var maxY := Clamp(center.y + half as real, image.Length1);
    circleCenter := Vec(center.x - minX as real, center.y - minY as real);
    corner := Point(minX, minY);
    var rows, cols := Max(0, maxX - minX), Max(0, maxY - minY);
    grid := new real[rows, cols]((i, j) reads image requires 0 <= i < rows && 0 <= j < cols =>
      image[minX + i, minY + j]);
  }

  // ---------------------------------------------------------------------
  // rescale_image

  /** The factor rescale_image scales by. The division is by the largest
      dimension, which is zero only for an empty image with a negative
      limit. */
  function ScaleFactor(rows: nat, cols: nat, maxDim: int): real
    requires Max(rows, cols) > maxDim ==> Max(rows, cols) > 0
  {
    var m := Max(rows, cols);
    if m > maxDim then maxDim as real / m as real else 1.0
  }

  /** The factor is 1 when the image already fits, and otherwise
      maxDim / max(rows, cols), which is below 1; either way the scaled
      largest dimension does not exceed the limit. */
  lemma ScaleFactorSpec(rows: nat, cols: nat, maxDim: int)
    requires Max(rows, cols) > maxDim ==> Max(rows, cols) > 0
    ensures Max(rows, cols) <= maxDim ==> ScaleFactor(rows, cols, maxDim) == 1.0
    ensures Max(rows, cols) > maxDim ==>
      ScaleFactor(rows, cols, maxDim) == maxDim as real / Max(rows, cols) as real
      && ScaleFactor(rows, cols, maxDim) < 1.0
    ensures Max(rows, cols) as real * ScaleFactor(rows, cols, maxDim) <= maxDim as real
  {
    var m := Max(rows, cols) as real;
    if Max(rows, cols) > maxDim {
      var f := maxDim as real / m;
      assert m * f == maxDim as real;
      assert f < 1.0 by {
        assert maxDim as real < m;
      }
    }
  }

  // ---------------------------------------------------------------------
  // normalize_image

  /** The value normalize_image gives an entry v of an image whose smallest
      and largest entries are lo and hi. */
  function NormalizedValue(v: real, lo: real, hi: real): real
  {
    if hi != lo then (v - lo) / (hi - lo) else v
  }

  /** A flat image is copied unchanged; otherwise its smallest entry goes to
      0, its largest to 1, and every entry into [0, 1]. */
  lemma NormalizedValueSpec(v: real, lo: real, hi: real)
    requires lo <= v <= hi
    ensures lo == hi ==> NormalizedValue(v, lo, hi) == v
    ensures lo < hi ==> 0.0 <= NormalizedValue(v, lo, hi) <= 1.0
    ensures lo < hi && v == lo ==> NormalizedValue(v, lo, hi) == 0.0
    ensures lo < hi && v == hi ==> NormalizedValue(v, lo, hi) == 1.0
  {
    if lo < hi {
      DivNonNegative(v - lo, hi - lo);
      assert (v - lo) / (hi - lo) <= 1.0 by {
        assert v - lo <= hi - lo;
      }
    }
  }

  /** normalize_image: np.amax and np.amin (which reject an empty image),
      then a new image of the normalised entries. The smallest and largest
      entries are named by the ghost results lo and hi. */
  method NormalizeImage(image: array2<real>) returns (normalized: array2<real>, ghost lo: real, ghost hi: real)
    requires 0 < image.Length0 && 0 < image.Length1
    ensures exists i, j :: 0 <= i < image.Length0 && 0 <= j < image.Length1 && image[i, j] == lo
    ensures exists i, j :: 0 <= i < image.Length0 && 0 <= j < image.Length1 && image[i, j] == hi
    ensures forall i, j :: 0 <= i < image.Length0 && 0 <= j < image.Length1 ==> lo <= image[i, j] <= hi
    ensures fresh(normalized)
    ensures normalized.Length0 == image.Length0 && normalized.Length1 == image.Length1
    ensures forall i, j :: 0 <= i < image.Length0 && 0 <= j < image.Length1 ==>
      normalized[i, j] == NormalizedValue(image[i, j], lo, hi)
  {
    var maxValue := Amax(image, 0, image.Length0, 0, image.Length1);
    var minValue := Amin(image, 0, image.Length0, 0, image.Length1);
    lo, hi := minValue, maxValue;
    normalized := new real[image.Length0, image.Length1]((i, j)
      reads image requires 0 <= i < image.Length0 && 0 <= j < image.Length1 =>
      NormalizedValue(image[i, j], minValue, maxValue));
  }

  // ---------------------------------------------------------------------
  // find_matches: the template particle

  /** The loop of find_matches that picks the particle whose picture becomes
      the template: the first particle of greatest circularity, when that
      circularity is above 0. With no such particle the program never binds
      the picture (an error), which is None here. */
  method SelectTemplate(particles: seq<Particle>) returns (best: Option<nat>)
    ensures best.None? <==> forall k :: 0 <= k < |particles| ==> particles[k].circularity <= 0.0
    ensures best.Some? ==> best.value < |particles| && 0.0 < particles[best.value].circularity
    ensures best.Some? ==> forall k :: 0 <= k < |particles| ==>
      particles[k].circularity <= particles[best.value].circularity
    ensures best.Some? ==> forall k :: 0 <= k < best.value ==>
      particles[k].circularity < particles[best.value].circularity
  {
    var bestCircularity := 0.0;
    best := None;
    for k := 0 to |particles|
      invariant best.None? ==> bestCircularity == 0.0
      invariant best.None? <==> forall l :: 0 <= l < k ==> particles[l].circularity <= 0.0
      invariant best.Some? ==> best.value < k && particles[best.value].circularity == bestCircularity
      invariant best.Some? ==> 0.0 < bestCircularity
      invariant forall l :: 0 <= l < k ==> particles[l].circularity <= bestCircularity
      invariant best.Some? ==> forall l :: 0 <= l < best.value ==> particles[l].circularity < bestCircularity
    {
      if particles[k].circularity > bestCircularity {
        best := Some(k);
        bestCircularity := particles[k].circularity;
      }
    }
  }

  // ---------------------------------------------------------------------
  // remove_outliers

  /** get_outliers called with the contour's own radial average and
      deviation, as remove_outliers calls it. */
  function OwnOutliers(c: Contour, thresh: real): seq<nat>
  {
    OwnStatisticsSuffice(c);
    Outliers.Outliers(c, RadialAverage(c), RadialSd(c), thresh)
  }

  /** The contour remove_outliers leaves. */
  function OutliersRemoved(c: Contour, thresh: real): Contour
  {
    Without(c, Elements(OwnOutliers(c, thresh)))
  }

  /** remove_outliers keeps, in their order, exactly the points at the
      positions get_outliers does not return; a contour with no radial
      spread keeps all its points. */
  lemma OutliersRemovedSpec(c: Contour, thresh: real)
    ensures RadialSd(c) == 0.0 ==> OutliersRemoved(c, thresh) == c
    ensures StrictlyIncreasing(Kept(|c|, Elements(OwnOutliers(c, thresh))))
    ensures forall i :: i in Kept(|c|, Elements(OwnOutliers(c, thresh))) <==>
      0 <= i < |c| && i !in OwnOutliers(c, thresh)
    ensures |OutliersRemoved(c, thresh)| == |Kept(|c|, Elements(OwnOutliers(c, thresh)))|
    ensures forall j :: 0 <= j < |OutliersRemoved(c, thresh)| ==>
      Kept(|c|, Elements(OwnOutliers(c, thresh)))[j] < |c|
      && OutliersRemoved(c, thresh)[j] == c[Kept(|c|, Elements(OwnOutliers(c, thresh)))[j]]
  {
    var drop := Elements(OwnOutliers(c, thresh));
    KeptSpec(|c|, drop);
    WithoutSpec(c, drop);
    if RadialSd(c) == 0.0 {
      assert drop == {};
      WithoutNothing(c, drop);
    }
  }

  /** remove_outliers: the particle's contour loses its outliers in place
      (popped in reverse order); its descriptors, which are constants of the
      particle, are not recomputed. */
  method RemoveOutliers(particle: Particle, thresh: real) returns (result: Particle)
    modifies particle
    ensures result == particle
    ensures particle.contour == OutliersRemoved(old(particle.contour), thresh)
  {
    var c := particle.contour;
    var r := GetRadialAverage(c);
    var variance := GetRadialVariance(c);
    var sd := Sqrt(variance);
    OwnStatisticsSuffice(c);
    var outliers := GetOutliers(c, r, sd, thresh);
    OutliersSpec(c, r, sd, thresh);
    particle.contour := PopInReverse(particle.contour, outliers);
    result := particle;
  }

  // ---------------------------------------------------------------------
  // analyse

  /** The outlier threshold analyse refines contours with. */
  const OutlierThreshold: real := 2.5

  /** How many contours analyse builds around one maximum: one from the
      edges map, and one more from the detailed edges map when colour
      differences are used. */
  function PassesPerMaximum(para: Search): nat
  {
    if para.useColorDifferences then 2 else 1
  }

  /** One pass of analyse on a built contour: the particle built from the
      raw contour, and the contour it holds once rid of its outliers. */
  datatype Pass = Pass(particle: Particle, raw: Contour, refined: Contour)

  /** Particle p was built from the contour raw: each of its descriptors is
      that descriptor of raw. */
  ghost predicate MadeFrom(p: Particle, raw: Contour)
  {
    p.center == Center(raw) && p.area == Area(raw) && p.perimeter == Perimeter(raw)
    && p.radius == Radius(raw) && p.circularity == Circularity(raw)
    && p.radialAverage == RadialAverage(raw) && p.radialSd == RadialSd(raw)
    && p.radialSdConsecutive == RadialDifferenceSd(raw)
  }

  /** The pass was made on the contour raw: its particle was built from raw,
      and its refined contour is raw rid of its outliers. */
  ghost predicate MadeOn(pass: Pass, raw: Contour)
  {
    pass.raw == raw && pass.refined == OutliersRemoved(raw, OutlierThreshold) && MadeFrom(pass.particle, raw)
  }

  /** passes[j] was made on the contour contourAt(maximum, j), for each j. */
  ghost predicate MadeAlong(passes: seq<Pass>, maximum: Point, contourAt: (Point, nat) -> Contour)
  {
    forall j {:trigger MadeOn(passes[j], contourAt(maximum, j))} ::
      0 <= j < |passes| ==> MadeOn(passes[j], contourAt(maximum, j))
  }

  /** The passes around maximum: one per edges map used, the j-th made on
      the contour contourAt(maximum, j). */
  ghost predicate BuiltAround(passes: seq<Pass>, maximum: Point, contourAt: (Point, nat) -> Contour, para: Search)
  {
    |passes| == PassesPerMaximum(para) && MadeAlong(passes, maximum, contourAt)
  }

  /** made[m] holds the passes around maxima[m]. */
  ghost predicate BuiltInRound(made: seq<seq<Pass>>, maxima: seq<Point>, contourAt: (Point, nat) -> Contour, para: Search)
  {
    |made| <= |maxima| && forall m :: 0 <= m < |made| ==> BuiltAround(made[m], maxima[m], contourAt, para)
  }

  /** A pass on values: its particle is offered with the raw contour's
      point count, then offered again with the refined contour's. */
  function Offered(list: seq<Particle>, pass: Pass, cp: ContourParameters): seq<Particle>
  {
    Appended(Appended(list, pass.particle, |pass.raw|, cp), pass.particle, |pass.refined|, cp)
  }

  /** The passes around one maximum, in turn. */
  function MaximumPasses(list: seq<Particle>, passes: seq<Pass>, cp: ContourParameters): seq<Particle>
    decreases |passes|
  {
    if |passes| == 0 then list
    else
      var k := |passes| - 1;
      Offered(MaximumPasses(list, passes[..k], cp), passes[k], cp)
  }

  /** One round of analyse: the passes around each maximum, in turn. */
  function RoundFrom(list: seq<Particle>, made: seq<seq<Pass>>, cp: ContourParameters): seq<Particle>
    decreases |made|
  {
    if |made| == 0 then list
    else
      var k := |made| - 1;
      MaximumPasses(RoundFrom(list, made[..k], cp), made[k], cp)
  }

  /** The trace of analyse's first |made| rounds: round r starts from
      starts[r], makes the passes made[r] around the maxima maximaOf(r),
      and leaves starts[r + 1]. */
  ghost predicate Traced(starts: seq<seq<Particle>>, made: seq<seq<seq<Pass>>>, maximaOf: nat -> seq<Point>,
                         contourAt: (Point, nat) -> Contour, para: Search)
  {
    |starts| == |made| + 1
    && forall r: nat :: r < |made| ==>
      |made[r]| == |maximaOf(r)| && BuiltInRound(made[r], maximaOf(r), contourAt, para)
      && starts[r + 1] == RoundFrom(starts[r], made[r], para.contourPara)
  }

  /** What one call of analyse from start did, as the trace starts/made:
      at most iterations + 1 rounds, each traced from the one before, the
      first from start and the last leaving result; no round after the
      first starts from an empty list, and a search that stops before the
      last iteration has run a round and ends with an empty list. */
  ghost predicate AnalysedFrom(start: seq<Particle>, result: seq<Particle>,
                               starts: seq<seq<Particle>>, made: seq<seq<seq<Pass>>>,
                               maximaOf: nat -> seq<Point>, contourAt: (Point, nat) -> Contour, para: Search)
  {
    Traced(starts, made, maximaOf, contourAt, para)
    && |made| <= Max(0, para.iterations + 1)
    && starts[0] == start && starts[|made|] == result
    && (forall i :: 1 <= i < |made| ==> starts[i] != [])
    && (|made| < para.iterations + 1 ==> 1 <= |made| && result == [])
  }

  lemma MadeAlongStep(passes: seq<Pass>, pass: Pass, maximum: Point, contourAt: (Point, nat) -> Contour)
    requires MadeAlong(passes, maximum, contourAt) && MadeOn(pass, contourAt(maximum, |passes|))
    ensures MadeAlong(passes + [pass], maximum, contourAt)
  {
    var next := passes + [pass];
    assert forall j :: 0 <= j < |passes| ==> next[j] == passes[j];
  }

  lemma BuiltInRoundStep(made: seq<seq<Pass>>, passes: seq<Pass>, maxima: seq<Point>,
                         contourAt: (Point, nat) -> Contour, para: Search)
    requires BuiltInRound(made, maxima, contourAt, para) && |made| < |maxima|
    requires BuiltAround(passes, maxima[|made|], contourAt, para)
    ensures BuiltInRound(made + [passes], maxima, contourAt, para)
  {
    var next := made + [passes];
    assert forall m :: 0 <= m < |made| ==> next[m] == made[m];
  }

  lemma MaximumPassesStep(list: seq<Particle>, passes: seq<Pass>, pass: Pass, cp: ContourParameters)
    ensures MaximumPasses(list, passes + [pass], cp) == Offered(MaximumPasses(list, passes, cp), pass, cp)
  {
    assert (passes + [pass])[..|passes|] == passes;
  }

  lemma RoundFromStep(list: seq<Particle>, made: seq<seq<Pass>>, passes: seq<Pass>, cp: ContourParameters)
    ensures RoundFrom(list, made + [passes], cp) == MaximumPasses(RoundFrom(list, made, cp), passes, cp)
  {
    assert (made + [passes])[..|made|] == made;
  }

  lemma TracedStep(starts: seq<seq<Particle>>, made: seq<seq<seq<Pass>>>, roundMade: seq<seq<Pass>>,
                   maximaOf: nat -> seq<Point>, contourAt: (Point, nat) -> Contour, para: Search)
    requires Traced(starts, made, maximaOf, contourAt, para)
    requires |roundMade| == |maximaOf(|made|)| && BuiltInRound(roundMade, maximaOf(|made|), contourAt, para)
    ensures Traced(starts + [RoundFrom(starts[|made|], roundMade, para.contourPara)],
                   made + [roundMade], maximaOf, contourAt, para)
  {
    var s := starts + [RoundFrom(starts[|made|], roundMade, para.contourPara)];
    var m := made + [roundMade];
    forall r: nat | r < |m|
      ensures |m[r]| == |maximaOf(r)| && BuiltInRound(m[r], maximaOf(r), contourAt, para)
      ensures s[r + 1] == RoundFrom(s[r], m[r], para.contourPara)
    {
      if r < |made| {
        assert m[r] == made[r] && s[r] == starts[r] && s[r + 1] == starts[r + 1];
      } else {
        assert m[r] == roundMade && s[r] == starts[|made|];
      }
    }
  }

  /** A pass keeps a registry: no overlapping pair, and every member
      circular enough. */
  lemma OfferedKeepsRegistry(list: seq<Particle>, pass: Pass, cp: ContourParameters)
    requires NoOverlaps(list, cp.distTol) && AllCircular(list, cp.circTol)
    ensures NoOverlaps(Offered(list, pass, cp), cp.distTol) && AllCircular(Offered(list, pass, cp), cp.circTol)
  {
    AppendedKeepsRegistry(list, pass.particle, |pass.raw|, cp);
    AppendedKeepsRegistry(Appended(list, pass.particle, |pass.raw|, cp), pass.particle, |pass.refined|, cp);
  }

  /** After a pass, every member was a member or is the pass's particle. */
  lemma OfferedMembers(list: seq<Particle>, pass: Pass, cp: ContourParameters)
    ensures forall q :: q in Offered(list, pass, cp) ==> q in list || q == pass.particle
  {
    AppendedMembers(list, pass.particle, |pass.raw|, cp);
    AppendedMembers(Appended(list, pass.particle, |pass.raw|, cp), pass.particle, |pass.refined|, cp);
  }

  lemma {:induction false} MaximumPassesKeepRegistry(list: seq<Particle>, passes: seq<Pass>, cp: ContourParameters)
    requires NoOverlaps(list, cp.distTol) && AllCircular(list, cp.circTol)
    ensures NoOverlaps(MaximumPasses(list, passes, cp), cp.distTol)
    ensures AllCircular(MaximumPasses(list, passes, cp), cp.circTol)
    decreases |passes|
  {
    if |passes| > 0 {
      var k := |passes| - 1;
      MaximumPassesKeepRegistry(list, passes[..k], cp);
      OfferedKeepsRegistry(MaximumPasses(list, passes[..k], cp), passes[k], cp);
    }
  }

  /** After the passes around a maximum, every member was a member or is
      the particle of one of the passes. */
  lemma {:induction false} MaximumPassesMembers(list: seq<Particle>, passes: seq<Pass>, cp: ContourParameters)
    ensures forall q :: q in MaximumPasses(list, passes, cp) ==>
      q in list || exists j :: 0 <= j < |passes| && passes[j].particle == q
    decreases |passes|
  {
    if |passes| > 0 {
      var k := |passes| - 1;
      MaximumPassesMembers(list, passes[..k], cp);
      OfferedMembers(MaximumPasses(list, passes[..k], cp), passes[k], cp);
      assert forall j :: 0 <= j < k ==> passes[..k][j] == passes[j];
    }
  }

  /** A round keeps a registry. */
  lemma {:induction false} RoundKeepsRegistry(list: seq<Particle>, made: seq<seq<Pass>>, cp: ContourParameters)
    requires NoOverlaps(list, cp.distTol) && AllCircular(list, cp.circTol)
    ensures NoOverlaps(RoundFrom(list, made, cp), cp.distTol) && AllCircular(RoundFrom(list, made, cp), cp.circTol)
    decreases |made|
  {
    if |made| > 0 {
      var k := |made| - 1;
      RoundKeepsRegistry(list, made[..k], cp);
      MaximumPassesKeepRegistry(RoundFrom(list, made[..k], cp), made[k], cp);
    }
  }

  /** One pass of analyse's innermost loop on a built contour: a new
      particle is offered to the list, then the same object, its contour
      rid of outliers but its descriptors those of the raw contour, is
      offered again. */
  method TryContour(particlesList: seq<Particle>, contour: Contour, para: Search)
    returns (result: seq<Particle>, particle: Particle)
    ensures fresh(particle)
    ensures MadeFrom(particle, contour)
    ensures particle.contour == OutliersRemoved(contour, OutlierThreshold)
    ensures result == Appended(Appended(particlesList, particle, |contour|, para.contourPara),
                               particle, |particle.contour|, para.contourPara)
  {
    particle := new Particle(contour);
    var added, adjusted;
    result, added := AppendParticle(particlesList, particle, para);
    particle := RemoveOutliers(particle, OutlierThreshold);
    result, adjusted := AppendParticle(result, particle, para);
  }

  /** Pass j around a maximum, after the passes made. */
  method MaximumPass(particlesList: seq<Particle>, ghost made: seq<Pass>, j: nat,
                     maximum: Point, contourAt: (Point, nat) -> Contour, para: Search)
    returns (result: seq<Particle>, ghost pass: Pass)
    requires j == |made| && MadeAlong(made, maximum, contourAt)
    ensures fresh(pass.particle) && pass.particle.contour == pass.refined
    ensures MadeAlong(made + [pass], maximum, contourAt)
    ensures result == Offered(particlesList, pass, para.contourPara)
    ensures forall p :: p in result ==> p in particlesList || p == pass.particle
  {
    var contour := contourAt(maximum, j);
    var particle;
    result, particle := TryContour(particlesList, contour, para);
    pass := Pass(particle, contour, particle.contour);
    MadeAlongStep(made, pass, maximum, contourAt);
    OfferedMembers(particlesList, pass, para.contourPara);
  }

  /** The loop of analyse over the two edges maps for one maximum; the
      contour built from edges map j around a maximum is contourAt(maximum,
      j). The second map is skipped without colour differences. made[j] is
      the pass on map j; its particle holds the refined contour. */
  method ExamineMaximum(particlesList: seq<Particle>, maximum: Point,
                        contourAt: (Point, nat) -> Contour, para: Search)
    returns (result: seq<Particle>, ghost made: seq<Pass>)
    ensures BuiltAround(made, maximum, contourAt, para)
    ensures forall j :: 0 <= j < |made| ==> fresh(made[j].particle) && made[j].particle.contour == made[j].refined
    ensures result == MaximumPasses(particlesList, made, para.contourPara)
    ensures forall p :: p in result ==> p in particlesList || fresh(p)
  {
    result := particlesList;
    made := [];
    var j := 0;
    while j < 2
      invariant 0 <= j <= 2 && |made| == j
      invariant j <= PassesPerMaximum(para)
      invariant MadeAlong(made, maximum, contourAt)
      invariant forall k :: 0 <= k < j ==> fresh(made[k].particle) && made[k].particle.contour == made[k].refined
      invariant result == MaximumPasses(particlesList, made, para.contourPara)
      invariant forall p :: p in result ==> p in particlesList || fresh(p)
    {
      if j == 1 && !para.useColorDifferences {
        break;
      }
      ghost var pass;
      result, pass := MaximumPass(result, made, j, maximum, contourAt, para);
      MaximumPassesStep(particlesList, made, pass, para.contourPara);
      made := made + [pass];
      j := j + 1;
    }
  }

  /** The loop of analyse over the maxima of one round; made[m] holds the
      passes around maxima[m]. */
  method RunRound(particlesList: seq<Particle>, maxima: seq<Point>,
                  contourAt: (Point, nat) -> Contour, para: Search)
    returns (result: seq<Particle>, ghost made: seq<seq<Pass>>)
    ensures |made| == |maxima| && BuiltInRound(made, maxima, contourAt, para)
    ensures forall m, j :: 0 <= m < |made| && 0 <= j < |made[m]| ==> fresh(made[m][j].particle)
    ensures result == RoundFrom(particlesList, made, para.contourPara)
    ensures forall p :: p in result ==> p in particlesList || fresh(p)
  {
    result := particlesList;
    made := [];
    for k := 0 to |maxima|
      invariant |made| == k && BuiltInRound(made, maxima, contourAt, para)
      invariant forall m, j :: 0 <= m < k && 0 <= j < |made[m]| ==> fresh(made[m][j].particle)
      invariant result == RoundFrom(particlesList, made, para.contourPara)
      invariant forall p :: p in result ==> p in particlesList || fresh(p)
    {
      ghost var passes;
      result, passes := ExamineMaximum(result, maxima[k], contourAt, para);
      BuiltInRoundStep(made, passes, maxima, contourAt, para);
      RoundFromStep(particlesList, made, passes, para.contourPara);
      made := made + [passes];
    }
  }

  /** analyse: iterations + 1 rounds, the first without and the later ones
      with a found particle as template; a later round that finds the list
      empty ends the search. The maxima find_matches returns in round i are
      maximaOf(i). The ghost results trace the search: starts[i] is the
      list round i starts from, and made[i][m] the passes around the m-th
      maximum of round i. */
  method Analyse(particlesList: seq<Particle>, para: Search,
                 maximaOf: nat -> seq<Point>, contourAt: (Point, nat) -> Contour)
    returns (result: seq<Particle>, ghost rounds: nat,
             ghost starts: seq<seq<Particle>>, ghost made: seq<seq<seq<Pass>>>)
    ensures |made| == rounds
    ensures AnalysedFrom(particlesList, result, starts, made, maximaOf, contourAt, para)
    ensures forall i, m, j :: 0 <= i < rounds && 0 <= m < |made[i]| && 0 <= j < |made[i][m]| ==>
      fresh(made[i][m][j].particle)
    ensures forall p :: p in result ==> p in particlesList || fresh(p)
    ensures NoOverlaps(particlesList, para.contourPara.distTol) && AllCircular(particlesList, para.contourPara.circTol)
      ==> NoOverlaps(result, para.contourPara.distTol) && AllCircular(result, para.contourPara.circTol)
  {
    var n := para.iterations + 1;
    result := particlesList;
    rounds := 0;
    starts := [particlesList];
    made := [];
    var i := 0;
    while i < n
      invariant rounds == i <= Max(0, n) && |made| == i
      invariant Traced(starts, made, maximaOf, contourAt, para)
      invariant starts[0] == particlesList && starts[i] == result
      invariant forall r :: 1 <= r < i ==> starts[r] != []
      invariant forall r, m, j :: 0 <= r < i && 0 <= m < |made[r]| && 0 <= j < |made[r][m]| ==>
        fresh(made[r][m][j].particle)
      invariant forall p :: p in result ==> p in particlesList || fresh(p)
      invariant NoOverlaps(particlesList, para.contourPara.distTol) && AllCircular(particlesList, para.contourPara.circTol)
        ==> NoOverlaps(result, para.contourPara.distTol) && AllCircular(result, para.contourPara.circTol)
    {
      if i != 0 && |result| == 0 {
        break;
      }
      ghost var start := result;
      ghost var roundMade;
      result, roundMade := RunRound(result, maximaOf(i), contourAt, para);
      if NoOverlaps(particlesList, para.contourPara.distTol) && AllCircular(particlesList, para.contourPara.circTol) {
        RoundKeepsRegistry(start, roundMade, para.contourPara);
      }
      TracedStep(starts, made, roundMade, maximaOf, contourAt, para);
      starts := starts + [result];
      made := made + [roundMade];
      i := i + 1;
      rounds := rounds + 1;
    }
  }
}
