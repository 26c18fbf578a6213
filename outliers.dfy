/** Outlier points of a contour (get_outliers in analyseContour.py).

    A point is tested on two standard scores: z1, its distance to the center
    against the given mean radius and deviation, and z2, the change of that
    distance from the point before it against the contour's own difference
    deviation. A point with a large z1 is an outlier; a point with only a
    large z2 makes an outlier of whichever of the two consecutive points lies
    further from the mean radius (the earlier one on a tie). */
module Outliers {
  import opened Common
  import opened RealMath
  import opened Geometry
  import opened Descriptors
  import opened Statistics

  /** The decision taken at point i of n from its two standard scores z1
      and z2 and its and its predecessor's deviations r1 and r2 from the
      mean radius. */
  function Decide(i: nat, n: nat, z1: real, z2: real, r1: real, r2: real, thresh: real): (f: Option<nat>)
    requires i < n
    ensures f.Some? <==> Abs(z1) > thresh || Abs(z2) > thresh
    ensures f.Some? ==> f.value == i || f.value == PrevIndex(n, i)
    ensures Abs(z1) > thresh ==> f == Some(i)
    ensures Abs(z1) <= thresh && Abs(r1) > Abs(r2) && f.Some? ==> f.value == i
    ensures Abs(z1) <= thresh && Abs(r1) <= Abs(r2) && f.Some? ==> f.value == PrevIndex(n, i)
  {
    if Abs(z1) > thresh then Some(i)
    else if Abs(z2) > thresh then
      if Abs(r1) > Abs(r2) then Some(i) else Some(PrevIndex(n, i))
    else None
  }

  /** The index flagged while visiting point i, given the distances of all
      points to the center. */
  function FlagAt(radii: seq<real>, i: nat, r: real, sd: real, diffSd: real, thresh: real): Option<nat>
    requires i < |radii| && sd != 0.0 && diffSd != 0.0
  {
    var radius := radii[i];
    var prevRadius := radii[PrevIndex(|radii|, i)];
    Decide(i, |radii|, (radius - r) / sd, (radius - prevRadius) / diffSd, radius - r, prevRadius - r, thresh)
  }

  /** The decision taken at every point, in contour order. */
  function Flags(radii: seq<real>, r: real, sd: real, diffSd: real, thresh: real): (s: seq<Option<nat>>)
    requires sd != 0.0 && diffSd != 0.0
    ensures |s| == |radii|
    ensures forall i :: 0 <= i < |radii| ==> s[i] == FlagAt(radii, i, r, sd, diffSd, thresh)
  {
    seq(|radii|, i requires 0 <= i < |radii| => FlagAt(radii, i, r, sd, diffSd, thresh))
  }

  /** What get_outliers returns. Given a non-zero deviation sd, the program
      reads the last point and divides by the contour's difference
      deviation, so it needs a non-empty contour whose difference deviation
      is not zero. */
  function Outliers(c: Contour, r: real, sd: real, thresh: real): seq<nat>
    requires sd != 0.0 ==> 0 < |c| && RadialDifferenceSd(c) != 0.0
  {
    if sd == 0.0 then []
    else
      var flags := Flags(Radii(c, Center(c)), r, sd, RadialDifferenceSd(c), thresh);
      SortedUnique(SomesUpTo(flags, |c|), |c|)
  }

  /** The flagged indices, de-duplicated and sorted, are strictly
      ascending, are valid indices, and are exactly those flagged at some
      point. */
  lemma FlaggedSpec(radii: seq<real>, r: real, sd: real, diffSd: real, thresh: real)
    requires sd != 0.0 && diffSd != 0.0
    ensures StrictlyIncreasing(SortedUnique(SomesUpTo(Flags(radii, r, sd, diffSd, thresh), |radii|), |radii|))
    ensures forall j :: 0 <= j < |SortedUnique(SomesUpTo(Flags(radii, r, sd, diffSd, thresh), |radii|), |radii|)| ==>
      SortedUnique(SomesUpTo(Flags(radii, r, sd, diffSd, thresh), |radii|), |radii|)[j] < |radii|
    ensures forall x :: x in SortedUnique(SomesUpTo(Flags(radii, r, sd, diffSd, thresh), |radii|), |radii|) <==>
      exists i :: 0 <= i < |radii| && FlagAt(radii, i, r, sd, diffSd, thresh) == Some(x)
  {
    var flags := Flags(radii, r, sd, diffSd, thresh);
    var raw := SomesUpTo(flags, |radii|);
    SomesUpToSpec(flags, |radii|);
    forall j | 0 <= j < |raw| ensures raw[j] < |radii| {
      assert raw[j] in raw;
    }
    SortedUniqueSpec(raw, |radii|);
    var out := SortedUnique(raw, |radii|);
    forall j | 0 <= j < |out| ensures out[j] < |radii| {
      assert out[j] in raw;
    }
  }

  /** The result is empty with a zero deviation; otherwise it lists, in
      strictly ascending order and without repetition, exactly the indices
      flagged at some point, each a valid index of the contour. */
  lemma OutliersSpec(c: Contour, r: real, sd: real, thresh: real)
    requires sd != 0.0 ==> 0 < |c| && RadialDifferenceSd(c) != 0.0
    ensures sd == 0.0 ==> Outliers(c, r, sd, thresh) == []
    ensures StrictlyIncreasing(Outliers(c, r, sd, thresh))
    ensures forall j :: 0 <= j < |Outliers(c, r, sd, thresh)| ==> Outliers(c, r, sd, thresh)[j] < |c|
    ensures sd != 0.0 ==> forall x :: x in Outliers(c, r, sd, thresh) <==>
      exists i :: 0 <= i < |c| && FlagAt(Radii(c, Center(c)), i, r, sd, RadialDifferenceSd(c), thresh) == Some(x)
  {
    if sd != 0.0 {
      FlaggedSpec(Radii(c, Center(c)), r, sd, RadialDifferenceSd(c), thresh);
    }
  }

  /** remove_outliers calls get_outliers with the contour's own radial
      average and deviation; those arguments always meet its needs. */
  lemma OwnStatisticsSuffice(c: Contour)
    ensures RadialSd(c) != 0.0 ==> 0 < |c| && RadialDifferenceSd(c) != 0.0
  {
    Descriptors.SpreadIffSteps(c);
  }

  /** The distances of the points to the center are taken up front, as
      one list, and the loop over the points is FlagPoints. */
  method GetOutliers(c: Contour, r: real, sd: real, thresh: real) returns (outliers: seq<nat>)
    requires sd != 0.0 ==> 0 < |c| && RadialDifferenceSd(c) != 0.0
    ensures outliers == Outliers(c, r, sd, thresh)
  {
    var found: seq<nat> := [];
    if sd != 0.0 {
      var center := GetCenter(c);
      var radii := Radii(c, center);
      var diffVariance := GetRadialDifferenceVariance(c);
      var diffSd := Sqrt(diffVariance);
      found := FlagPoints(radii, r, sd, diffSd, thresh);
    } else {
      SortedUniqueSpec(found, |c|);
    }
    outliers := SortedUnique(found, |c|);
  }

  /** The loop of get_outliers over the distances of the points to the
      center. */
  method FlagPoints(radii: seq<real>, r: real, sd: real, diffSd: real, thresh: real)
    returns (found: seq<nat>)
    requires 0 < |radii| && sd != 0.0 && diffSd != 0.0
    ensures found == SomesUpTo(Flags(radii, r, sd, diffSd, thresh), |radii|)
  {
    ghost var flags := Flags(radii, r, sd, diffSd, thresh);
    found := [];
    var prevRadius := radii[|radii| - 1];
    var i := 0;
    while i < |radii|
      invariant 0 <= i <= |radii|
      invariant i < |radii| ==> prevRadius == radii[PrevIndex(|radii|, i)]
      invariant found == SomesUpTo(flags, i)
    {
      var radius := radii[i];
      var z1 := (radius - r) / sd;
      var z2 := (radius - prevRadius) / diffSd;
      assert flags[i] == Decide(i, |radii|, z1, z2, radius - r, prevRadius - r, thresh);
      if Abs(z1) > thresh {
        found := found + [i];
      } else if Abs(z2) > thresh {
        var r1 := radius - r;
        var r2 := prevRadius - r;
        if Abs(r1) > Abs(r2) {
          found := found + [i];
        } else {
          if i != 0 {
            found := found + [i - 1];
          } else {
            found := found + [|radii| - 1];
          }
        }
      }
      i := i + 1;
      prevRadius := radius;
    }
  }
}
