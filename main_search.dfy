/** The driver of main.py: every image is searched once per search setting,
    the particles each search finds are merged into the image's list with
    that search's settings, and the pixel-to-unit factor is calibrated on the
    particles of chosen images. Loading the images is I/O; the maxima and
    contours analyse works from are inputs (see AnalyseImage). */
module MainSearch {
  import opened Common
  import opened Geometry
  import opened Settings
  import opened Descriptors
  import opened Registry
  import opened AnalyseImage

  // ---------------------------------------------------------------------
  // Merging the searches of one image

  /** The particles of a list of lists. */
  ghost function Objects(lists: seq<seq<Particle>>): set<Particle>
    decreases |lists|
  {
    if |lists| == 0 then {}
    else Objects(lists[..|lists| - 1]) + Members(lists[|lists| - 1])
  }

  /** A list one search returned: no two members overlap and each is
      circular enough, for that search's tolerances. */
  ghost predicate Registered(list: seq<Particle>, para: Search)
  {
    NoOverlaps(list, para.contourPara.distTol) && AllCircular(list, para.contourPara.circTol)
  }

  /** The collaborators of search j of image i, as analyse sees them. */
  function MaximaOfSearch(maximaOf: (nat, nat, nat) -> seq<Point>, i: nat, j: nat): nat -> seq<Point>
  {
    (r: nat) => maximaOf(i, j, r)
  }

  function ContourAtSearch(contourAt: (nat, nat, Point, nat) -> Contour, i: nat, j: nat): (Point, nat) -> Contour
  {
    (m: Point, e: nat) => contourAt(i, j, m, e)
  }

  /** The trace of one call of analyse: the list each round starts from
      and the passes it makes (see AnalyseImage.Traced). */
  datatype SearchRun = SearchRun(starts: seq<seq<Particle>>, made: seq<seq<seq<Pass>>>)

  /** particles is what analyse returns from an empty list for the
      settings para and the collaborators maximaOf and contourAt, by the
      rounds of run. */
  ghost predicate Searched(particles: seq<Particle>, run: SearchRun, para: Search,
                           maximaOf: nat -> seq<Point>, contourAt: (Point, nat) -> Contour)
  {
    AnalysedFrom([], particles, run.starts, run.made, maximaOf, contourAt, para)
  }

  ghost function Members(s: seq<Particle>): set<Particle>
  {
    set p | p in s
  }

  /** append_particle applied to every particle of found, in order,
      starting from acc. */
  function MergeFrom(acc: seq<Particle>, found: seq<Particle>, para: ContourParameters): seq<Particle>
    reads found
    decreases |found|
  {
    if |found| == 0 then acc
    else MergeFrom(Appended(acc, found[0], |found[0].contour|, para), found[1..], para)
  }

  /** The list of an image after the searches whose results are lists, the
      search j run with settings[j]. */
  function MergeSearches(lists: seq<seq<Particle>>, settings: seq<Search>): seq<Particle>
    requires |lists| <= |settings|
    reads Objects(lists)
    decreases |lists|
  {
    if |lists| == 0 then []
    else
      var k := |lists| - 1;
      MergeFrom(MergeSearches(lists[..k], settings), lists[k], settings[k].contourPara)
  }

  /** Every member of a merged list was already a member or was found. */
  lemma {:induction false} MergeFromMembers(acc: seq<Particle>, found: seq<Particle>, para: ContourParameters)
    ensures forall p :: p in MergeFrom(acc, found, para) ==> p in acc || p in found
    decreases |found|
  {
    if |found| > 0 {
      var next := Appended(acc, found[0], |found[0].contour|, para);
      AppendedMembers(acc, found[0], |found[0].contour|, para);
      MergeFromMembers(next, found[1..], para);
    }
  }

  /** Merging with one setting keeps a list free of overlapping and of
      insufficiently circular members. */
  lemma {:induction false} MergeFromKeepsRegistry(acc: seq<Particle>, found: seq<Particle>, para: ContourParameters)
    requires NoOverlaps(acc, para.distTol) && AllCircular(acc, para.circTol)
    ensures NoOverlaps(MergeFrom(acc, found, para), para.distTol)
    ensures AllCircular(MergeFrom(acc, found, para), para.circTol)
    decreases |found|
  {
    if |found| > 0 {
      AppendedKeepsRegistry(acc, found[0], |found[0].contour|, para);
      MergeFromKeepsRegistry(Appended(acc, found[0], |found[0].contour|, para), found[1..], para);
    }
  }

  /** When every search of an image uses the same contour settings, the
      image's list holds no two overlapping particles and only circular
      enough ones, whatever the searches found. */
  lemma {:induction false} SharedSettingsRegistry(lists: seq<seq<Particle>>, settings: seq<Search>, para: ContourParameters)
    requires |lists| <= |settings|
    requires forall j :: 0 <= j < |settings| ==> settings[j].contourPara == para
    ensures NoOverlaps(MergeSearches(lists, settings), para.distTol)
    ensures AllCircular(MergeSearches(lists, settings), para.circTol)
    decreases |lists|
  {
    if |lists| > 0 {
      var k := |lists| - 1;
      SharedSettingsRegistry(lists[..k], settings, para);
      MergeFromKeepsRegistry(MergeSearches(lists[..k], settings), lists[k], para);
    }
  }

  /** The per-image loop of search: the list of image i starts empty, and
      after each search (analyse from an empty list, with the search's
      collaborators maximaOf(i, j, _) and contourAt(i, j, _, _)) the particles
      found are merged in. particlesList gets one list per image, in image
      order; the ghost result found records what each search returned. */
  method SearchImages(nImages: nat, settings: seq<Search>,
                      maximaOf: (nat, nat, nat) -> seq<Point>,
                      contourAt: (nat, nat, Point, nat) -> Contour)
    returns (particlesList: seq<seq<Particle>>, ghost found: seq<seq<seq<Particle>>>,
             ghost runs: seq<seq<SearchRun>>)
    ensures |particlesList| == nImages && |found| == nImages && |runs| == nImages
    ensures forall i :: 0 <= i < nImages ==> |found[i]| == |settings| && |runs[i]| == |settings|
    ensures forall i :: 0 <= i < nImages ==> particlesList[i] == MergeSearches(found[i], settings)
    ensures forall i, j :: 0 <= i < nImages && 0 <= j < |settings| ==>
      Registered(found[i][j], settings[j])
    ensures forall i, j :: 0 <= i < nImages && 0 <= j < |settings| ==>
      Searched(found[i][j], runs[i][j], settings[j], MaximaOfSearch(maximaOf, i, j), ContourAtSearch(contourAt, i, j))
  {
    particlesList := [];
    found := [];
    runs := [];
    for i: nat := 0 to nImages
      invariant |particlesList| == i && |found| == i && |runs| == i
      invariant forall k :: 0 <= k < i ==> |found[k]| == |settings| && |runs[k]| == |settings|
      invariant forall k :: 0 <= k < i ==> particlesList[k] == MergeSearches(found[k], settings)
      invariant forall k, j :: 0 <= k < i && 0 <= j < |settings| ==>
        Registered(found[k][j], settings[j])
      invariant forall k, j :: 0 <= k < i && 0 <= j < |settings| ==>
        Searched(found[k][j], runs[k][j], settings[j], MaximaOfSearch(maximaOf, k, j), ContourAtSearch(contourAt, k, j))
      invariant forall k, p :: 0 <= k < i && p in Objects(found[k]) ==> allocated(p)
    {
      particlesList, found, runs := ImageStep(i, settings, maximaOf, contourAt, particlesList, found, runs);
    }
  }

  /** One pass of the loop of search over the images: the searches of
      image i run and its list is appended. The lists of the earlier images
      are not affected. */
  method ImageStep(i: nat, settings: seq<Search>,
                   maximaOf: (nat, nat, nat) -> seq<Point>,
                   contourAt: (nat, nat, Point, nat) -> Contour,
                   particlesList: seq<seq<Particle>>, ghost found: seq<seq<seq<Particle>>>,
                   ghost runs: seq<seq<SearchRun>>)
    returns (extended: seq<seq<Particle>>, ghost found': seq<seq<seq<Particle>>>,
             ghost runs': seq<seq<SearchRun>>)
    requires |particlesList| == i && |found| == i && |runs| == i
    requires forall k :: 0 <= k < i ==> |found[k]| == |settings| && |runs[k]| == |settings|
    requires forall k :: 0 <= k < i ==> particlesList[k] == MergeSearches(found[k], settings)
    requires forall k, j :: 0 <= k < i && 0 <= j < |settings| ==> Registered(found[k][j], settings[j])
    requires forall k, j :: 0 <= k < i && 0 <= j < |settings| ==>
      Searched(found[k][j], runs[k][j], settings[j], MaximaOfSearch(maximaOf, k, j), ContourAtSearch(contourAt, k, j))
    requires forall k, p :: 0 <= k < i && p in Objects(found[k]) ==> allocated(p)
    ensures |extended| == i + 1 && |found'| == i + 1 && |runs'| == i + 1
    ensures extended[..i] == particlesList && found'[..i] == found && runs'[..i] == runs
    ensures forall k :: 0 <= k <= i ==> |found'[k]| == |settings| && |runs'[k]| == |settings|
    ensures forall k :: 0 <= k <= i ==> extended[k] == MergeSearches(found'[k], settings)
    ensures forall k, j :: 0 <= k <= i && 0 <= j < |settings| ==> Registered(found'[k][j], settings[j])
    ensures forall k, j :: 0 <= k <= i && 0 <= j < |settings| ==>
      Searched(found'[k][j], runs'[k][j], settings[j], MaximaOfSearch(maximaOf, k, j), ContourAtSearch(contourAt, k, j))
    ensures forall k, p :: 0 <= k <= i && p in Objects(found'[k]) ==> allocated(p)
  {
    var particlesImg;
    ghost var lists, trace;
    label before:
    particlesImg, lists, trace := SearchImage(i, settings, maximaOf, contourAt);
    forall k | 0 <= k < i
      ensures MergeSearches(found[k], settings) == old@before(MergeSearches(found[k], settings))
    {
      assert forall p :: p in Objects(found[k]) ==> old@before(allocated(p));
    }
    extended := particlesList + [particlesImg];
    found' := found + [lists];
    runs' := runs + [trace];
    SearchesExtended(i, settings, maximaOf, contourAt, found, runs, lists, trace);
    forall k, p | 0 <= k <= i && p in Objects(found'[k]) ensures allocated(p) {
      if k < i {
        assert found'[k] == found[k];
      } else {
        assert found'[k] == lists;
      }
    }
  }

  /** Appending the searches of image i keeps, for every image so far,
      each search's list a registry and a run of analyse. */
  lemma SearchesExtended(i: nat, settings: seq<Search>,
                         maximaOf: (nat, nat, nat) -> seq<Point>,
                         contourAt: (nat, nat, Point, nat) -> Contour,
                         found: seq<seq<seq<Particle>>>, runs: seq<seq<SearchRun>>,
                         lists: seq<seq<Particle>>, trace: seq<SearchRun>)
    requires |found| == i && |runs| == i && |lists| == |settings| && |trace| == |settings|
    requires forall k :: 0 <= k < i ==> |found[k]| == |settings| && |runs[k]| == |settings|
    requires forall k, j :: 0 <= k < i && 0 <= j < |settings| ==> Registered(found[k][j], settings[j])
    requires forall k, j :: 0 <= k < i && 0 <= j < |settings| ==>
      Searched(found[k][j], runs[k][j], settings[j], MaximaOfSearch(maximaOf, k, j), ContourAtSearch(contourAt, k, j))
    requires forall j :: 0 <= j < |settings| ==> Registered(lists[j], settings[j])
    requires forall j :: 0 <= j < |settings| ==>
      Searched(lists[j], trace[j], settings[j], MaximaOfSearch(maximaOf, i, j), ContourAtSearch(contourAt, i, j))
    ensures forall k, j :: 0 <= k <= i && 0 <= j < |settings| ==> Registered((found + [lists])[k][j], settings[j])
    ensures forall k, j :: 0 <= k <= i && 0 <= j < |settings| ==>
      Searched((found + [lists])[k][j], (runs + [trace])[k][j], settings[j],
               MaximaOfSearch(maximaOf, k, j), ContourAtSearch(contourAt, k, j))
  {
    forall k, j | 0 <= k <= i && 0 <= j < |settings|
      ensures Registered((found + [lists])[k][j], settings[j])
      ensures Searched((found + [lists])[k][j], (runs + [trace])[k][j], settings[j],
                       MaximaOfSearch(maximaOf, k, j), ContourAtSearch(contourAt, k, j))
    {
      if k < i {
        assert (found + [lists])[k] == found[k] && (runs + [trace])[k] == runs[k];
      } else {
        assert (found + [lists])[k] == lists && (runs + [trace])[k] == trace;
      }
    }
  }

  /** The searches of image i, one per setting. */
  method SearchImage(i: nat, settings: seq<Search>,
                     maximaOf: (nat, nat, nat) -> seq<Point>,
                     contourAt: (nat, nat, Point, nat) -> Contour)
    returns (particlesImg: seq<Particle>, ghost lists: seq<seq<Particle>>, ghost trace: seq<SearchRun>)
    ensures |lists| == |settings| && |trace| == |settings|
    ensures particlesImg == MergeSearches(lists, settings)
    ensures forall j :: 0 <= j < |lists| ==>
      Registered(lists[j], settings[j])
    ensures forall j :: 0 <= j < |lists| ==>
      Searched(lists[j], trace[j], settings[j], MaximaOfSearch(maximaOf, i, j), ContourAtSearch(contourAt, i, j))
    ensures forall p :: p in Objects(lists) ==> allocated(p)
  {
    particlesImg := [];
    lists := [];
    trace := [];
    for j: nat := 0 to |settings|
      invariant |lists| == j && |trace| == j
      invariant particlesImg == MergeSearches(lists, settings)
      invariant forall k :: 0 <= k < j ==>
        Registered(lists[k], settings[k])
      invariant forall k :: 0 <= k < j ==>
        Searched(lists[k], trace[k], settings[k], MaximaOfSearch(maximaOf, i, k), ContourAtSearch(contourAt, i, k))
      invariant forall p :: p in Objects(lists) ==> allocated(p)
    {
      particlesImg, lists, trace := SearchStep(i, j, settings, maximaOf, contourAt, particlesImg, lists, trace);
    }
  }

  /** One pass of the loop of search over the settings: search j, the
      one after those that returned lists, runs and its particles are
      merged into the image's list. */
  method SearchStep(i: nat, j: nat, settings: seq<Search>,
                    maximaOf: (nat, nat, nat) -> seq<Point>,
                    contourAt: (nat, nat, Point, nat) -> Contour,
                    particlesImg: seq<Particle>, ghost lists: seq<seq<Particle>>, ghost trace: seq<SearchRun>)
    returns (merged: seq<Particle>, ghost lists': seq<seq<Particle>>, ghost trace': seq<SearchRun>)
    requires j == |lists| == |trace| < |settings|
    requires forall k :: 0 <= k < j ==> Registered(lists[k], settings[k])
    requires forall k :: 0 <= k < j ==>
      Searched(lists[k], trace[k], settings[k], MaximaOfSearch(maximaOf, i, k), ContourAtSearch(contourAt, i, k))
    requires particlesImg == MergeSearches(lists, settings)
    requires forall p :: p in Objects(lists) ==> allocated(p)
    ensures |lists'| == |lists| + 1 && lists'[..|lists|] == lists
    ensures |trace'| == |trace| + 1 && trace'[..|trace|] == trace
    ensures forall k :: 0 <= k <= j ==> Registered(lists'[k], settings[k])
    ensures forall k :: 0 <= k <= j ==>
      Searched(lists'[k], trace'[k], settings[k], MaximaOfSearch(maximaOf, i, k), ContourAtSearch(contourAt, i, k))
    ensures merged == MergeSearches(lists', settings)
    ensures forall p :: p in Objects(lists') ==> allocated(p)
  {
    label before:
    ghost var starts, made;
    var particles;
    particles, starts, made := RunSearch(i, j, settings[j], maximaOf, contourAt);
    assert MergeSearches(lists, settings) == old@before(MergeSearches(lists, settings)) by {
      assert forall p :: p in Objects(lists) ==> old@before(allocated(p));
    }
    merged := MergeParticles(particlesImg, particles, settings[j]);
    lists' := lists + [particles];
    trace' := trace + [SearchRun(starts, made)];
    assert lists'[..j] == lists;
    forall k | 0 <= k <= j
      ensures Registered(lists'[k], settings[k])
      ensures Searched(lists'[k], trace'[k], settings[k], MaximaOfSearch(maximaOf, i, k), ContourAtSearch(contourAt, i, k))
    {
      if k < j {
        assert lists'[k] == lists[k] && trace'[k] == trace[k];
      } else {
        assert lists'[k] == particles && trace'[k] == SearchRun(starts, made);
      }
    }
    assert Objects(lists') == Objects(lists) + Members(particles);
  }

  /** One call of analyse for image i and search j, from an empty list:
      the ghost trace starts/made is the run of analyse that returned
      particles, and those form a registry for that search's tolerances. */
  method RunSearch(i: nat, j: nat, para: Search,
                   maximaOf: (nat, nat, nat) -> seq<Point>,
                   contourAt: (nat, nat, Point, nat) -> Contour)
    returns (particles: seq<Particle>, ghost starts: seq<seq<Particle>>, ghost made: seq<seq<seq<Pass>>>)
    ensures AnalysedFrom([], particles, starts, made, MaximaOfSearch(maximaOf, i, j), ContourAtSearch(contourAt, i, j), para)
    ensures Searched(particles, SearchRun(starts, made), para, MaximaOfSearch(maximaOf, i, j), ContourAtSearch(contourAt, i, j))
    ensures Registered(particles, para)
  {
    ghost var rounds;
    particles, rounds, starts, made := Analyse([], para, MaximaOfSearch(maximaOf, i, j), ContourAtSearch(contourAt, i, j));
  }

  /** The loop of search over the particles one search found. */
  method MergeParticles(particlesImg: seq<Particle>, particles: seq<Particle>, para: Search)
    returns (result: seq<Particle>)
    ensures result == MergeFrom(particlesImg, particles, para.contourPara)
  {
    result := particlesImg;
    for k := 0 to |particles|
      invariant MergeFrom(result, particles[k..], para.contourPara) == MergeFrom(particlesImg, particles, para.contourPara)
    {
      assert particles[k..][1..] == particles[k + 1..];
      var added;
      result, added := AppendParticle(result, particles[k], para);
    }
  }

  // ---------------------------------------------------------------------
  // Calibration

  /** The radii of a list of particles, in order. */
  function RadiiOf(ps: seq<Particle>): (r: seq<real>)
    ensures |r| == |ps|
    ensures forall k :: 0 <= k < |ps| ==> r[k] == ps[k].radius
  {
    seq(|ps|, k requires 0 <= k < |ps| => ps[k].radius)
  }

  /** The radii of the particles of the calibration images, in the order
      of the calibration indices; an index that names no image contributes
      nothing. */
  function CalibrationRadii(particlesList: seq<seq<Particle>>, indices: seq<int>): seq<real>
    decreases |indices|
  {
    if |indices| == 0 then []
    else
      var index := indices[|indices| - 1];
      CalibrationRadii(particlesList, indices[..|indices| - 1])
        + (if 0 <= index < |particlesList| then RadiiOf(particlesList[index]) else [])
  }

  /** The pixel-to-unit factor search computes: 1 without calibration
      particles, and otherwise the calibration radius over the average
      radius found. None stands for the division by a zero average. */
  function PixelToUnitValue(particlesList: seq<seq<Particle>>, indices: seq<int>, calibrationRadius: real): Option<real>
  {
    var radii := CalibrationRadii(particlesList, indices);
    if |radii| == 0 then Some(1.0)
    else if Sum(radii) / |radii| as real == 0.0 then None
    else Some(calibrationRadius / (Sum(radii) / |radii| as real))
  }

  /** Indices outside the list of images are skipped. */
  lemma {:induction false} OutOfRangeSkipped(particlesList: seq<seq<Particle>>, indices: seq<int>, extra: seq<int>)
    requires forall k :: 0 <= k < |extra| ==> !(0 <= extra[k] < |particlesList|)
    ensures CalibrationRadii(particlesList, indices + extra) == CalibrationRadii(particlesList, indices)
    decreases |extra|
  {
    if |extra| > 0 {
      var init := extra[..|extra| - 1];
      var all := indices + extra;
      assert all[..|all| - 1] == indices + init;
      assert all[|all| - 1] == extra[|extra| - 1];
      assert !(0 <= all[|all| - 1] < |particlesList|);
      OutOfRangeSkipped(particlesList, indices, init);
      assert CalibrationRadii(particlesList, all) == CalibrationRadii(particlesList, all[..|all| - 1]) + [];
    } else {
      assert indices + extra == indices;
    }
  }

  /** No calibration particle, because every index names no image or an
      image without particles, leaves the factor at 1. */
  lemma {:induction false} NoCalibrationParticles(particlesList: seq<seq<Particle>>, indices: seq<int>, calibrationRadius: real)
    requires forall k :: 0 <= k < |indices| ==>
      !(0 <= indices[k] < |particlesList|) || |particlesList[indices[k]]| == 0
    ensures CalibrationRadii(particlesList, indices) == []
    ensures PixelToUnitValue(particlesList, indices, calibrationRadius) == Some(1.0)
    decreases |indices|
  {
    if |indices| > 0 {
      NoCalibrationParticles(particlesList, indices[..|indices| - 1], calibrationRadius);
    }
  }

  /** With calibration particles of positive radius the factor exists and
      scales their average radius to the calibration radius. */
  lemma CalibratedFactor(particlesList: seq<seq<Particle>>, indices: seq<int>, calibrationRadius: real)
    requires 0 < |CalibrationRadii(particlesList, indices)|
    requires forall k :: 0 <= k < |CalibrationRadii(particlesList, indices)| ==>
      0.0 < CalibrationRadii(particlesList, indices)[k]
    ensures PixelToUnitValue(particlesList, indices, calibrationRadius).Some?
    ensures var radii := CalibrationRadii(particlesList, indices);
      PixelToUnitValue(particlesList, indices, calibrationRadius).value * (Sum(radii) / |radii| as real)
        == calibrationRadius
  {
    var radii := CalibrationRadii(particlesList, indices);
    SumPositive(radii);
    var average := Sum(radii) / |radii| as real;
    assert 0.0 < average;
    assert calibrationRadius / average * average == calibrationRadius;
  }

  lemma {:induction false} SumPositive(s: seq<real>)
    requires 0 < |s| && forall k :: 0 <= k < |s| ==> 0.0 < s[k]
    ensures 0.0 < Sum(s)
    decreases |s|
  {
    var init := s[..|s| - 1];
    if |init| > 0 {
      SumPositive(init);
    } else {
      assert Sum(init) == 0.0;
    }
  }

  /** The calibration loops of search: a count and a sum of the radii of
      the particles of the images named by valid calibration indices. */
  method PixelToUnit(particlesList: seq<seq<Particle>>, indices: seq<int>, calibrationRadius: real)
    returns (pixelToUnit: Option<real>)
    ensures pixelToUnit == PixelToUnitValue(particlesList, indices, calibrationRadius)
  {
    var particleCount := 0;
    var sumOfRadii := 0.0;
    for k := 0 to |indices|
      invariant particleCount == |CalibrationRadii(particlesList, indices[..k])|
      invariant sumOfRadii == Sum(CalibrationRadii(particlesList, indices[..k]))
    {
      var index := indices[k];
      ghost var added := if 0 <= index < |particlesList| then RadiiOf(particlesList[index]) else [];
      assert indices[..k + 1][..k] == indices[..k];
      assert CalibrationRadii(particlesList, indices[..k + 1]) == CalibrationRadii(particlesList, indices[..k]) + added;
      SumConcat(CalibrationRadii(particlesList, indices[..k]), added);
      if 0 <= index < |particlesList| {
        particleCount, sumOfRadii := AccumulateRadii(particlesList[index], particleCount, sumOfRadii);
      }
    }
    assert indices[..|indices|] == indices;
    if particleCount != 0 {
      var averageRadius := sumOfRadii / particleCount as real;
      if averageRadius == 0.0 {
        pixelToUnit := None;
      } else {
        pixelToUnit := Some(calibrationRadius / averageRadius);
      }
    } else {
      pixelToUnit := Some(1.0);
    }
  }

  /** The inner calibration loop over the particles of one image, adding
      to the running count and sum. */
  method AccumulateRadii(ps: seq<Particle>, count0: nat, sum0: real) returns (count: nat, sum: real)
    ensures count == count0 + |ps|
    ensures sum == sum0 + Sum(RadiiOf(ps))
  {
    count, sum := count0, sum0;
    for m := 0 to |ps|
      invariant count == count0 + m
      invariant sum == sum0 + Sum(RadiiOf(ps)[..m])
    {
      SumStep(RadiiOf(ps), m);
      count := count + 1;
      sum := sum + ps[m].radius;
    }
    assert RadiiOf(ps)[..|ps|] == RadiiOf(ps);
  }
}
