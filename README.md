# PI3 particle detector — a verified model of its core

PI3 finds round particles in photographs. For each image and each search
setting, `analyse` does the following:

- It finds candidate centres as local maxima of a template-matching
  score map.
- It casts rays from each candidate to build a contour of edge points.
- It computes the contour's descriptors: centre, perimeter, area, radius,
  circularity, and the spread of the radii.
- It offers the resulting particle to a registry, `append_particle`. The
  registry refuses particles that are too irregular or too small. When
  two particles overlap, it keeps the more circular one.
- It drops the contour's outlier points and offers the refined particle
  once more.

`search` then does three things. It merges the lists that the searches
of one image returned. It averages the radii found on the calibration
images to obtain a pixel-to-unit factor. It flattens every image's list
into one list for export.

This project models that core in Dafny, one module per concern:

| module | file | models |
|---|---|---|
| `Geometry` | geometry.dfy | pixel points and real vectors |
| `Settings` | settings.dfy | `ContourParameters`, `MatchParameters`, `Search` |
| `RealMath` | real_math.dfy | `abs`, `round`, `sqrt`, `cos`, `pi` |
| `Common` | common.dfy | sums, `list.pop` in reverse index order, sorted-unique |
| `Statistics` | statistics.dfy | mean, variance, consecutive-difference variance |
| `Descriptors` | descriptors.dfy | analyseContour.py descriptors and class `Particle` |
| `DescriptorSymmetry` | descriptor_symmetry.dfy | the descriptors under a change of starting point and under translation |
| `Outliers` | outliers.dfy | `get_outliers` |
| `Registry` | registry.dfy | `append_particle` |
| `ConstructContour` | construct_contour.dfy | `find_radial_edge`, `detect_circle_edge_points` |
| `PointMaps` | point_maps.dfy | `translate_points`, `scale_points` |
| `NumpyOps` | numpy_ops.dfy | `np.amax` / `np.amin` over a window |
| `Optimisation` | optimisation.dfy | `average_value`, `find_local_maxima` |
| `MatchObject` | match_object.dfy | `binarize`, `match_template_full` |
| `AnalyseImage` | analyse_image.dfy | `rescale_image`, `normalize_image`, `obtain_picture`, the template choice of `find_matches`, `remove_outliers`, `analyse` |
| `MainSearch` | main_search.dfy | `search` of main.py |
| `Export` | export.dfy | `convert_particles_data` |

Each part takes the form the Python code has:

- Pure descriptor computations are functions.
- Every Python loop is a `method` with a loop and invariants. Each such
  method is proved equal to a specification function, and the
  properties the code promises are proved about that function as lemmas.
- A particle is a class. Its descriptors are `const` fields, because they
  are set once in the constructor. `contour` is a `var`, because
  `remove_outliers` pops points from it in place.
- Images and masks are `array2<real>`. `binarize` and the masking step
  of `detect_circle_edge_points` change them in place.
- `remove_outliers` changes a particle in place: it reassigns the
  particle's `contour` sequence.

Design choices:

- `append_particle` returns the new list. The Python version changes its
  list in place and returns it, and every caller rebinds the returned
  list, so the two agree.
- The aliasing in `analyse` is kept. The object that was offered first is
  refined in place and offered again. Its stored descriptors stay those of
  the raw contour, while its point count is the refined one.
- The registry reads each candidate's point count when the candidate is
  offered.
- The effect of `analyse` is stated through a ghost trace. Each built
  contour gives a `Pass` value: the particle, the raw contour and the
  refined contour. `Offered`, `MaximumPasses` and `RoundFrom` fold the
  registry over one pass, the passes of one maximum and one round.
  `Traced` ties the list each round starts from to the list it leaves.
- The collaborators that the core only calls are inputs. These are the
  maxima that `find_matches` returns for each round (`maximaOf`), the
  contour built around a maximum from each edges map (`contourAt`), the
  ray directions of `detect_circle_edge_points`, the score map of
  `match_template` and the circle mask.

## Model

| member | source | states |
|---|---|---|
| Descriptors.LineLength | analyseContour.py:30-33 | the distance is non-negative, and zero exactly when the two points coincide |
| Descriptors.TriangleArea | analyseContour.py:36-39 | the area is non-negative, and zero when two vertices coincide |
| Descriptors.Perimeter | analyseContour.py:71-92 | the closed perimeter (including the edge from the last point back to the first) is non-negative |
| Descriptors.Area | analyseContour.py:95-119 | the area summed from the centre's triangles is non-negative |
| Descriptors.Radius | analyseContour.py:122-148 | the radius 2·area/perimeter, corrected by cos(π/n), is non-negative |
| Descriptors.Circularity | analyseContour.py:305-327 | 4π·area/perimeter² is non-negative |
| Descriptors.Radii | analyseContour.py:167-170 | one radius per contour point: that point's distance to the centre |
| Descriptors.RadialAverage | analyseContour.py:151-178 | the mean distance of the points to the centre is non-negative |
| Descriptors.RadialVariance | analyseContour.py:181-209 | the variance of the radii is non-negative |
| Descriptors.RadialSd | analyseContour.py:212-215 | the deviation is non-negative, and zero exactly when the variance is |
| Descriptors.RadialDifferenceVariance | analyseContour.py:218-248 | the mean squared step between consecutive radii (wrapping around) is non-negative |
| Descriptors.RadialDifferenceSd | analyseContour.py:251-254 | the deviation is non-negative, and zero exactly when the step variance is |
| Descriptors.EmptyContourDescriptors | analyseContour.py:53-68 | an empty contour has centre (0, 0) and a zero perimeter, area, radius, circularity, radial average and both variances |
| Descriptors.OnePointContourDescriptors | analyseContour.py:42-148 | a one-point contour has no perimeter, so its centre, area, radius and circularity are all zero |
| Descriptors.OnePointContourPerimeter | analyseContour.py:83-90 | a single point's only edge goes to itself, so the perimeter is 0 |
| Descriptors.SpreadIffSteps | analyseContour.py:276-279 | the radial deviation is zero exactly when the step deviation is, so get_outliers never divides by a zero step deviation once sd ≠ 0 |
| Descriptors.GetPerimeter | analyseContour.py:71-92 | the perimeter loop computes Perimeter |
| Descriptors.GetCenter | analyseContour.py:42-68 | the centroid loop over edge moments computes Center |
| Descriptors.GetArea | analyseContour.py:95-119 | the triangle loop computes Area |
| Descriptors.GetRadius | analyseContour.py:122-148 | computes Radius |
| Descriptors.GetCircularity | analyseContour.py:305-327 | computes Circularity |
| Descriptors.GetRadialAverage | analyseContour.py:151-178 | the moment loop computes RadialAverage |
| Descriptors.GetRadialVariance | analyseContour.py:181-209 | the moment loop computes RadialVariance |
| Descriptors.GetRadialDifferenceVariance | analyseContour.py:218-248 | the loop with the previous radius, starting from the last point's, computes RadialDifferenceVariance |
| DescriptorSymmetry.RotationInvariant | analyseContour.py:42-148 | starting a closed contour at another of its points (a cyclic rotation) leaves its perimeter, centre, area, radius and circularity unchanged |
| DescriptorSymmetry.TranslationInvariant | analyseContour.py:42-254 | moving every point by the same offset leaves perimeter, area, radius and circularity unchanged; with a non-zero perimeter the centre moves by the offset and the radial average and both radial deviations are unchanged, and with a zero perimeter the centre stays (0, 0) |
| Descriptors.Particle.constructor | analyseContour.py:5-27 | the particle stores its contour, and every descriptor field is that descriptor of the contour |
| Common.PrevIndex | analyseContour.py:292-295 | the index before i, wrapping at 0 to the last index |
| Common.SortedUniqueSpec | analyseContour.py:300 | sorted(dict.fromkeys(xs)) is strictly increasing, holds exactly the elements of xs, and is empty for an empty xs |
| Common.PopInReverse | analyseImage.py:308-309 | popping the strictly increasing indices in reverse order leaves exactly the elements at the other indices, in order |
| Common.WithoutSpec | analyseImage.py:308-309 | the list after removal is the original list, read at the indices kept |
| Common.KeptSpec | analyseImage.py:308-309 | the indices kept are strictly increasing and are exactly those in range that were not removed |
| Outliers.Decide | analyseContour.py:284-295 | a point is flagged exactly when one of its z-scores exceeds the threshold. A large z1 flags i. Otherwise the larger of the two deviations decides between i and the previous index |
| Outliers.OutliersSpec | analyseContour.py:274-302 | with sd = 0 there are no outliers. Otherwise the result is strictly increasing, in range, and holds exactly the indices that some point's decision flagged |
| Outliers.FlaggedSpec | analyseContour.py:280-300 | the sorted unique flags are increasing, in range, and exactly the flagged indices |
| Outliers.OwnStatisticsSuffice | analyseImage.py:305-307 | with the contour's own deviation, sd ≠ 0 implies a non-empty contour and a non-zero step deviation (the divisions are safe) |
| Outliers.GetOutliers | analyseContour.py:257-302 | the loop computes Outliers |
| Outliers.FlagPoints | analyseContour.py:280-297 | the loop collects the decisions of the points in order |
| Registry.CenterDistance | analyseContour.py:362 | the distance between two centres is non-negative |
| Registry.FlagsUpToSpec | analyseContour.py:360-370 | the flagged indices are increasing, and are exactly the members that overlap the candidate and are no more circular |
| Registry.BlockedUpToSpec | analyseContour.py:360-368 | the scan is blocked exactly when some member overlaps the candidate and is more circular |
| Registry.BelowThresholdsRefused | analyseContour.py:353-356 | a candidate below the circularity or the point-count threshold is refused, and the list is unchanged |
| Registry.BlockedRefused | analyseContour.py:363-368 | a candidate that a more circular overlapping member blocks is refused, and the list is unchanged |
| Registry.AdmittedShape | analyseContour.py:353-378 | an admitted candidate passes both thresholds and is blocked by no member. Exactly the overlapping, no more circular members are removed (they are all at most as circular), and the candidate is appended last |
| Registry.AppendedKeepsRegistry | analyseContour.py:330-378 | append_particle keeps a list free of overlapping pairs and of members below the circularity threshold |
| Registry.AppendedMembers | analyseContour.py:373-376 | every member of the new list was a member or is the candidate |
| Registry.AppendParticle | analyseContour.py:330-378 | returns the list Appended describes, and whether the candidate was admitted |
| Registry.ScanMembers | analyseContour.py:360-370 | the scan with its break reports whether a member blocks the candidate, and otherwise the indices to pop |
| ConstructContour.SortByValueSpec | constructContour.py:61-63 | the stable descending sort by value is ordered, is a permutation, and keeps the relative order of equal values |
| ConstructContour.RadialEdgeSpec | constructContour.py:19-67 | at most 1000 pixels. Each is an in-grid ray sample above the tolerance and unlike the previous pixel. The result is sorted by value in descending order and is a stable permutation of the pixels found |
| ConstructContour.SomethingAboveTol | constructContour.py:51-56 | a non-empty result means some sample of the ray lies in the grid above the tolerance |
| ConstructContour.OriginStartSkipped | constructContour.py:37-38 | a first sample at pixel (0, 0) equals the initial "previous pixel" and is never recorded |
| ConstructContour.FindRadialEdge | constructContour.py:19-67 | returns the positions of RadialEdge |
| ConstructContour.CastRay | constructContour.py:37-59 | the two direction loops record exactly the pixels of the first direction |
| ConstructContour.Examine | constructContour.py:44-57 | one step of the ray loop is Visit of the rounded sample |
| ConstructContour.HeadsSpec | constructContour.py:160-166 | one point per ray with pixels, each the first of its ray |
| ConstructContour.DetectCircleEdgePoints | constructContour.py:108-166 | the grid is multiplied in place by the shifted mask. The directions are the radial edges of the masked grid, and the points are their heads |
| ConstructContour.FindEdges | constructContour.py:151-166 | one radial edge per direction, and the head of each non-empty edge |
| ConstructContour.ApplyMask | constructContour.py:138-147 | every grid entry becomes its old value times the mask entry at the displaced position |
| PointMaps.Translated | constructContour.py:70-84 | the same number of points, each shifted by the translation |
| PointMaps.TranslatePoints | constructContour.py:81-84 | the loop computes Translated |
| PointMaps.Scaled | constructContour.py:87-105 | the same number of points, each scaled and rounded if asked |
| PointMaps.ScalePoints | constructContour.py:99-105 | the loop computes Scaled |
| PointMaps.ScaleOne | constructContour.py:100-104 | one point scaled, rounded half-to-even when asked |
| NumpyOps.Amax | optimisation.py:47 | the value is attained in the window and no entry there exceeds it |
| NumpyOps.Amin | analyseImage.py:64 | the value is attained in the image and no entry is below it |
| Optimisation.NonZerosSpec | optimisation.py:15-21 | the values averaged are, as a set, exactly the non-zero entries of the array |
| Optimisation.EntriesSpec | optimisation.py:17-18 | the row-major scan lists dim0·dim1 entries, entry (r, j) at position r·dim1 + j |
| Optimisation.DropZerosCounted | optimisation.py:19-21 | dropping the zeros of a list keeps every other entry as often as it occurs (multiset), shortens it by its number of zeros and keeps its sum |
| Optimisation.NonZerosCounted | optimisation.py:15-21 | the values averaged are the image's entries with the zeros removed, as a multiset: count is dim0·dim1 minus the number of zero entries, and total is the sum of the whole image |
| Optimisation.AllZeroAverage | optimisation.py:22-25 | there are no non-zero entries exactly when the array is all zeros, and then the average is 0 |
| Optimisation.ConstantAverage | optimisation.py:15-23 | when every non-zero entry equals v (and one does), the average is v |
| Optimisation.AverageValue | optimisation.py:5-26 | the nested loop computes Average |
| Optimisation.AccumulateRow | optimisation.py:17-21 | the inner loop adds one row's non-zero entries and their count |
| Optimisation.RowMaximaSpec | optimisation.py:45-49 | one row's maxima are exactly its positions that pass the test, in column order |
| Optimisation.MaximaBelowSpec | optimisation.py:44-49 | the maxima of the rows scanned are exactly the positions there that pass the test, in row-major order |
| Optimisation.MaximaSpec | optimisation.py:29-50 | a point is returned exactly when it lies at least order away from the border, reaches the threshold and equals the maximum of its (2·order+1)² window. The points come in row-major order |
| Optimisation.FindLocalMaxima | optimisation.py:29-50 | the loops compute Maxima |
| Optimisation.TestPosition | optimisation.py:46-48 | the test at one position is IsMaximum |
| MatchObject.BinaryValue | matchObject.py:40-45 | the value is 0 or 1, and 1 exactly above the threshold |
| MatchObject.BinaryIdempotent | matchObject.py:36-46 | with a threshold in [0, 1), binarizing twice equals binarizing once |
| MatchObject.Binarize | matchObject.py:36-46 | every entry becomes its binary value in place, and the same image is returned |
| MatchObject.MatchTemplateFull | matchObject.py:49-71 | a new zero map of the image's size, holding the score map in the window at the template's half size |
| AnalyseImage.Clamp | analyseImage.py:197-200 | a clamped coordinate lies in [0, size] |
| AnalyseImage.PictureWindowBounds | analyseImage.py:195-204 | for a non-negative half size, the window's corners lie inside the image and are ordered |
| AnalyseImage.ObtainPicture | analyseImage.py:176-209 | returns the window's corner, the centre relative to that corner, and a fresh copy of the window's entries |
| AnalyseImage.ScaleFactorSpec | analyseImage.py:43-48 | the factor is 1 when the image fits. Otherwise it is maxDim / max(rows, cols), below 1, and the scaled image fits |
| AnalyseImage.NormalizedValueSpec | analyseImage.py:63-68 | a flat image is kept as it is. Otherwise values map into [0, 1], the minimum to 0 and the maximum to 1 |
| AnalyseImage.NormalizeImage | analyseImage.py:53-68 | lo and hi are the image's minimum and maximum, and each entry of the new image is that entry normalized |
| AnalyseImage.SelectTemplate | analyseImage.py:258-270 | picks the first particle of greatest circularity when that circularity is above 0, and none otherwise |
| AnalyseImage.OutliersRemovedSpec | analyseImage.py:294-310 | with zero deviation the contour is unchanged. Otherwise the refined contour is the original read at exactly the indices that are not outliers, in order |
| AnalyseImage.RemoveOutliers | analyseImage.py:294-310 | the particle's own contour is refined in place, and the same particle is returned |
| AnalyseImage.OfferedKeepsRegistry | analyseImage.py:391-400 | one pass (offer, refine, offer again) keeps a registry free of overlapping pairs and of members not circular enough |
| AnalyseImage.OfferedMembers | analyseImage.py:391-400 | after one pass, every member was a member before or is the particle of the pass |
| AnalyseImage.MaximumPassesKeepRegistry | analyseImage.py:375-400 | the passes around one maximum keep the registry properties |
| AnalyseImage.MaximumPassesMembers | analyseImage.py:375-400 | after the passes around one maximum, every member was a member before or is the particle of one of the passes |
| AnalyseImage.RoundKeepsRegistry | analyseImage.py:373-400 | a whole round over the maxima keeps the registry properties |
| AnalyseImage.TryContour | analyseImage.py:391-400 | a fresh particle whose descriptors are all those of the raw contour is offered with the raw point count. Then the same object, its contour rid of outliers at threshold 2.5, is offered with the refined count |
| AnalyseImage.MaximumPass | analyseImage.py:386-400 | pass j is made on contour j of the maximum: its fresh particle has the raw contour's descriptors and holds the refined contour, and the list is the one that pass leaves |
| AnalyseImage.ExamineMaximum | analyseImage.py:375-401 | one pass without colour differences and two with them. Pass j is made on contour j of the maximum, its particle is fresh and holds the refined contour, and the list is the passes' chain from the list given. Every member is old or new |
| AnalyseImage.RunRound | analyseImage.py:373-401 | one entry of passes per maximum, in order; each maximum gets PassesPerMaximum passes made on its contours. The list is the round's chain of passes, and every member is old or new |
| AnalyseImage.Analyse | analyseImage.py:313-402 | the trace: at most iterations + 1 rounds; round r starts from the list round r - 1 left, runs over maximaOf(r), and leaves its chain of passes. Every list a later round starts from is non-empty, and stopping before iterations + 1 rounds means the last list is empty. Every particle built is fresh, a registry passed in stays a registry |
| MainSearch.MergeFromMembers | main.py:33-35 | every member of the merged list was already there or was found |
| MainSearch.MergeFromKeepsRegistry | main.py:33-35 | merging with one setting keeps the registry properties |
| MainSearch.SharedSettingsRegistry | main.py:23-35 | when all searches share their contour parameters, an image's list has no overlapping pairs and only circular-enough members |
| MainSearch.SearchImages | main.py:13-37 | one list per image, in image order. Each is the merge of that image's searches; search j of image i is a run of analyse from an empty list with that search's settings and collaborators (Searched, with its trace in runs), and its list is a registry for its own tolerances |
| MainSearch.ImageStep | main.py:13-37 | one image's list is appended, and the lists of the earlier images are unchanged |
| MainSearch.SearchImage | main.py:21-35 | an image's list is the merge of its searches, one per setting; each search's list is what analyse returned from an empty list for that setting (Searched) and is a registry |
| MainSearch.SearchStep | main.py:23-35 | one more search is run, recorded with its trace, and merged |
| MainSearch.RunSearch | main.py:25-28 | the particles are what analyse returns from an empty list with this search's settings and collaborators: the ghost trace starts/made is a run of analyse (AnalysedFrom with start []), and the list is a registry |
| MainSearch.MergeParticles | main.py:33-35 | the loop computes MergeFrom |
| MainSearch.RadiiOf | main.py:44-46 | the radii of the particles, in order |
| MainSearch.OutOfRangeSkipped | main.py:42-43 | calibration indices outside the list of images contribute nothing |
| MainSearch.NoCalibrationParticles | main.py:49-53 | without calibration particles the factor is 1 |
| MainSearch.CalibratedFactor | main.py:49-51 | with positive calibration radii, the factor times the average radius is the calibration radius |
| MainSearch.PixelToUnit | main.py:39-53 | the loops compute PixelToUnitValue |
| MainSearch.AccumulateRadii | main.py:44-46 | the inner loop adds the number of particles and the sum of their radii |
| Export.FlattenSpec | export.py:45-49 | the joined list is as long as the lists together, holds exactly their elements, and is empty when every list is |
| Export.FlattenAppend | export.py:45-49 | joining keeps the order of the lists and of their elements |
| Export.ConvertParticlesData | export.py:35-49 | the nested loop computes Flatten |

## Left out

- gui.py, the file I/O of main.py and export.py, and every `print`: these are input, output and display.
- preprocess, get_edges, resize_image, adjust_colors, compose_colors, get_color_differences and get_dominant_color: image filtering done through OpenCV and NumPy. The edges maps they produce enter as the collaborator `contourAt`.
- create_ellipse, match_template and the rest of find_matches (the calls to match_template_full and find_local_maxima, and the rescaling of maxima): the library calls are out. The maxima of each round enter as `maximaOf`, and the score map and the circle mask as array inputs. SelectTemplate models the template choice, and obtain_picture is modelled but not its resize.
- take_first_element of constructContour.py is the sort key. The model sorts on the pixel value directly.
- main.py lines 55-69 (converting the radii to units and printing them): output.
- The EdgesParameters group and the colour weights of settings.py are read only by the parts left out.
- Floating point: every quantity is an exact `real`, with no rounding error, NaN or infinity.
- RealMath.Sqrt, RealMath.Cos: rational approximations. Sqrt is a fixed number of Newton steps and Cos a Taylor polynomial. No lemma depends on their exact values, only on the signs their contracts state (and on cos(π/n) ≠ 0 for n ≥ 1). π is the floating-point literal.
- ConstructContour.FindEdges: the ray directions are inputs. The program computes them with sin/cos of evenly spaced angles.
- Outliers.GetOutliers: requires that sd ≠ 0 imply a non-empty contour and a non-zero step deviation. The program would fail there with an index or zero-division error. In exact arithmetic, OwnStatisticsSuffice shows remove_outliers always meets this. In floating point it need not: when all radii are equal, the rounded mean can leave sd ≠ 0 while the step deviation is exactly 0, and z2 at analyseContour.py:283 then divides by zero. The model does not capture that failure.
- Registry.AppendParticle: returns the new list instead of changing its argument, as described above.
- Optimisation.FindLocalMaxima: requires order ≥ 1. With order 0 the scan reaches row dim[0], outside the image, which is an index error. The program only calls it with order 10.
- AnalyseImage.NormalizeImage: requires a non-empty image, because np.amax raises on an empty one.
- AnalyseImage.ScaleFactorSpec: requires a non-zero largest dimension when the image is too big, which is the case that divides.
- MatchObject.MatchTemplateFull: requires the score map to fit in the image at its offset. Writing past the edge raises in NumPy.
- AnalyseImage.SelectTemplate: when no particle has a circularity above 0, the program fails on an unbound picture. The model returns None.
- AnalyseImage.Analyse: the edges maps and the picture and contour steps of each maximum are the collaborator `contourAt`, and find_matches is `maximaOf`. The contract ties the result to the list given through the ghost trace of rounds and passes (starts, made, gathered in AnalysedFrom), not through one closed-form function of the inputs. The refined contour each particle holds is stated by ExamineMaximum, not carried up to Analyse.
- MainSearch.RunSearch: the particles are tied to analyse through the ghost trace that AnalysedFrom describes. The particle objects themselves are not determined: any fresh objects with the stated contents satisfy it.
- DescriptorSymmetry.TranslationInvariant: the centre, the radial average and the radial deviations move with the contour only when the perimeter is non-zero. With a zero perimeter, get_center returns (0, 0) for the contour and for its translate (analyseContour.py:61-64), so the radii are measured from the same point in both.
