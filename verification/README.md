# PaddleOCR text-detection postprocessing, modelled in Dafny

This project models the core of `PaddleOcrPostProc`, the C++ postprocessor that turns the
probability map of a DB (differentiable binarisation) text detector into text boxes. The code is
in `deploykit/cpp/src/postprocess/ppocr_post_proc.cpp`. The model covers these parts:

- **Corner ordering** (`corners.dfy`, `sorting.dfy`):
  - the comparators `XsortInt` and `XsortFp32`;
  - `OrderPointsClockwise`;
  - the corner-ordering half of `GetMiniBoxes`, including `ssid`, the longer rectangle side.

  `std::sort` is modelled as a generic insertion sort over a comparator. Its lemmas prove:
  - the output is sorted;
  - it is a permutation of the input;
  - it is the unique sorted permutation when there are no ties.
- **`GetContourArea`'s area accumulator** (`contour_area.dfy`): the cyclic shoelace sum over the
  four corners of a box, halved and made non-negative.
- **The `BoxesFromBitmap` candidate loop** (`det_boxes.dfy`):
  - at most 1000 contours are looked at;
  - contours of two points or fewer are skipped;
  - a contour is rejected when the fitted rectangle's longer side is below 3, when the score is
    below the box threshold, when the grown rectangle is degenerate, or when the grown
    rectangle's longer side is below 5;
  - the four corners are rounded and clamped onto the probability map's grid.

  Every contour that survives appends exactly one box to the result.
- **`FilterTagDetRes`** (`det_filter.dfy`):
  - every box is reordered in place in an array;
  - each corner is divided by the resize ratio, truncated and clamped into the original image;
  - the boxes whose truncated top and left side lengths exceed 4 are kept, in order.
- **The `DetPostProc` batch loop** (`det_postprocess.dfy`): the loop as written, and the loop as
  evidently intended (see Findings).

The OpenCV and Clipper calls are inputs to the model:
- `findContours`, which gives the contour list;
- `minAreaRect`;
- `BoxScoreFast`'s masked mean;
- `UnClip`;
- `threshold` and `dilate`, which give the bitmap.

Floats are exact reals. `static_cast<int>` is truncation toward zero. `roundf` rounds half away
from zero. `int(sqrt(d))` of an integer `d` is the integer square root.

The header that declares `PaddleOcrResult`, `ShapeInfo`, `clampf`, `_min` and `_max` is not part of
this model. These are modelled by their evident meaning:
- `PaddleOcrResult` is an object with a list of integer boxes;
- `ShapeInfo` holds the original and resized sizes;
- `clampf`, `_min` and `_max` are clamping, minimum and maximum.

## Model

| member | source | states |
|---|---|---|
| Numeric.Abs | deploykit/cpp/src/postprocess/ppocr_post_proc.cpp:214 | `fabs`: the result is non-negative and equals the argument or its negation |
| Numeric.Min | deploykit/cpp/src/postprocess/ppocr_post_proc.cpp:153 | `_min`: at most both arguments and equal to one of them |
| Numeric.Max | deploykit/cpp/src/postprocess/ppocr_post_proc.cpp:153 | `_max`: at least both arguments and equal to one of them |
| Numeric.MaxF | deploykit/cpp/src/postprocess/ppocr_post_proc.cpp:293 | `std::max` on floats: at least both arguments and equal to one of them |
| Numeric.Trunc | deploykit/cpp/src/postprocess/ppocr_post_proc.cpp:150-155 | `static_cast<int>` of a float truncates toward zero: non-negative values lie in `[n, n+1)`, non-positive ones in `(n-1, n]` |
| Numeric.TruncMonotone | deploykit/cpp/src/postprocess/ppocr_post_proc.cpp:150-155 | truncation keeps the order of two values |
| Numeric.RoundHalfAway | deploykit/cpp/src/postprocess/ppocr_post_proc.cpp:123-125 | `roundf`: within 0.5 of the argument, and halfway cases go away from zero |
| Numeric.RoundHalfAwayMonotone | deploykit/cpp/src/postprocess/ppocr_post_proc.cpp:123-125 | rounding keeps the order of two values |
| Numeric.RoundHalfAwayIntegral | deploykit/cpp/src/postprocess/ppocr_post_proc.cpp:123-125 | rounding an integral value returns it unchanged |
| Numeric.Clamp | deploykit/cpp/src/postprocess/ppocr_post_proc.cpp:123-126 | `clampf`: the result lies in `[lo, hi]`; it is the value itself when that is in range, otherwise the bound it passed |
| Numeric.ClampMonotone | deploykit/cpp/src/postprocess/ppocr_post_proc.cpp:123-126 | clamping keeps the order of two values |
| Numeric.ISqrt | deploykit/cpp/src/postprocess/ppocr_post_proc.cpp:160-165 | `static_cast<int>(sqrt(d))` is the integer square root `r`: `r*r <= d < (r+1)*(r+1)` |
| Numeric.SquareMonotone | deploykit/cpp/src/postprocess/ppocr_post_proc.cpp:160-166 | squaring keeps the order of two naturals |
| Numeric.ISqrtAtMost | deploykit/cpp/src/postprocess/ppocr_post_proc.cpp:166 | the truncated root is at most `k` exactly when `d < (k+1)^2` |
| Sorting.Insert | deploykit/cpp/src/postprocess/ppocr_post_proc.cpp:299 | one insertion-sort step adds exactly one element |
| Sorting.Sort | deploykit/cpp/src/postprocess/ppocr_post_proc.cpp:329 | `std::sort` keeps the length |
| Sorting.InsertPermutes | deploykit/cpp/src/postprocess/ppocr_post_proc.cpp:299 | inserting adds exactly the inserted element to the multiset |
| Sorting.SortPermutes | deploykit/cpp/src/postprocess/ppocr_post_proc.cpp:329 | the sorted sequence is a permutation of the input |
| Sorting.InsertBelow | deploykit/cpp/src/postprocess/ppocr_post_proc.cpp:299 | inserting an element below a bound keeps every element not above that bound |
| Sorting.InsertSorted | deploykit/cpp/src/postprocess/ppocr_post_proc.cpp:299 | inserting into a sorted sequence keeps it sorted, for any strict weak ordering |
| Sorting.SortSorted | deploykit/cpp/src/postprocess/ppocr_post_proc.cpp:329 | for a strict weak ordering, no later element of the result is less than an earlier one |
| Sorting.InsertNoTies | deploykit/cpp/src/postprocess/ppocr_post_proc.cpp:299 | inserting an element comparable with all others keeps a tie-free sequence tie-free |
| Sorting.SortNoTies | deploykit/cpp/src/postprocess/ppocr_post_proc.cpp:329 | sorting a tie-free input leaves it tie-free |
| Sorting.SortedHeadsEqual | deploykit/cpp/src/postprocess/ppocr_post_proc.cpp:329 | two sorted permutations of the same multiset, one without ties, start with the same element |
| Sorting.SortedTail | deploykit/cpp/src/postprocess/ppocr_post_proc.cpp:329 | dropping the head of a sorted sequence leaves it sorted |
| Sorting.NoTiesTail | deploykit/cpp/src/postprocess/ppocr_post_proc.cpp:329 | dropping the head of a tie-free sequence leaves it tie-free |
| Sorting.SortedUnique | deploykit/cpp/src/postprocess/ppocr_post_proc.cpp:329 | without ties, the sorted permutation of a multiset is unique |
| Sorting.Swap | deploykit/cpp/src/postprocess/ppocr_post_proc.cpp:335 | `std::swap` of two positions permutes the sequence |
| Sorting.PairsToCorners | deploykit/cpp/src/postprocess/ppocr_post_proc.cpp:340-341 | arranging two pairs as (first, third, fourth, second) permutes the sequence |
| Sorting.MultisetTail | deploykit/cpp/src/postprocess/ppocr_post_proc.cpp:329 | dropping the head removes exactly that element from the multiset |
| Corners.XsortInt | deploykit/cpp/src/postprocess/ppocr_post_proc.cpp:194-198 | `XsortInt` says "less" exactly when the first point's x is smaller |
| Corners.XsortFp32 | deploykit/cpp/src/postprocess/ppocr_post_proc.cpp:188-192 | `XsortFp32` says "less" exactly when the first point's x is smaller |
| Corners.XsortIsStrictWeakOrder | deploykit/cpp/src/postprocess/ppocr_post_proc.cpp:188-198 | both comparators say "less" exactly when x is smaller, and both are strict weak orderings as `std::sort` requires |
| Corners.SortedByXsortInt | deploykit/cpp/src/postprocess/ppocr_post_proc.cpp:194-198 | four points sorted by `XsortInt` have non-decreasing x |
| Corners.OrderSortedClockwise | deploykit/cpp/src/postprocess/ppocr_post_proc.cpp:331-341 | definition: the y-ordering of the left and the right pair and the `rect` they form |
| Corners.SortedPairs | deploykit/cpp/src/postprocess/ppocr_post_proc.cpp:331-338 | putting each pair in y order permutes the box |
| Corners.OrderSortedClockwiseFromPairs | deploykit/cpp/src/postprocess/ppocr_post_proc.cpp:331-341 | the returned rectangle is (left top, right top, right bottom, left bottom) of the y-ordered pairs |
| Corners.OrderSortedClockwiseCorrect | deploykit/cpp/src/postprocess/ppocr_post_proc.cpp:331-342 | for any x-sorted arrangement, including any order of tied x values, the result is a permutation in clockwise corner order |
| Corners.OrderPointsClockwise | deploykit/cpp/src/postprocess/ppocr_post_proc.cpp:326-343 | the result is clockwise-ordered: the left corners are at or left of the right corners, and each side runs top to bottom |
| Corners.OrderPointsClockwisePermutes | deploykit/cpp/src/postprocess/ppocr_post_proc.cpp:326-343 | the ordered box holds exactly the input points |
| Corners.OrderPointsClockwiseIdempotent | deploykit/cpp/src/postprocess/ppocr_post_proc.cpp:326-343 | with distinct x values, ordering an ordered box changes nothing |
| Corners.SortTiedExample | deploykit/cpp/src/postprocess/ppocr_post_proc.cpp:329 | insertion order is kept among points with equal x |
| Corners.SortTiedExampleOrdered | deploykit/cpp/src/postprocess/ppocr_post_proc.cpp:329 | a single right point moves behind three points on x = 0 |
| Corners.OrderPointsClockwiseNotIdempotentOnTies | deploykit/cpp/src/postprocess/ppocr_post_proc.cpp:326-343 | with three points on one vertical line, a second pass reorders the box |
| Corners.BoxPoints | deploykit/cpp/src/postprocess/ppocr_post_proc.cpp:295-298 | definition: the corners `boxPoints` yields, as a vector of points |
| Corners.XSortedCorners | deploykit/cpp/src/postprocess/ppocr_post_proc.cpp:295-299 | the rectangle's four corners sorted by `XsortFp32` have non-decreasing x |
| Corners.XSortedCornersPermutes | deploykit/cpp/src/postprocess/ppocr_post_proc.cpp:295-299 | the sorted corners are the rectangle's corners |
| Corners.GetMiniBoxes | deploykit/cpp/src/postprocess/ppocr_post_proc.cpp:291-324 | four points, and `ssid` is the rectangle's larger side |
| Corners.MiniPairs | deploykit/cpp/src/postprocess/ppocr_post_proc.cpp:303-316 | y-ordering the two pairs permutes the sorted corners |
| Corners.MiniPairsOrdered | deploykit/cpp/src/postprocess/ppocr_post_proc.cpp:303-316 | each pair of an x-sorted arrangement ends up top to bottom, with the left pair at or left of the right |
| Corners.GetMiniBoxesFromPairs | deploykit/cpp/src/postprocess/ppocr_post_proc.cpp:301-321 | the result is (top left, top right, bottom right, bottom left) of the y-ordered pairs |
| Corners.GetMiniBoxesCorners | deploykit/cpp/src/postprocess/ppocr_post_proc.cpp:291-324 | the result is a permutation of the rectangle's corners, with the left pair at or left of the right pair and each side top to bottom |
| Corners.GetMiniBoxesRoles | deploykit/cpp/src/postprocess/ppocr_post_proc.cpp:303-316 | the two smallest-x corners become top left and bottom left, the two largest become top right and bottom right; on a y-tie the later sorted corner is on top |
| ContourArea.Cross | deploykit/cpp/src/postprocess/ppocr_post_proc.cpp:207-208 | definition: the cross-product term added to `area` in one iteration |
| ContourArea.ShoelacePrefix | deploykit/cpp/src/postprocess/ppocr_post_proc.cpp:206-208 | definition: the value of `area` after `k` iterations |
| ContourArea.Shoelace | deploykit/cpp/src/postprocess/ppocr_post_proc.cpp:206-208 | definition: the accumulated `area` after all four cyclic terms |
| ContourArea.PolygonArea | deploykit/cpp/src/postprocess/ppocr_post_proc.cpp:214 | `fabs(area / 2.0)`: the area is non-negative |
| ContourArea.ShoelaceExpanded | deploykit/cpp/src/postprocess/ppocr_post_proc.cpp:206-208 | the accumulated sum is the four cyclic cross products |
| ContourArea.GetContourArea | deploykit/cpp/src/postprocess/ppocr_post_proc.cpp:200-214 | the loop computes half the absolute shoelace sum, which is non-negative |
| ContourArea.AxisAlignedRectangleArea | deploykit/cpp/src/postprocess/ppocr_post_proc.cpp:206-214 | for an axis-aligned rectangle the area is the absolute width times height |
| ContourArea.AreaIndependentOfOrientation | deploykit/cpp/src/postprocess/ppocr_post_proc.cpp:206-214 | reversing the corner order keeps the area |
| ContourArea.AreaIndependentOfStartCorner | deploykit/cpp/src/postprocess/ppocr_post_proc.cpp:206-214 | starting at another corner keeps the area |
| ContourArea.CrossTranslated | deploykit/cpp/src/postprocess/ppocr_post_proc.cpp:206-208 | moving both points changes their cross product by terms that cancel around the cycle |
| ContourArea.AreaTranslationInvariant | deploykit/cpp/src/postprocess/ppocr_post_proc.cpp:206-214 | moving the box keeps the area |
| DetFilter.RatioW | deploykit/cpp/src/postprocess/ppocr_post_proc.cpp:140 | the width ratio is positive |
| DetFilter.RatioH | deploykit/cpp/src/postprocess/ppocr_post_proc.cpp:141 | the height ratio is positive |
| DetFilter.RescalePoint | deploykit/cpp/src/postprocess/ppocr_post_proc.cpp:150-155 | a rescaled corner lies in `[0, ori_w-1] x [0, ori_h-1]` |
| DetFilter.RescalePointInSteps | deploykit/cpp/src/postprocess/ppocr_post_proc.cpp:150-155 | the four in-place assignments, one after the other, compute the rescaled corner |
| DetFilter.RescaleBox | deploykit/cpp/src/postprocess/ppocr_post_proc.cpp:148-156 | a rescaled box has four corners |
| DetFilter.RescaleBoxPointwise | deploykit/cpp/src/postprocess/ppocr_post_proc.cpp:149-156 | rescaling the four corners one by one gives the rescaled box |
| DetFilter.Rescaled | deploykit/cpp/src/postprocess/ppocr_post_proc.cpp:147-157 | one four-corner box out for each box in |
| DetFilter.KeepLongEnough | deploykit/cpp/src/postprocess/ppocr_post_proc.cpp:158-169 | at most as many boxes as given, all four-corner |
| DetFilter.KeepLongEnoughAppend | deploykit/cpp/src/postprocess/ppocr_post_proc.cpp:166-168 | one more box is appended exactly when it is long enough |
| DetFilter.RescaleBoxAt | deploykit/cpp/src/postprocess/ppocr_post_proc.cpp:148-156 | the array element `n` becomes the rescaled box and no other element changes |
| DetFilter.CollectLongEnough | deploykit/cpp/src/postprocess/ppocr_post_proc.cpp:158-169 | the loop collects exactly the long-enough boxes, in order |
| DetFilter.FilterTagged | deploykit/cpp/src/postprocess/ppocr_post_proc.cpp:134-172 | what `FilterTagDetRes` leaves: at most as many boxes as given, all four-corner |
| DetFilter.FilterTagDetRes | deploykit/cpp/src/postprocess/ppocr_post_proc.cpp:134-172 | returns true, and the result's boxes become the long-enough boxes among the rescaled ones, in order |
| DetFilter.SquaredDistance | deploykit/cpp/src/postprocess/ppocr_post_proc.cpp:160-165 | definition: `pow(dx, 2) + pow(dy, 2)`, the squared distance of two corners |
| DetFilter.LongEnough | deploykit/cpp/src/postprocess/ppocr_post_proc.cpp:159-167 | definition: the test that keeps a box, both truncated side lengths above 4 |
| DetFilter.LongEnoughIff | deploykit/cpp/src/postprocess/ppocr_post_proc.cpp:160-167 | a box is kept exactly when both squared side lengths are at least 25 |
| DetFilter.TruncatedSideAtMostFour | deploykit/cpp/src/postprocess/ppocr_post_proc.cpp:160-166 | a truncated side of at most 4 means a squared length below 25 |
| DetFilter.KeptIndices | deploykit/cpp/src/postprocess/ppocr_post_proc.cpp:158-169 | every kept position is a valid box index |
| DetFilter.KeptIndicesIncreasing | deploykit/cpp/src/postprocess/ppocr_post_proc.cpp:158-169 | the kept positions strictly increase |
| DetFilter.KeptIndicesExactly | deploykit/cpp/src/postprocess/ppocr_post_proc.cpp:158-169 | a position is kept exactly when its box is long enough |
| DetFilter.KeepLongEnoughAtIndices | deploykit/cpp/src/postprocess/ppocr_post_proc.cpp:158-169 | the kept boxes are the boxes at the kept positions, one for one |
| DetFilter.KeepLongEnoughSelects | deploykit/cpp/src/postprocess/ppocr_post_proc.cpp:158-169 | the output is the order-preserving subsequence of exactly the long-enough boxes |
| DetFilter.KeepLongEnoughIdempotent | deploykit/cpp/src/postprocess/ppocr_post_proc.cpp:158-169 | filtering twice equals filtering once |
| DetFilter.RescalePointMonotone | deploykit/cpp/src/postprocess/ppocr_post_proc.cpp:150-155 | rescaling keeps the x order and the y order of two corners |
| DetFilter.RescaleBoxOrderedInImage | deploykit/cpp/src/postprocess/ppocr_post_proc.cpp:148-156 | a rescaled box is still clockwise-ordered and lies in the original image |
| DetFilter.FilterTaggedProperties | deploykit/cpp/src/postprocess/ppocr_post_proc.cpp:134-172 | every box left is a rescaled input box, clockwise-ordered, inside the image and long enough |
| DetFilter.RescalePointWithoutResize | deploykit/cpp/src/postprocess/ppocr_post_proc.cpp:150-155 | without resizing, a corner inside the image is unchanged |
| DetFilter.OrderedCornerFromInput | deploykit/cpp/src/postprocess/ppocr_post_proc.cpp:148 | every ordered corner is one of the box's corners |
| DetFilter.RescaleWithoutResize | deploykit/cpp/src/postprocess/ppocr_post_proc.cpp:147-157 | without resizing, a box inside the image is only reordered |
| DetBoxes.MinSize | deploykit/cpp/src/postprocess/ppocr_post_proc.cpp:82 | definition: `min_size` is 3 |
| DetBoxes.MaxCandidates | deploykit/cpp/src/postprocess/ppocr_post_proc.cpp:83 | definition: `max_candidates` is 1000 |
| DetBoxes.Scaled | deploykit/cpp/src/postprocess/ppocr_post_proc.cpp:123-125 | definition: `v / width * dest_width` before rounding |
| DetBoxes.ScaleCoord | deploykit/cpp/src/postprocess/ppocr_post_proc.cpp:122-126 | a mapped coordinate lies in `[0, dest]` |
| DetBoxes.ScaleCorner | deploykit/cpp/src/postprocess/ppocr_post_proc.cpp:122-126 | a mapped corner lies on the probability map's grid |
| DetBoxes.GridCorners | deploykit/cpp/src/postprocess/ppocr_post_proc.cpp:120-128 | `intcliparray` after `k` corners: `k` mapped corners, all on the grid |
| DetBoxes.Emitted | deploykit/cpp/src/postprocess/ppocr_post_proc.cpp:129 | definition: what one iteration appends — nothing for a rejected contour, its box for an accepted one |
| DetBoxes.Degenerate | deploykit/cpp/src/postprocess/ppocr_post_proc.cpp:108 | definition: the grown rectangle is degenerate when both sides are below 1.001 |
| DetBoxes.CandidateBox | deploykit/cpp/src/postprocess/ppocr_post_proc.cpp:91-129 | an accepted contour's box lies on the grid |
| DetBoxes.Candidates | deploykit/cpp/src/postprocess/ppocr_post_proc.cpp:90-130 | whatever the loop body decides per contour, the first `n` contours append at most `n` boxes |
| DetBoxes.CandidatesThrough | deploykit/cpp/src/postprocess/ppocr_post_proc.cpp:90-130 | contours `0..k` append at most `k+1` boxes |
| DetBoxes.NumContours | deploykit/cpp/src/postprocess/ppocr_post_proc.cpp:83-89 | `num_contours` is the contour count capped at 1000 |
| DetBoxes.BitmapBoxes | deploykit/cpp/src/postprocess/ppocr_post_proc.cpp:83-130 | `BoxesFromBitmap` appends at most one box per contour it looks at |
| DetBoxes.CandidatesStep | deploykit/cpp/src/postprocess/ppocr_post_proc.cpp:90-130 | one more contour appends exactly what the loop body yields for it |
| DetBoxes.CandidatesOnGrid | deploykit/cpp/src/postprocess/ppocr_post_proc.cpp:90-130 | when every box the loop body yields lies on the grid, so does every appended box |
| DetBoxes.AllOnGridAppend | deploykit/cpp/src/postprocess/ppocr_post_proc.cpp:129 | appending on-grid boxes to on-grid boxes keeps every box on the grid |
| DetBoxes.BitmapBoxesOnGrid | deploykit/cpp/src/postprocess/ppocr_post_proc.cpp:76-132 | every box `BoxesFromBitmap` appends has four corners on the probability map's grid |
| DetBoxes.AcceptedIndices | deploykit/cpp/src/postprocess/ppocr_post_proc.cpp:90-130 | every accepted position is below `n` |
| DetBoxes.AcceptedIndicesIncreasing | deploykit/cpp/src/postprocess/ppocr_post_proc.cpp:90-130 | the accepted positions strictly increase |
| DetBoxes.AcceptedIndicesExactly | deploykit/cpp/src/postprocess/ppocr_post_proc.cpp:91-115 | a contour is accepted exactly when it yields a box |
| DetBoxes.CandidatesCount | deploykit/cpp/src/postprocess/ppocr_post_proc.cpp:90-130 | as many boxes are appended as contours are accepted |
| DetBoxes.CandidateAtIndex | deploykit/cpp/src/postprocess/ppocr_post_proc.cpp:90-130 | the `j`-th appended box is the box of the `j`-th accepted contour |
| DetBoxes.CandidatesAtIndices | deploykit/cpp/src/postprocess/ppocr_post_proc.cpp:90-130 | the appended boxes are the boxes of the accepted contours, one for one and in order |
| DetBoxes.BitmapBoxesSelect | deploykit/cpp/src/postprocess/ppocr_post_proc.cpp:83-130 | `BoxesFromBitmap` appends, in contour order, the box of exactly those contours among the first `num_contours` that pass every gate, one box each |
| DetBoxes.CandidatesIgnoreRest | deploykit/cpp/src/postprocess/ppocr_post_proc.cpp:90 | contours after the first `n` do not affect what the first `n` append |
| DetBoxes.BitmapBoxesCapped | deploykit/cpp/src/postprocess/ppocr_post_proc.cpp:83-90 | with 1000 or more contours, further contours change nothing |
| DetBoxes.RejectedAddNothing | deploykit/cpp/src/postprocess/ppocr_post_proc.cpp:90-130 | contours that are all rejected append nothing |
| DetBoxes.ShortContoursAddNothing | deploykit/cpp/src/postprocess/ppocr_post_proc.cpp:91-93 | contours of at most two points append nothing |
| DetBoxes.ScaleCoordSameSize | deploykit/cpp/src/postprocess/ppocr_post_proc.cpp:116-126 | between grids of equal size, an integral in-range coordinate stays where it is |
| DetBoxes.ScaledMonotone | deploykit/cpp/src/postprocess/ppocr_post_proc.cpp:123-125 | stretching a coordinate keeps the order of two coordinates |
| DetBoxes.ScaleCoordMonotone | deploykit/cpp/src/postprocess/ppocr_post_proc.cpp:122-126 | mapping onto the grid keeps the order of two coordinates |
| DetBoxes.CandidateBoxAccepted | deploykit/cpp/src/postprocess/ppocr_post_proc.cpp:91-115 | a contour yields a box exactly when it has more than two points, the fitted rectangle's longer side is at least 3, the score reaches the threshold, the grown rectangle is not degenerate and its longer side is at least 5 |
| DetBoxes.CandidateFor | deploykit/cpp/src/postprocess/ppocr_post_proc.cpp:91-128 | one loop iteration computes the contour's candidate, which extends the appended boxes by exactly that candidate |
| DetBoxes.BoxesFromBitmap | deploykit/cpp/src/postprocess/ppocr_post_proc.cpp:76-132 | returns true, and appends to the result exactly the boxes of the accepted contours among the first `min(|contours|, 1000)` |
| DetPostProcess.BitmapBoxesQuads | deploykit/cpp/src/postprocess/ppocr_post_proc.cpp:65-70 | every box handed from `BoxesFromBitmap` to `FilterTagDetRes` has four corners |
| DetPostProcess.Pushed | deploykit/cpp/src/postprocess/ppocr_post_proc.cpp:46-73 | a loop over the batch pushes one result per image |
| DetPostProcess.PushedStep | deploykit/cpp/src/postprocess/ppocr_post_proc.cpp:46-73 | one more image pushes exactly that image's result |
| DetPostProcess.PushedAt | deploykit/cpp/src/postprocess/ppocr_post_proc.cpp:46-73 | the result pushed at position `i` is that of image `i` |
| DetPostProcess.DetResults | deploykit/cpp/src/postprocess/ppocr_post_proc.cpp:46-73 | the intended loop yields one result per image |
| DetPostProcess.DetResultsAt | deploykit/cpp/src/postprocess/ppocr_post_proc.cpp:46-73 | the intended loop's result for image `i` is that image's rescaled and filtered bitmap boxes |
| DetPostProcess.FirstImageOnly | deploykit/cpp/src/postprocess/ppocr_post_proc.cpp:46-73 | the loop as written yields at most one result |
| DetPostProcess.ImageBoxes | deploykit/cpp/src/postprocess/ppocr_post_proc.cpp:65-70 | one image's result has at most as many boxes as its bitmap yields |
| DetPostProcess.ProcessImage | deploykit/cpp/src/postprocess/ppocr_post_proc.cpp:47-70 | one image's result is its bitmap boxes, rescaled and filtered |
| DetPostProcess.DetPostProc | deploykit/cpp/src/postprocess/ppocr_post_proc.cpp:36-74 | returns true on a non-empty batch, and pushes only the first image's result |
| DetPostProcess.DetPostProcAll | deploykit/cpp/src/postprocess/ppocr_post_proc.cpp:46-73 | the corrected loop pushes one result per image, in batch order |
| DetPostProcess.EarlyReturnDropsImages | deploykit/cpp/src/postprocess/ppocr_post_proc.cpp:72 | on a batch of two or more, the loop as written pushes one result where one per image is due, and that result is the first image's |
| DetPostProcess.SingleImageAgrees | deploykit/cpp/src/postprocess/ppocr_post_proc.cpp:46-73 | on a batch of at most one image, the two loops agree |
| DetPostProcess.ReportedBoxes | deploykit/cpp/src/postprocess/ppocr_post_proc.cpp:65-70 | definition: a reported box is clockwise-ordered, inside the image, long enough, and the rescaled form of an on-grid bitmap box |
| DetPostProcess.ImageBoxesProperties | deploykit/cpp/src/postprocess/ppocr_post_proc.cpp:47-70 | every box of an image's result is clockwise-ordered, inside the image and long enough, and it is the rescaled form of a bitmap box lying on the probability map's grid |
| DetPostProcess.DetResultsProperties | deploykit/cpp/src/postprocess/ppocr_post_proc.cpp:46-73 | every reported box of image `i` is clockwise-ordered, inside the image and long enough, and it is the rescaled form of a bitmap box lying on the probability map's grid |

## Left out

- OpenCV calls are parameters (`findContours`, `minAreaRect`, `boxPoints` corners, `fillPoly`/`mean` inside `BoxScoreFast`, `threshold`, `dilate`), because they are foreign code. `BoxScoreFast`'s bounding-box computation is therefore not modelled.
- `UnClip` is the `unClip` parameter, including its 1×1 fallback at lines 243-245. It calls Clipper, which is foreign code. `GetContourArea`'s area sum is modelled on its own; nothing ties it to the `unClip` parameter.
- `GetContourArea`'s perimeter sum (`sqrtf` of the edge lengths) and the `distance` it writes are not modelled, because they need floating-point square roots and feed only Clipper.
- Single-precision rounding is not modelled. Floats are exact reals.
- `Mat2Vector` is not modelled. It is a copy of an OpenCV matrix into nested vectors, and `BoxPoints` stands for it.
- `Init` is not modelled. It reads configuration. `DetConfig` carries the two values `DetPostProc` uses.
- `det_db_thresh`: the bitmap itself is an input, so this threshold plays no part.
- `Run` is not modelled. For a model name other than "DET" it reaches the end without returning a value, which is undefined behaviour. Its "DET" branch only clears the results and calls `DetPostProc`.
- The copy of the output tensor into `pred` and `cbuf` is not modelled. Each image arrives as its probability map, bitmap and contours.
- A `shape_infos` vector shorter than the batch is not modelled. Each image carries its own `ShapeInfo`.
- Sorting.Sort: the C++ standard leaves the order of equal-x points unspecified. The model fixes the stable insertion order, and the corner-ordering lemmas (`OrderSortedClockwiseCorrect`) hold for every sorted arrangement.
- The boxes of a bitmap are only defined when a bitmap with contours has at least one row and one column, because contours found in an empty bitmap cannot exist. The division by `bitmap.cols` and `bitmap.rows` needs this.
- `FilterTagDetRes` is only modelled for positive original and resized sizes, which avoids the division by a zero ratio. It also requires four-corner boxes, as `BoxesFromBitmap` produces; the inner loop's bound `boxes[0].size()` is then 4 for every box.
- DetPostProcess.DetPostProc: on an empty batch the C++ function falls off its end, which is undefined behaviour. The model returns `false` there and states nothing about that value.

## Findings

| source | as written | input that shows it | evidently intended | confidence | as-written member | corrected member |
|---|---|---|---|---|---|---|
| deploykit/cpp/src/postprocess/ppocr_post_proc.cpp:72 | `return true;` sits inside the batch loop, so only image 0 is postprocessed and pushed | any batch of two or more images: one result comes back instead of one per image | push one result per image and return after the loop | not executed | DetPostProcess.DetPostProc, DetPostProcess.EarlyReturnDropsImages | DetPostProcess.DetPostProcAll |
