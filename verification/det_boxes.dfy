/**
 * The candidate loop of `BoxesFromBitmap`: every contour found in the binarised map is fitted
 * with a rectangle, gated on size and score, grown by the unclip offset, gated again, and its
 * corners are mapped onto the probability map's grid. The OpenCV and Clipper calls it makes
 * (`findContours`, `minAreaRect`, `BoxScoreFast`'s `fillPoly`/`mean`, `UnClip`) are inputs.
 */
module DetBoxes {
  import opened OcrTypes
  import opened Numeric
  import opened Corners

  /** `min_size`: the smallest admissible longer side of a fitted rectangle. */
  const MinSize: int := 3

  /** `max_candidates`: contours past this many are never looked at. */
  const MaxCandidates: nat := 1000

  /** The size of the binarised, dilated map the contours are found in. */
  datatype Bitmap = Bitmap(rows: nat, cols: nat)

  /** The probability map: its size and `BoxScoreFast`, the mean probability inside a polygon. */
  datatype ProbMap = ProbMap(rows: nat, cols: nat, boxScoreFast: seq<PointF> -> real)

  /** The foreign geometry calls: `cv::minAreaRect` on a contour and `UnClip` of a box by a ratio. */
  datatype Library = Library(minAreaRect: seq<Point> -> RotatedRect, unClip: (seq<PointF>, real) -> RotatedRect)

  /**
   * The contours `cv::findContours` finds lie in the bitmap, so a bitmap with a contour is not
   * empty and the width and height divided by are positive.
   */
  predicate ContoursInside(bitmap: Bitmap, contours: seq<seq<Point>>)
  {
    contours != [] ==> bitmap.rows >= 1 && bitmap.cols >= 1
  }

  /** A corner on the probability map's grid, both ends included: `[0, cols] x [0, rows]`. */
  predicate OnGrid(p: Point, pred: ProbMap)
  {
    0 <= p.x <= pred.cols && 0 <= p.y <= pred.rows
  }

  /** A four-corner box with every corner on the grid. */
  predicate BoxOnGrid(b: Box, pred: ProbMap)
  {
    |b| == 4 && forall k :: 0 <= k < 4 ==> OnGrid(b[k], pred)
  }

  /** Every box of the sequence is a four-corner box on the grid. */
  predicate AllOnGrid(boxes: seq<Box>, pred: ProbMap)
  {
    forall j :: 0 <= j < |boxes| ==> BoxOnGrid(boxes[j], pred)
  }

  /** `static_cast<int>(clampf(roundf(v / size * dest), 0, dest))`: one coordinate mapped onto the grid. */
  function ScaleCoord(v: real, size: nat, dest: nat): (c: int)
    requires size >= 1
    ensures 0 <= c <= dest
  {
    Clamp(RoundHalfAway(Scaled(v, size, dest)), 0, dest)
  }

  /** `v / size * dest`: a coordinate of a grid of `size` cells stretched onto one of `dest` cells. */
  function Scaled(v: real, size: nat, dest: nat): real
    requires size >= 1
  {
    v / size as real * dest as real
  }

  /** One corner of the grown rectangle mapped from the bitmap onto the probability map. */
  function ScaleCorner(p: PointF, bitmap: Bitmap, pred: ProbMap): (q: Point)
    requires bitmap.rows >= 1 && bitmap.cols >= 1
    ensures OnGrid(q, pred)
  {
    Point(ScaleCoord(p.x, bitmap.cols, pred.cols), ScaleCoord(p.y, bitmap.rows, pred.rows))
  }

  /** `intcliparray` after `k` passes of the corner loop: the first `k` corners mapped onto the grid, in order. */
  function GridCorners(c: seq<PointF>, k: nat, bitmap: Bitmap, pred: ProbMap): (b: Box)
    requires k <= |c| && bitmap.rows >= 1 && bitmap.cols >= 1
    ensures |b| == k
    ensures forall m :: 0 <= m < k ==> OnGrid(b[m], pred)
  {
    if k == 0 then [] else GridCorners(c, k - 1, bitmap, pred) + [ScaleCorner(c[k - 1], bitmap, pred)]
  }

  /** The boxes an optional candidate contributes: none, or the one box. */
  function Emitted(candidate: Option<Box>): seq<Box>
  {
    match candidate
    case None => []
    case Some(b) => [b]
  }

  /** The unclipped rectangle is degenerate when both of its sides are below 1.001. */
  predicate Degenerate(r: RotatedRect)
  {
    r.height < 1.001 && r.width < 1.001
  }

  /**
   * What one iteration of the loop appends for `contour`: nothing when a gate rejects it,
   * otherwise the four corners of the grown rectangle on the probability map's grid.
   */
  function CandidateBox(contour: seq<Point>, pred: ProbMap, bitmap: Bitmap, boxThresh: real,
                        unclipRatio: real, lib: Library): (r: Option<Box>)
    requires bitmap.rows >= 1 && bitmap.cols >= 1
    ensures r.Some? ==> BoxOnGrid(r.value, pred)
  {
    if |contour| <= 2 then None
    else
      var mini := GetMiniBoxes(lib.minAreaRect(contour));
      if mini.ssid < MinSize as real then None
      else if pred.boxScoreFast(mini.points) < boxThresh then None
      else
        var points := lib.unClip(mini.points, unclipRatio);
        if Degenerate(points) then None
        else
          var clip := GetMiniBoxes(points);
          if clip.ssid < (MinSize + 2) as real then None
          else Some(GridCorners(clip.points, 4, bitmap, pred))
  }

  /**
   * The loop body's decision as a function of the contour: `CandidateBox` with the map, the bitmap,
   * the thresholds and the library fixed. It is defined wherever the bitmap is not empty.
   * It has no counterpart in the C++: passing the decision as a value lets the lemmas about the
   * loop's output be stated once, without unfolding `CandidateBox` in every proof.
   */
  function Gate(pred: ProbMap, bitmap: Bitmap, boxThresh: real, unclipRatio: real, lib: Library)
    : seq<Point> --> Option<Box>
  {
    contour requires bitmap.rows >= 1 && bitmap.cols >= 1 =>
      CandidateBox(contour, pred, bitmap, boxThresh, unclipRatio, lib)
  }

  /** `gate` can decide each of the first `n` contours. */
  ghost predicate GateDefined(contours: seq<seq<Point>>, n: nat, gate: seq<Point> --> Option<Box>)
  {
    n <= |contours| && forall k :: 0 <= k < n ==> gate.requires(contours[k])
  }

  /**
   * The boxes the loop appends for the first `n` contours when `gate` decides what each contour
   * yields: one box per accepted contour, in order. The split into `Candidates` and
   * `CandidatesThrough` mirrors no structure in the C++; it only keeps the verifier from unfolding
   * more than one loop iteration at a time.
   */
  function Candidates(contours: seq<seq<Point>>, n: nat, gate: seq<Point> --> Option<Box>): (boxes: seq<Box>)
    requires GateDefined(contours, n, gate)
    ensures |boxes| <= n
    decreases n, 0
  {
    if n == 0 then [] else CandidatesThrough(contours, n - 1, gate)
  }

  /** The boxes the loop has appended once it has looked at contour `k`. */
  function CandidatesThrough(contours: seq<seq<Point>>, k: nat, gate: seq<Point> --> Option<Box>): (boxes: seq<Box>)
    requires GateDefined(contours, k + 1, gate)
    ensures |boxes| <= k + 1
    decreases k, 1
  {
    Candidates(contours, k, gate) + Emitted(gate(contours[k]))
  }

  /** `num_contours`: the number of contours looked at, at most `MaxCandidates`. */
  function NumContours(contours: seq<seq<Point>>): (n: nat)
    ensures n <= MaxCandidates && n <= |contours|
    ensures n == MaxCandidates || n == |contours|
  {
    if |contours| >= MaxCandidates then MaxCandidates else |contours|
  }

  /** Everything `BoxesFromBitmap` appends to `ocr_result->boxes`. */
  function BitmapBoxes(pred: ProbMap, bitmap: Bitmap, contours: seq<seq<Point>>, boxThresh: real,
                       unclipRatio: real, lib: Library): (boxes: seq<Box>)
    requires ContoursInside(bitmap, contours)
    ensures |boxes| <= NumContours(contours)
  {
    Candidates(contours, NumContours(contours), Gate(pred, bitmap, boxThresh, unclipRatio, lib))
  }

  /** Looking at one more contour appends exactly what the gate yields for it. */
  lemma CandidatesStep(contours: seq<seq<Point>>, i: nat, gate: seq<Point> --> Option<Box>)
    requires GateDefined(contours, i + 1, gate)
    ensures Candidates(contours, i + 1, gate) == Candidates(contours, i, gate) + Emitted(gate(contours[i]))
  {
    assert Candidates(contours, i + 1, gate) == CandidatesThrough(contours, i, gate);
  }

  /** Appending boxes on the grid to boxes on the grid keeps every box on the grid. */
  lemma AllOnGridAppend(front: seq<Box>, back: seq<Box>, pred: ProbMap)
    requires AllOnGrid(front, pred) && AllOnGrid(back, pred)
    ensures AllOnGrid(front + back, pred)
  {
    forall j | 0 <= j < |front + back| ensures BoxOnGrid((front + back)[j], pred) {
      if j < |front| {
        assert (front + back)[j] == front[j];
      } else {
        assert (front + back)[j] == back[j - |front|];
      }
    }
  }

  /** When every box the gate yields lies on the grid, so does everything the loop appends. */
  lemma {:induction false} CandidatesOnGrid(contours: seq<seq<Point>>, n: nat, gate: seq<Point> --> Option<Box>,
                                            pred: ProbMap)
    requires GateDefined(contours, n, gate)
    requires forall k :: 0 <= k < n ==> AllOnGrid(Emitted(gate(contours[k])), pred)
    ensures AllOnGrid(Candidates(contours, n, gate), pred)
  {
    if n > 0 {
      CandidatesOnGrid(contours, n - 1, gate, pred);
      CandidatesStep(contours, n - 1, gate);
      AllOnGridAppend(Candidates(contours, n - 1, gate), Emitted(gate(contours[n - 1])), pred);
    }
  }

  /** Every box `BoxesFromBitmap` appends has four corners on the probability map's grid. */
  lemma BitmapBoxesOnGrid(pred: ProbMap, bitmap: Bitmap, contours: seq<seq<Point>>, boxThresh: real,
                          unclipRatio: real, lib: Library)
    requires ContoursInside(bitmap, contours)
    ensures AllOnGrid(BitmapBoxes(pred, bitmap, contours, boxThresh, unclipRatio, lib), pred)
  {
    var gate := Gate(pred, bitmap, boxThresh, unclipRatio, lib);
    var n := NumContours(contours);
    forall k | 0 <= k < n ensures AllOnGrid(Emitted(gate(contours[k])), pred) {
      var candidate := CandidateBox(contours[k], pred, bitmap, boxThresh, unclipRatio, lib);
      assert gate(contours[k]) == candidate;
    }
    CandidatesOnGrid(contours, n, gate, pred);
  }

  /** The positions, in increasing order, of the contours among the first `n` that yield a box. */
  function AcceptedIndices(contours: seq<seq<Point>>, n: nat, gate: seq<Point> --> Option<Box>): (idx: seq<nat>)
    requires GateDefined(contours, n, gate)
    ensures forall j :: 0 <= j < |idx| ==> idx[j] < n
  {
    if n == 0 then []
    else AcceptedIndices(contours, n - 1, gate) + (if gate(contours[n - 1]).Some? then [n - 1] else [])
  }

  /** `AcceptedIndices` is strictly increasing. */
  lemma {:induction false} AcceptedIndicesIncreasing(contours: seq<seq<Point>>, n: nat,
                                                     gate: seq<Point> --> Option<Box>)
    requires GateDefined(contours, n, gate)
    ensures forall j, j' :: 0 <= j < j' < |AcceptedIndices(contours, n, gate)| ==>
              AcceptedIndices(contours, n, gate)[j] < AcceptedIndices(contours, n, gate)[j']
  {
    if n > 0 {
      AcceptedIndicesIncreasing(contours, n - 1, gate);
    }
  }

  /** A contour among the first `n` is in `AcceptedIndices` exactly when the gate yields a box for it. */
  lemma {:induction false} AcceptedIndicesExactly(contours: seq<seq<Point>>, n: nat, gate: seq<Point> --> Option<Box>)
    requires GateDefined(contours, n, gate)
    ensures forall i :: 0 <= i < n ==> (i in AcceptedIndices(contours, n, gate) <==> gate(contours[i]).Some?)
  {
    if n > 0 {
      AcceptedIndicesExactly(contours, n - 1, gate);
    }
  }

  /** There are as many appended boxes as accepted contours. */
  lemma {:induction false} CandidatesCount(contours: seq<seq<Point>>, n: nat, gate: seq<Point> --> Option<Box>)
    requires GateDefined(contours, n, gate)
    ensures |Candidates(contours, n, gate)| == |AcceptedIndices(contours, n, gate)|
  {
    if n > 0 {
      CandidatesCount(contours, n - 1, gate);
      CandidatesStep(contours, n - 1, gate);
    }
  }

  /** The `j`-th appended box is the box the gate yields for the `j`-th accepted contour. */
  lemma {:induction false} CandidateAtIndex(contours: seq<seq<Point>>, n: nat, gate: seq<Point> --> Option<Box>, j: nat)
    requires GateDefined(contours, n, gate)
    requires j < |AcceptedIndices(contours, n, gate)|
    ensures j < |Candidates(contours, n, gate)|
    ensures gate(contours[AcceptedIndices(contours, n, gate)[j]]) == Some(Candidates(contours, n, gate)[j])
  {
    var prev := Candidates(contours, n - 1, gate);
    var prevIdx := AcceptedIndices(contours, n - 1, gate);
    var last := gate(contours[n - 1]);
    CandidatesCount(contours, n - 1, gate);
    CandidatesStep(contours, n - 1, gate);
    if j < |prevIdx| {
      CandidateAtIndex(contours, n - 1, gate, j);
      assert AcceptedIndices(contours, n, gate)[j] == prevIdx[j];
      assert Candidates(contours, n, gate)[j] == prev[j];
    } else {
      assert last.Some? && AcceptedIndices(contours, n, gate) == prevIdx + [n - 1];
      assert Candidates(contours, n, gate) == prev + [last.value];
    }
  }

  /** The appended boxes are the boxes of the accepted contours, one for one and in order. */
  lemma CandidatesAtIndices(contours: seq<seq<Point>>, n: nat, gate: seq<Point> --> Option<Box>)
    requires GateDefined(contours, n, gate)
    ensures |Candidates(contours, n, gate)| == |AcceptedIndices(contours, n, gate)|
    ensures forall j :: 0 <= j < |AcceptedIndices(contours, n, gate)| ==>
              gate(contours[AcceptedIndices(contours, n, gate)[j]]) == Some(Candidates(contours, n, gate)[j])
  {
    CandidatesCount(contours, n, gate);
    forall j | 0 <= j < |AcceptedIndices(contours, n, gate)|
      ensures gate(contours[AcceptedIndices(contours, n, gate)[j]]) == Some(Candidates(contours, n, gate)[j])
    {
      CandidateAtIndex(contours, n, gate, j);
    }
  }

  /**
   * What `BoxesFromBitmap` appends, stated with `CandidateBox` itself: the boxes of exactly the
   * accepted contours among the first `num_contours`, one for one and in contour order.
   */
  lemma BitmapBoxesSelect(pred: ProbMap, bitmap: Bitmap, contours: seq<seq<Point>>, boxThresh: real,
                          unclipRatio: real, lib: Library)
    requires ContoursInside(bitmap, contours)
    ensures var idx := AcceptedIndices(contours, NumContours(contours), Gate(pred, bitmap, boxThresh, unclipRatio, lib));
      var boxes := BitmapBoxes(pred, bitmap, contours, boxThresh, unclipRatio, lib);
      |boxes| == |idx|
      && (forall j, j' :: 0 <= j < j' < |idx| ==> idx[j] < idx[j'])
      && (forall i :: 0 <= i < NumContours(contours) ==>
            (i in idx <==> CandidateBox(contours[i], pred, bitmap, boxThresh, unclipRatio, lib).Some?))
      && (forall j :: 0 <= j < |idx| ==>
            CandidateBox(contours[idx[j]], pred, bitmap, boxThresh, unclipRatio, lib) == Some(boxes[j]))
  {
    var gate := Gate(pred, bitmap, boxThresh, unclipRatio, lib);
    var n := NumContours(contours);
    AcceptedIndicesIncreasing(contours, n, gate);
    AcceptedIndicesExactly(contours, n, gate);
    CandidatesAtIndices(contours, n, gate);
  }

  /** Contours after the first `n` play no part in what is appended for the first `n`. */
  lemma {:induction false} CandidatesIgnoreRest(contours: seq<seq<Point>>, extra: seq<seq<Point>>, n: nat,
                                                gate: seq<Point> --> Option<Box>)
    requires GateDefined(contours, n, gate) && GateDefined(contours + extra, n, gate)
    ensures Candidates(contours + extra, n, gate) == Candidates(contours, n, gate)
  {
    if n > 0 {
      CandidatesIgnoreRest(contours, extra, n - 1, gate);
      CandidatesStep(contours, n - 1, gate);
      CandidatesStep(contours + extra, n - 1, gate);
      assert (contours + extra)[n - 1] == contours[n - 1];
    }
  }

  /** Once there are `MaxCandidates` contours, further contours change nothing. */
  lemma BitmapBoxesCapped(pred: ProbMap, bitmap: Bitmap, contours: seq<seq<Point>>, extra: seq<seq<Point>>,
                          boxThresh: real, unclipRatio: real, lib: Library)
    requires ContoursInside(bitmap, contours) && |contours| >= MaxCandidates
    ensures BitmapBoxes(pred, bitmap, contours + extra, boxThresh, unclipRatio, lib)
         == BitmapBoxes(pred, bitmap, contours, boxThresh, unclipRatio, lib)
  {
    assert NumContours(contours + extra) == NumContours(contours) == MaxCandidates;
    CandidatesIgnoreRest(contours, extra, MaxCandidates, Gate(pred, bitmap, boxThresh, unclipRatio, lib));
  }

  /** Contours the gate rejects add nothing. */
  lemma {:induction false} RejectedAddNothing(contours: seq<seq<Point>>, n: nat, gate: seq<Point> --> Option<Box>)
    requires GateDefined(contours, n, gate)
    requires forall k :: 0 <= k < n ==> gate(contours[k]).None?
    ensures Candidates(contours, n, gate) == []
  {
    if n > 0 {
      RejectedAddNothing(contours, n - 1, gate);
      CandidatesStep(contours, n - 1, gate);
    }
  }

  /** Contours of at most two points never yield a box, so a map of only such contours adds nothing. */
  lemma ShortContoursAddNothing(pred: ProbMap, bitmap: Bitmap, contours: seq<seq<Point>>, boxThresh: real,
                                unclipRatio: real, lib: Library)
    requires ContoursInside(bitmap, contours)
    requires forall k :: 0 <= k < |contours| ==> |contours[k]| <= 2
    ensures BitmapBoxes(pred, bitmap, contours, boxThresh, unclipRatio, lib) == []
  {
    RejectedAddNothing(contours, NumContours(contours), Gate(pred, bitmap, boxThresh, unclipRatio, lib));
  }

  /** Mapping between grids of the same size keeps every integral coordinate in range where it is. */
  lemma ScaleCoordSameSize(k: int, size: nat)
    requires size >= 1 && 0 <= k <= size
    ensures ScaleCoord(k as real, size, size) == k
  {
    assert Scaled(k as real, size, size) == k as real;
    RoundHalfAwayIntegral(k);
  }

  lemma ScaledMonotone(v: real, w: real, size: nat, dest: nat)
    requires size >= 1 && v <= w
    ensures Scaled(v, size, dest) <= Scaled(w, size, dest)
  {
    assert v / size as real <= w / size as real;
  }

  /** Mapping onto the grid never reverses the order of two coordinates. */
  lemma ScaleCoordMonotone(v: real, w: real, size: nat, dest: nat)
    requires size >= 1 && v <= w
    ensures ScaleCoord(v, size, dest) <= ScaleCoord(w, size, dest)
  {
    ScaledMonotone(v, w, size, dest);
    RoundHalfAwayMonotone(Scaled(v, size, dest), Scaled(w, size, dest));
    ClampMonotone(RoundHalfAway(Scaled(v, size, dest)), RoundHalfAway(Scaled(w, size, dest)), 0, dest);
  }

  /**
   * A contour yields a box exactly when it has more than two points, the longer side of its
   * fitted rectangle is at least `MinSize`, its score reaches the threshold, the rectangle grown
   * from it is not degenerate and the grown rectangle's longer side is at least `MinSize + 2`.
   */
  lemma CandidateBoxAccepted(contour: seq<Point>, pred: ProbMap, bitmap: Bitmap, boxThresh: real,
                             unclipRatio: real, lib: Library)
    requires bitmap.rows >= 1 && bitmap.cols >= 1
    ensures CandidateBox(contour, pred, bitmap, boxThresh, unclipRatio, lib).Some? <==>
      |contour| > 2
      && MaxF(lib.minAreaRect(contour).width, lib.minAreaRect(contour).height) >= MinSize as real
      && pred.boxScoreFast(GetMiniBoxes(lib.minAreaRect(contour)).points) >= boxThresh
      && !Degenerate(lib.unClip(GetMiniBoxes(lib.minAreaRect(contour)).points, unclipRatio))
      && MaxF(lib.unClip(GetMiniBoxes(lib.minAreaRect(contour)).points, unclipRatio).width,
              lib.unClip(GetMiniBoxes(lib.minAreaRect(contour)).points, unclipRatio).height)
         >= (MinSize + 2) as real
  {
  }

  /** One pass of the loop body: the gates of `BoxesFromBitmap` on one contour, and its grid box. */
  method CandidateFor(contours: seq<seq<Point>>, i: nat, pred: ProbMap, bitmap: Bitmap, boxThresh: real,
                      detDbUnclipRatio: real, lib: Library) returns (candidate: Option<Box>)
    requires i < |contours| && bitmap.rows >= 1 && bitmap.cols >= 1
    ensures candidate == CandidateBox(contours[i], pred, bitmap, boxThresh, detDbUnclipRatio, lib)
    ensures Candidates(contours, i + 1, Gate(pred, bitmap, boxThresh, detDbUnclipRatio, lib))
         == Candidates(contours, i, Gate(pred, bitmap, boxThresh, detDbUnclipRatio, lib)) + Emitted(candidate)
  {
    CandidatesStep(contours, i, Gate(pred, bitmap, boxThresh, detDbUnclipRatio, lib));
    var contour := contours[i];
    if |contour| <= 2 {
      return None;
    }
    var box := lib.minAreaRect(contour);
    var miniBox := GetMiniBoxes(box);
    var ssid := miniBox.ssid;
    var boxForUnclip := miniBox.points;
    if ssid < MinSize as real {
      return None;
    }
    var score := pred.boxScoreFast(miniBox.points);
    if score < boxThresh {
      return None;
    }
    var points := lib.unClip(boxForUnclip, detDbUnclipRatio);
    if points.height < 1.001 && points.width < 1.001 {
      return None;
    }
    var clipbox := points;
    var cliparray := GetMiniBoxes(clipbox);
    ssid := cliparray.ssid;
    if ssid < (MinSize + 2) as real {
      return None;
    }
    var intcliparray: seq<Point> := [];
    for numPt := 0 to 4
      invariant intcliparray == GridCorners(cliparray.points, numPt, bitmap, pred)
    {
      var a := Point(ScaleCoord(cliparray.points[numPt].x, bitmap.cols, pred.cols),
                     ScaleCoord(cliparray.points[numPt].y, bitmap.rows, pred.rows));
      intcliparray := intcliparray + [a];
    }
    return Some(intcliparray);
  }

  /**
   * `BoxesFromBitmap`, given the contours `cv::findContours` finds in `bitmap`: run the gates over
   * the first `num_contours` contours and append the survivors, keeping the boxes already there.
   */
  method BoxesFromBitmap(pred: ProbMap, bitmap: Bitmap, contours: seq<seq<Point>>, boxThresh: real,
                         detDbUnclipRatio: real, lib: Library, ocrResult: PaddleOcrResult) returns (ok: bool)
    requires ContoursInside(bitmap, contours)
    modifies ocrResult
    ensures ok
    ensures ocrResult.boxes == old(ocrResult.boxes) + BitmapBoxes(pred, bitmap, contours, boxThresh, detDbUnclipRatio, lib)
  {
    var numContours := NumContours(contours);
    for i := 0 to numContours
      invariant ocrResult.boxes
             == old(ocrResult.boxes) + Candidates(contours, i, Gate(pred, bitmap, boxThresh, detDbUnclipRatio, lib))
    {
      var candidate := CandidateFor(contours, i, pred, bitmap, boxThresh, detDbUnclipRatio, lib);
      if candidate.None? {
        continue;
      }
      ocrResult.boxes := ocrResult.boxes + [candidate.value];
    }
    return true;
  }
}
