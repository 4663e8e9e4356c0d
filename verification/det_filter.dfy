/**
 * `FilterTagDetRes`: map the boxes found at model resolution back to the original image, clamp
 * them into it, and drop the ones whose top or left side is 4 pixels or shorter.
 */
module DetFilter {
  import opened OcrTypes
  import opened Numeric
  import opened Corners

  /** `ShapeInfo`: the original image size and the size it was resized to for the model. */
  datatype ShapeInfo = ShapeInfo(oriW: int, oriH: int, resizeW: int, resizeH: int)

  /** Both sizes are positive, so both resize ratios exist and are positive. */
  predicate ValidShape(shape: ShapeInfo)
  {
    shape.oriW >= 1 && shape.oriH >= 1 && shape.resizeW >= 1 && shape.resizeH >= 1
  }

  /** `ratio_w = resize_w / ori_w`. */
  function RatioW(shape: ShapeInfo): (r: real)
    requires ValidShape(shape)
    ensures r > 0.0
  {
    shape.resizeW as real / shape.oriW as real
  }

  /** `ratio_h = resize_h / ori_h`. */
  function RatioH(shape: ShapeInfo): (r: real)
    requires ValidShape(shape)
    ensures r > 0.0
  {
    shape.resizeH as real / shape.oriH as real
  }

  /** One corner: divide by the ratio, truncate to int, then clamp into the original image. */
  function RescalePoint(p: Point, shape: ShapeInfo): (q: Point)
    requires ValidShape(shape)
    ensures 0 <= q.x <= shape.oriW - 1 && 0 <= q.y <= shape.oriH - 1
  {
    var x := Trunc(p.x as real / RatioW(shape));
    var y := Trunc(p.y as real / RatioH(shape));
    Point(Min(Max(x, 0), shape.oriW - 1), Min(Max(y, 0), shape.oriH - 1))
  }

  /** The four assignments of the inner loop, one after the other, compute `RescalePoint`. */
  lemma RescalePointInSteps(p: Point, shape: ShapeInfo, ratioW: real, ratioH: real)
    requires ValidShape(shape) && ratioW == RatioW(shape) && ratioH == RatioH(shape)
    ensures var p1 := p.(x := Trunc(p.x as real / ratioW));
      var p2 := p1.(y := Trunc(p1.y as real / ratioH));
      var p3 := p2.(x := Min(Max(p2.x, 0), shape.oriW - 1));
      var p4 := p3.(y := Min(Max(p3.y, 0), shape.oriH - 1));
      p4 == RescalePoint(p, shape)
  {
  }

  /** A box after the first loop: clockwise-ordered, then every corner rescaled. */
  function RescaleBox(box: Box, shape: ShapeInfo): (r: Box)
    requires |box| == 4 && ValidShape(shape)
    ensures |r| == 4
  {
    var o := OrderPointsClockwise(box);
    [RescalePoint(o[0], shape), RescalePoint(o[1], shape), RescalePoint(o[2], shape), RescalePoint(o[3], shape)]
  }

  /** A box whose corners are, one by one, the rescaled clockwise corners is the rescaled box. */
  lemma RescaleBoxPointwise(box: Box, shape: ShapeInfo, r: Box)
    requires |box| == 4 && ValidShape(shape) && |r| == 4
    requires forall j :: 0 <= j < 4 ==> r[j] == RescalePoint(OrderPointsClockwise(box)[j], shape)
    ensures r == RescaleBox(box, shape)
  {
  }

  /** Every box rescaled, in order. */
  function Rescaled(boxes: seq<Box>, shape: ShapeInfo): (r: seq<Box>)
    requires AllQuads(boxes) && ValidShape(shape)
    ensures |r| == |boxes| && AllQuads(r)
  {
    seq(|boxes|, n requires 0 <= n < |boxes| => RescaleBox(boxes[n], shape))
  }

  /** `pow(a.x - b.x, 2) + pow(a.y - b.y, 2)`: the squared distance of two corners. */
  function SquaredDistance(a: Point, b: Point): nat
  {
    (a.x - b.x) * (a.x - b.x) + (a.y - b.y) * (a.y - b.y)
  }

  /** The second loop's test: both truncated side lengths exceed 4. */
  predicate LongEnough(box: Box)
    requires |box| == 4
  {
    var rectWidth := ISqrt(SquaredDistance(box[0], box[1]));
    var rectHeight := ISqrt(SquaredDistance(box[0], box[3]));
    !(rectWidth <= 4 || rectHeight <= 4)
  }

  /** The boxes that pass `LongEnough`, in their original order. */
  function KeepLongEnough(boxes: seq<Box>): (kept: seq<Box>)
    requires AllQuads(boxes)
    ensures |kept| <= |boxes| && AllQuads(kept)
  {
    if boxes == [] then []
    else
      var init, last := boxes[..|boxes| - 1], boxes[|boxes| - 1];
      KeepLongEnough(init) + (if LongEnough(last) then [last] else [])
  }

  /** Filtering one more box appends it exactly when it is long enough. */
  lemma KeepLongEnoughAppend(boxes: seq<Box>, box: Box)
    requires AllQuads(boxes) && |box| == 4
    ensures AllQuads(boxes + [box])
    ensures KeepLongEnough(boxes + [box]) == KeepLongEnough(boxes) + (if LongEnough(box) then [box] else [])
  {
    assert (boxes + [box])[..|boxes|] == boxes;
  }

  /** What `FilterTagDetRes` leaves in `ocr_result->boxes`. */
  function FilterTagged(boxes: seq<Box>, shape: ShapeInfo): (r: seq<Box>)
    requires AllQuads(boxes) && ValidShape(shape)
    ensures |r| <= |boxes| && AllQuads(r)
  {
    KeepLongEnough(Rescaled(boxes, shape))
  }

  /** One pass of `FilterTagDetRes`'s first loop: box `n` reordered, then its corners rescaled. */
  method RescaleBoxAt(boxes: array<Box>, n: nat, shapeInfo: ShapeInfo)
    requires ValidShape(shapeInfo) && n < boxes.Length && |boxes[n]| == 4 && |boxes[0]| == 4
    modifies boxes
    ensures boxes[n] == RescaleBox(old(boxes[n]), shapeInfo)
    ensures forall k :: 0 <= k < boxes.Length && k != n ==> boxes[k] == old(boxes[k])
  {
    var oriW, oriH := shapeInfo.oriW, shapeInfo.oriH;
    var ratioW := shapeInfo.resizeW as real / shapeInfo.oriW as real;
    var ratioH := shapeInfo.resizeH as real / shapeInfo.oriH as real;
    ghost var original := boxes[n];
    boxes[n] := OrderPointsClockwise(boxes[n]);
    ghost var clockwise := boxes[n];
    assert |boxes[0]| == 4;
    for m := 0 to |boxes[0]|
      invariant |boxes[n]| == 4
      invariant forall j :: 0 <= j < m ==> boxes[n][j] == RescalePoint(clockwise[j], shapeInfo)
      invariant forall j :: m <= j < 4 ==> boxes[n][j] == clockwise[j]
      invariant forall k :: 0 <= k < boxes.Length && k != n ==> boxes[k] == old(boxes[k])
    {
      var p := boxes[n][m];
      RescalePointInSteps(p, shapeInfo, ratioW, ratioH);
      p := p.(x := Trunc(p.x as real / ratioW));
      p := p.(y := Trunc(p.y as real / ratioH));
      p := p.(x := Min(Max(p.x, 0), oriW - 1));
      p := p.(y := Min(Max(p.y, 0), oriH - 1));
      boxes[n] := boxes[n][m := p];
    }
    RescaleBoxPointwise(original, shapeInfo, boxes[n]);
  }

  /** `FilterTagDetRes`'s second loop: the long enough boxes, in order. */
  method CollectLongEnough(boxes: array<Box>) returns (rootPoints: seq<Box>)
    requires AllQuads(boxes[..])
    ensures rootPoints == KeepLongEnough(boxes[..])
  {
    rootPoints := [];
    for n := 0 to boxes.Length
      invariant rootPoints == KeepLongEnough(boxes[..n])
    {
      assert |boxes[n]| == 4 by { assert boxes[n] == boxes[..][n]; }
      var rectWidth := ISqrt(SquaredDistance(boxes[n][0], boxes[n][1]));
      var rectHeight := ISqrt(SquaredDistance(boxes[n][0], boxes[n][3]));
      assert boxes[..n + 1] == boxes[..n] + [boxes[n]];
      KeepLongEnoughAppend(boxes[..n], boxes[n]);
      if rectWidth <= 4 || rectHeight <= 4 {
        continue;
      }
      rootPoints := rootPoints + [boxes[n]];
    }
    assert boxes[..boxes.Length] == boxes[..];
  }

  /** `FilterTagDetRes`: reorder and rescale every box in place, then keep the long enough ones. */
  method FilterTagDetRes(shapeInfo: ShapeInfo, ocrResult: PaddleOcrResult) returns (ok: bool)
    requires ValidShape(shapeInfo) && AllQuads(ocrResult.boxes)
    modifies ocrResult
    ensures ok
    ensures ocrResult.boxes == FilterTagged(old(ocrResult.boxes), shapeInfo)
  {
    var source := ocrResult.boxes;
    var boxes := new Box[|source|](n requires 0 <= n < |source| => source[n]);
    ocrResult.boxes := [];
    for n := 0 to boxes.Length
      modifies boxes
      invariant forall k :: 0 <= k < n ==> boxes[k] == RescaleBox(source[k], shapeInfo)
      invariant forall k :: n <= k < boxes.Length ==> boxes[k] == source[k]
    {
      RescaleBoxAt(boxes, n, shapeInfo);
    }
    assert boxes[..] == Rescaled(source, shapeInfo);
    var rootPoints := CollectLongEnough(boxes);
    ocrResult.boxes := rootPoints;
    return true;
  }

  /** A corner that lies inside the original image. */
  predicate InImage(p: Point, shape: ShapeInfo)
  {
    0 <= p.x <= shape.oriW - 1 && 0 <= p.y <= shape.oriH - 1
  }

  /** The second loop keeps a box exactly when both sides have squared length at least 25. */
  lemma LongEnoughIff(box: Box)
    requires |box| == 4
    ensures LongEnough(box) <==> SquaredDistance(box[0], box[1]) >= 25 && SquaredDistance(box[0], box[3]) >= 25
  {
    var d1, d3 := SquaredDistance(box[0], box[1]), SquaredDistance(box[0], box[3]);
    TruncatedSideAtMostFour(d1);
    TruncatedSideAtMostFour(d3);
  }

  lemma TruncatedSideAtMostFour(d: nat)
    ensures ISqrt(d) <= 4 <==> d < 25
  {
    ISqrtAtMost(d, 4);
  }

  /** The positions, in increasing order, of the boxes that pass `LongEnough`. */
  function KeptIndices(boxes: seq<Box>): (idx: seq<nat>)
    requires AllQuads(boxes)
    ensures forall j :: 0 <= j < |idx| ==> idx[j] < |boxes|
  {
    if boxes == [] then []
    else
      var n := |boxes| - 1;
      KeptIndices(boxes[..n]) + (if LongEnough(boxes[n]) then [n] else [])
  }

  /** `KeptIndices` is strictly increasing. */
  lemma {:induction false} KeptIndicesIncreasing(boxes: seq<Box>)
    requires AllQuads(boxes)
    ensures forall j, j' :: 0 <= j < j' < |KeptIndices(boxes)| ==> KeptIndices(boxes)[j] < KeptIndices(boxes)[j']
    decreases |boxes|
  {
    if boxes != [] {
      KeptIndicesIncreasing(boxes[..|boxes| - 1]);
    }
  }

  /** A position is in `KeptIndices` exactly when its box passes `LongEnough`. */
  lemma {:induction false} KeptIndicesExactly(boxes: seq<Box>)
    requires AllQuads(boxes)
    ensures forall i :: 0 <= i < |boxes| ==> (i in KeptIndices(boxes) <==> LongEnough(boxes[i]))
    decreases |boxes|
  {
    if boxes != [] {
      var n := |boxes| - 1;
      var init := boxes[..n];
      KeptIndicesExactly(init);
      var idx0 := KeptIndices(init);
      assert forall j :: 0 <= j < |idx0| ==> idx0[j] < n;
      forall i | 0 <= i < |boxes|
        ensures i in KeptIndices(boxes) <==> LongEnough(boxes[i])
      {
        if i < n {
          assert boxes[i] == init[i];
        }
      }
    }
  }

  /** The boxes `KeepLongEnough` keeps are the boxes at `KeptIndices`, one for one. */
  lemma {:induction false} KeepLongEnoughAtIndices(boxes: seq<Box>)
    requires AllQuads(boxes)
    ensures |KeepLongEnough(boxes)| == |KeptIndices(boxes)|
    ensures forall j :: 0 <= j < |KeptIndices(boxes)| ==> KeepLongEnough(boxes)[j] == boxes[KeptIndices(boxes)[j]]
    decreases |boxes|
  {
    if boxes != [] {
      var n := |boxes| - 1;
      var init := boxes[..n];
      KeepLongEnoughAtIndices(init);
      assert forall j :: 0 <= j < |KeptIndices(init)| ==> init[KeptIndices(init)[j]] == boxes[KeptIndices(init)[j]];
    }
  }

  /**
   * `KeepLongEnough` is the subsequence of its input at `KeptIndices`: the kept boxes, in input
   * order, are exactly those that pass the test.
   */
  lemma KeepLongEnoughSelects(boxes: seq<Box>)
    requires AllQuads(boxes)
    ensures |KeepLongEnough(boxes)| == |KeptIndices(boxes)|
    ensures forall j :: 0 <= j < |KeptIndices(boxes)| ==> KeepLongEnough(boxes)[j] == boxes[KeptIndices(boxes)[j]]
    ensures forall j, j' :: 0 <= j < j' < |KeptIndices(boxes)| ==> KeptIndices(boxes)[j] < KeptIndices(boxes)[j']
    ensures forall i :: 0 <= i < |boxes| ==> (i in KeptIndices(boxes) <==> LongEnough(boxes[i]))
  {
    KeptIndicesIncreasing(boxes);
    KeptIndicesExactly(boxes);
    KeepLongEnoughAtIndices(boxes);
  }

  /** Filtering a second time removes nothing more. */
  lemma {:induction false} KeepLongEnoughIdempotent(boxes: seq<Box>)
    requires AllQuads(boxes)
    ensures KeepLongEnough(KeepLongEnough(boxes)) == KeepLongEnough(boxes)
    decreases |boxes|
  {
    if boxes != [] {
      var n := |boxes| - 1;
      var init, last := boxes[..n], boxes[n];
      KeepLongEnoughIdempotent(init);
      var kept := KeepLongEnough(init);
      if LongEnough(last) {
        assert KeepLongEnough(boxes) == kept + [last];
        KeepLongEnoughAppend(kept, last);
      } else {
        assert KeepLongEnough(boxes) == kept;
      }
    }
  }

  /** Rescaling is monotone in each coordinate: it keeps the relative order of corners. */
  lemma RescalePointMonotone(p: Point, q: Point, shape: ShapeInfo)
    requires ValidShape(shape)
    ensures p.x <= q.x ==> RescalePoint(p, shape).x <= RescalePoint(q, shape).x
    ensures p.y <= q.y ==> RescalePoint(p, shape).y <= RescalePoint(q, shape).y
  {
    var rw, rh := RatioW(shape), RatioH(shape);
    if p.x <= q.x {
      assert p.x as real / rw <= q.x as real / rw by {
        assert p.x as real / rw * rw == p.x as real && q.x as real / rw * rw == q.x as real;
      }
      TruncMonotone(p.x as real / rw, q.x as real / rw);
    }
    if p.y <= q.y {
      assert p.y as real / rh <= q.y as real / rh by {
        assert p.y as real / rh * rh == p.y as real && q.y as real / rh * rh == q.y as real;
      }
      TruncMonotone(p.y as real / rh, q.y as real / rh);
    }
  }

  /** A rescaled box is still in clockwise corner order and lies inside the original image. */
  lemma RescaleBoxOrderedInImage(box: Box, shape: ShapeInfo)
    requires |box| == 4 && ValidShape(shape)
    ensures ClockwiseOrdered(RescaleBox(box, shape))
    ensures forall m :: 0 <= m < 4 ==> InImage(RescaleBox(box, shape)[m], shape)
  {
    var o := OrderPointsClockwise(box);
    RescalePointMonotone(o[0], o[1], shape);
    RescalePointMonotone(o[0], o[2], shape);
    RescalePointMonotone(o[3], o[1], shape);
    RescalePointMonotone(o[3], o[2], shape);
    RescalePointMonotone(o[0], o[3], shape);
    RescalePointMonotone(o[1], o[2], shape);
  }

  /**
   * Every box `FilterTagDetRes` leaves is one of the input boxes, in clockwise corner order,
   * inside the original image and with both measured sides longer than 4.
   */
  lemma FilterTaggedProperties(boxes: seq<Box>, shape: ShapeInfo)
    requires AllQuads(boxes) && ValidShape(shape)
    ensures var r := FilterTagged(boxes, shape);
      |r| <= |boxes| &&
      forall j :: 0 <= j < |r| ==>
        |r[j]| == 4 && ClockwiseOrdered(r[j]) && LongEnough(r[j]) &&
        (forall m :: 0 <= m < 4 ==> InImage(r[j][m], shape)) &&
        exists i :: 0 <= i < |boxes| && r[j] == RescaleBox(boxes[i], shape)
  {
    var rescaled := Rescaled(boxes, shape);
    var r := FilterTagged(boxes, shape);
    KeepLongEnoughSelects(rescaled);
    var idx := KeptIndices(rescaled);
    forall j | 0 <= j < |r|
      ensures ClockwiseOrdered(r[j]) && LongEnough(r[j])
      ensures forall m :: 0 <= m < 4 ==> InImage(r[j][m], shape)
      ensures exists i :: 0 <= i < |boxes| && r[j] == RescaleBox(boxes[i], shape)
    {
      var i := idx[j];
      assert i in idx;
      assert r[j] == rescaled[i] == RescaleBox(boxes[i], shape);
      RescaleBoxOrderedInImage(boxes[i], shape);
    }
  }

  /** Without a resize the ratios are 1, so a corner inside the image is left where it is. */
  lemma RescalePointWithoutResize(p: Point, shape: ShapeInfo)
    requires ValidShape(shape) && shape.resizeW == shape.oriW && shape.resizeH == shape.oriH
    requires InImage(p, shape)
    ensures RescalePoint(p, shape) == p
  {
    assert RatioW(shape) == 1.0 && RatioH(shape) == 1.0;
    assert Trunc(p.x as real / RatioW(shape)) == p.x by {
      assert p.x as real / RatioW(shape) == p.x as real;
    }
    assert Trunc(p.y as real / RatioH(shape)) == p.y by {
      assert p.y as real / RatioH(shape) == p.y as real;
    }
  }

  /** Every corner of the ordered box is one of the input corners. */
  lemma OrderedCornerFromInput(box: Box, m: nat)
    requires |box| == 4 && m < 4
    ensures OrderPointsClockwise(box)[m] in box
  {
    var o := OrderPointsClockwise(box);
    OrderPointsClockwisePermutes(box);
    assert o[m] in multiset(o);
  }

  /**
   * When the image was not resized and every corner already lies inside it, the first loop only
   * reorders the corners.
   */
  lemma RescaleWithoutResize(box: Box, shape: ShapeInfo)
    requires |box| == 4 && ValidShape(shape)
    requires shape.resizeW == shape.oriW && shape.resizeH == shape.oriH
    requires forall m :: 0 <= m < 4 ==> InImage(box[m], shape)
    ensures RescaleBox(box, shape) == OrderPointsClockwise(box)
  {
    var o := OrderPointsClockwise(box);
    forall m | 0 <= m < 4
      ensures RescalePoint(o[m], shape) == o[m]
    {
      OrderedCornerFromInput(box, m);
      RescalePointWithoutResize(o[m], shape);
    }
  }
}
