/**
 * Canonical corner order of a detection quadrilateral: the comparators, `OrderPointsClockwise`
 * and the ordering half of `GetMiniBoxes`.
 */
module Corners {
  import opened OcrTypes
  import opened Numeric
  import opened Sorting

  /** `XsortInt`: orders integer points by x alone; points with equal x compare as equivalent. */
  function XsortInt(a: Point, b: Point): (less: bool)
    ensures less <==> a.x < b.x
  {
    if a.x != b.x then a.x < b.x else false
  }

  /** `XsortFp32`: the same comparison on float points. */
  function XsortFp32(a: PointF, b: PointF): (less: bool)
    ensures less <==> a.x < b.x
  {
    if a.x != b.x then a.x < b.x else false
  }

  /** Both comparators order by x and are strict weak orderings, as `std::sort` requires. */
  lemma XsortIsStrictWeakOrder()
    ensures forall a: Point, b: Point :: XsortInt(a, b) <==> a.x < b.x
    ensures forall a: PointF, b: PointF :: XsortFp32(a, b) <==> a.x < b.x
    ensures StrictWeakOrder(XsortInt) && StrictWeakOrder(XsortFp32)
  {
  }

  /** Four integer points arranged by non-decreasing x. */
  predicate XSorted(b: seq<Point>)
  {
    |b| == 4 && b[0].x <= b[1].x <= b[2].x <= b[3].x
  }

  /** `XSorted` for float points. */
  predicate XSortedF(b: seq<PointF>)
  {
    |b| == 4 && b[0].x <= b[1].x <= b[2].x <= b[3].x
  }

  lemma SortedByXsortInt(b: seq<Point>)
    requires |b| == 4 && Sorted(b, XsortInt)
    ensures XSorted(b)
  {
    assert !XsortInt(b[1], b[0]) && !XsortInt(b[2], b[1]) && !XsortInt(b[3], b[2]);
  }

  /** The y-ordering of each pair in `OrderPointsClockwise`, applied to an x-sorted arrangement. */
  function OrderSortedClockwise(box: seq<Point>): (rect: seq<Point>)
    requires |box| == 4
  {
    var leftmost := if box[0].y > box[1].y then [box[1], box[0]] else [box[0], box[1]];
    var rightmost := if box[2].y > box[3].y then [box[3], box[2]] else [box[2], box[3]];
    [leftmost[0], rightmost[0], rightmost[1], leftmost[1]]
  }

  /** The corner-order properties of a box in (leftTop, rightTop, rightBottom, leftBottom) order. */
  predicate ClockwiseOrdered(rect: seq<Point>)
  {
    |rect| == 4 &&
    rect[0].x <= rect[1].x && rect[0].x <= rect[2].x &&
    rect[3].x <= rect[1].x && rect[3].x <= rect[2].x &&
    rect[0].y <= rect[3].y && rect[1].y <= rect[2].y
  }

  /** `ClockwiseOrdered` for float points. */
  predicate ClockwiseOrderedF(rect: seq<PointF>)
  {
    |rect| == 4 &&
    rect[0].x <= rect[1].x && rect[0].x <= rect[2].x &&
    rect[3].x <= rect[1].x && rect[3].x <= rect[2].x &&
    rect[0].y <= rect[3].y && rect[1].y <= rect[2].y
  }

  /** The pairs of an x-sorted box, each ordered by y: leftTop, leftBottom, rightTop, rightBottom. */
  function SortedPairs(box: seq<Point>): (pairs: seq<Point>)
    requires |box| == 4
    ensures |pairs| == 4 && multiset(pairs) == multiset(box)
  {
    var left := if box[0].y > box[1].y then Swap(box, 0, 1) else box;
    if left[2].y > left[3].y then Swap(left, 2, 3) else left
  }

  lemma OrderSortedClockwiseFromPairs(box: seq<Point>)
    requires |box| == 4
    ensures var p := SortedPairs(box); OrderSortedClockwise(box) == [p[0], p[2], p[3], p[1]]
  {
  }

  /**
   * Whatever order `std::sort` leaves points with equal x in, the pairing step yields a
   * permutation of its input in which the left pair lies at or left of the right pair and each
   * pair runs top to bottom.
   */
  lemma OrderSortedClockwiseCorrect(box: seq<Point>)
    requires XSorted(box)
    ensures multiset(OrderSortedClockwise(box)) == multiset(box)
    ensures ClockwiseOrdered(OrderSortedClockwise(box))
  {
    OrderSortedClockwiseFromPairs(box);
    PairsToCorners(SortedPairs(box));
  }

  /** `OrderPointsClockwise`: x-sort, split into a left and a right pair, order each pair by y. */
  function OrderPointsClockwise(pts: seq<Point>): (rect: seq<Point>)
    requires |pts| == 4
    ensures ClockwiseOrdered(rect)
  {
    var box := Sort(pts, XsortInt);
    XsortIsStrictWeakOrder();
    SortSorted(pts, XsortInt);
    SortedByXsortInt(box);
    OrderSortedClockwiseCorrect(box);
    OrderSortedClockwise(box)
  }

  /** The ordered box holds exactly the input corners: nothing is lost or duplicated. */
  lemma OrderPointsClockwisePermutes(pts: seq<Point>)
    requires |pts| == 4
    ensures multiset(OrderPointsClockwise(pts)) == multiset(pts)
  {
    var box := Sort(pts, XsortInt);
    XsortIsStrictWeakOrder();
    SortSorted(pts, XsortInt);
    SortPermutes(pts, XsortInt);
    SortedByXsortInt(box);
    OrderSortedClockwiseCorrect(box);
  }

  /** No two of the points share an x-coordinate. */
  predicate DistinctX(pts: seq<Point>)
  {
    forall i, j :: 0 <= i < |pts| && 0 <= j < |pts| && i != j ==> pts[i].x != pts[j].x
  }

  /** With pairwise distinct x-coordinates, ordering an already ordered box changes nothing. */
  lemma OrderPointsClockwiseIdempotent(pts: seq<Point>)
    requires |pts| == 4 && DistinctX(pts)
    ensures OrderPointsClockwise(OrderPointsClockwise(pts)) == OrderPointsClockwise(pts)
  {
    var out := OrderPointsClockwise(pts);
    OrderPointsClockwisePermutes(pts);
    XsortIsStrictWeakOrder();
    assert NoTies(pts, XsortInt);
    SortNoTies(pts, XsortInt);
    SortSorted(pts, XsortInt);
    SortSorted(out, XsortInt);
    SortPermutes(pts, XsortInt);
    SortPermutes(out, XsortInt);
    SortedUnique(Sort(pts, XsortInt), Sort(out, XsortInt), XsortInt);
  }

  /** Insertion sort leaves four points that are already in x order where they are. */
  lemma SortTiedExample()
    ensures Sort([Point(0, 5), Point(0, 1), Point(0, 3), Point(1, 0)], XsortInt)
         == [Point(0, 5), Point(0, 1), Point(0, 3), Point(1, 0)]
  {
    var pts := [Point(0, 5), Point(0, 1), Point(0, 3), Point(1, 0)];
    assert pts[..3] == [Point(0, 5), Point(0, 1), Point(0, 3)];
    assert pts[..3][..2] == [Point(0, 5), Point(0, 1)];
    assert pts[..3][..2][..1] == [Point(0, 5)];
    assert Sort([Point(0, 5)], XsortInt) == [Point(0, 5)];
    assert Sort(pts[..3][..2], XsortInt) == [Point(0, 5), Point(0, 1)];
    assert pts[..3] == [Point(0, 5), Point(0, 1), Point(0, 3)];
    assert Sort(pts[..3], XsortInt) == pts[..3];
  }

  /** Insertion sort moves the single right point of this box behind the three on x = 0. */
  lemma SortTiedExampleOrdered()
    ensures Sort([Point(0, 1), Point(1, 0), Point(0, 3), Point(0, 5)], XsortInt)
         == [Point(0, 1), Point(0, 3), Point(0, 5), Point(1, 0)]
  {
    var out := [Point(0, 1), Point(1, 0), Point(0, 3), Point(0, 5)];
    assert out[..3] == [Point(0, 1), Point(1, 0), Point(0, 3)];
    assert out[..3][..2] == [Point(0, 1), Point(1, 0)];
    assert out[..3][..2][..1] == [Point(0, 1)];
    assert Sort([Point(0, 1)], XsortInt) == [Point(0, 1)];
    assert Sort(out[..3][..2], XsortInt) == [Point(0, 1), Point(1, 0)];
    assert out[..3] == [Point(0, 1), Point(1, 0), Point(0, 3)];
    assert Insert(Point(0, 3), [Point(0, 1)], XsortInt) == [Point(0, 1), Point(0, 3)];
    assert Sort(out[..3], XsortInt) == [Point(0, 1), Point(0, 3), Point(1, 0)];
    assert Insert(Point(0, 5), [Point(0, 1), Point(0, 3)], XsortInt) == [Point(0, 1), Point(0, 3), Point(0, 5)];
  }

  /**
   * Without distinct x-coordinates the ordering is not idempotent: three points on one vertical
   * line straddle the left/right split, and a second pass pairs them differently.
   */
  lemma OrderPointsClockwiseNotIdempotentOnTies()
    ensures var pts := [Point(0, 5), Point(0, 1), Point(0, 3), Point(1, 0)];
      OrderPointsClockwise(pts) == [Point(0, 1), Point(1, 0), Point(0, 3), Point(0, 5)] &&
      OrderPointsClockwise(OrderPointsClockwise(pts)) == [Point(0, 1), Point(1, 0), Point(0, 5), Point(0, 3)]
  {
    SortTiedExample();
    SortTiedExampleOrdered();
  }

  /** `GetMiniBoxes`' result: the four corners in canonical order and the size gate `ssid`. */
  datatype MiniBox = MiniBox(points: seq<PointF>, ssid: real)

  /** `Mat2Vector(boxPoints(box))`: the rectangle's corners as a vector of points. */
  function BoxPoints(box: RotatedRect): seq<PointF>
  {
    [box.corners.p0, box.corners.p1, box.corners.p2, box.corners.p3]
  }

  /** The rectangle's corners sorted by x with `XsortFp32`. */
  function XSortedCorners(box: RotatedRect): (a: seq<PointF>)
    ensures XSortedF(a)
  {
    var a := Sort(BoxPoints(box), XsortFp32);
    XsortIsStrictWeakOrder();
    SortSorted(BoxPoints(box), XsortFp32);
    assert !XsortFp32(a[1], a[0]) && !XsortFp32(a[2], a[1]) && !XsortFp32(a[3], a[2]);
    a
  }

  /** The x-sorted corners are the rectangle's corners, rearranged. */
  lemma XSortedCornersPermutes(box: RotatedRect)
    ensures multiset(XSortedCorners(box)) == multiset(BoxPoints(box))
  {
    SortPermutes(BoxPoints(box), XsortFp32);
  }

  /**
   * `GetMiniBoxes`: `ssid` is the larger side of the rectangle; the corners are x-sorted, the two
   * rightmost become top-right and bottom-right and the two leftmost top-left and bottom-left,
   * the smaller y on top and, on equal y, the later of the sorted pair on top.
   */
  function GetMiniBoxes(box: RotatedRect): (r: MiniBox)
    ensures |r.points| == 4
    ensures r.ssid >= box.width && r.ssid >= box.height && (r.ssid == box.width || r.ssid == box.height)
  {
    var ssid := MaxF(box.width, box.height);
    var arr := XSortedCorners(box);
    var (idx2, idx3) := if arr[3].y <= arr[2].y then (arr[3], arr[2]) else (arr[2], arr[3]);
    var (idx1, idx4) := if arr[1].y <= arr[0].y then (arr[1], arr[0]) else (arr[0], arr[1]);
    MiniBox([idx1, idx2, idx3, idx4], ssid)
  }

  /** The y-ordered pairs `GetMiniBoxes` forms: top-left, bottom-left, top-right, bottom-right. */
  function MiniPairs(arr: seq<PointF>): (pairs: seq<PointF>)
    requires |arr| == 4
    ensures |pairs| == 4 && multiset(pairs) == multiset(arr)
  {
    var left := if arr[1].y <= arr[0].y then Swap(arr, 0, 1) else arr;
    if left[3].y <= left[2].y then Swap(left, 2, 3) else left
  }

  /** Each pair of an x-sorted arrangement ends up top to bottom, the left pair left of the right. */
  lemma MiniPairsOrdered(arr: seq<PointF>)
    requires XSortedF(arr)
    ensures var q := MiniPairs(arr);
      q[0].x <= q[2].x && q[0].x <= q[3].x && q[1].x <= q[2].x && q[1].x <= q[3].x &&
      q[0].y <= q[1].y && q[2].y <= q[3].y
  {
  }

  lemma GetMiniBoxesFromPairs(box: RotatedRect)
    ensures var p := MiniPairs(XSortedCorners(box)); GetMiniBoxes(box).points == [p[0], p[2], p[3], p[1]]
  {
  }

  /**
   * The corners `GetMiniBoxes` returns are those of the rectangle, the left pair at or left of
   * the right pair, each pair running top to bottom.
   */
  lemma GetMiniBoxesCorners(box: RotatedRect)
    ensures multiset(GetMiniBoxes(box).points) == multiset(BoxPoints(box))
    ensures ClockwiseOrderedF(GetMiniBoxes(box).points)
  {
    var a := XSortedCorners(box);
    var q := MiniPairs(a);
    GetMiniBoxesFromPairs(box);
    XSortedCornersPermutes(box);
    PairsToCorners(q);
    MiniPairsOrdered(a);
  }

  /**
   * Which sorted corner takes which role: top-left and bottom-left are the two smallest-x corners,
   * top-right and bottom-right the two largest; on a y-tie the later sorted corner is the top one.
   */
  lemma GetMiniBoxesRoles(box: RotatedRect)
    ensures var a, p := XSortedCorners(box), GetMiniBoxes(box).points;
      multiset{p[0], p[3]} == multiset{a[0], a[1]} &&
      multiset{p[1], p[2]} == multiset{a[2], a[3]} &&
      (a[0].y == a[1].y ==> p[0] == a[1] && p[3] == a[0]) &&
      (a[2].y == a[3].y ==> p[1] == a[3] && p[2] == a[2])
  {
  }
}
