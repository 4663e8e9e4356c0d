/**
 * The area half of `GetContourArea`: the shoelace sum over the four corners of a box, taken
 * cyclically, halved and made non-negative.
 */
module ContourArea {
  import opened OcrTypes
  import opened Numeric

  /** The cross product `p.x * q.y - p.y * q.x`, one term of the shoelace sum. */
  function Cross(p: PointF, q: PointF): real
  {
    p.x * q.y - p.y * q.x
  }

  /** The first `k` terms of the cyclic shoelace sum over a four-point box. */
  function ShoelacePrefix(box: seq<PointF>, k: nat): real
    requires |box| == 4 && k <= 4
  {
    if k == 0 then 0.0 else ShoelacePrefix(box, k - 1) + Cross(box[k - 1], box[k % 4])
  }

  /** The whole cyclic shoelace sum: twice the signed area. */
  function Shoelace(box: seq<PointF>): real
    requires |box| == 4
  {
    ShoelacePrefix(box, 4)
  }

  /** The polygon's area: half the absolute shoelace sum. */
  function PolygonArea(box: seq<PointF>): (area: real)
    requires |box| == 4
    ensures area >= 0.0
  {
    Abs(Shoelace(box)) / 2.0
  }

  lemma ShoelaceExpanded(box: seq<PointF>)
    requires |box| == 4
    ensures Shoelace(box) == Cross(box[0], box[1]) + Cross(box[1], box[2]) + Cross(box[2], box[3]) + Cross(box[3], box[0])
  {
    assert ShoelacePrefix(box, 1) == Cross(box[0], box[1]);
    assert ShoelacePrefix(box, 2) == ShoelacePrefix(box, 1) + Cross(box[1], box[2]);
    assert ShoelacePrefix(box, 3) == ShoelacePrefix(box, 2) + Cross(box[2], box[3]);
  }

  /** `GetContourArea`'s accumulator loop, followed by `fabs(area / 2.0)`. */
  method GetContourArea(box: seq<PointF>) returns (area: real)
    requires |box| == 4
    ensures area >= 0.0
    ensures area == PolygonArea(box)
  {
    var ptsNum := 4;
    area := 0.0;
    var i := 0;
    while i < ptsNum
      invariant 0 <= i <= ptsNum
      invariant area == ShoelacePrefix(box, i)
    {
      area := area + box[i].x * box[(i + 1) % ptsNum].y - box[i].y * box[(i + 1) % ptsNum].x;
      i := i + 1;
    }
    area := Abs(area / 2.0);
  }

  /** For an axis-aligned rectangle the area is width times height. */
  lemma AxisAlignedRectangleArea(x0: real, y0: real, x1: real, y1: real)
    ensures PolygonArea([PointF(x0, y0), PointF(x1, y0), PointF(x1, y1), PointF(x0, y1)])
         == Abs((x1 - x0) * (y1 - y0))
  {
    var box := [PointF(x0, y0), PointF(x1, y0), PointF(x1, y1), PointF(x0, y1)];
    ShoelaceExpanded(box);
    assert Cross(box[0], box[1]) + Cross(box[1], box[2]) + Cross(box[2], box[3]) + Cross(box[3], box[0])
        == 2.0 * ((x1 - x0) * (y1 - y0));
  }

  /** Traversing the corners the other way round negates the sum and keeps the area. */
  lemma AreaIndependentOfOrientation(box: seq<PointF>)
    requires |box| == 4
    ensures PolygonArea([box[3], box[2], box[1], box[0]]) == PolygonArea(box)
  {
    var rev := [box[3], box[2], box[1], box[0]];
    ShoelaceExpanded(box);
    ShoelaceExpanded(rev);
    assert Shoelace(rev) == -Shoelace(box);
  }

  /** Starting the traversal at another corner keeps the area. */
  lemma AreaIndependentOfStartCorner(box: seq<PointF>)
    requires |box| == 4
    ensures PolygonArea([box[1], box[2], box[3], box[0]]) == PolygonArea(box)
  {
    var rot := [box[1], box[2], box[3], box[0]];
    ShoelaceExpanded(box);
    ShoelaceExpanded(rot);
  }

  /** Moving both points by an offset changes their cross product by terms that cancel around a cycle. */
  lemma CrossTranslated(p: PointF, q: PointF, dx: real, dy: real)
    ensures Cross(PointF(p.x + dx, p.y + dy), PointF(q.x + dx, q.y + dy))
         == Cross(p, q) + dx * (q.y - p.y) - dy * (q.x - p.x)
  {
  }

  /** Moving the box by an offset keeps the area. */
  lemma AreaTranslationInvariant(box: seq<PointF>, dx: real, dy: real)
    requires |box| == 4
    ensures var moved := [PointF(box[0].x + dx, box[0].y + dy), PointF(box[1].x + dx, box[1].y + dy),
                          PointF(box[2].x + dx, box[2].y + dy), PointF(box[3].x + dx, box[3].y + dy)];
      PolygonArea(moved) == PolygonArea(box)
  {
    var moved := [PointF(box[0].x + dx, box[0].y + dy), PointF(box[1].x + dx, box[1].y + dy),
                  PointF(box[2].x + dx, box[2].y + dy), PointF(box[3].x + dx, box[3].y + dy)];
    ShoelaceExpanded(box);
    ShoelaceExpanded(moved);
    CrossTranslated(box[0], box[1], dx, dy);
    CrossTranslated(box[1], box[2], dx, dy);
    CrossTranslated(box[2], box[3], dx, dy);
    CrossTranslated(box[3], box[0], dx, dy);
    assert Shoelace(moved) == Shoelace(box);
  }
}
