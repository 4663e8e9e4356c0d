/** Values shared by every stage of the text-detection postprocessor. */
module OcrTypes {

  /** An integer pixel point, `std::vector<int>{x, y}` in the source. */
  datatype Point = Point(x: int, y: int)

  /** A single-precision point, `std::vector<float>{x, y}`; floats are modelled as exact reals. */
  datatype PointF = PointF(x: real, y: real)

  /** The four corners `cv::boxPoints` yields for a rotated rectangle, in the order it yields them. */
  datatype BoxCorners = BoxCorners(p0: PointF, p1: PointF, p2: PointF, p3: PointF)

  /** `cv::RotatedRect` as far as this core looks at it: its size and its corners. */
  datatype RotatedRect = RotatedRect(width: real, height: real, corners: BoxCorners)

  datatype Option<T> = None | Some(value: T)

  /** A detection box: a quadrilateral of integer points. */
  type Box = seq<Point>

  /** Every box of `bs` has exactly four corners. */
  predicate AllQuads(bs: seq<Box>)
  {
    forall k :: 0 <= k < |bs| ==> |bs[k]| == 4
  }

  /** `PaddleOcrResult`: the boxes found in one image, filled in place through a pointer. */
  class PaddleOcrResult {
    var boxes: seq<Box>

    constructor ()
      ensures boxes == []
    {
      boxes := [];
    }
  }
}
