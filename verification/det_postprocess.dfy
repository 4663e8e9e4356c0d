/**
 * The batch loop of `DetPostProc`: for each image of the batch, the candidate boxes are taken
 * from its bitmap, rescaled and filtered, and the image's result is pushed onto the caller's
 * result list. The loop body ends in `return true`, so only the first image is ever processed;
 * `DetPostProc` models that, and `DetPostProcAll` is the loop as evidently intended.
 */
module DetPostProcess {
  import opened OcrTypes
  import opened Corners
  import opened DetBoxes
  import opened DetFilter

  /**
   * One image of the batch as the postprocessor sees it after OpenCV has run: the probability
   * map, the dilated bitmap, the contours found in it, and the image's `ShapeInfo`.
   */
  datatype DetImage = DetImage(pred: ProbMap, bitmap: Bitmap, contours: seq<seq<Point>>, shape: ShapeInfo)

  /** The configuration `Init` reads: `det_db_box_thresh` and `det_db_unclip_ratio`. */
  datatype DetConfig = DetConfig(boxThresh: real, unclipRatio: real)

  /** An image whose contours lie in its bitmap and whose shape has positive sizes. */
  predicate ValidImage(img: DetImage)
  {
    ContoursInside(img.bitmap, img.contours) && ValidShape(img.shape)
  }

  predicate ValidBatch(images: seq<DetImage>)
  {
    forall i :: 0 <= i < |images| ==> ValidImage(images[i])
  }

  /** The caller's `std::vector<PaddleOcrResult>`: one list of boxes per processed image. */
  class OcrResults {
    var results: seq<seq<Box>>

    constructor ()
      ensures results == []
    {
      results := [];
    }
  }

  /** Every box found in the bitmap has four corners. */
  lemma BitmapBoxesQuads(img: DetImage, cfg: DetConfig, lib: Library)
    requires ValidImage(img)
    ensures AllQuads(BitmapBoxes(img.pred, img.bitmap, img.contours, cfg.boxThresh, cfg.unclipRatio, lib))
  {
    BitmapBoxesOnGrid(img.pred, img.bitmap, img.contours, cfg.boxThresh, cfg.unclipRatio, lib);
  }

  /** The boxes of one image's result: the bitmap's boxes, rescaled to the original image and filtered. */
  function ImageBoxes(img: DetImage, cfg: DetConfig, lib: Library): (boxes: seq<Box>)
    requires ValidImage(img)
    ensures |boxes| <= |BitmapBoxes(img.pred, img.bitmap, img.contours, cfg.boxThresh, cfg.unclipRatio, lib)|
  {
    BitmapBoxesQuads(img, cfg, lib);
    FilterTagged(BitmapBoxes(img.pred, img.bitmap, img.contours, cfg.boxThresh, cfg.unclipRatio, lib), img.shape)
  }

  /**
   * The loop body's result for one image, as a function of the image, the configuration fixed.
   * Like `Gate`, it has no counterpart in the C++: it keeps `ImageBoxes` folded in the proofs
   * about the batch loop.
   */
  function Process(cfg: DetConfig, lib: Library): DetImage --> seq<Box>
  {
    img requires ValidImage(img) => ImageBoxes(img, cfg, lib)
  }

  /** `process` can handle every image of the batch. */
  ghost predicate ProcessDefined(images: seq<DetImage>, process: DetImage --> seq<Box>)
  {
    forall i :: 0 <= i < |images| ==> process.requires(images[i])
  }

  /** What a loop that hands every image to `process` pushes: one result per image, in batch order. */
  function Pushed(images: seq<DetImage>, process: DetImage --> seq<Box>): (results: seq<seq<Box>>)
    requires ProcessDefined(images, process)
    ensures |results| == |images|
  {
    if images == [] then []
    else Pushed(images[..|images| - 1], process) + [process(images[|images| - 1])]
  }

  /** Looking at one more image pushes exactly that image's result. */
  lemma PushedStep(images: seq<DetImage>, process: DetImage --> seq<Box>, i: nat)
    requires ProcessDefined(images, process) && i < |images|
    ensures Pushed(images[..i + 1], process) == Pushed(images[..i], process) + [process(images[i])]
  {
    assert images[..i + 1][..i] == images[..i];
  }

  /** The result pushed for image `i` is `process` of that image. */
  lemma {:induction false} PushedAt(images: seq<DetImage>, process: DetImage --> seq<Box>, i: nat)
    requires ProcessDefined(images, process) && i < |images|
    ensures Pushed(images, process)[i] == process(images[i])
  {
    var n := |images| - 1;
    if i < n {
      PushedAt(images[..n], process, i);
    }
  }

  /** The results the batch loop pushes when it looks at every image. */
  function DetResults(images: seq<DetImage>, cfg: DetConfig, lib: Library): (results: seq<seq<Box>>)
    requires ValidBatch(images)
    ensures |results| == |images|
  {
    Pushed(images, Process(cfg, lib))
  }

  /** The result the intended loop pushes for image `i` is that image's boxes. */
  lemma DetResultsAt(images: seq<DetImage>, cfg: DetConfig, lib: Library, i: nat)
    requires ValidBatch(images) && i < |images|
    ensures DetResults(images, cfg, lib)[i] == ImageBoxes(images[i], cfg, lib)
  {
    PushedAt(images, Process(cfg, lib), i);
  }

  /** The results the loop as written pushes: those of the first image, if there is one. */
  function FirstImageOnly(images: seq<DetImage>, cfg: DetConfig, lib: Library): (results: seq<seq<Box>>)
    requires ValidBatch(images)
    ensures |results| <= 1
  {
    if images == [] then [] else [ImageBoxes(images[0], cfg, lib)]
  }

  /** One pass of the batch loop's body: a fresh result filled by `BoxesFromBitmap` and `FilterTagDetRes`. */
  method ProcessImage(img: DetImage, cfg: DetConfig, lib: Library) returns (boxes: seq<Box>)
    requires ValidImage(img)
    ensures boxes == ImageBoxes(img, cfg, lib)
  {
    var ocrResult := new PaddleOcrResult();
    var _ := BoxesFromBitmap(img.pred, img.bitmap, img.contours, cfg.boxThresh, cfg.unclipRatio, lib, ocrResult);
    ghost var found := BitmapBoxes(img.pred, img.bitmap, img.contours, cfg.boxThresh, cfg.unclipRatio, lib);
    assert ocrResult.boxes == found;
    BitmapBoxesQuads(img, cfg, lib);
    var _ := FilterTagDetRes(img.shape, ocrResult);
    assert ocrResult.boxes == FilterTagged(found, img.shape);
    boxes := ocrResult.boxes;
  }

  /**
   * `DetPostProc` as written: the `return true` at the end of the loop body leaves the loop after
   * the first image. On an empty batch the loop never runs and the function falls off its end,
   * so its result is undefined; the model answers `false` there.
   */
  method DetPostProc(images: seq<DetImage>, cfg: DetConfig, lib: Library, ocrResults: OcrResults)
    returns (ok: bool)
    requires ValidBatch(images)
    modifies ocrResults
    ensures images != [] ==> ok
    ensures ocrResults.results == old(ocrResults.results) + FirstImageOnly(images, cfg, lib)
  {
    for i := 0 to |images|
      invariant i == 0
      invariant ocrResults.results == old(ocrResults.results)
    {
      var boxes := ProcessImage(images[i], cfg, lib);
      ocrResults.results := ocrResults.results + [boxes];
      return true;
    }
    return false;
  }

  /** The batch loop as evidently intended: every image's result is pushed, in batch order. */
  method DetPostProcAll(images: seq<DetImage>, cfg: DetConfig, lib: Library, ocrResults: OcrResults)
    returns (ok: bool)
    requires ValidBatch(images)
    modifies ocrResults
    ensures ok
    ensures ocrResults.results == old(ocrResults.results) + DetResults(images, cfg, lib)
  {
    for i := 0 to |images|
      invariant ocrResults.results == old(ocrResults.results) + DetResults(images[..i], cfg, lib)
    {
      var boxes := ProcessImage(images[i], cfg, lib);
      PushedStep(images, Process(cfg, lib), i);
      ocrResults.results := ocrResults.results + [boxes];
    }
    assert images[..|images|] == images;
    return true;
  }

  /**
   * The loop as written loses every image after the first: on a batch of two or more it pushes
   * one result where the intended loop pushes one per image, and that one result is the first
   * image's.
   */
  lemma EarlyReturnDropsImages(images: seq<DetImage>, cfg: DetConfig, lib: Library)
    requires ValidBatch(images) && |images| >= 2
    ensures |FirstImageOnly(images, cfg, lib)| == 1 < |images| == |DetResults(images, cfg, lib)|
    ensures FirstImageOnly(images, cfg, lib) == DetResults(images, cfg, lib)[..1]
  {
    DetResultsAt(images, cfg, lib, 0);
    assert DetResults(images, cfg, lib)[..1] == [DetResults(images, cfg, lib)[0]];
  }

  /** On a batch of one image the two loops push the same results. */
  lemma SingleImageAgrees(images: seq<DetImage>, cfg: DetConfig, lib: Library)
    requires ValidBatch(images) && |images| <= 1
    ensures FirstImageOnly(images, cfg, lib) == DetResults(images, cfg, lib)
  {
    if |images| == 1 {
      DetResultsAt(images, cfg, lib, 0);
    }
  }

  /**
   * What every box of one image's reported result satisfies: its corners are in clockwise order
   * inside the original image, both measured sides are longer than 4, and it is the rescaled
   * version of one of the boxes `found` in the bitmap, which lies on the probability map's grid.
   */
  ghost predicate ReportedBoxes(boxes: seq<Box>, found: seq<Box>, img: DetImage)
    requires ValidShape(img.shape)
  {
    forall j :: 0 <= j < |boxes| ==>
      |boxes[j]| == 4
      && ClockwiseOrdered(boxes[j])
      && LongEnough(boxes[j])
      && (forall m :: 0 <= m < 4 ==> InImage(boxes[j][m], img.shape))
      && exists k :: 0 <= k < |found| && BoxOnGrid(found[k], img.pred) && boxes[j] == RescaleBox(found[k], img.shape)
  }

  /** One image's result consists of reported boxes drawn from its bitmap's boxes. */
  lemma ImageBoxesProperties(img: DetImage, cfg: DetConfig, lib: Library)
    requires ValidImage(img)
    ensures ReportedBoxes(ImageBoxes(img, cfg, lib),
                          BitmapBoxes(img.pred, img.bitmap, img.contours, cfg.boxThresh, cfg.unclipRatio, lib), img)
  {
    var found := BitmapBoxes(img.pred, img.bitmap, img.contours, cfg.boxThresh, cfg.unclipRatio, lib);
    BitmapBoxesQuads(img, cfg, lib);
    BitmapBoxesOnGrid(img.pred, img.bitmap, img.contours, cfg.boxThresh, cfg.unclipRatio, lib);
    FilterTaggedProperties(found, img.shape);
    var r := ImageBoxes(img, cfg, lib);
    assert r == FilterTagged(found, img.shape);
    forall j | 0 <= j < |r|
      ensures exists k :: 0 <= k < |found| && BoxOnGrid(found[k], img.pred) && r[j] == RescaleBox(found[k], img.shape)
    {
      var k :| 0 <= k < |found| && r[j] == RescaleBox(found[k], img.shape);
      assert BoxOnGrid(found[k], img.pred);
    }
  }

  /** The result the intended loop pushes for image `i` consists of reported boxes drawn from its bitmap's boxes. */
  lemma DetResultsProperties(images: seq<DetImage>, cfg: DetConfig, lib: Library, i: nat)
    requires ValidBatch(images) && i < |images|
    ensures ReportedBoxes(DetResults(images, cfg, lib)[i],
                          BitmapBoxes(images[i].pred, images[i].bitmap, images[i].contours, cfg.boxThresh,
                                      cfg.unclipRatio, lib), images[i])
  {
    DetResultsAt(images, cfg, lib, i);
    ImageBoxesProperties(images[i], cfg, lib);
  }
}
