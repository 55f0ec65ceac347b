/**
 * Call sequences on a fresh detector, stated as methods whose postconditions
 * follow from `Predict`'s contract alone.
 */
module Scenarios {
  import opened Wrappers
  import opened Frames
  import opened Smoothing
  import opened Scoring
  import opened FrameBuffers
  import opened ObjectDetection

  /** A box draw inside the ranges the placeholder scorer draws from. */
  function CentreDraw(f: Frame): (d: BoxDraw)
    requires f.height >= MinSide && f.width >= MinSide
    ensures ValidDraw(d, f.height, f.width)
  {
    BoxDraw(0, 0, f.width / 2, f.height / 2)
  }

  /** `predict(None)` on a fresh detector raises the invalid-frame error. */
  method InvalidImageScenario(now: int) returns (r: Result<seq<Detection>, PredictError>)
    ensures r == Failure(InvalidFrame)
  {
    var det := new ObjectDetector();
    r := det.Predict(None, now, BoxDraw(0, 0, 0, 0), LowestConfidence);
  }

  /**
   * A large enough image on a fresh detector gives exactly one detection: the
   * drawn box, whatever `randint` returned, with the drawn confidence.
   */
  method ValidImageScenario(image: Frame, now: int, draw: BoxDraw, confidence: nat)
    returns (r: Result<seq<Detection>, PredictError>)
    requires image.height >= MinSide && image.width >= MinSide
    requires ValidDraw(draw, image.height, image.width)
    requires LowestConfidence <= confidence < ConfidenceScale
    ensures r.Success? && |r.value| == 1
    ensures r.value == [Detection(draw.xMin, draw.yMin, draw.xMax, draw.yMax, confidence)]
    ensures 0 <= r.value[0].xMin < image.width / 2 <= r.value[0].xMax <= image.width
    ensures 0 <= r.value[0].yMin < image.height / 2 <= r.value[0].yMax <= image.height
  {
    var det := new ObjectDetector();
    r := det.Predict(Some(image), now, draw, confidence);
    KeptIff(image.height, image.width, draw, confidence);
  }

  /**
   * k accepted calls on a fresh detector, at the given times, each at least
   * 16 ms after the one before (and the first at least 16 ms after time 0), so
   * that no frame joins the window: the buffer ends up holding the first
   * min(k, 30) frames.
   */
  method AcceptedCalls(frames: seq<Frame>, times: seq<int>) returns (held: seq<Frame>)
    requires forall k :: 0 <= k < |frames| ==> frames[k].height >= MinSide && frames[k].width >= MinSide
    requires |times| == |frames|
    requires |times| > 0 ==> times[0] >= BurstGap
    requires forall k :: 0 < k < |times| ==> times[k] - times[k - 1] >= BurstGap
    ensures |held| == Min(|frames|, DefaultMaxSize)
    ensures held == frames[..Min(|frames|, DefaultMaxSize)]
  {
    var det := new ObjectDetector();
    var i := 0;
    while i < |frames|
      invariant 0 <= i <= |frames|
      invariant fresh(det) && fresh(det.buffer) && det.Valid()
      invariant det.window == []
      invariant i == 0 ==> det.lastFrameTime == 0
      invariant i > 0 ==> det.lastFrameTime == times[i - 1]
      invariant det.buffer.frames == Offers([], DefaultMaxSize, frames[..i])
    {
      var f := frames[i];
      var r := det.Predict(Some(f), times[i], CentreDraw(f), LowestConfidence);
      OffersSnoc([], DefaultMaxSize, frames[..i], f);
      assert frames[..i + 1] == frames[..i] + [f];
      i := i + 1;
    }
    assert frames[..i] == frames;
    OffersFromEmpty(frames);
    held := det.buffer.frames;
  }

  /**
   * The first two frames of a burst, at t and t + 5 ms (t at least 16 ms past
   * the epoch): the first comes too long after time 0 to join the window, and
   * the second joins it alone and so passes unchanged.
   */
  method StartBurst(a: Frame, b: Frame, t: int) returns (det: ObjectDetector)
    requires t >= BurstGap
    requires a.height >= MinSide && a.width >= MinSide
    requires b.height >= MinSide && b.width >= MinSide
    ensures fresh(det) && fresh(det.buffer) && det.Valid()
    ensures det.window == [b] && det.lastFrameTime == t + 5_000
    ensures det.buffer.frames == [a, b]
  {
    det := new ObjectDetector();
    var r := det.Predict(Some(a), t, CentreDraw(a), LowestConfidence);
    assert det.window == [] && det.lastFrameTime == t;
    assert det.buffer.frames == [a];
    r := det.Predict(Some(b), t + 5_000, CentreDraw(b), LowestConfidence);
  }

  /**
   * Four frames at t, t + 5 ms, t + 10 ms and t + 1 s. The third is averaged
   * with the second, and the fourth, which is not part of the burst, is
   * replaced by that same average of the second and third.
   */
  method BurstScenario(a: Frame, b: Frame, c: Frame, d: Frame, t: int) returns (stored: seq<Frame>)
    requires t >= BurstGap
    requires a.height >= MinSide && a.width >= MinSide
    requires b.height >= MinSide && b.width >= MinSide
    requires c.height >= MinSide && c.width >= MinSide
    requires d.height >= MinSide && d.width >= MinSide
    requires ShapeOf(b) == ShapeOf(c) && |b.pixels| == |c.pixels|
    ensures SameShape([b, c])
    ensures stored == [a, b, MeanFrame([b, c]), MeanFrame([b, c])]
  {
    var det := StartBurst(a, b, t);
    assert SameShape([b, c]);
    ghost var mean := MeanFrame([b, c]);
    var r := det.Predict(Some(c), t + 10_000, CentreDraw(c), LowestConfidence);
    assert det.window == [b, c] && det.lastFrameTime == t + 10_000;
    assert det.buffer.frames == [a, b, mean];
    r := det.Predict(Some(d), t + 1_000_000, CentreDraw(d), LowestConfidence);
    stored := det.buffer.frames;
  }

  /**
   * A later burst on a detector already used: after a and b at t and t + 5 ms,
   * x arrives at t + 1 s and passes unchanged (the window still holds only b),
   * and y at t + 1.005 s joins the window left over from the first burst and is
   * replaced by the average of b and y.
   */
  method LaterBurstScenario(a: Frame, b: Frame, x: Frame, y: Frame, t: int) returns (stored: seq<Frame>)
    requires t >= BurstGap
    requires a.height >= MinSide && a.width >= MinSide
    requires b.height >= MinSide && b.width >= MinSide
    requires x.height >= MinSide && x.width >= MinSide
    requires y.height >= MinSide && y.width >= MinSide
    requires ShapeOf(b) == ShapeOf(y) && |b.pixels| == |y.pixels|
    ensures SameShape([b, y])
    ensures stored == [a, b, x, MeanFrame([b, y])]
  {
    var det := StartBurst(a, b, t);
    var r := det.Predict(Some(x), t + 1_000_000, CentreDraw(x), LowestConfidence);
    assert det.window == [b] && det.lastFrameTime == t + 1_000_000;
    assert det.buffer.frames == [a, b, x];
    assert SameShape([b, y]);
    r := det.Predict(Some(y), t + 1_005_000, CentreDraw(y), LowestConfidence);
    assert det.window == [b, y];
    stored := det.buffer.frames;
  }

  /**
   * A ragged window is never evicted once the clock has moved 16 ms past the
   * last successful call: the next accepted call is not pushed, fails again,
   * and leaves window, time stamp, count and buffer as they were, so the same
   * holds for every later call.
   */
  method StuckAfterRagged(det: ObjectDetector, image: Frame, now: int, draw: BoxDraw, confidence: nat)
    returns (r: Result<seq<Detection>, PredictError>)
    requires det.Valid()
    requires |det.window| > 1 && !SameShape(det.window)
    requires now - det.lastFrameTime >= BurstGap
    requires image.height >= MinSide && image.width >= MinSide
    requires ValidDraw(draw, image.height, image.width)
    requires LowestConfidence <= confidence < ConfidenceScale
    modifies det, det.buffer
    ensures r == Failure(RaggedWindow)
    ensures det.Valid() && |det.window| > 1 && !SameShape(det.window)
    ensures det.window == old(det.window) && det.lastFrameTime == old(det.lastFrameTime)
    ensures det.processedCount == old(det.processedCount)
    ensures det.buffer.frames == old(det.buffer.frames) && det.buffer.refs == old(det.buffer.refs)
  {
    r := det.Predict(Some(image), now, draw, confidence);
  }
}
