/**
 * `ObjectDetector`: the stateful `predict` call. Clock readings and the random
 * draws of the placeholder scorer are parameters; the clock reads integer
 * microseconds.
 */
module ObjectDetection {
  import opened Wrappers
  import opened Frames
  import opened Smoothing
  import opened FrameBuffers
  import opened Scoring

  /** Frames with a side below this are ignored. */
  const MinSide: nat := 50
  /** 0.016 s: a frame that follows the previous one sooner is part of a burst. */
  const BurstGap: int := 16_000
  /** Every this many processed frames the detector runs maintenance (`gc.collect()`). */
  const MaintenancePeriod: nat := 100

  datatype PredictError =
    | InvalidFrame   // `ValueError("Received None frame")`
    | RaggedWindow   // `np.mean` over window frames of different shapes raises `ValueError`

  /** Counting maintenance runs on each multiple of 100 keeps `runs == count / 100`. */
  lemma MaintenanceStep(count: nat, runs: nat)
    requires runs == count / MaintenancePeriod
    ensures (if (count + 1) % MaintenancePeriod == 0 then runs + 1 else runs) ==
              (count + 1) / MaintenancePeriod
  {
  }

  class ObjectDetector {
    /** `detection_threshold`, at 10 decimals. */
    const threshold: nat := DefaultThreshold
    /** `_frame_buffer`, owned by this detector. */
    const buffer: FrameBuffer
    /** `_queue`: the smoothing window, oldest first. */
    var window: seq<Frame>
    /** `_last_frame_time`, in microseconds. */
    var lastFrameTime: int
    /** `_processed_count`. */
    var processedCount: nat
    /** How many times maintenance has run. */
    ghost var maintenanceRuns: nat

    ghost predicate Valid()
      reads this, buffer
    {
      buffer.Valid() && buffer.maxsize == DefaultMaxSize &&
      |window| <= WindowCapacity &&
      maintenanceRuns == processedCount / MaintenancePeriod
    }

    constructor ()
      ensures Valid() && fresh(buffer)
      ensures window == [] && lastFrameTime == 0 && processedCount == 0 && maintenanceRuns == 0
      ensures buffer.frames == [] && buffer.refs == []
    {
      buffer := new FrameBuffer();
      window := [];
      lastFrameTime := 0;
      processedCount := 0;
      maintenanceRuns := 0;
    }

    /**
     * The locked block of `predict`: `frameDelta` is the time since the last
     * accepted frame, measured before the lock is taken. A frame of a burst is
     * pushed into the window; a window of more than one frame is averaged
     * (whether or not this frame was pushed); the time is stamped.
     */
    method SmoothLocked(img: Frame, now: int, frameDelta: int) returns (res: Result<Frame, PredictError>)
      requires Valid()
      modifies this`window, this`lastFrameTime
      ensures Valid()
      ensures window == if frameDelta < BurstGap then WindowPush(old(window), img) else old(window)
      ensures |window| > 1 && !SameShape(window) ==>
                res == Failure(RaggedWindow) && lastFrameTime == old(lastFrameTime)
      ensures |window| <= 1 || SameShape(window) ==>
                res == Success(Smoothed(window, img)) && lastFrameTime == now
    {
      if frameDelta < BurstGap {
        window := WindowPush(window, img);
      }
      if |window| > 1 && !SameShape(window) {
        return Failure(RaggedWindow);
      }
      res := Success(Smoothed(window, img));
      lastFrameTime := now;
    }

    /** `_processed_count += 1`, then maintenance on every 100th frame. */
    method CountProcessed()
      requires Valid()
      modifies this`processedCount, this`maintenanceRuns
      ensures Valid()
      ensures processedCount == old(processedCount) + 1
      ensures maintenanceRuns ==
                old(maintenanceRuns) + (if processedCount % MaintenancePeriod == 0 then 1 else 0)
    {
      MaintenanceStep(processedCount, maintenanceRuns);
      processedCount := processedCount + 1;
      if processedCount % MaintenancePeriod == 0 {
        maintenanceRuns := maintenanceRuns + 1;
      }
    }

    /**
     * `predict(image)`, with `now` the clock reading, `draw` the random box and
     * `confidence` the random confidence of this call.
     */
    method Predict(image: Option<Frame>, now: int, draw: BoxDraw, confidence: nat)
      returns (r: Result<seq<Detection>, PredictError>)
      requires Valid()
      requires image.Some? ==> image.value.height < MinSide || image.value.width < MinSide ||
                               ValidDraw(draw, image.value.height, image.value.width)
      requires LowestConfidence <= confidence < ConfidenceScale
      modifies this, buffer
      ensures Valid()
      // a missing frame is an error and changes nothing
      ensures image.None? ==> r == Failure(InvalidFrame) && unchanged(this, buffer)
      // a small frame yields no detections and changes nothing
      ensures image.Some? && (image.value.height < MinSide || image.value.width < MinSide) ==>
                r == Success([]) && unchanged(this, buffer)
      // otherwise the frame enters the window exactly when it arrives within the burst gap
      ensures image.Some? && image.value.height >= MinSide && image.value.width >= MinSide ==>
                window == if now - old(lastFrameTime) < BurstGap
                          then WindowPush(old(window), image.value) else old(window)
      // a window of mixed shapes cannot be averaged: the call fails after updating the window
      ensures image.Some? && image.value.height >= MinSide && image.value.width >= MinSide &&
              |window| > 1 && !SameShape(window) ==>
                r == Failure(RaggedWindow) &&
                lastFrameTime == old(lastFrameTime) && processedCount == old(processedCount) &&
                maintenanceRuns == old(maintenanceRuns) && unchanged(buffer)
      // an accepted call records the time, buffers the smoothed image, counts, and scores
      ensures image.Some? && image.value.height >= MinSide && image.value.width >= MinSide &&
              (|window| <= 1 || SameShape(window)) ==>
                lastFrameTime == now &&
                processedCount == old(processedCount) + 1 &&
                maintenanceRuns == old(maintenanceRuns) +
                  (if processedCount % MaintenancePeriod == 0 then 1 else 0) &&
                buffer.frames == Offer(old(buffer.frames), DefaultMaxSize, Smoothed(window, image.value)) &&
                buffer.refs == (if IsFull(old(buffer.frames), DefaultMaxSize) then old(buffer.refs)
                                else old(buffer.refs) + [Smoothed(window, image.value)]) &&
                r == Success(Detections(image.value.height, image.value.width, draw, confidence, threshold)) &&
                |r.value| == 1
    {
      if image.None? {
        return Failure(InvalidFrame);
      }
      var img := image.value;
      var h, w := img.height, img.width;
      if h < MinSide || w < MinSide {
        return Success([]);
      }
      var frameDelta := now - lastFrameTime;
      var smoothed := SmoothLocked(img, now, frameDelta);
      if smoothed.Failure? {
        return Failure(smoothed.error);
      }
      buffer.AddFrame(smoothed.value);
      CountProcessed();
      DrawnConfidenceAlwaysKept(h, w, draw, confidence);
      r := Success(Detections(h, w, draw, confidence, threshold));
    }
  }
}
