# Frame-ingestion core of a video detection pipeline, in Dafny

This project models the sequential state logic of `cv_pipeline.py`:

- `FrameBuffer` is a bounded FIFO (`queue.Queue(maxsize=30)`) of weak references to frames. Beside the queue, the list `_refs` holds a strong reference to every frame ever accepted. `add_frame` drops the new frame when the queue is full. `get_frame` pops the oldest frame, or returns `None` when the queue is empty.
- `ObjectDetector.predict` works as follows:
  - it rejects `None` with a `ValueError`;
  - it ignores frames with a side under 50;
  - a frame that arrives within 16 ms of the last accepted one is pushed into a 3-slot `deque`;
  - whenever that window holds more than one frame, the image is replaced by the window's per-pixel mean, truncated to `uint8`;
  - it stamps the time, stores the image in the frame buffer and bumps the processed count;
  - on every 100th frame it runs maintenance (`gc.collect()`);
  - it returns at most one randomly placed box, kept only when its confidence rounded to 10 places is at least 0.5.

Modules, one per component:

- `Wrappers`: `Option` (Python's `None`) and `Result` (a return value, or a raised error).
- `Frames`: a `uint8` image as `Frame(height, width, channels, pixels)`, where `pixels` is a flat `seq<Pixel>` and `Pixel` is the subset type 0..255. Also the shape checks that NumPy needs before it can stack frames.
- `Smoothing`: the window push (`deque.append` with `maxlen=3`) and the per-pixel truncated mean. Both are pure functions.
- `FrameBuffers`: `class FrameBuffer`, whose fields `frames` (the queue) and `refs` (`_refs`) are sequences that its methods reassign. It comes with the pure `Offer`/`Offers` that say what repeated adds do.
- `Scoring`: the box draw, `round(confidence, 10)` and the threshold test.
- `ObjectDetection`: `class ObjectDetector` with the fields `window` (`_queue`), `lastFrameTime`, `processedCount` and the owned `buffer`. `Predict` is split the way the source is: the locked block (`SmoothLocked`), the counter and maintenance step (`CountProcessed`), and the rest.
- `Scenarios`: call sequences on a fresh detector, proved from `Predict`'s contract alone. They mirror the behaviour that `test_cv_pipeline.py` checks and the burst behaviour of the code.

Inputs that come from a clock or a random generator are parameters of `Predict`:

- `now` is the reading of `time.time()`, in integer microseconds. The detector starts with `lastFrameTime == 0`, as the source does.
- `draw` holds the four `np.random.randint` box coordinates. The `requires` clause puts them in the ranges `randint` draws from: `[0, w // 2)`, `[w // 2, w + 1)`, and the same for `h`.
- `confidence` is the `np.random.uniform(0.4999999999999, 1.0)` draw, stored as a fixed-point number with 13 decimals. 1.0 is `10_000_000_000_000`, and the threshold 0.5 at 10 decimals is `5_000_000_000`.

Notes on the code that the model keeps:

- The mean is taken whenever the window holds more than one frame (lines 49-50), whether or not the current frame was pushed at line 48. The window is never cleared, so a frame that is not part of a burst is replaced by the average of earlier burst frames. `Scenarios.BurstScenario` proves this: the fourth frame is stored as the mean of the second and third.
- A frame is pushed only when it arrives within 16 ms of the last time stamp (line 47 against line 51), so the first frame of a burst is never pushed. A call rejected by the size gate, or one that fails on a ragged window, does not move that stamp. On a fresh detector, the second frame of the first burst therefore sits alone in the window and passes unchanged, and the third is the first to be averaged (`Scenarios.StartBurst`, `Scenarios.BurstScenario`). This holds only while the window is empty. Once the window holds a frame, the next pushed frame is averaged with that leftover: `Scenarios.LaterBurstScenario` proves that in a later burst the second frame is stored as the mean of itself and the last frame of the earlier burst. Once the window holds two or more frames, every accepted frame is replaced by the window mean.
- The mean is truncated to `uint8` (`astype(np.uint8)` at line 50). For up to three integer values the float mean is never close enough to an integer for truncation of the float to differ from integer floor division, so the model uses `sum / n`.
- `predict(None)` raises `ValueError` (line 39). The model's `PredictError.InvalidFrame` stands for that `ValueError`.
- A window whose frames differ in shape cannot be stacked: `np.mean` raises `ValueError` (NumPy 1.24 and later). The model returns `RaggedWindow` in that case. This happens after the window was updated but before the time stamp, so `lastFrameTime`, the count and the buffer stay as they were. That is what the code does when the exception leaves the `with` block. It follows that a ragged window is never evicted: once the clock is 16 ms past the last success, no later frame is pushed, and every later call with both sides at least 50 fails in the same way and changes nothing (`Scenarios.StuckAfterRagged`).
- `queue.Queue(maxsize)` with `maxsize <= 0` is unbounded (`full()` is `0 < maxsize <= qsize()`). The model keeps that edge case (`FrameBuffers.OffersUnbounded`), although the detector always uses 30.

## Model

| member | source | states |
|---|---|---|
| `Smoothing.WindowPush` | cv_pipeline.py:47-48 | appending to the `maxlen=3` deque leaves at most 3 frames: exactly the newest three of the old window followed by the new frame |
| `Smoothing.PushesKeepNewest` | cv_pipeline.py:35 | however many frames are pushed, the window holds the newest three of all frames pushed so far, oldest first |
| `Smoothing.MeanAt` | cv_pipeline.py:50 | one element of the truncated mean lies between the least and greatest element at that position, hence in 0..255 |
| `Smoothing.MeanFrame` | cv_pipeline.py:50 | the mean of equally shaped frames has their shape and element count |
| `Smoothing.MeanFrameBetween` | cv_pipeline.py:49-50 | every element of the smoothed image lies between the minimum and maximum of that position across the window |
| `Smoothing.MeanOfCopies` | cv_pipeline.py:50 | averaging copies of one frame gives back that frame |
| `FrameBuffers.OffersKeepOldest` | cv_pipeline.py:16-20 | a bounded buffer that only receives frames holds the oldest ones, up to capacity, in arrival order (drop-newest) |
| `FrameBuffers.OffersSnoc` | cv_pipeline.py:16-20 | one more `add_frame` after a run of adds is one more drop-when-full step on the queue the run left |
| `FrameBuffers.OffersUnbounded` | cv_pipeline.py:13-17 | with `maxsize <= 0` the queue is never full and keeps every frame |
| `FrameBuffers.OffersFromEmpty` | cv_pipeline.py:12-20 | after k adds a fresh 30-slot buffer holds min(k, 30) frames, the first ones added |
| `FrameBuffers.FrameBuffer.constructor` | cv_pipeline.py:12-14 | a new buffer has the given bound (30 when none is given), an empty queue and an empty `_refs` |
| `FrameBuffers.FrameBuffer.AddFrame` | cv_pipeline.py:16-20 | on a full queue, queue and `_refs` are both unchanged; otherwise the frame is appended to both; the bound and the queue-is-a-tail-of-`_refs` invariant are kept |
| `FrameBuffers.FrameBuffer.GetFrame` | cv_pipeline.py:22-26 | empty: returns None and changes nothing; non-empty: returns the oldest frame and removes exactly it; `_refs` never shrinks and the returned frame is in `_refs` (the weak reference is live) |
| `Scoring.Detections` | cv_pipeline.py:59-64 | at most one detection, with 0 <= x_min < w//2 <= x_max <= w, 0 <= y_min < h//2 <= y_max <= h, carrying the drawn confidence |
| `Scoring.RoundingGate` | cv_pipeline.py:62 | the confidence rounded to 10 places reaches 0.5 exactly when the 13-decimal confidence is at least 0.49999999995 |
| `Scoring.KeptIff` | cv_pipeline.py:62-64 | the result is non-empty if and only if the confidence is at least 0.49999999995, and then it is the drawn box with that confidence |
| `Scoring.DrawnConfidenceAlwaysKept` | cv_pipeline.py:61-64 | every confidence drawn from [0.4999999999999, 1.0) passes the threshold, so there is exactly one detection |
| `ObjectDetection.MaintenanceStep` | cv_pipeline.py:54-57 | counting a maintenance run on each new multiple of 100 keeps the run count equal to count / 100 |
| `ObjectDetection.ObjectDetector.constructor` | cv_pipeline.py:29-35 | threshold 0.5, a fresh empty 30-slot buffer, an empty window, time 0, count 0 |
| `ObjectDetection.ObjectDetector.SmoothLocked` | cv_pipeline.py:44-51 | the frame is pushed exactly when the delta is under 16 ms; a window of more than one frame yields its mean (whether or not this frame was pushed) or, if shapes differ, an error without a time stamp; otherwise the image itself; the time is stamped on success |
| `ObjectDetection.ObjectDetector.CountProcessed` | cv_pipeline.py:54-57 | the count goes up by exactly one, and maintenance runs exactly when the new count is a multiple of 100 |
| `ObjectDetection.ObjectDetector.Predict` | cv_pipeline.py:37-64 | None is an error and changes nothing; a side under 50 gives [] and changes nothing; otherwise the window update is as in `SmoothLocked`, then the time is `now`, the count is +1, maintenance follows the count, the smoothed image is offered to the buffer (dropped when full), and the result is the one thresholded detection; the window never exceeds 3 frames and the buffer never exceeds 30 |
| `Scenarios.InvalidImageScenario` | test_cv_pipeline.py:6-9 | `predict(None)` on a fresh detector fails with the invalid-frame error |
| `Scenarios.ValidImageScenario` | test_cv_pipeline.py:11-16 | for every box draw in the `randint` ranges and every confidence in the `uniform` range, a large enough image on a fresh detector gives exactly one detection: that drawn box with that confidence, inside the frame |
| `Scenarios.AcceptedCalls` | cv_pipeline.py:12-20 | k accepted calls on a fresh detector, at any times each at least 16 ms after the one before (the first at least 16 ms after time 0), leave the first min(k, 30) images in the buffer, in call order |
| `Scenarios.StartBurst` | cv_pipeline.py:44-53 | on a fresh detector, a first frame is not pushed (it is long after time 0), and a second frame 5 ms later is pushed alone and stored unchanged |
| `Scenarios.BurstScenario` | cv_pipeline.py:44-53 | frames at t, t+5 ms, t+10 ms and t+1 s are stored as: the first, the second, the mean of second and third, and again that mean in place of the fourth |
| `Scenarios.StuckAfterRagged` | cv_pipeline.py:44-51 | on a ragged window, a large enough frame arriving 16 ms or more after the last success is not pushed and fails with the ragged-window error, leaving window, time stamp, count and buffer unchanged, so the same holds for the next call |
| `Scenarios.LaterBurstScenario` | cv_pipeline.py:44-53 | after the first two frames at t and t+5 ms, frames at t+1 s and t+1.005 s are stored as: the third unchanged, and the mean of the second and fourth in place of the fourth (the leftover window is not cleared) |

## Left out

- `process_video` (cv_pipeline.py:66-95) is not modelled. It is the `cv2.VideoCapture` reading loop on a `threading.Thread`, with `stop_event` cancellation, random injection of `None` frames and capture release, and `print` logging: I/O and concurrency.
- The module-level script (cv_pipeline.py:97-100), which opens a camera and sleeps on import, is not modelled. It is I/O.
- `self._lock` (cv_pipeline.py:34, 46) is not modelled: `predict` is modelled sequentially. `frame_delta` is still computed before the locked block and passed into `SmoothLocked`, as in the source, but the race this allows is not modelled.
- `time.time()`, `np.random.randint` and `np.random.uniform` become parameters of `Predict`. `gc.collect()` becomes the ghost counter `maintenanceRuns`. Garbage collection and weak-reference lifetimes are not modelled. A weak reference is a plain value, and its liveness is stated as membership in `_refs`.
- Floating point is not modelled. Time is integer microseconds, so a 15.5 ms gap reads as 15 500. The confidence is a 13-decimal fixed-point number. `round(x, 10)` is round-half-even on that grid, not on the exact binary value of a float.
- Frames: the rule that `pixels` has height * width * channels elements is not enforced. The shape check before averaging compares the shape and the element count separately. Only `uint8` images are modelled.
- `detection_threshold` is a constant of the model. The source never reassigns it.
- `Queue`'s thread-safety and the blocking of `get()` are not modelled. `get_frame` only calls `get()` on a non-empty queue.
- api.py is not modelled. It is the FastAPI HTTP layer with `cv2.imdecode` image decoding.
- test_cv_pipeline.py: its two `predict` tests are restated by `Scenarios.InvalidImageScenario` and `Scenarios.ValidImageScenario`. Its `process_video` test relies on mocked `cv2` I/O and is not modelled.
- Images with fewer than two dimensions are not modelled: `image.shape[:2]` at cv_pipeline.py:40 raises on them, while every `Frame` has a height and a width.
- A 2-D `(h, w)` image and an `(h, w, 1)` image are different shapes for `np.mean` at cv_pipeline.py:50. The model has only the 3-D form with a channel count, so it does not distinguish those two.
- Aliasing is not modelled. When the window holds at most one frame, cv_pipeline.py:53 stores the caller's own array, so a later change to that array by the caller shows through `get_frame`. Frames in the model are values. The window itself holds copies (`image.copy()` at line 48), which the model matches.
