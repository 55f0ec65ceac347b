/**
 * Temporal smoothing: the detector's `deque(maxlen=3)` of frame copies and the
 * per-pixel mean `np.mean(list(window), axis=0).astype(np.uint8)`.
 */
module Smoothing {
  import opened Frames

  /** `maxlen` of the smoothing deque. */
  const WindowCapacity: nat := 3

  /** The newest (at most) three frames of `s`, oldest first. */
  function Newest(s: seq<Frame>): seq<Frame>
  {
    if |s| <= WindowCapacity then s else s[|s| - WindowCapacity..]
  }

  /**
   * `deque.append` on a deque with `maxlen=3`: the new frame goes to the right
   * end and, when the deque is already full, the oldest frame is evicted.
   */
  function WindowPush(window: seq<Frame>, f: Frame): (r: seq<Frame>)
    requires |window| <= WindowCapacity
    ensures |r| <= WindowCapacity
    ensures r == Newest(window + [f])
  {
    if |window| < WindowCapacity then window + [f] else window[1..] + [f]
  }

  /** The window after appending the frames of `fs` one after the other. */
  function Pushes(window: seq<Frame>, fs: seq<Frame>): seq<Frame>
    requires |window| <= WindowCapacity
    decreases |fs|
  {
    if fs == [] then window else Pushes(WindowPush(window, fs[0]), fs[1..])
  }

  /** Evicting the oldest frame of a full window loses nothing the newest three need. */
  lemma NewestAfterPush(window: seq<Frame>, f: Frame, rest: seq<Frame>)
    requires |window| <= WindowCapacity
    ensures Newest(WindowPush(window, f) + rest) == Newest(window + [f] + rest)
  {
    var all := window + [f] + rest;
    if |window| == WindowCapacity {
      assert WindowPush(window, f) + rest == all[1..];
    }
  }

  /** However many frames arrive, the window holds the newest three of them, oldest first. */
  lemma {:induction false} PushesKeepNewest(window: seq<Frame>, fs: seq<Frame>)
    requires |window| <= WindowCapacity
    ensures Pushes(window, fs) == Newest(window + fs)
    decreases |fs|
  {
    if fs == [] {
      assert window + fs == window;
    } else {
      var next, rest := WindowPush(window, fs[0]), fs[1..];
      calc {
        Pushes(window, fs);
        Pushes(next, rest);
        { PushesKeepNewest(next, rest); }
        Newest(next + rest);
        { NewestAfterPush(window, fs[0], rest); }
        Newest(window + [fs[0]] + rest);
        { assert window + [fs[0]] + rest == window + fs; }
        Newest(window + fs);
      }
    }
  }

  /** Sum over the frames of the element at flat position `i`. */
  function SumAt(frames: seq<Frame>, i: nat): int
    requires Covers(frames, i)
  {
    if frames == [] then 0 else frames[0].pixels[i] + SumAt(frames[1..], i)
  }

  function MinAt(frames: seq<Frame>, i: nat): Pixel
    requires |frames| > 0 && Covers(frames, i)
  {
    if |frames| == 1 then frames[0].pixels[i]
    else
      var rest := MinAt(frames[1..], i);
      if frames[0].pixels[i] <= rest then frames[0].pixels[i] else rest
  }

  function MaxAt(frames: seq<Frame>, i: nat): Pixel
    requires |frames| > 0 && Covers(frames, i)
  {
    if |frames| == 1 then frames[0].pixels[i]
    else
      var rest := MaxAt(frames[1..], i);
      if frames[0].pixels[i] >= rest then frames[0].pixels[i] else rest
  }

  /** MinAt and MaxAt are the least and greatest element at position `i`. */
  lemma {:induction false} MinMaxAtBound(frames: seq<Frame>, i: nat, k: nat)
    requires |frames| > 0 && Covers(frames, i) && k < |frames|
    ensures MinAt(frames, i) <= frames[k].pixels[i] <= MaxAt(frames, i)
  {
    if k > 0 {
      MinMaxAtBound(frames[1..], i, k - 1);
    }
  }

  lemma {:induction false} SumAtBounds(frames: seq<Frame>, i: nat)
    requires |frames| > 0 && Covers(frames, i)
    ensures |frames| * MinAt(frames, i) <= SumAt(frames, i) <= |frames| * MaxAt(frames, i)
  {
    if |frames| > 1 {
      var rest := frames[1..];
      var n := |rest|;
      SumAtBounds(rest, i);
      var p := frames[0].pixels[i];
      var lo, hi := MinAt(frames, i), MaxAt(frames, i);
      var s := SumAt(rest, i);
      assert SumAt(frames, i) == p + s;
      assert lo <= p <= hi;
      MulMonotone(n, lo, MinAt(rest, i));
      MulMonotone(n, MaxAt(rest, i), hi);
      MulSucc(n, lo);
      MulSucc(n, hi);
    }
  }

  lemma MulMonotone(n: nat, a: int, b: int)
    requires a <= b
    ensures n * a <= n * b
  {
    assert n * b - n * a == n * (b - a);
  }

  lemma MulSucc(n: nat, a: int)
    ensures (n + 1) * a == a + n * a
  {
  }

  /** Floor division keeps a value that is bracketed by n*lo and n*hi between lo and hi. */
  lemma DivBetween(s: int, n: int, lo: int, hi: int)
    requires n > 0 && n * lo <= s <= n * hi
    ensures lo <= s / n <= hi
  {
    var q := s / n;
    assert s == n * q + s % n && 0 <= s % n < n;
    if q < lo {
      MulMonotone(n, q + 1, lo);
      assert false;
    }
    if q > hi {
      MulMonotone(n, hi + 1, q);
      assert false;
    }
  }

  /**
   * One element of the mean image: the arithmetic mean truncated to an integer,
   * which is what `astype(np.uint8)` does to a non-negative float.
   */
  function MeanAt(frames: seq<Frame>, i: nat): (p: Pixel)
    requires |frames| > 0 && Covers(frames, i)
    ensures MinAt(frames, i) <= p <= MaxAt(frames, i)
  {
    SumAtBounds(frames, i);
    DivBetween(SumAt(frames, i), |frames|, MinAt(frames, i), MaxAt(frames, i));
    SumAt(frames, i) / |frames|
  }

  /** The per-pixel mean of equally shaped frames. */
  function MeanFrame(frames: seq<Frame>): (r: Frame)
    requires |frames| > 0 && SameShape(frames)
    ensures ShapeOf(r) == ShapeOf(frames[0])
    ensures |r.pixels| == |frames[0].pixels|
  {
    var f := frames[0];
    var n := |f.pixels|;
    Frame(f.height, f.width, f.channels,
          seq(n, i requires 0 <= i < n => SameShapeCovers(frames, i); MeanAt(frames, i)))
  }

  /**
   * Each element of the mean image lies between the least and the greatest
   * element at that position across the frames.
   */
  lemma MeanFrameBetween(frames: seq<Frame>, i: nat)
    requires |frames| > 0 && SameShape(frames)
    requires i < |frames[0].pixels|
    ensures Covers(frames, i)
    ensures MinAt(frames, i) <= MeanFrame(frames).pixels[i] <= MaxAt(frames, i)
  {
    SameShapeCovers(frames, i);
    assert MeanFrame(frames).pixels[i] == MeanAt(frames, i);
  }

  /**
   * The image that goes on to scoring: the window's mean when the window holds
   * more than one frame, otherwise the image itself.
   */
  function Smoothed(window: seq<Frame>, image: Frame): (r: Frame)
    requires |window| > 1 ==> SameShape(window)
  {
    if |window| > 1 then MeanFrame(window) else image
  }

  /** Averaging copies of one frame gives that frame back. */
  lemma {:induction false} SumOfCopies(frames: seq<Frame>, f: Frame, i: nat)
    requires forall k :: 0 <= k < |frames| ==> frames[k] == f
    requires i < |f.pixels|
    ensures Covers(frames, i) && SumAt(frames, i) == |frames| * f.pixels[i]
  {
    if frames != [] {
      SumOfCopies(frames[1..], f, i);
    }
  }

  lemma MulDivCancel(n: int, x: int)
    requires n > 0
    ensures n * x / n == x
  {
    var q, m := n * x / n, n * x % n;
    assert n * x == n * q + m && 0 <= m < n;
    assert n * (x - q) == m;
    if x - q >= 1 {
      MulMonotone(n, 1, x - q);
    } else if x - q <= -1 {
      MulMonotone(n, x - q, -1);
    }
  }

  lemma MeanOfCopies(frames: seq<Frame>, f: Frame)
    requires |frames| > 0
    requires forall k :: 0 <= k < |frames| ==> frames[k] == f
    ensures SameShape(frames) && MeanFrame(frames) == f
  {
    var r := MeanFrame(frames);
    assert frames[0] == f;
    forall i | 0 <= i < |f.pixels|
      ensures r.pixels[i] == f.pixels[i]
    {
      SumOfCopies(frames, f, i);
      MulDivCancel(|frames|, f.pixels[i]);
      assert r.pixels[i] == MeanAt(frames, i);
    }
    assert r.pixels == f.pixels;
  }
}
