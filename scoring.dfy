/**
 * The placeholder scoring stage of `predict`: one random box, one random
 * confidence, and the threshold test on the confidence rounded to 10 decimals.
 * Confidences are fixed-point numbers with 13 decimals, so 1.0 is
 * 10_000_000_000_000 and the lower end of the random draw, 0.4999999999999, is
 * 4_999_999_999_999.
 */
module Scoring {

  /** 1.0 at 13 decimals; the draw `np.random.uniform(low, 1.0)` stays below it. */
  const ConfidenceScale: nat := 10_000_000_000_000
  /** 0.4999999999999, the lower end of the confidence draw. */
  const LowestConfidence: nat := 4_999_999_999_999
  /** One unit in the 10th decimal, measured at 13 decimals. */
  const RoundingStep: nat := 1000
  /** `detection_threshold = 0.5`, at 10 decimals. */
  const DefaultThreshold: nat := 5_000_000_000
  /** The smallest 13-decimal confidence that rounds to at least 0.5 at 10 decimals. */
  const KeepFrom: nat := 4_999_999_999_500

  /** The four `np.random.randint` draws of a box. */
  datatype BoxDraw = BoxDraw(xMin: int, yMin: int, xMax: int, yMax: int)

  /** A detection tuple `(x_min, y_min, x_max, y_max, confidence)`. */
  datatype Detection = Detection(xMin: int, yMin: int, xMax: int, yMax: int, confidence: nat)

  /**
   * `randint(lo, hi)` draws from `[lo, hi)`: x_min from `[0, w // 2)`,
   * x_max from `[w // 2, w + 1)`, and the same for y with h.
   */
  predicate ValidDraw(d: BoxDraw, h: nat, w: nat)
  {
    0 <= d.xMin < w / 2 && w / 2 <= d.xMax <= w &&
    0 <= d.yMin < h / 2 && h / 2 <= d.yMax <= h
  }

  /** `round(c, 10)` on a 13-decimal value, halves going to the even neighbour. */
  function Round10(c: nat): nat
  {
    var q, rem := c / RoundingStep, c % RoundingStep;
    if rem > RoundingStep / 2 || (rem == RoundingStep / 2 && q % 2 == 1) then q + 1 else q
  }

  /** The result list of a call that got past the size gate. */
  function Detections(h: nat, w: nat, d: BoxDraw, confidence: nat, threshold: nat): (r: seq<Detection>)
    requires ValidDraw(d, h, w)
    ensures |r| <= 1
    ensures forall det :: det in r ==>
              0 <= det.xMin < w / 2 <= det.xMax <= w &&
              0 <= det.yMin < h / 2 <= det.yMax <= h &&
              det.confidence == confidence
  {
    if Round10(confidence) < threshold then []
    else [Detection(d.xMin, d.yMin, d.xMax, d.yMax, confidence)]
  }

  /** Rounding to 10 places reaches 0.5 exactly from 0.49999999995 upwards. */
  lemma RoundingGate(c: nat)
    ensures Round10(c) >= DefaultThreshold <==> c >= KeepFrom
  {
  }

  /** A detection is reported exactly when the confidence is at least 0.49999999995. */
  lemma KeptIff(h: nat, w: nat, d: BoxDraw, confidence: nat)
    requires ValidDraw(d, h, w)
    ensures Detections(h, w, d, confidence, DefaultThreshold) != [] <==> confidence >= KeepFrom
    ensures Detections(h, w, d, confidence, DefaultThreshold) != [] ==>
              Detections(h, w, d, confidence, DefaultThreshold) ==
                [Detection(d.xMin, d.yMin, d.xMax, d.yMax, confidence)]
  {
    RoundingGate(confidence);
  }

  /** Every confidence the source draws passes the threshold: one detection per call. */
  lemma DrawnConfidenceAlwaysKept(h: nat, w: nat, d: BoxDraw, confidence: nat)
    requires ValidDraw(d, h, w)
    requires LowestConfidence <= confidence < ConfidenceScale
    ensures |Detections(h, w, d, confidence, DefaultThreshold)| == 1
  {
    KeptIff(h, w, d, confidence);
  }
}
