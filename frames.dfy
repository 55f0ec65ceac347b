/** Images as the pipeline sees them: uint8 arrays of shape (height, width, channels). */
module Frames {

  /** One element of a `uint8` image. */
  type Pixel = x: int | 0 <= x < 256

  /** The shape of a NumPy image array. */
  datatype Shape = Shape(height: nat, width: nat, channels: nat)

  /**
   * An image array; `pixels` holds its height * width * channels elements in
   * row-major order.
   */
  datatype Frame = Frame(height: nat, width: nat, channels: nat, pixels: seq<Pixel>)

  function ShapeOf(f: Frame): Shape
  {
    Shape(f.height, f.width, f.channels)
  }

  /**
   * Every frame has the shape and the element count of the first one, so that
   * NumPy can stack them.
   */
  predicate SameShape(frames: seq<Frame>)
  {
    forall k :: 0 <= k < |frames| ==>
      ShapeOf(frames[k]) == ShapeOf(frames[0]) && |frames[k].pixels| == |frames[0].pixels|
  }

  /** Every frame has an element at flat position `i`. */
  predicate Covers(frames: seq<Frame>, i: nat)
  {
    forall k :: 0 <= k < |frames| ==> i < |frames[k].pixels|
  }

  lemma SameShapeCovers(frames: seq<Frame>, i: nat)
    requires |frames| > 0 && SameShape(frames)
    requires i < |frames[0].pixels|
    ensures Covers(frames, i)
  {
  }
}
