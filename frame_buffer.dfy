/**
 * `FrameBuffer`: a bounded FIFO (`queue.Queue(maxsize)`) of weak references to
 * frames, plus the list `_refs` of strong references that keeps every accepted
 * frame alive and is never shrunk.
 */
module FrameBuffers {
  import opened Frames
  import opened Wrappers

  /** Default `maxsize` of the buffer. */
  const DefaultMaxSize: int := 30

  /** `Queue.full()`: a `maxsize` of zero or less means the queue is unbounded. */
  predicate IsFull(queued: seq<Frame>, maxsize: int)
  {
    0 < maxsize <= |queued|
  }

  /** The queue after offering `f`: the frame is dropped when the queue is full. */
  function Offer(queued: seq<Frame>, maxsize: int, f: Frame): seq<Frame>
  {
    if IsFull(queued, maxsize) then queued else queued + [f]
  }

  /** The queue after offering the frames of `fs` one after the other. */
  function Offers(queued: seq<Frame>, maxsize: int, fs: seq<Frame>): seq<Frame>
    decreases |fs|
  {
    if fs == [] then queued else Offers(Offer(queued, maxsize, fs[0]), maxsize, fs[1..])
  }

  function Min(a: int, b: int): int
  {
    if a <= b then a else b
  }

  /**
   * Drop-newest: a bounded queue that only receives offers keeps the oldest
   * frames, up to its capacity, in arrival order.
   */
  lemma {:induction false} OffersKeepOldest(queued: seq<Frame>, maxsize: int, fs: seq<Frame>)
    requires 0 < maxsize && |queued| <= maxsize
    ensures Offers(queued, maxsize, fs) == (queued + fs)[..Min(|queued| + |fs|, maxsize)]
    decreases |fs|
  {
    if fs != [] {
      var next := Offer(queued, maxsize, fs[0]);
      OffersKeepOldest(next, maxsize, fs[1..]);
      if |queued| == maxsize {
        assert next == queued;
        assert (queued + fs)[..maxsize] == queued;
        assert (queued + fs[1..])[..maxsize] == queued;
      } else {
        assert next == queued + [fs[0]];
        assert next + fs[1..] == queued + fs;
      }
    }
  }

  /** A queue with `maxsize <= 0` accepts every frame. */
  lemma {:induction false} OffersUnbounded(queued: seq<Frame>, maxsize: int, fs: seq<Frame>)
    requires maxsize <= 0
    ensures Offers(queued, maxsize, fs) == queued + fs
    decreases |fs|
  {
    if fs != [] {
      OffersUnbounded(queued + [fs[0]], maxsize, fs[1..]);
      assert queued + [fs[0]] + fs[1..] == queued + fs;
    }
  }

  /** Offering one more frame after a run of offers is one more `Offer` step. */
  lemma {:induction false} OffersSnoc(queued: seq<Frame>, maxsize: int, fs: seq<Frame>, f: Frame)
    ensures Offers(queued, maxsize, fs + [f]) == Offer(Offers(queued, maxsize, fs), maxsize, f)
    decreases |fs|
  {
    if fs == [] {
      assert [] + [f] == [f];
    } else {
      assert (fs + [f])[1..] == fs[1..] + [f];
      OffersSnoc(Offer(queued, maxsize, fs[0]), maxsize, fs[1..], f);
    }
  }

  /** After k offers a fresh default buffer holds min(k, 30) frames: the first ones offered. */
  lemma OffersFromEmpty(fs: seq<Frame>)
    ensures |Offers([], DefaultMaxSize, fs)| == Min(|fs|, DefaultMaxSize)
    ensures Offers([], DefaultMaxSize, fs) == fs[..Min(|fs|, DefaultMaxSize)]
  {
    OffersKeepOldest([], DefaultMaxSize, fs);
    assert [] + fs == fs;
  }

  class FrameBuffer {
    /** `Queue(maxsize)`'s bound. */
    const maxsize: int
    /** The queued (weak) references, oldest first. */
    var frames: seq<Frame>
    /** `_refs`: every frame the buffer ever accepted, in order. */
    var refs: seq<Frame>
    /** How many frames `GetFrame` has handed out. */
    ghost var taken: nat

    /**
     * The queue is always the not-yet-taken tail of `_refs`, so each queued
     * weak reference still has its referent; and the bound holds.
     */
    ghost predicate Valid()
      reads this
    {
      taken <= |refs| && frames == refs[taken..] &&
      (0 < maxsize ==> |frames| <= maxsize)
    }

    constructor (maxsize: int := DefaultMaxSize)
      ensures Valid()
      ensures this.maxsize == maxsize && frames == [] && refs == [] && taken == 0
    {
      this.maxsize := maxsize;
      frames := [];
      refs := [];
      taken := 0;
    }

    /** `add_frame`: a silent no-op on a full buffer. */
    method AddFrame(frame: Frame)
      requires Valid()
      modifies this
      ensures Valid() && taken == old(taken)
      ensures IsFull(old(frames), maxsize) ==> frames == old(frames) && refs == old(refs)
      ensures !IsFull(old(frames), maxsize) ==>
                frames == old(frames) + [frame] && refs == old(refs) + [frame]
      ensures frames == Offer(old(frames), maxsize, frame)
    {
      if !IsFull(frames, maxsize) {
        refs := refs + [frame];
        frames := frames + [frame];
      }
    }

    /** `get_frame`: the oldest queued frame, or `None` when the queue is empty. */
    method GetFrame() returns (r: Option<Frame>)
      requires Valid()
      modifies this
      ensures Valid() && refs == old(refs)
      ensures old(frames) == [] ==> r == None && frames == [] && taken == old(taken)
      ensures old(frames) != [] ==>
                r == Some(old(frames)[0]) && frames == old(frames)[1..] && taken == old(taken) + 1
      ensures r.Some? ==> r.value in refs
    {
      if frames != [] {
        r := Some(frames[0]);
        frames := frames[1..];
        taken := taken + 1;
      } else {
        r := None;
      }
    }
  }
}
