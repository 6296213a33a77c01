/**
 * Hand-off of decoded video frames to the SLAM tracker: the video side
 * pushes frames into a small queue, dropping them while five are waiting,
 * and the tracking loop pops them in arrival order and feeds every
 * non-empty one to the tracker, counting it in an `unsigned int`.
 */
module SlamFrames {

  /** At most this many frames wait for the tracker. */
  const MaxQueued: nat := 5
  /** Range of the 32-bit `unsigned int` frame counter. */
  const UIntRange: nat := 0x1_0000_0000

  /** A grey-scale image; the tracker is never given an empty one. */
  datatype Frame = Frame(pixels: seq<bv8>)
  {
    predicate IsEmpty()
    {
      pixels == []
    }
  }

  /** The non-empty frames of `frames`, in order. */
  function NonEmpty(frames: seq<Frame>): (r: seq<Frame>)
    ensures |r| <= |frames|
    ensures forall i :: 0 <= i < |r| ==> !r[i].IsEmpty()
    ensures forall f :: f in r ==> f in frames
    ensures (forall i :: 0 <= i < |frames| ==> !frames[i].IsEmpty()) ==> r == frames
    decreases |frames|
  {
    if frames == [] then []
    else
      var init := NonEmpty(frames[..|frames| - 1]);
      var last := frames[|frames| - 1];
      assert forall f :: f in frames[..|frames| - 1] ==> f in frames;
      if last.IsEmpty() then init else init + [last]
  }

  /** The result of one iteration of the tracking loop. */
  datatype Step =
    | Stopped      // the program is shutting down: the loop ends
    | Terminated   // the tracker asked to terminate: the loop ends
    | Idle         // nothing queued: the loop sleeps for one frame period
    | Skipped      // an empty frame was popped and dropped
    | Tracked      // a frame was popped and fed to the tracker

  class SlamApi {
    var frameQueue: seq<Frame>
    /** `num_frame`, an `unsigned int`. */
    var numFrame: nat
    /** Every frame the queue accepted, in order. */
    ghost var accepted: seq<Frame>
    /** Every frame the tracking loop popped, in order. */
    ghost var consumed: seq<Frame>

    /**
     * The queue is bounded, frames leave it in the order they entered, and
     * the counter is the number of non-empty frames popped, modulo 2^32.
     */
    ghost predicate Valid()
      reads this
    {
      && |frameQueue| <= MaxQueued
      && accepted == consumed + frameQueue
      && numFrame == |NonEmpty(consumed)| % UIntRange
    }

    constructor ()
      ensures Valid()
      ensures frameQueue == [] && numFrame == 0 && accepted == [] && consumed == []
    {
      frameQueue := [];
      numFrame := 0;
      accepted := [];
      consumed := [];
    }

    /** `addFrameToQueue`: push unless five frames are already waiting. */
    method AddFrameToQueue(f: Frame) returns (pushed: bool)
      requires Valid()
      modifies this`frameQueue, this`accepted
      ensures Valid()
      ensures pushed <==> |old(frameQueue)| < MaxQueued
      ensures pushed ==> frameQueue == old(frameQueue) + [f] && accepted == old(accepted) + [f]
      ensures !pushed ==> frameQueue == old(frameQueue) && accepted == old(accepted)
    {
      pushed := |frameQueue| < MaxQueued;
      if pushed {
        frameQueue := frameQueue + [f];
        accepted := accepted + [f];
      }
    }

    /**
     * One iteration of the tracking loop: stop when the program ends or the
     * tracker requests termination, idle on an empty queue, otherwise pop the
     * front frame and track it unless it is empty.
     */
    method TrackingStep(run: bool, terminateRequested: bool) returns (s: Step)
      requires Valid()
      modifies this`frameQueue, this`numFrame, this`consumed
      ensures Valid()
      ensures s == Stopped <==> !run
      ensures s == Terminated <==> run && terminateRequested
      ensures s == Idle <==> run && !terminateRequested && old(frameQueue) == []
      ensures s == Stopped || s == Terminated || s == Idle ==>
                frameQueue == old(frameQueue) && numFrame == old(numFrame) && consumed == old(consumed)
      ensures s == Skipped || s == Tracked ==>
                && old(frameQueue) != []
                && frameQueue == old(frameQueue[1..])
                && consumed == old(consumed) + [old(frameQueue[0])]
                && (s == Skipped <==> old(frameQueue[0]).IsEmpty())
                && numFrame == if s == Tracked then (old(numFrame) + 1) % UIntRange else old(numFrame)
    {
      if !run {
        return Stopped;
      }
      if terminateRequested {
        return Terminated;
      }
      if frameQueue == [] {
        return Idle;
      }
      var frame := frameQueue[0];
      frameQueue := frameQueue[1..];
      consumed := consumed + [frame];
      assert consumed[..|consumed| - 1] == old(consumed);
      if frame.IsEmpty() {
        return Skipped;
      }
      numFrame := (numFrame + 1) % UIntRange;
      return Tracked;
    }
  }

  /** No non-empty frame is filtered out: together with `NonEmpty`'s contract, exactly the non-empty frames are kept. */
  lemma {:induction false} NonEmptyKeepsEvery(frames: seq<Frame>)
    ensures forall f :: f in frames && !f.IsEmpty() ==> f in NonEmpty(frames)
    decreases |frames|
  {
    if frames != [] {
      var init := frames[..|frames| - 1];
      NonEmptyKeepsEvery(init);
      assert frames == init + [frames[|frames| - 1]];
    }
  }

  /** The frames tracked from two runs of pops are those tracked from each run, in order. */
  lemma {:induction false} NonEmptyAppend(xs: seq<Frame>, ys: seq<Frame>)
    ensures NonEmpty(xs + ys) == NonEmpty(xs) + NonEmpty(ys)
    decreases |ys|
  {
    if ys == [] {
      assert xs + ys == xs;
    } else {
      assert (xs + ys)[..|xs + ys| - 1] == xs + ys[..|ys| - 1];
      NonEmptyAppend(xs, ys[..|ys| - 1]);
    }
  }
}
