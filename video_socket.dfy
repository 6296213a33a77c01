/**
 * Reassembly of the drone's video stream. The drone sends each encoded
 * frame as a run of full 1460-byte UDP packets closed by a shorter one; the
 * socket appends every packet to a 65536-byte frame buffer and hands the
 * buffered bytes to the decoder when the short packet arrives. The decoder
 * itself is an abstract sink here: the model records the frames handed to
 * it.
 */
module VideoChannel {

  /** Size of the receive buffer: no datagram is longer. */
  const MaxLength: nat := 2048
  /** Size of the frame buffer. */
  const MaxLengthLarge: nat := 65536
  /** Length of a packet in the middle of a frame; a shorter one ends the frame. */
  const FullPacket: nat := 1460

  /** The bytes of a run of packets, in arrival order. */
  function Concat(packets: seq<seq<bv8>>): seq<bv8>
    decreases |packets|
  {
    if packets == [] then []
    else Concat(packets[..|packets| - 1]) + packets[|packets| - 1]
  }

  /** A run of full packets is at least as long as the packets' minimum size times their number. */
  lemma {:induction false} ConcatOfFullPackets(packets: seq<seq<bv8>>)
    requires forall i :: 0 <= i < |packets| ==> |packets[i]| >= FullPacket
    ensures |Concat(packets)| >= FullPacket * |packets|
    ensures packets != [] ==> |Concat(packets)| > 0
    decreases |packets|
  {
    if packets != [] {
      ConcatOfFullPackets(packets[..|packets| - 1]);
    }
  }

  /** The result of one receive. */
  datatype Received =
    | Overflow       // the frame would not fit: it is dropped and no new receive is armed
    | Appended       // a full packet was buffered
    | FrameComplete  // a short packet closed the frame, which went to the decoder

  class VideoSocket {
    const frameBuffer: array<bv8>
    var firstEmptyIndex: nat
    var nPackets: int
    /** A receive is armed: the socket will deliver its next datagram. */
    var receiving: bool
    /** The packets of the frame being assembled. */
    ghost var packets: seq<seq<bv8>>
    /** The frames handed to the decoder, in order. */
    ghost var decoded: seq<seq<bv8>>

    /**
     * The buffer holds exactly the packets of the current frame, all of
     * them full ones, and never fills up.
     */
    ghost predicate Valid()
      reads this, frameBuffer
    {
      && frameBuffer.Length == MaxLengthLarge
      && firstEmptyIndex < MaxLengthLarge
      && nPackets == |packets|
      && (forall i :: 0 <= i < |packets| ==> |packets[i]| >= FullPacket)
      && firstEmptyIndex == |Concat(packets)|
      && frameBuffer[..firstEmptyIndex] == Concat(packets)
    }

    /** The packet counter is zero exactly when the buffer is empty, and each packet fills at least 1460 bytes. */
    lemma CounterMatchesIndex()
      requires Valid()
      ensures nPackets == 0 <==> firstEmptyIndex == 0
      ensures firstEmptyIndex >= FullPacket * nPackets
    {
      ConcatOfFullPackets(packets);
    }

    /** The constructor arms the first receive. */
    constructor ()
      ensures Valid() && fresh(frameBuffer)
      ensures firstEmptyIndex == 0 && nPackets == 0 && packets == [] && decoded == []
      ensures receiving
    {
      frameBuffer := new bv8[MaxLengthLarge](_ => 0);
      firstEmptyIndex := 0;
      nPackets := 0;
      receiving := true;
      packets := [];
      decoded := [];
    }

    /** `memcpy(frame_buffer_ + offset, data, |data|)`. */
    method CopyIn(offset: nat, data: seq<bv8>)
      requires offset + |data| <= frameBuffer.Length
      modifies frameBuffer
      ensures frameBuffer[..] == old(frameBuffer[..offset]) + data + old(frameBuffer[offset + |data|..])
    {
      var i := 0;
      while i < |data|
        invariant 0 <= i <= |data|
        invariant frameBuffer[..] == old(frameBuffer[..offset]) + data[..i] + old(frameBuffer[offset + i..])
      {
        frameBuffer[offset + i] := data[i];
        assert data[..i + 1] == data[..i] + [data[i]];
        i := i + 1;
      }
    }

    /**
     * `handleResponseFromDrone` for a receive of `data` (the error code is
     * ignored): drop the frame if it would not fit, otherwise append the
     * packet, and on a short packet pass the whole frame to the decoder and
     * empty the buffer. Only a handler that does not overflow arms the next
     * receive: after an overflow the socket delivers nothing more.
     */
    method HandleResponseFromDrone(error: bool, data: seq<bv8>) returns (r: Received)
      requires Valid() && |data| <= MaxLength
      requires receiving
      modifies this, frameBuffer
      ensures Valid()
      ensures receiving <==> r != Overflow
      ensures r == Overflow <==> old(firstEmptyIndex) + |data| >= MaxLengthLarge
      ensures r == Appended <==> old(firstEmptyIndex) + |data| < MaxLengthLarge && |data| >= FullPacket
      ensures r == Overflow ==>
                && firstEmptyIndex == 0 && nPackets == 0 && packets == []
                && decoded == old(decoded) && frameBuffer[..] == old(frameBuffer[..])
      ensures r == Appended ==>
                && packets == old(packets) + [data] && firstEmptyIndex == old(firstEmptyIndex) + |data|
                && nPackets == old(nPackets) + 1 && decoded == old(decoded)
                && frameBuffer[..old(firstEmptyIndex)] == old(frameBuffer[..firstEmptyIndex])
                && frameBuffer[old(firstEmptyIndex)..firstEmptyIndex] == data
      ensures r == FrameComplete ==>
                && decoded == old(decoded) + [Concat(old(packets) + [data])]
                && firstEmptyIndex == 0 && nPackets == 0 && packets == []
    {
      if firstEmptyIndex == 0 {
        firstEmptyIndex := 0;
        nPackets := 0;
      }

      if firstEmptyIndex + |data| >= MaxLengthLarge {
        firstEmptyIndex := 0;
        nPackets := 0;
        packets := [];
        receiving := false;
        return Overflow;
      }

      ghost var before := frameBuffer[..firstEmptyIndex];
      CopyIn(firstEmptyIndex, data);
      assert frameBuffer[..firstEmptyIndex + |data|] == before + data;
      firstEmptyIndex := firstEmptyIndex + |data|;
      nPackets := nPackets + 1;
      packets := packets + [data];
      assert Concat(packets) == before + data by {
        assert packets[..|packets| - 1] == old(packets);
      }

      if |data| < FullPacket {
        decoded := decoded + [frameBuffer[..firstEmptyIndex]];
        firstEmptyIndex := 0;
        nPackets := 0;
        packets := [];
        return FrameComplete;
      }
      return Appended;
    }
  }
}
