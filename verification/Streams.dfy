/**
  What a sender promises about its packets: they are well formed, non-empty and adjacent, so a
  stream is one sequence of frames cut into pieces (`sender/src/main.rs`, `w-sender/src/packetizer.rs`).
 */
module Streams {
  import opened Numbers
  import opened Audio
  import opened Packet

  /** Adjacent, non-empty, well-formed packets of one stream. */
  predicate Contiguous(stream: u64, packets: seq<AudioPacket>) {
    && (forall i :: 0 <= i < |packets| ==>
          packets[i].WellFormed() && packets[i].header.streamId == stream && packets[i].header.frames > 0)
    && (forall i :: 0 < i < |packets| ==>
          packets[i].header.samplePosition == packets[i - 1].EndPosition())
  }

  /** The frames a packet carries. */
  function FrameAt(p: AudioPacket, offset: nat): StereoFrame
    requires p.WellFormed() && offset < p.header.frames
  {
    StereoFrame(I16ToF32(p.payload[2 * offset]), I16ToF32(p.payload[2 * offset + 1]))
  }

  function Frames(p: AudioPacket): (frames: seq<StereoFrame>)
    requires p.WellFormed()
    ensures |frames| == p.header.frames
  {
    seq(p.header.frames, offset requires 0 <= offset < p.header.frames => FrameAt(p, offset))
  }

  /** The stream: the packets' frames, one packet after the other. */
  function StreamFrames(packets: seq<AudioPacket>): seq<StereoFrame>
    requires forall p :: p in packets ==> p.WellFormed()
  {
    if packets == [] then []
    else StreamFrames(packets[..|packets| - 1]) + Frames(packets[|packets| - 1])
  }

  lemma ContiguousPrefix(stream: u64, packets: seq<AudioPacket>, n: nat)
    requires Contiguous(stream, packets) && n <= |packets|
    ensures Contiguous(stream, packets[..n])
  {
  }

  lemma ContiguousAppend(stream: u64, packets: seq<AudioPacket>, p: AudioPacket)
    requires Contiguous(stream, packets)
    requires p.WellFormed() && p.header.streamId == stream && p.header.frames > 0
    requires packets != [] ==> p.header.samplePosition == packets[|packets| - 1].EndPosition()
    ensures Contiguous(stream, packets + [p])
  {
  }

  lemma ContiguousPrepend(stream: u64, p: AudioPacket, packets: seq<AudioPacket>)
    requires Contiguous(stream, packets)
    requires p.WellFormed() && p.header.streamId == stream && p.header.frames > 0
    requires packets != [] ==> packets[0].header.samplePosition == p.EndPosition()
    ensures Contiguous(stream, [p] + packets)
  {
  }

  /** Later packets start no earlier than earlier ones end. */
  lemma {:induction false} Ordered(stream: u64, packets: seq<AudioPacket>, i: nat, j: nat)
    requires Contiguous(stream, packets) && i < j < |packets|
    ensures packets[i].EndPosition() <= packets[j].header.samplePosition
  {
    if i + 1 < j {
      Ordered(stream, packets, i, j - 1);
    }
  }

  /** Two packets of a stream are the same or do not overlap. */
  lemma SameOrApart(stream: u64, packets: seq<AudioPacket>, p: AudioPacket, q: AudioPacket)
    requires Contiguous(stream, packets) && p in packets && q in packets
    ensures
      || p == q
      || p.EndPosition() <= q.header.samplePosition
      || q.EndPosition() <= p.header.samplePosition
  {
    var i :| 0 <= i < |packets| && packets[i] == p;
    var j :| 0 <= j < |packets| && packets[j] == q;
    if i < j {
      Ordered(stream, packets, i, j);
    } else if j < i {
      Ordered(stream, packets, j, i);
    }
  }

  lemma {:induction false} StreamLength(stream: u64, packets: seq<AudioPacket>)
    requires Contiguous(stream, packets) && packets != []
    ensures packets[0].header.samplePosition + |StreamFrames(packets)| == packets[|packets| - 1].EndPosition()
  {
    var init := packets[..|packets| - 1];
    if init != [] {
      ContiguousPrefix(stream, packets, |packets| - 1);
      StreamLength(stream, init);
    } else {
      assert StreamFrames(init) == [];
    }
  }

  /** Frame `offset` of packet `i` is the stream's frame at the packet's position and offset. */
  lemma {:induction false} PacketInStream(stream: u64, packets: seq<AudioPacket>, i: nat, offset: nat)
    requires Contiguous(stream, packets) && i < |packets| && offset < packets[i].header.frames
    ensures var at := packets[i].header.samplePosition + offset - packets[0].header.samplePosition;
      0 <= at < |StreamFrames(packets)| && StreamFrames(packets)[at] == FrameAt(packets[i], offset)
  {
    hide FrameAt;
    var init := packets[..|packets| - 1];
    ContiguousPrefix(stream, packets, |packets| - 1);
    if i < |init| {
      PacketInStream(stream, init, i, offset);
    } else {
      LastPosition(stream, packets);
    }
  }

  /** Where the last packet's frames sit in the stream. */
  lemma LastPosition(stream: u64, packets: seq<AudioPacket>)
    requires Contiguous(stream, packets) && packets != []
    ensures var last := |packets| - 1;
      packets[last].header.samplePosition - packets[0].header.samplePosition == |StreamFrames(packets[..last])|
  {
    var init := packets[..|packets| - 1];
    if init != [] {
      ContiguousPrefix(stream, packets, |packets| - 1);
      StreamLength(stream, init);
    } else {
      assert StreamFrames(init) == [];
    }
  }
}
