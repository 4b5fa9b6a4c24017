/**
  The capture sender (`sender/src/main.rs`): resampled frames wait in `pending` until they go out
  in packets, paced or in bursts, and pacing may drop the oldest ones when it falls behind.
 */
module Sender {
  import opened Wrappers
  import opened Numbers
  import opened Audio
  import opened Packet
  import opened Streams
  import opened Subsequences

  const MAX_CATCH_UP_PACKETS: nat := 4
  const MAX_BURST_PACKETS: nat := 16

  type FrameSeq = seq<StereoFrame>

  // ----- quantized streams

  /** A frame as the wire carries it. */
  function Quantized(f: StereoFrame): StereoFrame {
    StereoFrame(I16ToF32(F32ToI16(f.left)), I16ToF32(F32ToI16(f.right)))
  }

  /** On the wire each side is itself to within half a step of the quantizer, and full scale where it is beyond. */
  lemma QuantizedIsNear(f: StereoFrame)
    ensures -1.0 < f.left < 1.0 ==> -0.5 / 32767.0 <= Quantized(f).left - f.left <= 0.5 / 32767.0
    ensures -1.0 < f.right < 1.0 ==> -0.5 / 32767.0 <= Quantized(f).right - f.right <= 0.5 / 32767.0
    ensures f.left <= -1.0 ==> Quantized(f).left == -1.0
    ensures f.left >= 1.0 ==> Quantized(f).left == 1.0
    ensures f.right <= -1.0 ==> Quantized(f).right == -1.0
    ensures f.right >= 1.0 ==> Quantized(f).right == 1.0
  {
    hide I16ToF32, F32ToI16;
    NearestIsNear(f.left);
    NearestIsNear(f.right);
  }

  lemma NearestIsNear(sample: real)
    ensures var q := I16ToF32(F32ToI16(sample));
      && (-1.0 < sample < 1.0 ==> -0.5 / 32767.0 <= q - sample <= 0.5 / 32767.0)
      && (sample <= -1.0 ==> q == -1.0) && (sample >= 1.0 ==> q == 1.0)
  {
    hide F32ToI16;
    QuantizesToNearest(sample);
  }

  lemma {:induction false} QuantizedPayloadAt(frames: FrameSeq, i: nat)
    requires i < |frames|
    ensures QuantizedPayload(frames)[2 * i] == F32ToI16(frames[i].left)
    ensures QuantizedPayload(frames)[2 * i + 1] == F32ToI16(frames[i].right)
  {
    hide F32ToI16;
    if i < |frames| - 1 {
      QuantizedPayloadAt(frames[..|frames| - 1], i);
    }
  }

  function PacketOf(streamId: u64, sequence: u32, position: u64, time: u64, frames: FrameSeq): AudioPacket {
    AudioPacket(AudioPacketHeader.New(streamId, sequence, |frames| % U16_LIMIT, position, time),
                QuantizedPayload(frames))
  }

  /** Up to the header's range of frames, the packet of some frames is well formed and carries them quantized. */
  lemma PacketCarries(streamId: u64, sequence: u32, position: u64, time: u64, frames: FrameSeq)
    requires |frames| < U16_LIMIT
    ensures var p := PacketOf(streamId, sequence, position, time, frames);
      && p.WellFormed()
      && p.header.streamId == streamId && p.header.sequence == sequence && p.header.frames == |frames|
      && p.header.samplePosition == position && p.header.sendTimeNs == time
      && |Frames(p)| == |frames|
      && forall i :: 0 <= i < |frames| ==> Frames(p)[i] == Quantized(frames[i])
  {
    hide F32ToI16, I16ToF32;
    var p := PacketOf(streamId, sequence, position, time, frames);
    forall i | 0 <= i < |frames|
      ensures FrameAt(p, i) == Quantized(frames[i])
    {
      QuantizedPayloadAt(frames, i);
    }
  }

  /** What has been handed to the network: adjacent packets from position zero, carrying the frames in order. */
  ghost predicate Transmitted(streamId: u64, packets: seq<AudioPacket>, position: nat, frames: FrameSeq) {
    && Contiguous(streamId, packets)
    && position == |frames|
    && (if packets == [] then position == 0
        else packets[0].header.samplePosition == 0 && packets[|packets| - 1].EndPosition() == position)
    && |StreamFrames(packets)| == |frames|
    && forall i :: 0 <= i < |frames| ==> StreamFrames(packets)[i] == Quantized(frames[i])
  }

  lemma TransmitNext(streamId: u64, packets: seq<AudioPacket>, position: nat, frames: FrameSeq, p: AudioPacket,
                     more: FrameSeq)
    requires Transmitted(streamId, packets, position, frames)
    requires p.WellFormed() && p.header.streamId == streamId && 0 < p.header.frames
    requires p.header.samplePosition == position && |Frames(p)| == |more|
    requires forall i :: 0 <= i < |more| ==> Frames(p)[i] == Quantized(more[i])
    ensures Transmitted(streamId, packets + [p], position + |more|, frames + more)
  {
    hide Quantized, Frames;
    ContiguousAppend(streamId, packets, p);
    assert (packets + [p])[..|packets|] == packets;
    assert StreamFrames(packets + [p]) == StreamFrames(packets) + Frames(p);
  }

  // ----- the packet sender

  class PacketSender {
    const streamId: u64
    var sequence: u32
    var samplePosition: nat
    ghost var packets: seq<AudioPacket>
    ghost var frames: FrameSeq

    ghost predicate Valid()
      reads this
    {
      Transmitted(streamId, packets, samplePosition, frames)
    }

    constructor (streamId: u64)
      ensures Valid() && this.streamId == streamId
      ensures sequence == 0 && samplePosition == 0 && packets == [] && frames == []
    {
      this.streamId := streamId;
      sequence, samplePosition := 0, 0;
      packets, frames := [], [];
    }

    /**
      Numbers, positions and serialises the frames; the counters advance even when the network
      refuses the bytes. The position must stay inside 64 bits: the source adds unchecked.
     */
    method SendFrames(out: ByteVec, toSend: FrameSeq, time: u64, accepted: bool) returns (ok: bool)
      requires Valid() && |toSend| < U16_LIMIT && samplePosition + |toSend| < U64_LIMIT
      modifies this, out
      ensures Valid()
      ensures ok <==> toSend == [] || accepted
      ensures samplePosition == old(samplePosition) + |toSend| && frames == old(frames) + toSend
      ensures toSend == [] ==>
        packets == old(packets) && sequence == old(sequence) && out.bytes == old(out.bytes)
      ensures toSend != [] ==>
        var p := PacketOf(streamId, old(sequence), old(samplePosition), time, toSend);
        && packets == old(packets) + [p]
        && sequence == Wrap(old(sequence) + 1)
        && out.bytes == Serialize(p) && Parse(out.bytes) == Ok(p)
    {
      hide Transmitted, Parse, Serialize, Frames, Quantized, QuantizedPayload;
      if toSend == [] {
        return true;
      }
      var header := AudioPacketHeader.New(streamId, sequence, |toSend| % U16_LIMIT, samplePosition, time);
      WriteStereoF32PacketBytes(out, header, toSend);
      ghost var p := PacketOf(streamId, sequence, samplePosition, time, toSend);
      PacketCarries(streamId, sequence, samplePosition, time, toSend);
      ParseOfSerialize(p);
      TransmitNext(streamId, packets, samplePosition, frames, p, toSend);
      packets := packets + [p];
      frames := frames + toSend;
      sequence := Wrap(sequence + 1);
      samplePosition := samplePosition + |toSend|;
      return accepted;
    }
  }

  // ----- the capture loop

  /** Dropping from the front of what waits leaves an in-order part of everything. */
  lemma DropOldest(sent: FrameSeq, pending: FrameSeq, n: nat, all: FrameSeq)
    requires n <= |pending| && Subsequence(sent + pending, all)
    ensures Subsequence(sent + pending[n..], all)
  {
    Reflexive(sent);
    Extend(sent, sent, pending[..n]);
    CommonSuffix(sent, sent + pending[..n], pending[n..]);
    assert sent + pending[..n] + pending[n..] == sent + pending;
    Transitive(sent + pending[n..], sent + pending, all);
  }

  /** How many of the oldest frames a trim to the latest packets drops. */
  function Excess(waiting: nat, packetFrames: nat, keepPackets: nat): nat {
    SatSub(waiting, SatMul(packetFrames, keepPackets))
  }

  /** The deadline `k` packet intervals later. */
  function Later(deadline: real, interval: real, k: nat): real {
    deadline + Travel(interval, k)
  }

  /** The first `sent` sends of a turn were due and went through. */
  ghost predicate SentWhenDue(deadline: real, interval: real, clock: nat -> real, network: nat -> bool, sent: nat) {
    forall k: nat :: k < sent ==> network(k) && clock(k) >= Later(deadline, interval, k)
  }

  /**
    What pacing does in a turn that begins with `waiting` frames: what it trims at the head, how many
    packets it sends, what it drops at the end, and the deadline it leaves.
   */
  ghost predicate PacedAs(before: real, after: real, waiting: nat, packetFrames: nat, interval: real,
                          clock: nat -> real, network: nat -> bool, trimmed: nat, sent: nat, moved: nat,
                          dropped: nat) {
    var behind := clock(0) - before > interval * MAX_CATCH_UP_PACKETS as real;
    var start := if behind then clock(0) else before;
    var wasDue := Later(start, interval, sent);
    var left: nat := Max(waiting - trimmed - moved, 0);
    var more := left >= packetFrames && clock(sent + 1) >= wasDue;
    && trimmed == (if behind then Excess(waiting, packetFrames, MAX_CATCH_UP_PACKETS) else 0)
    && SentWhenDue(start, interval, (n: nat) => clock(n + 1), network, sent)
    && sent <= MAX_CATCH_UP_PACKETS && (more ==> sent == MAX_CATCH_UP_PACKETS)
    && dropped == (if more then Excess(left, packetFrames, MAX_CATCH_UP_PACKETS) else 0)
    && after == (if more then clock(sent + 2) + interval else wasDue)
  }

  /**
    A paced turn never runs ahead of its schedule and never falls more than four packets behind it:
    packet `k` of a turn goes out no earlier than `k` intervals after the deadline the turn began
    with, or after its own start where it was more than four intervals late; then, and when four
    packets were not enough, no more than four packets' frames are left waiting.
   */
  lemma PacingKeepsSchedule(before: real, after: real, waiting: nat, packetFrames: nat, interval: real,
                            clock: nat -> real, network: nat -> bool, trimmed: nat, sent: nat, moved: nat,
                            dropped: nat)
    requires packetFrames < U16_LIMIT && moved <= waiting - trimmed
    requires PacedAs(before, after, waiting, packetFrames, interval, clock, network, trimmed, sent, moved, dropped)
    ensures var late := clock(0) > before + 4.0 * interval;
      var start := if late then clock(0) else before;
      && sent <= 4 && (forall k: nat :: k < sent ==> network(k) && clock(k + 1) >= start + Travel(interval, k))
      && trimmed == (if late then Max(waiting - 4 * packetFrames, 0) else 0)
      && var left := waiting - trimmed - moved;
         if left >= packetFrames && clock(sent + 1) >= start + Travel(interval, sent)
         then sent == 4 && left - dropped <= 4 * packetFrames && after == clock(6) + interval
              && (dropped > 0 ==> left - dropped == 4 * packetFrames)
         else dropped == 0 && after == start + Travel(interval, sent)
  {
  }

  lemma SentNone(deadline: real, interval: real, clock: nat -> real, network: nat -> bool)
    ensures Later(deadline, interval, 0) == deadline && SentWhenDue(deadline, interval, clock, network, 0)
  {
  }

  lemma SentOneMore(deadline: real, interval: real, clock: nat -> real, network: nat -> bool, sent: nat)
    requires SentWhenDue(deadline, interval, clock, network, sent)
    requires network(sent) && clock(sent) >= Later(deadline, interval, sent)
    ensures Later(deadline, interval, sent + 1) == Later(deadline, interval, sent) + interval
    ensures SentWhenDue(deadline, interval, clock, network, sent + 1)
  {
  }

  class CaptureSender {
    const packetFrames: nat
    const paced: bool
    const sender: PacketSender
    const out: ByteVec
    var pending: FrameSeq
    var pacingDropped: nat
    var deadline: real
    ghost var resampled: FrameSeq

    /** Every resampled frame was sent, waits or was dropped, and what was sent and waits is in order. */
    ghost predicate Valid()
      reads this, sender
    {
      && 0 < packetFrames < U16_LIMIT
      && sender.Valid()
      && |resampled| == sender.samplePosition + |pending| + pacingDropped
      && Subsequence(sender.frames + pending, resampled)
    }

    constructor (packetFrames: nat, paced: bool, sender: PacketSender, out: ByteVec, now: real)
      requires 0 < packetFrames < U16_LIMIT
      requires sender.Valid() && sender.samplePosition == 0
      ensures Valid() && this.packetFrames == packetFrames && this.paced == paced
      ensures this.sender == sender && this.out == out && pending == [] && resampled == []
    {
      this.packetFrames, this.paced, this.sender, this.out := packetFrames, paced, sender, out;
      pending, pacingDropped, deadline, resampled := [], 0, now, [];
    }

    /** Drops the oldest frames beyond the newest `MAX_CATCH_UP_PACKETS` packets. */
    method TrimPending() returns (dropped: nat)
      requires Valid()
      modifies this`pending, this`pacingDropped
      ensures Valid()
      ensures dropped == Excess(|old(pending)|, packetFrames, MAX_CATCH_UP_PACKETS)
      ensures dropped <= |old(pending)| && pending == old(pending)[dropped..]
      ensures dropped > 0 ==> |pending| == SatMul(packetFrames, MAX_CATCH_UP_PACKETS)
      ensures pacingDropped == old(pacingDropped) + dropped
    {
      var keep := SatMul(packetFrames, MAX_CATCH_UP_PACKETS);
      dropped := if |pending| <= keep then 0 else |pending| - keep;
      DropOldest(sender.frames, pending, dropped, resampled);
      pending := pending[dropped..];
      pacingDropped := pacingDropped + dropped;
    }

    /** Sends the oldest whole packet and takes it out of what waits. */
    method SendOldest(time: u64, accepted: bool) returns (ok: bool)
      requires Valid() && |pending| >= packetFrames && |resampled| < U64_LIMIT
      modifies this`pending, sender, out
      ensures sender.Valid() && (ok <==> accepted)
      ensures sender.frames == old(sender.frames) + old(pending)[..packetFrames]
      ensures sender.samplePosition == old(sender.samplePosition) + packetFrames
      ensures |sender.packets| == |old(sender.packets)| + 1 && old(sender.packets) <= sender.packets
      ensures ok ==> Valid() && pending == old(pending)[packetFrames..]
    {
      hide Subsequence, Transmitted, PacketOf, Serialize, Parse;
      ghost var waiting := pending;
      ok := sender.SendFrames(out, pending[..packetFrames], time, accepted);
      if !ok {
        return;
      }
      pending := pending[packetFrames..];
      assert waiting == waiting[..packetFrames] + waiting[packetFrames..];
      assert sender.frames + pending == old(sender.frames) + waiting;
    }

    /** The head of a paced turn: more than four packet intervals behind, the oldest frames go. */
    method TrimWhenBehind(interval: real, now: real) returns (dropped: nat)
      requires Valid() && interval >= 0.0
      modifies this`pending, this`pacingDropped, this`deadline
      ensures Valid()
      ensures dropped ==
        if now - old(deadline) > interval * MAX_CATCH_UP_PACKETS as real
        then Excess(|old(pending)|, packetFrames, MAX_CATCH_UP_PACKETS) else 0
      ensures dropped <= |old(pending)| && pending == old(pending)[dropped..]
      ensures pacingDropped == old(pacingDropped) + dropped
      ensures deadline == if now - old(deadline) > interval * MAX_CATCH_UP_PACKETS as real then now else old(deadline)
    {
      dropped := 0;
      var lag := if now > deadline then now - deadline else 0.0;
      if lag > interval * MAX_CATCH_UP_PACKETS as real {
        dropped := TrimPending();
        deadline := now;
      }
    }

    /** Out of sends for this turn and still behind: the oldest frames go and the deadline starts over. */
    method TrimIfStillDue(interval: real, now: real, later: real) returns (dropped: nat)
      requires Valid()
      modifies this`pending, this`pacingDropped, this`deadline
      ensures Valid()
      ensures var due := |old(pending)| >= packetFrames && now >= old(deadline);
        && dropped == (if due then Excess(|old(pending)|, packetFrames, MAX_CATCH_UP_PACKETS) else 0)
        && deadline == (if due then later + interval else old(deadline))
      ensures dropped <= |old(pending)| && pending == old(pending)[dropped..]
      ensures pacingDropped == old(pacingDropped) + dropped
    {
      dropped := 0;
      if |pending| >= packetFrames && now >= deadline {
        dropped := TrimPending();
        deadline := later + interval;
      }
    }

    /**
      Sends what is due, four packets at most. `clock` gives the readings of the wall clock in turn
      and `network` whether the k-th send goes through.
     */
    method SendThoseDue(interval: real, clock: nat -> real, time: u64, network: nat -> bool)
      returns (ok: bool, sent: nat, ghost moved: nat)
      requires Valid() && |resampled| < U64_LIMIT
      modifies this`pending, this`deadline, sender, out
      ensures sender.Valid() && sent <= MAX_CATCH_UP_PACKETS && moved == Offset(sent, packetFrames)
      ensures old(sender.packets) <= sender.packets
      ensures SentWhenDue(old(deadline), interval, clock, network, sent)
      ensures !ok ==> !network(sent)
      ensures ok ==>
        && Valid()
        && |sender.packets| == |old(sender.packets)| + sent
        && moved <= |old(pending)|
        && sender.frames == old(sender.frames) + old(pending)[..moved]
        && pending == old(pending)[moved..]
        && deadline == Later(old(deadline), interval, sent)
        && (sent < MAX_CATCH_UP_PACKETS ==> |pending| < packetFrames || clock(sent) < deadline)
    {
      hide Subsequence, Transmitted, Later, SentWhenDue;
      sent, moved := 0, 0;
      SentNone(deadline, interval, clock, network);
      while |pending| >= packetFrames && clock(sent) >= deadline
        invariant Valid() && sent < MAX_CATCH_UP_PACKETS && resampled == old(resampled)
        invariant moved == Offset(sent, packetFrames) && moved <= |old(pending)| && pending == old(pending)[moved..]
        invariant sender.frames == old(sender.frames) + old(pending)[..moved]
        invariant |sender.packets| == |old(sender.packets)| + sent && old(sender.packets) <= sender.packets
        invariant deadline == Later(old(deadline), interval, sent)
        invariant SentWhenDue(old(deadline), interval, clock, network, sent)
        decreases |pending|
      {
        ok := SendOldest(time, network(sent));
        if !ok {
          return;
        }
        SentOneMore(old(deadline), interval, clock, network, sent);
        deadline := deadline + interval;
        sent := sent + 1;
        TakeMore(old(pending), moved, packetFrames);
        moved := moved + packetFrames;
        if sent >= MAX_CATCH_UP_PACKETS {
          break;
        }
      }
      ok := true;
    }

    /**
      The rest of a paced turn: sends what is due and trims if four packets were not enough. The
      waiting frames divide into those sent, those dropped and those kept.
     */
    method SendDue(interval: real, clock: nat -> real, time: u64, network: nat -> bool)
      returns (ok: bool, sent: nat, ghost moved: nat, ghost dropped: nat)
      requires Valid() && |resampled| < U64_LIMIT
      modifies this`pending, this`pacingDropped, this`deadline, sender, out
      ensures sender.Valid() && sent <= MAX_CATCH_UP_PACKETS && moved == Offset(sent, packetFrames)
      ensures old(sender.packets) <= sender.packets
      ensures SentWhenDue(old(deadline), interval, clock, network, sent)
      ensures !ok ==> !network(sent)
      ensures ok ==>
        && Valid()
        && |sender.packets| == |old(sender.packets)| + sent
        && moved + dropped <= |old(pending)|
        && sender.frames == old(sender.frames) + old(pending)[..moved]
        && pending == old(pending)[moved + dropped..]
        && pacingDropped == old(pacingDropped) + dropped
      ensures ok ==>
        var wasDue := Later(old(deadline), interval, sent);
        var more := |old(pending)| - moved >= packetFrames && clock(sent) >= wasDue;
        && (more ==> sent == MAX_CATCH_UP_PACKETS)
        && dropped == (if more then Excess(|old(pending)| - moved, packetFrames, MAX_CATCH_UP_PACKETS) else 0)
        && deadline == (if more then clock(sent + 1) + interval else wasDue)
    {
      hide Subsequence, Transmitted, Excess, Later, SentWhenDue, Offset;
      dropped := 0;
      ok, sent, moved := SendThoseDue(interval, clock, time, network);
      if ok && sent >= MAX_CATCH_UP_PACKETS {
        var excess := TrimIfStillDue(interval, clock(sent), clock(sent + 1));
        dropped := excess;
        TakeMore(old(pending), moved, dropped);
      }
    }

    /** The unpaced turn: sends whole packets, sixteen at most. */
    method BurstTurn(time: u64, network: nat -> bool) returns (ok: bool, sent: nat, ghost moved: nat)
      requires Valid() && |resampled| < U64_LIMIT
      modifies this`pending, sender, out
      ensures sender.Valid() && sent <= 16 && moved == Offset(sent, packetFrames)
      ensures old(sender.packets) <= sender.packets
      ensures ok ==>
        && Valid()
        && |sender.packets| == |old(sender.packets)| + sent
        && moved <= |old(pending)|
        && sender.frames == old(sender.frames) + old(pending)[..moved]
        && pending == old(pending)[moved..]
        && (sent == 16 || |pending| < packetFrames)
      ensures (forall k: nat :: k < sent ==> network(k)) && (!ok ==> !network(sent))
    {
      hide Subsequence, Transmitted;
      sent, moved := 0, 0;
      while |pending| >= packetFrames
        invariant Valid() && sent < MAX_BURST_PACKETS
        invariant resampled == old(resampled)
        invariant moved == Offset(sent, packetFrames) && moved <= |old(pending)|
        invariant pending == old(pending)[moved..] && forall k: nat :: k < sent ==> network(k)
        invariant sender.frames == old(sender.frames) + old(pending)[..moved]
        invariant |sender.packets| == |old(sender.packets)| + sent && old(sender.packets) <= sender.packets
        decreases |pending|
      {
        ok := SendOldest(time, network(sent));
        if !ok {
          return;
        }
        sent := sent + 1;
        TakeMore(old(pending), moved, packetFrames);
        moved := moved + packetFrames;
        if sent >= MAX_BURST_PACKETS {
          break;
        }
      }
      ok := true;
    }

    /** The turn that found too little to send: what the resampler made of a captured chunk, if any, joins. */
    method CaptureTurn(arrived: Option<FrameSeq>, now: real)
      requires Valid()
      modifies this`pending, this`deadline, this`resampled
      ensures Valid()
      ensures pending == if arrived.Some? then old(pending) + arrived.value else old(pending)
      ensures resampled == if arrived.Some? then old(resampled) + arrived.value else old(resampled)
      ensures deadline ==
        if arrived.Some? && paced && |old(pending)| < packetFrames <= |pending| then now else old(deadline)
    {
      hide Subsequence, Transmitted;
      if arrived.Some? {
        var frames := arrived.value;
        var wasReady := |pending| >= packetFrames;
        CommonSuffix(sender.frames + pending, resampled, frames);
        Associative(sender.frames, pending, frames);
        pending := pending + frames;
        resampled := resampled + frames;
        if paced && !wasReady && |pending| >= packetFrames {
          deadline := now;
        }
      }
    }

    /** The paced turn: trims when too late, sends what is due, and trims again if that was not enough. */
    method PacedTurn(interval: real, clock: nat -> real, time: u64, network: nat -> bool)
      returns (ok: bool, ghost trimmed: nat, sent: nat, ghost moved: nat, ghost dropped: nat)
      requires Valid() && interval >= 0.0 && |resampled| < U64_LIMIT
      modifies this`pending, this`pacingDropped, this`deadline, sender, out
      ensures sender.Valid() && old(sender.packets) <= sender.packets
      ensures moved == Offset(sent, packetFrames)
      ensures ok ==>
        && Valid() && |sender.packets| == |old(sender.packets)| + sent
        && trimmed + moved + dropped <= |old(pending)|
        && sender.frames == old(sender.frames) + old(pending)[trimmed..][..moved]
        && pending == old(pending)[trimmed..][moved + dropped..]
        && pacingDropped == old(pacingDropped) + trimmed + dropped
        && PacedAs(old(deadline), deadline, |old(pending)|, packetFrames, interval, clock, network, trimmed, sent,
                   moved, dropped)
    {
      hide Subsequence, Transmitted, Excess, SatMul, Later, SentWhenDue, Offset;
      var behind := TrimWhenBehind(interval, clock(0));
      trimmed := behind;
      ok, sent, moved, dropped := SendDue(interval, (n: nat) => clock(n + 1), time, network);
    }

    /**
      One turn of the loop; only a failed send ends it. With a whole packet waiting, the oldest
      frames are trimmed, sent and trimmed again, in this order and as pacing asks; otherwise what
      was captured joins.
     */
    method Turn(interval: real, clock: nat -> real, time: u64, network: nat -> bool, arrived: Option<FrameSeq>)
      returns (ok: bool, ghost trimmed: nat, ghost sent: nat, ghost moved: nat, ghost dropped: nat)
      requires Valid() && interval >= 0.0 && |resampled| < U64_LIMIT
      modifies this, sender, out
      ensures sender.Valid() && old(sender.packets) <= sender.packets
      ensures |old(pending)| < packetFrames ==>
        && ok && trimmed == sent == moved == dropped == 0
        && sender.frames == old(sender.frames)
        && pending == old(pending) + (if arrived.Some? then arrived.value else [])
        && resampled == old(resampled) + (if arrived.Some? then arrived.value else [])
        && deadline == if arrived.Some? && paced && packetFrames <= |pending| then clock(0) else old(deadline)
      ensures moved == Offset(sent, packetFrames)
      ensures |old(pending)| >= packetFrames && ok ==>
        && |sender.packets| == |old(sender.packets)| + sent
        && trimmed + moved + dropped <= |old(pending)| && resampled == old(resampled)
        && sender.frames == old(sender.frames) + old(pending)[trimmed..][..moved]
        && pending == old(pending)[trimmed..][moved + dropped..]
      ensures |old(pending)| >= packetFrames && ok && !paced ==>
        && trimmed == dropped == 0 && deadline == old(deadline)
        && 0 < sent <= 16 && (sent == 16 || |pending| < packetFrames)
      ensures |old(pending)| >= packetFrames && ok && paced ==>
        PacedAs(old(deadline), deadline, |old(pending)|, packetFrames, interval, clock, network, trimmed, sent,
                moved, dropped)
      ensures ok ==> Valid() && pacingDropped == old(pacingDropped) + trimmed + dropped
    {
      hide Subsequence, Transmitted, PacedAs;
      ok, trimmed, sent, moved, dropped := true, 0, 0, 0, 0;
      if |pending| >= packetFrames {
        var packets;
        if paced {
          ok, trimmed, packets, moved, dropped := PacedTurn(interval, clock, time, network);
        } else {
          ok, packets, moved := BurstTurn(time, network);
        }
        sent := packets;
      } else {
        CaptureTurn(arrived, clock(0));
        NothingJoins(old(pending), old(resampled));
      }
    }
  }

  lemma NothingJoins(a: FrameSeq, b: FrameSeq)
    ensures a + [] == a && b + [] == b
  {
  }

  lemma TakeMore(frames: FrameSeq, moved: nat, n: nat)
    requires moved + n <= |frames|
    ensures frames[..moved + n] == frames[..moved] + frames[moved..][..n]
    ensures frames[moved + n..] == frames[moved..][n..]
  {
  }

  lemma Associative(a: FrameSeq, b: FrameSeq, c: FrameSeq)
    ensures a + b + c == a + (b + c)
  {
  }
}
