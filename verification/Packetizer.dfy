/**
  The WASAPI sender's packetizer (`w-sender/src/packetizer.rs`): converts a captured chunk of
  interleaved samples and cuts it into packets of bounded size.
 */
module Packetizer {
  import opened Wrappers
  import opened Numbers
  import opened Audio
  import opened Packet
  import opened Streams

  datatype SampleEncoding = F32 | I16 | I24 | I32

  datatype InputFormat = InputFormat(
    sampleRate: u32,
    channels: u16,
    bitsPerSample: u16,
    blockAlign: u16,
    encoding: SampleEncoding)
  {
    function BytesPerSample(): nat {
      bitsPerSample / 8
    }
  }

  /** The errors the packetizer returns, and the panic of converting a sample of the wrong size. */
  datatype ChunkError = UnsupportedRate | NoChannels | NoSampleBytes | ShortBuffer | SampleSizePanic

  /** How the four bytes of an IEEE float read as a number. */
  type FloatReader = seq<byte> -> real

  datatype Wire = Wire(left: i16, right: i16)

  // ----- reading samples

  function Signed(bytes: seq<byte>): int {
    var value := LeValue(bytes);
    if 2 * value < Pow256(|bytes|) then value else value - Pow256(|bytes|)
  }

  function ReadSample(bytes: seq<byte>, encoding: SampleEncoding, float: FloatReader): Result<real, ChunkError> {
    match encoding
    case F32 => if |bytes| != 4 then Err(SampleSizePanic) else Ok(Clamp(float(bytes), -1.0, 1.0))
    case I16 =>
      if |bytes| != 2 then Err(SampleSizePanic)
      else Ok(Clamp(I16ToF32(SampleFromBytes(bytes)), -1.0, 1.0))
    case I24 =>
      if |bytes| < 3 then Err(SampleSizePanic)
      else Ok(Clamp(Signed(bytes[..3]) as real / 8388607.0, -1.0, 1.0))
    case I32 =>
      if |bytes| != 4 then Err(SampleSizePanic)
      else
        var sample := Signed(bytes);
        Ok(Clamp(if sample == -0x8000_0000 then -1.0 else sample as real / 2147483647.0, -1.0, 1.0))
  }

  function ReadChannel(data: seq<byte>, frame: nat, channel: nat, format: InputFormat, float: FloatReader)
    : Result<real, ChunkError>
  {
    var size := format.BytesPerSample();
    var at := frame * format.blockAlign + channel * size;
    if at + size > |data| then Err(ShortBuffer) else ReadSample(data[at..at + size], format.encoding, float)
  }

  /** One frame as the wire carries it: silence without data, a mono input on both sides. */
  function ReadFrame(data: Option<seq<byte>>, frame: nat, format: InputFormat, float: FloatReader)
    : Result<Wire, ChunkError>
  {
    match data
    case None => Ok(Wire(0, 0))
    case Some(bytes) =>
      match ReadChannel(bytes, frame, 0, format, float)
      case Err(e) => Err(e)
      case Ok(left) =>
        if format.channels == 1 then Ok(Wire(F32ToI16(left), F32ToI16(left)))
        else
          match ReadChannel(bytes, frame, 1, format, float)
          case Err(e) => Err(e)
          case Ok(right) => Ok(Wire(F32ToI16(left), F32ToI16(right)))
  }

  /** The converted samples of a range of frames, or the first frame's error. */
  function ReadRange(data: Option<seq<byte>>, from: nat, end: nat, format: InputFormat, float: FloatReader)
    : (r: Result<seq<i16>, ChunkError>)
    requires from <= end
    ensures r.Ok? ==> |r.value| == 2 * (end - from)
    decreases end
  {
    if from == end then Ok([])
    else
      match ReadRange(data, from, end - 1, format, float)
      case Err(e) => Err(e)
      case Ok(samples) =>
        match ReadFrame(data, end - 1, format, float)
        case Err(e) => Err(e)
        case Ok(wire) => Ok(samples + [wire.left, wire.right])
  }

  // ----- cutting into packets

  /** What a chunk makes: the packets emitted and, when it stopped early, why. */
  datatype Cut = Cut(packets: seq<AudioPacket>, stopped: Option<ChunkError>)

  /** Cuts frames `base..total` into packets numbered and positioned from the given counters. */
  function CutFrom(data: Option<seq<byte>>, base: nat, total: nat, max: nat, format: InputFormat, float: FloatReader,
                   stream: u64, sequence: u32, position: nat, time: nat -> u64): Cut
    requires 0 < max < U16_LIMIT && base <= total && position + (total - base) < U64_LIMIT
    decreases total - base
  {
    if base == total then Cut([], None)
    else
      var n := Min(total - base, max);
      match ReadRange(data, base, base + n, format, float)
      case Err(e) => Cut([], Some(e))
      case Ok(payload) =>
        var packet := AudioPacket(AudioPacketHeader.New(stream, sequence, n, position, time(base)), payload);
        var rest := CutFrom(data, base + n, total, max, format, float, stream, Wrap(sequence + 1),
                            position + n, time);
        Cut([packet] + rest.packets, rest.stopped)
  }

  function Payloads(packets: seq<AudioPacket>): seq<i16> {
    if packets == [] then [] else packets[0].payload + Payloads(packets[1..])
  }

  lemma {:induction false} PayloadsAppend(a: seq<AudioPacket>, b: seq<AudioPacket>)
    ensures Payloads(a + b) == Payloads(a) + Payloads(b)
  {
    if a == [] {
      assert a + b == b;
    } else {
      PayloadsAppend(a[1..], b);
      assert (a + b)[1..] == a[1..] + b && (a + b)[0] == a[0];
      assert a[0].payload + (Payloads(a[1..]) + Payloads(b)) == a[0].payload + Payloads(a[1..]) + Payloads(b);
    }
  }

  /** Interleaved samples as frames. */
  function FramesOf(samples: seq<i16>): seq<StereoFrame> {
    seq(|samples| / 2, i requires 0 <= i < |samples| / 2 =>
      StereoFrame(I16ToF32(samples[2 * i]), I16ToF32(samples[2 * i + 1])))
  }

  lemma FramesOfAppend(a: seq<i16>, b: seq<i16>)
    requires |a| % 2 == 0
    ensures FramesOf(a + b) == FramesOf(a) + FramesOf(b)
  {
    hide I16ToF32;
  }

  lemma PacketFramesOf(p: AudioPacket)
    requires p.WellFormed()
    ensures Frames(p) == FramesOf(p.payload) && |p.payload| % 2 == 0
  {
    hide I16ToF32;
  }

  lemma {:induction false} PayloadsEven(packets: seq<AudioPacket>)
    requires forall p :: p in packets ==> p.WellFormed()
    ensures |Payloads(packets)| % 2 == 0
  {
    hide Frames, FramesOf, AudioPacket.WellFormed;
    if packets != [] {
      assert packets[0] in packets;
      PacketFramesOf(packets[0]);
      PayloadsEven(packets[1..]);
    }
  }

  /** A stream's frames are its packets' payloads, one after the other. */
  lemma {:induction false} StreamOfPayloads(packets: seq<AudioPacket>)
    requires forall p :: p in packets ==> p.WellFormed()
    ensures StreamFrames(packets) == FramesOf(Payloads(packets))
  {
    hide FramesOf, Frames;
    if packets == [] {
      assert |FramesOf([])| == 0 by { NoFrames(); }
    } else {
      var init, last := packets[..|packets| - 1], packets[|packets| - 1];
      StreamOfPayloads(init);
      PacketFramesOf(last);
      PayloadsEven(init);
      assert packets == init + [last];
      PayloadsAppend(init, [last]);
      LastPayload(last);
      FramesOfAppend(Payloads(init), last.payload);
    }
  }

  lemma NoFrames()
    ensures FramesOf([]) == []
  {
  }

  lemma LastPayload(p: AudioPacket)
    ensures Payloads([p]) == p.payload
  {
    assert [p][1..] == [];
  }

  /** What has been handed to the network: adjacent packets from position zero that carry these samples. */
  ghost predicate Packetized(stream: u64, packets: seq<AudioPacket>, samples: seq<i16>) {
    && Contiguous(stream, packets)
    && (packets != [] ==> packets[0].header.samplePosition == 0)
    && Payloads(packets) == samples
  }

  function FrameTotal(packets: seq<AudioPacket>): nat {
    if packets == [] then 0 else packets[0].header.frames + FrameTotal(packets[1..])
  }

  lemma {:induction false} FrameTotalAppend(a: seq<AudioPacket>, b: seq<AudioPacket>)
    ensures FrameTotal(a + b) == FrameTotal(a) + FrameTotal(b)
  {
    if a == [] {
      assert a + b == b;
    } else {
      FrameTotalAppend(a[1..], b);
      assert (a + b)[1..] == a[1..] + b;
    }
  }

  lemma {:induction false} ReadRangeJoins(data: Option<seq<byte>>, from: nat, mid: nat, end: nat, format: InputFormat,
                                          float: FloatReader)
    requires from <= mid <= end
    ensures
      var a := ReadRange(data, from, mid, format, float);
      var b := ReadRange(data, mid, end, format, float);
      var c := ReadRange(data, from, end, format, float);
      && (a.Ok? && b.Ok? ==> c == Ok(a.value + b.value))
      && (a.Ok? && b.Err? ==> c == b)
      && (a.Err? ==> c == a)
    decreases end
  {
    hide ReadFrame;
    var a := ReadRange(data, from, mid, format, float);
    if mid == end {
      assert a.Ok? ==> a.value + [] == a.value;
    } else {
      ReadRangeJoins(data, from, mid, end - 1, format, float);
      var b, last := ReadRange(data, mid, end - 1, format, float), ReadFrame(data, end - 1, format, float);
      if a.Ok? && b.Ok? && last.Ok? {
        assert a.value + b.value + [last.value.left, last.value.right]
            == a.value + (b.value + [last.value.left, last.value.right]);
      }
    }
  }

  /** Adjacent, non-empty packets of bounded size from a position up to an end. */
  ghost predicate Pieces(packets: seq<AudioPacket>, stream: u64, position: nat, end: nat, max: nat) {
    && Contiguous(stream, packets)
    && (forall i :: 0 <= i < |packets| ==> packets[i].header.frames <= max)
    && (if packets == [] then position == end
        else packets[0].header.samplePosition == position && packets[|packets| - 1].EndPosition() == end)
  }

  lemma PiecesPrepend(p: AudioPacket, packets: seq<AudioPacket>, stream: u64, end: nat, max: nat)
    requires Pieces(packets, stream, p.EndPosition(), end, max)
    requires p.WellFormed() && p.header.streamId == stream && 0 < p.header.frames <= max
    ensures Pieces([p] + packets, stream, p.header.samplePosition, end, max)
  {
    ContiguousPrepend(stream, p, packets);
  }

  lemma PiecesAppend(a: seq<AudioPacket>, b: seq<AudioPacket>, stream: u64, position: nat, mid: nat, end: nat,
                     max: nat)
    requires Pieces(a, stream, position, mid, max) && Pieces(b, stream, mid, end, max)
    ensures Pieces(a + b, stream, position, end, max)
  {
    var all := a + b;
    forall i | 0 < i < |all|
      ensures all[i].header.samplePosition == all[i - 1].EndPosition()
    {
      if i > |a| {
        assert all[i] == b[i - |a|] && all[i - 1] == b[i - |a| - 1];
      }
    }
  }

  /** The packets carry the conversion of the frames they cover; a stop is the error of the next block. */
  ghost predicate Carried(cut: Cut, data: Option<seq<byte>>, base: nat, total: nat, max: nat, format: InputFormat,
                          float: FloatReader)
    requires base <= total
  {
    var reached := base + FrameTotal(cut.packets);
    && reached <= total
    && ReadRange(data, base, reached, format, float) == Ok(Payloads(cut.packets))
    && match cut.stopped
       case None => reached == total
       case Some(e) => ReadRange(data, base, Min(reached + max, total), format, float) == Err(e)
  }

  lemma CarriedPrepend(p: AudioPacket, rest: Cut, data: Option<seq<byte>>, base: nat, total: nat, max: nat,
                       format: InputFormat, float: FloatReader)
    requires base + p.header.frames <= total && Carried(rest, data, base + p.header.frames, total, max, format, float)
    requires ReadRange(data, base, base + p.header.frames, format, float) == Ok(p.payload)
    ensures Carried(Cut([p] + rest.packets, rest.stopped), data, base, total, max, format, float)
  {
    hide ReadRange;
    var mid := base + p.header.frames;
    var reached := mid + FrameTotal(rest.packets);
    assert ([p] + rest.packets)[1..] == rest.packets;
    ReadRangeJoins(data, base, mid, reached, format, float);
    ReadRangeJoins(data, base, mid, Min(reached + max, total), format, float);
  }

  /**
    However far the chunk gets, its packets are adjacent, non-empty and bounded, start at the given
    position, and their payloads concatenate to the conversion of the frames they cover; without
    an error they cover the whole chunk.
   */
  lemma {:induction false} CutIsFaithful(data: Option<seq<byte>>, base: nat, total: nat, max: nat, format: InputFormat,
                                         float: FloatReader, stream: u64, sequence: u32, position: nat,
                                         time: nat -> u64)
    requires 0 < max < U16_LIMIT && base <= total && position + (total - base) < U64_LIMIT
    ensures var cut := CutFrom(data, base, total, max, format, float, stream, sequence, position, time);
      && Pieces(cut.packets, stream, position, position + FrameTotal(cut.packets), max)
      && Carried(cut, data, base, total, max, format, float)
    decreases total - base
  {
    hide ReadRange, Pieces, Carried, FrameTotal;
    if base == total {
      EmptyCut(data, base, max, format, float, stream, position);
    } else {
      var n := Min(total - base, max);
      match ReadRange(data, base, base + n, format, float)
      case Err(e) => StoppedCut(data, base, total, max, format, float, stream, position, e);
      case Ok(payload) =>
        var p := AudioPacket(AudioPacketHeader.New(stream, sequence, n, position, time(base)), payload);
        var rest := CutFrom(data, base + n, total, max, format, float, stream, Wrap(sequence + 1),
                            position + n, time);
        CutIsFaithful(data, base + n, total, max, format, float, stream, Wrap(sequence + 1), position + n, time);
        FirstPacket(p, rest, data, base, total, max, format, float, stream, position);
    }
  }

  lemma FirstPacket(p: AudioPacket, rest: Cut, data: Option<seq<byte>>, base: nat, total: nat, max: nat,
                    format: InputFormat, float: FloatReader, stream: u64, position: nat)
    requires var n := p.header.frames;
      && 0 < n <= max && base + n <= total && p.WellFormed()
      && p.header.streamId == stream && p.header.samplePosition == position
      && ReadRange(data, base, base + n, format, float) == Ok(p.payload)
      && Pieces(rest.packets, stream, position + n, position + n + FrameTotal(rest.packets), max)
      && Carried(rest, data, base + n, total, max, format, float)
    ensures var cut := Cut([p] + rest.packets, rest.stopped);
      && Pieces(cut.packets, stream, position, position + FrameTotal(cut.packets), max)
      && Carried(cut, data, base, total, max, format, float)
  {
    hide ReadRange, Pieces, Carried;
    assert ([p] + rest.packets)[1..] == rest.packets;
    PiecesPrepend(p, rest.packets, stream, position + p.header.frames + FrameTotal(rest.packets), max);
    CarriedPrepend(p, rest, data, base, total, max, format, float);
  }

  lemma EmptyCut(data: Option<seq<byte>>, base: nat, max: nat, format: InputFormat, float: FloatReader, stream: u64,
                 position: nat)
    ensures Pieces([], stream, position, position + FrameTotal([]), max)
    ensures Carried(Cut([], None), data, base, base, max, format, float)
  {
  }

  lemma StoppedCut(data: Option<seq<byte>>, base: nat, total: nat, max: nat, format: InputFormat, float: FloatReader,
                   stream: u64, position: nat, e: ChunkError)
    requires base < total && ReadRange(data, base, base + Min(total - base, max), format, float) == Err(e)
    ensures Pieces([], stream, position, position + FrameTotal([]), max)
    ensures Carried(Cut([], Some(e)), data, base, total, max, format, float)
  {
  }

  lemma CarriedSamples(cut: Cut, data: Option<seq<byte>>, base: nat, total: nat, max: nat, format: InputFormat,
                       float: FloatReader)
    requires base <= total && Carried(cut, data, base, total, max, format, float)
    ensures base + FrameTotal(cut.packets) <= total
    ensures ReadRange(data, base, base + FrameTotal(cut.packets), format, float) == Ok(Payloads(cut.packets))
  {
  }

  lemma PiecesCarry(a: seq<AudioPacket>, b: seq<AudioPacket>, stream: u64, end: nat, max: nat, samples: seq<i16>)
    requires Packetized(stream, a, samples) && Pieces(a + b, stream, 0, end, max)
    ensures Packetized(stream, a + b, samples + Payloads(b))
  {
    hide Payloads, Contiguous;
    PayloadsAppend(a, b);
  }

  // ----- the packetizer

  /** Frames on the wire, one packet after the other. */
  function SerializeAll(packets: seq<AudioPacket>): seq<seq<byte>> {
    seq(|packets|, i requires 0 <= i < |packets| => Serialize(packets[i]))
  }

  lemma SerializeNone()
    ensures SerializeAll([]) == []
  {
  }

  lemma SerializeNext(packets: seq<AudioPacket>, p: AudioPacket)
    ensures SerializeAll(packets + [p]) == SerializeAll(packets) + [Serialize(p)]
  {
    hide Serialize;
  }

  lemma NextSequence(start: nat, count: nat)
    ensures Wrap(Wrap(start + count) + 1) == Wrap(start + (count + 1))
  {
  }

  /** The packets made so far and what is still to cut make up the whole cut. */
  ghost predicate Underway(cut: Cut, done: seq<AudioPacket>, base: nat, data: Option<seq<byte>>, total: nat, max: nat,
                           format: InputFormat, float: FloatReader, stream: u64, sequence: u32, position: nat,
                           time: nat -> u64)
    requires 0 < max < U16_LIMIT && base <= total && position + (total - base) < U64_LIMIT
  {
    var rest := CutFrom(data, base, total, max, format, float, stream, sequence, position, time);
    base == FrameTotal(done) && cut == Cut(done + rest.packets, rest.stopped)
  }

  lemma UnderwayBegins(data: Option<seq<byte>>, total: nat, max: nat, format: InputFormat, float: FloatReader,
                       stream: u64, sequence: u32, position: nat, time: nat -> u64)
    requires 0 < max < U16_LIMIT && position + total < U64_LIMIT
    ensures var cut := CutFrom(data, 0, total, max, format, float, stream, sequence, position, time);
      Underway(cut, [], 0, data, total, max, format, float, stream, sequence, position, time)
  {
    hide CutFrom;
    var cut := CutFrom(data, 0, total, max, format, float, stream, sequence, position, time);
    assert [] + cut.packets == cut.packets;
  }

  lemma UnderwayNext(cut: Cut, done: seq<AudioPacket>, p: AudioPacket, base: nat, data: Option<seq<byte>>, total: nat,
                     max: nat, format: InputFormat, float: FloatReader, stream: u64, sequence: u32, position: nat,
                     time: nat -> u64)
    requires 0 < max < U16_LIMIT && base < total && position + (total - base) < U64_LIMIT
    requires Underway(cut, done, base, data, total, max, format, float, stream, sequence, position, time)
    requires var n := Min(total - base, max);
      && ReadRange(data, base, base + n, format, float) == Ok(p.payload)
      && p.header == AudioPacketHeader.New(stream, sequence, n, position, time(base))
    ensures var n := Min(total - base, max);
      Underway(cut, done + [p], base + n, data, total, max, format, float, stream, Wrap(sequence + 1),
               position + n, time)
  {
    hide ReadRange;
    var n := Min(total - base, max);
    var rest := CutFrom(data, base + n, total, max, format, float, stream, Wrap(sequence + 1), position + n,
                        time);
    assert done + ([p] + rest.packets) == done + [p] + rest.packets;
    FrameTotalAppend(done, [p]);
  }

  lemma UnderwayEnds(cut: Cut, done: seq<AudioPacket>, base: nat, data: Option<seq<byte>>, total: nat, max: nat,
                     format: InputFormat, float: FloatReader, stream: u64, sequence: u32, position: nat,
                     time: nat -> u64)
    requires 0 < max < U16_LIMIT && base <= total && position + (total - base) < U64_LIMIT
    requires Underway(cut, done, base, data, total, max, format, float, stream, sequence, position, time)
    ensures base == FrameTotal(done)
    ensures base == total ==> cut == Cut(done, None)
    ensures base < total ==>
      var block := ReadRange(data, base, base + Min(total - base, max), format, float);
      block.Err? ==> cut == Cut(done, Some(block.error))
  {
    hide ReadRange, FrameTotal;
    assert done + [] == done;
  }

  /** Converts the frames of one block; the first frame that cannot be read ends it. */
  method ReadBlock(data: Option<seq<byte>>, base: nat, n: nat, format: InputFormat, float: FloatReader)
    returns (r: Result<seq<i16>, ChunkError>)
    ensures r == ReadRange(data, base, base + n, format, float)
  {
    hide ReadFrame;
    var samples: seq<i16> := [];
    for i := 0 to n
      invariant ReadRange(data, base, base + i, format, float) == Ok(samples)
    {
      var frame := ReadFrame(data, base + i, format, float);
      assert ReadRange(data, base, base + (i + 1), format, float) ==
        if frame.Err? then Err(frame.error) else Ok(samples + [frame.value.left, frame.value.right]);
      if frame.Err? {
        ReadRangeJoins(data, base, base + (i + 1), base + n, format, float);
        return Err(frame.error);
      }
      samples := samples + [frame.value.left, frame.value.right];
    }
    return Ok(samples);
  }

  class Packetizer {
    const streamId: u64
    const maxPacketFrames: nat
    const float: FloatReader
    const packetBytes: ByteVec
    var sequence: u32
    var samplePosition: nat
    ghost var emitted: seq<AudioPacket>
    ghost var samples: seq<i16>

    /** Everything emitted so far is one contiguous stream from position zero, of the samples converted so far. */
    ghost predicate Valid()
      reads this
    {
      && 0 < maxPacketFrames < U16_LIMIT
      && Pieces(emitted, streamId, 0, samplePosition, maxPacketFrames)
      && Packetized(streamId, emitted, samples)
    }

    constructor (streamId: u64, maxPacketFrames: nat, float: FloatReader, packetBytes: ByteVec)
      requires 0 < maxPacketFrames < U16_LIMIT
      ensures Valid() && this.streamId == streamId && this.maxPacketFrames == maxPacketFrames
      ensures this.float == float && this.packetBytes == packetBytes
      ensures sequence == 0 && samplePosition == 0 && emitted == [] && samples == []
    {
      this.streamId, this.maxPacketFrames := streamId, maxPacketFrames;
      this.float, this.packetBytes := float, packetBytes;
      sequence, samplePosition, emitted, samples := 0, 0, [], [];
    }

    /** What the packetizer makes of a chunk it does not refuse outright. */
    ghost function CutOf(data: Option<seq<byte>>, frames: nat, format: InputFormat, time: nat -> u64): Cut
      requires Valid() && samplePosition + frames < U64_LIMIT
      reads this
    {
      CutFrom(data, 0, frames, maxPacketFrames, format, float, streamId, sequence, samplePosition, time)
    }

    /**
      Converts and emits block after block. An error in a block emits nothing of it and keeps what
      was emitted before. The position must stay inside 64 bits: the source adds unchecked.
     */
    method PacketizeCaptureChunk(data: Option<seq<byte>>, frames: u32, format: InputFormat, time: nat -> u64)
      returns (r: Result<nat, ChunkError>, datagrams: seq<seq<byte>>)
      requires Valid() && samplePosition + frames < U64_LIMIT
      modifies this`sequence, this`samplePosition, this`emitted, this`samples, packetBytes
      ensures Valid()
      ensures frames == 0 || format.sampleRate != SAMPLE_RATE || format.channels == 0
              || (data.Some? && format.BytesPerSample() == 0) ==>
        datagrams == [] && emitted == old(emitted) && sequence == old(sequence) && samples == old(samples)
        && r == if frames == 0 then Ok(0)
                else if format.sampleRate != SAMPLE_RATE then Err(UnsupportedRate)
                else if format.channels == 0 then Err(NoChannels)
                else Err(NoSampleBytes)
      ensures frames != 0 && format.sampleRate == SAMPLE_RATE && format.channels != 0
              && (data.Some? ==> format.BytesPerSample() != 0) ==>
        var cut := old(CutOf(data, frames, format, time));
        && emitted == old(emitted) + cut.packets
        && datagrams == SerializeAll(cut.packets)
        && samplePosition == old(samplePosition) + FrameTotal(cut.packets)
        && sequence == Wrap(old(sequence) + |cut.packets|)
        && r == (if cut.stopped.None? then Ok(|cut.packets|) else Err(cut.stopped.value))
        && FrameTotal(cut.packets) <= frames && samples == old(samples) + Payloads(cut.packets)
        && ReadRange(data, 0, FrameTotal(cut.packets), format, float) == Ok(Payloads(cut.packets))
    {
      datagrams := [];
      if frames == 0 {
        return Ok(0), [];
      }
      if format.sampleRate != SAMPLE_RATE {
        return Err(UnsupportedRate), [];
      }
      if format.channels == 0 {
        return Err(NoChannels), [];
      }
      if data.Some? && format.BytesPerSample() == 0 {
        return Err(NoSampleBytes), [];
      }
      r, datagrams := EmitBlocks(data, frames, format, time);
    }

    /** The block loop of a chunk that passed the checks. */
    method EmitBlocks(data: Option<seq<byte>>, frames: u32, format: InputFormat, time: nat -> u64)
      returns (r: Result<nat, ChunkError>, datagrams: seq<seq<byte>>)
      requires Valid() && samplePosition + frames < U64_LIMIT
      modifies this`sequence, this`samplePosition, this`emitted, this`samples, packetBytes
      ensures Valid()
      ensures var cut := old(CutOf(data, frames, format, time));
        && emitted == old(emitted) + cut.packets
        && datagrams == SerializeAll(cut.packets)
        && samplePosition == old(samplePosition) + FrameTotal(cut.packets)
        && sequence == Wrap(old(sequence) + |cut.packets|)
        && r == (if cut.stopped.None? then Ok(|cut.packets|) else Err(cut.stopped.value))
        && FrameTotal(cut.packets) <= frames && samples == old(samples) + Payloads(cut.packets)
        && ReadRange(data, 0, FrameTotal(cut.packets), format, float) == Ok(Payloads(cut.packets))
    {
      hide ReadRange, Pieces, Carried, Packetized, Serialize, Parse, CutFrom, Underway, FrameTotal, SerializeAll;
      hide Payloads;
      ghost var cut := CutOf(data, frames, format, time);
      CutIsFaithful(data, 0, frames, maxPacketFrames, format, float, streamId, sequence, samplePosition, time);
      UnderwayBegins(data, frames, maxPacketFrames, format, float, streamId, sequence, samplePosition, time);
      ghost var done: seq<AudioPacket> := [];
      SerializeNone();
      datagrams := [];
      var base, packets := 0, 0;
      while base < frames
        invariant 0 <= base <= frames && samplePosition == old(samplePosition) + base && packets == |done|
        invariant sequence == Wrap(old(sequence) + |done|) && samples == old(samples)
        invariant emitted == old(emitted) + done && datagrams == SerializeAll(done)
        invariant Underway(cut, done, base, data, frames, maxPacketFrames, format, float, streamId, sequence,
                           samplePosition, time)
        decreases frames - base
      {
        var n := Min(frames - base, maxPacketFrames);
        var payload := ReadBlock(data, base, n, format, float);
        if payload.Err? {
          r := Err(payload.error);
          break;
        }
        ghost var p := EmitPacket(n, payload.value, time(base));
        datagrams := datagrams + [packetBytes.bytes];
        packets := packets + 1;
        UnderwayNext(cut, done, p, base, data, frames, maxPacketFrames, format, float, streamId,
                     Wrap(old(sequence) + |done|), old(samplePosition) + base, time);
        SerializeNext(done, p);
        NextSequence(old(sequence), |done|);
        done := done + [p];
        base := base + n;
      }
      UnderwayEnds(cut, done, base, data, frames, maxPacketFrames, format, float, streamId, sequence, samplePosition,
                   time);
      assert cut.packets == done && samplePosition == old(samplePosition) + FrameTotal(done);
      PiecesAppend(old(emitted), done, streamId, 0, old(samplePosition), samplePosition, maxPacketFrames);
      PiecesCarry(old(emitted), done, streamId, samplePosition, maxPacketFrames, samples);
      CarriedSamples(cut, data, 0, frames, maxPacketFrames, format, float);
      samples := samples + Payloads(done);
      if base == frames {
        r := Ok(packets);
      }
    }

    /** Serialises one packet and moves the counters past it. */
    method EmitPacket(n: nat, payload: seq<i16>, time: u64) returns (ghost p: AudioPacket)
      requires 0 < n < U16_LIMIT && |payload| == 2 * n && samplePosition < U64_LIMIT
      modifies this`sequence, this`samplePosition, this`emitted, packetBytes
      ensures p == AudioPacket(AudioPacketHeader.New(streamId, old(sequence), n, old(samplePosition), time), payload)
      ensures packetBytes.bytes == Serialize(p) && Parse(packetBytes.bytes) == Ok(p)
      ensures emitted == old(emitted) + [p]
      ensures sequence == Wrap(old(sequence) + 1) && samplePosition == old(samplePosition) + n
    {
      hide Serialize, Parse;
      var header := AudioPacketHeader.New(streamId, sequence, n, samplePosition, time);
      var written := WriteI16PacketBytes(packetBytes, header, payload);
      p := AudioPacket(header, payload);
      ParseOfSerialize(p);
      emitted := emitted + [p];
      sequence := Wrap(sequence + 1);
      samplePosition := samplePosition + n;
    }
  }
}
