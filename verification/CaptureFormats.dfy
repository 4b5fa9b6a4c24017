/**
  What the packetizer's conversion means (`w-sender/src/packetizer.rs`): which number a sample's
  bytes are, where the samples of a frame stand, and how the packets of a chunk are numbered.
 */
module CaptureFormats {
  import opened Wrappers
  import opened Numbers
  import opened Audio
  import opened Packet
  import opened Packetizer

  // ----- samples

  /** Two's complement: the unsigned value, less the whole range in its upper half. */
  lemma SignedIsTwosComplement(bytes: seq<byte>)
    requires bytes != []
    ensures var (x, unsigned, range) := (Signed(bytes), LeValue(bytes), Pow256(|bytes|));
      && (x == unsigned || x == unsigned - range)
      && 0 <= 2 * x + range < 2 * range
  {
  }

  /** The little-endian two's complement bytes of an integer. */
  function TwosComplement(x: int, width: nat): (bytes: seq<byte>)
    requires 0 <= 2 * x + Pow256(width) < 2 * Pow256(width)
    ensures |bytes| == width
  {
    LeBytes(if x < 0 then x + Pow256(width) else x, width)
  }

  lemma SignedOfBytes(x: int, width: nat)
    requires 0 <= 2 * x + Pow256(width) < 2 * Pow256(width)
    ensures Signed(TwosComplement(x, width)) == x
  {
    LeValueOfBytes(if x < 0 then x + Pow256(width) else x, width);
  }

  /** Full scale: the lowest integer of a width is read as the one above it, the others in proportion. */
  function Scaled(x: int, largest: int): real
    requires largest > 0
  {
    if x < -largest then -1.0 else x as real / largest as real
  }

  lemma ScaledInRange(x: int, largest: int)
    requires largest > 0 && -largest - 1 <= x <= largest
    ensures -1.0 <= Scaled(x, largest) <= 1.0
    ensures x == -largest - 1 ==> x as real / largest as real < -1.0
  {
    var quotient, d := x as real / largest as real, largest as real;
    assert quotient * d == x as real;
    if quotient > 1.0 {
      MulStrict(1.0, quotient, d);
    }
    if quotient < -1.0 {
      MulStrict(quotient, -1.0, d);
    }
    if x == -largest - 1 && quotient >= -1.0 {
      MulMonotone(-1.0, quotient, d);
    }
  }

  lemma WidthRanges()
    ensures Pow256(2) == 0x1_0000 && Pow256(3) == 0x100_0000 && Pow256(4) == 0x1_0000_0000
  {
    Pow256Values();
    assert Pow256(3) == 256 * Pow256(2);
  }

  /** Every integer of 16, 24 or 32 bits is read from its bytes in proportion to the largest. */
  lemma IntegersAreRead(x: int, float: FloatReader)
    ensures Pow256(2) == 0x1_0000 && Pow256(3) == 0x100_0000 && Pow256(4) == 0x1_0000_0000
    ensures -0x8000 <= x < 0x8000 ==>
      ReadSample(TwosComplement(x, 2), I16, float) == Ok(Scaled(x, 0x7FFF))
    ensures -0x80_0000 <= x < 0x80_0000 ==>
      ReadSample(TwosComplement(x, 3), I24, float) == Ok(Scaled(x, 0x7F_FFFF))
    ensures -0x8000_0000 <= x < 0x8000_0000 ==>
      ReadSample(TwosComplement(x, 4), I32, float) == Ok(Scaled(x, 0x7FFF_FFFF))
  {
    hide Signed, LeBytes, LeValue, Pow256, TwosComplement;
    WidthRanges();
    if -0x8000 <= x < 0x8000 {
      SignedOfBytes(x, 2);
      ScaledInRange(x, 0x7FFF);
      WordIsSigned(TwosComplement(x, 2));
    }
    if -0x80_0000 <= x < 0x80_0000 {
      SignedOfBytes(x, 3);
      ScaledInRange(x, 0x7F_FFFF);
      assert TwosComplement(x, 3)[..3] == TwosComplement(x, 3);
    }
    if -0x8000_0000 <= x < 0x8000_0000 {
      SignedOfBytes(x, 4);
      ScaledInRange(x, 0x7FFF_FFFF);
    }
  }

  lemma WordIsSigned(bytes: seq<byte>)
    requires |bytes| == 2
    ensures SampleFromBytes(bytes) == Signed(bytes)
  {
    hide LeValue;
    WidthRanges();
  }

  /** A float is clamped, and bytes of the wrong number are a panic; a 24-bit sample may be followed by padding. */
  lemma OtherSamples(bytes: seq<byte>, float: FloatReader)
    ensures ReadSample(bytes, F32, float) ==
      if |bytes| != 4 then Err(SampleSizePanic)
      else Ok(if float(bytes) < -1.0 then -1.0 else if float(bytes) > 1.0 then 1.0 else float(bytes))
    ensures |bytes| != 2 ==> ReadSample(bytes, I16, float) == Err(SampleSizePanic)
    ensures |bytes| != 4 ==> ReadSample(bytes, I32, float) == Err(SampleSizePanic)
    ensures |bytes| < 3 ==> ReadSample(bytes, I24, float) == Err(SampleSizePanic)
    ensures |bytes| >= 3 ==> ReadSample(bytes, I24, float) == ReadSample(bytes[..3], I24, float)
  {
    hide Signed;
    if |bytes| >= 3 {
      assert bytes[..3][..3] == bytes[..3];
    }
  }

  // ----- frames

  /**
    A frame's samples stand at its multiple of the block alignment, the left one first and the
    right one a sample further; one channel fills both sides, and without data all is silent.
   */
  lemma FrameLayout(bytes: seq<byte>, frame: nat, format: InputFormat, float: FloatReader)
    ensures var (at, size) := (frame * format.blockAlign, format.bitsPerSample / 8);
      var both := if format.channels == 1 then at + size else at + 2 * size;
      && ReadFrame(None, frame, format, float) == Ok(Wire(0, 0))
      && (at + size > |bytes| ==> ReadFrame(Some(bytes), frame, format, float) == Err(ShortBuffer))
      && (both <= |bytes| ==>
            var left := ReadSample(bytes[at..at + size], format.encoding, float);
            var right := if format.channels == 1 then left
                         else ReadSample(bytes[at + size..at + 2 * size], format.encoding, float);
            ReadFrame(Some(bytes), frame, format, float) ==
              if left.Err? then Err(left.error)
              else if right.Err? then Err(right.error)
              else Ok(Wire(F32ToI16(left.value), F32ToI16(right.value))))
  {
    hide ReadSample, F32ToI16;
    FirstChannel(frame, format);
  }

  lemma FirstChannel(frame: nat, format: InputFormat)
    ensures 0 * format.BytesPerSample() == 0 && 1 * format.BytesPerSample() == format.BytesPerSample()
  {
  }

  /** Stereo in 16-bit samples, four bytes a frame. */
  const STEREO_16 := InputFormat(SAMPLE_RATE, 2, 16, 4, I16)

  /** The `i`-th pair of bytes. */
  function Word(bytes: seq<byte>, i: nat): seq<byte>
    requires 2 * i + 2 <= |bytes|
  {
    bytes[2 * i..2 * i + 2]
  }

  lemma StereoLayout16(bytes: seq<byte>, frame: nat, float: FloatReader)
    requires 4 * frame + 4 <= |bytes|
    ensures var (i, j) := (2 * frame, 2 * frame + 1);
      var (left, right) := (ReadSample(Word(bytes, i), I16, float), ReadSample(Word(bytes, j), I16, float));
      left.Ok? && right.Ok? ==>
        ReadFrame(Some(bytes), frame, STEREO_16, float)
        == Ok(Wire(F32ToI16(left.value), F32ToI16(right.value)))
  {
    hide F32ToI16, ReadSample, ReadFrame;
    FrameLayout(bytes, frame, STEREO_16, float);
    assert frame * STEREO_16.blockAlign == 4 * frame;
  }

  lemma StereoFrame16(samples: seq<i16>, frame: nat, float: FloatReader)
    requires 2 * frame + 2 <= |samples| && samples[2 * frame] != -0x7FFF && samples[2 * frame + 1] != -0x7FFF
    ensures ReadFrame(Some(PayloadToBytes(samples)), frame, STEREO_16, float)
         == Ok(Wire(samples[2 * frame], samples[2 * frame + 1]))
  {
    hide PayloadToBytes, F32ToI16, SampleBytes, ReadSample, ReadFrame, Word;
    StereoLayout16(PayloadToBytes(samples), frame, float);
    SampleInPayload(samples, 2 * frame);
    SampleInPayload(samples, 2 * frame + 1);
    PassesThrough(samples[2 * frame], float);
    PassesThrough(samples[2 * frame + 1], float);
  }

  lemma PassesThrough(sample: i16, float: FloatReader)
    requires sample != -0x7FFF
    ensures var r := ReadSample(SampleBytes(sample), I16, float); r.Ok? && F32ToI16(r.value) == sample
  {
    hide SampleFromBytes, SampleBytes;
    SampleBytesRoundTrip(sample);
    SampleRoundTrip(sample);
  }

  lemma {:induction false} SampleInPayload(samples: seq<i16>, i: nat)
    requires i < |samples|
    ensures Word(PayloadToBytes(samples), i) == SampleBytes(samples[i])
  {
    hide SampleBytes;
    var init := samples[..|samples| - 1];
    if i < |init| {
      SampleInPayload(init, i);
      assert PayloadToBytes(init) <= PayloadToBytes(samples);
    }
  }

  /** A 16-bit stereo capture goes to the wire as it is, sample for sample, but for the lowest level but one. */
  lemma {:induction false} SixteenBitsPassThrough(samples: seq<i16>, n: nat, float: FloatReader)
    requires 2 * n <= |samples| && forall i :: 0 <= i < 2 * n ==> samples[i] != -0x7FFF
    ensures ReadRange(Some(PayloadToBytes(samples)), 0, n, STEREO_16, float) == Ok(samples[..2 * n])
  {
    hide ReadFrame, PayloadToBytes;
    if n > 0 {
      SixteenBitsPassThrough(samples, n - 1, float);
      StereoFrame16(samples, n - 1, float);
      assert samples[..2 * (n - 1)] + [samples[2 * n - 2], samples[2 * n - 1]] == samples[..2 * n];
    }
  }

  // ----- packets

  lemma WrapsOn(sequence: u32, i: nat)
    requires i > 0
    ensures (Wrap(sequence + 1) + (i - 1)) % U32_LIMIT == (sequence + i) % U32_LIMIT
  {
  }

  /** A cut that is not empty is its first packet and the cut of the rest. */
  lemma CutSplits(data: Option<seq<byte>>, base: nat, total: nat, max: nat, format: InputFormat, float: FloatReader,
                  stream: u64, sequence: u32, position: nat, time: nat -> u64)
    requires 0 < max < U16_LIMIT && base <= total && position + (total - base) < U64_LIMIT
    requires CutFrom(data, base, total, max, format, float, stream, sequence, position, time).packets != []
    ensures var packets := CutFrom(data, base, total, max, format, float, stream, sequence, position, time).packets;
      var n := Min(total - base, max);
      && base < total
      && packets[0].header == AudioPacketHeader.New(stream, sequence, n, position, time(base))
      && packets[1..] == CutFrom(data, base + n, total, max, format, float, stream, Wrap(sequence + 1),
                                 position + n, time).packets
  {
    hide ReadRange, Wrap;
  }

  /**
    Packet `i` of a chunk has the sequence number, the position and the send time of its first
    frame, and as many frames as a packet holds, or what is left.
   */
  lemma {:induction false} CutNumbers(data: Option<seq<byte>>, base: nat, total: nat, max: nat, format: InputFormat,
                                      float: FloatReader, stream: u64, sequence: u32, position: nat,
                                      time: nat -> u64, i: nat)
    requires 0 < max < U16_LIMIT && base <= total && position + (total - base) < U64_LIMIT
    requires i < |CutFrom(data, base, total, max, format, float, stream, sequence, position, time).packets|
    ensures var h := CutFrom(data, base, total, max, format, float, stream, sequence, position, time).packets[i].header;
      var first := Offset(i, max);
      && base + first < total
      && h.streamId == stream && h.sequence == (sequence + i) % U32_LIMIT
      && h.samplePosition == position + first && h.frames == Min(max, total - base - first)
      && h.sendTimeNs == time(base + first)
    decreases i
  {
    hide ReadRange, Wrap, CutFrom;
    CutSplits(data, base, total, max, format, float, stream, sequence, position, time);
    if i == 0 {
      assert sequence % U32_LIMIT == sequence;
    } else {
      var n := Min(total - base, max);
      CutNumbers(data, base + n, total, max, format, float, stream, Wrap(sequence + 1), position + n, time, i - 1);
      WrapsOn(sequence, i);
    }
  }
}
