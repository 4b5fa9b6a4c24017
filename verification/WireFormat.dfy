/**
  The wire format byte by byte (`common/src/packet.rs`): where each field stands, which bytes are
  accepted, and what a sample's two bytes mean.
 */
module WireFormat {
  import opened Wrappers
  import opened Numbers
  import opened Packet

  // ----- words

  function Le16(bytes: seq<byte>, at: nat): nat
    requires at + 2 <= |bytes|
  {
    var low: nat, high: nat := bytes[at], bytes[at + 1];
    low + 0x100 * high
  }

  function Le32(bytes: seq<byte>, at: nat): nat
    requires at + 4 <= |bytes|
  {
    Le16(bytes, at) + 0x1_0000 * Le16(bytes, at + 2)
  }

  function Le64(bytes: seq<byte>, at: nat): nat
    requires at + 8 <= |bytes|
  {
    Le32(bytes, at) + 0x1_0000_0000 * Le32(bytes, at + 4)
  }

  /** A sample: its word, less its whole range where the high byte says it is negative. */
  function SampleAt(bytes: seq<byte>, at: nat): int
    requires at + 2 <= |bytes|
  {
    Le16(bytes, at) - (if bytes[at + 1] < 0x80 then 0 else 0x1_0000)
  }

  lemma TwoBytes(bytes: seq<byte>)
    requires |bytes| >= 2
    ensures LeValue(bytes) == Le16(bytes, 0) + 0x1_0000 * LeValue(bytes[2..])
  {
    assert bytes[1..][1..] == bytes[2..];
  }

  lemma Word16(bytes: seq<byte>, at: nat)
    requires at + 2 <= |bytes|
    ensures LeValue(bytes[at..at + 2]) == U16At(bytes, at) == Le16(bytes, at)
  {
    TwoBytes(bytes[at..at + 2]);
  }

  lemma Word32(bytes: seq<byte>, at: nat)
    requires at + 4 <= |bytes|
    ensures U32At(bytes, at) == Le32(bytes, at)
  {
    var word := bytes[at..at + 4];
    TwoBytes(word);
    TwoBytes(word[2..]);
  }

  lemma Word64(bytes: seq<byte>, at: nat)
    requires at + 8 <= |bytes|
    ensures U64At(bytes, at) == Le64(bytes, at)
  {
    var word := bytes[at..at + 8];
    TwoBytes(word);
    TwoBytes(word[2..]);
    assert word[2..][2..] == word[4..] && word[4..][2..] == word[6..];
    TwoBytes(word[4..]);
    TwoBytes(word[6..]);
  }

  // ----- the header

  /** The header's fields, each at its offset. */
  lemma HeaderLayout(bytes: seq<byte>)
    requires |bytes| >= 52
    ensures var h := HeaderFromBytes(bytes);
      && h.version == Le16(bytes, 4) && h.headerSize == Le16(bytes, 6)
      && h.streamId == Le64(bytes, 8) && h.sequence == Le32(bytes, 16) && h.flags == Le32(bytes, 20)
      && h.sampleRate == Le32(bytes, 24) && h.channels == Le16(bytes, 28) && h.sampleFormat == Le16(bytes, 30)
      && h.frames == Le16(bytes, 32) && h.reserved == Le16(bytes, 34)
      && h.samplePosition == Le64(bytes, 36) && h.sendTimeNs == Le64(bytes, 44)
  {
    hide Le16, Le32, Le64, LeValue, U16At, U32At, U64At;
    Word16(bytes, 4); Word16(bytes, 6); Word64(bytes, 8); Word32(bytes, 16); Word32(bytes, 20);
    Word32(bytes, 24); Word16(bytes, 28); Word16(bytes, 30); Word16(bytes, 32); Word16(bytes, 34);
    Word64(bytes, 36); Word64(bytes, 44);
  }

  // ----- the payload

  lemma SampleLayout(bytes: seq<byte>, at: nat)
    requires at + 2 <= |bytes|
    ensures SampleFromBytes(bytes[at..at + 2]) == SampleAt(bytes, at)
  {
    hide LeValue, U16At;
    Word16(bytes, at);
  }

  lemma SameSample(bytes: seq<byte>, init: seq<byte>, at: nat)
    requires init <= bytes && at + 2 <= |init|
    ensures SampleAt(bytes, at) == SampleAt(init, at)
  {
  }

  lemma {:induction false} PayloadLayout(bytes: seq<byte>, i: nat)
    requires |bytes| % 2 == 0 && 2 * i < |bytes|
    ensures PayloadFromBytes(bytes)[i] == SampleAt(bytes, 2 * i)
  {
    hide SampleFromBytes, Le16;
    var init := bytes[..|bytes| - 2];
    if 2 * i < |init| {
      PayloadLayout(init, i);
      SameSample(bytes, init, 2 * i);
    } else {
      SampleLayout(bytes, 2 * i);
      assert bytes[|bytes| - 2..] == bytes[2 * i..2 * i + 2];
    }
  }

  // ----- what is accepted

  /** Stereo at 48000 Hz in 16-bit samples, of the first version, whose length says as many frames as its header. */
  predicate Acceptable(bytes: seq<byte>) {
    && |bytes| >= 52
    && bytes[0] == 0x57 && bytes[1] == 0x32 && bytes[2] == 0x4D && bytes[3] == 0x41
    && Le16(bytes, 4) == 1 && Le16(bytes, 6) == 52
    && Le32(bytes, 24) == 48_000 && Le16(bytes, 28) == 2 && Le16(bytes, 30) == 1
    && |bytes| == 52 + 4 * Le16(bytes, 32)
  }

  /** The samples stand one after the other from a place on. */
  ghost predicate SamplesAt(bytes: seq<byte>, from: nat, samples: seq<i16>) {
    from + 2 * |samples| <= |bytes| && forall i :: 0 <= i < |samples| ==> samples[i] == SampleAt(bytes, from + 2 * i)
  }

  lemma PayloadBytes(h: AudioPacketHeader)
    ensures h.channels == 2 ==> h.frames * h.channels * 2 == 4 * h.frames
  {
  }

  lemma ParsedIff(bytes: seq<byte>)
    ensures Parse(bytes).Ok? <==>
      && |bytes| >= 52 && bytes[..4] == [0x57, 0x32, 0x4D, 0x41]
      && var h := HeaderFromBytes(bytes);
         && h.version == 1 && h.headerSize == 52 && h.sampleRate == 48_000 && h.channels == 2 && h.sampleFormat == 1
         && |bytes| == 52 + 4 * h.frames
    ensures Parse(bytes).Ok? ==>
      Parse(bytes).value == AudioPacket(HeaderFromBytes(bytes), PayloadFromBytes(bytes[HEADER_SIZE..]))
  {
    hide HeaderFromBytes, PayloadFromBytes;
    if |bytes| >= 52 {
      PayloadBytes(HeaderFromBytes(bytes));
    }
  }

  /** Exactly these bytes are accepted, and their samples are the payload, two bytes each. */
  lemma AcceptedIff(bytes: seq<byte>)
    ensures Parse(bytes).Ok? <==> Acceptable(bytes)
    ensures Acceptable(bytes) ==>
      var payload := Parse(bytes).value.payload;
      && Parse(bytes).value.header == HeaderFromBytes(bytes)
      && |payload| == 2 * Le16(bytes, 32)
      && SamplesAt(bytes, 52, payload)
  {
    hide HeaderFromBytes, PayloadFromBytes, Le16, Le32, Le64, SamplesAt, Parse;
    ParsedIff(bytes);
    if |bytes| >= 52 {
      HeaderLayout(bytes);
      assert bytes[..4] == [bytes[0], bytes[1], bytes[2], bytes[3]];
      if Acceptable(bytes) {
        WholeSamples(|bytes|, Le16(bytes, 32));
        SamplesAfterHeader(bytes);
      }
    }
  }

  lemma WholeSamples(length: nat, frames: nat)
    requires length == 52 + 4 * frames
    ensures length % 2 == 0
  {
    assert length == 2 * (26 + 2 * frames);
  }

  lemma SamplesAfterHeader(bytes: seq<byte>)
    requires |bytes| >= 52 && |bytes| % 2 == 0
    ensures SamplesAt(bytes, 52, PayloadFromBytes(bytes[HEADER_SIZE..]))
  {
    var payload := PayloadFromBytes(bytes[52..]);
    forall i | 0 <= i < |payload|
      ensures payload[i] == SampleAt(bytes, 52 + 2 * i)
    {
      PayloadLayout(bytes[52..], i);
    }
  }

  /** The first thing wrong is what is reported. */
  lemma RefusedFor(bytes: seq<byte>)
    ensures |bytes| < 52 ==> Parse(bytes) == Err(TooShort(52, |bytes|))
    ensures |bytes| >= 52 && (bytes[0] != 0x57 || bytes[1] != 0x32 || bytes[2] != 0x4D || bytes[3] != 0x41) ==>
      Parse(bytes) == Err(InvalidMagic)
    ensures |bytes| >= 52 && bytes[..4] == [0x57, 0x32, 0x4D, 0x41] ==>
      var (version, size, rate) := (Le16(bytes, 4), Le16(bytes, 6), Le32(bytes, 24));
      var (channels, format, frames) := (Le16(bytes, 28), Le16(bytes, 30), Le16(bytes, 32));
      && (version != 1 ==> Parse(bytes) == Err(InvalidVersion(version)))
      && (version == 1 && size != 52 ==> Parse(bytes) == Err(InvalidHeaderSize(size)))
      && (version == 1 && size == 52 && (rate != 48_000 || channels != 2 || format != 1) ==>
            Parse(bytes) == Err(UnsupportedPacketFormat(rate, channels, format)))
      && (version == 1 && size == 52 && rate == 48_000 && channels == 2 && format == 1
          && |bytes| != 52 + 4 * frames ==>
            Parse(bytes) == Err(PayloadSize(4 * frames, |bytes| - 52)))
  {
    hide HeaderFromBytes, PayloadFromBytes, Le16, Le32, Le64;
    if |bytes| >= 52 {
      HeaderLayout(bytes);
      PayloadBytes(HeaderFromBytes(bytes));
      assert bytes[..4] == [bytes[0], bytes[1], bytes[2], bytes[3]];
    }
  }
}
