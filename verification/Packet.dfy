/**
  The UDP audio packet and its little-endian wire format (`common/src/packet.rs`).

  `Serialize` and `Parse` give the meaning of the format; the writers that append to a byte
  vector and the readers that advance a cursor are proved against them.
 */
module Packet {
  import opened Wrappers
  import opened Numbers
  import opened Audio

  const MAGIC: seq<byte> := [0x57, 0x32, 0x4D, 0x41]
  const VERSION: u16 := 1
  const HEADER_SIZE: u16 := 52

  datatype AudioPacketHeader = AudioPacketHeader(
    version: u16,
    headerSize: u16,
    streamId: u64,
    sequence: u32,
    flags: u32,
    sampleRate: u32,
    channels: u16,
    sampleFormat: u16,
    frames: u16,
    reserved: u16,
    samplePosition: u64,
    sendTimeNs: u64)
  {
    static function New(streamId: u64, sequence: u32, frames: u16, samplePosition: u64, sendTimeNs: u64)
      : AudioPacketHeader
    {
      AudioPacketHeader(VERSION, HEADER_SIZE, streamId, sequence, 0, SAMPLE_RATE, CHANNELS,
                        SAMPLE_FORMAT_S16LE, frames, 0, samplePosition, sendTimeNs)
    }

    /** The only header fields the parser insists on. */
    predicate Supported() {
      && version == VERSION
      && headerSize == HEADER_SIZE
      && sampleRate == SAMPLE_RATE
      && channels == CHANNELS
      && sampleFormat == SAMPLE_FORMAT_S16LE
    }
  }

  datatype AudioPacket = AudioPacket(header: AudioPacketHeader, payload: seq<i16>) {
    predicate WellFormed() {
      header.Supported() && |payload| == header.frames * header.channels
    }

    /** First position after the packet. */
    function EndPosition(): nat {
      header.samplePosition + header.frames
    }
  }

  datatype PacketError =
    | TooShort(expected: nat, actual: nat)
    | InvalidMagic
    | InvalidVersion(version: u16)
    | InvalidHeaderSize(size: u16)
    | UnsupportedPacketFormat(sampleRate: u32, channels: u16, sampleFormat: u16)
    | PayloadSize(expectedBytes: nat, actualBytes: nat)

  // ----- little-endian integers

  function Pow256(n: nat): nat {
    if n == 0 then 1 else 256 * Pow256(n - 1)
  }

  lemma Pow256Values()
    ensures Pow256(2) == U16_LIMIT && Pow256(4) == U32_LIMIT && Pow256(8) == U64_LIMIT
  {
    assert Pow256(2) == 256 * 256 * Pow256(0);
    assert Pow256(4) == 256 * 256 * Pow256(2);
    assert Pow256(6) == 256 * 256 * Pow256(4);
    assert Pow256(8) == 256 * 256 * Pow256(6);
  }

  function LeBytes(value: nat, width: nat): (bytes: seq<byte>)
    ensures |bytes| == width
  {
    if width == 0 then [] else [value % 256] + LeBytes(value / 256, width - 1)
  }

  function LeValue(bytes: seq<byte>): (value: nat)
    ensures value < Pow256(|bytes|)
  {
    if bytes == [] then 0 else bytes[0] + 256 * LeValue(bytes[1..])
  }

  lemma {:induction false} LeValueOfBytes(value: nat, width: nat)
    requires value < Pow256(width)
    ensures LeValue(LeBytes(value, width)) == value
  {
    if width > 0 {
      LeValueOfBytes(value / 256, width - 1);
      assert LeBytes(value, width)[1..] == LeBytes(value / 256, width - 1);
    }
  }

  lemma {:induction false} LeBytesOfValue(bytes: seq<byte>)
    ensures LeBytes(LeValue(bytes), |bytes|) == bytes
  {
    if bytes != [] {
      LeBytesOfValue(bytes[1..]);
      assert LeValue(bytes) % 256 == bytes[0] && LeValue(bytes) / 256 == LeValue(bytes[1..]);
    }
  }

  function U16At(bytes: seq<byte>, at: nat): u16
    requires at + 2 <= |bytes|
  {
    Pow256Values();
    LeValue(bytes[at..at + 2])
  }

  function U32At(bytes: seq<byte>, at: nat): u32
    requires at + 4 <= |bytes|
  {
    Pow256Values();
    LeValue(bytes[at..at + 4])
  }

  function U64At(bytes: seq<byte>, at: nat): u64
    requires at + 8 <= |bytes|
  {
    Pow256Values();
    LeValue(bytes[at..at + 8])
  }

  // ----- two's complement samples

  function I16ToU16(sample: i16): u16 {
    if sample < 0 then sample + U16_LIMIT else sample
  }

  function U16ToI16(word: u16): i16 {
    if word < 0x8000 then word else word - U16_LIMIT
  }

  /** The two bytes of a sample. */
  function SampleBytes(sample: i16): (bytes: seq<byte>)
    ensures |bytes| == 2
  {
    LeBytes(I16ToU16(sample), 2)
  }

  function SampleFromBytes(bytes: seq<byte>): i16
    requires |bytes| == 2
  {
    Pow256Values();
    U16ToI16(LeValue(bytes))
  }

  lemma SampleBytesRoundTrip(sample: i16)
    ensures SampleFromBytes(SampleBytes(sample)) == sample
  {
    Pow256Values();
    LeValueOfBytes(I16ToU16(sample), 2);
  }

  lemma BytesSampleRoundTrip(bytes: seq<byte>)
    requires |bytes| == 2
    ensures SampleBytes(SampleFromBytes(bytes)) == bytes
  {
    Pow256Values();
    LeBytesOfValue(bytes);
  }

  function PayloadToBytes(payload: seq<i16>): (bytes: seq<byte>)
    ensures |bytes| == 2 * |payload|
  {
    if payload == [] then []
    else PayloadToBytes(payload[..|payload| - 1]) + SampleBytes(payload[|payload| - 1])
  }

  function PayloadFromBytes(bytes: seq<byte>): (payload: seq<i16>)
    requires |bytes| % 2 == 0
    ensures 2 * |payload| == |bytes|
  {
    if bytes == [] then []
    else PayloadFromBytes(bytes[..|bytes| - 2]) + [SampleFromBytes(bytes[|bytes| - 2..])]
  }

  lemma PayloadToBytesNext(payload: seq<i16>, sample: i16)
    ensures PayloadToBytes(payload + [sample]) == PayloadToBytes(payload) + SampleBytes(sample)
  {
    assert (payload + [sample])[..|payload|] == payload;
  }

  lemma PayloadFromBytesNext(bytes: seq<byte>, word: seq<byte>)
    requires |bytes| % 2 == 0 && |word| == 2
    ensures PayloadFromBytes(bytes + word) == PayloadFromBytes(bytes) + [SampleFromBytes(word)]
  {
    assert (bytes + word)[..|bytes|] == bytes;
    assert (bytes + word)[|bytes|..] == word;
  }

  lemma {:induction false} PayloadOfBytes(payload: seq<i16>)
    ensures PayloadFromBytes(PayloadToBytes(payload)) == payload
  {
    if payload != [] {
      var init, last := payload[..|payload| - 1], payload[|payload| - 1];
      assert payload == init + [last];
      PayloadToBytesNext(init, last);
      PayloadFromBytesNext(PayloadToBytes(init), SampleBytes(last));
      PayloadOfBytes(init);
      SampleBytesRoundTrip(last);
    }
  }

  lemma {:induction false} BytesOfPayload(bytes: seq<byte>)
    requires |bytes| % 2 == 0
    ensures PayloadToBytes(PayloadFromBytes(bytes)) == bytes
  {
    if bytes != [] {
      var init, word := bytes[..|bytes| - 2], bytes[|bytes| - 2..];
      assert bytes == init + word;
      PayloadFromBytesNext(init, word);
      PayloadToBytesNext(PayloadFromBytes(init), SampleFromBytes(word));
      BytesOfPayload(init);
      BytesSampleRoundTrip(word);
    }
  }

  // ----- the format

  function HeaderToBytes(h: AudioPacketHeader): (bytes: seq<byte>)
    ensures |bytes| == HEADER_SIZE
  {
    MAGIC
    + LeBytes(h.version, 2) + LeBytes(h.headerSize, 2)
    + LeBytes(h.streamId, 8) + LeBytes(h.sequence, 4) + LeBytes(h.flags, 4)
    + LeBytes(h.sampleRate, 4) + LeBytes(h.channels, 2) + LeBytes(h.sampleFormat, 2)
    + LeBytes(h.frames, 2) + LeBytes(h.reserved, 2)
    + LeBytes(h.samplePosition, 8) + LeBytes(h.sendTimeNs, 8)
  }

  function HeaderFromBytes(bytes: seq<byte>): AudioPacketHeader
    requires |bytes| >= HEADER_SIZE
  {
    AudioPacketHeader(
      U16At(bytes, 4), U16At(bytes, 6), U64At(bytes, 8), U32At(bytes, 16), U32At(bytes, 20),
      U32At(bytes, 24), U16At(bytes, 28), U16At(bytes, 30), U16At(bytes, 32), U16At(bytes, 34),
      U64At(bytes, 36), U64At(bytes, 44))
  }

  function Serialize(packet: AudioPacket): seq<byte> {
    HeaderToBytes(packet.header) + PayloadToBytes(packet.payload)
  }

  function Parse(bytes: seq<byte>): Result<AudioPacket, PacketError> {
    if |bytes| < HEADER_SIZE then Err(TooShort(HEADER_SIZE, |bytes|))
    else if bytes[..4] != MAGIC then Err(InvalidMagic)
    else
      var h := HeaderFromBytes(bytes);
      if h.version != VERSION then Err(InvalidVersion(h.version))
      else if h.headerSize != HEADER_SIZE then Err(InvalidHeaderSize(h.headerSize))
      else if !h.Supported() then Err(UnsupportedPacketFormat(h.sampleRate, h.channels, h.sampleFormat))
      else if |bytes| - HEADER_SIZE != h.frames * h.channels * 2 then
        Err(PayloadSize(h.frames * h.channels * 2, |bytes| - HEADER_SIZE))
      else Ok(AudioPacket(h, PayloadFromBytes(bytes[HEADER_SIZE..])))
  }

  lemma SliceOfPrefix(before: seq<byte>, field: seq<byte>, whole: seq<byte>)
    requires before + field <= whole
    ensures whole[|before|..|before| + |field|] == field
    ensures before <= whole
  {
    assert (before + field)[|before|..] == field;
    assert before <= before + field;
  }

  /** Every header survives the wire, field by field, whatever follows it. */
  lemma HeaderRoundTrip(h: AudioPacketHeader, rest: seq<byte>)
    ensures var bytes := HeaderToBytes(h) + rest;
      bytes[..4] == MAGIC && HeaderFromBytes(bytes) == h
  {
    var bytes := HeaderToBytes(h) + rest;
    Pow256Values();
    var p4 := MAGIC;
    var p6 := p4 + LeBytes(h.version, 2);
    var p8 := p6 + LeBytes(h.headerSize, 2);
    var p16 := p8 + LeBytes(h.streamId, 8);
    var p20 := p16 + LeBytes(h.sequence, 4);
    var p24 := p20 + LeBytes(h.flags, 4);
    var p28 := p24 + LeBytes(h.sampleRate, 4);
    var p30 := p28 + LeBytes(h.channels, 2);
    var p32 := p30 + LeBytes(h.sampleFormat, 2);
    var p34 := p32 + LeBytes(h.frames, 2);
    var p36 := p34 + LeBytes(h.reserved, 2);
    var p44 := p36 + LeBytes(h.samplePosition, 8);
    SliceOfPrefix(p44, LeBytes(h.sendTimeNs, 8), bytes);
    SliceOfPrefix(p36, LeBytes(h.samplePosition, 8), bytes);
    SliceOfPrefix(p34, LeBytes(h.reserved, 2), bytes);
    SliceOfPrefix(p32, LeBytes(h.frames, 2), bytes);
    SliceOfPrefix(p30, LeBytes(h.sampleFormat, 2), bytes);
    SliceOfPrefix(p28, LeBytes(h.channels, 2), bytes);
    SliceOfPrefix(p24, LeBytes(h.sampleRate, 4), bytes);
    SliceOfPrefix(p20, LeBytes(h.flags, 4), bytes);
    SliceOfPrefix(p16, LeBytes(h.sequence, 4), bytes);
    SliceOfPrefix(p8, LeBytes(h.streamId, 8), bytes);
    SliceOfPrefix(p6, LeBytes(h.headerSize, 2), bytes);
    SliceOfPrefix(p4, LeBytes(h.version, 2), bytes);
    LeValueOfBytes(h.version, 2); LeValueOfBytes(h.headerSize, 2); LeValueOfBytes(h.streamId, 8);
    LeValueOfBytes(h.sequence, 4); LeValueOfBytes(h.flags, 4); LeValueOfBytes(h.sampleRate, 4);
    LeValueOfBytes(h.channels, 2); LeValueOfBytes(h.sampleFormat, 2); LeValueOfBytes(h.frames, 2);
    LeValueOfBytes(h.reserved, 2); LeValueOfBytes(h.samplePosition, 8); LeValueOfBytes(h.sendTimeNs, 8);
  }

  /** The bytes of a packet parse back to that packet exactly when it is well formed. */
  lemma ParseOfSerialize(packet: AudioPacket)
    ensures Parse(Serialize(packet)) == Ok(packet) <==> packet.WellFormed()
  {
    var bytes := Serialize(packet);
    HeaderRoundTrip(packet.header, PayloadToBytes(packet.payload));
    assert bytes[HEADER_SIZE..] == PayloadToBytes(packet.payload);
    PayloadOfBytes(packet.payload);
  }

  /** A packet cut short anywhere does not parse. */
  lemma TruncatedIsRefused(packet: AudioPacket, length: nat)
    requires packet.WellFormed() && length < |Serialize(packet)|
    ensures Parse(Serialize(packet)[..length]).Err?
  {
    if length >= HEADER_SIZE {
      var rest := PayloadToBytes(packet.payload)[..length - HEADER_SIZE];
      HeaderRoundTrip(packet.header, rest);
      assert Serialize(packet)[..length] == HeaderToBytes(packet.header) + rest;
    }
  }

  lemma Glue(bytes: seq<byte>, i: nat, j: nat)
    requires i <= j <= |bytes|
    ensures bytes[..i] + LeBytes(LeValue(bytes[i..j]), j - i) == bytes[..j]
  {
    hide LeBytes, LeValue;
    LeBytesOfValue(bytes[i..j]);
    assert bytes[..j] == bytes[..i] + bytes[i..j];
  }

  lemma HeaderBytesRoundTrip(bytes: seq<byte>)
    requires |bytes| >= HEADER_SIZE && bytes[..4] == MAGIC
    ensures HeaderToBytes(HeaderFromBytes(bytes)) == bytes[..HEADER_SIZE]
  {
    Glue(bytes, 4, 6); Glue(bytes, 6, 8); Glue(bytes, 8, 16); Glue(bytes, 16, 20);
    Glue(bytes, 20, 24); Glue(bytes, 24, 28); Glue(bytes, 28, 30); Glue(bytes, 30, 32);
    Glue(bytes, 32, 34); Glue(bytes, 34, 36); Glue(bytes, 36, 44); Glue(bytes, 44, 52);
  }

  /** Parsing is canonical: bytes that parse are the only bytes of the packet they parse to. */
  lemma SerializeOfParse(bytes: seq<byte>)
    ensures Parse(bytes).Ok? ==>
      Parse(bytes).value.WellFormed() && Serialize(Parse(bytes).value) == bytes
  {
    hide HeaderToBytes, HeaderFromBytes, PayloadToBytes, PayloadFromBytes;
    if Parse(bytes).Ok? {
      var header, body := bytes[..HEADER_SIZE], bytes[HEADER_SIZE..];
      assert bytes == header + body;
      HeaderBytesRoundTrip(bytes);
      BytesOfPayload(body);
    }
  }

  // ----- writers that append to a byte vector

  class ByteVec {
    var bytes: seq<byte>

    constructor ()
      ensures bytes == []
    {
      bytes := [];
    }
  }

  method WriteLe(out: ByteVec, value: nat, width: nat)
    modifies out
    ensures out.bytes == old(out.bytes) + LeBytes(value, width)
  {
    out.bytes := out.bytes + LeBytes(value, width);
  }

  /** Writes the next header field; `head` is the part of the header written so far. */
  method WriteField(out: ByteVec, value: nat, width: nat, ghost start: seq<byte>, ghost head: seq<byte>)
    returns (ghost newHead: seq<byte>)
    requires out.bytes == start + head
    modifies out
    ensures newHead == head + LeBytes(value, width)
    ensures out.bytes == start + newHead
  {
    newHead := head + LeBytes(value, width);
    WriteLe(out, value, width);
  }

  method WritePacketHeader(out: ByteVec, h: AudioPacketHeader)
    modifies out
    ensures out.bytes == old(out.bytes) + HeaderToBytes(h)
  {
    ghost var start := out.bytes;
    out.bytes := out.bytes + MAGIC;
    ghost var head := WriteField(out, h.version, 2, start, MAGIC);
    head := WriteField(out, h.headerSize, 2, start, head);
    head := WriteField(out, h.streamId, 8, start, head);
    head := WriteField(out, h.sequence, 4, start, head);
    head := WriteField(out, h.flags, 4, start, head);
    head := WriteField(out, h.sampleRate, 4, start, head);
    head := WriteField(out, h.channels, 2, start, head);
    head := WriteField(out, h.sampleFormat, 2, start, head);
    head := WriteField(out, h.frames, 2, start, head);
    head := WriteField(out, h.reserved, 2, start, head);
    head := WriteField(out, h.samplePosition, 8, start, head);
    head := WriteField(out, h.sendTimeNs, 8, start, head);
  }

  method WriteI16Payload(out: ByteVec, payload: seq<i16>)
    modifies out
    ensures out.bytes == old(out.bytes) + PayloadToBytes(payload)
  {
    var i := 0;
    while i < |payload|
      invariant i <= |payload|
      invariant out.bytes == old(out.bytes) + PayloadToBytes(payload[..i])
    {
      assert payload[..i + 1] == payload[..i] + [payload[i]];
      PayloadToBytesNext(payload[..i], payload[i]);
      WriteLe(out, I16ToU16(payload[i]), 2);
      i := i + 1;
    }
    assert payload[..i] == payload;
  }

  /** Refuses a payload that does not fit the header, and then leaves `out` alone. */
  method WriteI16PacketBytes(out: ByteVec, h: AudioPacketHeader, payload: seq<i16>)
    returns (r: Result<(), PacketError>)
    modifies out
    ensures r.Ok? <==> |payload| == h.frames * h.channels
    ensures r.Ok? ==> out.bytes == Serialize(AudioPacket(h, payload))
    ensures r.Err? ==> out.bytes == old(out.bytes)
    ensures r.Err? ==> r.error == PayloadSize(h.frames * h.channels * 2, |payload| * 2)
  {
    var expectedSamples := h.frames * h.channels;
    if |payload| != expectedSamples {
      return Err(PayloadSize(expectedSamples * 2, |payload| * 2));
    }
    out.bytes := [];
    WritePacketHeader(out, h);
    WriteI16Payload(out, payload);
    return Ok(());
  }

  /** The payload a packet of sampled frames carries. */
  function QuantizedPayload(frames: seq<StereoFrame>): (payload: seq<i16>)
    ensures |payload| == 2 * |frames|
  {
    if frames == [] then []
    else
      var last := frames[|frames| - 1];
      QuantizedPayload(frames[..|frames| - 1]) + [F32ToI16(last.left), F32ToI16(last.right)]
  }

  lemma PayloadOfTwo(done: seq<i16>, l: i16, r: i16)
    ensures PayloadToBytes(done + [l, r])
         == PayloadToBytes(done) + SampleBytes(l) + SampleBytes(r)
  {
    assert done + [l, r] == done + [l] + [r];
    PayloadToBytesNext(done, l);
    PayloadToBytesNext(done + [l], r);
  }

  method WriteStereoF32PacketBytes(out: ByteVec, h: AudioPacketHeader, frames: seq<StereoFrame>)
    modifies out
    ensures out.bytes == Serialize(AudioPacket(h, QuantizedPayload(frames)))
  {
    out.bytes := [];
    WritePacketHeader(out, h);
    var i := 0;
    while i < |frames|
      invariant i <= |frames|
      invariant out.bytes == Serialize(AudioPacket(h, QuantizedPayload(frames[..i])))
    {
      var frame := frames[i];
      ghost var done := QuantizedPayload(frames[..i]);
      ghost var l, r := F32ToI16(frame.left), F32ToI16(frame.right);
      assert frames[..i + 1][..i] == frames[..i];
      assert QuantizedPayload(frames[..i + 1]) == done + [l, r];
      PayloadOfTwo(done, l, r);
      ghost var header, bytes := HeaderToBytes(h), PayloadToBytes(done);
      WriteLe(out, I16ToU16(F32ToI16(frame.left)), 2);
      assert out.bytes == header + (bytes + SampleBytes(l));
      WriteLe(out, I16ToU16(F32ToI16(frame.right)), 2);
      assert out.bytes == header + (bytes + SampleBytes(l) + SampleBytes(r));
      i := i + 1;
    }
    assert frames[..i] == frames;
  }

  // ----- readers that advance a cursor

  method ReadU16(bytes: seq<byte>, cursor: nat) returns (r: Result<u16, PacketError>, next: nat)
    ensures r == if cursor + 2 <= |bytes| then Ok(U16At(bytes, cursor)) else Err(TooShort(cursor + 2, |bytes|))
    ensures next == if r.Ok? then cursor + 2 else cursor
  {
    var end := cursor + 2;
    if |bytes| < end {
      return Err(TooShort(end, |bytes|)), cursor;
    }
    return Ok(U16At(bytes, cursor)), end;
  }

  method ReadU32(bytes: seq<byte>, cursor: nat) returns (r: Result<u32, PacketError>, next: nat)
    ensures r == if cursor + 4 <= |bytes| then Ok(U32At(bytes, cursor)) else Err(TooShort(cursor + 4, |bytes|))
    ensures next == if r.Ok? then cursor + 4 else cursor
  {
    var end := cursor + 4;
    if |bytes| < end {
      return Err(TooShort(end, |bytes|)), cursor;
    }
    return Ok(U32At(bytes, cursor)), end;
  }

  method ReadU64(bytes: seq<byte>, cursor: nat) returns (r: Result<u64, PacketError>, next: nat)
    ensures r == if cursor + 8 <= |bytes| then Ok(U64At(bytes, cursor)) else Err(TooShort(cursor + 8, |bytes|))
    ensures next == if r.Ok? then cursor + 8 else cursor
  {
    var end := cursor + 8;
    if |bytes| < end {
      return Err(TooShort(end, |bytes|)), cursor;
    }
    return Ok(U64At(bytes, cursor)), end;
  }

  /** Reads the fields after the magic; stops at a version or header size it does not know. */
  method ReadHeader(bytes: seq<byte>) returns (r: Result<AudioPacketHeader, PacketError>)
    requires |bytes| >= HEADER_SIZE
    ensures var h := HeaderFromBytes(bytes);
      r == if h.version != VERSION then Err(InvalidVersion(h.version))
           else if h.headerSize != HEADER_SIZE then Err(InvalidHeaderSize(h.headerSize))
           else Ok(h)
  {
    var cursor := 4;
    var version, headerSize, streamId, sequence, flags, sampleRate, channels, sampleFormat, frames,
        reserved, samplePosition, sendTimeNs;
    version, cursor := ReadU16(bytes, cursor);
    if version.value != VERSION {
      return Err(InvalidVersion(version.value));
    }
    headerSize, cursor := ReadU16(bytes, cursor);
    if headerSize.value != HEADER_SIZE {
      return Err(InvalidHeaderSize(headerSize.value));
    }
    streamId, cursor := ReadU64(bytes, cursor);
    sequence, cursor := ReadU32(bytes, cursor);
    flags, cursor := ReadU32(bytes, cursor);
    sampleRate, cursor := ReadU32(bytes, cursor);
    channels, cursor := ReadU16(bytes, cursor);
    sampleFormat, cursor := ReadU16(bytes, cursor);
    frames, cursor := ReadU16(bytes, cursor);
    reserved, cursor := ReadU16(bytes, cursor);
    samplePosition, cursor := ReadU64(bytes, cursor);
    sendTimeNs, cursor := ReadU64(bytes, cursor);
    return Ok(AudioPacketHeader(version.value, headerSize.value, streamId.value, sequence.value,
                                flags.value, sampleRate.value, channels.value, sampleFormat.value,
                                frames.value, reserved.value, samplePosition.value, sendTimeNs.value));
  }

  method ReadPayload(body: seq<byte>) returns (payload: seq<i16>)
    requires |body| % 2 == 0
    ensures payload == PayloadFromBytes(body)
  {
    hide PayloadFromBytes, SampleFromBytes;
    payload := [];
    var chunks := |body| / 2;
    for i := 0 to chunks
      invariant payload == PayloadFromBytes(body[..2 * i])
    {
      var chunk := body[2 * i..2 * i + 2];
      assert body[..2 * (i + 1)] == body[..2 * i] + chunk;
      PayloadFromBytesNext(body[..2 * i], chunk);
      payload := payload + [SampleFromBytes(chunk)];
    }
    assert body[..2 * chunks] == body;
  }

  method FromBytes(bytes: seq<byte>) returns (r: Result<AudioPacket, PacketError>)
    ensures r == Parse(bytes)
  {
    if |bytes| < HEADER_SIZE {
      return Err(TooShort(HEADER_SIZE, |bytes|));
    }
    if bytes[0..4] != MAGIC {
      return Err(InvalidMagic);
    }
    var header := ReadHeader(bytes);
    if header.Err? {
      return Err(header.error);
    }
    var h := header.value;
    if h.sampleRate != SAMPLE_RATE || h.channels != CHANNELS || h.sampleFormat != SAMPLE_FORMAT_S16LE {
      return Err(UnsupportedPacketFormat(h.sampleRate, h.channels, h.sampleFormat));
    }
    var expectedPayloadBytes := h.frames * h.channels * 2;
    var actualPayloadBytes := |bytes| - HEADER_SIZE;
    if actualPayloadBytes != expectedPayloadBytes {
      return Err(PayloadSize(expectedPayloadBytes, actualPayloadBytes));
    }
    var payload := ReadPayload(bytes[HEADER_SIZE..]);
    return Ok(AudioPacket(h, payload));
  }
}
