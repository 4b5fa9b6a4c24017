/**
  The jitter buffer as the source has it: an object updated in place, filling a caller's
  interleaved output slice (`common/src/jitter.rs`). Every method is proved to compute the
  corresponding function of `JitterSpec` on the object's `View`.
 */
module JitterBuffer {
  import opened Wrappers
  import opened Numbers
  import opened Audio
  import opened Packet
  import opened PacketStore
  import opened JitterSpec

  /** `write_frame` and `write_silence_frame`: left, right, then zeros. */
  function FrameSamples(slot: Slot, channels: nat): (samples: seq<real>)
    ensures |samples| == channels
  {
    seq(channels, i =>
      if slot.None? then 0.0
      else if i == 0 then slot.value.left
      else if i == 1 then slot.value.right
      else 0.0)
  }

  function Interleave(slots: seq<Slot>, channels: nat): (samples: seq<real>)
    ensures |samples| == Offset(|slots|, channels)
  {
    if slots == [] then []
    else
      var n := |slots| - 1;
      Interleave(slots[..n], channels) + FrameSamples(slots[n], channels)
  }

  function Zeros(n: nat): (samples: seq<real>)
    ensures |samples| == n
  {
    seq(n, _ => 0.0)
  }

  /** What a pull writes to a slice. */
  ghost predicate Filled(rendering: Rendering, channels: nat, output: seq<real>) {
    match rendering
    case Silent => output == Zeros(|output|)
    case Rendered(slots) =>
      var samples := Interleave(slots, channels);
      |samples| <= |output| && output == samples + Zeros(|output| - |samples|)
  }

  /** The sample a slot puts on a channel: the frame's left and right on the first two, nothing on the others. */
  predicate Puts(slot: Slot, channel: nat, sample: real) {
    && (slot.None? ==> sample == 0.0)
    && (slot.Some? && channel == 0 ==> sample == slot.value.left)
    && (slot.Some? && channel == 1 ==> sample == slot.value.right)
    && (channel >= 2 ==> sample == 0.0)
  }

  /** A slot's samples from `base` on, one for each channel. */
  ghost predicate SlotHeld(output: seq<real>, base: nat, channels: nat, slot: Slot) {
    base + channels <= |output| && forall j :: base <= j < base + channels ==> Puts(slot, j - base, output[j])
  }

  /** A slice that holds each slot's samples, one slot after the other, and zeros behind. */
  ghost predicate Holds(output: seq<real>, channels: nat, slots: seq<Slot>) {
    && Offset(|slots|, channels) <= |output|
    && (forall k :: 0 <= k < |slots| ==> SlotHeld(output, Offset(k, channels), channels, slots[k]))
    && (forall j :: Offset(|slots|, channels) <= j < |output| ==> output[j] == 0.0)
  }

  lemma {:induction false} InterleavedAt(slots: seq<Slot>, channels: nat, k: nat)
    requires k < |slots|
    ensures SlotHeld(Interleave(slots, channels), Offset(k, channels), channels, slots[k])
  {
    var n := |slots| - 1;
    if k < n {
      OffsetMonotone(k + 1, n, channels);
      InterleavedAt(slots[..n], channels, k);
    }
  }

  /** What a rendering pull writes, said of the samples themselves. */
  lemma FilledHolds(slots: seq<Slot>, channels: nat, output: seq<real>)
    requires Filled(Rendered(slots), channels, output)
    ensures Holds(output, channels, slots)
  {
    hide Interleave, Puts;
    var samples := Interleave(slots, channels);
    forall k | 0 <= k < |slots|
      ensures SlotHeld(output, Offset(k, channels), channels, slots[k])
    {
      InterleavedAt(slots, channels, k);
      assert samples == output[..|samples|];
    }
  }

  method FillZeros(output: array<real>, from: nat)
    requires from <= output.Length
    modifies output
    ensures output[..from] == old(output[..from])
    ensures output[from..] == Zeros(output.Length - from)
  {
    var i := from;
    while i < output.Length
      invariant from <= i <= output.Length
      invariant output[..from] == old(output[..from])
      invariant forall j :: from <= j < i ==> output[j] == 0.0
    {
      output[i] := 0.0;
      i := i + 1;
    }
  }

  /** Writes one frame at `base`, as `write_frame` or `write_silence_frame` does. */
  method WriteSlot(output: array<real>, base: nat, channels: nat, slot: Slot)
    requires base + channels <= output.Length
    modifies output
    ensures output[..base] == old(output[..base])
    ensures output[..base + channels] == old(output[..base]) + FrameSamples(slot, channels)
    ensures output[base + channels..] == old(output[base + channels..])
  {
    var i := 0;
    while i < channels
      invariant i <= channels
      invariant forall j :: 0 <= j < base ==> output[j] == old(output[j])
      invariant forall j :: base + channels <= j < output.Length ==> output[j] == old(output[j])
      invariant forall j :: 0 <= j < i ==> output[base + j] == FrameSamples(slot, channels)[j]
    {
      output[base + i] :=
        if slot.None? then 0.0
        else if i == 0 then slot.value.left
        else if i == 1 then slot.value.right
        else 0.0;
      i := i + 1;
    }
    assert forall j :: base <= j < base + channels ==> output[j] == output[base + (j - base)];
  }

  lemma InterleaveNext(slots: seq<Slot>, slot: Slot, channels: nat)
    ensures Interleave(slots + [slot], channels) == Interleave(slots, channels) + FrameSamples(slot, channels)
  {
    assert (slots + [slot])[..|slots|] == slots;
  }

  /** The part of `output` before the next frame holds the slots emitted so far. */
  ghost predicate Painted(output: array<real>, channels: nat, slots: seq<Slot>)
    reads output
  {
    Offset(|slots|, channels) <= output.Length && output[..Offset(|slots|, channels)] == Interleave(slots, channels)
  }

  /** Writes the next whole frame of a slice that has room for `n`, counts it if it is silent, and moves on. */
  method EmitFrame(output: array<real>, n: nat, channels: nat, u: Cursor, slot: Slot, advance: real,
                   newCache: Option<nat>)
    returns (u': Cursor)
    requires |u.slots| < n && Offset(n, channels) <= output.Length
    requires Painted(output, channels, u.slots)
    modifies output
    ensures u' == u.Emit(slot, advance, newCache)
    ensures Painted(output, channels, u'.slots)
    ensures output[Offset(n, channels)..] == old(output[Offset(n, channels)..])
  {
    hide Interleave, FrameSamples;
    var i := |u.slots|;
    OffsetMonotone(i + 1, n, channels);
    InterleaveNext(u.slots, slot, channels);
    var base := Offset(i, channels);
    ghost var tail := output[base + channels..];
    WriteSlot(output, base, channels, slot);
    assert output[Offset(n, channels)..] == tail[Offset(n, channels) - base - channels..];
    u' := u.(slots := u.slots + [slot], readPos := u.readPos + advance, cache := newCache);
    if slot.Some? {
      u' := u'.(missing := 0);
    } else {
      u' := u'.(missingInCall := u'.missingInCall + 1, missing := u'.missing + 1);
    }
  }

  /** One lookup through the cache; the cache is replaced when the search finds a packet. */
  method SampleAtCached(packets: Store, channels: nat, pos: nat, cache: Option<nat>)
    returns (slot: Slot, newCache: Option<nat>)
    requires ValidCache(packets, cache)
    ensures (slot, newCache) == Sampled(packets, channels, pos, cache)
  {
    if cache.Some? {
      var start := cache.value;
      if start <= pos < start + packets[start].frameCount {
        return SampleFromPacket(start, packets[start], channels, pos), cache;
      }
    }
    var floor := FloorKey(packets, pos);
    if floor.None? || pos >= floor.value + packets[floor.value].frameCount {
      return None, cache;
    }
    return SampleFromPacket(floor.value, packets[floor.value], channels, pos), floor;
  }

  /** Both neighbours of a fractional position, looked up one after the other and blended. */
  method InterpolateAt(packets: Store, channels: nat, pos: real, cache: Option<nat>)
    returns (slot: Slot, newCache: Option<nat>)
    requires ValidCache(packets, cache)
    ensures (slot, newCache) == Interpolated(packets, channels, pos, cache)
  {
    var pos0: nat := Max(pos.Floor, 0);
    var frac := pos - pos0 as real;
    var a, cache1 := SampleAtCached(packets, channels, pos0, cache);
    var b, cache2 := SampleAtCached(packets, channels, pos0 + 1, cache1);
    newCache := cache2;
    match (a, b)
    case (Some(fa), Some(fb)) => slot := Some(Lerp(fa, fb, frac));
    case (Some(fa), None) => slot := Some(fa);
    case (None, _) => slot := None;
  }

  /** The integer path of the render loop. */
  method RenderIntegerPath(packets: Store, output: array<real>, n: nat, channels: nat, first: nat, start: Cursor)
    returns (u: Cursor)
    requires start.slots == [] && start.cache == None && Offset(n, channels) <= output.Length
    modifies output
    ensures u == RenderInteger(packets, channels, first, n, start)
    ensures |u.slots| == n && Painted(output, channels, u.slots)
    ensures output[Offset(n, channels)..] == old(output[Offset(n, channels)..])
  {
    u := start;
    var position := first;
    for i := 0 to n
      invariant u == RenderInteger(packets, channels, first, i, start)
      invariant |u.slots| == i && position == first + |u.slots|
      invariant Painted(output, channels, u.slots)
      invariant output[Offset(n, channels)..] == old(output[Offset(n, channels)..])
    {
      var slot, newCache := SampleAtCached(packets, channels, position, u.cache);
      assert u.Emit(slot, 1.0, newCache) == IntegerStep(packets, channels, first, u);
      u := EmitFrame(output, n, channels, u, slot, 1.0, newCache);
      position := position + 1;
    }
  }

  /** The interpolating path of the render loop. */
  method RenderInterpolatingPath(packets: Store, output: array<real>, n: nat, channels: nat, ratio: real,
                                 start: Cursor)
    returns (u: Cursor)
    requires start.slots == [] && start.cache == None && Offset(n, channels) <= output.Length
    modifies output
    ensures u == RenderInterpolating(packets, channels, ratio, n, start)
    ensures |u.slots| == n && Painted(output, channels, u.slots)
    ensures output[Offset(n, channels)..] == old(output[Offset(n, channels)..])
  {
    u := start;
    for i := 0 to n
      invariant u == RenderInterpolating(packets, channels, ratio, i, start)
      invariant |u.slots| == i
      invariant Painted(output, channels, u.slots)
      invariant output[Offset(n, channels)..] == old(output[Offset(n, channels)..])
    {
      var slot, newCache := InterpolateAt(packets, channels, u.readPos, u.cache);
      assert u.Emit(slot, ratio, newCache) == InterpolatingStep(packets, channels, ratio, u);
      u := EmitFrame(output, n, channels, u, slot, ratio, newCache);
    }
  }

  /** `keys().next()` on the sorted map. */
  method FirstKey(packets: Store) returns (first: nat)
    requires packets != map[]
    ensures IsMinKey(packets, first)
  {
    MinKeyExists(packets);
    first :| first in packets && forall j :: j in packets ==> first <= j;
  }

  /** Removes played packets from the front of the map, stopping at the first that is not. */
  method WithoutPlayedFront(packets: Store, readFrame: nat) returns (rest: Store)
    ensures rest == Prune(packets, readFrame)
  {
    rest := packets;
    while rest != map[]
      invariant PlayedFrontRemoved(packets, rest, readFrame)
      decreases |rest|
    {
      var oldest := FirstKey(rest);
      if End(rest, oldest) + 1 >= readFrame {
        break;
      }
      RemoveSize(rest, oldest);
      RemovePlayedFront(packets, rest, readFrame, oldest);
      rest := rest - {oldest};
    }
    PlayedFrontDone(packets, rest, readFrame);
  }

  class JitterBuffer {
    const config: Config
    var state: Phase
    var streamId: Option<u64>
    var packets: Store
    var readPos: real
    var latestReceivedEnd: nat
    var expectedSequence: Option<u32>
    var firstDrift: Option<Anchor>
    var lastStreamArrival: Option<real>
    var clockSyncAnchor: Option<Anchor>
    var consecutiveMissingFrames: nat
    var metrics: Metrics
    ghost var ledger: Ledger

    ghost function View(): State
      reads this
    {
      State(state, streamId, packets, readPos, latestReceivedEnd, expectedSequence, firstDrift,
            lastStreamArrival, clockSyncAnchor, consecutiveMissingFrames, metrics, ledger)
    }

    constructor (config: Config)
      requires config.Valid()
      ensures this.config == config && View() == INITIAL
    {
      this.config := config;
      state := NotStarted;
      streamId := None;
      packets := map[];
      readPos := 0.0;
      latestReceivedEnd := 0;
      expectedSequence := None;
      firstDrift := None;
      lastStreamArrival := None;
      clockSyncAnchor := None;
      consecutiveMissingFrames := 0;
      metrics := NO_METRICS;
      ledger := Ledger(0, 0, 0, map[]);
    }

    // ----- insert

    /** `None` where the addition overflows: a build with overflow checks panics there. */
    method InsertPacket(packet: AudioPacket, arrival: real) returns (r: Option<Outcome>)
      requires config.Valid()
      modifies this
      ensures r.None? <==> Overflows(config, old(View()), packet, arrival)
      ensures r.Some? ==> (View(), r.value) == Insert(config, old(View()), packet, arrival)
      ensures r.None? ==>
        var received := old(View()).CountPackets(old(View()).metrics.counts.(
          received := old(View()).metrics.counts.received + 1));
        View() == CountSequence(AdoptStream(received, packet), packet.header.sequence)
    {
      hide AdoptStream, CountSequence, Accept;
      metrics := metrics.(counts := metrics.counts.(received := metrics.counts.received + 1));
      if packet.header.sampleRate != config.sampleRate || packet.header.channels != config.channels {
        metrics := metrics.(counts := metrics.counts.(invalid := metrics.counts.invalid + 1));
        return Some(Outcome.Late);
      }
      var outcome := Accepted;
      if streamId.Some? && streamId.value != packet.header.streamId {
        if CurrentStreamIsActive(arrival) {
          metrics := metrics.(counts := metrics.counts.(foreign := metrics.counts.foreign + 1));
          return Some(ForeignStream);
        }
        outcome := Resynced;
      }
      SwitchStream(packet);
      UpdateSequenceMetrics(packet.header.sequence);

      var start := packet.header.samplePosition;
      var end := start + packet.header.frames;
      if end > U64_MAX {
        return None;
      }
      if state == Running && end <= Max(readPos.Floor, 0) {
        metrics := metrics.(counts := metrics.counts.(late := metrics.counts.late + 1));
        return Some(Outcome.Late);
      }
      if start in packets {
        metrics := metrics.(counts := metrics.counts.(duplicate := metrics.counts.duplicate + 1));
        return Some(Outcome.Duplicate);
      }
      AcceptPacket(packet, arrival);
      return Some(outcome);
    }

    /** Resyncs when the stream changes and adopts the packet's stream when none is followed. */
    method SwitchStream(packet: AudioPacket)
      modifies this
      ensures View() == AdoptStream(old(View()), packet)
    {
      if streamId.Some? && streamId.value != packet.header.streamId {
        ClearForResync(StreamChange);
      }
      if streamId != Some(packet.header.streamId) {
        streamId := Some(packet.header.streamId);
        readPos := packet.header.samplePosition as real;
        state := Priming;
      }
    }

    /** The tail of an insert, once the packet has passed every check. */
    method AcceptPacket(packet: AudioPacket, arrival: real)
      requires config.Valid()
      modifies this
      ensures View() == Accept(config, old(View()), packet, arrival)
    {
      var start := packet.header.samplePosition;
      var end := start + packet.header.frames;
      var frames := PacketFrames(packet.payload, packet.header.frames);
      packets := packets[start := frames];
      ledger := ledger.(live := ledger.live[start := frames]);
      latestReceivedEnd := Max(latestReceivedEnd, end);
      metrics := metrics.(counts := metrics.counts.(accepted := metrics.counts.accepted + 1));
      lastStreamArrival := Some(arrival);
      ghost var stored := View();
      assert stored == Stored(old(View()), packet, arrival);
      UpdateDriftEstimate(start, arrival);
      UpdateClockSyncAnchor(start, arrival);
      assert View() == UpdateClockAnchor(UpdateDrift(config, stored, start, arrival), start, arrival);
      DropOverCapacityInPlace();
    }

    method RecordInvalidPacket()
      modifies this
      ensures View() == RecordInvalid(old(View()))
    {
      metrics := metrics.(counts := metrics.counts.(
        received := metrics.counts.received + 1, invalid := metrics.counts.invalid + 1));
    }

    predicate CurrentStreamIsActive(arrival: real)
      reads this
    {
      lastStreamArrival.Some? && lastStreamArrival.value <= arrival
      && arrival - lastStreamArrival.value < STREAM_SWITCH_TIMEOUT
    }

    method ClearForResync(reason: ResyncReason)
      modifies this
      ensures View() == Clear(old(View()), reason)
    {
      ledger := ledger.(cleared := ledger.cleared + |packets|, live := map[]);
      packets := map[];
      latestReceivedEnd := 0;
      expectedSequence := None;
      firstDrift := None;
      lastStreamArrival := None;
      clockSyncAnchor := None;
      consecutiveMissingFrames := 0;
      state := Resync;
      CountResync(reason);
    }

    method CountResync(reason: ResyncReason)
      modifies this`metrics
      ensures metrics == old(metrics).(resyncs := old(metrics).resyncs.Count(reason))
    {
      var resyncs := metrics.resyncs.(total := metrics.resyncs.total + 1);
      match reason {
        case StreamChange => resyncs := resyncs.(byStreamChange := resyncs.byStreamChange + 1);
        case Underrun => resyncs := resyncs.(byUnderrun := resyncs.byUnderrun + 1);
      }
      metrics := metrics.(resyncs := resyncs);
    }

    method UpdateSequenceMetrics(sequence: u32)
      modifies this`metrics, this`expectedSequence
      ensures View() == CountSequence(old(View()), sequence)
    {
      if expectedSequence.Some? {
        var forward := WrappingSub(sequence, expectedSequence.value);
        if forward == 0 {
        } else if forward < U32_MAX / 2 {
          metrics := metrics.(counts := metrics.counts.(lost := metrics.counts.lost + forward));
        } else {
          metrics := metrics.(counts := metrics.counts.(outOfOrder := metrics.counts.outOfOrder + 1));
        }
      }
      expectedSequence := Some(Successor(sequence));
    }

    method UpdateDriftEstimate(position: nat, arrival: real)
      requires config.Valid()
      modifies this`metrics, this`firstDrift
      ensures View() == UpdateDrift(config, old(View()), position, arrival)
    {
      if firstDrift.Some? {
        var first := firstDrift.value;
        var elapsedFrames := SatSub(position, first.samplePosition);
        var elapsed := if arrival >= first.arrival then arrival - first.arrival else 0.0;
        if elapsed >= 1.0 {
          var rate := elapsedFrames as real / elapsed;
          metrics := metrics.(driftPpm := (rate / config.sampleRate as real - 1.0) * 1000000.0);
        }
      } else {
        firstDrift := Some(Anchor(position, arrival));
      }
    }

    method UpdateClockSyncAnchor(position: nat, arrival: real)
      modifies this`clockSyncAnchor
      ensures View() == UpdateClockAnchor(old(View()), position, arrival)
    {
      if clockSyncAnchor.None? {
        clockSyncAnchor := Some(Anchor(position, arrival));
      }
    }

    method DropOverCapacityInPlace()
      modifies this`packets, this`metrics, this`ledger
      ensures View() == DropOverCapacity(config, old(View()))
    {
      ghost var all := packets;
      DropOldestWhileOver(config.CapacityFrames());
      ledger := ledger.(
        evicted := ledger.evicted + |all| - |packets|,
        live := Evict(ledger.live, latestReceivedEnd, config.CapacityFrames()));
    }

    /** Removes the oldest packet again and again until the span fits the capacity. */
    method DropOldestWhileOver(capacityFrames: nat)
      modifies this`packets, this`metrics
      ensures packets == Evict(old(packets), latestReceivedEnd, capacityFrames)
      ensures |packets| <= |old(packets)|
      ensures metrics == old(metrics).(counts := old(metrics).counts.(
        late := old(metrics).counts.late + |old(packets)| - |packets|))
    {
      ghost var all := packets;
      var oldest := OldestPosition();
      while SatSub(latestReceivedEnd, oldest) > capacityFrames
        invariant if packets == map[] then oldest == latestReceivedEnd else IsMinKey(packets, oldest)
        invariant StaleRemoved(all, packets, latestReceivedEnd, capacityFrames)
        invariant |packets| <= |all|
        invariant metrics == old(metrics).(counts := old(metrics).counts.(
          late := old(metrics).counts.late + |all| - |packets|))
        decreases |packets|
      {
        if packets == map[] {
          break;
        }
        RemoveSize(packets, oldest);
        RemoveStale(all, packets, latestReceivedEnd, capacityFrames, oldest);
        packets := packets - {oldest};
        metrics := metrics.(counts := metrics.counts.(late := metrics.counts.late + 1));
        oldest := OldestPosition();
      }
      StaleDone(all, packets, latestReceivedEnd, capacityFrames);
    }

    method OldestPosition() returns (oldest: nat)
      ensures if packets == map[] then oldest == latestReceivedEnd else IsMinKey(packets, oldest)
    {
      if packets == map[] {
        return latestReceivedEnd;
      }
      oldest := FirstKey(packets);
    }

    method PrunePlayedPackets()
      modifies this`packets, this`ledger
      ensures View() == PrunePlayed(old(View()))
    {
      ghost var all := packets;
      packets := WithoutPlayedFront(packets, ReadFrame(readPos));
      PruneShrinks(all, ReadFrame(readPos));
      ledger := ledger.(pruned := ledger.pruned + |all| - |packets|);
    }

    // ----- trims and the depth control

    function BufferLevelFrames(): (level: nat)
      reads this
      ensures level == Level(View())
    {
      SatSub(latestReceivedEnd, ReadFrame(readPos))
    }

    /** The source subtracts unchecked; callers owe `depth <= latestReceivedEnd`. */
    method TrimToBufferDepth(depth: nat)
      requires depth <= latestReceivedEnd
      modifies this`readPos, this`consecutiveMissingFrames
      ensures View() == TrimTo(old(View()), depth)
    {
      var target := latestReceivedEnd - depth;
      if target as real > readPos {
        readPos := target as real;
        consecutiveMissingFrames := 0;
      }
    }

    method TrimToPlayoutBufferBudget(playoutBuffered: u64)
      modifies this`readPos, this`consecutiveMissingFrames
      ensures View() == TrimToBudget(config, old(View()), playoutBuffered)
    {
      if streamId.None? || state == NotStarted {
        return;
      }
      var desired := SatSub(config.fixedDelayFrames, playoutBuffered);
      var current := BufferLevelFrames();
      if current > SatAdd(desired, config.HardTrimTolerance()) {
        TrimToBufferDepth(desired);
      }
    }

    method SyncReadPosToPlayoutClock(time: real, playoutBuffered: nat, need: nat)
      modifies this`readPos, this`consecutiveMissingFrames
      ensures View() == SyncToClock(config, old(View()), time, playoutBuffered, need)
    {
      if clockSyncAnchor.None? || time < clockSyncAnchor.value.arrival {
        return;
      }
      var anchor := clockSyncAnchor.value;
      var delay := SatAdd(SatSub(config.fixedDelayFrames, playoutBuffered), need);
      var target := SenderPosition(anchor, time, config.sampleRate, metrics.driftPpm) - delay as real;
      if target <= readPos {
        return;
      }
      var latestSafe := SatSub(latestReceivedEnd, 2) as real;
      target := if target < latestSafe then target else latestSafe;
      target := if target < 0.0 then 0.0 else target;
      if target > readPos {
        readPos := target;
        consecutiveMissingFrames := 0;
      }
    }

    method PrepareFixedBuffer(required: nat, minimum: nat) returns (ppm: Option<real>)
      modifies this`readPos, this`consecutiveMissingFrames
      ensures match Prepare(config, old(View()), required, minimum)
        case None => ppm.None? && View() == old(View())
        case Some(prepared) => ppm == Some(prepared.1) && View() == prepared.0
    {
      var current := BufferLevelFrames();
      if state != Running {
        if current < required {
          return None;
        }
        TrimToBufferDepth(required);
        return Some(0.0);
      }
      if current < minimum {
        return None;
      }
      var error := current - required;
      if error > config.HardTrimTolerance() {
        TrimToBufferDepth(required);
        return Some(0.0);
      }
      return Some(Clamp(error as real * CORRECTION_PPM_PER_FRAME, -CORRECTION_MAX_PPM, CORRECTION_MAX_PPM));
    }

    // ----- pulling

    /** Whole frames that fit; what is left over at the end of the slice is zeroed. */
    method SplitOutput(output: array<real>, channels: nat) returns (n: nat)
      requires channels > 0
      modifies output
      ensures n == output.Length / channels && Offset(n, channels) <= output.Length
      ensures output[Offset(n, channels)..] == Zeros(output.Length - Offset(n, channels))
      ensures n == 0 ==> output[..] == Zeros(output.Length)
    {
      n := output.Length / channels;
      OffsetIsProduct(n, channels);
      FillZeros(output, Offset(n, channels));
      assert n == 0 ==> output[..] == output[0..];
    }

    method PullFixed(output: array<real>, outputRate: u32, playoutBuffered: u64, playoutTime: Option<real>)
      modifies this, output
      ensures output.Length == 0 || config.channels == 0 ==>
        View() == old(View()) && output[..] == old(output[..])
      ensures output.Length > 0 && config.channels > 0 ==>
        var q := Request(output.Length / config.channels, outputRate, playoutBuffered, playoutTime);
        View() == Pull(config, old(View()), q).0
        && match Pull(config, old(View()), q).1
           case Silent => forall i :: 0 <= i < output.Length ==> output[i] == 0.0
           case Rendered(slots) => Holds(output[..], config.channels, slots)
    {
      if output.Length == 0 || config.channels == 0 {
        return;
      }
      var n := SplitOutput(output, config.channels);
      if n == 0 {
        return;
      }
      var q := Request(n, outputRate, playoutBuffered, playoutTime);
      var rate := Max(outputRate, 1);
      var deviceRatio := config.sampleRate as real / rate as real;
      var need := SourceFrames(n, config.sampleRate, rate);
      var desired := SatSub(config.fixedDelayFrames, playoutBuffered);
      var plan := PlanRender(q, need, desired, deviceRatio);
      if plan.None? {
        FillZeros(output, 0);
        assert output[..] == output[0..];
        if streamId.Some? {
          metrics := metrics.(gaps := metrics.gaps.(startupUnderruns := metrics.gaps.startupUnderruns + 1));
        }
        state := Priming;
        return;
      }
      if state != Running {
        state := Running;
      }
      var u := RenderInto(output, n, plan.value);
      FilledHolds(u.slots, config.channels, output[..]);
      Settle(u);
    }

    /** Synchronises, prepares the buffer and picks the step; `None` when there is not enough to render. */
    method PlanRender(q: Request, need: nat, desired: nat, deviceRatio: real) returns (ratio: Option<real>)
      modifies this`readPos, this`consecutiveMissingFrames
      ensures
        var synced := SyncIfEnabled(config, old(View()), q.playoutTime, q.playoutBuffered, need);
        match PlanFor(config, synced, SatAdd(desired, need), need, deviceRatio)
        case None => ratio.None? && View() == synced
        case Some(plan) => ratio == Some(plan.ratio) && View().(phase := Running) == plan.state
    {
      if config.clockSync && q.playoutTime.Some? {
        SyncReadPosToPlayoutClock(q.playoutTime.value, q.playoutBuffered, need);
      }
      var required := SatAdd(desired, need);
      var ppm := PrepareFixedBuffer(required, need);
      if ppm.None? {
        return None;
      }
      return Some(EffectiveRatio(deviceRatio, ppm.value));
    }

    method RenderInto(output: array<real>, n: nat, ratio: real) returns (u: Cursor)
      requires Offset(n, config.channels) <= output.Length
      requires output[Offset(n, config.channels)..] == Zeros(output.Length - Offset(n, config.channels))
      modifies output
      ensures u == Render(View(), config.channels, ratio, n)
      ensures Filled(Rendered(u.slots), config.channels, output[..])
    {
      var channels: nat := config.channels;
      var start := Cursor([], readPos, 0, consecutiveMissingFrames, None);
      if UseIntegerPath(readPos, ratio) {
        var first: nat := Max(Round(readPos), 0);
        u := RenderIntegerPath(packets, output, n, channels, first, start.(readPos := first as real));
      } else {
        u := RenderInterpolatingPath(packets, output, n, channels, ratio, start);
      }
      assert output[..] == output[..Offset(n, channels)] + output[Offset(n, channels)..];
    }

    /** Stores the loop's results, counts the gaps, resyncs on an underrun and prunes. */
    method Settle(u: Cursor)
      modifies this
      ensures View() == PrunePlayed(AfterRender(config, old(View()), u))
    {
      readPos := u.readPos;
      consecutiveMissingFrames := u.missing;
      if u.missingInCall > 0 {
        metrics := metrics.(gaps := metrics.gaps.(
          missingFrameCalls := metrics.gaps.missingFrameCalls + 1,
          missingFrames := metrics.gaps.missingFrames + u.missingInCall));
        if BufferLevelFrames() < 2 {
          metrics := metrics.(gaps := metrics.gaps.(
            outputUnderruns := metrics.gaps.outputUnderruns + 1,
            steadyUnderruns := metrics.gaps.steadyUnderruns + 1));
          ClearForResync(Underrun);
        } else if consecutiveMissingFrames > config.sampleRate / 2 {
          ClearForResync(Underrun);
        }
      }
      assert View() == AfterRender(config, old(View()), u);
      PrunePlayedPackets();
    }
  }
}
