/**
  The receiver's jitter buffer as a state machine on values (`common/src/jitter.rs`).

  Each operation of the buffer is a function from a state to a state; the class in
  `JitterBuffer` is proved to compute these functions in place. Sample positions and counters
  are natural numbers, `f64` values are exact reals and instants are seconds.
 */
module JitterSpec {
  import opened Wrappers
  import opened Numbers
  import opened Audio
  import opened Packet
  import opened PacketStore

  const STREAM_SWITCH_TIMEOUT: real := 0.25
  const CORRECTION_MAX_PPM: real := 2000.0
  const CORRECTION_PPM_PER_FRAME: real := 4.0

  datatype Config = Config(
    sampleRate: u32,
    channels: u16,
    capacityMs: u32,
    fixedDelayFrames: u64,
    clockSync: bool)
  {
    /** The start-up checks of the receiver admit only 48000 Hz; a rate of zero has no meaning here. */
    predicate Valid() {
      sampleRate > 0
    }

    /** `frames_from_ms(capacity_ms)`. */
    function CapacityFrames(): nat {
      sampleRate * capacityMs / 1000
    }

    function HardTrimTolerance(): (t: nat)
      ensures 1 <= t
    {
      var rate := Max(sampleRate, 1);
      var minFrames := Max(rate / 100, 1);
      var maxFrames := Max(rate / 20, minFrames);
      Max(Min(fixedDelayFrames / 10, maxFrames), minFrames)
    }
  }

  datatype Phase = NotStarted | Priming | Running | Resync

  datatype Outcome = Accepted | Duplicate | ForeignStream | Late | Resynced

  datatype ResyncReason = StreamChange | Underrun

  /** A sample position and the instant its packet arrived. */
  datatype Anchor = Anchor(samplePosition: nat, arrival: real)

  datatype PacketCounts = PacketCounts(
    received: nat,
    accepted: nat,
    duplicate: nat,
    invalid: nat,
    foreign: nat,
    late: nat,
    lost: nat,
    outOfOrder: nat)

  datatype GapCounts = GapCounts(
    outputUnderruns: nat,
    startupUnderruns: nat,
    steadyUnderruns: nat,
    missingFrameCalls: nat,
    missingFrames: nat)

  datatype ResyncCounts = ResyncCounts(total: nat, byStreamChange: nat, byUnderrun: nat) {
    function Count(reason: ResyncReason): ResyncCounts {
      match reason
      case StreamChange => ResyncCounts(total + 1, byStreamChange + 1, byUnderrun)
      case Underrun => ResyncCounts(total + 1, byStreamChange, byUnderrun + 1)
    }
  }

  datatype Metrics = Metrics(
    counts: PacketCounts,
    gaps: GapCounts,
    resyncs: ResyncCounts,
    driftPpm: real)

  /**
    What the source does not record: how many packets left the store and why, and the packets
    accepted since the last resync that were not evicted, whether pruned or not.
   */
  datatype Ledger = Ledger(evicted: nat, pruned: nat, cleared: nat, live: Store)

  datatype State = State(
    phase: Phase,
    streamId: Option<u64>,
    packets: Store,
    readPos: real,
    latestEnd: nat,
    expectedSequence: Option<u32>,
    firstDrift: Option<Anchor>,
    lastArrival: Option<real>,
    clockAnchor: Option<Anchor>,
    missing: nat,
    metrics: Metrics,
    ledger: Ledger)
  {
    function CountPackets(counts: PacketCounts): State {
      this.(metrics := metrics.(counts := counts))
    }

    function CountGaps(gaps: GapCounts): State {
      this.(metrics := metrics.(gaps := gaps))
    }
  }

  const NO_METRICS := Metrics(
    PacketCounts(0, 0, 0, 0, 0, 0, 0, 0), GapCounts(0, 0, 0, 0, 0), ResyncCounts(0, 0, 0), 0.0)

  const INITIAL := State(NotStarted, None, map[], 0.0, 0, None, None, None, None, 0,
                         NO_METRICS, Ledger(0, 0, 0, map[]))

  // ----- depth

  /** The read position as a whole frame, a millionth forgiven. */
  function ReadFrame(readPos: real): nat {
    Max((readPos + 0.000001).Floor, 0)
  }

  function Level(s: State): nat {
    SatSub(s.latestEnd, ReadFrame(s.readPos))
  }

  function TrimTo(s: State, depth: nat): State
    requires depth <= s.latestEnd
  {
    var target := (s.latestEnd - depth) as real;
    if target > s.readPos then s.(readPos := target, missing := 0) else s
  }

  function TrimToBudget(c: Config, s: State, playoutBuffered: nat): State {
    if s.streamId.None? || s.phase.NotStarted? then s
    else
      var desired := SatSub(c.fixedDelayFrames, playoutBuffered);
      if Level(s) > SatAdd(desired, c.HardTrimTolerance()) then
        TrimTo(s, desired)
      else s
  }

  // ----- inserting

  function Clear(s: State, reason: ResyncReason): State {
    s.(phase := Resync,
       packets := map[],
       latestEnd := 0,
       expectedSequence := None,
       firstDrift := None,
       lastArrival := None,
       clockAnchor := None,
       missing := 0,
       metrics := s.metrics.(resyncs := s.metrics.resyncs.Count(reason)),
       ledger := s.ledger.(cleared := s.ledger.cleared + |s.packets|, live := map[]))
  }

  predicate StreamActive(s: State, arrival: real) {
    s.lastArrival.Some? && s.lastArrival.value <= arrival && arrival - s.lastArrival.value < STREAM_SWITCH_TIMEOUT
  }

  /** `a.wrapping_sub(b)` on 32 bits. */
  function WrappingSub(a: u32, b: u32): u32 {
    (a - b) % U32_LIMIT
  }

  function Successor(sequence: u32): u32 {
    Wrap(sequence + 1)
  }

  function CountSequence(s: State, sequence: u32): State {
    var m :=
      if s.expectedSequence.None? then s.metrics.counts
      else
        var forward := WrappingSub(sequence, s.expectedSequence.value);
        if forward == 0 then s.metrics.counts
        else if forward < U32_MAX / 2 then s.metrics.counts.(lost := s.metrics.counts.lost + forward)
        else s.metrics.counts.(outOfOrder := s.metrics.counts.outOfOrder + 1);
    s.CountPackets(m).(expectedSequence := Some(Successor(sequence)))
  }

  function UpdateDrift(c: Config, s: State, position: nat, arrival: real): State
    requires c.Valid()
  {
    match s.firstDrift
    case None => s.(firstDrift := Some(Anchor(position, arrival)))
    case Some(first) =>
      var elapsed := if arrival >= first.arrival then arrival - first.arrival else 0.0;
      if elapsed >= 1.0 then
        var rate := SatSub(position, first.samplePosition) as real / elapsed;
        s.(metrics := s.metrics.(driftPpm := (rate / c.sampleRate as real - 1.0) * 1000000.0))
      else s
  }

  function UpdateClockAnchor(s: State, position: nat, arrival: real): State {
    if s.clockAnchor.None? then s.(clockAnchor := Some(Anchor(position, arrival))) else s
  }

  /** Drops everything that starts too far before the newest end. */
  function DropOverCapacity(c: Config, s: State): State {
    var kept := Evict(s.packets, s.latestEnd, c.CapacityFrames());
    EvictShrinks(s.packets, s.latestEnd, c.CapacityFrames());
    var evicted := |s.packets| - |kept|;
    s.(packets := kept,
       metrics := s.metrics.(counts := s.metrics.counts.(late := s.metrics.counts.late + evicted)),
       ledger := s.ledger.(
         evicted := s.ledger.evicted + evicted,
         live := Evict(s.ledger.live, s.latestEnd, c.CapacityFrames())))
  }

  lemma EvictShrinks(packets: Store, latest: nat, capacity: nat)
    ensures |Evict(packets, latest, capacity)| <= |packets|
  {
    SubsetSize(Evict(packets, latest, capacity).Keys, packets.Keys);
  }

  lemma {:induction false} SubsetSize(a: set<nat>, b: set<nat>)
    requires a <= b
    ensures |a| <= |b|
  {
    if a != {} {
      var x :| x in a;
      SubsetSize(a - {x}, b - {x});
    }
  }

  /** The packet enters the store. */
  function Stored(s: State, p: AudioPacket, arrival: real): State {
    var frames := PacketFrames(p.payload, p.header.frames);
    s.(packets := s.packets[p.header.samplePosition := frames],
       latestEnd := Max(s.latestEnd, p.EndPosition()),
       lastArrival := Some(arrival),
       metrics := s.metrics.(counts := s.metrics.counts.(accepted := s.metrics.counts.accepted + 1)),
       ledger := s.ledger.(live := s.ledger.live[p.header.samplePosition := frames]))
  }

  /** The tail of an insert, once the packet has passed every check. */
  function Accept(c: Config, s: State, p: AudioPacket, arrival: real): State
    requires c.Valid()
  {
    var start := p.header.samplePosition;
    DropOverCapacity(c, UpdateClockAnchor(UpdateDrift(c, Stored(s, p, arrival), start, arrival), start, arrival))
  }

  /** The stream switch at the head of an insert: resync on a dead stream, adopt a new one. */
  function AdoptStream(s: State, p: AudioPacket): State {
    var s1 := if s.streamId.Some? && s.streamId.value != p.header.streamId then Clear(s, StreamChange) else s;
    if s1.streamId != Some(p.header.streamId) then
      s1.(streamId := Some(p.header.streamId),
          readPos := p.header.samplePosition as real,
          phase := Priming)
    else s1
  }

  predicate Foreign(s: State, p: AudioPacket, arrival: real) {
    s.streamId.Some? && s.streamId.value != p.header.streamId && StreamActive(s, arrival)
  }

  predicate FormatMatches(c: Config, p: AudioPacket) {
    p.header.sampleRate == c.sampleRate && p.header.channels == c.channels
  }

  predicate TooLate(s: State, p: AudioPacket) {
    s.phase.Running? && p.EndPosition() <= Max(s.readPos.Floor, 0)
  }

  /** The sum of start and frames passes 64 bits where the source adds them, unchecked, after the stream checks. */
  predicate Overflows(c: Config, s: State, p: AudioPacket, arrival: real) {
    FormatMatches(c, p) && !Foreign(s, p, arrival) && p.EndPosition() > U64_MAX
  }

  /** The checks left once the packet's stream is the followed one. */
  function InsertAdopted(c: Config, s: State, p: AudioPacket, arrival: real, outcome: Outcome): (State, Outcome)
    requires c.Valid()
  {
    var n := s.metrics.counts;
    if TooLate(s, p) then (s.CountPackets(n.(late := n.late + 1)), Outcome.Late)
    else if p.header.samplePosition in s.packets then
      (s.CountPackets(n.(duplicate := n.duplicate + 1)), Outcome.Duplicate)
    else (Accept(c, s, p, arrival), outcome)
  }

  function InsertReceived(c: Config, s: State, p: AudioPacket, arrival: real): (State, Outcome)
    requires c.Valid()
  {
    var n := s.metrics.counts;
    if !FormatMatches(c, p) then (s.CountPackets(n.(invalid := n.invalid + 1)), Outcome.Late)
    else if Foreign(s, p, arrival) then (s.CountPackets(n.(foreign := n.foreign + 1)), Outcome.ForeignStream)
    else
      var outcome := if s.streamId.Some? && s.streamId.value != p.header.streamId then Resynced else Accepted;
      InsertAdopted(c, CountSequence(AdoptStream(s, p), p.header.sequence), p, arrival, outcome)
  }

  function Insert(c: Config, s: State, p: AudioPacket, arrival: real): (State, Outcome)
    requires c.Valid()
  {
    InsertReceived(c, s.CountPackets(s.metrics.counts.(received := s.metrics.counts.received + 1)), p, arrival)
  }

  function RecordInvalid(s: State): State {
    var n := s.metrics.counts;
    s.CountPackets(n.(received := n.received + 1, invalid := n.invalid + 1))
  }

  // ----- pulling

  /** One pull: how many frames are asked for, at what rate, and what the playout ring holds. */
  datatype Request = Request(
    frames: nat,
    outputRate: u32,
    playoutBuffered: u64,
    playoutTime: Option<real>)

  function OutputRate(q: Request): (rate: nat)
    ensures 0 < rate < U32_LIMIT
  {
    Max(q.outputRate, 1)
  }

  function DeviceRatio(c: Config, q: Request): real {
    c.sampleRate as real / OutputRate(q) as real
  }

  /** Source frames needed for some output frames: the exact quotient, rounded up. */
  function SourceFrames(outputFrames: nat, sourceRate: u32, outputRate: u32): nat {
    var source, out := Max(sourceRate, 1), Max(outputRate, 1);
    SatAdd(SatMul(outputFrames, source), out - 1) / out
  }

  function Need(c: Config, q: Request): nat {
    SourceFrames(q.frames, c.sampleRate, OutputRate(q))
  }

  function Desired(c: Config, q: Request): nat {
    SatSub(c.fixedDelayFrames, q.playoutBuffered)
  }

  function Required(c: Config, q: Request): nat {
    SatAdd(Desired(c, q), Need(c, q))
  }

  /** Where the sender's clock, drift included, stands at `time`. */
  function SenderPosition(anchor: Anchor, time: real, sampleRate: u32, driftPpm: real): real {
    anchor.samplePosition as real
    + (time - anchor.arrival) * sampleRate as real * (1.0 + driftPpm / 1000000.0)
  }

  /** Jumps forward to where the sender's clock says playback should be, two frames short of the end at most. */
  function SyncToClock(c: Config, s: State, time: real, playoutBuffered: nat, need: nat): State {
    if s.clockAnchor.None? || time < s.clockAnchor.value.arrival then s
    else
      var anchor := s.clockAnchor.value;
      var delay := SatAdd(SatSub(c.fixedDelayFrames, playoutBuffered), need);
      var target := SenderPosition(anchor, time, c.sampleRate, s.metrics.driftPpm) - delay as real;
      if target <= s.readPos then s
      else
        var latestSafe := SatSub(s.latestEnd, 2) as real;
        var bounded := if target < latestSafe then target else latestSafe;
        var clamped := if bounded < 0.0 then 0.0 else bounded;
        if clamped > s.readPos then s.(readPos := clamped, missing := 0) else s
  }

  function SyncIfEnabled(c: Config, s: State, playoutTime: Option<real>, playoutBuffered: nat, need: nat): State {
    if c.clockSync && playoutTime.Some? then SyncToClock(c, s, playoutTime.value, playoutBuffered, need) else s
  }

  function Synced(c: Config, s: State, q: Request): State {
    SyncIfEnabled(c, s, q.playoutTime, q.playoutBuffered, Need(c, q))
  }

  function Correction(errorFrames: int): real {
    Clamp(errorFrames as real * CORRECTION_PPM_PER_FRAME, -CORRECTION_MAX_PPM, CORRECTION_MAX_PPM)
  }

  /** The depth control: refuse, jump, or return the rate correction in parts per million. */
  function Prepare(c: Config, s: State, required: nat, minimum: nat): Option<(State, real)> {
    var level := Level(s);
    if s.phase != Running then
      if level < required then None else Some((TrimTo(s, required), 0.0))
    else if level < minimum then None
    else
      var error := level - required;
      if error > c.HardTrimTolerance() then Some((TrimTo(s, required), 0.0))
      else Some((s, Correction(error)))
  }

  /** What a pull is about to render: the state after synchronising and trimming, and the step. */
  datatype Plan = Plan(state: State, ratio: real)

  /** The step of the render loop: the device ratio, corrected. */
  function EffectiveRatio(deviceRatio: real, ppm: real): real {
    deviceRatio * (1.0 + ppm / 1000000.0)
  }

  function PlanFor(c: Config, synced: State, required: nat, need: nat, deviceRatio: real): Option<Plan> {
    match Prepare(c, synced, required, need)
    case None => None
    case Some(prepared) => Some(Plan(prepared.0.(phase := Running), EffectiveRatio(deviceRatio, prepared.1)))
  }

  function PlanOf(c: Config, s: State, q: Request): Option<Plan> {
    PlanFor(c, Synced(c, s, q), Required(c, q), Need(c, q), DeviceRatio(c, q))
  }

  /** A rendered frame, or `None` where silence is written. */
  type Slot = Option<StereoFrame>

  /** The render loop's variables. */
  datatype Cursor = Cursor(
    slots: seq<Slot>,
    readPos: real,
    missingInCall: nat,
    missing: nat,
    cache: Option<nat>)
  {
    function Emit(slot: Slot, advance: real, newCache: Option<nat>): Cursor {
      Cursor(slots + [slot], readPos + advance,
             if slot.Some? then missingInCall else missingInCall + 1,
             if slot.Some? then 0 else missing + 1,
             newCache)
    }
  }

  /** The slot at a whole position, and the cache after the lookup. */
  function Sampled(packets: Store, channels: nat, pos: nat, cache: Option<nat>): (r: (Slot, Option<nat>))
    requires ValidCache(packets, cache)
    ensures ValidCache(packets, r.1)
  {
    (SampleIn(packets, PacketAtCached(packets, pos, cache), channels, pos), NextCache(packets, pos, cache))
  }

  /** The frame after those already emitted, counted from `first`. */
  function IntegerStep(packets: Store, channels: nat, first: nat, u: Cursor): (u': Cursor)
    requires ValidCache(packets, u.cache)
    ensures ValidCache(packets, u'.cache)
  {
    var (slot, cache) := Sampled(packets, channels, first + |u.slots|, u.cache);
    u.Emit(slot, 1.0, cache)
  }

  /** The slot interpolated at a fractional position, and the cache after the two lookups. */
  function Interpolated(packets: Store, channels: nat, readPos: real, cache: Option<nat>): (r: (Slot, Option<nat>))
    requires ValidCache(packets, cache)
    ensures ValidCache(packets, r.1)
  {
    var pos0: nat := Max(readPos.Floor, 0);
    var (a, cache1) := Sampled(packets, channels, pos0, cache);
    var (b, cache2) := Sampled(packets, channels, pos0 + 1, cache1);
    (Blend(a, b, readPos - pos0 as real), cache2)
  }

  function InterpolatingStep(packets: Store, channels: nat, ratio: real, u: Cursor): (u': Cursor)
    requires ValidCache(packets, u.cache)
    ensures ValidCache(packets, u'.cache)
  {
    var (slot, cache) := Interpolated(packets, channels, u.readPos, u.cache);
    u.Emit(slot, ratio, cache)
  }

  /** Interpolate where both neighbours exist, hold the first where it is alone, else silence. */
  function Blend(a: Slot, b: Slot, frac: real): Slot {
    if a.None? then None
    else if b.None? then a
    else Some(Lerp(a.value, b.value, frac))
  }

  function RenderInteger(packets: Store, channels: nat, first: nat, n: nat, u: Cursor): (u': Cursor)
    requires ValidCache(packets, u.cache)
    ensures ValidCache(packets, u'.cache)
  {
    if n == 0 then u
    else IntegerStep(packets, channels, first, RenderInteger(packets, channels, first, n - 1, u))
  }

  function RenderInterpolating(packets: Store, channels: nat, ratio: real, n: nat, u: Cursor): (u': Cursor)
    requires ValidCache(packets, u.cache)
    ensures ValidCache(packets, u'.cache)
  {
    if n == 0 then u
    else InterpolatingStep(packets, channels, ratio, RenderInterpolating(packets, channels, ratio, n - 1, u))
  }

  predicate UseIntegerPath(readPos: real, ratio: real) {
    Abs(ratio - 1.0) < 0.000000001 && Abs(readPos - Round(readPos) as real) < 0.000001
  }

  function Render(s: State, channels: nat, ratio: real, n: nat): Cursor {
    var start := Cursor([], s.readPos, 0, s.missing, None);
    if UseIntegerPath(s.readPos, ratio) then
      var first: nat := Max(Round(s.readPos), 0);
      RenderInteger(s.packets, channels, first, n, start.(readPos := first as real))
    else
      RenderInterpolating(s.packets, channels, ratio, n, start)
  }

  ghost function PrunePlayed(s: State): State {
    var kept := Prune(s.packets, ReadFrame(s.readPos));
    PruneShrinks(s.packets, ReadFrame(s.readPos));
    s.(packets := kept, ledger := s.ledger.(pruned := s.ledger.pruned + |s.packets| - |kept|))
  }

  lemma PruneShrinks(packets: Store, readFrame: nat)
    ensures |Prune(packets, readFrame)| <= |packets|
  {
    SubsetSize(Prune(packets, readFrame).Keys, packets.Keys);
  }

  /** After the loop: count the gaps, resync when the data ran out or the gap is too long. */
  function AfterRender(c: Config, s: State, u: Cursor): State {
    var s1 := s.(readPos := u.readPos, missing := u.missing);
    if u.missingInCall == 0 then s1
    else
      var s2 := s1.CountGaps(s1.metrics.gaps.(
        missingFrameCalls := s1.metrics.gaps.missingFrameCalls + 1,
        missingFrames := s1.metrics.gaps.missingFrames + u.missingInCall));
      if Level(s2) < 2 then
        Clear(s2.CountGaps(s2.metrics.gaps.(
          outputUnderruns := s2.metrics.gaps.outputUnderruns + 1,
          steadyUnderruns := s2.metrics.gaps.steadyUnderruns + 1)), Underrun)
      else if s2.missing > c.sampleRate / 2 then Clear(s2, Underrun)
      else s2
  }

  /** What a pull writes: silence throughout, or one slot per frame. */
  datatype Rendering =
    | Silent
    | Rendered(slots: seq<Slot>)

  function Refused(c: Config, s: State): State {
    s.CountGaps(s.metrics.gaps.(
      startupUnderruns := s.metrics.gaps.startupUnderruns + (if s.streamId.Some? then 1 else 0))).(phase := Priming)
  }

  ghost function Pull(c: Config, s: State, q: Request): (State, Rendering) {
    if c.channels == 0 || q.frames == 0 then (s, Silent)
    else
      match PlanOf(c, s, q)
      case None => (Refused(c, Synced(c, s, q)), Silent)
      case Some(plan) =>
        var u := Render(plan.state, c.channels, plan.ratio, q.frames);
        (PrunePlayed(AfterRender(c, plan.state, u)), Rendered(u.slots))
  }

  // ----- runs

  datatype Event =
    | Arrive(packet: AudioPacket, arrival: real)
    | ArriveInvalid
    | Trim(playoutBuffered: u64)
    | PullEvent(request: Request)

  ghost function Step(c: Config, s: State, e: Event): State
    requires c.Valid()
  {
    match e
    case Arrive(p, arrival) => Insert(c, s, p, arrival).0
    case ArriveInvalid => RecordInvalid(s)
    case Trim(playoutBuffered) => TrimToBudget(c, s, playoutBuffered)
    case PullEvent(q) => Pull(c, s, q).0
  }

  ghost function Run(c: Config, s: State, events: seq<Event>): State
    requires c.Valid()
  {
    if events == [] then s
    else Step(c, Run(c, s, events[..|events| - 1]), events[|events| - 1])
  }
}
