/**
  The buffer under the audio callback: when playback starts, and what the depth error does
  over a whole run in which as many frames arrive as are played.
 */
module JitterSteady {
  import opened Wrappers
  import opened Numbers
  import opened Packet
  import opened PacketStore
  import opened JitterSpec
  import opened JitterRender
  import opened JitterInvariants
  import opened JitterControl
  import opened JitterGaps

  /** The audio callback's order: trim to the whole budget, then pull with nothing in a playout ring. */
  ghost function Callback(c: Config, s: State, q: Request): (State, Rendering) {
    Pull(c, TrimToBudget(c, s, 0), q)
  }

  predicate CallbackRequest(c: Config, q: Request) {
    && c.channels > 0
    && q.frames > 0
    && q.playoutBuffered == 0
  }

  lemma RefusedWhenShallow(c: Config, s: State, q: Request)
    requires CallbackRequest(c, q) && !c.clockSync && !s.phase.Running?
    ensures Pull(c, s, q).1.Rendered? <==> Level(s) >= Required(c, q)
  {
  }

  /**
    Start-up is a window: a buffer that is not running starts to render exactly when its depth
    is at least the fixed delay and what is rendered, and at most the fixed delay and the trim
    tolerance, for a deeper buffer is first trimmed to the fixed delay alone.
   */
  lemma StartupWindow(c: Config, s: State, q: Request)
    requires c.Valid() && Inv(c, s) && CallbackRequest(c, q)
    requires !c.clockSync && !s.phase.Running? && s.latestEnd < U64_MAX
    ensures Callback(c, s, q).1.Rendered? <==>
      c.fixedDelayFrames + Need(c, q) <= Level(s) <= c.fixedDelayFrames + c.HardTrimTolerance()
  {
    NeedPositive(c, q);
    BudgetTrimExact(c, s, 0);
    RefusedWhenShallow(c, TrimToBudget(c, s, 0), q);
  }

  /** A callback that renders more than the tolerance in one go never starts playback, at any depth. */
  lemma LargeCallbackNeverStarts(c: Config, s: State, q: Request)
    requires c.Valid() && Inv(c, s) && CallbackRequest(c, q)
    requires !c.clockSync && !s.phase.Running? && s.latestEnd < U64_MAX
    requires Need(c, q) > c.HardTrimTolerance()
    ensures !Callback(c, s, q).1.Rendered? && !Callback(c, s, q).0.phase.Running?
  {
    StartupWindow(c, s, q);
  }

  // ----- equal rates

  /** Output and source run at the same rate, and the pull is of a size the correction can settle. */
  predicate EqualRates(c: Config, q: Request) {
    && c.Valid()
    && c.channels > 0
    && 0 < q.frames <= MAX_RENDER
    && q.outputRate == c.sampleRate
  }

  lemma EqualRatesNeed(c: Config, q: Request)
    requires EqualRates(c, q)
    ensures DeviceRatio(c, q) == 1.0 && Need(c, q) == q.frames
  {
    WholeNeed(q.frames, c.sampleRate);
    SelfRatio(c.sampleRate as real);
  }

  lemma SelfRatio(x: real)
    requires x > 0.0
    ensures x / x == 1.0
  {
  }

  lemma WholeNeed(n: nat, rate: u32)
    requires n <= MAX_RENDER && rate > 0
    ensures SourceFrames(n, rate, rate) == n
  {
    MulMonotoneInt(n, MAX_RENDER, rate);
    MulMonotoneInt(rate, U32_MAX, MAX_RENDER);
    assert SourceFrames(n, rate, rate) == (n * rate + rate - 1) / rate;
    DivExact(n, rate);
  }

  lemma DivExact(n: nat, d: nat)
    requires d > 0
    ensures (n * d + d - 1) / d == n
  {
    DivAtLeast(n * d + d - 1, n, d);
    var quotient := (n * d + d - 1) / d;
    assert quotient * d <= n * d + d - 1;
    if quotient >= n + 1 {
      MulMonotoneInt(n + 1, quotient, d);
    }
  }

  /** At equal rates a rendering moves its frame count plus a part of the error, never past it. */
  lemma EqualRatesMoves(c: Config, q: Request, readPos: real, error: int)
    requires EqualRates(c, q) && readPos >= 0.0
    ensures var ratio := EffectiveRatio(DeviceRatio(c, q), Correction(error));
      var n := q.frames;
      var extra := ReadFrame(ReadPosition(readPos, ratio, n)) - ReadFrame(readPos) - n;
      Min(error, 0) <= extra <= Max(error, 0)
  {
    var n := q.frames;
    var ratio := EffectiveRatio(DeviceRatio(c, q), Correction(error));
    EqualRatesNeed(c, q);
    TravelByOne(n);
    CorrectedTravel(n, 1.0, error);
    TravelBounds(c, q, error);
    ReadFrameMoves(readPos, ratio, n);
    TravelPositive(ratio, n);
    if !UseIntegerPath(readPos, ratio) {
      ExtraMove(readPos, n, Travel(ratio, n) - n as real, error);
    }
  }

  lemma ExtraMove(readPos: real, n: nat, x: real, error: int)
    requires readPos >= 0.0 && n as real + x >= 0.0
    requires error >= 0 ==> 0.0 <= x <= error as real
    requires error <= 0 ==> error as real <= x <= 0.0
    ensures Min(error, 0) <= ReadFrame(readPos + (n as real + x)) - ReadFrame(readPos) - n <= Max(error, 0)
  {
    FloorShiftBetween(readPos + 0.000001, x, error);
    FloorPlusInt(readPos + 0.000001 + x, n);
    assert readPos + 0.000001 + x + n as real == readPos + (n as real + x) + 0.000001;
  }

  /** `b` is no further from zero than `a`, and not on the other side. */
  predicate Settles(a: int, b: int) {
    Min(a, 0) <= b <= Max(a, 0)
  }

  /** The error a running pull corrects: none once it trims. */
  function CorrectedError(c: Config, error: int): int {
    if error > c.HardTrimTolerance() then 0 else error
  }

  /**
    One pull of a running buffer at equal rates over readable data: afterwards the depth is short
    of the requirement by exactly what was played, plus an error that has settled.
   */
  lemma EqualRatesPull(c: Config, s: State, q: Request)
    requires EqualRates(c, q) && !c.clockSync
    requires s.readPos >= 0.0 && s.phase.Running? && s.latestEnd < U64_MAX
    requires Level(s) >= q.frames
    requires WellFormedStore(s.packets, c.channels)
    requires Readable(s.packets, s.readPos.Floor, s.latestEnd)
    ensures var t := Pull(c, s, q).0;
      && t.phase.Running? && t.streamId == s.streamId && t.metrics == s.metrics
      && t.latestEnd == s.latestEnd && ReadFrame(t.readPos) <= t.latestEnd
      && s.readPos <= t.readPos
      && t.packets == Prune(s.packets, ReadFrame(t.readPos))
      && Settles(CorrectedError(c, Error(c, s, q)), Error(c, t, q) + q.frames)
  {
    EqualRatesNeed(c, q);
    NeedWithinRequired(c, q);
    assert PlanOf(c, s, q).Some?;
    var plan := PlanOf(c, s, q).value;
    NoGapWhenDataIsThere(c, s, q);
    PlanLevel(c, s, q);
    EqualRatesMoves(c, q, plan.state.readPos, Error(c, plan.state, q));
    EqualRatesPlan(c, s, q);
    TravelBounds(c, q, Error(c, plan.state, q));
    RenderForward(plan.state, c.channels, plan.ratio, q.frames);
    RenderAdvance(plan.state, c.channels, plan.ratio, q.frames);
  }

  lemma EqualRatesPlan(c: Config, s: State, q: Request)
    requires EqualRates(c, q) && !c.clockSync
    requires s.readPos >= 0.0 && s.phase.Running? && PlanOf(c, s, q).Some?
    ensures var plan := PlanOf(c, s, q).value;
      && Error(c, plan.state, q) == CorrectedError(c, Error(c, s, q))
      && plan.state.latestEnd == s.latestEnd && s.readPos <= plan.state.readPos
  {
    if Required(c, q) <= s.latestEnd {
      TrimExact(s, Required(c, q));
    }
  }

  // ----- a run of rounds

  datatype Arrival = Arrival(packet: AudioPacket, time: real)

  function InsertAll(c: Config, s: State, feed: seq<Arrival>): State
    requires c.Valid()
    decreases |feed|
  {
    if feed == [] then s
    else InsertAll(c, Insert(c, s, feed[0].packet, feed[0].time).0, feed[1..])
  }

  /** A packet of the stream, non-empty, of bounded size, starting where the last one ended. */
  predicate NextInOrder(c: Config, stream: u64, from: nat, maxFrames: nat, p: AudioPacket) {
    && FormatMatches(c, p)
    && p.header.streamId == stream
    && p.header.samplePosition == from
    && 0 < p.header.frames <= maxFrames
    && |p.payload| == Offset(p.header.frames, c.channels)
  }

  predicate InOrder(c: Config, stream: u64, from: nat, maxFrames: nat, feed: seq<Arrival>)
    decreases |feed|
  {
    feed != [] ==>
      && NextInOrder(c, stream, from, maxFrames, feed[0].packet)
      && InOrder(c, stream, feed[0].packet.EndPosition(), maxFrames, feed[1..])
  }

  function FrameCount(feed: seq<Arrival>): nat {
    if feed == [] then 0 else feed[0].packet.header.frames + FrameCount(feed[1..])
  }

  /** Bounded, non-empty, disjoint packets that cover every position of a range and end by its end. */
  ghost predicate SolidStore(packets: Store, from: int, latest: nat, channels: nat, maxFrames: nat) {
    && WellFormedStore(packets, channels)
    && Disjoint(packets)
    && (forall k :: k in packets ==> packets[k].frameCount <= maxFrames && k < End(packets, k) <= latest)
    && (forall pos: nat :: from <= pos < latest ==> Covered(packets, pos))
  }

  /** A running buffer holding every position from the read position to the newest end. */
  ghost predicate Solid(c: Config, s: State, stream: u64, maxFrames: nat) {
    && s.readPos >= 0.0 && ReadFrame(s.readPos) <= s.latestEnd
    && s.phase.Running? && s.streamId == Some(stream)
    && SolidStore(s.packets, s.readPos.Floor, s.latestEnd, c.channels, maxFrames)
  }

  /** The buffer can hold what is unread, a frame and the largest packet. */
  predicate Roomy(c: Config, s: State, frames: nat, maxFrames: nat) {
    Level(s) + frames + 1 + maxFrames <= c.CapacityFrames()
  }

  lemma SolidReadable(packets: Store, from: int, latest: nat, channels: nat, maxFrames: nat)
    requires SolidStore(packets, from, latest, channels, maxFrames)
    ensures WellFormedStore(packets, channels) && Readable(packets, from, latest)
  {
    forall pos: nat | from <= pos < latest
      ensures PacketAt(packets, pos).Some?
    {
      assert Covered(packets, pos);
      PacketAtDisjoint(packets, pos);
    }
  }

  lemma DisjointGrows(packets: Store, latest: nat, added: PacketFrames)
    requires Disjoint(packets) && forall k :: k in packets ==> k < End(packets, k) <= latest
    ensures latest !in packets && Disjoint(packets[latest := added])
  {
  }

  lemma CoveredGrows(packets: Store, from: int, latest: nat, maxFrames: nat, added: PacketFrames, capacity: nat)
    requires forall k :: k in packets ==> packets[k].frameCount <= maxFrames
    requires forall pos: nat :: from <= pos < latest ==> Covered(packets, pos)
    requires latest !in packets && added.frameCount <= maxFrames
    requires latest + added.frameCount - from + maxFrames <= capacity
    ensures var kept := Evict(packets[latest := added], latest + added.frameCount, capacity);
      forall pos: nat :: from <= pos < latest + added.frameCount ==> Covered(kept, pos)
  {
    var end := latest + added.frameCount;
    var kept := Evict(packets[latest := added], end, capacity);
    forall pos: nat | from <= pos < end
      ensures Covered(kept, pos)
    {
      if pos < latest {
        assert Covered(packets, pos);
        var k: nat :| Covers(packets, k, pos);
        assert Covers(kept, k, pos);
      } else {
        assert Covers(kept, latest, pos);
      }
    }
  }

  /** A packet that starts at the end extends a solid store, and eviction reaches nothing still to be read. */
  lemma SolidStoreGrows(packets: Store, from: int, latest: nat, channels: nat, maxFrames: nat, added: PacketFrames,
                        capacity: nat)
    requires SolidStore(packets, from, latest, channels, maxFrames)
    requires 0 < added.frameCount <= maxFrames && added.WellFormed(channels)
    requires latest + added.frameCount - from + maxFrames <= capacity
    ensures var end := latest + added.frameCount;
      SolidStore(Evict(packets[latest := added], end, capacity), from, end, channels, maxFrames)
  {
    var grown := packets[latest := added];
    DisjointGrows(packets, latest, added);
    SubmapDisjoint(Evict(grown, latest + added.frameCount, capacity), grown);
    CoveredGrows(packets, from, latest, maxFrames, added, capacity);
  }

  lemma SolidStorePruned(packets: Store, from: int, latest: nat, channels: nat, maxFrames: nat, readPos: real)
    requires SolidStore(packets, from, latest, channels, maxFrames)
    requires readPos >= 0.0 && from <= readPos.Floor
    ensures SolidStore(Prune(packets, ReadFrame(readPos)), readPos.Floor, latest, channels, maxFrames)
  {
    var kept := Prune(packets, ReadFrame(readPos));
    SubmapDisjoint(kept, packets);
    forall pos: nat | readPos.Floor <= pos < latest
      ensures Covered(kept, pos)
    {
      assert Covered(packets, pos);
      var k: nat :| Covers(packets, k, pos);
      assert !Played(packets, ReadFrame(readPos), k);
      assert Covers(kept, k, pos);
    }
  }

  lemma InOrderAccepted(c: Config, s: State, p: AudioPacket, arrival: real, stream: u64, maxFrames: nat)
    requires c.Valid() && s.streamId == Some(stream) && s.readPos >= 0.0
    requires NextInOrder(c, stream, s.latestEnd, maxFrames, p)
    requires ReadFrame(s.readPos) <= s.latestEnd
    requires forall k :: k in s.packets ==> k < s.latestEnd
    ensures var t := Insert(c, s, p, arrival).0;
      && t.packets == Evict(s.packets[s.latestEnd := PacketFrames(p.payload, p.header.frames)], p.EndPosition(),
                            c.CapacityFrames())
      && t.latestEnd == p.EndPosition()
      && t.phase == s.phase && t.streamId == s.streamId && t.readPos == s.readPos
      && t.metrics.gaps == s.metrics.gaps && t.metrics.resyncs == s.metrics.resyncs
  {
    hide Insert, Evict;
    AcceptedInsert(c, s, p, arrival);
  }

  lemma AcceptedKeepsSolid(c: Config, s: State, t: State, added: PacketFrames, stream: u64, maxFrames: nat)
    requires Solid(c, s, stream, maxFrames)
    requires 0 < added.frameCount <= maxFrames && added.WellFormed(c.channels)
    requires Roomy(c, s, added.frameCount, maxFrames)
    requires t.latestEnd == s.latestEnd + added.frameCount
    requires t.packets == Evict(s.packets[s.latestEnd := added], t.latestEnd, c.CapacityFrames())
    requires t.phase == s.phase && t.streamId == s.streamId && t.readPos == s.readPos
    ensures Solid(c, t, stream, maxFrames)
  {
    hide SolidStore, Evict;
    SolidStoreGrows(s.packets, s.readPos.Floor, s.latestEnd, c.channels, maxFrames, added, c.CapacityFrames());
  }

  /** An in-order packet is accepted, extends the data, and evicts nothing still to be read. */
  lemma InsertKeepsSolid(c: Config, s: State, p: AudioPacket, arrival: real, stream: u64, maxFrames: nat)
    requires c.Valid() && Solid(c, s, stream, maxFrames)
    requires NextInOrder(c, stream, s.latestEnd, maxFrames, p)
    requires Roomy(c, s, p.header.frames, maxFrames)
    ensures var t := Insert(c, s, p, arrival).0;
      && Solid(c, t, stream, maxFrames)
      && t.readPos == s.readPos && t.latestEnd == p.EndPosition()
      && t.metrics.gaps == s.metrics.gaps && t.metrics.resyncs == s.metrics.resyncs
  {
    InOrderAccepted(c, s, p, arrival, stream, maxFrames);
    AcceptedKeepsSolid(c, s, Insert(c, s, p, arrival).0, PacketFrames(p.payload, p.header.frames), stream, maxFrames);
  }

  lemma {:induction false} FeedKeepsSolid(c: Config, s: State, feed: seq<Arrival>, stream: u64, maxFrames: nat)
    decreases |feed|
    requires c.Valid() && Solid(c, s, stream, maxFrames)
    requires InOrder(c, stream, s.latestEnd, maxFrames, feed)
    requires Roomy(c, s, FrameCount(feed), maxFrames)
    ensures var t := InsertAll(c, s, feed);
      && Solid(c, t, stream, maxFrames)
      && t.readPos == s.readPos && t.latestEnd == s.latestEnd + FrameCount(feed)
      && t.metrics.gaps == s.metrics.gaps && t.metrics.resyncs == s.metrics.resyncs
  {
    if feed != [] {
      InsertKeepsSolid(c, s, feed[0].packet, feed[0].time, stream, maxFrames);
      FeedKeepsSolid(c, Insert(c, s, feed[0].packet, feed[0].time).0, feed[1..], stream, maxFrames);
    }
  }

  /** The error the next pull will see once as many frames have arrived as it plays. */
  function PendingError(c: Config, s: State, q: Request): int {
    Error(c, s, q) + q.frames
  }

  /** One round of the callback: packets arrive, the budget is trimmed where the caller does so, a pull plays. */
  ghost function PlayRound(c: Config, s: State, feed: seq<Arrival>, q: Request, trims: bool): State
    requires c.Valid()
  {
    var fed := InsertAll(c, s, feed);
    Pull(c, if trims then TrimToBudget(c, fed, 0) else fed, q).0
  }

  /** The callback as a function of the state and of what arrived. */
  ghost function Callbacks(c: Config, q: Request, trims: bool): (round: (State, seq<Arrival>) -> State)
    requires c.Valid()
    ensures IsCallback(round, c, q, trims)
  {
    (s, feed) => PlayRound(c, s, feed, q, trims)
  }

  ghost predicate IsCallback(round: (State, seq<Arrival>) -> State, c: Config, q: Request, trims: bool)
    requires c.Valid()
  {
    forall s, feed {:trigger PlayRound(c, s, feed, q, trims)} :: round(s, feed) == PlayRound(c, s, feed, q, trims)
  }

  /** Round after round, each with its own arrivals. */
  ghost function Rounds(round: (State, seq<Arrival>) -> State, s: State, feeds: seq<seq<Arrival>>): State
    decreases |feeds|
  {
    if feeds == [] then s else Rounds(round, round(s, feeds[0]), feeds[1..])
  }

  /** Every round brings, in order, exactly the frames one pull plays. */
  predicate SteadyFeeds(c: Config, stream: u64, from: nat, maxFrames: nat, frames: nat, feeds: seq<seq<Arrival>>)
    decreases |feeds|
  {
    feeds != [] ==>
      && InOrder(c, stream, from, maxFrames, feeds[0])
      && FrameCount(feeds[0]) == frames
      && from + frames < U64_MAX
      && SteadyFeeds(c, stream, from + frames, maxFrames, frames, feeds[1..])
  }

  /** Where the callback trims first, the error and what is played must fit the tolerance together. */
  predicate TrimsHarmlessly(c: Config, q: Request, trims: bool, error: int) {
    trims ==> q.playoutBuffered == 0 && q.frames + Max(error, 0) <= c.HardTrimTolerance()
  }

  /** The buffer between two callbacks of a steady run. */
  ghost predicate Steady(c: Config, s: State, q: Request, trims: bool, stream: u64, maxFrames: nat) {
    && EqualRates(c, q) && !c.clockSync
    && Solid(c, s, stream, maxFrames)
    && Desired(c, q) + q.frames + Max(PendingError(c, s, q), 0) + 1 + maxFrames <= c.CapacityFrames()
    && TrimsHarmlessly(c, q, trims, PendingError(c, s, q))
  }

  lemma SteadyRound(c: Config, s: State, feed: seq<Arrival>, q: Request, trims: bool,
                    round: (State, seq<Arrival>) -> State, stream: u64, maxFrames: nat)
    requires c.Valid() && Steady(c, s, q, trims, stream, maxFrames) && IsCallback(round, c, q, trims)
    requires InOrder(c, stream, s.latestEnd, maxFrames, feed) && FrameCount(feed) == q.frames
    requires s.latestEnd + q.frames < U64_MAX
    ensures var t := round(s, feed);
      && Steady(c, t, q, trims, stream, maxFrames)
      && t.latestEnd == s.latestEnd + q.frames
      && t.metrics.gaps == s.metrics.gaps && t.metrics.resyncs == s.metrics.resyncs
      && Settles(PendingError(c, s, q), PendingError(c, t, q))
  {
    hide InsertAll, Pull, SolidStore, WellFormedStore, Readable;
    NeedWithinRequired(c, q);
    EqualRatesNeed(c, q);
    FeedKeepsSolid(c, s, feed, stream, maxFrames);
    var fed := InsertAll(c, s, feed);
    assert Level(fed) == Level(s) + q.frames;
    assert trims ==> TrimToBudget(c, fed, 0) == fed;
    var t := Pull(c, fed, q).0;
    assert round(s, feed) == t by {
      assert PlayRound(c, s, feed, q, trims) == t;
    }
    SolidReadable(fed.packets, fed.readPos.Floor, fed.latestEnd, c.channels, maxFrames);
    EqualRatesPull(c, fed, q);
    SolidStorePruned(fed.packets, fed.readPos.Floor, fed.latestEnd, c.channels, maxFrames, t.readPos);
  }

  lemma {:induction false} SteadyRounds(c: Config, s: State, feeds: seq<seq<Arrival>>, q: Request, trims: bool,
                                        round: (State, seq<Arrival>) -> State, stream: u64, maxFrames: nat)
    decreases |feeds|
    requires c.Valid() && Steady(c, s, q, trims, stream, maxFrames)
    requires IsCallback(round, c, q, trims)
    requires SteadyFeeds(c, stream, s.latestEnd, maxFrames, q.frames, feeds)
    ensures var t := Rounds(round, s, feeds);
      && Steady(c, t, q, trims, stream, maxFrames)
      && t.latestEnd == s.latestEnd + Offset(|feeds|, q.frames)
      && t.metrics.gaps == s.metrics.gaps && t.metrics.resyncs == s.metrics.resyncs
      && Settles(PendingError(c, s, q), PendingError(c, t, q))
  {
    hide Steady, PendingError;
    if feeds != [] {
      SteadyRound(c, s, feeds[0], q, trims, round, stream, maxFrames);
      SteadyRounds(c, round(s, feeds[0]), feeds[1..], q, trims, round, stream, maxFrames);
    }
  }

  /**
    Control-loop stability: over any number of rounds that bring, in order, as many frames as each
    pull plays, the buffer keeps running without a gap or a resync, and the depth error never
    grows and never changes sign.
   */
  lemma SteadyRun(c: Config, s: State, feeds: seq<seq<Arrival>>, q: Request, trims: bool, stream: u64,
                  maxFrames: nat)
    requires c.Valid() && Steady(c, s, q, trims, stream, maxFrames)
    requires SteadyFeeds(c, stream, s.latestEnd, maxFrames, q.frames, feeds)
    ensures var t := Rounds(Callbacks(c, q, trims), s, feeds);
      && Steady(c, t, q, trims, stream, maxFrames)
      && t.metrics.gaps == s.metrics.gaps && t.metrics.resyncs == s.metrics.resyncs
      && Settles(PendingError(c, s, q), PendingError(c, t, q))
  {
    hide Steady, SteadyFeeds, PendingError, Rounds, IsCallback, Callbacks;
    SteadyRounds(c, s, feeds, q, trims, Callbacks(c, q, trims), stream, maxFrames);
  }

  // ----- from start-up to a steady run

  /** A start-up pull begins exactly at the requirement and at the device's own rate. */
  lemma StartupPlan(c: Config, s: State, q: Request)
    requires EqualRates(c, q) && !c.clockSync && s.readPos >= 0.0 && !s.phase.Running? && PlanOf(c, s, q).Some?
    ensures var plan := PlanOf(c, s, q).value;
      && s.readPos <= plan.state.readPos && plan.state.latestEnd == s.latestEnd
      && Level(plan.state) == Required(c, q) <= s.latestEnd
      && plan.ratio == EffectiveRatio(DeviceRatio(c, q), Correction(0))
  {
    TrimExact(s, Required(c, q));
  }

  /** What the start-up pull leaves, wherever in a frame it started to read. */
  lemma StartupLeaves(c: Config, s: State, q: Request)
    requires EqualRates(c, q) && !c.clockSync && s.readPos >= 0.0 && !s.phase.Running? && PlanOf(c, s, q).Some?
    requires s.latestEnd < U64_MAX && q.playoutBuffered == 0
    ensures var plan := PlanOf(c, s, q).value;
      var end := ReadPosition(plan.state.readPos, plan.ratio, q.frames);
      ReadFrame(end) <= s.latestEnd && s.latestEnd - ReadFrame(end) == c.fixedDelayFrames
  {
    hide PlanOf, ReadPosition, ReadFrame, Correction, EffectiveRatio, DeviceRatio, SourceFrames;
    StartupPlan(c, s, q);
    EqualRatesNeed(c, q);
    EqualRatesMoves(c, q, PlanOf(c, s, q).value.state.readPos, 0);
    LevelIsRest(PlanOf(c, s, q).value.state);
  }

  lemma LevelIsRest(s: State)
    ensures Level(s) > 0 ==> Level(s) == s.latestEnd - ReadFrame(s.readPos)
  {
  }

  /**
    Start-up depth: the callback that starts playback at equal rates leaves exactly the fixed
    delay, whatever the depth was within the window, unless the data ran out and it resyncs.
   */
  lemma StartupDepth(c: Config, s: State, q: Request)
    requires EqualRates(c, q) && !c.clockSync && q.playoutBuffered == 0
    requires s.readPos >= 0.0 && !s.phase.Running? && s.latestEnd < U64_MAX
    ensures var (t, rendering) := Callback(c, s, q);
      rendering.Rendered? ==>
        Level(t) == if t.metrics.resyncs == s.metrics.resyncs then c.fixedDelayFrames else 0
  {
    hide Pull, PlanOf, ReadPosition, ReadFrame, TrimToBudget;
    TrimForward(c, s, 0);
    var trimmed := TrimToBudget(c, s, 0);
    if Pull(c, trimmed, q).1.Rendered? {
      RenderedDepth(c, trimmed, q);
      StartupPlan(c, trimmed, q);
      StartupLeaves(c, trimmed, q);
    }
  }

  /**
    A start over solid data is a steady buffer without any depth error: from then on, rounds that
    bring what they play go on for ever without a gap.
   */
  lemma StartupIsSteady(c: Config, s: State, q: Request, stream: u64, maxFrames: nat)
    requires EqualRates(c, q) && !c.clockSync && q.playoutBuffered == 0
    requires Inv(c, s) && !s.phase.Running? && s.streamId == Some(stream) && s.latestEnd < U64_MAX
    requires SolidStore(s.packets, s.readPos.Floor, s.latestEnd, c.channels, maxFrames)
    requires c.fixedDelayFrames + c.HardTrimTolerance() + 1 + maxFrames <= c.CapacityFrames()
    ensures var (t, rendering) := Callback(c, s, q);
      rendering.Rendered? ==>
        && Steady(c, t, q, true, stream, maxFrames) && PendingError(c, t, q) == 0
        && t.latestEnd == s.latestEnd && t.metrics == s.metrics
  {
    hide Pull, PlanOf, ReadPosition, ReadFrame, TrimToBudget, SolidStore, WellFormedStore, Readable;
    hide StoreInv, Accounted;
    StartupWindow(c, s, q);
    StartsInside(c, s);
    TrimForward(c, s, 0);
    var trimmed := TrimToBudget(c, s, 0);
    if Pull(c, trimmed, q).1.Rendered? {
      RenderedDepth(c, trimmed, q);
      StartupPlan(c, trimmed, q);
      StartupLeaves(c, trimmed, q);
      EqualRatesNeed(c, q);
      SolidStoreFrom(s.packets, s.readPos.Floor, trimmed.readPos.Floor, s.latestEnd, c.channels, maxFrames);
      SolidReadable(s.packets, trimmed.readPos.Floor, s.latestEnd, c.channels, maxFrames);
      NoGapWhenDataIsThere(c, trimmed, q);
      var plan := PlanOf(c, trimmed, q).value;
      StartupForward(c, q, plan);
      SolidStorePruned(s.packets, s.readPos.Floor, s.latestEnd, c.channels, maxFrames, Pull(c, trimmed, q).0.readPos);
      StartedIsSteady(c, Pull(c, trimmed, q).0, q, stream, maxFrames);
    }
  }

  lemma StartsInside(c: Config, s: State)
    requires Inv(c, s)
    ensures s.readPos >= 0.0
  {
  }

  lemma SolidStoreFrom(packets: Store, from: int, later: int, latest: nat, channels: nat, maxFrames: nat)
    requires SolidStore(packets, from, latest, channels, maxFrames) && from <= later
    ensures SolidStore(packets, later, latest, channels, maxFrames)
  {
  }

  lemma StartupForward(c: Config, q: Request, plan: Plan)
    requires EqualRates(c, q) && plan.ratio == EffectiveRatio(DeviceRatio(c, q), Correction(0))
    requires plan.state.readPos >= 0.0
    ensures plan.state.readPos <= ReadPosition(plan.state.readPos, plan.ratio, q.frames)
  {
    EqualRatesNeed(c, q);
    TravelBounds(c, q, 0);
    RenderForward(plan.state, c.channels, plan.ratio, q.frames);
    RenderAdvance(plan.state, c.channels, plan.ratio, q.frames);
  }

  lemma StartedIsSteady(c: Config, t: State, q: Request, stream: u64, maxFrames: nat)
    requires EqualRates(c, q) && !c.clockSync && q.playoutBuffered == 0 && q.frames <= c.HardTrimTolerance()
    requires Solid(c, t, stream, maxFrames) && Level(t) == c.fixedDelayFrames && t.latestEnd < U64_MAX
    requires c.fixedDelayFrames + q.frames < U64_MAX
    requires c.fixedDelayFrames + c.HardTrimTolerance() + 1 + maxFrames <= c.CapacityFrames()
    ensures Steady(c, t, q, true, stream, maxFrames) && PendingError(c, t, q) == 0
  {
    hide SolidStore;
    EqualRatesNeed(c, q);
  }

  // ----- from nothing to a steady run

  /** A buffer being filled in order from a first position, before playback starts. */
  ghost predicate Filling(c: Config, s: State, stream: u64, from: nat, maxFrames: nat) {
    && s.phase.Priming? && s.streamId == Some(stream) && s.readPos == from as real && from <= s.latestEnd
    && s.metrics.gaps == NO_METRICS.gaps && s.metrics.resyncs == NO_METRICS.resyncs
    && SolidStore(s.packets, from, s.latestEnd, c.channels, maxFrames)
  }

  lemma SolidStoreOne(k: nat, frames: PacketFrames, channels: nat, maxFrames: nat, capacity: nat)
    requires 0 < frames.frameCount <= maxFrames <= capacity && frames.WellFormed(channels)
    ensures var end := k + frames.frameCount;
      SolidStore(Evict(map[k := frames], end, capacity), k, end, channels, maxFrames)
  {
    var kept := Evict(map[k := frames], k + frames.frameCount, capacity);
    forall pos: nat | k <= pos < k + frames.frameCount
      ensures Covered(kept, pos)
    {
      assert Covers(kept, k, pos);
    }
  }

  lemma FirstFills(c: Config, p: AudioPacket, arrival: real, stream: u64, maxFrames: nat)
    requires c.Valid() && NextInOrder(c, stream, p.header.samplePosition, maxFrames, p)
    requires maxFrames <= c.CapacityFrames()
    ensures var t := Insert(c, INITIAL, p, arrival).0;
      Filling(c, t, stream, p.header.samplePosition, maxFrames) && t.latestEnd == p.EndPosition()
  {
    hide SolidStore;
    var frames := PacketFrames(p.payload, p.header.frames);
    SolidStoreOne(p.header.samplePosition, frames, c.channels, maxFrames, c.CapacityFrames());
    FirstInsert(c, p, arrival);
  }

  lemma InsertFills(c: Config, s: State, p: AudioPacket, arrival: real, stream: u64, from: nat, maxFrames: nat)
    requires c.Valid() && Filling(c, s, stream, from, maxFrames)
    requires NextInOrder(c, stream, s.latestEnd, maxFrames, p)
    requires p.EndPosition() - from + maxFrames <= c.CapacityFrames()
    ensures var t := Insert(c, s, p, arrival).0;
      Filling(c, t, stream, from, maxFrames) && t.latestEnd == p.EndPosition()
  {
    hide Insert, Evict;
    InOrderAccepted(c, s, p, arrival, stream, maxFrames);
    SolidStoreGrows(s.packets, from, s.latestEnd, c.channels, maxFrames, PacketFrames(p.payload, p.header.frames),
                    c.CapacityFrames());
  }

  lemma {:induction false} FeedFills(c: Config, s: State, feed: seq<Arrival>, stream: u64, from: nat, maxFrames: nat)
    decreases |feed|
    requires c.Valid() && Filling(c, s, stream, from, maxFrames)
    requires InOrder(c, stream, s.latestEnd, maxFrames, feed)
    requires s.latestEnd + FrameCount(feed) - from + maxFrames <= c.CapacityFrames()
    ensures var t := InsertAll(c, s, feed);
      Filling(c, t, stream, from, maxFrames) && t.latestEnd == s.latestEnd + FrameCount(feed)
  {
    hide Filling, Insert;
    if feed != [] {
      InsertFills(c, s, feed[0].packet, feed[0].time, stream, from, maxFrames);
      FeedFills(c, Insert(c, s, feed[0].packet, feed[0].time).0, feed[1..], stream, from, maxFrames);
    }
  }

  lemma {:induction false} InsertAllKeeps(c: Config, s: State, feed: seq<Arrival>)
    decreases |feed|
    requires c.Valid() && Inv(c, s)
    ensures Inv(c, InsertAll(c, s, feed))
  {
    hide Inv, Insert;
    if feed != [] {
      InsertKeeps(c, s, feed[0].packet, feed[0].time);
      InsertAllKeeps(c, Insert(c, s, feed[0].packet, feed[0].time).0, feed[1..]);
    }
  }

  /** In-order packets into a fresh buffer: it is primed with all of them. */
  lemma ColdFill(c: Config, feed: seq<Arrival>, stream: u64, from: nat, maxFrames: nat)
    requires c.Valid() && feed != [] && InOrder(c, stream, from, maxFrames, feed)
    requires FrameCount(feed) + maxFrames <= c.CapacityFrames()
    ensures var s := InsertAll(c, INITIAL, feed);
      Inv(c, s) && Filling(c, s, stream, from, maxFrames) && s.latestEnd == from + FrameCount(feed)
  {
    hide Filling, Insert, Inv;
    RunKeeps(c, []);
    assert Run(c, INITIAL, []) == INITIAL;
    InsertAllKeeps(c, INITIAL, feed);
    FirstFills(c, feed[0].packet, feed[0].time, stream, maxFrames);
    FeedFills(c, Insert(c, INITIAL, feed[0].packet, feed[0].time).0, feed[1..], stream, from, maxFrames);
  }

  /**
    Cold start: a fresh buffer that is fed, in order, anything between the fixed delay plus one
    callback and the fixed delay plus the tolerance starts at the next callback, without a gap,
    and is steady from then on.
   */
  lemma ColdStart(c: Config, feed: seq<Arrival>, q: Request, stream: u64, from: nat, maxFrames: nat)
    requires EqualRates(c, q) && !c.clockSync && q.playoutBuffered == 0
    requires feed != [] && InOrder(c, stream, from, maxFrames, feed) && from + FrameCount(feed) < U64_MAX
    requires c.fixedDelayFrames + q.frames <= FrameCount(feed) <= c.fixedDelayFrames + c.HardTrimTolerance()
    requires c.fixedDelayFrames + c.HardTrimTolerance() + 1 + maxFrames <= c.CapacityFrames()
    ensures var (t, rendering) := Callback(c, InsertAll(c, INITIAL, feed), q);
      && rendering.Rendered?
      && Steady(c, t, q, true, stream, maxFrames) && PendingError(c, t, q) == 0
      && t.latestEnd == from + FrameCount(feed)
      && t.metrics.gaps == NO_METRICS.gaps && t.metrics.resyncs == NO_METRICS.resyncs
  {
    hide Callback, Steady, SolidStore, Inv, InsertAll;
    ColdFill(c, feed, stream, from, maxFrames);
    var s := InsertAll(c, INITIAL, feed);
    EqualRatesNeed(c, q);
    WholeLevel(s, from);
    StartupWindow(c, s, q);
    StartupIsSteady(c, s, q, stream, maxFrames);
  }

  lemma WholeLevel(s: State, from: nat)
    requires s.readPos == from as real && from <= s.latestEnd
    ensures Level(s) == s.latestEnd - from
  {
  }

  /**
    The tolerance condition is needed: a callback that finds a deeper buffer trims away the very
    frames it is about to play, and the error it then corrects is the negated frame count.
   */
  lemma CallbackTrimsWhatItPlays(c: Config, s: State, q: Request)
    requires EqualRates(c, q) && q.playoutBuffered == 0
    requires s.readPos >= 0.0 && s.phase.Running? && s.streamId.Some? && s.latestEnd < U64_MAX
    ensures Required(c, q) < U64_MAX ==>
      Error(c, TrimToBudget(c, s, 0), q) ==
        if Error(c, s, q) + q.frames > c.HardTrimTolerance() then -(q.frames as int) else Error(c, s, q)
  {
    EqualRatesNeed(c, q);
    BudgetTrimExact(c, s, 0);
  }
}
