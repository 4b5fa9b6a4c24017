/**
  How the receiver turns its command line into buffer sizes (`receiver/src/main.rs`), and that
  the capacity it picks is large enough for the buffer's control loop.
 */
module ReceiverTiming {
  import opened Wrappers
  import opened Numbers
  import opened Audio
  import opened JitterSpec
  import opened JitterControl
  import opened JitterInvariants
  import opened JitterSteady
  import opened JitterExact
  import opened Fidelity

  const FIXED_LATENCY_MIN_CAPACITY_MS: u32 := 600
  const DEFAULT_FIXED_DELAY_FRAMES: u64 := 14_400

  /** The product of two 32-bit numbers fits into 64 bits. */
  lemma ProductFits(ms: u32, rate: u32)
    ensures 0 <= rate * ms / 1000 < U64_LIMIT
  {
    ProductBound(ms, rate);
    ThousandthFits(rate * ms);
  }

  lemma ProductBound(a: u32, b: u32)
    ensures 0 <= b * a <= U32_MAX * U32_MAX
  {
    MulMonotoneInt(a, U32_MAX, b);
    MulMonotoneInt(b, U32_MAX, U32_MAX);
  }

  lemma ThousandthFits(x: nat)
    requires x <= U32_MAX * U32_MAX
    ensures 0 <= x / 1000 < U64_LIMIT
  {
  }

  function MsToFrames(ms: u32, rate: u32): u64 {
    ProductFits(ms, rate);
    rate * ms / 1000
  }

  function FramesToMsCeil(frames: u64, rate: u32): u32 {
    var r: nat := Max(rate, 1);
    Min(SatAdd(SatMul(frames, 1000), r - 1) / r, U32_MAX)
  }

  function FixedDelayCapacityMs(fixedDelayFrames: u64, rate: u32): u32 {
    Max(Min(FramesToMsCeil(fixedDelayFrames, rate) * 3, U32_MAX), FIXED_LATENCY_MIN_CAPACITY_MS)
  }

  // ----- the conversions

  /** `m` milliseconds at `rate` cover some frames exactly when their product covers a thousand times as many. */
  lemma CoversIff(m: nat, rate: nat, frames: nat)
    ensures m * rate / 1000 >= frames <==> m * rate >= frames * 1000
  {
  }

  /** Rounding a quotient up gives the least multiplier that reaches the dividend. */
  lemma CeilIsLeast(x: nat, d: nat, m: nat)
    requires d > 0
    ensures m >= (x + d - 1) / d <==> m * d >= x
  {
    CeilDivBounds(x, d);
    var ceil := (x + d - 1) / d;
    if m >= ceil {
      MulMonotoneInt(ceil, m, d);
    } else {
      MulMonotoneInt(m, ceil - 1, d);
      assert (ceil - 1) * d == ceil * d - d;
    }
  }

  /** Where the 64-bit product or sum saturates, no count of milliseconds below the 32-bit maximum is enough. */
  lemma SaturatedCeil(frames: u64, rate: u32, m: nat)
    requires 0 < rate && m < U32_MAX && frames * 1000 + rate - 1 > U64_MAX
    ensures FramesToMsCeil(frames, rate) == U32_MAX && m * rate < frames * 1000
  {
    assert SatAdd(SatMul(frames, 1000), rate - 1) == U64_MAX;
    DivAtLeast(U64_MAX, U32_MAX, rate) by {
      MulMonotoneInt(rate, U32_MAX, U32_MAX);
    }
    MulMonotoneInt(m, U32_MAX - 1, rate);
    MulMonotoneInt(rate, U32_MAX, U32_MAX - 1);
  }

  /**
    `frames_to_ms_ceil` is the upper adjoint of `ms_to_frames`: a count of milliseconds covers the
    frames exactly when it is at least the rounded-up conversion. For the largest 32-bit count,
    where the conversion saturates, that holds exactly when the count covers the frames.
   */
  lemma CeilCovers(frames: u64, rate: u32, m: u32)
    requires 0 < rate
    ensures (MsToFrames(m, rate) >= frames <==> m >= FramesToMsCeil(frames, rate))
       <==> m < U32_MAX || MsToFrames(U32_MAX, rate) >= frames
  {
    CoversIff(m, rate, frames);
    assert rate * m == m * rate;
    if m < U32_MAX {
      if frames * 1000 + rate - 1 > U64_MAX {
        SaturatedCeil(frames, rate, m);
      } else {
        CeilIsLeast(frames * 1000, rate, m);
      }
    }
  }

  /** Milliseconds through frames and back never grow. */
  lemma MsRoundTrip(ms: u32, rate: u32)
    ensures FramesToMsCeil(MsToFrames(ms, rate), rate) <= ms
  {
    if rate > 0 && ms < U32_MAX {
      CeilCovers(MsToFrames(ms, rate), rate, ms);
    }
  }

  /** A thousand milliseconds are one second's frames, and any number of them that many, rounded down. */
  lemma MsIsAThousandth(ms: u32, rate: u32)
    ensures 0 <= ms * rate - 1000 * MsToFrames(ms, rate) < 1000
    ensures MsToFrames(1000, rate) == rate
  {
  }

  // ----- the capacity

  /** A capacity below the largest holds three fixed delays. */
  lemma UnsaturatedCapacity(frames: u64, rate: u32)
    requires 0 < rate && FixedDelayCapacityMs(frames, rate) < U32_MAX
    ensures MsToFrames(FixedDelayCapacityMs(frames, rate), rate) >= 3 * frames
  {
    hide FramesToMsCeil;
    var ms, capacity := FramesToMsCeil(frames, rate), FixedDelayCapacityMs(frames, rate);
    CeilCovers(frames, rate, ms);
    assert ms < U32_MAX;
    CoversIff(ms, rate, frames);
    CoversIff(capacity, rate, 3 * frames);
    MulMonotoneInt(3 * ms, capacity, rate);
    assert 3 * ms * rate == 3 * (ms * rate);
  }

  lemma FramesMonotone(a: u32, b: u32, rate: u32)
    requires a <= b
    ensures MsToFrames(a, rate) <= MsToFrames(b, rate)
  {
    MulMonotoneInt(a, b, rate);
    CoversIff(b, rate, MsToFrames(a, rate));
    CoversIff(a, rate, MsToFrames(a, rate));
  }

  /** The capacity holds three times the fixed delay exactly when the longest capacity there is would. */
  lemma CapacityHoldsThreeDelays(frames: u64, rate: u32)
    requires 0 < rate
    ensures MsToFrames(FixedDelayCapacityMs(frames, rate), rate) >= 3 * frames
       <==> MsToFrames(U32_MAX, rate) >= 3 * frames
  {
    hide FixedDelayCapacityMs, MsToFrames;
    FramesMonotone(FixedDelayCapacityMs(frames, rate), U32_MAX, rate);
    if FixedDelayCapacityMs(frames, rate) < U32_MAX {
      UnsaturatedCapacity(frames, rate);
    }
  }

  // ----- the configuration

  datatype TimingArgs = TimingArgs(
    sampleRate: u32,
    channels: u16,
    fixedDelayFrames: Option<u64>,
    fixedLatencyMs: Option<u32>,
    clockSync: bool)

  datatype TimingError = Combined | UnsupportedRate | UnsupportedChannels | NoDelay | NoTarget

  datatype Timing = Timing(capacityMs: u32, targetBufferMs: u32, fixedDelayFrames: u64)

  function FromArgs(args: TimingArgs): Result<Timing, TimingError> {
    if args.fixedDelayFrames.Some? && args.fixedLatencyMs.Some? then Err(Combined)
    else
      var frames: u64 :=
        if args.fixedDelayFrames.Some? then args.fixedDelayFrames.value
        else if args.fixedLatencyMs.Some? then
          MsToFrames(args.fixedLatencyMs.value, args.sampleRate)
        else DEFAULT_FIXED_DELAY_FRAMES;
      Ok(Timing(FixedDelayCapacityMs(frames, args.sampleRate), FramesToMsCeil(frames, args.sampleRate), frames))
  }

  /** `from_args` and the start-up checks, and the buffer configuration they lead to. */
  function Configured(args: TimingArgs): Result<Config, TimingError> {
    match FromArgs(args)
    case Err(e) => Err(e)
    case Ok(timing) =>
      if args.sampleRate != SAMPLE_RATE then Err(UnsupportedRate)
      else if args.channels != CHANNELS then Err(UnsupportedChannels)
      else if timing.fixedDelayFrames == 0 then Err(NoDelay)
      else if timing.targetBufferMs == 0 then Err(NoTarget)
      else Ok(Config(args.sampleRate, args.channels, timing.capacityMs, timing.fixedDelayFrames, args.clockSync))
  }

  /** The frames a user asks for: the number given, the milliseconds given, or the default of 300 ms. */
  function AskedFor(args: TimingArgs): u64 {
    match (args.fixedDelayFrames, args.fixedLatencyMs)
    case (Some(frames), _) => frames
    case (None, Some(ms)) => 48 * (ms as int)
    case (None, None) => 14_400
  }

  lemma FramesAskedFor(args: TimingArgs)
    requires args.sampleRate == 48_000 && FromArgs(args).Ok?
    ensures FromArgs(args).value.fixedDelayFrames == AskedFor(args)
  {
    hide FixedDelayCapacityMs, FramesToMsCeil;
    if args.fixedDelayFrames.None? && args.fixedLatencyMs.Some? {
      MsIsAThousandth(args.fixedLatencyMs.value, args.sampleRate);
    }
  }

  /**
    The receiver starts exactly for stereo at 48000 Hz, a delay that is not zero and is given in
    one way at most; it then keeps that many frames, and three times as many milliseconds as they
    last, rounded up, but 600 at least.
   */
  lemma ConfiguredIff(args: TimingArgs)
    ensures Configured(args).Ok? <==>
      && args.sampleRate == 48_000 && args.channels == 2
      && !(args.fixedDelayFrames.Some? && args.fixedLatencyMs.Some?) && AskedFor(args) > 0
    ensures Configured(args).Ok? ==>
      var c, ms := Configured(args).value, FramesToMsCeil(AskedFor(args), 48_000);
      && c.sampleRate == 48_000 && c.channels == 2 && c.clockSync == args.clockSync
      && c.fixedDelayFrames == AskedFor(args)
      && c.capacityMs == Max(600, Min(3 * ms, U32_MAX))
  {
    hide FramesToMsCeil, MsToFrames;
    if FromArgs(args).Ok? && args.sampleRate == SAMPLE_RATE {
      FramesAskedFor(args);
      PositiveTakesTime(FromArgs(args).value.fixedDelayFrames);
    }
  }

  lemma PositiveTakesTime(frames: u64)
    ensures frames > 0 ==> FramesToMsCeil(frames, SAMPLE_RATE) > 0
  {
    if FramesToMsCeil(frames, SAMPLE_RATE) == 0 {
      CeilCovers(frames, SAMPLE_RATE, 0);
    }
  }

  /** Without any option: 14400 frames, which are 300 ms, in a buffer of 900. */
  lemma DefaultTiming(args: TimingArgs)
    requires args.sampleRate == 48_000 && args.fixedDelayFrames.None? && args.fixedLatencyMs.None?
    ensures FromArgs(args) == Ok(Timing(900, 300, 14_400))
  {
  }

  /** Room for the fixed delay, the trim tolerance and a third of a second more. */
  predicate HasRoom(c: Config, capacityFrames: nat) {
    c.fixedDelayFrames + c.HardTrimTolerance() + 16_800 <= capacityFrames
  }

  lemma SmallParts(c: Config)
    requires c.sampleRate == SAMPLE_RATE && c.CapacityFrames() >= 28_800 && c.CapacityFrames() >= 3 * c.fixedDelayFrames
    ensures HasRoom(c, c.CapacityFrames())
  {
  }

  /**
    The configured buffer has that room exactly when the longest capacity there is would: for
    every fixed delay but those of over seven weeks.
   */
  lemma ConfiguredRoom(args: TimingArgs)
    requires Configured(args).Ok?
    ensures var c := Configured(args).value;
      c.Valid() && (HasRoom(c, c.CapacityFrames()) <==> HasRoom(c, MsToFrames(U32_MAX, SAMPLE_RATE)))
  {
    hide FramesToMsCeil, HasRoom;
    var c := Configured(args).value;
    FramesMonotone(c.capacityMs, U32_MAX, SAMPLE_RATE);
    FramesMonotone(FIXED_LATENCY_MIN_CAPACITY_MS, c.capacityMs, SAMPLE_RATE);
    if c.capacityMs < U32_MAX {
      UnsaturatedCapacity(c.fixedDelayFrames, SAMPLE_RATE);
      SmallParts(c);
    }
    RoomMonotone(c, c.CapacityFrames(), MsToFrames(U32_MAX, SAMPLE_RATE));
  }

  lemma RoomMonotone(c: Config, a: nat, b: nat)
    requires a <= b
    ensures HasRoom(c, a) ==> HasRoom(c, b)
  {
  }

  /** A configuration whose fixed delay the longest capacity has room for. */
  predicate Reasonable(args: TimingArgs) {
    Configured(args).Ok? && HasRoom(Configured(args).value, MsToFrames(U32_MAX, SAMPLE_RATE))
  }

  /** The sizes a steady run of the callback asks for hold for the configured receiver as they are. */
  lemma ConfiguredSteady(args: TimingArgs, s: State, q: Request, stream: u64, maxFrames: nat)
    requires Reasonable(args)
    requires var c := Configured(args).value;
      && EqualRates(c, q) && !c.clockSync && Solid(c, s, stream, maxFrames)
      && TrimsHarmlessly(c, q, true, PendingError(c, s, q))
    requires maxFrames < 16_800
    ensures Steady(Configured(args).value, s, q, true, stream, maxFrames)
  {
    hide Solid, Configured;
    ConfiguredRoom(args);
  }

  /**
    From the command line to endless playback: the configured receiver, fed in order to within its
    start-up window and then with what each callback plays, starts at once and never has a gap or
    a resync, and every callback leaves exactly the fixed delay.
   */
  lemma ConfiguredPlaysOn(args: TimingArgs, q: Request, stream: u64, from: nat, maxFrames: nat, feed: seq<Arrival>,
                          feeds: seq<seq<Arrival>>)
    requires Reasonable(args)
    requires maxFrames < 16_800
    requires var c := Configured(args).value;
      && EqualRates(c, q) && !c.clockSync && q.playoutBuffered == 0
      && feed != [] && InOrder(c, stream, from, maxFrames, feed) && from + FrameCount(feed) < U64_MAX
      && c.fixedDelayFrames + q.frames <= FrameCount(feed) <= c.fixedDelayFrames + c.HardTrimTolerance()
      && SteadyFeeds(c, stream, from + FrameCount(feed), maxFrames, q.frames, feeds)
    ensures var c := Configured(args).value;
      var started := Callback(c, InsertAll(c, INITIAL, feed), q);
      var t := Rounds(Callbacks(c, q, true), started.0, feeds);
      && started.1.Rendered? && t.phase.Running? && Level(t) == c.fixedDelayFrames
      && t.metrics.gaps == NO_METRICS.gaps && t.metrics.resyncs == NO_METRICS.resyncs
  {
    hide Configured, Callback, Callbacks, Rounds, SteadyFeeds, InOrder, InsertAll, Steady, PendingError;
    ConfiguredRoom(args);
    var c := Configured(args).value;
    ColdStart(c, feed, q, stream, from, maxFrames);
    var started := Callback(c, InsertAll(c, INITIAL, feed), q).0;
    SteadyRun(c, started, feeds, q, true, stream, maxFrames);
    NoErrorIsFixedDelay(c, Rounds(Callbacks(c, q, true), started, feeds), q, stream, maxFrames);
  }

  lemma NoErrorIsFixedDelay(c: Config, t: State, q: Request, stream: u64, maxFrames: nat)
    requires Steady(c, t, q, true, stream, maxFrames) && PendingError(c, t, q) == 0 && q.playoutBuffered == 0
    requires c.fixedDelayFrames + q.frames < U64_MAX
    ensures t.phase.Running? && Level(t) == c.fixedDelayFrames
  {
    hide SolidStore;
    EqualRatesNeed(c, q);
  }

  lemma ConfiguredStereo(args: TimingArgs)
    requires Configured(args).Ok?
    ensures Configured(args).value.channels == CHANNELS
  {
  }

  lemma StartsPure(sent: Sent)
    ensures Pure(INITIAL, sent)
  {
  }

  lemma ColdPure(c: Config, sent: Sent, feed: seq<Arrival>)
    requires c.Valid() && FeedSent(sent, feed)
    ensures Pure(InsertAll(c, INITIAL, feed), sent)
  {
    hide Pure, Inv, InsertAll;
    RunKeeps(c, []);
    assert Run(c, INITIAL, []) == INITIAL;
    StartsPure(sent);
    InsertAllPure(c, INITIAL, sent, feed);
  }

  lemma FirstIsSent(c: Config, sent: Sent, feed: seq<Arrival>, stream: u64, from: nat, maxFrames: nat)
    requires feed != [] && InOrder(c, stream, from, maxFrames, feed) && FeedSent(sent, feed)
    ensures stream in sent
  {
    assert feed[0] in feed;
  }

  /**
    Exact endless playback: the receiver configured with that room, fed as above with packets
    that were sent, plays at its first callback the stream's frames from the fixed delay and one
    callback before the newest end, and at each later callback exactly the frames that come next.
   */
  lemma ConfiguredPlaysExactly(args: TimingArgs, q: Request, stream: u64, from: nat, maxFrames: nat,
                               feed: seq<Arrival>, feeds: seq<seq<Arrival>>, next: seq<Arrival>, sent: Sent)
    requires Reasonable(args) && maxFrames < 16_800
    requires SentInStreams(sent) && FeedSent(sent, feed) && FeedsSent(sent, feeds) && FeedSent(sent, next)
    requires var c := Configured(args).value;
      && EqualRates(c, q) && !c.clockSync && q.playoutBuffered == 0
      && feed != [] && InOrder(c, stream, from, maxFrames, feed)
      && c.fixedDelayFrames + q.frames <= FrameCount(feed) <= c.fixedDelayFrames + c.HardTrimTolerance()
      && SteadyFeeds(c, stream, from + FrameCount(feed), maxFrames, q.frames, feeds)
      && InOrder(c, stream, from + FrameCount(feed) + Offset(|feeds|, q.frames), maxFrames, next)
      && FrameCount(next) == q.frames
      && from + FrameCount(feed) + Offset(|feeds|, q.frames) + q.frames < U64_MAX
    ensures var c := Configured(args).value;
      var started := Callback(c, InsertAll(c, INITIAL, feed), q);
      var later := Rounds(Callbacks(c, q, true), started.0, feeds);
      var first: nat := from + FrameCount(feed) - c.fixedDelayFrames - q.frames;
      && stream in sent
      && PlaysFrom(started.1, sent[stream], q.frames, first)
      && PlaysFrom(Heard(c, later, next, q, true), sent[stream], q.frames,
                   first + q.frames + Offset(|feeds|, q.frames))
  {
    hide Configured, Callback, Callbacks, Rounds, SteadyFeeds, InOrder, InsertAll, Steady, PendingError, OnTime, Heard;
    hide PlaysFrom, FeedSent, FeedsSent, SentInStreams, Pure, Inv, HasRoom;
    var c := Configured(args).value;
    ConfiguredRoom(args);
    ConfiguredStereo(args);
    RoomIs(c);
    FirstIsSent(c, sent, feed, stream, from, maxFrames);
    ColdFill(c, feed, stream, from, maxFrames);
    ColdStart(c, feed, q, stream, from, maxFrames);
    ColdPure(c, sent, feed);
    var s := InsertAll(c, INITIAL, feed);
    StartupOnTime(c, s, q, stream, maxFrames, sent);
    var started := Callback(c, s, q).0;
    SteadyRunPlays(c, started, feeds, next, q, true, stream, maxFrames, sent);
  }

  lemma RoomIs(c: Config)
    requires HasRoom(c, c.CapacityFrames())
    ensures c.fixedDelayFrames + c.HardTrimTolerance() + 16_800 <= c.CapacityFrames()
  {
  }
}
