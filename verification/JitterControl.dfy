/**
  The depth control loop: trims are exact, renderings stay inside the data, depth stays bounded
  and start-up happens in a window. Arithmetic is over exact reals.
 */
module JitterControl {
  import opened Numbers
  import opened JitterSpec
  import opened JitterRender
  import opened JitterInvariants

  /** Source frames per pull up to which a full correction cannot overshoot the depth error. */
  const MAX_RENDER: nat := 250_000

  // ----- the depth and its correction

  /** The depth counts from the read position's whole frame, and to a millionth below the next it is the next. */
  lemma LevelCountsFrames(s: State, k: nat)
    requires k as real <= s.readPos + 0.000001 < k as real + 1.0
    ensures Level(s) == Max(s.latestEnd - k, 0)
  {
  }

  /** Four parts per million for each frame too many or too few, two thousand at most. */
  lemma CorrectionIsProportional(error: int)
    ensures -500 <= error <= 500 ==> Correction(error) == 4.0 * error as real
    ensures error > 500 ==> Correction(error) == 2000.0
    ensures error < -500 ==> Correction(error) == -2000.0
  {
  }

  /** The depth a pull of so many frames wants to find: the delay not in the playout ring, and what it renders. */
  function Wanted(c: Config, q: Request): nat {
    Min(Max(c.fixedDelayFrames - q.playoutBuffered, 0) + Need(c, q), U64_MAX)
  }

  /** A buffer that is not running starts at the wanted depth, or where it stands if that is further, uncorrected. */
  lemma StartingPlan(c: Config, s: State, q: Request)
    requires c.Valid() && !s.phase.Running? && (!c.clockSync || q.playoutTime.None?) && Wanted(c, q) <= Level(s)
    ensures PlanOf(c, s, q).Some? && Wanted(c, q) <= s.latestEnd
    ensures var (plan, start) := (PlanOf(c, s, q).value, (s.latestEnd - Wanted(c, q)) as real);
      && plan.ratio == DeviceRatio(c, q)
      && plan.state == s.(phase := Running,
                          readPos := if s.readPos < start then start else s.readPos,
                          missing := if s.readPos < start then 0 else s.missing)
  {
    hide SourceFrames;
  }

  /**
    A running buffer is left where it stands, and played faster or slower by four parts per million
    for each frame of error, unless it is too deep by more than the tolerance: then it jumps.
   */
  lemma RunningPlan(c: Config, s: State, q: Request)
    requires c.Valid() && s.phase.Running? && (!c.clockSync || q.playoutTime.None?) && Need(c, q) <= Level(s)
    ensures PlanOf(c, s, q).Some?
    ensures var (plan, error) := (PlanOf(c, s, q).value, Level(s) - Wanted(c, q));
      if error <= c.HardTrimTolerance() then
        && plan.state == s
        && plan.ratio == DeviceRatio(c, q) * (1.0 + Clamp(4.0 * error as real, -2000.0, 2000.0) / 1000000.0)
      else
        && Wanted(c, q) <= s.latestEnd
        && var start := (s.latestEnd - Wanted(c, q)) as real;
           && plan.ratio == DeviceRatio(c, q)
           && plan.state == s.(readPos := if s.readPos < start then start else s.readPos,
                               missing := if s.readPos < start then 0 else s.missing)
  {
    hide SourceFrames, Clamp, DeviceRatio;
    assert Wanted(c, q) == Required(c, q);
    CorrectionAsProduct(Level(s) - Wanted(c, q));
  }

  lemma CorrectionAsProduct(error: int)
    ensures Correction(error) == Clamp(4.0 * error as real, -2000.0, 2000.0)
  {
  }

  // ----- trims

  /**
    A trim leaves exactly the requested depth, fractional read position and rounding
    notwithstanding, or the old depth where that is already smaller.
   */
  lemma TrimExact(s: State, depth: nat)
    requires s.readPos >= 0.0 && depth <= s.latestEnd
    ensures var t := TrimTo(s, depth);
      && Level(t) == Min(Level(s), depth)
      && t.readPos == (if s.readPos < (s.latestEnd - depth) as real then (s.latestEnd - depth) as real else s.readPos)
      && t == s.(readPos := t.readPos, missing := if s.readPos < t.readPos then 0 else s.missing)
  {
  }

  /** The budget trim leaves the budget exactly, and acts only beyond the tolerance. */
  lemma BudgetTrimExact(c: Config, s: State, playoutBuffered: u64)
    requires s.readPos >= 0.0
    ensures var desired := SatSub(c.fixedDelayFrames, playoutBuffered);
      Level(TrimToBudget(c, s, playoutBuffered)) ==
        if s.streamId.Some? && s.phase != NotStarted && Level(s) > SatAdd(desired, c.HardTrimTolerance())
        then Min(Level(s), desired) else Level(s)
  {
    var desired := SatSub(c.fixedDelayFrames, playoutBuffered);
    if Level(s) > SatAdd(desired, c.HardTrimTolerance()) && desired <= s.latestEnd {
      TrimExact(s, desired);
    }
  }

  /** A clock jump leaves at least two frames to read. */
  lemma SyncLeavesTwo(c: Config, s: State, time: real, playoutBuffered: nat, need: nat)
    requires s.readPos >= 0.0
    ensures var t := SyncToClock(c, s, time, playoutBuffered, need);
      t == s || Level(t) >= 2
  {
  }

  // ----- the size of a rendering

  /** The sum the source divides stays below 64 bits. */
  predicate Unsaturated(n: nat, source: nat, out: nat) {
    n * source + out - 1 <= U64_MAX
  }

  /** Unless its 64-bit arithmetic saturates, the need is the exact quotient rounded up. */
  lemma NeedRoundsUp(c: Config, q: Request)
    requires c.Valid() && Unsaturated(q.frames, c.sampleRate, OutputRate(q))
    ensures var x := Travel(DeviceRatio(c, q), q.frames);
      x <= Need(c, q) as real < x + 1.0
    ensures DeviceRatio(c, q) == c.sampleRate as real / (if q.outputRate == 0 then 1 else q.outputRate) as real
  {
    SourceFramesBounds(q.frames, c.sampleRate, OutputRate(q));
    TravelIsProduct(DeviceRatio(c, q), q.frames);
  }

  /** A need within the limit is such a one. */
  lemma NeedBounds(c: Config, q: Request)
    requires c.Valid() && Need(c, q) <= MAX_RENDER
    ensures var x := Travel(DeviceRatio(c, q), q.frames);
      x <= Need(c, q) as real < x + 1.0
  {
    SaturatedQuotient(OutputRate(q));
    NeedRoundsUp(c, q);
  }

  lemma SourceFramesBounds(n: nat, source: u32, out: nat)
    requires 0 < source && 0 < out < U32_LIMIT && Unsaturated(n, source, out)
    ensures var x := n as real * (source as real / out as real);
      x <= SourceFrames(n, source, out) as real < x + 1.0
  {
    var need := SourceFrames(n, source, out);
    var x: nat := n * source;
    assert need == (x + out - 1) / out;
    CeilDivBounds(x, out);
    QuotientBounds(x, need, out);
    assert n as real * (source as real / out as real) == x as real / out as real;
  }

  lemma SaturatedQuotient(out: nat)
    requires 0 < out < U32_LIMIT
    ensures U64_MAX / out > MAX_RENDER
  {
    DivAtLeast(U64_MAX, MAX_RENDER + 1, out);
  }

  lemma DivAtLeast(x: nat, k: nat, d: nat)
    requires d > 0 && k * d <= x
    ensures x / d >= k
  {
    var quotient := x / d;
    assert x < (quotient + 1) * d;
    if quotient + 1 <= k {
      MulMonotoneInt(quotient + 1, k, d);
    }
  }

  lemma QuotientBounds(x: nat, need: nat, out: nat)
    requires 0 < out && x <= need * out < x + out
    ensures x as real / out as real <= need as real < x as real / out as real + 1.0
  {
    var y, o := x as real / out as real, out as real;
    assert y * o == x as real;
    assert (need * out) as real == need as real * o;
    assert (y + 1.0) * o == y * o + o;
    if need as real < y {
      MulStrict(need as real, y, o);
    }
    if need as real >= y + 1.0 {
      MulMonotone(y + 1.0, need as real, o);
    }
  }

  lemma CorrectionScaled(error: nat)
    ensures 0.0 <= Correction(error) / 1000000.0 <= 1.0
    ensures MAX_RENDER as real * (Correction(error) / 1000000.0) <= error as real
  {
  }

  lemma CorrectionIsOdd(error: int)
    ensures Correction(-error) / 1000000.0 == -(Correction(error) / 1000000.0)
  {
  }

  /** The correction for an error moves a rendering of bounded size by no more than the error. */
  lemma {:induction false} CorrectionBounded(x: real, error: int)
    requires 0.0 <= x <= MAX_RENDER as real
    decreases error < 0
    ensures error >= 0 ==> 0.0 <= x * (Correction(error) / 1000000.0) <= error as real
    ensures error <= 0 ==> error as real <= x * (Correction(error) / 1000000.0) <= 0.0
  {
    hide Correction;
    var k := Correction(error) / 1000000.0;
    if error >= 0 {
      CorrectionScaled(error);
      MulMonotone(0.0, k, x);
      MulMonotone(x, MAX_RENDER as real, k);
    } else {
      CorrectionBounded(x, -error);
      CorrectionIsOdd(error);
      MulNegate(x, k);
    }
  }

  /** The limit is sharp: beyond it a correction can move a rendering by more than the error. */
  lemma CorrectionBoundedIff(x: real)
    requires x >= 0.0
    ensures (forall error: nat :: x * (Correction(error) / 1000000.0) <= error as real) <==> x <= MAX_RENDER as real
  {
    hide Correction;
    if x <= MAX_RENDER as real {
      forall error: nat
        ensures x * (Correction(error) / 1000000.0) <= error as real
      {
        CorrectionBounded(x, error);
      }
    } else {
      OneFrameCorrection();
      assert x * (Correction(1) / 1000000.0) > 1.0;
    }
  }

  lemma OneFrameCorrection()
    ensures Correction(1) / 1000000.0 == 0.000004
  {
  }

  /** `n` corrected steps cover the nominal distance, give or take the depth error. */
  lemma CorrectedTravel(n: nat, deviceRatio: real, error: int)
    requires deviceRatio > 0.0 && Travel(deviceRatio, n) <= MAX_RENDER as real
    ensures var (x, y) := (Travel(deviceRatio, n), Travel(EffectiveRatio(deviceRatio, Correction(error)), n));
      && (error >= 0 ==> x <= y <= x + error as real)
      && (error <= 0 ==> x + error as real <= y <= x)
      && y <= x + x
  {
    hide Correction, Travel, EffectiveRatio;
    var x, k := Travel(deviceRatio, n), Correction(error) / 1000000.0;
    TravelCorrected(n, deviceRatio, Correction(error));
    TravelPositive(deviceRatio, n);
    CorrectionBounded(x, error);
    if error >= 0 {
      CorrectionScaled(error);
    } else {
      CorrectionScaled(-error);
      CorrectionIsOdd(error);
    }
    FractionOf(x, k);
  }

  lemma FractionOf(x: real, k: real)
    requires 0.0 <= x && k <= 1.0
    ensures x * k <= x
  {
    MulMonotone(k, 1.0, x);
  }

  lemma TravelCorrected(n: nat, deviceRatio: real, ppm: real)
    ensures Travel(EffectiveRatio(deviceRatio, ppm), n)
         == Travel(deviceRatio, n) + Travel(deviceRatio, n) * (ppm / 1000000.0)
  {
    var m, k := n as real, ppm / 1000000.0;
    TravelIsProduct(deviceRatio, n);
    TravelIsProduct(EffectiveRatio(deviceRatio, ppm), n);
    assert EffectiveRatio(deviceRatio, ppm) == deviceRatio + deviceRatio * k;
    assert m * (deviceRatio * k) == (m * deviceRatio) * k;
  }

  // ----- plans

  /** The depth error a pull corrects. */
  function Error(c: Config, s: State, q: Request): int {
    Level(s) - Required(c, q)
  }

  lemma PreparedLevel(c: Config, s: State, required: nat, need: nat)
    requires s.readPos >= 0.0 && need <= required && Prepare(c, s, required, need).Some?
    ensures var (t, ppm) := Prepare(c, s, required, need).value;
      && need <= Level(t)
      && Level(t) - required <= c.HardTrimTolerance()
      && ppm == Correction(Level(t) - required)
  {
    if required <= s.latestEnd {
      TrimExact(s, required);
    }
  }

  lemma NeedWithinRequired(c: Config, q: Request)
    ensures Need(c, q) <= Required(c, q) <= Desired(c, q) + Need(c, q)
  {
    SourceFramesFit(q.frames, c.sampleRate, OutputRate(q));
  }

  lemma SourceFramesFit(n: nat, source: u32, out: nat)
    requires 0 < out < U32_LIMIT
    ensures SourceFrames(n, source, out) <= U64_MAX
  {
  }

  /** A plan holds what it renders, is at most the tolerance too deep, and corrects exactly the remaining error. */
  lemma PlanLevel(c: Config, s: State, q: Request)
    requires s.readPos >= 0.0 && PlanOf(c, s, q).Some?
    ensures var plan := PlanOf(c, s, q).value;
      && plan.state.readPos >= 0.0
      && Need(c, q) <= Level(plan.state)
      && Error(c, plan.state, q) <= c.HardTrimTolerance()
      && plan.ratio == EffectiveRatio(DeviceRatio(c, q), Correction(Error(c, plan.state, q)))
  {
    var synced := Synced(c, s, q);
    SyncForward(c, s, q.playoutTime, q.playoutBuffered, Need(c, q));
    NeedWithinRequired(c, q);
    PrepareForward(c, synced, Required(c, q), Need(c, q));
    PreparedLevel(c, synced, Required(c, q), Need(c, q));
  }

  // ----- how far a rendering moves

  lemma SnappedMove(readPos: real, n: nat)
    requires readPos >= 0.0 && Abs(readPos - Round(readPos) as real) < 0.000001
    ensures ReadFrame((Round(readPos) + n) as real) == ReadFrame(readPos) + n
  {
    NearWhole(readPos, Round(readPos));
    NearWhole((Round(readPos) + n) as real, Round(readPos) + n);
  }

  lemma NearWhole(readPos: real, k: nat)
    requires k as real - 0.000001 < readPos < k as real + 0.000001
    ensures ReadFrame(readPos) == k
  {
  }

  lemma FractionalMove(readPos: real, x: real)
    requires readPos >= 0.0 && x >= 0.0
    ensures x.Floor <= ReadFrame(readPos + x) - ReadFrame(readPos) <= x.Floor + 1
  {
    FloorShift(readPos + 0.000001, x);
    assert readPos + 0.000001 + x == readPos + x + 0.000001;
  }

  /** The integer path moves by its frame count; the other by the whole part of its travel or one more. */
  lemma ReadFrameMoves(readPos: real, ratio: real, n: nat)
    requires readPos >= 0.0 && ratio > 0.0
    ensures var moved := ReadFrame(ReadPosition(readPos, ratio, n)) - ReadFrame(readPos);
      if UseIntegerPath(readPos, ratio) then moved == n
      else Travel(ratio, n).Floor <= moved <= Travel(ratio, n).Floor + 1
  {
    if UseIntegerPath(readPos, ratio) {
      TravelByOne(n);
      SnappedMove(readPos, n);
    } else {
      TravelPositive(ratio, n);
      FractionalMove(readPos, Travel(ratio, n));
    }
  }

  lemma SmallProduct(x: real, d: real)
    requires 0.0 <= x <= 1000000.0 && d <= 0.000000001
    ensures x * d <= 0.001
  {
    MulMonotone(d, 0.000000001, x);
  }

  /** On the integer path the frame count is the travel to within less than a frame. */
  lemma IntegerPathTravel(n: nat, ratio: real)
    requires Abs(ratio - 1.0) < 0.000000001 && Travel(ratio, n) <= 2.0 * MAX_RENDER as real
    ensures Travel(ratio, n) - 1.0 < n as real < Travel(ratio, n) + 1.0
  {
    var x, d := n as real, ratio - 1.0;
    TravelIsProduct(ratio, n);
    assert x <= 1000000.0 by { MulMonotone(0.5, ratio, x); }
    SmallProduct(x, d);
    SmallProduct(x, -d);
    MulNegate(x, d);
    assert x * ratio == x + x * d;
  }

  /** The travel of a corrected rendering, in terms of its need and the error it corrects. */
  lemma TravelBounds(c: Config, q: Request, error: int)
    requires c.Valid() && Need(c, q) <= MAX_RENDER
    ensures var ratio := EffectiveRatio(DeviceRatio(c, q), Correction(error));
      var x := Travel(ratio, q.frames);
      && ratio > 0.0
      && (Need(c, q) - 1 + Min(error, 0)) as real < x <= (Need(c, q) + Max(error, 0)) as real
      && x <= 2.0 * MAX_RENDER as real
  {
    var n, deviceRatio := q.frames, DeviceRatio(c, q);
    DeviceRatioPositive(c, q);
    RatioPositive(deviceRatio, Correction(error));
    NeedBounds(c, q);
    CorrectedTravel(n, deviceRatio, error);
  }

  /**
    A rendering of at most `MAX_RENDER` source frames moves the read frame by its need, one frame
    short at most, plus some part of the depth error.
   */
  lemma RenderMoves(c: Config, q: Request, readPos: real, error: int)
    requires c.Valid() && Need(c, q) <= MAX_RENDER && readPos >= 0.0
    ensures var ratio := EffectiveRatio(DeviceRatio(c, q), Correction(error));
      ReadFrame(ReadPosition(readPos, ratio, q.frames)) - ReadFrame(readPos)
      >= Need(c, q) - 1 + Min(error, 0)
  {
    var ratio, n := EffectiveRatio(DeviceRatio(c, q), Correction(error)), q.frames;
    TravelBounds(c, q, error);
    ReadFrameMoves(readPos, ratio, n);
    if UseIntegerPath(readPos, ratio) {
      IntegerPathTravel(n, ratio);
    }
  }

  /** What a rendering pull leaves: nothing after a resync, else the plan's data beyond the new read position. */
  lemma RenderedDepth(c: Config, s: State, q: Request)
    requires Pull(c, s, q).1.Rendered?
    ensures c.channels > 0 && q.frames > 0 && PlanOf(c, s, q).Some?
    ensures var plan := PlanOf(c, s, q).value;
      var t := Pull(c, s, q).0;
      var left := SatSub(plan.state.latestEnd,
                         ReadFrame(ReadPosition(plan.state.readPos, plan.ratio, q.frames)));
      Level(t) == if t.metrics.resyncs == s.metrics.resyncs then left else 0
  {
    var plan := PlanOf(c, s, q).value;
    SyncForward(c, s, q.playoutTime, q.playoutBuffered, Need(c, q));
    PrepareForward(c, Synced(c, s, q), Required(c, q), Need(c, q));
    RenderAdvance(plan.state, c.channels, plan.ratio, q.frames);
  }

  /**
    Bounded latency: from any reachable state, a pull that renders at most `MAX_RENDER` source
    frames leaves at most the desired depth, the trim tolerance and one frame.
   */
  lemma LatencyBound(c: Config, s: State, q: Request)
    requires c.Valid() && s.readPos >= 0.0
    requires Need(c, q) <= MAX_RENDER
    ensures Pull(c, s, q).1.Rendered? ==>
      Level(Pull(c, s, q).0) <= Max(c.fixedDelayFrames - q.playoutBuffered, 0) + c.HardTrimTolerance() + 1
  {
    hide Pull;
    if Pull(c, s, q).1.Rendered? {
      RenderedDepth(c, s, q);
      PlanLevel(c, s, q);
      NeedWithinRequired(c, q);
      var plan := PlanOf(c, s, q).value;
      RenderMoves(c, q, plan.state.readPos, Error(c, plan.state, q));
    }
  }
}
