/**
  When data is there, nothing is missing: a pull that passes the depth control at an output rate
  no higher than the source rate renders every frame from stored packets, even while a positive
  correction makes it read faster than real time.
 */
module JitterGaps {
  import opened Wrappers
  import opened Numbers
  import opened PacketStore
  import opened JitterSpec
  import opened JitterRender
  import opened JitterInvariants
  import opened JitterControl

  ghost predicate WellFormedStore(packets: Store, channels: nat) {
    forall k :: k in packets ==> packets[k].WellFormed(channels)
  }

  /** A search finds a packet at every position of a range. */
  ghost predicate Readable(packets: Store, from: int, to: int) {
    forall pos: nat :: from <= pos < to ==> PacketAt(packets, pos).Some?
  }

  /** No packet reaches past a position. */
  ghost predicate EndsBy(packets: Store, latest: int) {
    forall k :: k in packets ==> End(packets, k) <= latest
  }

  /** Over readable data a lookup with any cache finds a frame up to the end, and none beyond it. */
  lemma SampledToTheEnd(packets: Store, channels: nat, from: int, latest: int, pos: nat, cache: Option<nat>)
    requires ValidCache(packets, cache) && WellFormedStore(packets, channels) && channels > 0
    requires Readable(packets, from, latest) && from <= pos
    ensures pos < latest ==> Sampled(packets, channels, pos, cache).0.Some?
    ensures EndsBy(packets, latest) && latest <= pos ==> Sampled(packets, channels, pos, cache).0.None?
  {
    if pos < latest {
      assert PacketAt(packets, pos).Some?;
      var k := PacketAtCached(packets, pos, cache).value;
      SampleFromWellFormed(k, packets[k], channels, pos);
    }
  }

  lemma IntegerStepToTheEnd(packets: Store, channels: nat, from: int, latest: int, first: nat, v: Cursor)
    requires ValidCache(packets, v.cache) && WellFormedStore(packets, channels) && channels > 0
    requires Readable(packets, from, latest) && from <= first + |v.slots|
    ensures var w := IntegerStep(packets, channels, first, v);
      && (first + |v.slots| < latest ==> w.missingInCall == v.missingInCall)
      && (EndsBy(packets, latest) && latest <= first + |v.slots| ==> w.missingInCall == v.missingInCall + 1)
  {
    hide Readable, WellFormedStore, EndsBy;
    SampledToTheEnd(packets, channels, from, latest, first + |v.slots|, v.cache);
  }

  lemma InterpolatingStepToTheEnd(packets: Store, channels: nat, from: int, latest: int, ratio: real, v: Cursor)
    requires ValidCache(packets, v.cache) && WellFormedStore(packets, channels) && channels > 0
    requires Readable(packets, from, latest) && v.readPos >= 0.0 && from <= v.readPos.Floor
    ensures var w := InterpolatingStep(packets, channels, ratio, v);
      && (v.readPos.Floor < latest ==> w.missingInCall == v.missingInCall)
      && (EndsBy(packets, latest) && latest <= v.readPos.Floor ==> w.missingInCall == v.missingInCall + 1)
  {
    hide Readable, WellFormedStore, EndsBy;
    SampledToTheEnd(packets, channels, from, latest, v.readPos.Floor, v.cache);
  }

  lemma {:induction false} IntegerGapIff(packets: Store, channels: nat, from: int, latest: int, first: nat, n: nat,
                                         u: Cursor)
    requires ValidCache(packets, u.cache) && WellFormedStore(packets, channels) && channels > 0
    requires Readable(packets, from, latest) && from <= first && u.slots == [] && n > 0
    ensures var v := RenderInteger(packets, channels, first, n, u);
      && (first + (n - 1) < latest ==> v.missingInCall == u.missingInCall)
      && (EndsBy(packets, latest) && v.missingInCall == u.missingInCall ==> first + (n - 1) < latest)
  {
    hide IntegerStep, WellFormedStore, Readable, EndsBy;
    if n > 1 {
      IntegerGapIff(packets, channels, from, latest, first, n - 1, u);
    }
    var v := RenderInteger(packets, channels, first, n - 1, u);
    IntegerAdvance(packets, channels, first, n - 1, u);
    IntegerStepToTheEnd(packets, channels, from, latest, first, v);
  }

  lemma {:induction false} InterpolatingGapIff(packets: Store, channels: nat, from: int, latest: int, ratio: real,
                                               n: nat, u: Cursor)
    requires ValidCache(packets, u.cache) && WellFormedStore(packets, channels) && channels > 0
    requires Readable(packets, from, latest) && n > 0
    requires ratio > 0.0 && u.readPos >= 0.0 && from <= u.readPos.Floor
    ensures var v := RenderInterpolating(packets, channels, ratio, n, u);
      var last := u.readPos + Travel(ratio, n - 1);
      && (last.Floor < latest ==> v.missingInCall == u.missingInCall)
      && (EndsBy(packets, latest) && v.missingInCall == u.missingInCall ==> last.Floor < latest)
  {
    hide InterpolatingStep, WellFormedStore, Readable, EndsBy;
    TravelPositive(ratio, n - 1);
    if n > 1 {
      InterpolatingGapIff(packets, channels, from, latest, ratio, n - 1, u);
      TravelMonotone(ratio, ratio, n - 2, n - 1);
    }
    var v := RenderInterpolating(packets, channels, ratio, n - 1, u);
    InterpolatingAdvance(packets, channels, ratio, n - 1, u);
    InterpolatingStepToTheEnd(packets, channels, from, latest, ratio, v);
  }

  lemma StartsForward(readPos: real, ratio: real)
    requires readPos >= 0.0
    ensures readPos.Floor <= RenderStart(readPos, ratio).Floor && RenderStart(readPos, ratio) >= 0.0
  {
  }

  /**
    Over data readable up to the newest end, a rendering of any length at any ratio has no gap if,
    and with no packet past that end only if, its last read position is before the end. Packets
    may overlap.
   */
  lemma RenderGapIff(s: State, channels: nat, ratio: real, n: nat)
    requires channels > 0 && n > 0 && ratio > 0.0 && s.readPos >= 0.0
    requires WellFormedStore(s.packets, channels) && Readable(s.packets, s.readPos.Floor, s.latestEnd)
    ensures var gaps, last := Render(s, channels, ratio, n).missingInCall, ReadPosition(s.readPos, ratio, n - 1);
      && (last.Floor < s.latestEnd ==> gaps == 0)
      && (EndsBy(s.packets, s.latestEnd) && gaps == 0 ==> last.Floor < s.latestEnd)
  {
    hide WellFormedStore, Readable, EndsBy;
    var start := Cursor([], s.readPos, 0, s.missing, None);
    StartsForward(s.readPos, ratio);
    if UseIntegerPath(s.readPos, ratio) {
      var first: nat := Max(Round(s.readPos), 0);
      IntegerGapIff(s.packets, channels, s.readPos.Floor, s.latestEnd, first, n, start.(readPos := first as real));
      TravelByOne(n - 1);
    } else {
      InterpolatingGapIff(s.packets, channels, s.readPos.Floor, s.latestEnd, ratio, n, start);
    }
  }

  /** Above the source rate a step is less than a frame, and the last one may need a frame to spare. */
  function Spare(c: Config, q: Request): nat {
    if DeviceRatio(c, q) >= 1.0 then 0 else 1
  }

  /** The last step of a corrected rendering stays a whole step short of need plus error, or within them. */
  lemma LastStep(c: Config, q: Request, error: int, k: nat)
    requires c.Valid() && Need(c, q) <= MAX_RENDER
    requires k < q.frames
    ensures var ratio := EffectiveRatio(DeviceRatio(c, q), Correction(error));
      0.0 <= Travel(ratio, k) <= (Need(c, q) - 1 + Max(error, 0) + Spare(c, q)) as real
  {
    hide Correction, EffectiveRatio, SourceFrames, Travel;
    var n, deviceRatio := q.frames, DeviceRatio(c, q);
    var ratio := EffectiveRatio(deviceRatio, Correction(error));
    TravelBounds(c, q, error);
    TravelPositive(ratio, k);
    if deviceRatio < 1.0 {
      TravelMonotone(ratio, ratio, k, n);
    } else if error >= 0 {
      CorrectionScaled(error);
      RatioGrows(deviceRatio, Correction(error));
      TravelMonotone(ratio, ratio, k, n - 1);
      TravelNext(ratio, n - 1);
    } else {
      CorrectionScaled(-error);
      CorrectionIsOdd(error);
      RatioShrinks(deviceRatio, Correction(error));
      TravelMonotone(ratio, deviceRatio, k, n - 1);
      TravelNext(deviceRatio, n - 1);
      NeedBounds(c, q);
    }
  }

  lemma RatioGrows(deviceRatio: real, ppm: real)
    requires deviceRatio > 0.0 && ppm >= 0.0
    ensures EffectiveRatio(deviceRatio, ppm) >= deviceRatio
  {
    MulMonotone(1.0, 1.0 + ppm / 1000000.0, deviceRatio);
  }

  lemma RatioShrinks(deviceRatio: real, ppm: real)
    requires deviceRatio > 0.0 && ppm <= 0.0
    ensures EffectiveRatio(deviceRatio, ppm) <= deviceRatio
  {
    MulMonotone(1.0 + ppm / 1000000.0, 1.0, deviceRatio);
  }

  /** The integer path renders no more frames than need and error. */
  lemma FramesWithinNeed(c: Config, q: Request, readPos: real, error: int)
    requires c.Valid() && Need(c, q) <= MAX_RENDER
    requires UseIntegerPath(readPos, EffectiveRatio(DeviceRatio(c, q), Correction(error)))
    ensures q.frames <= Need(c, q) + Max(error, 0)
  {
    TravelBounds(c, q, error);
    IntegerPathTravel(q.frames, EffectiveRatio(DeviceRatio(c, q), Correction(error)));
  }

  /** With the data it needs and corrects for, the last read position of a rendering is before the end. */
  lemma LastOnData(c: Config, q: Request, s: State, error: int)
    requires c.Valid() && Need(c, q) <= MAX_RENDER && q.frames > 0 && s.readPos >= 0.0
    requires Need(c, q) + Max(error, 0) + Spare(c, q) <= Level(s)
    ensures var ratio := EffectiveRatio(DeviceRatio(c, q), Correction(error));
      ratio > 0.0 && ReadPosition(s.readPos, ratio, q.frames - 1).Floor < s.latestEnd
  {
    var n, ratio := q.frames, EffectiveRatio(DeviceRatio(c, q), Correction(error));
    TravelBounds(c, q, error);
    NeedPositive(c, q);
    if UseIntegerPath(s.readPos, ratio) {
      FramesWithinNeed(c, q, s.readPos, error);
      NearWhole(s.readPos, Max(Round(s.readPos), 0));
      TravelByOne(n - 1);
    } else {
      LastStep(c, q, error, n - 1);
      FloorBelow(s, Travel(ratio, n - 1), Need(c, q) - 1 + Max(error, 0) + Spare(c, q));
    }
  }

  lemma FloorBelow(s: State, x: real, bound: int)
    requires s.readPos >= 0.0 && 0.0 <= x <= bound as real && bound < Level(s)
    ensures (s.readPos + x).Floor < s.latestEnd
  {
  }

  /** Enough to render: at output rates above the source rate one frame more than needed, and some delay. */
  ghost predicate EnoughData(c: Config, s: State, q: Request) {
    DeviceRatio(c, q) >= 1.0
    || (Desired(c, q) > 0 && PlanOf(c, s, q).Some? && Level(PlanOf(c, s, q).value.state) > Need(c, q))
  }

  /**
    No gap when data is there: over data readable from the read position to the newest end, a
    pull that passes the depth control misses nothing, does not resync and leaves the buffer
    running.
   */
  lemma NoGapWhenDataIsThere(c: Config, s: State, q: Request)
    requires c.Valid() && c.channels > 0 && Need(c, q) <= MAX_RENDER && EnoughData(c, s, q)
    requires s.readPos >= 0.0 && q.frames > 0 && PlanOf(c, s, q).Some?
    requires WellFormedStore(s.packets, c.channels)
    requires Readable(s.packets, s.readPos.Floor, s.latestEnd)
    ensures var (t, rendering) := Pull(c, s, q);
      && rendering.Rendered? && NoSilence(rendering.slots, 0)
      && t.phase.Running? && t.streamId == s.streamId && t.latestEnd == s.latestEnd
      && t.metrics == s.metrics
    ensures var (t, plan) := (Pull(c, s, q).0, PlanOf(c, s, q).value);
      && t.readPos == ReadPosition(plan.state.readPos, plan.ratio, q.frames)
      && t.packets == Prune(s.packets, ReadFrame(t.readPos))
  {
    PlanLevel(c, s, q);
    NeedWithinRequired(c, q);
    SyncForward(c, s, q.playoutTime, q.playoutBuffered, Need(c, q));
    PrepareForward(c, Synced(c, s, q), Required(c, q), Need(c, q));
    var plan := PlanOf(c, s, q).value;
    RequiredAboveNeed(c, q);
    LastOnData(c, q, plan.state, Error(c, plan.state, q));
    StillReadable(s.packets, s.readPos.Floor, plan.state.readPos.Floor, s.latestEnd);
    RenderGapIff(plan.state, c.channels, plan.ratio, q.frames);
    GaplessPull(c, s, q);
  }

  lemma StillReadable(packets: Store, from: int, later: int, latest: int)
    requires Readable(packets, from, latest) && from <= later
    ensures Readable(packets, later, latest)
  {
  }

  /**
    Exactly when a pull over complete data has no silent frame, at any pair of rates and of any
    length: when the last read position of its plan is before the newest end.
   */
  lemma PullGapIff(c: Config, s: State, q: Request)
    requires c.Valid() && c.channels > 0 && s.readPos >= 0.0 && q.frames > 0 && PlanOf(c, s, q).Some?
    requires WellFormedStore(s.packets, c.channels) && EndsBy(s.packets, s.latestEnd)
    requires Readable(s.packets, s.readPos.Floor, s.latestEnd)
    ensures var (rendering, plan) := (Pull(c, s, q).1, PlanOf(c, s, q).value);
      && rendering.Rendered?
      && (NoSilence(rendering.slots, 0)
          <==> ReadPosition(plan.state.readPos, plan.ratio, q.frames - 1).Floor < s.latestEnd)
  {
    hide Render, ReadPosition, Readable, WellFormedStore, EndsBy, NoSilence;
    SyncForward(c, s, q.playoutTime, q.playoutBuffered, Need(c, q));
    PrepareForward(c, Synced(c, s, q), Required(c, q), Need(c, q));
    var plan := PlanOf(c, s, q).value;
    DeviceRatioPositive(c, q);
    PlanRatioPositive(c, s, q);
    StillReadable(s.packets, s.readPos.Floor, plan.state.readPos.Floor, s.latestEnd);
    RenderGapIff(plan.state, c.channels, plan.ratio, q.frames);
    RenderGaps(plan.state, c.channels, plan.ratio, q.frames);
  }

  lemma PlanRatioPositive(c: Config, s: State, q: Request)
    requires c.Valid() && PlanOf(c, s, q).Some?
    ensures PlanOf(c, s, q).value.ratio > 0.0
  {
    hide SyncIfEnabled, Prepare, EffectiveRatio, DeviceRatio;
    DeviceRatioPositive(c, q);
    PrepareForward(c, Synced(c, s, q), Required(c, q), Need(c, q));
    RatioPositive(DeviceRatio(c, q), Prepare(c, Synced(c, s, q), Required(c, q), Need(c, q)).value.1);
  }

  lemma RequiredAboveNeed(c: Config, q: Request)
    requires Need(c, q) <= MAX_RENDER
    ensures Desired(c, q) > 0 ==> Required(c, q) > Need(c, q)
  {
  }

  lemma GaplessPull(c: Config, s: State, q: Request)
    requires c.channels > 0 && q.frames > 0 && PlanOf(c, s, q).Some?
    requires var plan := PlanOf(c, s, q).value;
      && plan.state.packets == s.packets && plan.state.latestEnd == s.latestEnd
      && plan.state.streamId == s.streamId && plan.state.metrics == s.metrics && plan.state.phase.Running?
      && Render(plan.state, c.channels, plan.ratio, q.frames).missingInCall == 0
    ensures var (t, rendering) := Pull(c, s, q);
      && rendering.Rendered? && NoSilence(rendering.slots, 0)
      && t.phase.Running? && t.streamId == s.streamId && t.latestEnd == s.latestEnd
      && t.metrics == s.metrics
    ensures var (t, plan) := (Pull(c, s, q).0, PlanOf(c, s, q).value);
      && t.readPos == ReadPosition(plan.state.readPos, plan.ratio, q.frames)
      && t.packets == Prune(s.packets, ReadFrame(t.readPos))
  {
    var plan := PlanOf(c, s, q).value;
    RenderGaps(plan.state, c.channels, plan.ratio, q.frames);
    RenderAdvance(plan.state, c.channels, plan.ratio, q.frames);
  }

}
