/**
  What a pull reports and where it leaves the buffer (`common/src/jitter.rs`): when it renders,
  what its silent frames count as, and when running dry makes it start over.
 */
module JitterUnderrun {
  import opened Wrappers
  import opened Numbers
  import opened PacketStore
  import opened JitterSpec
  import opened JitterRender
  import opened JitterInvariants
  import opened JitterControl

  /** Silent frames among some slots. */
  function Silences(slots: seq<Slot>): nat {
    if slots == [] then 0 else Silences(slots[..|slots| - 1]) + (if slots[|slots| - 1].None? then 1 else 0)
  }

  /** Silent frames at the end, counting on from those before where all are silent. */
  function SilentRun(before: nat, slots: seq<Slot>): nat {
    if slots == [] then before
    else if slots[|slots| - 1].Some? then 0
    else SilentRun(before, slots[..|slots| - 1]) + 1
  }

  lemma EmitCounts(u: Cursor, slot: Slot, advance: real, cache: Option<nat>, before: nat)
    requires u.missingInCall == Silences(u.slots) && u.missing == SilentRun(before, u.slots)
    ensures var v := u.Emit(slot, advance, cache);
      v.missingInCall == Silences(v.slots) && v.missing == SilentRun(before, v.slots)
  {
    assert (u.slots + [slot])[..|u.slots|] == u.slots;
  }

  lemma {:induction false} IntegerCounts(packets: Store, channels: nat, first: nat, n: nat, u: Cursor)
    requires ValidCache(packets, u.cache) && u.slots == [] && u.missingInCall == 0
    ensures var v := RenderInteger(packets, channels, first, n, u);
      v.missingInCall == Silences(v.slots) && v.missing == SilentRun(u.missing, v.slots)
  {
    hide Sampled;
    if n > 0 {
      IntegerCounts(packets, channels, first, n - 1, u);
      var v := RenderInteger(packets, channels, first, n - 1, u);
      var (slot, cache) := Sampled(packets, channels, first + |v.slots|, v.cache);
      EmitCounts(v, slot, 1.0, cache, u.missing);
    }
  }

  lemma {:induction false} InterpolatingCounts(packets: Store, channels: nat, ratio: real, n: nat, u: Cursor)
    requires ValidCache(packets, u.cache) && u.slots == [] && u.missingInCall == 0
    ensures var v := RenderInterpolating(packets, channels, ratio, n, u);
      v.missingInCall == Silences(v.slots) && v.missing == SilentRun(u.missing, v.slots)
  {
    hide Interpolated;
    if n > 0 {
      InterpolatingCounts(packets, channels, ratio, n - 1, u);
      var v := RenderInterpolating(packets, channels, ratio, n - 1, u);
      var (slot, cache) := Interpolated(packets, channels, v.readPos, v.cache);
      EmitCounts(v, slot, ratio, cache, u.missing);
    }
  }

  lemma RenderCounts(s: State, channels: nat, ratio: real, n: nat)
    ensures var u := Render(s, channels, ratio, n);
      u.missingInCall == Silences(u.slots) && u.missing == SilentRun(s.missing, u.slots)
  {
    var start := Cursor([], s.readPos, 0, s.missing, None);
    var first: nat := Max(Round(s.readPos), 0);
    IntegerCounts(s.packets, channels, first, n, start.(readPos := first as real));
    InterpolatingCounts(s.packets, channels, ratio, n, start);
  }

  // ----- whether a pull renders

  /**
    A pull renders exactly when there is enough: what it renders for a running buffer, and the
    fixed delay not yet in the playout ring on top of that for any other. Asked for nothing it does
    nothing.
   */
  lemma RendersIff(c: Config, s: State, q: Request)
    ensures c.channels == 0 || q.frames == 0 ==> Pull(c, s, q) == (s, Silent)
    ensures c.channels > 0 && q.frames > 0 ==>
      (Pull(c, s, q).1.Rendered? <==>
       Level(Synced(c, s, q)) >= if s.phase.Running? then Need(c, q) else Wanted(c, q))
  {
    hide SourceFrames, Render, AfterRender, SyncIfEnabled;
    SyncForward(c, s, q.playoutTime, q.playoutBuffered, Need(c, q));
  }

  /** A pull that does not render sends the buffer back to priming, and counts if a stream is followed. */
  lemma RefusalPrimes(c: Config, s: State, q: Request)
    requires c.channels > 0 && q.frames > 0 && Pull(c, s, q).1.Silent?
    ensures var (t, synced) := (Pull(c, s, q).0, Synced(c, s, q));
      && t.phase.Priming?
      && t == synced.(phase := Priming, metrics := synced.metrics.(gaps := t.metrics.gaps))
      && t.metrics.gaps == synced.metrics.gaps.(
           startupUnderruns := synced.metrics.gaps.startupUnderruns + (if synced.streamId.Some? then 1 else 0))
  {
    hide Render, AfterRender, SyncIfEnabled;
  }

  // ----- what a rendering counts

  /** It ran dry: a silent frame, and less than two frames left. */
  predicate RanDry(slots: seq<Slot>, left: nat) {
    Silences(slots) > 0 && left < 2
  }

  /** Silence has gone on for more than half a second. */
  predicate SilentTooLong(c: Config, slots: seq<Slot>, run: nat) {
    Silences(slots) > 0 && run > c.sampleRate / 2
  }

  /**
    What is left after a rendering: its silent frames are counted; if it ran dry, or silence has
    gone on for half a second, the buffer is emptied and resyncs, once, as an underrun; else it
    runs on from the position it has read to.
   */
  ghost predicate Settled(c: Config, s: State, plan: Plan, n: nat, slots: seq<Slot>, t: State) {
    var end := ReadPosition(plan.state.readPos, plan.ratio, n);
    var (left, run) := (Max(plan.state.latestEnd - ReadFrame(end), 0), SilentRun(plan.state.missing, slots));
    var (dry, over) := (RanDry(slots, left), RanDry(slots, left) || SilentTooLong(c, slots, run));
    && |slots| == n && t.readPos == end && t.streamId == s.streamId
    && t.metrics.counts == s.metrics.counts
    && t.metrics.gaps == s.metrics.gaps.(
         missingFrames := s.metrics.gaps.missingFrames + Silences(slots),
         missingFrameCalls := s.metrics.gaps.missingFrameCalls + (if Silences(slots) > 0 then 1 else 0),
         outputUnderruns := s.metrics.gaps.outputUnderruns + (if dry then 1 else 0),
         steadyUnderruns := s.metrics.gaps.steadyUnderruns + (if dry then 1 else 0))
    && t.metrics.resyncs.byUnderrun == s.metrics.resyncs.byUnderrun + (if over then 1 else 0)
    && t.metrics.resyncs.byStreamChange == s.metrics.resyncs.byStreamChange
    && (over ==> t.phase == Phase.Resync && t.packets == map[] && t.latestEnd == 0 && t.missing == 0)
    && (!over ==> t.phase.Running? && t.latestEnd == s.latestEnd && t.missing == run
                  && t.packets == Prune(s.packets, ReadFrame(end)))
  }

  /** What a rendering pull leaves. */
  lemma RenderingCounts(c: Config, s: State, q: Request)
    requires Pull(c, s, q).1.Rendered?
    ensures PlanOf(c, s, q).Some? && q.frames > 0
    ensures Settled(c, s, PlanOf(c, s, q).value, q.frames, Pull(c, s, q).1.slots, Pull(c, s, q).0)
  {
    hide Render, Prepare, SyncIfEnabled, ReadPosition, SourceFrames, Silences, SilentRun, Prune;
    SyncForward(c, s, q.playoutTime, q.playoutBuffered, Need(c, q));
    PrepareForward(c, Synced(c, s, q), Required(c, q), Need(c, q));
    var plan := PlanOf(c, s, q).value;
    RenderCounts(plan.state, c.channels, plan.ratio, q.frames);
    RenderAdvance(plan.state, c.channels, plan.ratio, q.frames);
    NothingToPrune(ReadFrame(ReadPosition(plan.state.readPos, plan.ratio, q.frames)));
  }

  lemma NothingToPrune(readFrame: nat)
    ensures Prune(map[], readFrame) == map[]
  {
  }

  /** Of packets that do not overlap exactly those go that ended more than a frame before the read frame. */
  lemma PruneTakes(packets: Store, readFrame: nat, k: nat)
    requires Disjoint(packets) && k in packets
    ensures k in Prune(packets, readFrame) <==> readFrame <= k + packets[k].frameCount + 1
    ensures k in Prune(packets, readFrame) ==> Prune(packets, readFrame)[k] == packets[k]
  {
    if k + packets[k].frameCount + 1 < readFrame {
      assert Played(packets, readFrame, k);
    } else {
      assert End(packets, k) + 1 >= readFrame;
    }
  }

  // ----- where a rendering reads

  /**
    Within a millionth of a whole position and a billionth of the source's rate a rendering snaps to
    whole positions; anywhere else it starts where it stands and moves by its ratio.
   */
  lemma RenderingSnaps(readPos: real, ratio: real, k: nat, i: nat)
    requires readPos >= 0.0 && k as real - 0.5 < readPos < k as real + 0.5
    ensures ReadPosition(readPos, ratio, i) ==
      if -0.000000001 < ratio - 1.0 < 0.000000001 && -0.000001 < readPos - k as real < 0.000001 then (k + i) as real
      else readPos + i as real * ratio
  {
    assert Round(readPos) == k;
    TravelByOne(i);
    TravelIsProduct(ratio, i);
  }

  // ----- the trim tolerance

  /** A tenth of the fixed delay, but at least a hundredth and at most a twentieth of a second. */
  lemma ToleranceIsATenth(c: Config)
    requires c.sampleRate >= 100
    ensures var (t, rate, tenth) := (c.HardTrimTolerance(), c.sampleRate, c.fixedDelayFrames / 10);
      && rate / 100 <= t <= rate / 20
      && (rate / 100 <= tenth <= rate / 20 ==> t == tenth)
      && (tenth < rate / 100 ==> t == rate / 100)
      && (rate / 20 < tenth ==> t == rate / 20)
  {
  }
}
