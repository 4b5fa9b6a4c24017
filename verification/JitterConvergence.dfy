/**
  The depth control converges: in a steady run every depth error is worked off, in a number of
  rounds given by the correction of 4 ppm per frame of error and its limit of 2000 ppm.
 */
module JitterConvergence {
  import opened Wrappers
  import opened Numbers
  import opened JitterSpec
  import opened JitterRender
  import opened JitterControl
  import opened JitterGaps
  import opened JitterSteady

  /** What one round corrects of the error, in frames. */
  function RoundCorrection(frames: nat, error: int): real {
    frames as real * (Correction(error) / 1000000.0)
  }

  /** The pending error with the fraction of a frame the read position is into. */
  function Slack(c: Config, s: State, q: Request): real {
    (s.latestEnd + q.frames - Required(c, q)) as real - (s.readPos + 0.000001)
  }

  /** The error is the slack, rounded up. */
  lemma SlackBrackets(c: Config, s: State, q: Request)
    requires s.readPos >= 0.0 && ReadFrame(s.readPos) <= s.latestEnd
    ensures PendingError(c, s, q) as real - 1.0 < Slack(c, s, q) <= PendingError(c, s, q) as real
  {
    hide SourceFrames;
  }

  lemma CorrectedRatio(frames: nat, readPos: real, error: int)
    requires error != 0
    ensures var ratio := EffectiveRatio(1.0, Correction(error));
      ReadPosition(readPos, ratio, frames) == readPos + frames as real + RoundCorrection(frames, error)
  {
    var ratio := EffectiveRatio(1.0, Correction(error));
    assert !UseIntegerPath(readPos, ratio);
    TravelIsProduct(ratio, frames);
    Distributes(frames as real, Correction(error) / 1000000.0);
  }

  lemma Distributes(x: real, k: real)
    ensures x * (1.0 + k) == x + x * k
  {
  }

  /** A pull within the tolerance moves by its frames and the correction; beyond it the error is gone at once. */
  lemma PullCorrects(c: Config, s: State, q: Request)
    requires EqualRates(c, q) && !c.clockSync
    requires s.readPos >= 0.0 && s.phase.Running? && s.latestEnd < U64_MAX && Level(s) >= q.frames
    requires WellFormedStore(s.packets, c.channels) && Readable(s.packets, s.readPos.Floor, s.latestEnd)
    requires Error(c, s, q) != 0
    ensures var (t, e) := (Pull(c, s, q).0, Error(c, s, q));
      if e > c.HardTrimTolerance() then Error(c, t, q) + q.frames == 0
      else t.readPos == s.readPos + q.frames as real + RoundCorrection(q.frames, e)
  {
    hide Pull, Readable, WellFormedStore, ReadPosition, Correction, RoundCorrection, EffectiveRatio;
    EqualRatesNeed(c, q);
    NeedWithinRequired(c, q);
    EqualRatesPull(c, s, q);
    if Error(c, s, q) <= c.HardTrimTolerance() {
      assert PlanOf(c, s, q) == Some(Plan(s, EffectiveRatio(1.0, Correction(Error(c, s, q)))));
      NoGapWhenDataIsThere(c, s, q);
      CorrectedRatio(q.frames, s.readPos, Error(c, s, q));
    }
  }

  lemma RoundCorrects(c: Config, s: State, feed: seq<Arrival>, q: Request, trims: bool,
                      round: (State, seq<Arrival>) -> State, stream: u64, maxFrames: nat)
    requires c.Valid() && Steady(c, s, q, trims, stream, maxFrames) && IsCallback(round, c, q, trims)
    requires InOrder(c, stream, s.latestEnd, maxFrames, feed) && FrameCount(feed) == q.frames
    requires s.latestEnd + q.frames < U64_MAX && PendingError(c, s, q) != 0
    ensures var (t, e) := (round(s, feed), PendingError(c, s, q));
      if e > c.HardTrimTolerance() then PendingError(c, t, q) == 0
      else Slack(c, t, q) == Slack(c, s, q) - RoundCorrection(q.frames, e)
  {
    hide InsertAll, Pull, SolidStore, WellFormedStore, Readable, RoundCorrection;
    SteadyRound(c, s, feed, q, trims, round, stream, maxFrames);
    NeedWithinRequired(c, q);
    EqualRatesNeed(c, q);
    FeedKeepsSolid(c, s, feed, stream, maxFrames);
    var fed := InsertAll(c, s, feed);
    assert Level(fed) == Level(s) + q.frames;
    assert trims ==> TrimToBudget(c, fed, 0) == fed;
    assert round(s, feed) == Pull(c, fed, q).0 by {
      assert PlayRound(c, s, feed, q, trims) == Pull(c, fed, q).0;
    }
    SolidReadable(fed.packets, fed.readPos.Floor, fed.latestEnd, c.channels, maxFrames);
    PullCorrects(c, fed, q);
  }

  /** As long as the error does not change, every round takes the same off the slack. */
  lemma {:induction false} ErrorHolds(c: Config, s: State, feeds: seq<seq<Arrival>>, q: Request, trims: bool,
                                      round: (State, seq<Arrival>) -> State, stream: u64, maxFrames: nat)
    decreases |feeds|
    requires c.Valid() && Steady(c, s, q, trims, stream, maxFrames) && IsCallback(round, c, q, trims)
    requires SteadyFeeds(c, stream, s.latestEnd, maxFrames, q.frames, feeds)
    requires PendingError(c, s, q) != 0 && PendingError(c, Rounds(round, s, feeds), q) == PendingError(c, s, q)
    ensures Slack(c, Rounds(round, s, feeds), q)
         == Slack(c, s, q) - Travel(RoundCorrection(q.frames, PendingError(c, s, q)), |feeds|)
  {
    hide Steady, InOrder, IsCallback, PendingError, Slack, RoundCorrection;
    if feeds != [] {
      SteadyRound(c, s, feeds[0], q, trims, round, stream, maxFrames);
      SteadyRounds(c, round(s, feeds[0]), feeds[1..], q, trims, round, stream, maxFrames);
      RoundCorrects(c, s, feeds[0], q, trims, round, stream, maxFrames);
      ErrorHolds(c, round(s, feeds[0]), feeds[1..], q, trims, round, stream, maxFrames);
      TravelNext(RoundCorrection(q.frames, PendingError(c, s, q)), |feeds| - 1);
    }
  }

  // ----- how many rounds

  /** Rounds of `frames` frames after which an error of this size has shrunk by a frame at least. */
  function RoundsFor(frames: nat, size: nat): nat
    requires 0 < frames && 0 < size
  {
    CorrectsSome(frames, size);
    (1_000_000 + frames * Min(4 * size, 2000) - 1) / (frames * Min(4 * size, 2000))
  }

  lemma CorrectsSome(frames: nat, size: nat)
    requires 0 < frames && 0 < size
    ensures frames * Min(4 * size, 2000) > 0
  {
  }

  /** Rounds after which an error of this size is gone. */
  function RoundsToZero(frames: nat, size: nat): nat
    requires 0 < frames
  {
    if size == 0 then 0 else RoundsFor(frames, size) + RoundsToZero(frames, size - 1)
  }

  lemma {:induction false} RoundsToZeroMonotone(frames: nat, a: nat, b: nat)
    requires 0 < frames && a <= b
    ensures RoundsToZero(frames, a) <= RoundsToZero(frames, b)
  {
    if a < b {
      RoundsToZeroMonotone(frames, a, b - 1);
    }
  }

  function Size(error: int): nat {
    if error < 0 then -error else error
  }

  /** That many rounds correct a whole frame. */
  lemma RoundsForSuffices(frames: nat, error: int)
    requires 0 < frames && error != 0
    ensures var x := Travel(RoundCorrection(frames, error), RoundsFor(frames, Size(error)));
      if error > 0 then x >= 1.0 else x <= -1.0
  {
    var size, m := Size(error), RoundsFor(frames, Size(error));
    var d := frames * Min(4 * size, 2000);
    CorrectsSome(frames, size);
    CeilDivBounds(1_000_000, d);
    assert m * d >= 1_000_000;
    var step := RoundCorrection(frames, error);
    StepOf(frames, error);
    TravelIsProduct(step, m);
    WholeFrame(m, d);
    MulNegate(m as real, d as real / 1000000.0);
  }

  lemma StepOf(frames: nat, error: int)
    requires error != 0
    ensures var step := (frames * Min(4 * Size(error), 2000)) as real / 1000000.0;
      RoundCorrection(frames, error) == if error > 0 then step else -step
  {
    var x, k := frames as real, Min(4 * Size(error), 2000);
    assert Correction(error) == if error > 0 then k as real else -(k as real);
    assert (frames * k) as real == x * k as real;
    assert x * (k as real / 1000000.0) == x * k as real / 1000000.0;
    MulNegate(x, k as real / 1000000.0);
  }

  lemma WholeFrame(m: nat, d: nat)
    requires m * d >= 1_000_000
    ensures m as real * (d as real / 1000000.0) >= 1.0
  {
    assert (m * d) as real == m as real * d as real;
    assert m as real * (d as real / 1000000.0) == m as real * d as real / 1000000.0;
  }

  /** After that many rounds the error has changed, and so is smaller. */
  lemma ErrorShrinks(c: Config, s: State, feeds: seq<seq<Arrival>>, q: Request, trims: bool,
                     round: (State, seq<Arrival>) -> State, stream: u64, maxFrames: nat)
    requires c.Valid() && Steady(c, s, q, trims, stream, maxFrames) && IsCallback(round, c, q, trims)
    requires SteadyFeeds(c, stream, s.latestEnd, maxFrames, q.frames, feeds)
    requires 0 < q.frames && PendingError(c, s, q) != 0
    requires |feeds| == RoundsFor(q.frames, Size(PendingError(c, s, q)))
    ensures Size(PendingError(c, Rounds(round, s, feeds), q)) < Size(PendingError(c, s, q))
  {
    hide Rounds, SteadyFeeds, IsCallback, PendingError, Slack, RoundCorrection, RoundsFor;
    var t := Rounds(round, s, feeds);
    SteadyRounds(c, s, feeds, q, trims, round, stream, maxFrames);
    if PendingError(c, t, q) == PendingError(c, s, q) {
      ErrorHolds(c, s, feeds, q, trims, round, stream, maxFrames);
      RoundsForSuffices(q.frames, PendingError(c, s, q));
      SteadyBrackets(c, s, q, trims, stream, maxFrames);
      SteadyBrackets(c, t, q, trims, stream, maxFrames);
      assert false;
    }
  }

  lemma SteadyBrackets(c: Config, s: State, q: Request, trims: bool, stream: u64, maxFrames: nat)
    requires c.Valid() && Steady(c, s, q, trims, stream, maxFrames)
    ensures PendingError(c, s, q) as real - 1.0 < Slack(c, s, q) <= PendingError(c, s, q) as real
  {
    hide SolidStore;
    SlackBrackets(c, s, q);
  }

  // ----- convergence

  lemma {:induction false} RoundsSplit(round: (State, seq<Arrival>) -> State, s: State, feeds: seq<seq<Arrival>>,
                                       k: nat)
    decreases k
    requires k <= |feeds|
    ensures Rounds(round, s, feeds) == Rounds(round, Rounds(round, s, feeds[..k]), feeds[k..])
  {
    if k > 0 {
      assert feeds[1..][..k - 1] == feeds[..k][1..] && feeds[1..][k - 1..] == feeds[k..];
      RoundsSplit(round, round(s, feeds[0]), feeds[1..], k - 1);
    } else {
      assert feeds[0..] == feeds;
    }
  }

  lemma {:induction false} FeedsSplit(c: Config, stream: u64, from: nat, maxFrames: nat, frames: nat,
                                      feeds: seq<seq<Arrival>>, k: nat)
    decreases k
    requires k <= |feeds| && SteadyFeeds(c, stream, from, maxFrames, frames, feeds)
    ensures SteadyFeeds(c, stream, from, maxFrames, frames, feeds[..k])
    ensures SteadyFeeds(c, stream, from + Offset(k, frames), maxFrames, frames, feeds[k..])
  {
    hide InOrder;
    if k > 0 {
      assert feeds[1..][..k - 1] == feeds[..k][1..] && feeds[1..][k - 1..] == feeds[k..];
      FeedsSplit(c, stream, from + frames, maxFrames, frames, feeds[1..], k - 1);
    } else {
      assert feeds[0..] == feeds;
    }
  }

  lemma {:induction false} RoundsConverge(c: Config, s: State, feeds: seq<seq<Arrival>>, q: Request, trims: bool,
                                          round: (State, seq<Arrival>) -> State, stream: u64, maxFrames: nat)
    decreases Size(PendingError(c, s, q))
    requires c.Valid() && Steady(c, s, q, trims, stream, maxFrames) && IsCallback(round, c, q, trims)
    requires SteadyFeeds(c, stream, s.latestEnd, maxFrames, q.frames, feeds)
    requires 0 < q.frames && |feeds| >= RoundsToZero(q.frames, Size(PendingError(c, s, q)))
    ensures PendingError(c, Rounds(round, s, feeds), q) == 0
  {
    hide Rounds, SteadyFeeds, IsCallback, PendingError, Steady, RoundsFor;
    var size := Size(PendingError(c, s, q));
    if size == 0 {
      SteadyRounds(c, s, feeds, q, trims, round, stream, maxFrames);
    } else {
      var m := RoundsFor(q.frames, size);
      var t := Rounds(round, s, feeds[..m]);
      RoundsSplit(round, s, feeds, m);
      FeedsSplit(c, stream, s.latestEnd, maxFrames, q.frames, feeds, m);
      SteadyRounds(c, s, feeds[..m], q, trims, round, stream, maxFrames);
      ErrorShrinks(c, s, feeds[..m], q, trims, round, stream, maxFrames);
      RoundsToZeroMonotone(q.frames, Size(PendingError(c, t, q)), size - 1);
      RoundsConverge(c, t, feeds[m..], q, trims, round, stream, maxFrames);
    }
  }

  /**
    Convergence: from any depth error of a steady run, once the rounds are as many as
    `RoundsToZero` says the error is zero, and the depth the callback leaves is the desired one.
   */
  lemma SteadyConverges(c: Config, s: State, feeds: seq<seq<Arrival>>, q: Request, trims: bool, stream: u64,
                        maxFrames: nat)
    requires c.Valid() && Steady(c, s, q, trims, stream, maxFrames)
    requires SteadyFeeds(c, stream, s.latestEnd, maxFrames, q.frames, feeds)
    requires 0 < q.frames && |feeds| >= RoundsToZero(q.frames, Size(PendingError(c, s, q)))
    ensures var t := Rounds(Callbacks(c, q, trims), s, feeds);
      PendingError(c, t, q) == 0 && Level(t) + q.frames == Required(c, q)
  {
    hide Rounds, SteadyFeeds, IsCallback, Callbacks, Steady, RoundsToZero;
    RoundsConverge(c, s, feeds, q, trims, Callbacks(c, q, trims), stream, maxFrames);
  }
}
