/**
  What a steady run plays: without a depth error and from a whole read position every callback
  writes the followed stream's frames themselves, one after the other, exactly the fixed delay behind.
 */
module JitterExact {
  import opened Wrappers
  import opened Numbers
  import opened Audio
  import opened Packet
  import opened PacketStore
  import opened JitterSpec
  import opened JitterRender
  import opened JitterInvariants
  import opened JitterControl
  import opened JitterGaps
  import opened JitterSteady
  import opened Fidelity

  /** A slot that holds the stream's frame at a position. */
  ghost predicate PlaysAt(slot: Slot, packets: seq<AudioPacket>, pos: nat) {
    && (forall p :: p in packets ==> p.WellFormed())
    && InStream(packets, pos) && slot == Some(StreamFrame(packets, pos))
  }

  /** A rendering of `n` frames of a stream, from a position on, with nothing missing and nothing interpolated. */
  ghost predicate PlaysFrom(rendering: Rendering, packets: seq<AudioPacket>, n: nat, pos: nat) {
    && rendering.Rendered? && |rendering.slots| == n
    && forall i :: 0 <= i < n ==> PlaysAt(rendering.slots[i], packets, pos + i)
  }

  lemma LerpAtZero(a: StereoFrame, b: StereoFrame)
    ensures Lerp(a, b, 0.0) == a
  {
    LerpEndpoints(a, b);
  }

  lemma ExpectedAtWhole(s: State, sent: Sent, pos: nat)
    requires Pure(s, sent) && SentInStreams(sent) && Covered(s.ledger.live, pos)
    ensures forall p :: p in Followed(s, sent) ==> p.WellFormed()
    ensures var packets := Followed(s, sent);
      InStream(packets, pos) && Expected(packets, s.ledger.live, pos as real) == Some(StreamFrame(packets, pos))
  {
    hide Pure, SentInStreams, StreamFrame, Lerp;
    HeardWhereLive(s, sent, pos);
    var packets := Followed(s, sent);
    if InStream(packets, pos + 1) {
      LerpAtZero(StreamFrame(packets, pos), StreamFrame(packets, pos + 1));
    }
  }

  lemma WholeReads(pos: nat, i: nat)
    ensures ReadPosition(pos as real, 1.0, i) == (pos + i) as real
  {
    hide Travel;
    var first := Round(pos as real);
    assert first == pos;
    TravelByOne(i);
  }

  /** A pull that reads at the source's own rate from a whole position plays what is live there. */
  lemma WholePullPlays(c: Config, s: State, q: Request, sent: Sent, pos: nat)
    requires c.Valid() && c.channels == CHANNELS && Inv(c, s) && Pure(s, sent) && SentInStreams(sent)
    requires q.frames > 0 && PlanOf(c, s, q).Some?
    requires PlanOf(c, s, q).value.state.readPos == pos as real && PlanOf(c, s, q).value.ratio == 1.0
    requires forall k: nat :: pos <= k < pos + q.frames ==> Covered(s.ledger.live, k)
    ensures PlaysFrom(Pull(c, s, q).1, Followed(s, sent), q.frames, pos)
  {
    hide PlanOf, Render, Expected, Inv, Pure, SentInStreams, Followed, ReadPosition;
    PullPlaysStream(c, s, sent, q);
    assert Pull(c, s, q).1.Rendered?;
    var slots := Pull(c, s, q).1.slots;
    forall i | 0 <= i < q.frames
      ensures PlaysAt(slots[i], Followed(s, sent), pos + i)
    {
      WholeReads(pos, i);
      ExpectedAtWhole(s, sent, pos + i);
    }
  }

  // ----- arrivals of sent packets

  predicate FeedSent(sent: Sent, feed: seq<Arrival>) {
    forall a :: a in feed ==> WasSent(sent, a.packet)
  }

  lemma {:induction false} InsertAllPure(c: Config, s: State, sent: Sent, feed: seq<Arrival>)
    decreases |feed|
    requires c.Valid() && Inv(c, s) && Pure(s, sent) && FeedSent(sent, feed)
    ensures var t := InsertAll(c, s, feed); Inv(c, t) && Pure(t, sent)
  {
    hide Inv, Pure, Insert, WasSent;
    if feed != [] {
      assert feed[0] in feed;
      InsertKeeps(c, s, feed[0].packet, feed[0].time);
      InsertPure(c, s, sent, feed[0].packet, feed[0].time);
      InsertAllPure(c, Insert(c, s, feed[0].packet, feed[0].time).0, sent, feed[1..]);
    }
  }

  lemma PullPure(c: Config, s: State, sent: Sent, q: Request)
    requires c.Valid() && Inv(c, s) && Pure(s, sent)
    ensures var t := Pull(c, s, q).0; Inv(c, t) && Pure(t, sent)
  {
    hide Inv, Pull;
    PullKeeps(c, s, q);
    PullLedger(c, s, q);
  }

  /** Solid data is live data. */
  lemma SolidIsLive(c: Config, s: State, from: int, maxFrames: nat, pos: nat)
    requires Inv(c, s) && SolidStore(s.packets, from, s.latestEnd, c.channels, maxFrames)
    requires from <= pos < s.latestEnd
    ensures Covered(s.ledger.live, pos)
  {
    hide Accounted, CapacityInv, GapInv;
    assert Covered(s.packets, pos);
    var k: nat :| Covers(s.packets, k, pos);
    assert Covers(s.ledger.live, k, pos);
  }

  // ----- one round

  /** No depth error, and reading will begin at a whole position: the newest end minus what is kept and played. */
  ghost predicate OnTime(c: Config, s: State, q: Request, sent: Sent) {
    && c.channels == CHANNELS && q.playoutBuffered == 0
    && Inv(c, s) && Pure(s, sent) && SentInStreams(sent)
    && PendingError(c, s, q) == 0 && s.readPos == s.readPos.Floor as real
  }

  lemma NoErrorPlan(c: Config, s: State, q: Request)
    requires EqualRates(c, q) && !c.clockSync && s.phase.Running? && s.readPos >= 0.0
    requires Error(c, s, q) == 0
    ensures PlanOf(c, s, q) == Some(Plan(s, 1.0))
  {
    EqualRatesNeed(c, q);
    NeedWithinRequired(c, q);
  }

  lemma WholeLevelIs(s: State, required: nat)
    requires s.readPos >= 0.0 && s.readPos == s.readPos.Floor as real && Level(s) == required > 0
    ensures required <= s.latestEnd && s.readPos == (s.latestEnd - required) as real
  {
    hide ReadFrame;
    NearWhole(s.readPos, s.readPos.Floor);
  }

  /** What a callback of a steady run renders. */
  ghost function Heard(c: Config, s: State, feed: seq<Arrival>, q: Request, trims: bool): Rendering
    requires c.Valid()
  {
    var fed := InsertAll(c, s, feed);
    Pull(c, if trims then TrimToBudget(c, fed, 0) else fed, q).1
  }

  lemma FedOnTime(c: Config, s: State, feed: seq<Arrival>, q: Request, trims: bool, stream: u64, maxFrames: nat,
                  sent: Sent)
    requires c.Valid() && Steady(c, s, q, trims, stream, maxFrames) && OnTime(c, s, q, sent)
    requires InOrder(c, stream, s.latestEnd, maxFrames, feed) && FrameCount(feed) == q.frames
    requires s.latestEnd + q.frames < U64_MAX && FeedSent(sent, feed)
    ensures var fed := InsertAll(c, s, feed);
      && Inv(c, fed) && Pure(fed, sent) && Solid(c, fed, stream, maxFrames)
      && fed.readPos == s.readPos && fed.latestEnd == s.latestEnd + q.frames
      && Error(c, fed, q) == 0 && (trims ==> TrimToBudget(c, fed, 0) == fed)
  {
    hide InsertAll, SolidStore, StoreInv, Accounted, Pure, SentInStreams;
    NeedWithinRequired(c, q);
    EqualRatesNeed(c, q);
    FeedKeepsSolid(c, s, feed, stream, maxFrames);
    InsertAllPure(c, s, sent, feed);
    assert Level(InsertAll(c, s, feed)) == Level(s) + q.frames;
  }

  /** A round on time plays the next frames, the fixed delay behind the newest end, and leaves the buffer on time. */
  lemma RoundOnTime(c: Config, s: State, feed: seq<Arrival>, q: Request, trims: bool,
                    round: (State, seq<Arrival>) -> State, stream: u64, maxFrames: nat, sent: Sent)
    requires c.Valid() && Steady(c, s, q, trims, stream, maxFrames) && OnTime(c, s, q, sent)
    requires IsCallback(round, c, q, trims)
    requires InOrder(c, stream, s.latestEnd, maxFrames, feed) && FrameCount(feed) == q.frames
    requires s.latestEnd + q.frames < U64_MAX && FeedSent(sent, feed)
    ensures var t := round(s, feed);
      && OnTime(c, t, q, sent) && t.readPos == s.readPos + q.frames as real
      && PlaysFrom(Heard(c, s, feed, q, trims), Followed(s, sent), q.frames, s.readPos.Floor)
  {
    hide InsertAll, Pull, SolidStore, Inv, Pure, SentInStreams, WellFormedStore, Readable, PlaysFrom;
    SteadyRound(c, s, feed, q, trims, round, stream, maxFrames);
    FedOnTime(c, s, feed, q, trims, stream, maxFrames, sent);
    var fed := InsertAll(c, s, feed);
    var pos: nat := s.readPos.Floor;
    assert round(s, feed) == Pull(c, fed, q).0 by {
      assert PlayRound(c, s, feed, q, trims) == Pull(c, fed, q).0;
    }
    NoErrorPlan(c, fed, q);
    EqualRatesNeed(c, q);
    NeedWithinRequired(c, q);
    WholeLevelIs(fed, Required(c, q));
    forall k: nat | pos <= k < pos + q.frames
      ensures Covered(fed.ledger.live, k)
    {
      SolidIsLive(c, fed, fed.readPos.Floor, maxFrames, k);
    }
    WholePullPlays(c, fed, q, sent, pos);
    PullPure(c, fed, sent, q);
    SolidReadable(fed.packets, fed.readPos.Floor, fed.latestEnd, c.channels, maxFrames);
    NoGapWhenDataIsThere(c, fed, q);
    WholeReads(pos, q.frames);
  }

  // ----- a run of rounds

  predicate FeedsSent(sent: Sent, feeds: seq<seq<Arrival>>) {
    forall feed :: feed in feeds ==> FeedSent(sent, feed)
  }

  lemma {:induction false} RoundsOnTime(c: Config, s: State, feeds: seq<seq<Arrival>>, q: Request, trims: bool,
                                        round: (State, seq<Arrival>) -> State, stream: u64, maxFrames: nat, sent: Sent)
    decreases |feeds|
    requires c.Valid() && Steady(c, s, q, trims, stream, maxFrames) && OnTime(c, s, q, sent)
    requires IsCallback(round, c, q, trims)
    requires SteadyFeeds(c, stream, s.latestEnd, maxFrames, q.frames, feeds) && FeedsSent(sent, feeds)
    ensures var t := Rounds(round, s, feeds);
      OnTime(c, t, q, sent) && t.readPos == s.readPos + Offset(|feeds|, q.frames) as real
  {
    hide Steady, OnTime, InOrder, FeedSent, IsCallback, Heard, PlaysFrom;
    if feeds != [] {
      assert feeds[0] in feeds;
      SteadyRound(c, s, feeds[0], q, trims, round, stream, maxFrames);
      RoundOnTime(c, s, feeds[0], q, trims, round, stream, maxFrames, sent);
      RoundsOnTime(c, round(s, feeds[0]), feeds[1..], q, trims, round, stream, maxFrames, sent);
    }
  }

  /**
    Exact playback: after any number of rounds of a steady run that is on time, the next
    callback writes exactly the followed stream's frames that come next, none missing, repeated or
    interpolated.
   */
  lemma SteadyRunPlays(c: Config, s: State, feeds: seq<seq<Arrival>>, next: seq<Arrival>, q: Request, trims: bool,
                       stream: u64, maxFrames: nat, sent: Sent)
    requires c.Valid() && Steady(c, s, q, trims, stream, maxFrames) && OnTime(c, s, q, sent)
    requires SteadyFeeds(c, stream, s.latestEnd, maxFrames, q.frames, feeds) && FeedsSent(sent, feeds)
    requires InOrder(c, stream, s.latestEnd + Offset(|feeds|, q.frames), maxFrames, next)
    requires FrameCount(next) == q.frames && FeedSent(sent, next)
    requires s.latestEnd + Offset(|feeds|, q.frames) + q.frames < U64_MAX
    ensures var t := Rounds(Callbacks(c, q, trims), s, feeds);
      && s.readPos >= 0.0 && t.streamId == Some(stream)
      && PlaysFrom(Heard(c, t, next, q, trims), Followed(t, sent), q.frames,
                   s.readPos.Floor + Offset(|feeds|, q.frames))
  {
    hide SteadyFeeds, FeedsSent, FeedSent, InOrder, Rounds, IsCallback, Callbacks, Heard, PlaysFrom, SolidStore;
    hide StoreInv, Accounted, Pure, SentInStreams;
    var round := Callbacks(c, q, trims);
    SteadyRounds(c, s, feeds, q, trims, round, stream, maxFrames);
    RoundsOnTime(c, s, feeds, q, trims, round, stream, maxFrames, sent);
    RoundOnTime(c, Rounds(round, s, feeds), next, q, trims, round, stream, maxFrames, sent);
  }

  // ----- the start

  /**
    The callback that starts playback over solid data plays the stream's frames from the fixed
    delay and one callback before the newest end, and leaves a buffer that is on time.
   */
  lemma StartupOnTime(c: Config, s: State, q: Request, stream: u64, maxFrames: nat, sent: Sent)
    requires EqualRates(c, q) && c.channels == CHANNELS && !c.clockSync && q.playoutBuffered == 0
    requires Inv(c, s) && !s.phase.Running? && s.streamId == Some(stream) && s.latestEnd < U64_MAX
    requires SolidStore(s.packets, s.readPos.Floor, s.latestEnd, c.channels, maxFrames)
    requires c.fixedDelayFrames + c.HardTrimTolerance() + 1 + maxFrames <= c.CapacityFrames()
    requires s.readPos == s.readPos.Floor as real && Pure(s, sent) && SentInStreams(sent)
    requires Callback(c, s, q).1.Rendered?
    ensures var (t, rendering) := Callback(c, s, q);
      && OnTime(c, t, q, sent)
      && c.fixedDelayFrames + q.frames <= s.latestEnd
      && t.readPos == (s.latestEnd - c.fixedDelayFrames) as real
      && PlaysFrom(rendering, Followed(s, sent), q.frames, s.latestEnd - c.fixedDelayFrames - q.frames)
  {
    hide Pull, PlanOf, ReadPosition, SolidStore, WellFormedStore, Readable, Inv, Pure, SentInStreams, PlaysFrom;
    StartsInside(c, s);
    TrimForward(c, s, 0);
    StepKeeps(c, s, Trim(0));
    StepPure(c, s, sent, Trim(0));
    var trimmed := TrimToBudget(c, s, 0);
    RenderedSlots(c, trimmed, q, Pull(c, trimmed, q).1.slots);
    StartupPlan(c, trimmed, q);
    StartupWhole(c, trimmed, q);
    StartupLevel(c, trimmed, q);
    var plan := PlanOf(c, trimmed, q).value;
    var pos: nat := plan.state.readPos.Floor;
    EqualRatesNeed(c, q);
    WholeLevelIs(plan.state, Required(c, q));
    forall k: nat | pos <= k < pos + q.frames
      ensures Covered(trimmed.ledger.live, k)
    {
      SolidIsLive(c, trimmed, s.readPos.Floor, maxFrames, k);
    }
    WholePullPlays(c, trimmed, q, sent, pos);
    PullPure(c, trimmed, sent, q);
    StartupIsSteady(c, s, q, stream, maxFrames);
    SolidStoreFrom(s.packets, s.readPos.Floor, trimmed.readPos.Floor, s.latestEnd, c.channels, maxFrames);
    SolidReadable(s.packets, trimmed.readPos.Floor, s.latestEnd, c.channels, maxFrames);
    NoGapWhenDataIsThere(c, trimmed, q);
    WholeReads(pos, q.frames);
  }

  lemma StartupWhole(c: Config, s: State, q: Request)
    requires EqualRates(c, q) && !c.clockSync && s.readPos >= 0.0 && !s.phase.Running? && PlanOf(c, s, q).Some?
    requires s.readPos == s.readPos.Floor as real
    ensures var plan := PlanOf(c, s, q).value;
      plan.state.readPos == plan.state.readPos.Floor as real && plan.ratio == 1.0
  {
    EqualRatesNeed(c, q);
  }

  lemma StartupLevel(c: Config, s: State, q: Request)
    requires EqualRates(c, q) && q.playoutBuffered == 0 && s.latestEnd < U64_MAX && Required(c, q) <= s.latestEnd
    ensures Required(c, q) == c.fixedDelayFrames + q.frames
  {
    EqualRatesNeed(c, q);
  }
}
