/**
  Packets that reach the receiver: what the socket hears of a sender's datagrams becomes inserts of
  its packets, in order, so that the steady playback of the buffer is that of the whole receiver
  (`receiver/src/main.rs`).
 */
module Delivery {
  import opened Wrappers
  import opened Numbers
  import opened Packet
  import opened JitterSpec
  import opened JitterSteady
  import opened JitterExact
  import opened Fidelity
  import opened Streams
  import opened Sender
  import opened ReceiverTiming
  import opened EndToEnd
  import Q = ReceiverQueue

  // ----- runs of the receiver

  /** What some steps make of a receiver. */
  ghost function From(c: Config, capacity: nat, r: Receiver, steps: seq<ReceiverStep>): Receiver
    requires c.Valid()
    decreases |steps|
  {
    if steps == [] then r else From(c, capacity, Advance(c, capacity, r, steps[0]), steps[1..])
  }

  lemma {:induction false} FromJoins(c: Config, capacity: nat, r: Receiver, a: seq<ReceiverStep>,
                                     b: seq<ReceiverStep>)
    requires c.Valid()
    ensures From(c, capacity, From(c, capacity, r, a), b) == From(c, capacity, r, a + b)
    decreases |a|
  {
    hide Advance;
    if a == [] {
      assert a + b == b;
    } else {
      FromJoins(c, capacity, Advance(c, capacity, r, a[0]), a[1..], b);
      assert (a + b)[1..] == a[1..] + b;
    }
  }

  lemma {:induction false} AfterIsFrom(c: Config, capacity: nat, steps: seq<ReceiverStep>)
    requires c.Valid()
    ensures After(c, capacity, steps) == From(c, capacity, IDLE_RECEIVER, steps)
  {
    hide Advance;
    if steps != [] {
      var init, last := steps[..|steps| - 1], steps[|steps| - 1];
      AfterIsFrom(c, capacity, init);
      FromJoins(c, capacity, IDLE_RECEIVER, init, [last]);
      OneStep(c, capacity, After(c, capacity, init), last);
      assert steps == init + [last];
    }
  }

  lemma OneStep(c: Config, capacity: nat, r: Receiver, step: ReceiverStep)
    requires c.Valid()
    ensures From(c, capacity, r, [step]) == Advance(c, capacity, r, step)
  {
    hide Advance;
    assert [step][1..] == [];
  }

  // ----- deliveries

  /** Each packet's datagram is heard, queued and taken, one after the other. */
  function Deliver(feed: seq<Arrival>): seq<ReceiverStep>
    decreases |feed|
  {
    if feed == [] then []
    else [Hear(Serialize(feed[0].packet), feed[0].time), Produce, Take] + Deliver(feed[1..])
  }

  /** Nothing is queued or about to be. */
  predicate Ready(r: Receiver) {
    r.queue.stage.Idle? && r.queue.events == []
  }

  predicate WellFormedFeed(feed: seq<Arrival>) {
    forall a :: a in feed ==> a.packet.WellFormed()
  }

  /** A well-formed packet's datagram becomes an insert of that packet. */
  lemma OneDelivered(c: Config, capacity: nat, r: Receiver, p: AudioPacket, time: real)
    requires c.Valid() && 0 < capacity && Ready(r) && p.WellFormed()
    ensures var t := From(c, capacity, r, [Hear(Serialize(p), time), Produce, Take]);
      && Ready(t) && t.jitter == Insert(c, r.jitter, p, time).0
      && t.queue.discarded == r.queue.discarded && t.queue.reports == r.queue.reports + [false]
  {
    hide Insert, Serialize, Parse, AudioPacket.WellFormed;
    ParseOfSerialize(p);
    var heard := Advance(c, capacity, r, Hear(Serialize(p), time));
    var queued := Advance(c, capacity, heard, Produce);
    assert queued.queue.events == [Q.PacketEvent(p, time)];
    assert [Hear(Serialize(p), time), Produce, Take][1..] == [Produce, Take];
    assert [Produce, Take][1..] == [Take];
    OneStep(c, capacity, queued, Take);
  }

  /** Bytes that are no packet count as received and invalid, and change nothing else. */
  lemma GarbageDelivered(c: Config, capacity: nat, r: Receiver, bytes: seq<byte>, time: real)
    requires c.Valid() && 0 < capacity && Ready(r) && Parse(bytes).Err?
    ensures var (t, n) := (From(c, capacity, r, [Hear(bytes, time), Produce, Take]), r.jitter.metrics.counts);
      && Ready(t)
      && t.jitter == r.jitter.CountPackets(n.(received := n.received + 1, invalid := n.invalid + 1))
  {
    hide Parse;
    var heard := Advance(c, capacity, r, Hear(bytes, time));
    var queued := Advance(c, capacity, heard, Produce);
    assert queued.queue.events == [Q.InvalidPacket];
    assert [Hear(bytes, time), Produce, Take][1..] == [Produce, Take];
    assert [Produce, Take][1..] == [Take];
    OneStep(c, capacity, queued, Take);
  }

  lemma {:induction false} FeedDelivered(c: Config, capacity: nat, r: Receiver, feed: seq<Arrival>)
    requires c.Valid() && 0 < capacity && Ready(r) && WellFormedFeed(feed)
    ensures var t := From(c, capacity, r, Deliver(feed));
      Ready(t) && t.jitter == InsertAll(c, r.jitter, feed) && t.queue.discarded == r.queue.discarded
    decreases |feed|
  {
    hide Insert, Serialize, AudioPacket.WellFormed, Advance, From;
    if feed == [] {
      NoSteps(c, capacity, r);
    } else {
      var first := [Hear(Serialize(feed[0].packet), feed[0].time), Produce, Take];
      OneDelivered(c, capacity, r, feed[0].packet, feed[0].time);
      FeedDelivered(c, capacity, From(c, capacity, r, first), feed[1..]);
      FromJoins(c, capacity, r, first, Deliver(feed[1..]));
    }
  }

  lemma NoSteps(c: Config, capacity: nat, r: Receiver)
    requires c.Valid()
    ensures From(c, capacity, r, []) == r
  {
  }

  // ----- rounds of the callback

  /** Round after round: its packets are delivered, then the callback plays. */
  function PlayRounds(feeds: seq<seq<Arrival>>, q: Request): seq<ReceiverStep>
    decreases |feeds|
  {
    if feeds == [] then [] else Deliver(feeds[0]) + [Play(q)] + PlayRounds(feeds[1..], q)
  }

  predicate WellFormedFeeds(feeds: seq<seq<Arrival>>) {
    forall feed :: feed in feeds ==> WellFormedFeed(feed)
  }

  lemma RoundDelivered(c: Config, capacity: nat, r: Receiver, feed: seq<Arrival>, q: Request)
    requires c.Valid() && 0 < capacity && Ready(r) && WellFormedFeed(feed)
    ensures var t := From(c, capacity, r, Deliver(feed) + [Play(q)]);
      Ready(t) && t.jitter == Callback(c, InsertAll(c, r.jitter, feed), q).0
  {
    hide Callback, InsertAll, Deliver, From, WellFormedFeed;
    FeedDelivered(c, capacity, r, feed);
    FromJoins(c, capacity, r, Deliver(feed), [Play(q)]);
    OneStep(c, capacity, From(c, capacity, r, Deliver(feed)), Play(q));
  }

  lemma RoundIsCallback(c: Config, s: State, feed: seq<Arrival>, q: Request)
    requires c.Valid()
    ensures Callbacks(c, q, true)(s, feed) == Callback(c, InsertAll(c, s, feed), q).0
  {
    hide Pull, InsertAll, TrimToBudget;
    assert IsCallback(Callbacks(c, q, true), c, q, true);
    assert Callbacks(c, q, true)(s, feed) == PlayRound(c, s, feed, q, true);
  }

  lemma {:induction false} RoundsDelivered(c: Config, capacity: nat, r: Receiver, feeds: seq<seq<Arrival>>, q: Request)
    requires c.Valid() && 0 < capacity && Ready(r) && WellFormedFeeds(feeds)
    ensures var t := From(c, capacity, r, PlayRounds(feeds, q));
      Ready(t) && t.jitter == Rounds(Callbacks(c, q, true), r.jitter, feeds)
    decreases |feeds|
  {
    hide Callback, Callbacks, InsertAll, Deliver, From, WellFormedFeed;
    if feeds == [] {
      NoSteps(c, capacity, r);
    } else {
      var first := Deliver(feeds[0]) + [Play(q)];
      RoundDelivered(c, capacity, r, feeds[0], q);
      RoundIsCallback(c, r.jitter, feeds[0], q);
      RoundsDelivered(c, capacity, From(c, capacity, r, first), feeds[1..], q);
      FromJoins(c, capacity, r, first, PlayRounds(feeds[1..], q));
    }
  }

  // ----- from the network to the device

  /** Slots that are a source's frames, from one of them on, with nothing missing and nothing interpolated. */
  ghost predicate PlaysFrames(rendering: Rendering, frames: FrameSeq, n: nat, first: nat) {
    && rendering.Rendered? && |rendering.slots| == n && first + n <= |frames|
    && forall i :: 0 <= i < n ==> rendering.slots[i] == Some(frames[first + i])
  }

  lemma SentIsWellFormed(sent: Sent, feed: seq<Arrival>)
    requires SentInStreams(sent) && FeedSent(sent, feed)
    ensures WellFormedFeed(feed)
  {
    forall a | a in feed
      ensures a.packet.WellFormed()
    {
      var stream := a.packet.header.streamId;
      assert WasSent(sent, a.packet) && Contiguous(stream, sent[stream]);
    }
  }

  lemma PlaysItsSource(rendering: Rendering, stream: u64, packets: seq<AudioPacket>, source: Source, n: nat, first: nat)
    requires PlaysFrom(rendering, packets, n, first) && SentBy(stream, packets, source) && n > 0
    ensures PlaysFrames(rendering, OnWire(source), n, first)
  {
    hide SentBy, OnWire, InStream, StreamFrame;
    forall i | 0 <= i < n
      ensures first + i < |OnWire(source)| && rendering.slots[i] == Some(OnWire(source)[first + i])
    {
      assert PlaysAt(rendering.slots[i], packets, first + i);
      StreamFrameIsSource(stream, packets, source, first + i);
    }
    assert rendering.slots[n - 1].Some? && first + (n - 1) < |OnWire(source)|;
  }

  /**
    What a steady stream brings: in order, a feed that fills the buffer to within its start-up
    window, then before each callback, the next one included, exactly what one callback plays.
   */
  ghost predicate Supplied(c: Config, q: Request, stream: u64, from: nat, maxFrames: nat, feed: seq<Arrival>,
                           feeds: seq<seq<Arrival>>, next: seq<Arrival>)
  {
    && EqualRates(c, q) && !c.clockSync && q.playoutBuffered == 0
    && feed != [] && InOrder(c, stream, from, maxFrames, feed)
    && c.fixedDelayFrames + q.frames <= FrameCount(feed) <= c.fixedDelayFrames + c.HardTrimTolerance()
    && SteadyFeeds(c, stream, from + FrameCount(feed), maxFrames, q.frames, feeds)
    && InOrder(c, stream, from + FrameCount(feed) + Offset(|feeds|, q.frames), maxFrames, next)
    && FrameCount(next) == q.frames
    && from + FrameCount(feed) + Offset(|feeds|, q.frames) + q.frames < U64_MAX
  }

  lemma SuppliedPlays(args: TimingArgs, q: Request, stream: u64, from: nat, maxFrames: nat, feed: seq<Arrival>,
                      feeds: seq<seq<Arrival>>, next: seq<Arrival>, sent: Sent)
    requires Reasonable(args) && maxFrames < 16_800
    requires Supplied(Configured(args).value, q, stream, from, maxFrames, feed, feeds, next)
    requires SentInStreams(sent) && FeedSent(sent, feed) && FeedsSent(sent, feeds) && FeedSent(sent, next)
    ensures var (c, first) := (Configured(args).value, from + FrameCount(feed) - AskedFor(args) - q.frames);
      && c.Valid() && stream in sent && first >= 0 && q.frames > 0
      && var started := Callback(c, InsertAll(c, INITIAL, feed), q);
         var later := Rounds(Callbacks(c, q, true), started.0, feeds);
         && PlaysFrom(started.1, sent[stream], q.frames, first)
         && PlaysFrom(Heard(c, later, next, q, true), sent[stream], q.frames,
                      first + q.frames + Offset(|feeds|, q.frames))
  {
    hide Configured, Callback, Callbacks, Rounds, SteadyFeeds, InOrder, InsertAll, FeedSent, FeedsSent, Heard;
    hide PlaysFrom, SentInStreams, FrameCount, HasRoom, AskedFor;
    ConfiguredIff(args);
    ConfiguredRoom(args);
    ConfiguredPlaysExactly(args, q, stream, from, maxFrames, feed, feeds, next, sent);
  }

  /**
    The whole receiver on a sender's datagrams: idle at first, it hears a steady stream and plays.
    The first callback plays the source's frames from the fixed delay and one callback before the
    newest end, and each later one exactly the frames that come next.
   */
  lemma ReceiverPlaysSource(args: TimingArgs, capacity: nat, q: Request, stream: u64, from: nat, maxFrames: nat,
                            feed: seq<Arrival>, feeds: seq<seq<Arrival>>, next: seq<Arrival>, sent: Sent,
                            sources: Sources)
    requires Reasonable(args) && maxFrames < 16_800 && 0 < capacity
    requires Supplied(Configured(args).value, q, stream, from, maxFrames, feed, feeds, next)
    requires SentFrom(sent, sources) && FeedSent(sent, feed) && FeedsSent(sent, feeds) && FeedSent(sent, next)
    ensures var (c, first) := (Configured(args).value, from + FrameCount(feed) - AskedFor(args) - q.frames);
      && c.Valid() && stream in sources && first >= 0
      && var heard := Deliver(feed);
         var later := heard + [Play(q)] + PlayRounds(feeds, q) + Deliver(next);
         && PlaysFrames(Callback(c, After(c, capacity, heard).jitter, q).1, OnWire(sources[stream]), q.frames, first)
         && PlaysFrames(Callback(c, After(c, capacity, later).jitter, q).1, OnWire(sources[stream]), q.frames,
                        first + q.frames + Offset(|feeds|, q.frames))
  {
    hide Configured, Callback, Callbacks, Rounds, Supplied, InsertAll, FeedSent, FeedsSent, SentFrom, HasRoom;
    hide PlaysFrom, PlaysFrames, SentInStreams, Deliver, PlayRounds, After, FrameCount, OnWire, Heard, AskedFor;
    hide SentBy;
    SourcesInStreams(sent, sources);
    SuppliedPlays(args, q, stream, from, maxFrames, feed, feeds, next, sent);
    FollowsSource(sent, sources, stream);
    var (c, first: nat) := (Configured(args).value, from + FrameCount(feed) - AskedFor(args) - q.frames);
    DeliveredStates(c, capacity, feed, feeds, next, q, sent);
    var (packets, source) := (sent[stream], sources[stream]);
    var heard := Deliver(feed);
    var later := heard + [Play(q)] + PlayRounds(feeds, q) + Deliver(next);
    PlaysItsSource(Callback(c, After(c, capacity, heard).jitter, q).1, stream, packets, source, q.frames, first);
    PlaysItsSource(Callback(c, After(c, capacity, later).jitter, q).1, stream, packets, source, q.frames,
                   first + q.frames + Offset(|feeds|, q.frames));
  }

  lemma FollowsSource(sent: Sent, sources: Sources, stream: u64)
    requires SentFrom(sent, sources) && stream in sent
    ensures stream in sources && SentBy(stream, sent[stream], sources[stream])
  {
    hide SentBy;
  }

  lemma HeardIsCallback(c: Config, s: State, feed: seq<Arrival>, q: Request)
    requires c.Valid()
    ensures Heard(c, s, feed, q, true) == Callback(c, InsertAll(c, s, feed), q).1
  {
    hide Pull, InsertAll, TrimToBudget;
  }

  /** The buffer of the receiver, fed and played by datagrams, is the buffer fed and played by itself. */
  lemma DeliveredStates(c: Config, capacity: nat, feed: seq<Arrival>, feeds: seq<seq<Arrival>>, next: seq<Arrival>,
                        q: Request, sent: Sent)
    requires c.Valid() && 0 < capacity && SentInStreams(sent)
    requires FeedSent(sent, feed) && FeedsSent(sent, feeds) && FeedSent(sent, next)
    ensures var started := Callback(c, InsertAll(c, INITIAL, feed), q).0;
      var later := Rounds(Callbacks(c, q, true), started, feeds);
      && After(c, capacity, Deliver(feed)).jitter == InsertAll(c, INITIAL, feed)
      && After(c, capacity, Deliver(feed) + [Play(q)] + PlayRounds(feeds, q) + Deliver(next)).jitter
         == InsertAll(c, later, next)
      && Callback(c, InsertAll(c, later, next), q).1 == Heard(c, later, next, q, true)
  {
    HeardIsCallback(c, Rounds(Callbacks(c, q, true), Callback(c, InsertAll(c, INITIAL, feed), q).0, feeds), next, q);
    hide Heard, Callback, Callbacks, Rounds, InsertAll, FeedSent, SentInStreams, Deliver, PlayRounds, From, After;
    hide WellFormedFeed;
    SentIsWellFormed(sent, feed);
    SentIsWellFormed(sent, next);
    forall f | f in feeds
      ensures WellFormedFeed(f)
    {
      SentIsWellFormed(sent, f);
    }
    var idle, start := IDLE_RECEIVER, Deliver(feed) + [Play(q)];
    FeedDelivered(c, capacity, idle, feed);
    AfterIsFrom(c, capacity, Deliver(feed));
    RoundDelivered(c, capacity, idle, feed, q);
    var r := From(c, capacity, idle, start);
    RoundsDelivered(c, capacity, r, feeds, q);
    FromJoins(c, capacity, idle, start, PlayRounds(feeds, q));
    var played := start + PlayRounds(feeds, q);
    FeedDelivered(c, capacity, From(c, capacity, idle, played), next);
    FromJoins(c, capacity, idle, played, Deliver(next));
    AfterIsFrom(c, capacity, played + Deliver(next));
  }
}
