/**
  From the senders' frames to the device: datagrams are parsed and queued by one thread, drained
  into the jitter buffer by the audio callback of another, and played
  (`receiver/src/main.rs`, `sender/src/main.rs`).
 */
module EndToEnd {
  import opened Wrappers
  import opened Numbers
  import opened Audio
  import opened Packet
  import opened PacketStore
  import opened JitterSpec
  import opened JitterSteady
  import opened Fidelity
  import opened Streams
  import opened Sender
  import opened Packetizer
  import JitterInvariants
  import Q = ReceiverQueue

  // ----- the receiver as a whole

  datatype Receiver = Receiver(queue: Q.Queue, jitter: State)

  const IDLE_RECEIVER: Receiver := Receiver(Q.EMPTY, INITIAL)

  /**
    The receiver's atomic steps: a datagram is heard and its push begins, the push takes a step,
    the callback takes one event into the buffer, or it trims and pulls.
   */
  datatype ReceiverStep =
    | Hear(bytes: seq<byte>, arrival: real)
    | Produce
    | Take
    | Play(request: Request)

  /** `process_receiver_event`. */
  function EventOf(e: Q.ReceiverEvent): Event {
    match e
    case PacketEvent(packet, arrival) => Arrive(packet, arrival)
    case InvalidPacket => ArriveInvalid
  }

  ghost function Advance(c: Config, capacity: nat, r: Receiver, step: ReceiverStep): Receiver
    requires c.Valid()
  {
    match step
    case Hear(bytes, arrival) => r.(queue := Q.Begin(r.queue, Q.Received(bytes, arrival)))
    case Produce => r.(queue := Q.Produce(capacity, r.queue))
    case Take =>
      if r.queue.events == [] then r
      else Receiver(Q.Pop(r.queue), JitterSpec.Step(c, r.jitter, EventOf(r.queue.events[0])))
    case Play(request) => r.(jitter := JitterSteady.Callback(c, r.jitter, request).0)
  }

  ghost function After(c: Config, capacity: nat, steps: seq<ReceiverStep>): Receiver
    requires c.Valid()
  {
    if steps == [] then IDLE_RECEIVER
    else Advance(c, capacity, After(c, capacity, steps[..|steps| - 1]), steps[|steps| - 1])
  }

  // ----- what may be heard

  /** A datagram that is a sent packet's, or is no packet at all. */
  predicate Genuine(sent: Sent, bytes: seq<byte>) {
    var r := Parse(bytes);
    r.Ok? ==> WasSent(sent, r.value)
  }

  /** Any loss, repetition, reordering or truncation of datagrams keeps to these. */
  predicate HearsOnly(sent: Sent, steps: seq<ReceiverStep>) {
    forall i :: 0 <= i < |steps| && steps[i].Hear? ==> Genuine(sent, steps[i].bytes)
  }

  /** A sent packet's datagram is heard as that packet, and cut short anywhere as no packet. */
  lemma SentDatagram(sent: Sent, p: AudioPacket, length: nat)
    requires SentInStreams(sent) && WasSent(sent, p) && length <= |Serialize(p)|
    ensures Parse(Serialize(p)) == Ok(p)
    ensures Genuine(sent, Serialize(p)) && Genuine(sent, Serialize(p)[..length])
    ensures length < |Serialize(p)| ==> Parse(Serialize(p)[..length]).Err?
  {
    hide Serialize, Parse;
    ParseOfSerialize(p);
    if length < |Serialize(p)| {
      TruncatedIsRefused(p, length);
    } else {
      assert Serialize(p)[..length] == Serialize(p);
    }
  }

  predicate SentEvent(sent: Sent, e: Q.ReceiverEvent) {
    e.PacketEvent? ==> WasSent(sent, e.packet)
  }

  predicate SentEvents(sent: Sent, q: Q.Queue) {
    && (forall e :: e in q.events ==> SentEvent(sent, e))
    && (!q.stage.Idle? ==> SentEvent(sent, q.stage.event))
  }

  // ----- invariants of the whole

  /** The queue and the buffer are in order and every drained event was counted, whatever was heard. */
  ghost predicate Orderly(c: Config, capacity: nat, r: Receiver)
    requires c.Valid()
  {
    && Q.QueueInv(capacity, r.queue) && JitterInvariants.Inv(c, r.jitter)
    && r.jitter.metrics.counts.received == |r.queue.drained|
  }

  /** The queue and the buffer hold only what was sent. */
  ghost predicate OnlySent(sent: Sent, r: Receiver) {
    SentEvents(sent, r.queue) && Pure(r.jitter, sent)
  }

  lemma JitterStepOrderly(c: Config, s: State, e: Event)
    requires c.Valid() && JitterInvariants.Inv(c, s)
    ensures var t := JitterSpec.Step(c, s, e);
      && JitterInvariants.Inv(c, t)
      && t.metrics.counts.received
         == s.metrics.counts.received + (if e.Arrive? || e.ArriveInvalid? then 1 else 0)
  {
    JitterInvariants.StepKeeps(c, s, e);
    StepCounts(c, s, e);
  }

  lemma InsertCounts(c: Config, s: State, p: AudioPacket, arrival: real)
    requires c.Valid()
    ensures Insert(c, s, p, arrival).0.metrics.counts.received == s.metrics.counts.received + 1
  {
    hide Accept, WrappingSub, TooLate, Foreign;
    var s0 := s.CountPackets(s.metrics.counts.(received := s.metrics.counts.received + 1));
    JitterInvariants.AcceptChanges(c, CountSequence(AdoptStream(s0, p), p.header.sequence), p, arrival);
  }

  lemma PullCounts(c: Config, s: State, q: Request)
    ensures Pull(c, s, q).0.metrics.counts == s.metrics.counts
  {
    hide Render, Prepare, SyncIfEnabled;
    JitterInvariants.SyncForward(c, s, q.playoutTime, q.playoutBuffered, Need(c, q));
    JitterInvariants.PrepareForward(c, Synced(c, s, q), Required(c, q), Need(c, q));
  }

  lemma StepCounts(c: Config, s: State, e: Event)
    requires c.Valid()
    ensures JitterSpec.Step(c, s, e).metrics.counts.received
         == s.metrics.counts.received + (if e.Arrive? || e.ArriveInvalid? then 1 else 0)
  {
    hide Insert, Pull;
    match e
    case Arrive(p, arrival) => InsertCounts(c, s, p, arrival);
    case ArriveInvalid =>
    case Trim(playoutBuffered) =>
    case PullEvent(q) => PullCounts(c, s, q);
  }

  lemma CallbackIsTwoSteps(c: Config, s: State, q: Request)
    requires c.Valid()
    ensures JitterSteady.Callback(c, s, q).0
         == JitterSpec.Step(c, JitterSpec.Step(c, s, Trim(0)), PullEvent(q))
  {
  }

  lemma QueueStepSent(capacity: nat, sent: Sent, q: Q.Queue, step: Q.QueueStep)
    requires SentEvents(sent, q) && (step.BeginStep? ==> SentEvent(sent, step.event))
    ensures SentEvents(sent, Q.Step(capacity, q, step))
  {
  }

  lemma AdvanceOrderly(c: Config, capacity: nat, r: Receiver, step: ReceiverStep)
    requires c.Valid() && 0 < capacity && Orderly(c, capacity, r)
    ensures Orderly(c, capacity, Advance(c, capacity, r, step))
  {
    hide Q.QueueInv, JitterInvariants.Inv, JitterSpec.Step, JitterSteady.Callback, Q.Received;
    match step
    case Hear(bytes, arrival) => Q.StepKeeps(capacity, r.queue, Q.BeginStep(Q.Received(bytes, arrival)));
    case Produce => Q.StepKeeps(capacity, r.queue, Q.ProduceStep);
    case Take =>
      if r.queue.events != [] {
        Q.StepKeeps(capacity, r.queue, Q.PopStep);
        JitterStepOrderly(c, r.jitter, EventOf(r.queue.events[0]));
      }
    case Play(request) =>
      CallbackIsTwoSteps(c, r.jitter, request);
      JitterStepOrderly(c, r.jitter, Trim(0));
      JitterStepOrderly(c, JitterSpec.Step(c, r.jitter, Trim(0)), PullEvent(request));
  }

  lemma AdvanceSent(c: Config, capacity: nat, sent: Sent, r: Receiver, step: ReceiverStep)
    requires c.Valid() && JitterInvariants.Inv(c, r.jitter) && OnlySent(sent, r)
    requires step.Hear? ==> Genuine(sent, step.bytes)
    ensures OnlySent(sent, Advance(c, capacity, r, step))
  {
    hide SentEvent, JitterInvariants.Inv, Pure, JitterSpec.Step, JitterSteady.Callback, Parse, WasSent;
    match step
    case Hear(bytes, arrival) => HeardIsSent(sent, bytes, arrival);
    case Produce => QueueStepSent(capacity, sent, r.queue, Q.ProduceStep);
    case Take =>
      if r.queue.events != [] {
        QueueStepSent(capacity, sent, r.queue, Q.PopStep);
        EventIsSent(sent, r.queue.events[0]);
        StepPure(c, r.jitter, sent, EventOf(r.queue.events[0]));
      }
    case Play(request) =>
      CallbackIsTwoSteps(c, r.jitter, request);
      JitterInvariants.StepKeeps(c, r.jitter, Trim(0));
      StepPure(c, r.jitter, sent, Trim(0));
      StepPure(c, JitterSpec.Step(c, r.jitter, Trim(0)), sent, PullEvent(request));
  }

  lemma HeardIsSent(sent: Sent, bytes: seq<byte>, arrival: real)
    requires Genuine(sent, bytes)
    ensures SentEvent(sent, Q.Received(bytes, arrival))
  {
  }

  lemma EventIsSent(sent: Sent, e: Q.ReceiverEvent)
    requires SentEvent(sent, e)
    ensures EventOf(e).Arrive? ==> WasSent(sent, EventOf(e).packet)
    ensures EventOf(e).Arrive? || EventOf(e).ArriveInvalid?
  {
  }

  /** Every reachable state of the two threads, whatever bytes the socket delivers. */
  lemma {:induction false} AfterOrderly(c: Config, capacity: nat, steps: seq<ReceiverStep>)
    requires c.Valid() && 0 < capacity
    ensures Orderly(c, capacity, After(c, capacity, steps))
  {
    hide Orderly, Advance;
    if steps == [] {
      IdleOrderly(c, capacity);
    } else {
      var init := steps[..|steps| - 1];
      AfterOrderly(c, capacity, init);
      AdvanceOrderly(c, capacity, After(c, capacity, init), steps[|steps| - 1]);
    }
  }

  lemma IdleOrderly(c: Config, capacity: nat)
    requires c.Valid()
    ensures Orderly(c, capacity, IDLE_RECEIVER)
  {
    hide JitterInvariants.Inv, Q.QueueInv;
    JitterInvariants.RunKeeps(c, []);
    assert Run(c, INITIAL, []) == INITIAL;
    Q.EmptyInv(capacity);
  }

  /** Hearing only what was sent, queue and buffer hold only that. */
  lemma {:induction false} AfterSent(c: Config, capacity: nat, sent: Sent, steps: seq<ReceiverStep>)
    requires c.Valid() && 0 < capacity && HearsOnly(sent, steps)
    ensures OnlySent(sent, After(c, capacity, steps))
  {
    hide Orderly, OnlySent, Advance, Genuine;
    if steps == [] {
      assert OnlySent(sent, IDLE_RECEIVER) by { IdleSent(sent); }
    } else {
      var init := steps[..|steps| - 1];
      AfterSent(c, capacity, sent, init);
      AfterOrderly(c, capacity, init);
      OrderlyInv(c, capacity, After(c, capacity, init));
      AdvanceSent(c, capacity, sent, After(c, capacity, init), steps[|steps| - 1]);
    }
  }

  lemma IdleSent(sent: Sent)
    ensures OnlySent(sent, IDLE_RECEIVER)
  {
  }

  lemma OrderlyInv(c: Config, capacity: nat, r: Receiver)
    requires c.Valid() && Orderly(c, capacity, r)
    ensures JitterInvariants.Inv(c, r.jitter)
  {
  }

  /**
    Every event the queue ever accepted is accounted for: still queued, discarded, evicted or in
    exactly one of the buffer's outcomes, and what the buffer accepted is stored, evicted, pruned
    or cleared.
   */
  lemma EveryDatagramAccounted(c: Config, capacity: nat, steps: seq<ReceiverStep>)
    requires c.Valid() && 0 < capacity
    ensures var r := After(c, capacity, steps);
      var n, ledger := r.jitter.metrics.counts, r.jitter.ledger;
      && |r.queue.accepted| + ledger.evicted
         == |r.queue.events| + |r.queue.discarded| + n.accepted + n.duplicate + n.invalid + n.foreign + n.late
      && n.accepted == |r.jitter.packets| + ledger.evicted + ledger.pruned + ledger.cleared
  {
    hide After;
    AfterOrderly(c, capacity, steps);
  }

  // ----- what is heard

  /**
    No wrong audio at the device: for any senders of contiguous packets, whatever happens to the
    datagrams and however the two threads interleave, a callback plays the followed stream.
   */
  lemma CallbackPlaysStream(c: Config, capacity: nat, sent: Sent, steps: seq<ReceiverStep>, q: Request)
    requires c.Valid() && c.channels == CHANNELS && 0 < capacity
    requires SentInStreams(sent) && HearsOnly(sent, steps)
    ensures PlaysStream(c, TrimToBudget(c, After(c, capacity, steps).jitter, 0), sent, q)
  {
    hide PlaysStream, JitterInvariants.Inv, Pure, After, TrimToBudget;
    AfterOrderly(c, capacity, steps);
    AfterSent(c, capacity, sent, steps);
    var before := After(c, capacity, steps).jitter;
    JitterInvariants.StepKeeps(c, before, Trim(0));
    StepPure(c, before, sent, Trim(0));
    PullPlaysStream(c, TrimToBudget(c, before, 0), sent, q);
  }

  /** What a stream's sender was given: frames from the resampler, or samples the packetizer converted. */
  datatype Source =
    | Captured(frames: FrameSeq)
    | Converted(samples: seq<i16>)

  /** A source as 16-bit frames. */
  function OnWire(source: Source): FrameSeq {
    match source
    case Captured(frames) => seq(|frames|, i requires 0 <= i < |frames| => Quantized(frames[i]))
    case Converted(samples) => FramesOf(samples)
  }

  /** The packets are what a capture sender, or a packetizer, has made of its source. */
  ghost predicate SentBy(stream: u64, packets: seq<AudioPacket>, source: Source) {
    match source
    case Captured(frames) => Transmitted(stream, packets, |frames|, frames)
    case Converted(samples) => Packetized(stream, packets, samples)
  }

  type Sources = map<u64, Source>

  ghost predicate SentFrom(sent: Sent, sources: Sources) {
    && sent.Keys == sources.Keys
    && forall stream :: stream in sent ==> SentBy(stream, sent[stream], sources[stream])
  }

  /** Either sender's packets are one stream from position zero whose frames are the source's. */
  lemma SenderCarries(stream: u64, packets: seq<AudioPacket>, source: Source)
    requires SentBy(stream, packets, source)
    ensures Contiguous(stream, packets) && StreamFrames(packets) == OnWire(source)
    ensures packets != [] ==> packets[0].header.samplePosition == 0
  {
    hide FramesOf, Quantized, Payloads;
    match source
    case Captured(frames) =>
    case Converted(samples) => StreamOfPayloads(packets);
  }

  /** The stream's frame at a position is the source's. */
  lemma StreamFrameIsSource(stream: u64, packets: seq<AudioPacket>, source: Source, pos: nat)
    requires SentBy(stream, packets, source)
    ensures forall p :: p in packets ==> p.WellFormed()
    ensures InStream(packets, pos) ==> pos < |OnWire(source)| && StreamFrame(packets, pos) == OnWire(source)[pos]
  {
    hide SentBy, OnWire;
    SenderCarries(stream, packets, source);
  }

  /** A source at a read position: interpolated, held before a gap, silent in one. */
  ghost function HeardAt(frames: FrameSeq, live: Store, readPos: real): Slot {
    var pos: nat := Max(readPos.Floor, 0);
    if !Covered(live, pos) || pos >= |frames| then None
    else if !Covered(live, pos + 1) || pos + 1 >= |frames| then Some(frames[pos])
    else Some(Lerp(frames[pos], frames[pos + 1], readPos - pos as real))
  }

  /**
    What is heard of a source on a line is the line, at any read position between two live frames;
    before a gap the last frame is held, and in the gap it is silent.
   */
  lemma HeardOnLine(frames: FrameSeq, a: StereoFrame, d: StereoFrame, live: Store, pos: nat, frac: real)
    requires OnLine(frames, a, d) && 0.0 <= frac < 1.0 && pos + 1 < |frames|
    ensures HeardAt(frames, live, pos as real + frac) ==
      if !Covered(live, pos) then None
      else if !Covered(live, pos + 1) then Some(LineAt(a, d, pos as real))
      else Some(LineAt(a, d, pos as real + frac))
  {
    hide Lerp, LineAt, Covered;
    assert (pos as real + frac).Floor == pos;
    LerpBetween(frames, a, d, pos, frac);
  }

  lemma ExpectedIsHeard(stream: u64, packets: seq<AudioPacket>, source: Source, live: Store, readPos: real)
    requires SentBy(stream, packets, source)
    ensures forall p :: p in packets ==> p.WellFormed()
    ensures Expected(packets, live, readPos) == HeardAt(OnWire(source), live, readPos)
  {
    hide SentBy, OnWire, Lerp, Covered;
    SenderCarries(stream, packets, source);
  }

  /** The frames of the followed stream; none before a stream is followed. */
  function FollowedFrames(s: State, sources: Sources): FrameSeq {
    if s.streamId.Some? && s.streamId.value in sources then OnWire(sources[s.streamId.value]) else []
  }

  lemma FollowedExpected(s: State, sent: Sent, sources: Sources, readPos: real)
    requires SentFrom(sent, sources)
    ensures forall p :: p in Followed(s, sent) ==> p.WellFormed()
    ensures Expected(Followed(s, sent), s.ledger.live, readPos)
         == HeardAt(FollowedFrames(s, sources), s.ledger.live, readPos)
  {
    hide SentBy, OnWire, Expected, HeardAt;
    if s.streamId.Some? && s.streamId.value in sent {
      var stream := s.streamId.value;
      ExpectedIsHeard(stream, sent[stream], sources[stream], s.ledger.live, readPos);
    } else {
      NothingFollowed(s.ledger.live, readPos);
    }
  }

  lemma NothingFollowed(live: Store, readPos: real)
    ensures Expected([], live, readPos) == None == HeardAt([], live, readPos)
  {
  }

  lemma SourcesInStreams(sent: Sent, sources: Sources)
    requires SentFrom(sent, sources)
    ensures SentInStreams(sent)
  {
    hide SentBy, Contiguous;
    forall stream | stream in sent
      ensures Contiguous(stream, sent[stream])
    {
      SenderCarries(stream, sent[stream], sources[stream]);
    }
  }

  /** What the callback writes, if it renders, is slot by slot the followed source at the read position. */
  ghost predicate PlaysSource(c: Config, before: State, sources: Sources, q: Request) {
    var s := TrimToBudget(c, before, 0);
    match JitterSteady.Callback(c, before, q).1
    case Silent => true
    case Rendered(slots) =>
      && PlanOf(c, s, q).Some? && |slots| == q.frames
      && forall k :: 0 <= k < |slots| ==>
           slots[k] == HeardAt(FollowedFrames(s, sources), s.ledger.live, PulledFrom(PlanOf(c, s, q).value, k))
  }

  lemma StreamIsSource(c: Config, before: State, sent: Sent, sources: Sources, q: Request)
    requires SentFrom(sent, sources) && PlaysStream(c, TrimToBudget(c, before, 0), sent, q)
    ensures PlaysSource(c, before, sources, q)
  {
    hide Pull, PlanOf, Expected, HeardAt, SentFrom, TrimToBudget;
    var s := TrimToBudget(c, before, 0);
    var rendering := Pull(c, s, q).1;
    if rendering.Rendered? {
      var slots := rendering.slots;
      forall k | 0 <= k < |slots|
        ensures slots[k] == HeardAt(FollowedFrames(s, sources), s.ledger.live, PulledFrom(PlanOf(c, s, q).value, k))
      {
        FollowedExpected(s, sent, sources, PulledFrom(PlanOf(c, s, q).value, k));
      }
    }
  }

  /**
    End to end, for both senders: every frame a rendering callback writes is the followed stream's
    source frame at its read position, as 16-bit samples and interpolated, or silence where no
    live packet covers it.
   */
  lemma CallbackPlaysSource(c: Config, capacity: nat, sent: Sent, sources: Sources, steps: seq<ReceiverStep>,
                            q: Request)
    requires c.Valid() && c.channels == CHANNELS && 0 < capacity
    requires SentFrom(sent, sources) && HearsOnly(sent, steps)
    ensures PlaysSource(c, After(c, capacity, steps).jitter, sources, q)
  {
    hide PlaysStream, PlaysSource, SentFrom, After, TrimToBudget;
    SourcesInStreams(sent, sources);
    CallbackPlaysStream(c, capacity, sent, steps, q);
    StreamIsSource(c, After(c, capacity, steps).jitter, sent, sources, q);
  }
}
