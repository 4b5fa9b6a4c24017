/**
  No wrong audio is ever played: whatever the network loses, repeats or reorders, every frame a
  pull renders is the followed stream's frame at the read position, and it is silence exactly
  where no packet that was accepted and not evicted covers that position.
 */
module Fidelity {
  import opened Wrappers
  import opened Numbers
  import opened Audio
  import opened Packet
  import opened PacketStore
  import opened JitterSpec
  import opened JitterRender
  import opened JitterInvariants
  import opened Streams

  /** What senders sent, by stream. */
  type Sent = map<u64, seq<AudioPacket>>

  ghost predicate SentInStreams(sent: Sent) {
    forall stream :: stream in sent ==> Contiguous(stream, sent[stream])
  }

  predicate WasSent(sent: Sent, p: AudioPacket) {
    p.header.streamId in sent && p in sent[p.header.streamId]
  }

  /** The packet at `k` is one the stream's sender sent. */
  ghost predicate StoredFrom(packets: seq<AudioPacket>, k: nat, stored: PacketFrames) {
    exists p :: p in packets && p.header.samplePosition == k && stored == PacketFrames(p.payload, p.header.frames)
  }

  /** Everything live is what the followed stream's sender sent. */
  ghost predicate Pure(s: State, sent: Sent) {
    s.ledger.live != map[] ==>
      && s.streamId.Some? && s.streamId.value in sent
      && forall k :: k in s.ledger.live ==> StoredFrom(sent[s.streamId.value], k, s.ledger.live[k])
  }

  // ----- purity over runs

  ghost predicate OnlySentArrives(sent: Sent, events: seq<Event>) {
    forall e :: e in events && e.Arrive? ==> WasSent(sent, e.packet)
  }

  lemma AdoptedPure(c: Config, s: State, sent: Sent, p: AudioPacket, arrival: real, outcome: Outcome)
    requires c.Valid() && Pure(s, sent) && WasSent(sent, p) && s.streamId == Some(p.header.streamId)
    ensures Pure(InsertAdopted(c, s, p, arrival, outcome).0, sent)
  {
    if !TooLate(s, p) && p.header.samplePosition !in s.packets {
      var stored := Stored(s, p, arrival);
      assert StoredFrom(sent[p.header.streamId], p.header.samplePosition, PacketFrames(p.payload, p.header.frames));
      assert Pure(stored, sent);
      AnchorsOnly(c, stored, p.header.samplePosition, arrival);
    }
  }

  lemma InsertPure(c: Config, s: State, sent: Sent, p: AudioPacket, arrival: real)
    requires c.Valid() && Inv(c, s) && Pure(s, sent) && WasSent(sent, p)
    ensures Pure(Insert(c, s, p, arrival).0, sent)
  {
    hide InsertAdopted;
    var s0 := s.CountPackets(s.metrics.counts.(received := s.metrics.counts.received + 1));
    if FormatMatches(c, p) && !Foreign(s0, p, arrival) {
      var outcome :=
        if s0.streamId.Some? && s0.streamId.value != p.header.streamId then Resynced else Outcome.Accepted;
      AdoptedPure(c, CountSequence(AdoptStream(s0, p), p.header.sequence), sent, p, arrival, outcome);
    }
  }

  lemma PullLedger(c: Config, s: State, q: Request)
    requires c.Valid() && Inv(c, s)
    ensures var t := Pull(c, s, q).0;
      t.streamId == s.streamId && (t.ledger.live == s.ledger.live || t.ledger.live == map[])
  {
    if c.channels > 0 && q.frames > 0 {
      PlanKeeps(c, s, q);
    }
  }

  lemma StepPure(c: Config, s: State, sent: Sent, e: Event)
    requires c.Valid() && Inv(c, s) && Pure(s, sent)
    requires e.Arrive? ==> WasSent(sent, e.packet)
    ensures Pure(Step(c, s, e), sent)
  {
    match e
    case Arrive(p, arrival) => InsertPure(c, s, sent, p, arrival);
    case ArriveInvalid =>
    case Trim(playoutBuffered) =>
    case PullEvent(q) => PullLedger(c, s, q);
  }

  lemma {:induction false} RunPure(c: Config, sent: Sent, events: seq<Event>)
    requires c.Valid() && OnlySentArrives(sent, events)
    ensures Pure(Run(c, INITIAL, events), sent)
  {
    if events != [] {
      var before := events[..|events| - 1];
      RunPure(c, sent, before);
      RunKeeps(c, before);
      StepPure(c, Run(c, INITIAL, before), sent, events[|events| - 1]);
    }
  }

  /** Stream purity in every reachable state: whatever is stored is what the followed stream's sender sent. */
  lemma StoredIsSent(c: Config, sent: Sent, events: seq<Event>, k: nat)
    requires c.Valid() && OnlySentArrives(sent, events)
    ensures var s := Run(c, INITIAL, events);
      k in s.packets ==>
        s.streamId.Some? && s.streamId.value in sent && StoredFrom(sent[s.streamId.value], k, s.packets[k])
  {
    hide Run, PhaseInv, CapacityInv, GapInv, Accounted;
    RunPure(c, sent, events);
    RunKeeps(c, events);
  }

  // ----- what is played

  lemma PureDisjoint(s: State, sent: Sent)
    requires Pure(s, sent) && SentInStreams(sent)
    ensures Disjoint(s.ledger.live)
  {
    var live := s.ledger.live;
    forall j, k | j in live && k in live && j < k
      ensures End(live, j) <= k
    {
      var stream := s.streamId.value;
      var p :| p in sent[stream] && p.header.samplePosition == j && live[j] == PacketFrames(p.payload, p.header.frames);
      var q :| q in sent[stream] && q.header.samplePosition == k && live[k] == PacketFrames(q.payload, q.header.frames);
      SameOrApart(stream, sent[stream], p, q);
    }
  }

  /** The stream's frame at a position, counted from its first packet. */
  predicate InStream(packets: seq<AudioPacket>, pos: int)
    requires forall p :: p in packets ==> p.WellFormed()
  {
    packets != [] && 0 <= pos - packets[0].header.samplePosition < |StreamFrames(packets)|
  }

  function StreamFrame(packets: seq<AudioPacket>, pos: nat): StereoFrame
    requires forall p :: p in packets ==> p.WellFormed()
    requires InStream(packets, pos)
  {
    StreamFrames(packets)[pos - packets[0].header.samplePosition]
  }

  lemma OffsetOfTwo(offset: nat)
    ensures Offset(offset, 2) == 2 * offset
  {
    OffsetIsProduct(offset, 2);
  }

  /** A stored packet gives the frames of the packet it was. */
  lemma SampleIsFrame(p: AudioPacket, pos: nat)
    requires p.WellFormed() && p.header.samplePosition <= pos < p.EndPosition()
    ensures SampleFromPacket(p.header.samplePosition, PacketFrames(p.payload, p.header.frames), 2, pos)
         == Some(FrameAt(p, pos - p.header.samplePosition))
  {
    hide I16ToF32;
    OffsetOfTwo(pos - p.header.samplePosition);
  }

  /** A stored packet that was sent reads back as the stream. */
  lemma SampleIsStream(packets: seq<AudioPacket>, stream: u64, k: nat, stored: PacketFrames, pos: nat)
    requires Contiguous(stream, packets) && StoredFrom(packets, k, stored)
    requires k <= pos < k + stored.frameCount
    ensures InStream(packets, pos)
    ensures SampleFromPacket(k, stored, 2, pos) == Some(StreamFrame(packets, pos))
  {
    hide SampleFromPacket, FrameAt, StreamFrames;
    var p :| p in packets && p.header.samplePosition == k && stored == PacketFrames(p.payload, p.header.frames);
    var i :| 0 <= i < |packets| && packets[i] == p;
    PacketInStream(stream, packets, i, pos - k);
    SampleIsFrame(p, pos);
  }

  /** What should be heard at a read position: the stream, interpolated where the next frame is live too. */
  ghost function Expected(packets: seq<AudioPacket>, live: Store, readPos: real): Slot
    requires forall p :: p in packets ==> p.WellFormed()
  {
    var pos: nat := Max(readPos.Floor, 0);
    if !Covered(live, pos) || !InStream(packets, pos) then None
    else if !Covered(live, pos + 1) || !InStream(packets, pos + 1) then Some(StreamFrame(packets, pos))
    else Some(Lerp(StreamFrame(packets, pos), StreamFrame(packets, pos + 1), readPos - pos as real))
  }

  lemma LiveSample(packets: seq<AudioPacket>, stream: u64, live: Store, pos: nat)
    requires Contiguous(stream, packets) && Disjoint(live)
    requires forall k :: k in live ==> StoredFrom(packets, k, live[k])
    ensures Covered(live, pos) ==> InStream(packets, pos)
    ensures SampleAt(live, 2, pos) == if Covered(live, pos) then Some(StreamFrame(packets, pos)) else None
  {
    PacketAtDisjoint(live, pos);
    if Covered(live, pos) {
      var k := PacketAt(live, pos).value;
      SampleIsStream(packets, stream, k, live[k], pos);
    }
  }

  lemma LiveInStream(packets: seq<AudioPacket>, stream: u64, live: Store)
    requires Contiguous(stream, packets) && Disjoint(live)
    requires forall k :: k in live ==> StoredFrom(packets, k, live[k])
    ensures forall pos: nat :: Covered(live, pos) ==> InStream(packets, pos)
  {
    forall pos: nat | Covered(live, pos)
      ensures InStream(packets, pos)
    {
      LiveSample(packets, stream, live, pos);
    }
  }

  lemma SlotIsExpected(packets: seq<AudioPacket>, stream: u64, live: Store, readPos: real)
    requires Contiguous(stream, packets) && Disjoint(live) && readPos >= 0.0
    requires forall k :: k in live ==> StoredFrom(packets, k, live[k])
    ensures SlotAt(live, 2, readPos) == Expected(packets, live, readPos)
  {
    LiveSample(packets, stream, live, readPos.Floor);
    LiveSample(packets, stream, live, readPos.Floor + 1);
  }

  /** Pruning aside, the store reads as the live packets do from the read position on. */
  lemma StoreReadsAsLive(s: State, channels: nat, readPos: real)
    requires LiveInv(s) && Disjoint(s.ledger.live) && 0.0 <= s.readPos && s.readPos.Floor <= readPos.Floor
    ensures SlotAt(s.packets, channels, readPos) == SlotAt(s.ledger.live, channels, readPos)
  {
    PrunedPacketsUnreadable(s, readPos.Floor);
    PrunedPacketsUnreadable(s, readPos.Floor + 1);
  }

  /** No frame of a rendering is read from before the read position. */
  lemma ReadsForward(readPos: real, ratio: real, k: nat)
    requires readPos >= 0.0 && ratio > 0.0
    ensures readPos.Floor <= ReadPosition(readPos, ratio, k).Floor
  {
    TravelPositive(RenderStride(readPos, ratio), k);
  }

  /** The packets of the followed stream; none before a stream is followed. */
  function Followed(s: State, sent: Sent): seq<AudioPacket> {
    if s.streamId.Some? && s.streamId.value in sent then sent[s.streamId.value] else []
  }

  /** A position is live exactly when it can be heard, and it is then a position of the stream. */
  lemma HeardWhereLive(s: State, sent: Sent, pos: nat)
    requires Pure(s, sent) && SentInStreams(sent)
    ensures forall p :: p in Followed(s, sent) ==> p.WellFormed()
    ensures Covered(s.ledger.live, pos) ==> InStream(Followed(s, sent), pos)
    ensures Expected(Followed(s, sent), s.ledger.live, pos as real).Some? <==> Covered(s.ledger.live, pos)
  {
    if s.ledger.live != map[] {
      PureDisjoint(s, sent);
      LiveInStream(Followed(s, sent), s.streamId.value, s.ledger.live);
    }
  }

  /** Fidelity of a rendering from a pure store: slot by slot what the stream has at the read position. */
  lemma RenderPlaysStream(s: State, sent: Sent, ratio: real, n: nat)
    requires Pure(s, sent) && SentInStreams(sent) && LiveInv(s) && s.readPos >= 0.0 && ratio > 0.0
    ensures forall p :: p in Followed(s, sent) ==> p.WellFormed()
    ensures var slots := Render(s, CHANNELS, ratio, n).slots;
      |slots| == n &&
      forall k :: 0 <= k < n ==>
        slots[k] == Expected(Followed(s, sent), s.ledger.live, ReadPosition(s.readPos, ratio, k))
  {
    hide Render;
    var packets, live, slotAt := Followed(s, sent), s.ledger.live, Slots(s.packets, CHANNELS);
    PureDisjoint(s, sent);
    SubmapDisjoint(s.packets, live);
    RenderClosedForm(s, CHANNELS, slotAt, ratio, n);
    HeardWhereLive(s, sent, 0);
    forall k | 0 <= k < n
      ensures slotAt(ReadPosition(s.readPos, ratio, k)) == Expected(packets, live, ReadPosition(s.readPos, ratio, k))
    {
      var r := ReadPosition(s.readPos, ratio, k);
      ReadsForward(s.readPos, ratio, k);
      StoreReadsAsLive(s, CHANNELS, r);
      ExpectedSlot(s, sent, r);
      assert slotAt(r) == SlotAt(s.packets, CHANNELS, r);
    }
  }

  lemma ExpectedSlot(s: State, sent: Sent, r: real)
    requires Pure(s, sent) && SentInStreams(sent) && r >= 0.0
    ensures forall p :: p in Followed(s, sent) ==> p.WellFormed()
    ensures SlotAt(s.ledger.live, CHANNELS, r) == Expected(Followed(s, sent), s.ledger.live, r)
  {
    if s.ledger.live == map[] {
      HeardWhereLive(s, sent, 0);
    } else {
      PureDisjoint(s, sent);
      SlotIsExpected(Followed(s, sent), s.streamId.value, s.ledger.live, r);
    }
  }

  /** What a pull renders, when it renders. */
  lemma RenderedSlots(c: Config, s: State, q: Request, slots: seq<Slot>)
    requires Pull(c, s, q).1 == Rendered(slots)
    ensures PlanOf(c, s, q).Some? && c.channels > 0 && q.frames > 0
    ensures slots == Render(PlanOf(c, s, q).value.state, c.channels, PlanOf(c, s, q).value.ratio, q.frames).slots
  {
  }

  /** The read position of a pull's `k`-th frame. */
  function PulledFrom(plan: Plan, k: nat): real {
    ReadPosition(plan.state.readPos, plan.ratio, k)
  }

  /** What a pull renders, if it renders, is slot by slot what the followed stream has at the read position. */
  ghost predicate PlaysStream(c: Config, s: State, sent: Sent, q: Request) {
    match Pull(c, s, q).1
    case Silent => true
    case Rendered(slots) =>
      && PlanOf(c, s, q).Some? && |slots| == q.frames
      && (forall p :: p in Followed(s, sent) ==> p.WellFormed())
      && forall k :: 0 <= k < |slots| ==>
           slots[k] == Expected(Followed(s, sent), s.ledger.live, PulledFrom(PlanOf(c, s, q).value, k))
  }

  /**
    Fidelity of one pull: every slot is what the stream has at its read position, and silence
    exactly where nothing live covers it.
   */
  lemma PullPlaysStream(c: Config, s: State, sent: Sent, q: Request)
    requires c.Valid() && c.channels == CHANNELS && Inv(c, s) && Pure(s, sent) && SentInStreams(sent)
    ensures PlaysStream(c, s, sent, q)
  {
    hide Pull, Render, ReadPosition, Expected;
    if Pull(c, s, q).1.Rendered? {
      RenderedSlots(c, s, q, Pull(c, s, q).1.slots);
      PlanKeeps(c, s, q);
      var plan := PlanOf(c, s, q).value;
      RenderPlaysStream(plan.state, sent, plan.ratio, q.frames);
    }
  }

  /**
    No wrong audio over whole runs: after any run in which only sent packets arrive, in any order
    and number and among any trims and pulls, the next pull plays the followed stream.
   */
  lemma RunPlaysStream(c: Config, sent: Sent, events: seq<Event>, q: Request)
    requires c.Valid() && c.channels == CHANNELS && SentInStreams(sent) && OnlySentArrives(sent, events)
    ensures PlaysStream(c, Run(c, INITIAL, events), sent, q)
  {
    hide PlaysStream;
    RunKeeps(c, events);
    RunPure(c, sent, events);
    PullPlaysStream(c, Run(c, INITIAL, events), sent, q);
  }
}
