/**
  What becomes of an arriving packet (`common/src/jitter.rs`), said in terms of the packet, the
  configuration and the state's fields alone: which packets are refused and counted as what,
  which enter the store, and what a switch to another stream leaves.
 */
module JitterInsert {
  import opened Wrappers
  import opened Numbers
  import opened Packet
  import opened PacketStore
  import opened JitterSpec
  import opened JitterInvariants

  /** The rate and channels are the configured ones. */
  predicate RightFormat(c: Config, p: AudioPacket) {
    p.header.sampleRate == c.sampleRate && p.header.channels == c.channels
  }

  /** Another stream is followed than the packet's. */
  predicate OtherStream(s: State, p: AudioPacket) {
    s.streamId.Some? && s.streamId.value != p.header.streamId
  }

  /** The last accepted packet is less than a quarter of a second old. */
  predicate HeardRecently(s: State, arrival: real) {
    s.lastArrival.Some? && 0.0 <= arrival - s.lastArrival.value < 0.25
  }

  /** All its frames are before the read position of a running buffer. */
  predicate Over(s: State, p: AudioPacket) {
    s.phase.Running? && p.EndPosition() as real <= s.readPos
  }

  // ----- packets that are refused

  /** A packet of another format counts as invalid and changes nothing else. */
  lemma WrongFormatIsInvalid(c: Config, s: State, p: AudioPacket, arrival: real)
    requires c.Valid() && !RightFormat(c, p)
    ensures var (n, (t, outcome)) := (s.metrics.counts, Insert(c, s, p, arrival));
      && outcome == Outcome.Late
      && t == s.CountPackets(n.(received := n.received + 1, invalid := n.invalid + 1))
  {
    hide InsertAdopted, AdoptStream, CountSequence, StreamActive;
  }

  /** While the followed stream was heard in the last quarter of a second another one is kept out. */
  lemma OtherStreamIsForeign(c: Config, s: State, p: AudioPacket, arrival: real)
    requires c.Valid() && RightFormat(c, p) && OtherStream(s, p) && HeardRecently(s, arrival)
    ensures var (n, (t, outcome)) := (s.metrics.counts, Insert(c, s, p, arrival));
      && outcome == ForeignStream
      && t == s.CountPackets(n.(received := n.received + 1, foreign := n.foreign + 1))
  {
    hide InsertAdopted, AdoptStream, CountSequence;
  }

  /** What no packet of the followed stream changes when it is refused. */
  predicate OnlyCounts(s: State, t: State) {
    t == s.(expectedSequence := t.expectedSequence, metrics := s.metrics.(counts := t.metrics.counts))
  }

  /** A packet whose frames are all over is late. */
  lemma OverIsLate(c: Config, s: State, p: AudioPacket, arrival: real)
    requires c.Valid() && RightFormat(c, p) && s.streamId == Some(p.header.streamId)
    requires s.readPos >= 0.0 && Over(s, p)
    ensures var (n, (t, outcome)) := (s.metrics.counts, Insert(c, s, p, arrival));
      && outcome == Outcome.Late && OnlyCounts(s, t)
      && t.metrics.counts.late == n.late + 1 && t.metrics.counts.received == n.received + 1
      && t.metrics.counts.accepted == n.accepted && t.metrics.counts.duplicate == n.duplicate
      && t.metrics.counts.invalid == n.invalid && t.metrics.counts.foreign == n.foreign
  {
    hide Accept, WrappingSub, StreamActive;
  }

  /** A packet that starts where a stored one does is a duplicate. */
  lemma RepeatedIsDuplicate(c: Config, s: State, p: AudioPacket, arrival: real)
    requires c.Valid() && RightFormat(c, p) && s.streamId == Some(p.header.streamId)
    requires s.readPos >= 0.0 && !Over(s, p) && p.header.samplePosition in s.packets
    ensures var (n, (t, outcome)) := (s.metrics.counts, Insert(c, s, p, arrival));
      && outcome == Outcome.Duplicate && OnlyCounts(s, t)
      && t.metrics.counts.duplicate == n.duplicate + 1 && t.metrics.counts.received == n.received + 1
      && t.metrics.counts.accepted == n.accepted && t.metrics.counts.late == n.late
      && t.metrics.counts.invalid == n.invalid && t.metrics.counts.foreign == n.foreign
  {
    hide Accept, WrappingSub, StreamActive;
  }

  // ----- packets that enter

  /** The anchors of clock and drift are the first packet's since the last resync. */
  function FirstAnchor(anchor: Option<Anchor>, p: AudioPacket, arrival: real): Option<Anchor> {
    if anchor.Some? then anchor else Some(Anchor(p.header.samplePosition, arrival))
  }

  /** The store afterwards: what was there and the packet, but for what starts more than the capacity before the end. */
  ghost predicate HoldsWithin(c: Config, before: Store, p: AudioPacket, after: Store, latest: nat) {
    var start := p.header.samplePosition;
    && (forall k :: k in after <==> (k in before || k == start) && latest <= k + c.sampleRate * c.capacityMs / 1000)
    && (forall k :: k in after && k != start ==> after[k] == before[k])
    && (start in after ==> after[start] == PacketFrames(p.payload, p.header.frames))
  }

  lemma EvictHolds(c: Config, before: Store, p: AudioPacket, latest: nat)
    ensures var frames := PacketFrames(p.payload, p.header.frames);
      HoldsWithin(c, before, p, Evict(before[p.header.samplePosition := frames], latest, c.CapacityFrames()), latest)
  {
  }

  lemma AcceptAnchors(c: Config, s: State, p: AudioPacket, arrival: real)
    requires c.Valid()
    ensures var t := Accept(c, s, p, arrival);
      && t.lastArrival == Some(arrival)
      && t.clockAnchor == FirstAnchor(s.clockAnchor, p, arrival)
      && t.firstDrift == FirstAnchor(s.firstDrift, p, arrival)
      && t.metrics.counts.accepted == s.metrics.counts.accepted + 1
      && t.metrics.counts.duplicate == s.metrics.counts.duplicate
      && t.metrics.counts.invalid == s.metrics.counts.invalid && t.metrics.counts.foreign == s.metrics.counts.foreign
  {
    hide Evict;
  }

  /**
    Any other packet of the followed stream is accepted, in whatever order it comes: it is stored
    beside what was there, the newest end moves to its end, and of the rest only its arrival, the
    first anchors and counters change.
   */
  lemma OthersAreAccepted(c: Config, s: State, p: AudioPacket, arrival: real)
    requires c.Valid() && RightFormat(c, p) && s.streamId == Some(p.header.streamId)
    requires s.readPos >= 0.0 && !Over(s, p) && p.header.samplePosition !in s.packets
    ensures var (n, (t, outcome)) := (s.metrics.counts, Insert(c, s, p, arrival));
      && outcome == Outcome.Accepted
      && t.latestEnd == Max(s.latestEnd, p.EndPosition())
      && HoldsWithin(c, s.packets, p, t.packets, t.latestEnd)
      && HoldsWithin(c, s.ledger.live, p, t.ledger.live, t.latestEnd)
      && t.phase == s.phase && t.streamId == s.streamId && t.readPos == s.readPos && t.missing == s.missing
      && t.lastArrival == Some(arrival)
      && t.clockAnchor == FirstAnchor(s.clockAnchor, p, arrival)
      && t.firstDrift == FirstAnchor(s.firstDrift, p, arrival)
      && t.metrics.counts.accepted == n.accepted + 1 && t.metrics.counts.received == n.received + 1
      && t.metrics.counts.duplicate == n.duplicate
      && t.metrics.counts.invalid == n.invalid && t.metrics.counts.foreign == n.foreign
  {
    hide Accept, WrappingSub, StreamActive, Evict, HoldsWithin;
    AcceptedInsert(c, s, p, arrival);
    var s0 := s.CountPackets(s.metrics.counts.(received := s.metrics.counts.received + 1));
    AcceptChanges(c, CountSequence(s0, p.header.sequence), p, arrival);
    AcceptAnchors(c, CountSequence(s0, p.header.sequence), p, arrival);
    EvictHolds(c, s.packets, p, Max(s.latestEnd, p.EndPosition()));
    EvictHolds(c, s.ledger.live, p, Max(s.latestEnd, p.EndPosition()));
  }

  /**
    Which packets a buffer refuses: one of the followed stream and format that is not stored yet
    and not too far behind the newest end is stored if and only if a running buffer has not read
    past its end.
   */
  lemma StoredIff(c: Config, s: State, p: AudioPacket, arrival: real)
    requires c.Valid() && RightFormat(c, p) && s.streamId == Some(p.header.streamId)
    requires s.readPos >= 0.0 && p.header.samplePosition !in s.packets
    requires s.latestEnd <= p.header.samplePosition + c.sampleRate * c.capacityMs / 1000
    requires p.header.frames <= c.sampleRate * c.capacityMs / 1000
    ensures p.header.samplePosition in Insert(c, s, p, arrival).0.packets
       <==> !s.phase.Running? || s.readPos < p.EndPosition() as real
  {
    hide Insert;
    if Over(s, p) {
      OverIsLate(c, s, p, arrival);
    } else {
      OthersAreAccepted(c, s, p, arrival);
    }
  }

  /** Where the source's addition of start and frames would not fit, for a packet that passes the stream checks. */
  lemma OverflowIff(c: Config, s: State, p: AudioPacket, arrival: real)
    ensures Overflows(c, s, p, arrival) <==>
      && RightFormat(c, p) && !(OtherStream(s, p) && HeardRecently(s, arrival))
      && p.header.samplePosition + p.header.frames >= 0x1_0000_0000_0000_0000
  {
  }

  // ----- another stream

  /** The first packet of all is where playing will begin. */
  lemma FirstIsFollowed(c: Config, s: State, p: AudioPacket, arrival: real)
    requires c.Valid() && RightFormat(c, p) && s.streamId.None? && p.header.samplePosition !in s.packets
    ensures var (t, outcome) := Insert(c, s, p, arrival);
      && outcome == Outcome.Accepted
      && t.phase.Priming? && t.streamId == Some(p.header.streamId) && t.readPos == p.header.samplePosition as real
      && t.latestEnd == Max(s.latestEnd, p.EndPosition()) && t.missing == s.missing
      && HoldsWithin(c, s.packets, p, t.packets, t.latestEnd)
      && t.lastArrival == Some(arrival)
      && t.metrics.resyncs == s.metrics.resyncs
      && t.metrics.counts.accepted == s.metrics.counts.accepted + 1
  {
    hide Accept, WrappingSub, Evict, HoldsWithin, StreamActive;
    var s0 := s.CountPackets(s.metrics.counts.(received := s.metrics.counts.received + 1));
    var adopted := CountSequence(AdoptStream(s0, p), p.header.sequence);
    AcceptedInto(c, adopted, p, arrival);
    AcceptAnchors(c, adopted, p, arrival);
    EvictHolds(c, s.packets, p, Max(s.latestEnd, p.EndPosition()));
  }

  lemma ClearedState(s: State, p: AudioPacket)
    requires OtherStream(s, p)
    ensures var t := AdoptStream(s, p);
      && t.phase.Priming? && t.streamId == Some(p.header.streamId) && t.readPos == p.header.samplePosition as real
      && t.packets == map[] == t.ledger.live && t.latestEnd == 0 && t.missing == 0
      && t.expectedSequence.None? && t.clockAnchor.None? && t.firstDrift.None?
      && t.metrics.resyncs.byStreamChange == s.metrics.resyncs.byStreamChange + 1
      && t.metrics.counts == s.metrics.counts
  {
  }

  /**
    After a quarter of a second without the followed stream another one takes over: the buffer
    resyncs and is then as if the packet were the first that ever came.
   */
  lemma TakeoverIsFresh(c: Config, s: State, p: AudioPacket, arrival: real)
    requires c.Valid() && RightFormat(c, p) && OtherStream(s, p) && !HeardRecently(s, arrival)
    ensures var (t, outcome) := Insert(c, s, p, arrival);
      && outcome == Resynced
      && t.phase.Priming? && t.streamId == Some(p.header.streamId) && t.readPos == p.header.samplePosition as real
      && t.latestEnd == p.EndPosition() && t.missing == 0
      && HoldsWithin(c, map[], p, t.packets, p.EndPosition())
      && HoldsWithin(c, map[], p, t.ledger.live, p.EndPosition())
      && t.expectedSequence == Some((p.header.sequence + 1) % 0x1_0000_0000)
      && t.lastArrival == Some(arrival)
      && t.clockAnchor == t.firstDrift == Some(Anchor(p.header.samplePosition, arrival))
      && t.metrics.resyncs.byStreamChange == s.metrics.resyncs.byStreamChange + 1
      && t.metrics.counts.accepted == s.metrics.counts.accepted + 1
      && t.metrics.counts.lost == s.metrics.counts.lost && t.metrics.counts.outOfOrder == s.metrics.counts.outOfOrder
  {
    hide Accept, AdoptStream, WrappingSub, Evict, HoldsWithin;
    var s0 := s.CountPackets(s.metrics.counts.(received := s.metrics.counts.received + 1));
    ClearedState(s0, p);
    var adopted := CountSequence(AdoptStream(s0, p), p.header.sequence);
    AcceptedInto(c, adopted, p, arrival);
    AcceptAnchors(c, adopted, p, arrival);
    EvictHolds(c, map[], p, p.EndPosition());
  }
}
