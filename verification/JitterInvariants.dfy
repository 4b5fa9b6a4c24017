/**
  What every reachable state of the jitter buffer satisfies, whatever packets arrive and
  whatever is pulled: capacity, state machine, packet accounting, and the relation between the
  stored packets and those that pruning has removed.
 */
module JitterInvariants {
  import opened Wrappers
  import opened Numbers
  import opened Packet
  import opened PacketStore
  import opened JitterSpec
  import opened JitterRender

  /** A stream is followed before anything runs, and nothing is stored before one is. */
  ghost predicate PhaseInv(s: State) {
    && s.readPos >= 0.0
    && (s.phase.Running? || s.phase.Resync? ==> s.streamId.Some?)
    && (s.phase.NotStarted? ==> s.streamId.None?)
    && (s.streamId.None? ==> s.packets == map[] && s.ledger.live == map[] && s.latestEnd == 0)
  }

  /** Packets end by the newest end and start no further before it than the capacity. */
  ghost predicate Within(packets: Store, latest: nat, capacity: nat) {
    forall k :: k in packets ==> End(packets, k) <= latest && latest - k <= capacity
  }

  ghost predicate CapacityInv(c: Config, s: State) {
    && Within(s.packets, s.latestEnd, c.CapacityFrames())
    && Within(s.ledger.live, s.latestEnd, c.CapacityFrames())
  }

  /** The stored packets are the live ones, but for some that ended more than a frame before the read frame. */
  ghost predicate PrunedOnly(packets: Store, live: Store, readFrame: nat) {
    && (forall k :: k in packets ==> k in live && packets[k] == live[k])
    && (forall k :: k in live && k !in packets ==> End(live, k) + 1 < readFrame)
  }

  ghost predicate LiveInv(s: State) {
    PrunedOnly(s.packets, s.ledger.live, ReadFrame(s.readPos))
  }

  ghost predicate GapInv(c: Config, s: State) {
    s.missing <= c.sampleRate / 2
  }

  /** Every packet taken in is counted once; `pending` packets are taken in but not yet counted. */
  ghost predicate Accounted(s: State, pending: int) {
    var n := s.metrics.counts;
    && n.received + s.ledger.evicted == n.accepted + n.duplicate + n.invalid + n.foreign + n.late + pending
    && n.accepted == |s.packets| + s.ledger.evicted + s.ledger.pruned + s.ledger.cleared
    && s.metrics.resyncs.total == s.metrics.resyncs.byStreamChange + s.metrics.resyncs.byUnderrun
  }

  ghost predicate StoreInv(c: Config, s: State) {
    PhaseInv(s) && CapacityInv(c, s) && LiveInv(s) && GapInv(c, s)
  }

  ghost predicate Inv(c: Config, s: State) {
    StoreInv(c, s) && Accounted(s, 0)
  }

  // ----- inserting

  lemma ReadFrameMonotone(a: real, b: real)
    requires a <= b
    ensures ReadFrame(a) <= ReadFrame(b)
  {
  }

  lemma ClearKeeps(c: Config, s: State, reason: ResyncReason, pending: int)
    requires StoreInv(c, s) && Accounted(s, pending) && s.streamId.Some?
    ensures StoreInv(c, Clear(s, reason)) && Accounted(Clear(s, reason), pending)
  {
  }

  lemma AdoptKeeps(c: Config, s: State, p: AudioPacket, pending: int)
    requires StoreInv(c, s) && Accounted(s, pending)
    ensures var t := CountSequence(AdoptStream(s, p), p.header.sequence);
      StoreInv(c, t) && Accounted(t, pending) && t.streamId == Some(p.header.streamId)
  {
    if s.streamId.Some? && s.streamId.value != p.header.streamId {
      ClearKeeps(c, s, StreamChange, pending);
    }
  }

  lemma StoredKeeps(s: State, p: AudioPacket, arrival: real, pending: int)
    requires PhaseInv(s) && LiveInv(s) && s.streamId.Some? && Accounted(s, pending + 1)
    requires p.header.samplePosition !in s.packets
    ensures var t := Stored(s, p, arrival);
      PhaseInv(t) && LiveInv(t) && Accounted(t, pending)
  {
    assert Stored(s, p, arrival).packets.Keys == s.packets.Keys + {p.header.samplePosition};
  }

  /** Eviction restores the capacity bound and touches stored and live packets alike. */
  lemma DropKeeps(c: Config, s: State, pending: int)
    requires PhaseInv(s) && LiveInv(s) && GapInv(c, s) && Accounted(s, pending)
    requires forall k :: k in s.packets ==> End(s.packets, k) <= s.latestEnd
    requires forall k :: k in s.ledger.live ==> End(s.ledger.live, k) <= s.latestEnd
    ensures var t := DropOverCapacity(c, s);
      StoreInv(c, t) && Accounted(t, pending)
  {
  }

  /** The drift estimate and the clock anchor are all an accepted packet changes besides the store. */
  lemma AnchorsOnly(c: Config, s: State, position: nat, arrival: real)
    requires c.Valid()
    ensures var t := UpdateClockAnchor(UpdateDrift(c, s, position, arrival), position, arrival);
      t == s.(firstDrift := t.firstDrift, clockAnchor := t.clockAnchor, metrics := t.metrics)
      && t.metrics == s.metrics.(driftPpm := t.metrics.driftPpm)
  {
  }

  lemma AcceptKeeps(c: Config, s: State, p: AudioPacket, arrival: real, pending: int)
    requires c.Valid()
    requires StoreInv(c, s) && s.streamId.Some? && Accounted(s, pending + 1)
    requires p.header.samplePosition !in s.packets
    ensures var t := Accept(c, s, p, arrival);
      StoreInv(c, t) && Accounted(t, pending)
  {
    StoredKeeps(s, p, arrival, pending);
    var start, stored := p.header.samplePosition, Stored(s, p, arrival);
    AnchorsOnly(c, stored, start, arrival);
    DropKeeps(c, UpdateClockAnchor(UpdateDrift(c, stored, start, arrival), start, arrival), pending);
  }

  lemma InsertReceivedKeeps(c: Config, s: State, p: AudioPacket, arrival: real)
    requires c.Valid() && StoreInv(c, s) && Accounted(s, 1)
    ensures Inv(c, InsertReceived(c, s, p, arrival).0)
  {
    if FormatMatches(c, p) && !Foreign(s, p, arrival) {
      var outcome :=
        if s.streamId.Some? && s.streamId.value != p.header.streamId then Resynced else Outcome.Accepted;
      AdoptKeeps(c, s, p, 1);
      InsertAdoptedKeeps(c, CountSequence(AdoptStream(s, p), p.header.sequence), p, arrival, outcome);
    }
  }

  lemma InsertKeeps(c: Config, s: State, p: AudioPacket, arrival: real)
    requires c.Valid() && Inv(c, s)
    ensures Inv(c, Insert(c, s, p, arrival).0)
  {
    hide InsertReceived;
    var s0 := s.CountPackets(s.metrics.counts.(received := s.metrics.counts.received + 1));
    InsertReceivedKeeps(c, s0, p, arrival);
  }

  lemma InsertAdoptedKeeps(c: Config, s: State, p: AudioPacket, arrival: real, outcome: Outcome)
    requires c.Valid() && StoreInv(c, s) && Accounted(s, 1) && s.streamId.Some?
    ensures Inv(c, InsertAdopted(c, s, p, arrival, outcome).0)
  {
    if !TooLate(s, p) && p.header.samplePosition !in s.packets {
      AcceptKeeps(c, s, p, arrival, 0);
    }
  }

  /**
    An insert answers `Resynced` exactly when it cleared the buffer for a new stream, and the
    stream-change counter counts exactly those inserts.
   */
  lemma ResyncedIffStreamChange(c: Config, s: State, p: AudioPacket, arrival: real)
    requires c.Valid()
    ensures var (t, outcome) := Insert(c, s, p, arrival);
      && (outcome == Resynced <==>
          FormatMatches(c, p) && s.streamId.Some? && s.streamId.value != p.header.streamId
          && !StreamActive(s, arrival))
      && t.metrics.resyncs.byStreamChange
         == s.metrics.resyncs.byStreamChange + (if outcome == Resynced then 1 else 0)
      && t.metrics.resyncs.byUnderrun == s.metrics.resyncs.byUnderrun
  {
  }

  // ----- trims and the depth control

  /** Only the read position and the running gap change, and the read position never backwards. */
  ghost predicate OnlyForward(s: State, t: State) {
    && s.readPos <= t.readPos
    && t.missing <= s.missing
    && t == s.(readPos := t.readPos, missing := t.missing)
  }

  lemma ForwardKeeps(c: Config, s: State, t: State)
    requires StoreInv(c, s) && OnlyForward(s, t)
    ensures StoreInv(c, t)
  {
    ReadFrameMonotone(s.readPos, t.readPos);
  }

  lemma TrimForward(c: Config, s: State, playoutBuffered: u64)
    ensures OnlyForward(s, TrimToBudget(c, s, playoutBuffered))
  {
  }

  lemma SyncForward(c: Config, s: State, playoutTime: Option<real>, playoutBuffered: nat, need: nat)
    ensures OnlyForward(s, SyncIfEnabled(c, s, playoutTime, playoutBuffered, need))
  {
  }

  lemma PrepareForward(c: Config, s: State, required: nat, minimum: nat)
    ensures match Prepare(c, s, required, minimum)
      case None => true
      case Some(prepared) =>
        OnlyForward(s, prepared.0) && -CORRECTION_MAX_PPM <= prepared.1 <= CORRECTION_MAX_PPM
  {
  }

  lemma RatioPositive(deviceRatio: real, ppm: real)
    requires deviceRatio > 0.0 && -CORRECTION_MAX_PPM <= ppm <= CORRECTION_MAX_PPM
    ensures EffectiveRatio(deviceRatio, ppm) > 0.0
  {
    MulStrict(0.0, 1.0 + ppm / 1000000.0, deviceRatio);
  }

  lemma DeviceRatioPositive(c: Config, q: Request)
    requires c.Valid()
    ensures DeviceRatio(c, q) > 0.0
  {
  }

  /** Rendering runs on a followed stream only: without one the level is zero and nothing passes. */
  lemma PlanNeedsStream(c: Config, s: State, required: nat, need: nat, deviceRatio: real)
    requires PhaseInv(s) && required > 0
    ensures PlanFor(c, s, required, need, deviceRatio).Some? ==> s.streamId.Some?
  {
  }

  lemma NeedPositive(c: Config, q: Request)
    requires q.frames > 0
    ensures Need(c, q) > 0 && Required(c, q) > 0
  {
    SourceFramesPositive(q.frames, c.sampleRate, OutputRate(q));
  }

  lemma SourceFramesPositive(n: nat, sourceRate: u32, outputRate: nat)
    requires n > 0 && 0 < outputRate < U32_LIMIT
    ensures SourceFrames(n, sourceRate, outputRate) > 0
  {
    var source := Max(sourceRate, 1);
    assert n * source >= 1 by { MulAtLeastOne(n, source); }
    var x := SatAdd(SatMul(n, source), outputRate - 1);
    assert x >= outputRate;
    assert x / outputRate >= 1;
  }

  lemma MulAtLeastOne(a: nat, b: nat)
    requires a > 0 && b > 0
    ensures a * b >= 1
  {
  }

  /** A plan that passes: a running state no further back, a positive step. */
  lemma PlanKeeps(c: Config, s: State, q: Request)
    requires c.Valid() && StoreInv(c, s) && q.frames > 0
    ensures StoreInv(c, Synced(c, s, q)) && OnlyForward(s, Synced(c, s, q))
    ensures match PlanOf(c, s, q)
      case None => true
      case Some(plan) =>
        && plan.ratio > 0.0
        && s.readPos <= plan.state.readPos
        && plan.state == s.(phase := Running, readPos := plan.state.readPos, missing := plan.state.missing)
        && StoreInv(c, plan.state)
  {
    var synced := Synced(c, s, q);
    SyncForward(c, s, q.playoutTime, q.playoutBuffered, Need(c, q));
    ForwardKeeps(c, s, synced);
    NeedPositive(c, q);
    PrepareForward(c, synced, Required(c, q), Need(c, q));
    PlanNeedsStream(c, synced, Required(c, q), Need(c, q), DeviceRatio(c, q));
    match Prepare(c, synced, Required(c, q), Need(c, q))
    case None =>
    case Some(prepared) =>
      DeviceRatioPositive(c, q);
      RatioPositive(DeviceRatio(c, q), prepared.1);
      ForwardKeeps(c, synced, prepared.0);
  }

  // ----- rendering

  lemma RenderForward(s: State, channels: nat, ratio: real, n: nat)
    requires ratio > 0.0 && n > 0
    ensures s.readPos < Render(s, channels, ratio, n).readPos
  {
    RenderAdvance(s, channels, ratio, n);
    TravelPositive(ratio, n);
    TravelPositive(1.0, n);
  }

  lemma AfterRenderKeeps(c: Config, s: State, u: Cursor)
    requires c.Valid() && StoreInv(c, s) && Accounted(s, 0) && s.streamId.Some?
    requires s.readPos <= u.readPos && (u.missingInCall == 0 ==> u.missing == 0)
    ensures var t := AfterRender(c, s, u);
      StoreInv(c, t) && Accounted(t, 0) && t.readPos == u.readPos && t.streamId == s.streamId
  {
    ReadFrameMonotone(s.readPos, u.readPos);
  }

  lemma PruneKeeps(c: Config, s: State)
    requires Inv(c, s)
    ensures Inv(c, PrunePlayed(s))
  {
    var kept := Prune(s.packets, ReadFrame(s.readPos));
    forall k | k in s.ledger.live && k !in kept
      ensures End(s.ledger.live, k) + 1 < ReadFrame(s.readPos)
    {
      if k in s.packets {
        assert Played(s.packets, ReadFrame(s.readPos), k);
      }
    }
  }

  lemma PullKeeps(c: Config, s: State, q: Request)
    requires c.Valid() && Inv(c, s)
    ensures Inv(c, Pull(c, s, q).0)
    ensures s.readPos <= Pull(c, s, q).0.readPos
    ensures Pull(c, s, q).1.Rendered? ==> s.readPos < Pull(c, s, q).0.readPos
    ensures Pull(c, s, q).0.streamId == s.streamId
  {
    if c.channels == 0 || q.frames == 0 {
      return;
    }
    PlanKeeps(c, s, q);
    match PlanOf(c, s, q)
    case None =>
    case Some(plan) =>
      var n := q.frames;
      var u := Render(plan.state, c.channels, plan.ratio, n);
      RenderForward(plan.state, c.channels, plan.ratio, n);
      RenderAdvance(plan.state, c.channels, plan.ratio, n);
      AfterRenderKeeps(c, plan.state, u);
      PruneKeeps(c, AfterRender(c, plan.state, u));
  }

  // ----- runs

  lemma RunNext(c: Config, s: State, events: seq<Event>, e: Event)
    requires c.Valid()
    ensures Run(c, s, events + [e]) == Step(c, Run(c, s, events), e)
  {
    hide Step;
    assert (events + [e])[..|events|] == events;
  }

  lemma StepKeeps(c: Config, s: State, e: Event)
    requires c.Valid() && Inv(c, s)
    ensures Inv(c, Step(c, s, e))
  {
    match e
    case Arrive(p, arrival) => InsertKeeps(c, s, p, arrival);
    case ArriveInvalid =>
    case Trim(playoutBuffered) =>
      TrimForward(c, s, playoutBuffered);
      ForwardKeeps(c, s, TrimToBudget(c, s, playoutBuffered));
    case PullEvent(q) => PullKeeps(c, s, q);
  }

  /** Every reachable state satisfies every invariant. */
  lemma {:induction false} RunKeeps(c: Config, events: seq<Event>)
    requires c.Valid()
    ensures Inv(c, Run(c, INITIAL, events))
  {
    if events != [] {
      RunKeeps(c, events[..|events| - 1]);
      StepKeeps(c, Run(c, INITIAL, events[..|events| - 1]), events[|events| - 1]);
    }
  }

  lemma AcceptChanges(c: Config, s: State, p: AudioPacket, arrival: real)
    requires c.Valid()
    ensures var t := Accept(c, s, p, arrival);
      && t.latestEnd == Max(s.latestEnd, p.EndPosition()) && t.phase == s.phase
      && t.metrics.counts.received == s.metrics.counts.received
  {
    AnchorsOnly(c, Stored(s, p, arrival), p.header.samplePosition, arrival);
  }

  /** What an accepted packet does to the state: it enters both stores, and eviction reaches both. */
  lemma AcceptedInto(c: Config, s: State, p: AudioPacket, arrival: real)
    requires c.Valid()
    ensures var (t, k, frames) := (Accept(c, s, p, arrival), p.header.samplePosition,
                                   PacketFrames(p.payload, p.header.frames));
      && t.latestEnd == Max(s.latestEnd, p.EndPosition())
      && t.packets == Evict(s.packets[k := frames], t.latestEnd, c.CapacityFrames())
      && t.ledger.live == Evict(s.ledger.live[k := frames], t.latestEnd, c.CapacityFrames())
      && t.phase == s.phase && t.streamId == s.streamId && t.readPos == s.readPos && t.missing == s.missing
      && t.metrics.gaps == s.metrics.gaps && t.metrics.resyncs == s.metrics.resyncs
      && t.expectedSequence == s.expectedSequence
      && t.metrics.counts.lost == s.metrics.counts.lost
      && t.metrics.counts.outOfOrder == s.metrics.counts.outOfOrder
  {
    hide Evict;
    AnchorsOnly(c, Stored(s, p, arrival), p.header.samplePosition, arrival);
  }

  /** A packet of the followed stream, neither late nor at a start already stored. */
  lemma AcceptedInsert(c: Config, s: State, p: AudioPacket, arrival: real)
    requires c.Valid() && FormatMatches(c, p) && s.streamId == Some(p.header.streamId)
    requires !TooLate(s, p) && p.header.samplePosition !in s.packets
    ensures var (t, k, frames) := (Insert(c, s, p, arrival).0, p.header.samplePosition,
                                   PacketFrames(p.payload, p.header.frames));
      && t.latestEnd == Max(s.latestEnd, p.EndPosition())
      && t.packets == Evict(s.packets[k := frames], t.latestEnd, c.CapacityFrames())
      && t.ledger.live == Evict(s.ledger.live[k := frames], t.latestEnd, c.CapacityFrames())
      && t.phase == s.phase && t.streamId == s.streamId && t.readPos == s.readPos && t.missing == s.missing
      && t.metrics.gaps == s.metrics.gaps && t.metrics.resyncs == s.metrics.resyncs
  {
    hide Accept, Evict, WrappingSub;
    var s0 := s.CountPackets(s.metrics.counts.(received := s.metrics.counts.received + 1));
    AcceptedInto(c, CountSequence(AdoptStream(s0, p), p.header.sequence), p, arrival);
  }

  /** The first packet: its stream is followed and reading will begin at its start. */
  lemma FirstInsert(c: Config, p: AudioPacket, arrival: real)
    requires c.Valid() && FormatMatches(c, p)
    ensures var (t, store) := (Insert(c, INITIAL, p, arrival).0,
                               map[p.header.samplePosition := PacketFrames(p.payload, p.header.frames)]);
      && t.latestEnd == p.EndPosition()
      && t.packets == t.ledger.live == Evict(store, p.EndPosition(), c.CapacityFrames())
      && t.phase.Priming? && t.streamId == Some(p.header.streamId)
      && t.readPos == p.header.samplePosition as real && t.missing == 0
      && t.metrics.gaps == NO_METRICS.gaps && t.metrics.resyncs == NO_METRICS.resyncs
      && t.expectedSequence == Some(Successor(p.header.sequence))
      && t.metrics.counts.lost == t.metrics.counts.outOfOrder == 0
  {
    hide Accept, Evict, WrappingSub;
    var s0 := INITIAL.CountPackets(INITIAL.metrics.counts.(received := INITIAL.metrics.counts.received + 1));
    var store := map[p.header.samplePosition := PacketFrames(p.payload, p.header.frames)];
    AcceptedInto(c, CountSequence(AdoptStream(s0, p), p.header.sequence), p, arrival);
    assert map[][p.header.samplePosition := PacketFrames(p.payload, p.header.frames)] == store;
  }

  lemma InsertLatestEnd(c: Config, s: State, p: AudioPacket, arrival: real)
    requires c.Valid()
    ensures Insert(c, s, p, arrival).0.latestEnd <= Max(s.latestEnd, p.EndPosition())
  {
    hide Accept, WrappingSub, TooLate, Foreign;
    var s0 := s.CountPackets(s.metrics.counts.(received := s.metrics.counts.received + 1));
    AcceptChanges(c, CountSequence(AdoptStream(s0, p), p.header.sequence), p, arrival);
  }

  lemma PullLatestEnd(c: Config, s: State, q: Request)
    ensures Pull(c, s, q).0.latestEnd <= s.latestEnd
  {
    hide Render, Prepare, SyncIfEnabled;
    SyncForward(c, s, q.playoutTime, q.playoutBuffered, Need(c, q));
    PrepareForward(c, Synced(c, s, q), Required(c, q), Need(c, q));
  }

  /** The newest end never passes the furthest end of a packet that arrived, so 64 bits hold it when they hold those. */
  lemma {:induction false} LatestEndBounded(c: Config, events: seq<Event>, limit: nat)
    requires c.Valid() && forall e :: e in events && e.Arrive? ==> e.packet.EndPosition() <= limit
    ensures Run(c, INITIAL, events).latestEnd <= limit
  {
    hide Insert, Pull;
    if events != [] {
      var before, e := events[..|events| - 1], events[|events| - 1];
      LatestEndBounded(c, before, limit);
      var s := Run(c, INITIAL, before);
      match e
      case Arrive(p, arrival) => InsertLatestEnd(c, s, p, arrival);
      case ArriveInvalid =>
      case Trim(playoutBuffered) => TrimForward(c, s, playoutBuffered);
      case PullEvent(q) => PullLatestEnd(c, s, q);
    }
  }

  lemma InsertPhase(c: Config, s: State, p: AudioPacket, arrival: real)
    requires c.Valid()
    ensures Insert(c, s, p, arrival).0.phase.NotStarted? ==> s.phase.NotStarted?
  {
    hide Accept, WrappingSub, TooLate, Foreign;
    var s0 := s.CountPackets(s.metrics.counts.(received := s.metrics.counts.received + 1));
    AcceptChanges(c, CountSequence(AdoptStream(s0, p), p.header.sequence), p, arrival);
  }

  /** The buffer is `NotStarted` only until something changes its phase, and never again. */
  lemma NotStartedNeverReentered(c: Config, s: State, e: Event)
    requires c.Valid()
    ensures Step(c, s, e).phase.NotStarted? ==> s.phase.NotStarted?
  {
    hide Insert, Render, Prepare, SyncIfEnabled, Prune;
    match e
    case Arrive(p, arrival) => InsertPhase(c, s, p, arrival);
    case ArriveInvalid =>
    case Trim(playoutBuffered) => TrimForward(c, s, playoutBuffered);
    case PullEvent(q) =>
      SyncForward(c, s, q.playoutTime, q.playoutBuffered, Need(c, q));
      PrepareForward(c, Synced(c, s, q), Required(c, q), Need(c, q));
  }

  /** While the stream id is unchanged no event moves the read position back. */
  lemma ReadPositionMonotone(c: Config, s: State, e: Event)
    requires c.Valid() && Inv(c, s)
    requires Step(c, s, e).streamId == s.streamId
    ensures s.readPos <= Step(c, s, e).readPos
  {
    match e
    case Arrive(p, arrival) =>
    case ArriveInvalid =>
    case Trim(playoutBuffered) => TrimForward(c, s, playoutBuffered);
    case PullEvent(q) => PullKeeps(c, s, q);
  }

  /**
    What pruning removed could not have been read: from the read position on, looking up the
    stored packets finds what looking up every accepted, unevicted packet would find.
   */
  lemma PrunedPacketsUnreadable(s: State, pos: nat)
    requires LiveInv(s) && Disjoint(s.ledger.live) && s.readPos >= 0.0
    requires s.readPos.Floor <= pos
    ensures PacketAt(s.packets, pos) == PacketAt(s.ledger.live, pos)
    ensures Disjoint(s.packets)
  {
    SubmapDisjoint(s.packets, s.ledger.live);
    PacketAtDisjoint(s.packets, pos);
    PacketAtDisjoint(s.ledger.live, pos);
    assert ReadFrame(s.readPos) <= s.readPos.Floor + 1;
    forall k: nat
      ensures Covers(s.packets, k, pos) <==> Covers(s.ledger.live, k, pos)
    {
    }
  }
}
