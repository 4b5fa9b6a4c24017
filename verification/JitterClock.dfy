/**
  Playing by the sender's clock (`common/src/jitter.rs`): where a synchronising pull jumps to, and
  what the drift estimate says about the sender.
 */
module JitterClock {
  import opened Wrappers
  import opened Numbers
  import opened Packet
  import opened PacketStore
  import opened JitterSpec
  import opened JitterInvariants
  import opened JitterInsert

  /**
    The position that is due at an instant: where the sender stands, counted from the anchor at the
    configured rate and the estimated drift, minus the delay still to keep and the frames to render.
   */
  function DueAt(c: Config, anchor: Anchor, driftPpm: real, time: real, playoutBuffered: nat, need: nat): real {
    var elapsed := time - anchor.arrival;
    var delay := Min(Max(c.fixedDelayFrames - playoutBuffered, 0) + need, U64_MAX);
    anchor.samplePosition as real + elapsed * c.sampleRate as real * (1.0 + driftPpm / 1000000.0) - delay as real
  }

  /** With clock sync off, no playout time, no anchor or a time before it, nothing moves. */
  lemma NoSyncWithoutClock(c: Config, s: State, q: Request)
    requires !c.clockSync || q.playoutTime.None? || s.clockAnchor.None?
             || q.playoutTime.value < s.clockAnchor.value.arrival
    ensures Synced(c, s, q) == s
  {
    hide SenderPosition;
  }

  lemma DueFromClock(c: Config, anchor: Anchor, driftPpm: real, time: real, playoutBuffered: nat, need: nat)
    ensures DueAt(c, anchor, driftPpm, time, playoutBuffered, need)
         == SenderPosition(anchor, time, c.sampleRate, driftPpm)
            - SatAdd(SatSub(c.fixedDelayFrames, playoutBuffered), need) as real
  {
  }

  /**
    Where a clock jump lands: never back, exactly at the due position where two frames are left
    beyond it, and else two frames before the newest end, if that is forward.
   */
  lemma SyncLandsAtDue(c: Config, s: State, q: Request)
    requires c.clockSync && q.playoutTime.Some? && s.clockAnchor.Some? && s.readPos >= 0.0
    requires q.playoutTime.value >= s.clockAnchor.value.arrival
    ensures var (t, time) := (Synced(c, s, q), q.playoutTime.value);
      var due := DueAt(c, s.clockAnchor.value, s.metrics.driftPpm, time, q.playoutBuffered, Need(c, q));
      var safe := Max(s.latestEnd - 2, 0) as real;
      && t == s.(readPos := t.readPos, missing := t.missing)
      && (due <= s.readPos ==> t == s)
      && (s.readPos < due <= safe ==> t.readPos == due)
      && (s.readPos < due && safe < due ==> t.readPos == if s.readPos < safe then safe else s.readPos)
      && (s.readPos < t.readPos ==> t.missing == 0)
  {
    hide SourceFrames, SenderPosition, DueAt;
    DueFromClock(c, s.clockAnchor.value, s.metrics.driftPpm, q.playoutTime.value, q.playoutBuffered, Need(c, q));
  }

  // ----- drift

  /** The position that elapsed time and drift account for, as a quotient undone. */
  lemma QuotientUndone(x: real, elapsed: real, rate: real)
    requires elapsed > 0.0 && rate > 0.0
    ensures elapsed * rate * (x / elapsed / rate) == x
  {
    var a := x / elapsed;
    var y := a / rate;
    assert a * elapsed == x;
    assert y * rate == a;
    assert elapsed * rate * y == elapsed * (rate * y);
  }

  lemma PpmUndone(y: real)
    ensures 1.0 + (y - 1.0) * 1000000.0 / 1000000.0 == y
  {
  }

  /**
    The estimate is the drift: of a sender that from the first packet on made the frames it made at
    the configured rate times one plus the drift, after a second at least.
   */
  lemma DriftIsEstimated(c: Config, s: State, position: nat, arrival: real)
    requires c.Valid() && s.firstDrift.Some?
    ensures var (first, d) := (s.firstDrift.value, UpdateDrift(c, s, position, arrival).metrics.driftPpm);
      var elapsed := arrival - first.arrival;
      && (elapsed < 1.0 ==> d == s.metrics.driftPpm)
      && (elapsed >= 1.0 ==>
            elapsed * c.sampleRate as real * (1.0 + d / 1000000.0) == Max(position - first.samplePosition, 0) as real)
  {
    var first := s.firstDrift.value;
    var elapsed := arrival - first.arrival;
    if elapsed >= 1.0 {
      var x := SatSub(position, first.samplePosition) as real;
      QuotientUndone(x, elapsed, c.sampleRate as real);
      PpmUndone(x / elapsed / c.sampleRate as real);
    }
  }

  lemma AcceptDrift(c: Config, s: State, p: AudioPacket, arrival: real)
    requires c.Valid()
    ensures Accept(c, s, p, arrival).metrics.driftPpm
         == UpdateDrift(c, s, p.header.samplePosition, arrival).metrics.driftPpm
  {
    hide Evict;
  }

  /**
    Clock and drift meet the sender: when a packet is accepted a second or more after the first, the
    position due at its arrival, with nothing to keep or render, is the packet's own start.
   */
  lemma ClockMeetsSender(c: Config, s: State, p: AudioPacket, arrival: real)
    requires c.Valid() && RightFormat(c, p) && s.streamId == Some(p.header.streamId)
    requires s.readPos >= 0.0 && !Over(s, p) && p.header.samplePosition !in s.packets
    requires s.clockAnchor == s.firstDrift && s.clockAnchor.Some?
    requires arrival - s.clockAnchor.value.arrival >= 1.0
    requires s.clockAnchor.value.samplePosition <= p.header.samplePosition
    ensures var t := Insert(c, s, p, arrival).0;
      && t.clockAnchor == s.clockAnchor
      && DueAt(c.(fixedDelayFrames := 0), t.clockAnchor.value, t.metrics.driftPpm, arrival, 0, 0)
         == p.header.samplePosition as real
  {
    hide Accept, WrappingSub, StreamActive, UpdateDrift;
    OthersAreAccepted(c, s, p, arrival);
    var s0 := s.CountPackets(s.metrics.counts.(received := s.metrics.counts.received + 1));
    var s1 := CountSequence(s0, p.header.sequence);
    AcceptDrift(c, s1, p, arrival);
    DriftIsEstimated(c, s1, p.header.samplePosition, arrival);
  }

  // ----- one anchor for both

  lemma InsertAnchors(c: Config, s: State, p: AudioPacket, arrival: real)
    requires c.Valid() && s.clockAnchor == s.firstDrift
    ensures var t := Insert(c, s, p, arrival).0; t.clockAnchor == t.firstDrift
  {
    hide Accept, WrappingSub, StreamActive, TooLate;
    var s0 := s.CountPackets(s.metrics.counts.(received := s.metrics.counts.received + 1));
    AcceptAnchors(c, CountSequence(AdoptStream(s0, p), p.header.sequence), p, arrival);
  }

  lemma PullAnchors(c: Config, s: State, q: Request)
    requires s.clockAnchor == s.firstDrift
    ensures var t := Pull(c, s, q).0; t.clockAnchor == t.firstDrift
  {
    hide Render, Prepare, SyncIfEnabled;
    SyncForward(c, s, q.playoutTime, q.playoutBuffered, Need(c, q));
    PrepareForward(c, Synced(c, s, q), Required(c, q), Need(c, q));
  }

  /** In every reachable state clock and drift count from the same packet. */
  lemma {:induction false} AnchorsAgree(c: Config, events: seq<Event>)
    requires c.Valid()
    ensures var s := Run(c, INITIAL, events); s.clockAnchor == s.firstDrift
  {
    hide Insert, Pull;
    if events != [] {
      var before, e := events[..|events| - 1], events[|events| - 1];
      AnchorsAgree(c, before);
      var s := Run(c, INITIAL, before);
      match e
      case Arrive(p, arrival) => InsertAnchors(c, s, p, arrival);
      case ArriveInvalid =>
      case Trim(playoutBuffered) => TrimForward(c, s, playoutBuffered);
      case PullEvent(q) => PullAnchors(c, s, q);
    }
  }
}
