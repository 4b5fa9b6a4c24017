/**
  Loss counting by 32-bit sequence numbers (`common/src/jitter.rs`): over any run of the buffer
  that does not resync, lost and seen packets against the span of the unwrapped numbers, across
  the wrap and with packets out of order.
 */
module SequenceLoss {
  import opened Wrappers
  import opened Numbers
  import opened Packet
  import opened JitterSpec
  import opened JitterInvariants

  lemma WrapOnce(n: int)
    ensures 0 <= n < U32_LIMIT ==> n % U32_LIMIT == n
    ensures -U32_LIMIT <= n < 0 ==> n % U32_LIMIT == n + U32_LIMIT
  {
  }

  lemma WrappedDistance(a: nat, b: nat)
    requires b <= a < b + U32_LIMIT
    ensures WrappingSub(Wrap(a), Wrap(b)) == a - b
  {
    var d := Wrap(a) - Wrap(b);
    assert a == U32_LIMIT * (a / U32_LIMIT) + Wrap(a);
    assert b == U32_LIMIT * (b / U32_LIMIT) + Wrap(b);
    assert d == (a - b) - U32_LIMIT * (a / U32_LIMIT - b / U32_LIMIT);
    WrapOnce(d);
  }

  lemma WrappedSuccessor(n: nat)
    ensures Successor(Wrap(n)) == Wrap(n + 1)
  {
    assert n == U32_LIMIT * (n / U32_LIMIT) + Wrap(n);
    WrapOnce(Wrap(n) + 1);
  }

  // ----- the numbers of a run

  /** The number expected after some unwrapped numbers have been seen. */
  function Expect(first: nat, seen: seq<nat>): nat {
    if seen == [] then first else seen[|seen| - 1] + 1
  }

  /** How far in all the numbers that step back fall short of the expected ones. */
  function Behind(first: nat, seen: seq<nat>): nat {
    if seen == [] then 0
    else
      var init := seen[..|seen| - 1];
      Behind(first, init) + SatSub(Expect(first, init), seen[|seen| - 1])
  }

  /** How many of the numbers step back. */
  function StepsBack(first: nat, seen: seq<nat>): nat {
    if seen == [] then 0
    else
      var init := seen[..|seen| - 1];
      StepsBack(first, init) + (if seen[|seen| - 1] < Expect(first, init) then 1 else 0)
  }

  lemma {:induction false} BehindIffStepsBack(first: nat, seen: seq<nat>)
    ensures Behind(first, seen) == 0 <==> StepsBack(first, seen) == 0
  {
    if seen != [] {
      BehindIffStepsBack(first, seen[..|seen| - 1]);
    }
  }

  /** The source tells forwards from backwards by half the range of the 32-bit numbers. */
  predicate Near(expected: nat, n: nat) {
    U32_MAX / 2 - U32_LIMIT <= n - expected < U32_MAX / 2
  }

  /** A packet whose number the buffer counts: of the followed stream and of the configured format. */
  predicate IsCounted(c: Config, stream: u64, e: Event) {
    e.Arrive? && FormatMatches(c, e.packet) && e.packet.header.streamId == stream
  }

  /** The counted packets of a run carry these numbers, wrapped; anything else may happen in between. */
  predicate Numbered(c: Config, stream: u64, first: nat, events: seq<Event>, seen: seq<nat>) {
    if events == [] then seen == []
    else
      var before, e := events[..|events| - 1], events[|events| - 1];
      if IsCounted(c, stream, e) then
        && seen != []
        && e.packet.header.sequence == Wrap(seen[|seen| - 1])
        && Near(Expect(first, seen[..|seen| - 1]), seen[|seen| - 1])
        && Numbered(c, stream, first, before, seen[..|seen| - 1])
      else Numbered(c, stream, first, before, seen)
  }

  // ----- one event

  lemma CountedOnce(s: State, expected: nat, n: nat)
    requires s.expectedSequence == Some(Wrap(expected)) && Near(expected, n)
    ensures var t := CountSequence(s, Wrap(n));
      && t.metrics.counts.lost == s.metrics.counts.lost + SatSub(n, expected)
      && t.metrics.counts.outOfOrder == s.metrics.counts.outOfOrder + (if n < expected then 1 else 0)
      && t.expectedSequence == Some(Wrap(n + 1))
  {
    hide WrappingSub, Wrap, Successor;
    WrappedSuccessor(n);
    if expected <= n {
      WrappedDistance(n, expected);
    } else {
      WrappedDistance(n + U32_LIMIT, expected);
      WrapAround(n);
    }
  }

  lemma WrapAround(n: nat)
    ensures Wrap(n + U32_LIMIT) == Wrap(n)
  {
  }

  /** Inserting a packet of the followed stream counts its number once, whatever becomes of the packet. */
  lemma InsertCounts(c: Config, s: State, p: AudioPacket, arrival: real)
    requires c.Valid() && FormatMatches(c, p) && s.streamId == Some(p.header.streamId)
    ensures var (t, counted) := (Insert(c, s, p, arrival).0, CountSequence(s, p.header.sequence));
      && t.streamId == s.streamId
      && t.expectedSequence == counted.expectedSequence
      && t.metrics.counts.lost == counted.metrics.counts.lost
      && t.metrics.counts.outOfOrder == counted.metrics.counts.outOfOrder
  {
    hide Accept, WrappingSub, TooLate, StreamActive;
    var s0 := s.CountPackets(s.metrics.counts.(received := s.metrics.counts.received + 1));
    assert AdoptStream(s0, p) == s0;
    AcceptedInto(c, CountSequence(s0, p.header.sequence), p, arrival);
  }

  /** What the loss counters are about, unchanged. */
  predicate SameCount(s: State, t: State) {
    && t.streamId == s.streamId && t.expectedSequence == s.expectedSequence
    && t.metrics.counts.lost == s.metrics.counts.lost
    && t.metrics.counts.outOfOrder == s.metrics.counts.outOfOrder
  }

  /** A packet of another stream or format counts nothing unless it makes the buffer switch streams. */
  lemma OtherInsert(c: Config, s: State, p: AudioPacket, arrival: real)
    requires c.Valid() && s.streamId.Some?
    requires !(FormatMatches(c, p) && p.header.streamId == s.streamId.value)
    ensures var t := Insert(c, s, p, arrival).0;
      t.metrics.resyncs.total == s.metrics.resyncs.total ==> SameCount(s, t)
  {
    hide Accept, WrappingSub, TooLate, StreamActive;
    var s0 := s.CountPackets(s.metrics.counts.(received := s.metrics.counts.received + 1));
    AcceptedInto(c, CountSequence(AdoptStream(s0, p), p.header.sequence), p, arrival);
  }

  lemma InsertResyncs(c: Config, s: State, p: AudioPacket, arrival: real)
    requires c.Valid()
    ensures Insert(c, s, p, arrival).0.metrics.resyncs.total >= s.metrics.resyncs.total
  {
    hide Accept, WrappingSub, TooLate, StreamActive;
    var s0 := s.CountPackets(s.metrics.counts.(received := s.metrics.counts.received + 1));
    AcceptedInto(c, CountSequence(AdoptStream(s0, p), p.header.sequence), p, arrival);
  }

  /** A pull counts no packets, and forgets the expected number only when it resyncs. */
  lemma PullCount(c: Config, s: State, q: Request)
    ensures var t := Pull(c, s, q).0;
      && t.metrics.resyncs.total >= s.metrics.resyncs.total
      && (t.metrics.resyncs.total == s.metrics.resyncs.total ==> SameCount(s, t))
  {
    hide Render, Prepare, SyncIfEnabled;
    SyncForward(c, s, q.playoutTime, q.playoutBuffered, Need(c, q));
    PrepareForward(c, Synced(c, s, q), Required(c, q), Need(c, q));
  }

  lemma StepCount(c: Config, s: State, e: Event)
    requires c.Valid() && s.streamId.Some?
    ensures var t := Step(c, s, e);
      && t.metrics.resyncs.total >= s.metrics.resyncs.total
      && (!IsCounted(c, s.streamId.value, e) && t.metrics.resyncs.total == s.metrics.resyncs.total ==> SameCount(s, t))
  {
    hide Insert, Pull;
    match e
    case Arrive(p, arrival) =>
      InsertResyncs(c, s, p, arrival);
      if !IsCounted(c, s.streamId.value, e) {
        OtherInsert(c, s, p, arrival);
      }
    case ArriveInvalid =>
    case Trim(playoutBuffered) => TrimForward(c, s, playoutBuffered);
    case PullEvent(q) => PullCount(c, s, q);
  }

  /** No step takes a resync back. */
  lemma StepResyncs(c: Config, s: State, e: Event)
    requires c.Valid()
    ensures Step(c, s, e).metrics.resyncs.total >= s.metrics.resyncs.total
  {
    hide Insert, Pull;
    match e
    case Arrive(p, arrival) => InsertResyncs(c, s, p, arrival);
    case ArriveInvalid =>
    case Trim(playoutBuffered) => TrimForward(c, s, playoutBuffered);
    case PullEvent(q) => PullCount(c, s, q);
  }

  lemma {:induction false} ResyncsGrow(c: Config, s: State, events: seq<Event>)
    requires c.Valid()
    ensures Run(c, s, events).metrics.resyncs.total >= s.metrics.resyncs.total
  {
    hide Step;
    if events != [] {
      ResyncsGrow(c, s, events[..|events| - 1]);
      StepResyncs(c, Run(c, s, events[..|events| - 1]), events[|events| - 1]);
    }
  }

  // ----- runs

  lemma {:induction false} RunCounts(c: Config, s: State, stream: u64, first: nat, events: seq<Event>, seen: seq<nat>)
    requires c.Valid() && s.streamId == Some(stream) && s.expectedSequence == Some(Wrap(first))
    requires Numbered(c, stream, first, events, seen)
    requires Run(c, s, events).metrics.resyncs.total == s.metrics.resyncs.total
    ensures var t := Run(c, s, events);
      && t.streamId == Some(stream) && t.expectedSequence == Some(Wrap(Expect(first, seen)))
      && t.metrics.counts.lost - s.metrics.counts.lost + |seen|
         == Expect(first, seen) - first + Behind(first, seen)
      && t.metrics.counts.outOfOrder - s.metrics.counts.outOfOrder == StepsBack(first, seen)
  {
    hide Step, Near, FormatMatches, CountSequence;
    if events != [] {
      var before, e := events[..|events| - 1], events[|events| - 1];
      var u := Run(c, s, before);
      ResyncsGrow(c, s, before);
      StepResyncs(c, u, e);
      if IsCounted(c, stream, e) {
        var init, n := seen[..|seen| - 1], seen[|seen| - 1];
        RunCounts(c, s, stream, first, before, init);
        StepInserts(c, u, e);
        InsertCounts(c, u, e.packet, e.arrival);
        CountedOnce(u, Expect(first, init), n);
      } else {
        RunCounts(c, s, stream, first, before, seen);
        StepCount(c, u, e);
      }
    }
  }

  lemma StepInserts(c: Config, s: State, e: Event)
    requires c.Valid() && e.Arrive?
    ensures Step(c, s, e) == Insert(c, s, e.packet, e.arrival).0
  {
    hide Insert;
  }

  /**
    Over any run without a resync, of arrivals in any order, trims, pulls, invalid and foreign
    packets, and wherever the 32-bit numbers wrap: lost plus seen packets is the span of the
    unwrapped numbers and what the backward ones fall short by, and each of those counts as out of
    order. So lost plus seen is the span if and only if nothing counts as out of order.
   */
  lemma LostPlusSeenIsSpan(c: Config, s: State, stream: u64, first: nat, events: seq<Event>, seen: seq<nat>)
    requires c.Valid() && s.streamId == Some(stream) && s.expectedSequence == Some(Wrap(first))
    requires Numbered(c, stream, first, events, seen)
    requires Run(c, s, events).metrics.resyncs.total == s.metrics.resyncs.total
    ensures var t := Run(c, s, events);
      var (lost, span) := (t.metrics.counts.lost - s.metrics.counts.lost, Expect(first, seen) - first);
      && lost + |seen| == span + Behind(first, seen)
      && t.metrics.counts.outOfOrder - s.metrics.counts.outOfOrder == StepsBack(first, seen)
      && (lost + |seen| == span <==> t.metrics.counts.outOfOrder == s.metrics.counts.outOfOrder)
  {
    hide Run, Numbered;
    RunCounts(c, s, stream, first, events, seen);
    BehindIffStepsBack(first, seen);
  }
}
