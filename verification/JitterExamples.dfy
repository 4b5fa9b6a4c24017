/**
  Runs of the jitter buffer that show where a condition is needed: each starts from the empty
  buffer, takes packets that parse, and reaches the failing case. Two of them need packets that
  overlap, which no sender of this program makes.
 */
module JitterExamples {
  import opened Wrappers
  import opened Numbers
  import opened Packet
  import opened PacketStore
  import opened JitterSpec
  import opened JitterRender
  import opened JitterInvariants
  import opened JitterOverlap
  import opened JitterGaps
  import opened SequenceLoss

  const MIN_CAPACITY_MS: u32 := 600

  function Silence(sequence: u32, position: u64, frames: u16): AudioPacket {
    AudioPacket(AudioPacketHeader.New(1, sequence, frames, position, 0), seq(2 * frames, _ => 0))
  }

  function Zeros(frames: nat): PacketFrames {
    PacketFrames(seq(2 * frames, _ => 0), frames)
  }

  lemma ZerosWellFormed(frames: nat)
    ensures Zeros(frames).WellFormed(2)
  {
    OffsetIsProduct(frames, 2);
  }

  function At(fixedDelay: u64): Config {
    Config(48_000, 2, MIN_CAPACITY_MS, fixedDelay, false)
  }

  // ----- two packets that overlap

  const OVERLAP: seq<Event> := [Arrive(Silence(0, 0, 10), 0.0), Arrive(Silence(1, 5, 10), 0.0)]

  /**
    Overlapping packets with different starts are both stored, and a cached lookup then differs
    from a direct one.
   */
  lemma OverlapIsStored(fixedDelay: u64)
    ensures var packets := Run(At(fixedDelay), INITIAL, OVERLAP).packets;
      && 0 in packets && 5 in packets && !Disjoint(packets)
      && PacketAtCached(packets, 5, Some(0)) == Some(0) && PacketAt(packets, 5) == Some(5)
  {
    hide Insert;
    var c, first, second := At(fixedDelay), Silence(0, 0, 10), Silence(1, 5, 10);
    var s := Insert(c, INITIAL, first, 0.0).0;
    assert OVERLAP == [] + [Arrive(first, 0.0)] + [Arrive(second, 0.0)];
    RunNext(c, INITIAL, [], Arrive(first, 0.0));
    RunNext(c, INITIAL, [] + [Arrive(first, 0.0)], Arrive(second, 0.0));
    FirstInsert(c, first, 0.0);
    AcceptedInsert(c, s, second, 0.0);
  }

  // ----- a packet uncovered by pruning

  const UNCOVERING: seq<Event> := [
    Arrive(Silence(0, 10, 10), 0.0), Arrive(Silence(1, 40, 20), 0.0), PullEvent(Request(1, 48_000, 0, None)),
    Arrive(Silence(2, 5, 95), 0.0)]

  lemma TwoArrive()
    ensures var c := At(30);
      var s := Insert(c, Insert(c, INITIAL, Silence(0, 10, 10), 0.0).0, Silence(1, 40, 20), 0.0).0;
      && s.packets == s.ledger.live == map[10 := Zeros(10), 40 := Zeros(20)]
      && s.latestEnd == 60 && s.phase.Priming? && s.streamId == Some(1) && s.readPos == 10.0 && s.missing == 0
  {
    hide Insert;
    var c, first, second := At(30), Silence(0, 10, 10), Silence(1, 40, 20);
    FirstInsert(c, first, 0.0);
    var s := Insert(c, INITIAL, first, 0.0).0;
    assert s.packets == map[10 := Zeros(10)];
    AcceptedInsert(c, s, second, 0.0);
    assert s.packets[40 := Zeros(20)] == map[10 := Zeros(10), 40 := Zeros(20)];
  }

  lemma PlanBetween(s: State)
    requires s.latestEnd == 60 && s.phase.Priming? && s.readPos == 10.0 && s.missing == 0
    ensures PlanOf(At(30), s, Request(1, 48_000, 0, None))
         == Some(Plan(s.(phase := Running, readPos := 29.0), 1.0))
  {
    assert SourceFrames(1, 48_000, 48_000) == 1;
  }

  lemma OneGap(s: State, u: Cursor)
    requires s.latestEnd == 60 && u.readPos == 30.0 && u.missingInCall <= 1 && u.missing <= 1
    ensures var t := AfterRender(At(30), s, u);
      && t.packets == s.packets && t.ledger == s.ledger && t.latestEnd == 60 && t.phase == s.phase
      && t.streamId == s.streamId && t.readPos == 30.0
  {
  }

  lemma FirstIsPlayed()
    ensures Prune(map[10 := Zeros(10), 40 := Zeros(20)], 30) == map[40 := Zeros(20)]
  {
    var packets := map[10 := Zeros(10), 40 := Zeros(20)];
    assert Played(packets, 30, 10);
    assert End(packets, 40) == 60;
    assert !Played(packets, 30, 40);
  }

  /** One frame is played between the two packets, and the first is pruned. */
  lemma PullPrunes(s: State)
    requires s.packets == s.ledger.live == map[10 := Zeros(10), 40 := Zeros(20)]
    requires s.latestEnd == 60 && s.phase.Priming? && s.streamId == Some(1) && s.readPos == 10.0 && s.missing == 0
    ensures var t := Pull(At(30), s, Request(1, 48_000, 0, None)).0;
      && t.packets == map[40 := Zeros(20)] && t.ledger.live == s.ledger.live
      && t.latestEnd == 60 && t.phase.Running? && t.streamId == Some(1) && t.readPos == 30.0
  {
    hide PlanOf, Render, AfterRender, Prune;
    PlanBetween(s);
    var planned := s.(phase := Running, readPos := 29.0);
    OneFrameRendered(planned);
    OneGap(planned, Render(planned, 2, 1.0, 1));
    FirstIsPlayed();
  }

  lemma OneFrameRendered(s: State)
    requires s.readPos == 29.0 && s.missing == 0
    ensures var u := Render(s, 2, 1.0, 1);
      u.readPos == 30.0 && u.missingInCall <= 1 && u.missing <= 1
  {
    hide Sampled, PacketAtCached;
    var start := Cursor([], 29.0, 0, 0, None);
    assert RenderInteger(s.packets, 2, 29, 0, start) == start;
    assert RenderInteger(s.packets, 2, 29, 1, start) == IntegerStep(s.packets, 2, 29, start);
  }

  /**
    A packet that starts before a pruned one and reaches past the read position may arrive after
    the prune. It is then found where, without the prune, the pruned packet would hide it.
   */
  lemma PruningMayUncover()
    ensures var s := Run(At(30), INITIAL, UNCOVERING);
      && s.readPos == 30.0 && Uncovers(s.packets, s.ledger.live, 30)
      && PacketAt(s.packets, 30) == Some(5) && PacketAt(s.ledger.live, 30) == None
  {
    hide Insert, Pull;
    var c, q := At(30), Request(1, 48_000, 0, None);
    var e0, e1, e2, e3 := UNCOVERING[0], UNCOVERING[1], UNCOVERING[2], UNCOVERING[3];
    assert UNCOVERING == [] + [e0] + [e1] + [e2] + [e3];
    RunNext(c, INITIAL, [], e0);
    RunNext(c, INITIAL, [] + [e0], e1);
    RunNext(c, INITIAL, [] + [e0] + [e1], e2);
    RunNext(c, INITIAL, [] + [e0] + [e1] + [e2], e3);
    TwoArrive();
    var s := Insert(c, Insert(c, INITIAL, Silence(0, 10, 10), 0.0).0, Silence(1, 40, 20), 0.0).0;
    PullPrunes(s);
    LateStartArrives(Pull(c, s, q).0);
  }

  lemma LateStartArrives(s: State)
    requires s.packets == map[40 := Zeros(20)] && s.ledger.live == map[10 := Zeros(10), 40 := Zeros(20)]
    requires s.latestEnd == 60 && s.phase.Running? && s.streamId == Some(1) && s.readPos == 30.0
    ensures var t := Insert(At(30), s, Silence(2, 5, 95), 0.0).0;
      && t.readPos == 30.0 && Uncovers(t.packets, t.ledger.live, 30)
      && PacketAt(t.packets, 30) == Some(5) && PacketAt(t.ledger.live, 30) == None
  {
    hide Insert;
    var p := Silence(2, 5, 95);
    AcceptedInsert(At(30), s, p, 0.0);
    var t := Insert(At(30), s, p, 0.0).0;
    FloorKeyIs(t.ledger.live, 30, 10);
    FloorKeyIs(t.packets, 30, 5);
  }

  // ----- a pull one frame short

  const SIX: Request := Request(6, 192_000, 0, None)
  const EIGHT: Request := Request(8, 192_000, 0, None)

  /** Three frames arrive; two callbacks at four times the source rate trim, pull six, and trim again. */
  const SHORT: seq<Event> := [Arrive(Silence(0, 0, 3), 0.0), Trim(0), PullEvent(SIX), Trim(0)]

  lemma ThreeArrive()
    ensures var s := Insert(At(1), INITIAL, Silence(0, 0, 3), 0.0).0;
      && s.packets == map[0 := Zeros(3)] && s.latestEnd == 3
      && s.phase.Priming? && s.streamId == Some(1) && s.readPos == 0.0
  {
    hide Insert;
    FirstInsert(At(1), Silence(0, 0, 3), 0.0);
    assert Evict(map[0 := Zeros(3)], 3, At(1).CapacityFrames()) == map[0 := Zeros(3)];
  }

  lemma NothingToTrim(s: State)
    requires s.latestEnd == 3 && s.readPos >= 0.0
    ensures TrimToBudget(At(1), s, 0) == s
  {
  }

  lemma ThreeReadable(from: nat)
    ensures var packets := map[0 := Zeros(3)];
      Readable(packets, from, 3) && WellFormedStore(packets, 2) && EndsBy(packets, 3)
  {
    ZerosWellFormed(3);
    var packets := map[0 := Zeros(3)];
    forall pos: nat | from <= pos < 3
      ensures PacketAt(packets, pos).Some?
    {
      FloorKeyIs(packets, pos, 0);
    }
  }

  lemma SixPlan(s: State)
    requires s.latestEnd == 3 && s.phase.Priming? && s.readPos == 0.0
    ensures PlanOf(At(1), s, SIX) == Some(Plan(s.(phase := Running), 0.25))
    ensures Need(At(1), SIX) == 2 && Desired(At(1), SIX) == 1 && Level(s.(phase := Running)) == 3
  {
    assert SourceFrames(6, 48_000, 192_000) == 2;
  }

  lemma SixPulled(s: State)
    requires s.packets == map[0 := Zeros(3)] && s.latestEnd == 3
    requires s.phase.Priming? && s.streamId == Some(1) && s.readPos == 0.0
    ensures var t := Pull(At(1), s, SIX).0;
      t.packets == s.packets && t.latestEnd == 3 && t.phase.Running? && t.readPos == 1.5
  {
    hide Pull, Readable, WellFormedStore, PlanOf, EndsBy;
    ThreeReadable(0);
    SixPlan(s);
    NoGapWhenDataIsThere(At(1), s, SIX);
    TravelIsProduct(0.25, 6);
    assert ReadPosition(0.0, 0.25, 6) == 1.5;
    assert End(s.packets, 0) == 3;
    assert !Played(s.packets, 1, 0);
  }

  lemma EightPlan(s: State)
    requires s.latestEnd == 3 && s.phase.Running? && s.readPos == 1.5
    ensures PlanOf(At(1), s, EIGHT) == Some(Plan(s, 0.249999))
    ensures Need(At(1), EIGHT) == 2 == Level(s)
  {
    assert SourceFrames(8, 48_000, 192_000) == 2;
  }

  /**
    Above the source rate a pull may pass the depth control over complete data and still be silent
    at its end: the callback needs two frames and has two, but starts to read in the middle of one.
   */
  lemma UpsamplingMayMiss()
    ensures var (c, s) := (At(1), Run(At(1), INITIAL, SHORT));
      && WellFormedStore(s.packets, 2) && Readable(s.packets, s.readPos.Floor, s.latestEnd)
      && Need(c, EIGHT) <= Level(s) && PlanOf(c, s, EIGHT).Some?
      && Pull(c, s, EIGHT).1.Rendered? && !NoSilence(Pull(c, s, EIGHT).1.slots, 0)
  {
    hide Insert, Pull, PlanOf, Readable, WellFormedStore, EndsBy, TrimToBudget, NoSilence;
    var c, p := At(1), Silence(0, 0, 3);
    var e0, e1, e2, e3 := SHORT[0], SHORT[1], SHORT[2], SHORT[3];
    assert SHORT == [] + [e0] + [e1] + [e2] + [e3];
    RunNext(c, INITIAL, [], e0);
    RunNext(c, INITIAL, [] + [e0], e1);
    RunNext(c, INITIAL, [] + [e0] + [e1], e2);
    RunNext(c, INITIAL, [] + [e0] + [e1] + [e2], e3);
    ThreeArrive();
    var s := Insert(c, INITIAL, p, 0.0).0;
    NothingToTrim(s);
    SixPulled(s);
    var t := Pull(c, s, SIX).0;
    NothingToTrim(t);
    EightPlan(t);
    ThreeReadable(1);
    PullGapIff(c, t, EIGHT);
    TravelIsProduct(0.249999, 7);
    assert ReadPosition(1.5, 0.249999, 7) == 1.5 + 7.0 * 0.249999;
  }

  // ----- packets out of order

  const SWAPPED: seq<Event> := [
    Arrive(Silence(0, 0, 10), 0.0), Arrive(Silence(2, 20, 10), 0.0), Arrive(Silence(1, 10, 10), 0.0),
    Arrive(Silence(3, 30, 10), 0.0)]

  lemma SwappedStored()
    ensures var s := Run(At(1), INITIAL, SWAPPED);
      s.packets.Keys == {0, 10, 20, 30} && s.metrics.resyncs.total == 0 && s.streamId == Some(1)
  {
    hide Insert;
    var c := At(1);
    var e0, e1, e2, e3 := SWAPPED[0], SWAPPED[1], SWAPPED[2], SWAPPED[3];
    assert SWAPPED == [] + [e0] + [e1] + [e2] + [e3];
    RunNext(c, INITIAL, [], e0);
    RunNext(c, INITIAL, [] + [e0], e1);
    RunNext(c, INITIAL, [] + [e0] + [e1], e2);
    RunNext(c, INITIAL, [] + [e0] + [e1] + [e2], e3);
    FirstInsert(c, e0.packet, 0.0);
    var s0 := Insert(c, INITIAL, e0.packet, 0.0).0;
    StoredNext(s0, e1.packet);
    var s1 := Insert(c, s0, e1.packet, 0.0).0;
    StoredNext(s1, e2.packet);
    var s2 := Insert(c, s1, e2.packet, 0.0).0;
    StoredNext(s2, e3.packet);
  }

  lemma StoredNext(s: State, p: AudioPacket)
    requires s.phase.Priming? && s.streamId == Some(1) && s.latestEnd <= 40
    requires FormatMatches(At(1), p) && p.header.streamId == 1 && p.header.samplePosition !in s.packets
    requires p.EndPosition() <= 40
    ensures var t := Insert(At(1), s, p, 0.0).0;
      && t.packets.Keys == s.packets.Keys + {p.header.samplePosition}
      && t.phase.Priming? && t.streamId == Some(1) && t.latestEnd <= 40
      && t.metrics.resyncs == s.metrics.resyncs
  {
    hide Insert;
    AcceptedInsert(At(1), s, p, 0.0);
  }

  /**
    Four packets arrive, two of them swapped, and all are stored; two count as lost and one as out
    of order: lost plus seen exceeds the span by what the backward number fell short.
   */
  lemma SwappedCountAsLost()
    ensures var s := Run(At(1), INITIAL, SWAPPED);
      && s.packets.Keys == {0, 10, 20, 30}
      && s.metrics.counts.lost == 2 && s.metrics.counts.outOfOrder == 1
  {
    hide Insert, Run;
    SwappedStored();
    SwappedRun();
    FirstInsert(At(1), Silence(0, 0, 10), 0.0);
    SwappedNumbers();
    var s0 := Insert(At(1), INITIAL, Silence(0, 0, 10), 0.0).0;
    LostPlusSeenIsSpan(At(1), s0, 1, 1, SWAPPED[1..], [2, 1, 3]);
    SwappedSums();
  }

  lemma SwappedRun()
    ensures Run(At(1), INITIAL, SWAPPED) == Run(At(1), Insert(At(1), INITIAL, Silence(0, 0, 10), 0.0).0, SWAPPED[1..])
  {
    hide Insert;
    var c, s0 := At(1), Insert(At(1), INITIAL, Silence(0, 0, 10), 0.0).0;
    var e0, e1, e2, e3 := SWAPPED[0], SWAPPED[1], SWAPPED[2], SWAPPED[3];
    assert SWAPPED == [] + [e0] + [e1] + [e2] + [e3] && SWAPPED[1..] == [] + [e1] + [e2] + [e3];
    RunNext(c, INITIAL, [], e0);
    RunNext(c, INITIAL, [] + [e0], e1);
    RunNext(c, INITIAL, [] + [e0] + [e1], e2);
    RunNext(c, INITIAL, [] + [e0] + [e1] + [e2], e3);
    RunNext(c, s0, [], e1);
    RunNext(c, s0, [] + [e1], e2);
    RunNext(c, s0, [] + [e1] + [e2], e3);
  }

  lemma SwappedNumbers()
    ensures Numbered(At(1), 1, 1, SWAPPED[1..], [2, 1, 3])
  {
    var events := SWAPPED[1..];
    assert events[..2][..1] == [events[0]] && events[..1][..0] == [];
    assert [2, 1, 3][..2] == [2, 1] && [2, 1][..1] == [2] && [2][..0] == [];
    assert Numbered(At(1), 1, 1, [], []);
    assert Numbered(At(1), 1, 1, events[..1], [2]);
    assert events[..2][..|events[..2]| - 1] == events[..1];
    assert Numbered(At(1), 1, 1, events[..2], [2, 1]);
    assert events[..|events| - 1] == events[..2];
  }

  lemma SwappedSums()
    ensures Expect(1, [2, 1, 3]) == 4 && Behind(1, [2, 1, 3]) == 2 && StepsBack(1, [2, 1, 3]) == 1
  {
    assert [2, 1, 3][..2] == [2, 1] && [2, 1][..1] == [2] && [2][..0] == [];
    assert Behind(1, [2]) == 0 && StepsBack(1, [2]) == 0;
    assert Behind(1, [2, 1]) == 2 && StepsBack(1, [2, 1]) == 1;
  }
}
