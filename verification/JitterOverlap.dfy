/**
  Pruning when packets overlap (`common/src/jitter.rs`): exactly when it changes something that is
  still to be read, and exactly which packets bring that about.
 */
module JitterOverlap {
  import opened Wrappers
  import opened Numbers
  import opened Packet
  import opened PacketStore
  import opened JitterSpec
  import opened JitterInvariants

  /** The newest start at or before a position was pruned, while an older stored packet still covers the position. */
  predicate Uncovers(packets: Store, live: Store, pos: nat) {
    FloorKey(live, pos).Some? && FloorKey(live, pos).value !in packets && PacketAt(packets, pos).Some?
  }

  /** A floor is the only key at or before a position that no other such key exceeds. */
  lemma FloorKeyIs(packets: Store, pos: nat, k: nat)
    requires k in packets && k <= pos && forall j :: j in packets && j <= pos ==> j <= k
    ensures FloorKey(packets, pos) == Some(k)
  {
    FloorKeyIsGreatest(packets, pos);
  }

  lemma PrunedIsOver(packets: Store, live: Store, readPos: real, k: nat)
    requires PrunedOnly(packets, live, ReadFrame(readPos)) && readPos >= 0.0
    requires k in live && k !in packets
    ensures k <= End(live, k) < readPos.Floor
  {
  }

  /** Where the live floor is stored the lookups agree; where it was pruned only an older stored packet can be found. */
  lemma LookupByFloor(packets: Store, live: Store, readPos: real, pos: nat)
    requires PrunedOnly(packets, live, ReadFrame(readPos)) && readPos.Floor <= pos && readPos >= 0.0
    ensures PacketAt(packets, pos) != PacketAt(live, pos) <==> Uncovers(packets, live, pos)
  {
    hide PrunedOnly;
    assert forall k :: k in packets ==> k in live && packets[k] == live[k] by { StoredIsLive(packets, live, readPos); }
    FloorKeyIsGreatest(live, pos);
    FloorKeyIsGreatest(packets, pos);
    var f := FloorKey(live, pos);
    if f.Some? {
      if f.value in packets {
        FloorKeyIs(packets, pos, f.value);
      } else {
        PrunedIsOver(packets, live, readPos, f.value);
      }
    }
  }

  lemma StoredIsLive(packets: Store, live: Store, readPos: real)
    requires PrunedOnly(packets, live, ReadFrame(readPos))
    ensures forall k :: k in packets ==> k in live && packets[k] == live[k]
  {
  }

  /** A pruned packet uncovers an older one from the read position on, or not at all. */
  lemma UncoversAtOnce(packets: Store, live: Store, readPos: real, pos: nat)
    requires PrunedOnly(packets, live, ReadFrame(readPos)) && readPos.Floor <= pos && readPos >= 0.0
    requires Uncovers(packets, live, pos)
    ensures Uncovers(packets, live, readPos.Floor)
  {
    hide PrunedOnly;
    StoredIsLive(packets, live, readPos);
    var from, k, j := readPos.Floor, FloorKey(live, pos).value, FloorKey(packets, pos).value;
    PrunedIsOver(packets, live, readPos, k);
    FloorKeyIsGreatest(live, pos);
    FloorKeyIsGreatest(packets, pos);
    FloorKeyIs(live, from, k);
    FloorKeyIs(packets, from, j);
  }

  /**
    Exactly when pruning changes nothing that is still to be read, overlapping packets included:
    when at the read position no packet that was pruned hides an older one that is still stored.
   */
  lemma PrunedUnreadableIff(s: State)
    requires LiveInv(s) && s.readPos >= 0.0
    ensures (forall pos: nat :: s.readPos.Floor <= pos ==> PacketAt(s.packets, pos) == PacketAt(s.ledger.live, pos))
       <==> !Uncovers(s.packets, s.ledger.live, s.readPos.Floor)
  {
    hide PrunedOnly, Uncovers;
    forall pos: nat | s.readPos.Floor <= pos && PacketAt(s.packets, pos) != PacketAt(s.ledger.live, pos)
      ensures Uncovers(s.packets, s.ledger.live, s.readPos.Floor)
    {
      LookupByFloor(s.packets, s.ledger.live, s.readPos, pos);
      UncoversAtOnce(s.packets, s.ledger.live, s.readPos, pos);
    }
    LookupByFloor(s.packets, s.ledger.live, s.readPos, s.readPos.Floor);
  }

  // ----- which events uncover

  lemma FloorAdded(packets: Store, pos: nat, k: nat, added: PacketFrames)
    ensures var f := FloorKey(packets, pos);
      FloorKey(packets[k := added], pos) == if k <= pos && (f.None? || f.value <= k) then Some(k) else f
  {
    hide FloorKey;
    var f := FloorKey(packets, pos);
    FloorKeyIsGreatest(packets, pos);
    if k <= pos && (f.None? || f.value <= k) {
      FloorKeyIs(packets[k := added], pos, k);
    } else if f.Some? {
      FloorKeyIs(packets[k := added], pos, f.value);
    }
  }

  /** Eviction takes the oldest starts: it leaves a floor or everything at or before it is gone. */
  lemma FloorEvicted(packets: Store, pos: nat, latest: nat, capacity: nat)
    ensures var f := FloorKey(packets, pos);
      FloorKey(Evict(packets, latest, capacity), pos)
      == if f.Some? && SatSub(latest, f.value) <= capacity then f else None
  {
    hide FloorKey;
    var f, kept := FloorKey(packets, pos), Evict(packets, latest, capacity);
    FloorKeyIsGreatest(packets, pos);
    if f.Some? && SatSub(latest, f.value) <= capacity {
      FloorKeyIs(kept, pos, f.value);
    }
  }

  /** A packet the buffer accepts without switching streams. */
  predicate IsAccepted(c: Config, s: State, e: Event) {
    && e.Arrive? && FormatMatches(c, e.packet) && s.streamId == Some(e.packet.header.streamId)
    && !TooLate(s, e.packet) && e.packet.header.samplePosition !in s.packets
  }

  /**
    The packet starts before the pruned packet that is the newest live start at the read position,
    but after every stored one, and reaches past the read position.
   */
  predicate StartsBehindPruned(c: Config, s: State, p: AudioPacket) {
    var from: nat := Max(s.readPos.Floor, 0);
    var (start, live, stored) := (p.header.samplePosition, FloorKey(s.ledger.live, from), FloorKey(s.packets, from));
    && live.Some? && live.value !in s.packets
    && start < live.value && from < p.EndPosition()
    && (stored.Some? ==> stored.value < start)
    && SatSub(Max(s.latestEnd, p.EndPosition()), start) <= c.CapacityFrames()
  }

  predicate UncoversNow(s: State) {
    Uncovers(s.packets, s.ledger.live, Max(s.readPos.Floor, 0))
  }

  lemma InsertUncovers(c: Config, s: State, p: AudioPacket, arrival: real)
    requires c.Valid() && LiveInv(s) && s.readPos >= 0.0 && !UncoversNow(s)
    requires IsAccepted(c, s, Arrive(p, arrival))
    ensures UncoversNow(Insert(c, s, p, arrival).0) <==> StartsBehindPruned(c, s, p)
  {
    hide Insert, Evict, PrunedOnly, FloorKey;
    AcceptedInsert(c, s, p, arrival);
    var t := Insert(c, s, p, arrival).0;
    AcceptedUncovers(c, s, p, t.packets, t.ledger.live);
  }

  lemma AcceptedUncovers(c: Config, s: State, p: AudioPacket, packets: Store, live: Store)
    requires LiveInv(s) && s.readPos >= 0.0 && !UncoversNow(s)
    requires p.header.samplePosition !in s.packets
    requires var (k, added, latest) := (p.header.samplePosition, PacketFrames(p.payload, p.header.frames),
                                        Max(s.latestEnd, p.EndPosition()));
      && packets == Evict(s.packets[k := added], latest, c.CapacityFrames())
      && live == Evict(s.ledger.live[k := added], latest, c.CapacityFrames())
    ensures Uncovers(packets, live, s.readPos.Floor) <==> StartsBehindPruned(c, s, p)
  {
    hide PrunedOnly, FloorKey;
    var (k, added, latest) := (p.header.samplePosition, PacketFrames(p.payload, p.header.frames),
                               Max(s.latestEnd, p.EndPosition()));
    var from: nat := s.readPos.Floor;
    StoredIsLive(s.packets, s.ledger.live, s.readPos);
    FloorAdded(s.packets, from, k, added);
    FloorAdded(s.ledger.live, from, k, added);
    FloorEvicted(s.packets[k := added], from, latest, c.CapacityFrames());
    FloorEvicted(s.ledger.live[k := added], from, latest, c.CapacityFrames());
    FloorsOrdered(s.packets, s.ledger.live, from);
  }

  lemma FloorsOrdered(packets: Store, live: Store, pos: nat)
    requires forall k :: k in packets ==> k in live
    ensures FloorKey(packets, pos).Some? ==>
      FloorKey(live, pos).Some? && FloorKey(packets, pos).value <= FloorKey(live, pos).value
    ensures FloorKey(live, pos).Some? && FloorKey(live, pos).value in packets ==>
      FloorKey(packets, pos) == FloorKey(live, pos)
  {
    FloorKeyIsGreatest(live, pos);
    FloorKeyIsGreatest(packets, pos);
  }

  /** Pruning takes whatever starts before what it takes, so it uncovers nothing itself. */
  lemma PruneUncoversNothing(packets: Store, live: Store, readPos: real, later: real)
    requires PrunedOnly(packets, live, ReadFrame(readPos)) && 0.0 <= readPos <= later
    requires !Uncovers(packets, live, readPos.Floor)
    ensures !Uncovers(Prune(packets, ReadFrame(later)), live, later.Floor)
  {
    hide PrunedOnly, FloorKey;
    StoredIsLive(packets, live, readPos);
    var (kept, from) := (Prune(packets, ReadFrame(later)), later.Floor);
    if Uncovers(kept, live, from) {
      var m, j := FloorKey(live, from).value, FloorKey(kept, from).value;
      FloorKeyIsGreatest(live, from);
      FloorKeyIsGreatest(kept, from);
      FloorKeyIsGreatest(packets, from);
      var g := FloorKey(packets, from).value;
      if g !in kept {
        PlayedBefore(packets, ReadFrame(later), j, g);
      } else if m in packets {
        PlayedBefore(packets, ReadFrame(later), j, m);
      } else {
        UncoversAtOnce(packets, live, readPos, from);
      }
    }
  }

  lemma PlayedBefore(packets: Store, readFrame: nat, j: nat, k: nat)
    requires j <= k && Played(packets, readFrame, k)
    ensures Played(packets, readFrame, j)
  {
  }

  /** A step forward over the same packets uncovers nothing. */
  lemma ForwardUncoversNothing(packets: Store, live: Store, readPos: real, later: real)
    requires PrunedOnly(packets, live, ReadFrame(readPos)) && 0.0 <= readPos <= later
    requires !Uncovers(packets, live, readPos.Floor)
    ensures !Uncovers(packets, live, later.Floor)
  {
    hide PrunedOnly, Uncovers;
    if Uncovers(packets, live, later.Floor) {
      UncoversAtOnce(packets, live, readPos, later.Floor);
    }
  }

  /** What a pull leaves in the stores: what was there, or that without what is played, or nothing. */
  lemma PullStores(c: Config, s: State, q: Request)
    requires c.Valid() && Inv(c, s)
    ensures var t := Pull(c, s, q).0;
      || (t.packets == map[] == t.ledger.live)
      || (t.ledger.live == s.ledger.live
          && (t.packets == s.packets || t.packets == Prune(s.packets, ReadFrame(t.readPos))))
  {
    hide Render, Prune, StoreInv, Accounted;
    if c.channels > 0 && q.frames > 0 {
      InvParts(c, s);
      PlanKeeps(c, s, q);
      EmptyPruned(ReadFrame(Pull(c, s, q).0.readPos));
    }
  }

  lemma InvParts(c: Config, s: State)
    requires Inv(c, s)
    ensures StoreInv(c, s) && LiveInv(s) && s.readPos >= 0.0
  {
  }

  lemma EmptyPruned(readFrame: nat)
    ensures Prune(map[], readFrame) == map[]
  {
  }

  lemma NothingUncovered(pos: nat)
    ensures !Uncovers(map[], map[], pos)
  {
    FloorKeyIsGreatest(map[], pos);
  }

  lemma PullUncoversNothing(c: Config, s: State, q: Request)
    requires c.Valid() && Inv(c, s) && !UncoversNow(s)
    ensures !UncoversNow(Pull(c, s, q).0)
  {
    hide Pull, Inv, Uncovers, Prune, PrunedOnly;
    InvParts(c, s);
    PullKeeps(c, s, q);
    PullStores(c, s, q);
    var t := Pull(c, s, q).0;
    ForwardUncoversNothing(s.packets, s.ledger.live, s.readPos, t.readPos);
    PruneUncoversNothing(s.packets, s.ledger.live, s.readPos, t.readPos);
    NothingUncovered(t.readPos.Floor);
  }

  /** A packet that is not accepted into the followed stream leaves the stores alone, or starts them afresh. */
  lemma OtherInsertStores(c: Config, s: State, p: AudioPacket, arrival: real)
    requires c.Valid() && Inv(c, s) && !IsAccepted(c, s, Arrive(p, arrival))
    ensures var t := Insert(c, s, p, arrival).0;
      || t.packets == t.ledger.live
      || (t.packets == s.packets && t.ledger.live == s.ledger.live && t.readPos == s.readPos)
  {
    hide Accept, WrappingSub, StreamActive, CapacityInv, GapInv, Evict;
    var s0 := s.CountPackets(s.metrics.counts.(received := s.metrics.counts.received + 1));
    AcceptedInto(c, CountSequence(AdoptStream(s0, p), p.header.sequence), p, arrival);
  }

  lemma AllStored(packets: Store, pos: nat)
    ensures !Uncovers(packets, packets, pos)
  {
  }

  /** The only event that uncovers is the acceptance of a packet that starts behind a pruned one. */
  lemma StepUncovers(c: Config, s: State, e: Event)
    requires c.Valid() && Inv(c, s) && !UncoversNow(s)
    ensures UncoversNow(Step(c, s, e)) <==> IsAccepted(c, s, e) && StartsBehindPruned(c, s, e.packet)
  {
    hide Insert, Pull, TrimToBudget, Inv, Uncovers, StartsBehindPruned, PrunedOnly;
    InvParts(c, s);
    match e
    case Arrive(p, arrival) =>
      if IsAccepted(c, s, e) {
        InsertUncovers(c, s, p, arrival);
      } else {
        OtherInsertStores(c, s, p, arrival);
        var t := Insert(c, s, p, arrival).0;
        AllStored(t.packets, Max(t.readPos.Floor, 0));
      }
    case ArriveInvalid =>
    case Trim(playoutBuffered) =>
      TrimForward(c, s, playoutBuffered);
      ForwardUncoversNothing(s.packets, s.ledger.live, s.readPos, TrimToBudget(c, s, playoutBuffered).readPos);
    case PullEvent(q) => PullUncoversNothing(c, s, q);
  }

  /** No packet of a run is accepted behind a pruned one. */
  ghost predicate NeverBehindPruned(c: Config, events: seq<Event>)
    requires c.Valid()
  {
    events != [] ==>
      var before, e := events[..|events| - 1], events[|events| - 1];
      && NeverBehindPruned(c, before)
      && !(IsAccepted(c, Run(c, INITIAL, before), e) && StartsBehindPruned(c, Run(c, INITIAL, before), e.packet))
  }

  /**
    Over any run, overlapping packets included: as long as none is accepted behind a pruned one,
    pruning changes nothing that is still to be read.
   */
  lemma {:induction false} RunUncoversNothing(c: Config, events: seq<Event>)
    requires c.Valid() && NeverBehindPruned(c, events)
    ensures !UncoversNow(Run(c, INITIAL, events))
  {
    hide Step, UncoversNow, IsAccepted, StartsBehindPruned;
    if events == [] {
      InitialUncoversNothing();
    } else {
      var before := events[..|events| - 1];
      RunUncoversNothing(c, before);
      RunKeeps(c, before);
      StepUncovers(c, Run(c, INITIAL, before), events[|events| - 1]);
    }
  }

  lemma InitialUncoversNothing()
    ensures !UncoversNow(INITIAL)
  {
  }
}
