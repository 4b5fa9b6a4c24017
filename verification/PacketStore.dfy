/**
  The sorted map of received packets and the ways the jitter buffer reads and shrinks it
  (`common/src/jitter.rs`): lookup by position, cached lookup, pruning and eviction.
 */
module PacketStore {
  import opened Wrappers
  import opened Numbers
  import opened Audio

  datatype PacketFrames = PacketFrames(payload: seq<i16>, frameCount: nat) {
    predicate WellFormed(channels: nat) {
      |payload| == Offset(frameCount, channels)
    }
  }

  /** Packets by their first position. */
  type Store = map<nat, PacketFrames>

  function End(packets: Store, k: nat): nat
    requires k in packets
  {
    k + packets[k].frameCount
  }

  predicate Covers(packets: Store, k: nat, pos: nat) {
    k in packets && k <= pos < End(packets, k)
  }

  ghost predicate Covered(packets: Store, pos: nat) {
    exists k :: Covers(packets, k, pos)
  }

  /** No packet starts before an earlier one has ended. */
  ghost predicate Disjoint(packets: Store) {
    forall j, k :: j in packets && k in packets && j < k ==> End(packets, j) <= k
  }

  // ----- lookup

  /** `range(..=pos).next_back()`: the greatest start at or before `pos`. */
  function FloorKey(packets: Store, pos: nat): (r: Option<nat>)
    ensures r.Some? ==> r.value in packets && r.value <= pos
  {
    if pos in packets then Some(pos)
    else if pos == 0 then None
    else FloorKey(packets, pos - 1)
  }

  lemma {:induction false} FloorKeyIsGreatest(packets: Store, pos: nat)
    ensures forall k :: k in packets && k <= pos ==> FloorKey(packets, pos).Some? && k <= FloorKey(packets, pos).value
  {
    if pos !in packets && pos > 0 {
      FloorKeyIsGreatest(packets, pos - 1);
    }
  }

  /** Direct search: the packet that would be read at `pos`. */
  function PacketAt(packets: Store, pos: nat): Option<nat> {
    match FloorKey(packets, pos)
    case None => None
    case Some(k) => if pos >= End(packets, k) then None else Some(k)
  }

  predicate ValidCache(packets: Store, cache: Option<nat>) {
    cache.Some? ==> cache.value in packets
  }

  /** Cached search: the cached packet is taken without a search while it covers `pos`. */
  function PacketAtCached(packets: Store, pos: nat, cache: Option<nat>): (r: Option<nat>)
    requires ValidCache(packets, cache)
    ensures r.Some? ==> Covers(packets, r.value, pos)
  {
    if cache.Some? && cache.value <= pos < End(packets, cache.value) then cache
    else PacketAt(packets, pos)
  }

  /** A failed search keeps the old cache. */
  function NextCache(packets: Store, pos: nat, cache: Option<nat>): (r: Option<nat>)
    requires ValidCache(packets, cache)
    ensures ValidCache(packets, r)
  {
    var found := PacketAtCached(packets, pos, cache);
    if found.Some? then found else cache
  }

  /** On disjoint packets the search finds exactly the packet that covers the position. */
  lemma PacketAtDisjoint(packets: Store, pos: nat)
    requires Disjoint(packets)
    ensures forall k: nat :: PacketAt(packets, pos) == Some(k) <==> Covers(packets, k, pos)
    ensures PacketAt(packets, pos).Some? <==> Covered(packets, pos)
  {
    FloorKeyIsGreatest(packets, pos);
    if PacketAt(packets, pos).Some? {
      assert Covers(packets, PacketAt(packets, pos).value, pos);
    }
  }

  /**
    The cache never changes what is found, whatever packet it holds and whatever position is
    asked for, exactly when the stored packets are disjoint.
   */
  lemma CacheTransparentIffDisjoint(packets: Store)
    ensures Disjoint(packets) <==>
      forall pos: nat, cache: Option<nat> | ValidCache(packets, cache) ::
        PacketAtCached(packets, pos, cache) == PacketAt(packets, pos)
  {
    if Disjoint(packets) {
      forall pos: nat, cache: Option<nat> | ValidCache(packets, cache)
        ensures PacketAtCached(packets, pos, cache) == PacketAt(packets, pos)
      {
        PacketAtDisjoint(packets, pos);
        if cache.Some? && cache.value <= pos < End(packets, cache.value) {
          assert Covers(packets, cache.value, pos);
        }
      }
    } else {
      var j, k :| j in packets && k in packets && j < k < End(packets, j);
      assert ValidCache(packets, Some(j));
      assert PacketAtCached(packets, k, Some(j)) == Some(j);
      FloorKeyIsGreatest(packets, k);
      assert PacketAt(packets, k) != Some(j);
    }
  }

  // ----- reading a frame

  /** A sample slice read with `get`: `None` past the end. */
  function Get(payload: seq<i16>, i: nat): Option<i16> {
    if i < |payload| then Some(payload[i]) else None
  }

  function SampleFromPacket(start: nat, packet: PacketFrames, channels: nat, pos: nat): Option<StereoFrame> {
    if pos < start || pos - start >= packet.frameCount then None
    else
      var at := Offset(pos - start, channels);
      match Get(packet.payload, at)
      case None => None
      case Some(left) =>
        var right :=
          if channels == 1 then left
          else match Get(packet.payload, at + 1) case Some(r) => r case None => left;
        Some(StereoFrame(I16ToF32(left), I16ToF32(right)))
  }

  function SampleIn(packets: Store, found: Option<nat>, channels: nat, pos: nat): Option<StereoFrame>
    requires found.Some? ==> found.value in packets
  {
    match found
    case None => None
    case Some(k) => SampleFromPacket(k, packets[k], channels, pos)
  }

  function SampleAt(packets: Store, channels: nat, pos: nat): Option<StereoFrame> {
    SampleIn(packets, PacketAt(packets, pos), channels, pos)
  }

  /** Every position a well-formed packet covers has a frame. */
  lemma SampleFromWellFormed(start: nat, packet: PacketFrames, channels: nat, pos: nat)
    requires packet.WellFormed(channels) && 0 < channels
    requires start <= pos < start + packet.frameCount
    ensures SampleFromPacket(start, packet, channels, pos).Some?
  {
    OffsetMonotone(pos - start + 1, packet.frameCount, channels);
  }

  /**
    Which samples a frame of a packet is: its channels' first two, interleaved; the first alone,
    on both sides, where there is but one channel or the payload ends; and none outside.
   */
  lemma SamplesOfFrame(start: nat, packet: PacketFrames, channels: nat, pos: nat)
    ensures var (frame, offset) := (SampleFromPacket(start, packet, channels, pos), (pos - start) * channels);
      if pos < start || start + packet.frameCount <= pos || |packet.payload| <= offset then frame == None
      else
        var right := if channels == 1 || |packet.payload| == offset + 1 then offset else offset + 1;
        frame == Some(StereoFrame(I16ToF32(packet.payload[offset]), I16ToF32(packet.payload[right])))
  {
    hide I16ToF32;
    if start <= pos {
      OffsetIsProduct(pos - start, channels);
    }
  }

  // ----- pruning and eviction

  /** `take_while` over ascending starts: a packet goes only if all before it go too. */
  ghost predicate Played(packets: Store, readFrame: nat, k: nat) {
    forall j :: j in packets && j <= k ==> End(packets, j) + 1 < readFrame
  }

  ghost function Prune(packets: Store, readFrame: nat): Store {
    map k | k in packets && !Played(packets, readFrame, k) :: packets[k]
  }

  /** Packets that start no further than `capacity` before `latest`. */
  function Evict(packets: Store, latest: nat, capacity: nat): Store {
    map k | k in packets && SatSub(latest, k) <= capacity :: packets[k]
  }

  ghost predicate IsMinKey(packets: Store, k: nat) {
    k in packets && forall j :: j in packets ==> k <= j
  }

  lemma {:induction false} MinKeyExists(packets: Store)
    requires packets != map[]
    ensures exists k :: IsMinKey(packets, k)
  {
    var k :| k in packets;
    var rest := packets - {k};
    if rest == map[] {
      assert packets.Keys == {k} + rest.Keys;
      assert IsMinKey(packets, k);
    } else {
      assert |rest| < |packets| by { RemoveSize(packets, k); }
      MinKeyExists(rest);
      var m :| IsMinKey(rest, m);
      assert forall j :: j in packets ==> j == k || j in rest;
      assert IsMinKey(packets, if k < m then k else m);
    }
  }

  lemma RemoveSize(packets: Store, k: nat)
    requires k in packets
    ensures |packets - {k}| == |packets| - 1
  {
    assert (packets - {k}).Keys == packets.Keys - {k};
  }

  /** `rest` is `all` without some packets at its front, all of them played. */
  ghost predicate PlayedFrontRemoved(all: Store, rest: Store, readFrame: nat) {
    && (forall k :: k in rest ==> k in all && rest[k] == all[k])
    && (forall j, k :: j in all && j !in rest && k in rest ==> j < k)
    && (forall k :: k in all && k !in rest ==> End(all, k) + 1 < readFrame)
  }

  lemma RemovePlayedFront(all: Store, rest: Store, readFrame: nat, oldest: nat)
    requires PlayedFrontRemoved(all, rest, readFrame)
    requires IsMinKey(rest, oldest) && End(rest, oldest) + 1 < readFrame
    ensures PlayedFrontRemoved(all, rest - {oldest}, readFrame)
  {
  }

  lemma RemovedIsPlayed(all: Store, rest: Store, readFrame: nat, k: nat)
    requires PlayedFrontRemoved(all, rest, readFrame) && k in all && k !in rest
    ensures Played(all, readFrame, k)
  {
    hide End;
    forall j | j in all && j <= k
      ensures End(all, j) + 1 < readFrame
    {
      assert j !in rest;
    }
  }

  lemma KeptIsNotPlayed(all: Store, rest: Store, readFrame: nat, oldest: nat, k: nat)
    requires PlayedFrontRemoved(all, rest, readFrame) && k in rest
    requires IsMinKey(rest, oldest) && End(rest, oldest) + 1 >= readFrame
    ensures !Played(all, readFrame, k)
  {
    assert oldest in all && oldest <= k && End(all, oldest) == End(rest, oldest);
  }

  lemma PlayedFrontDone(all: Store, rest: Store, readFrame: nat)
    requires PlayedFrontRemoved(all, rest, readFrame)
    requires forall k :: IsMinKey(rest, k) ==> End(rest, k) + 1 >= readFrame
    ensures rest == Prune(all, readFrame)
  {
    hide Played, IsMinKey, End;
    if rest != map[] {
      MinKeyExists(rest);
    }
    forall k | k in all
      ensures k in rest <==> !Played(all, readFrame, k)
    {
      if k in rest {
        var oldest :| IsMinKey(rest, oldest);
        KeptIsNotPlayed(all, rest, readFrame, oldest, k);
      } else {
        RemovedIsPlayed(all, rest, readFrame, k);
      }
    }
  }

  /** `rest` is `all` without some packets that start too far before `latest`. */
  ghost predicate StaleRemoved(all: Store, rest: Store, latest: nat, capacity: nat) {
    && (forall k :: k in rest ==> k in all && rest[k] == all[k])
    && (forall k :: k in all && k !in rest ==> SatSub(latest, k) > capacity)
  }

  lemma RemoveStale(all: Store, rest: Store, latest: nat, capacity: nat, k: nat)
    requires StaleRemoved(all, rest, latest, capacity)
    requires SatSub(latest, k) > capacity
    ensures StaleRemoved(all, rest - {k}, latest, capacity)
  {
  }

  lemma StaleDone(all: Store, rest: Store, latest: nat, capacity: nat)
    requires StaleRemoved(all, rest, latest, capacity)
    requires forall k :: IsMinKey(rest, k) ==> SatSub(latest, k) <= capacity
    ensures rest == Evict(all, latest, capacity)
  {
    if rest != map[] {
      MinKeyExists(rest);
    }
  }

  /**
    Pruning is invisible: for any packets, overlapping or not, no position from one frame before
    the read frame on is looked up differently afterwards.
   */
  lemma PruneInvisible(packets: Store, readFrame: nat, pos: nat)
    requires readFrame <= pos + 1
    ensures PacketAt(Prune(packets, readFrame), pos) == PacketAt(packets, pos)
  {
    var pruned := Prune(packets, readFrame);
    var f := FloorKey(packets, pos);
    FloorKeyIsGreatest(packets, pos);
    FloorKeyIsGreatest(pruned, pos);
    if f.Some? {
      if f.value in pruned {
        assert FloorKey(pruned, pos) == f;
      } else {
        assert Played(packets, readFrame, f.value);
        assert forall k :: k in packets && k <= pos ==> k <= f.value && k !in pruned;
        assert FloorKey(pruned, pos).None?;
      }
    }
  }

  lemma SubmapDisjoint(sub: Store, packets: Store)
    requires Disjoint(packets)
    requires forall k :: k in sub ==> k in packets && sub[k] == packets[k]
    ensures Disjoint(sub)
  {
    forall j, k | j in sub && k in sub && j < k ensures End(sub, j) <= k {
      assert End(packets, j) <= k;
    }
  }
}
