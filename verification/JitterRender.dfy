/**
  What the render loops produce. Both loops thread a packet cache and the counters of the pull;
  on disjoint packets both are the same direct rendering, one slot per read position.
 */
module JitterRender {
  import opened Wrappers
  import opened Numbers
  import opened Audio
  import opened PacketStore
  import opened JitterSpec

  /** The frame at a read position, straight from the store: interpolated, held or silent. */
  function SlotAt(packets: Store, channels: nat, readPos: real): Slot {
    var pos0: nat := Max(readPos.Floor, 0);
    Blend(SampleAt(packets, channels, pos0), SampleAt(packets, channels, pos0 + 1), readPos - pos0 as real)
  }

  /** `slotAt` reads one store, as a function of the read position. */
  ghost predicate ReadsStore(slotAt: real -> Slot, packets: Store, channels: nat) {
    forall r {:trigger SlotAt(packets, channels, r)} :: slotAt(r) == SlotAt(packets, channels, r)
  }

  function Slots(packets: Store, channels: nat): (slotAt: real -> Slot)
    ensures ReadsStore(slotAt, packets, channels)
  {
    r => SlotAt(packets, channels, r)
  }

  /** The reference rendering: one slot after the other, no cache, no integer path. */
  function RenderDirect(slotAt: real -> Slot, ratio: real, n: nat, u: Cursor): Cursor {
    if n == 0 then u
    else
      var v := RenderDirect(slotAt, ratio, n - 1, u);
      v.Emit(slotAt(v.readPos), ratio, None)
  }

  function WithoutCache(u: Cursor): Cursor {
    u.(cache := None)
  }

  // ----- the loops' arithmetic

  lemma {:induction false} IntegerAdvance(packets: Store, channels: nat, first: nat, n: nat, u: Cursor)
    requires ValidCache(packets, u.cache)
    ensures var v := RenderInteger(packets, channels, first, n, u);
      && v.readPos == u.readPos + Travel(1.0, n)
      && |v.slots| == |u.slots| + n
      && v.missingInCall >= u.missingInCall
      && (n > 0 && v.missingInCall == u.missingInCall ==> v.missing == 0)
  {
    if n > 0 {
      IntegerAdvance(packets, channels, first, n - 1, u);
    }
  }

  lemma {:induction false} InterpolatingAdvance(packets: Store, channels: nat, ratio: real, n: nat, u: Cursor)
    requires ValidCache(packets, u.cache)
    ensures var v := RenderInterpolating(packets, channels, ratio, n, u);
      && v.readPos == u.readPos + Travel(ratio, n)
      && |v.slots| == |u.slots| + n
      && v.missingInCall >= u.missingInCall
      && (n > 0 && v.missingInCall == u.missingInCall ==> v.missing == 0)
  {
    if n > 0 {
      InterpolatingAdvance(packets, channels, ratio, n - 1, u);
    }
  }

  /** Where a rendering starts: the read position, snapped to a whole frame on the integer path. */
  function RenderStart(readPos: real, ratio: real): real {
    if UseIntegerPath(readPos, ratio) then Max(Round(readPos), 0) as real else readPos
  }

  function RenderStride(readPos: real, ratio: real): real {
    if UseIntegerPath(readPos, ratio) then 1.0 else ratio
  }

  /** The read position of the `k`-th frame of a rendering. */
  function ReadPosition(readPos: real, ratio: real, k: nat): real {
    RenderStart(readPos, ratio) + Travel(RenderStride(readPos, ratio), k)
  }

  lemma RenderAdvance(s: State, channels: nat, ratio: real, n: nat)
    ensures var u := Render(s, channels, ratio, n);
      && |u.slots| == n
      && u.readPos == ReadPosition(s.readPos, ratio, n)
      && (n > 0 && u.missingInCall == 0 ==> u.missing == 0)
  {
    var start := Cursor([], s.readPos, 0, s.missing, None);
    var first: nat := Max(Round(s.readPos), 0);
    IntegerAdvance(s.packets, channels, first, n, start.(readPos := first as real));
    InterpolatingAdvance(s.packets, channels, ratio, n, start);
  }

  // ----- fast forms refine the direct one

  lemma SampledIsDirect(packets: Store, channels: nat, pos: nat, cache: Option<nat>)
    requires Disjoint(packets) && ValidCache(packets, cache)
    ensures Sampled(packets, channels, pos, cache).0 == SampleAt(packets, channels, pos)
  {
    CacheTransparentIffDisjoint(packets);
  }

  lemma InterpolatedIsDirect(packets: Store, channels: nat, readPos: real, cache: Option<nat>)
    requires Disjoint(packets) && ValidCache(packets, cache)
    ensures Interpolated(packets, channels, readPos, cache).0 == SlotAt(packets, channels, readPos)
  {
    var pos0: nat := Max(readPos.Floor, 0);
    SampledIsDirect(packets, channels, pos0, cache);
    SampledIsDirect(packets, channels, pos0 + 1, Sampled(packets, channels, pos0, cache).1);
  }

  lemma SlotAtWhole(packets: Store, channels: nat, pos: nat)
    ensures SlotAt(packets, channels, pos as real) == SampleAt(packets, channels, pos)
  {
    var a, b := SampleAt(packets, channels, pos), SampleAt(packets, channels, pos + 1);
    if a.Some? && b.Some? {
      LerpEndpoints(a.value, b.value);
    }
  }

  /** Cached interpolation is direct rendering. */
  lemma {:induction false} InterpolatingIsDirect(packets: Store, channels: nat, slotAt: real -> Slot, ratio: real,
                                                 n: nat, u: Cursor)
    requires Disjoint(packets) && ValidCache(packets, u.cache)
    requires ReadsStore(slotAt, packets, channels)
    ensures WithoutCache(RenderInterpolating(packets, channels, ratio, n, u))
         == RenderDirect(slotAt, ratio, n, WithoutCache(u))
  {
    if n > 0 {
      InterpolatingIsDirect(packets, channels, slotAt, ratio, n - 1, u);
      var v := RenderInterpolating(packets, channels, ratio, n - 1, u);
      InterpolatedIsDirect(packets, channels, v.readPos, v.cache);
    }
  }

  lemma IntegerStepIsDirect(packets: Store, channels: nat, first: nat, v: Cursor)
    requires Disjoint(packets) && ValidCache(packets, v.cache)
    ensures WithoutCache(IntegerStep(packets, channels, first, v))
         == WithoutCache(v).Emit(SampleAt(packets, channels, first + |v.slots|), 1.0, None)
  {
    SampledIsDirect(packets, channels, first + |v.slots|, v.cache);
  }

  /** The integer path is direct rendering at ratio one. */
  lemma {:induction false} IntegerIsDirect(packets: Store, channels: nat, slotAt: real -> Slot, first: nat, n: nat,
                                           u: Cursor)
    requires Disjoint(packets) && ValidCache(packets, u.cache)
    requires ReadsWhole(slotAt, packets, channels)
    requires u.slots == [] && u.readPos == first as real
    ensures WithoutCache(RenderInteger(packets, channels, first, n, u))
         == RenderDirect(slotAt, 1.0, n, WithoutCache(u))
  {
    hide SampleAt, IntegerStep, Disjoint;
    if n > 0 {
      IntegerIsDirect(packets, channels, slotAt, first, n - 1, u);
      var v := RenderInteger(packets, channels, first, n - 1, u);
      var pos := first + |v.slots|;
      assert v.readPos == pos as real by {
        IntegerAdvance(packets, channels, first, n - 1, u);
        TravelByOne(n - 1);
      }
      IntegerStepIsDirect(packets, channels, first, v);
      assert slotAt(v.readPos) == SampleAt(packets, channels, pos);
    }
  }

  ghost predicate ReadsWhole(slotAt: real -> Slot, packets: Store, channels: nat) {
    forall pos: nat {:trigger SampleAt(packets, channels, pos)} ::
      slotAt(pos as real) == SampleAt(packets, channels, pos)
  }

  lemma ReadsStoreReadsWhole(slotAt: real -> Slot, packets: Store, channels: nat)
    requires ReadsStore(slotAt, packets, channels)
    ensures ReadsWhole(slotAt, packets, channels)
  {
    forall pos: nat
      ensures slotAt(pos as real) == SampleAt(packets, channels, pos)
    {
      SlotAtWhole(packets, channels, pos);
    }
  }

  /** The cached packet starts at or before a position. */
  predicate StartsBy(cache: Option<nat>, pos: nat) {
    cache.Some? ==> cache.value <= pos
  }

  /** Both caches find the same packet at a position, and neither starts beyond it. */
  predicate FindSame(packets: Store, pos: nat, a: Option<nat>, b: Option<nat>)
    requires ValidCache(packets, a) && ValidCache(packets, b)
  {
    && StartsBy(a, pos) && StartsBy(b, pos)
    && PacketAtCached(packets, pos, a) == PacketAtCached(packets, pos, b)
  }

  /**
    Caches that find the same packet at a position still do at the next one, although the second
    has by then been used for the next position already.
   */
  lemma LookingAheadFindsSame(packets: Store, pos: nat, a: Option<nat>, b: Option<nat>)
    requires ValidCache(packets, a) && ValidCache(packets, b) && FindSame(packets, pos, a, b)
    ensures FindSame(packets, pos + 1, NextCache(packets, pos, a),
                     NextCache(packets, pos + 1, NextCache(packets, pos, b)))
  {
  }

  /** At a whole position interpolating is looking up, whatever the next position holds. */
  lemma InterpolatedAtWhole(packets: Store, channels: nat, pos: nat, cache: Option<nat>)
    requires ValidCache(packets, cache)
    ensures Interpolated(packets, channels, pos as real, cache).0 == Sampled(packets, channels, pos, cache).0
    ensures Interpolated(packets, channels, pos as real, cache).1
         == NextCache(packets, pos + 1, NextCache(packets, pos, cache))
  {
    hide PacketAtCached, NextCache, SampleIn;
    var (a, cache1) := Sampled(packets, channels, pos, cache);
    var b := Sampled(packets, channels, pos + 1, cache1).0;
    if a.Some? && b.Some? {
      LerpEndpoints(a.value, b.value);
    }
  }

  /** One step of either path, from cursors that differ in their caches only. */
  lemma StepsAgree(packets: Store, channels: nat, first: nat, v: Cursor, w: Cursor)
    requires ValidCache(packets, v.cache) && ValidCache(packets, w.cache)
    requires WithoutCache(v) == WithoutCache(w) && v.readPos == (first + |v.slots|) as real
    requires FindSame(packets, first + |v.slots|, v.cache, w.cache)
    ensures var (v', w') := (IntegerStep(packets, channels, first, v), InterpolatingStep(packets, channels, 1.0, w));
      && WithoutCache(v') == WithoutCache(w')
      && FindSame(packets, first + |v.slots| + 1, v'.cache, w'.cache)
  {
    hide PacketAtCached, NextCache, SampleIn, FindSame, Interpolated;
    var pos := first + |v.slots|;
    InterpolatedAtWhole(packets, channels, pos, w.cache);
    LookingAheadFindsSame(packets, pos, v.cache, w.cache);
    SameSample(packets, channels, pos, v.cache, w.cache);
  }

  lemma SameSample(packets: Store, channels: nat, pos: nat, a: Option<nat>, b: Option<nat>)
    requires ValidCache(packets, a) && ValidCache(packets, b) && FindSame(packets, pos, a, b)
    ensures Sampled(packets, channels, pos, a).0 == Sampled(packets, channels, pos, b).0
  {
    hide SampleIn;
  }

  lemma {:induction false} PathsAgree(packets: Store, channels: nat, first: nat, n: nat, u: Cursor)
    requires u.slots == [] && u.cache == None && u.readPos == first as real
    ensures var (v, w) := (RenderInteger(packets, channels, first, n, u),
                           RenderInterpolating(packets, channels, 1.0, n, u));
      WithoutCache(v) == WithoutCache(w) && FindSame(packets, first + n, v.cache, w.cache)
  {
    hide IntegerStep, InterpolatingStep, FindSame;
    if n == 0 {
      NoCacheFindsSame(packets, first);
    } else {
      PathsAgree(packets, channels, first, n - 1, u);
      var v := RenderInteger(packets, channels, first, n - 1, u);
      var w := RenderInterpolating(packets, channels, 1.0, n - 1, u);
      IntegerAdvance(packets, channels, first, n - 1, u);
      TravelByOne(n - 1);
      StepsAgree(packets, channels, first, v, w);
    }
  }

  lemma NoCacheFindsSame(packets: Store, pos: nat)
    ensures FindSame(packets, pos, None, None)
  {
  }

  /**
    At ratio one and a whole read position the integer path and the interpolating path agree on
    every slot, both missing counts and the final read position, for any packets: on overlapping
    ones too their caches always find the same packet.
   */
  lemma IntegerPathRefinesInterpolation(packets: Store, channels: nat, first: nat, n: nat, missing: nat)
    ensures var u := Cursor([], first as real, 0, missing, None);
      WithoutCache(RenderInteger(packets, channels, first, n, u))
      == WithoutCache(RenderInterpolating(packets, channels, 1.0, n, u))
  {
    PathsAgree(packets, channels, first, n, Cursor([], first as real, 0, missing, None));
  }

  lemma {:induction false} DirectSlot(slotAt: real -> Slot, ratio: real, n: nat, u: Cursor, k: nat)
    requires k < n && u.slots == []
    ensures var v := RenderDirect(slotAt, ratio, n, u);
      && |v.slots| == n
      && v.readPos == u.readPos + Travel(ratio, n)
      && v.slots[k] == slotAt(u.readPos + Travel(ratio, k))
  {
    if n > 1 {
      DirectSlot(slotAt, ratio, n - 1, u, if k < n - 1 then k else 0);
    }
    assert RenderDirect(slotAt, ratio, 0, u) == u;
  }

  /** A whole rendering is the direct one from its start at its stride. */
  lemma RenderIsDirect(s: State, channels: nat, slotAt: real -> Slot, ratio: real, n: nat)
    requires Disjoint(s.packets) && ReadsStore(slotAt, s.packets, channels)
    ensures WithoutCache(Render(s, channels, ratio, n))
         == RenderDirect(slotAt, RenderStride(s.readPos, ratio), n,
                         Cursor([], RenderStart(s.readPos, ratio), 0, s.missing, None))
  {
    var u := Cursor([], RenderStart(s.readPos, ratio), 0, s.missing, None);
    if UseIntegerPath(s.readPos, ratio) {
      ReadsStoreReadsWhole(slotAt, s.packets, channels);
      IntegerIsDirect(s.packets, channels, slotAt, Max(Round(s.readPos), 0), n, u);
    } else {
      InterpolatingIsDirect(s.packets, channels, slotAt, ratio, n, u);
    }
  }

  /** Closed form of a rendering: slot `k` is the frame at the `k`-th read position. */
  lemma RenderClosedForm(s: State, channels: nat, slotAt: real -> Slot, ratio: real, n: nat)
    requires Disjoint(s.packets) && ReadsStore(slotAt, s.packets, channels)
    ensures var u := Render(s, channels, ratio, n);
      |u.slots| == n && forall k :: 0 <= k < n ==> u.slots[k] == slotAt(ReadPosition(s.readPos, ratio, k))
  {
    var u := Render(s, channels, ratio, n);
    var start := Cursor([], RenderStart(s.readPos, ratio), 0, s.missing, None);
    var v := RenderDirect(slotAt, RenderStride(s.readPos, ratio), n, start);
    assert u.slots == v.slots by {
      RenderIsDirect(s, channels, slotAt, ratio, n);
    }
    RenderAdvance(s, channels, ratio, n);
    forall k | 0 <= k < n
      ensures |v.slots| == n && v.slots[k] == slotAt(ReadPosition(s.readPos, ratio, k))
    {
      DirectSlot(slotAt, RenderStride(s.readPos, ratio), n, start, k);
    }
  }

  // ----- gaps

  ghost predicate NoSilence(slots: seq<Slot>, from: nat) {
    forall k :: from <= k < |slots| ==> slots[k].Some?
  }

  lemma NoSilenceNext(slots: seq<Slot>, slot: Slot, from: nat)
    requires from <= |slots|
    ensures NoSilence(slots + [slot], from) <==> NoSilence(slots, from) && slot.Some?
  {
    assert forall k :: 0 <= k < |slots| ==> (slots + [slot])[k] == slots[k];
    assert (slots + [slot])[|slots|] == slot;
  }

  /** A loop counts no gap exactly when it emits no silence. */
  lemma {:induction false} IntegerGaps(packets: Store, channels: nat, first: nat, n: nat, u: Cursor)
    requires ValidCache(packets, u.cache)
    ensures var v := RenderInteger(packets, channels, first, n, u);
      (v.missingInCall == u.missingInCall <==> NoSilence(v.slots, |u.slots|))
    ensures |u.slots| <= |RenderInteger(packets, channels, first, n, u).slots|
    ensures RenderInteger(packets, channels, first, n, u).missingInCall >= u.missingInCall
  {
    if n > 0 {
      IntegerGaps(packets, channels, first, n - 1, u);
      var w := RenderInteger(packets, channels, first, n - 1, u);
      NoSilenceNext(w.slots, Sampled(packets, channels, first + |w.slots|, w.cache).0, |u.slots|);
    }
  }

  lemma {:induction false} InterpolatingGaps(packets: Store, channels: nat, ratio: real, n: nat, u: Cursor)
    requires ValidCache(packets, u.cache)
    ensures var v := RenderInterpolating(packets, channels, ratio, n, u);
      (v.missingInCall == u.missingInCall <==> NoSilence(v.slots, |u.slots|))
    ensures |u.slots| <= |RenderInterpolating(packets, channels, ratio, n, u).slots|
    ensures RenderInterpolating(packets, channels, ratio, n, u).missingInCall >= u.missingInCall
  {
    if n > 0 {
      InterpolatingGaps(packets, channels, ratio, n - 1, u);
      var w := RenderInterpolating(packets, channels, ratio, n - 1, u);
      NoSilenceNext(w.slots, Interpolated(packets, channels, w.readPos, w.cache).0, |u.slots|);
    }
  }

  lemma RenderGaps(s: State, channels: nat, ratio: real, n: nat)
    ensures var u := Render(s, channels, ratio, n);
      u.missingInCall == 0 <==> NoSilence(u.slots, 0)
  {
    var start := Cursor([], s.readPos, 0, s.missing, None);
    var first: nat := Max(Round(s.readPos), 0);
    IntegerGaps(s.packets, channels, first, n, start.(readPos := first as real));
    InterpolatingGaps(s.packets, channels, ratio, n, start);
  }
}
