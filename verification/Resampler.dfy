/**
  Linear resampling, all at once and chunk by chunk (`common/src/resampler.rs`), over exact reals.
  The streaming resampler carries a buffer and a fractional phase from one push to the next.
 */
module Resampler {
  import opened Numbers
  import opened Audio

  /** `f64::EPSILON`. */
  const EPSILON: real := 1.0 / 4503599627370496.0

  // ----- what a buffer yields

  /** A position that has a right neighbour in a buffer of this length. */
  predicate Inside(length: nat, position: real) {
    0.0 <= position && position + 1.0 < length as real
  }

  /** The frame at a position; it is asked for inside positions only. */
  function Interpolate(buffer: seq<StereoFrame>, position: real): StereoFrame {
    if Inside(|buffer|, position) then
      var i0 := position.Floor;
      Lerp(buffer[i0], buffer[i0 + 1], position - i0 as real)
    else SILENCE
  }

  function Ceil(x: real): int {
    -(-x).Floor
  }

  /** How many steps from `start` stay inside. */
  function Count(length: nat, start: real, ratio: real): nat
    requires ratio > 0.0
  {
    if start + 1.0 >= length as real then 0
    else
      QuotientPositive(length as real - 1.0 - start, ratio);
      Ceil((length as real - 1.0 - start) / ratio)
  }

  lemma QuotientPositive(x: real, ratio: real)
    requires x > 0.0 && ratio > 0.0
    ensures x / ratio > 0.0
  {
  }

  lemma BelowQuotient(k: real, x: real, ratio: real)
    requires ratio > 0.0
    ensures k * ratio < x <==> k < x / ratio
  {
    var quotient := x / ratio;
    assert quotient * ratio == x;
    if k < quotient {
      MulStrict(k, quotient, ratio);
    } else {
      MulMonotone(quotient, k, ratio);
    }
  }

  /** Exactly the steps before the count are inside. */
  lemma CountIsExact(length: nat, start: real, ratio: real, k: nat)
    requires ratio > 0.0 && start >= 0.0
    ensures k < Count(length, start, ratio) <==> Inside(length, start + Travel(ratio, k))
  {
    TravelMonotone(ratio, ratio, 0, k);
    TravelIsProduct(ratio, k);
    if start + 1.0 < length as real {
      BelowQuotient(k as real, length as real - 1.0 - start, ratio);
    }
  }

  /** The first `n` frames from a start position. */
  function FirstFrames(buffer: seq<StereoFrame>, start: real, ratio: real, n: nat): (output: seq<StereoFrame>)
    ensures |output| == n
  {
    if n == 0 then []
    else FirstFrames(buffer, start, ratio, n - 1) + [Interpolate(buffer, start + Travel(ratio, n - 1))]
  }

  lemma {:induction false} FirstFramesAt(buffer: seq<StereoFrame>, start: real, ratio: real, n: nat, k: nat)
    requires k < n
    ensures FirstFrames(buffer, start, ratio, n)[k] == Interpolate(buffer, start + Travel(ratio, k))
  {
    hide Interpolate;
    if k < n - 1 {
      FirstFramesAt(buffer, start, ratio, n - 1, k);
    }
  }

  /** The frames a buffer yields from a start position: all that are inside. */
  function Yield(buffer: seq<StereoFrame>, start: real, ratio: real): (output: seq<StereoFrame>)
    requires ratio > 0.0
    ensures |output| == Count(|buffer|, start, ratio)
  {
    FirstFrames(buffer, start, ratio, Count(|buffer|, start, ratio))
  }

  lemma YieldAt(buffer: seq<StereoFrame>, start: real, ratio: real, k: nat)
    requires ratio > 0.0 && start >= 0.0 && k < Count(|buffer|, start, ratio)
    ensures Inside(|buffer|, start + Travel(ratio, k))
    ensures Yield(buffer, start, ratio)[k] == Interpolate(buffer, start + Travel(ratio, k))
  {
    hide Interpolate;
    CountIsExact(|buffer|, start, ratio, k);
    FirstFramesAt(buffer, start, ratio, Count(|buffer|, start, ratio), k);
  }

  // ----- all at once

  function Ratio(sourceRate: u32, targetRate: u32): real
    requires targetRate > 0
  {
    sourceRate as real / targetRate as real
  }

  lemma RatioPositive(sourceRate: u32, targetRate: u32)
    requires sourceRate > 0 && targetRate > 0
    ensures Ratio(sourceRate, targetRate) > 0.0
  {
    QuotientPositive(sourceRate as real, targetRate as real);
  }

  /** What `resample_linear` returns. */
  function Batch(input: seq<StereoFrame>, sourceRate: u32, targetRate: u32): seq<StereoFrame> {
    if input == [] || sourceRate == 0 || targetRate == 0 then []
    else if sourceRate == targetRate then input
    else if |input| == 1 then input
    else
      RatioPositive(sourceRate, targetRate);
      Yield(input, 0.0, Ratio(sourceRate, targetRate))
  }

  /** The output length the source reserves is never what stops its loop. */
  lemma ReservedLengthSuffices(length: nat, ratio: real)
    requires ratio > 0.0
    ensures Count(length, 0.0, ratio) <= Ceil(length as real / ratio)
  {
    var k := Count(length, 0.0, ratio);
    if k > 0 {
      CountIsExact(length, 0.0, ratio, k - 1);
      TravelIsProduct(ratio, k - 1);
      BelowQuotient((k - 1) as real, length as real, ratio);
    } else {
      NotNegative(length, ratio);
    }
  }

  lemma NotNegative(length: nat, ratio: real)
    requires ratio > 0.0
    ensures Ceil(length as real / ratio) >= 0
  {
  }

  method ResampleLinear(input: seq<StereoFrame>, sourceRate: u32, targetRate: u32)
    returns (output: seq<StereoFrame>)
    ensures output == Batch(input, sourceRate, targetRate)
  {
    hide Lerp, Count;
    if input == [] || sourceRate == 0 || targetRate == 0 {
      return [];
    }
    if sourceRate == targetRate {
      return input;
    }
    if |input| == 1 {
      return [input[0]];
    }
    var ratio := Ratio(sourceRate, targetRate);
    RatioPositive(sourceRate, targetRate);
    var outputLength := Ceil(|input| as real / ratio);
    ReservedLengthSuffices(|input|, ratio);
    output := [];
    var pos := 0.0;
    while |output| < outputLength
      invariant pos == Travel(ratio, |output|)
      invariant |output| <= Count(|input|, 0.0, ratio)
      invariant output == FirstFrames(input, 0.0, ratio, |output|)
      decreases outputLength - |output|
    {
      CountIsExact(|input|, 0.0, ratio, |output|);
      TravelMonotone(ratio, ratio, 0, |output|);
      var i0 := pos.Floor;
      if i0 + 1 >= |input| {
        break;
      }
      var frac := pos - i0 as real;
      output := output + [Lerp(input[i0], input[i0 + 1], frac)];
      pos := pos + ratio;
    }
    CountIsExact(|input|, 0.0, ratio, |output|);
  }

  // ----- chunk by chunk

  datatype Stream = Stream(ratio: real, readPos: real, buffer: seq<StereoFrame>)

  /** A finished push, or the panic of draining past the end of the buffer. */
  datatype Pushed = Pushed(stream: Stream, output: seq<StereoFrame>) | Panicked

  predicate PassesThrough(s: Stream) {
    Abs(s.ratio - 1.0) < EPSILON && s.buffer == []
  }

  function Push(s: Stream, input: seq<StereoFrame>): Pushed
    requires s.ratio > 0.0 && s.readPos >= 0.0
  {
    if PassesThrough(s) then Pushed(s, input)
    else
      var buffer := s.buffer + input;
      var output := Yield(buffer, s.readPos, s.ratio);
      var readPos := s.readPos + Travel(s.ratio, |output|);
      TravelMonotone(s.ratio, s.ratio, 0, |output|);
      var drop: nat := readPos.Floor;
      if drop > |buffer| then Panicked
      else Pushed(Stream(s.ratio, readPos - drop as real, buffer[drop..]), output)
  }

  /** The push loop: interpolates while the position has a right neighbour in the buffer. */
  method Produce(buffer: seq<StereoFrame>, start: real, ratio: real)
    returns (output: seq<StereoFrame>, readPos: real)
    requires ratio > 0.0 && start >= 0.0
    ensures output == Yield(buffer, start, ratio)
    ensures readPos == start + Travel(ratio, |output|)
  {
    hide Lerp, Count;
    output, readPos := [], start;
    while readPos + 1.0 < |buffer| as real
      invariant readPos == start + Travel(ratio, |output|)
      invariant |output| <= Count(|buffer|, start, ratio)
      invariant output == FirstFrames(buffer, start, ratio, |output|)
      decreases Count(|buffer|, start, ratio) - |output|
    {
      CountIsExact(|buffer|, start, ratio, |output|);
      TravelMonotone(ratio, ratio, 0, |output|);
      var i0 := readPos.Floor;
      var frac := readPos - i0 as real;
      output := output + [Lerp(buffer[i0], buffer[i0 + 1], frac)];
      readPos := readPos + ratio;
    }
    CountIsExact(|buffer|, start, ratio, |output|);
    TravelMonotone(ratio, ratio, 0, |output|);
  }

  class StreamingLinearResampler {
    var ratio: real
    var readPos: real
    var buffer: seq<StereoFrame>

    function View(): Stream
      reads this
    {
      Stream(ratio, readPos, buffer)
    }

    constructor (sourceRate: u32, targetRate: u32)
      requires sourceRate > 0 && targetRate > 0
      ensures View() == Stream(Ratio(sourceRate, targetRate), 0.0, [])
    {
      ratio := Ratio(sourceRate, targetRate);
      readPos := 0.0;
      buffer := [];
    }

    /** A ratio that is not positive is ignored. */
    method SetRatio(newRatio: real)
      modifies this`ratio
      ensures View() == old(View()).(ratio := if newRatio > 0.0 then newRatio else old(ratio))
    {
      if newRatio > 0.0 {
        ratio := newRatio;
      }
    }

    method SetEffectiveTargetRate(sourceRate: u32, targetRate: real)
      modifies this`ratio
      ensures View() == old(View()).(ratio :=
        if sourceRate > 0 && targetRate > 0.0 then sourceRate as real / targetRate else old(ratio))
    {
      if sourceRate > 0 && targetRate > 0.0 {
        EffectiveRatioPositive(sourceRate as real, targetRate);
        SetRatio(sourceRate as real / targetRate);
      }
    }

    static lemma EffectiveRatioPositive(sourceRate: real, targetRate: real)
      requires sourceRate > 0.0 && targetRate > 0.0
      ensures sourceRate / targetRate > 0.0
    {
    }

    /** `ok` is false where the source panics; the object is then left as the panic finds it. */
    method PushChunk(input: seq<StereoFrame>) returns (output: seq<StereoFrame>, ok: bool)
      requires ratio > 0.0 && readPos >= 0.0
      modifies this`readPos, this`buffer
      ensures ok <==> Push(old(View()), input).Pushed?
      ensures ok ==> Push(old(View()), input) == Pushed(View(), output)
    {
      hide Yield, Count;
      if Abs(ratio - 1.0) < EPSILON && buffer == [] {
        return input, true;
      }
      buffer := buffer + input;
      output, readPos := Produce(buffer, readPos, ratio);
      TravelMonotone(ratio, ratio, 0, |output|);
      var drop := readPos.Floor;
      if drop > 0 {
        if drop > |buffer| {
          return output, false;
        }
        buffer := buffer[drop..];
        readPos := readPos - drop as real;
      }
      ok := true;
    }
  }

  // ----- streaming equals batch

  function Flatten(chunks: seq<seq<StereoFrame>>): seq<StereoFrame> {
    if chunks == [] then [] else Flatten(chunks[..|chunks| - 1]) + chunks[|chunks| - 1]
  }

  /** Pushes chunk after chunk into a fresh resampler and collects the output. */
  function PushAll(ratio: real, chunks: seq<seq<StereoFrame>>): (r: Pushed)
    requires ratio > 0.0
    ensures r.Pushed? ==> r.stream.ratio == ratio && r.stream.readPos >= 0.0
  {
    if chunks == [] then Pushed(Stream(ratio, 0.0, []), [])
    else
      match PushAll(ratio, chunks[..|chunks| - 1])
      case Panicked => Panicked
      case Pushed(s, output) =>
        match Push(s, chunks[|chunks| - 1])
        case Panicked => Panicked
        case Pushed(t, more) => Pushed(t, output + more)
  }

  /** The carried state after some input: what is still needed of it, and the phase of the next frame. */
  ghost predicate Carries(s: Stream, input: seq<StereoFrame>) {
    && s.ratio > 0.0
    && 0.0 <= s.readPos < 1.0
    && var next := Travel(s.ratio, Count(|input|, 0.0, s.ratio));
    && 0 <= next.Floor <= |input|
    && s.buffer == input[next.Floor..]
    && s.readPos == next - next.Floor as real
  }

  /** Up to a ratio of two the next frame starts within the input, so the drain stays in range. */
  lemma NextWithinInput(length: nat, ratio: real)
    requires 0.0 < ratio <= 2.0
    ensures 0 <= Travel(ratio, Count(length, 0.0, ratio)).Floor <= length
  {
    var k := Count(length, 0.0, ratio);
    TravelMonotone(ratio, ratio, 0, k);
    if k > 0 {
      CountIsExact(length, 0.0, ratio, k - 1);
    }
  }

  /** Shifting the input by whole frames shifts what it yields. */
  lemma CountShifts(length: nat, base: nat, done: nat, start: real, ratio: real)
    requires ratio > 0.0 && base <= length && start >= 0.0
    requires start + base as real == Travel(ratio, done)
    requires done > 0 ==> done - 1 < Count(length, 0.0, ratio)
    ensures done + Count(length - base, start, ratio) == Count(length, 0.0, ratio)
  {
    var tail, all := Count(length - base, start, ratio), Count(length, 0.0, ratio);
    TravelSum(ratio, done, tail);
    CountIsExact(length - base, start, ratio, tail);
    CountIsExact(length, 0.0, ratio, done + tail);
    TravelMonotone(ratio, ratio, 0, done + tail);
    TravelMonotone(ratio, ratio, 0, tail);
    if tail > 0 {
      TravelSum(ratio, done, tail - 1);
      CountIsExact(length - base, start, ratio, tail - 1);
      CountIsExact(length, 0.0, ratio, done + tail - 1);
      TravelMonotone(ratio, ratio, 0, done + tail - 1);
    }
  }

  lemma InterpolateShifts(input: seq<StereoFrame>, base: nat, position: real)
    requires base <= |input| && Inside(|input| - base, position)
    ensures Inside(|input|, position + base as real)
    ensures Interpolate(input[base..], position) == Interpolate(input, position + base as real)
  {
    FloorPlusInt(position, base);
  }

  /** What a push yields from the carried state is what the longer input adds. */
  lemma CarriedYields(s: Stream, input: seq<StereoFrame>, chunk: seq<StereoFrame>)
    requires Carries(s, input)
    ensures var (all, done) := (input + chunk, Count(|input|, 0.0, s.ratio));
      var (base, added) := (Position(s, done), Count(|s.buffer + chunk|, s.readPos, s.ratio));
      && base <= |input| && s.buffer + chunk == all[base..] && s.readPos + base as real == Travel(s.ratio, done)
      && done + added == Count(|all|, 0.0, s.ratio)
      && Yield(input, 0.0, s.ratio) + Yield(s.buffer + chunk, s.readPos, s.ratio) == Yield(all, 0.0, s.ratio)
  {
    hide Count, Yield;
    var ratio, all := s.ratio, input + chunk;
    var done := Count(|input|, 0.0, ratio);
    var base: nat := Travel(ratio, done).Floor;
    assert s.buffer + chunk == all[base..];
    CountGrows(|input|, |all|, ratio);
    CountShifts(|all|, base, done, s.readPos, ratio);
    YieldExtends(input, all, ratio);
    YieldShifts(all, base, done, s.readPos, ratio);
  }

  /** Where in the input the buffer begins after some frames. */
  function Position(s: Stream, done: nat): nat {
    Max(Travel(s.ratio, done).Floor, 0)
  }

  /**
    One push carries on where the input so far left off: at any ratio, if it does not panic, it
    yields exactly the frames the longer input adds, and up to two it never panics.
   */
  lemma PushCarriesOn(s: Stream, input: seq<StereoFrame>, chunk: seq<StereoFrame>)
    requires Carries(s, input) && (s.buffer != [] || Abs(s.ratio - 1.0) >= EPSILON)
    ensures var r := Push(s, chunk);
      && (s.ratio <= 2.0 ==> r.Pushed?)
      && (r.Pushed? ==>
            && r.stream.ratio == s.ratio && Carries(r.stream, input + chunk)
            && Yield(input, 0.0, s.ratio) + r.output == Yield(input + chunk, 0.0, s.ratio))
  {
    hide Count, Yield, Travel, Carries;
    CarriedPhase(s, input);
    var ratio, all, buffer := s.ratio, input + chunk, s.buffer + chunk;
    var done, added := Count(|input|, 0.0, ratio), Count(|buffer|, s.readPos, ratio);
    var base := Position(s, done);
    CarriedYields(s, input, chunk);
    if ratio <= 2.0 {
      NextWithinInput(|all|, ratio);
    }
    PhaseCarries(ratio, s.readPos, base, done, added);
    var local := s.readPos + Travel(ratio, added);
    if local.Floor <= |buffer| {
      CarriesOn(ratio, all, buffer, base, local);
    }
  }

  lemma CarriedPhase(s: Stream, input: seq<StereoFrame>)
    requires Carries(s, input)
    ensures s.ratio > 0.0 && 0.0 <= s.readPos < 1.0
  {
  }

  /** What is left of a buffer carries the input it ends. */
  lemma CarriesOn(ratio: real, all: seq<StereoFrame>, buffer: seq<StereoFrame>, base: nat, local: real)
    requires ratio > 0.0 && base <= |all| && buffer == all[base..] && 0.0 <= local && local.Floor <= |buffer|
    requires var next := Travel(ratio, Count(|all|, 0.0, ratio));
      next.Floor == base + local.Floor && next - next.Floor as real == local - local.Floor as real
    ensures Carries(Stream(ratio, local - local.Floor as real, buffer[local.Floor..]), all)
  {
    hide Count, Travel;
    assert all[base..][local.Floor..] == all[base + local.Floor..];
  }

  /** The next position, counted from the start of the input and from the start of the buffer. */
  lemma PhaseCarries(ratio: real, readPos: real, base: nat, done: nat, added: nat)
    requires ratio > 0.0 && readPos >= 0.0 && readPos + base as real == Travel(ratio, done)
    ensures var next, local := Travel(ratio, done + added), readPos + Travel(ratio, added);
      && local >= 0.0 && next.Floor == base + local.Floor
      && next - next.Floor as real == local - local.Floor as real
  {
    TravelSum(ratio, done, added);
    TravelMonotone(ratio, ratio, 0, added);
    FloorPlusInt(readPos + Travel(ratio, added), base);
  }

  lemma CountGrows(n: nat, m: nat, ratio: real)
    requires ratio > 0.0 && n <= m
    ensures Count(n, 0.0, ratio) <= Count(m, 0.0, ratio)
  {
    var k := Count(n, 0.0, ratio);
    if k > 0 {
      CountIsExact(n, 0.0, ratio, k - 1);
      CountIsExact(m, 0.0, ratio, k - 1);
    }
  }

  /** More input changes no frame already yielded. */
  lemma YieldExtends(input: seq<StereoFrame>, all: seq<StereoFrame>, ratio: real)
    requires ratio > 0.0 && input <= all
    ensures Yield(input, 0.0, ratio) <= Yield(all, 0.0, ratio)
  {
    CountGrows(|input|, |all|, ratio);
    forall k | 0 <= k < Count(|input|, 0.0, ratio)
      ensures Yield(input, 0.0, ratio)[k] == Yield(all, 0.0, ratio)[k]
    {
      YieldAt(input, 0.0, ratio, k);
      YieldAt(all, 0.0, ratio, k);
    }
  }

  /** The frames yielded from a shifted start are the later frames of the whole. */
  lemma YieldShifts(all: seq<StereoFrame>, base: nat, done: nat, start: real, ratio: real)
    requires ratio > 0.0 && base <= |all| && start >= 0.0
    requires start + base as real == Travel(ratio, done)
    requires done > 0 ==> done - 1 < Count(|all|, 0.0, ratio)
    ensures done <= Count(|all|, 0.0, ratio)
    ensures Yield(all[base..], start, ratio) == Yield(all, 0.0, ratio)[done..]
  {
    CountShifts(|all|, base, done, start, ratio);
    var tail := all[base..];
    forall k | 0 <= k < Count(|tail|, start, ratio)
      ensures Yield(tail, start, ratio)[k] == Yield(all, 0.0, ratio)[done + k]
    {
      YieldShiftsAt(all, base, done, start, ratio, k);
    }
  }

  lemma YieldShiftsAt(all: seq<StereoFrame>, base: nat, done: nat, start: real, ratio: real, k: nat)
    requires ratio > 0.0 && base <= |all| && start >= 0.0
    requires start + base as real == Travel(ratio, done)
    requires k < Count(|all| - base, start, ratio) && done + k < Count(|all|, 0.0, ratio)
    ensures Yield(all[base..], start, ratio)[k] == Yield(all, 0.0, ratio)[done + k]
  {
    hide Count, Yield, Interpolate;
    YieldAt(all[base..], start, ratio, k);
    YieldAt(all, 0.0, ratio, done + k);
    TravelSum(ratio, done, k);
    InterpolateShifts(all, base, start + Travel(ratio, k));
  }

  /** Frame by frame, whatever the chunks: the collected output is what the whole input yields. */
  lemma {:induction false} PushAllYields(ratio: real, chunks: seq<seq<StereoFrame>>)
    requires ratio > 0.0 && Abs(ratio - 1.0) >= EPSILON
    ensures var r := PushAll(ratio, chunks);
      && (ratio <= 2.0 ==> r.Pushed?)
      && (r.Pushed? ==> Carries(r.stream, Flatten(chunks)) && r.output == Yield(Flatten(chunks), 0.0, ratio))
  {
    hide Count, Yield, Carries, Push;
    if chunks == [] {
      NothingCarried(ratio);
    } else {
      var before := chunks[..|chunks| - 1];
      PushAllYields(ratio, before);
      if PushAll(ratio, before).Pushed? {
        PushCarriesOn(PushAll(ratio, before).stream, Flatten(before), chunks[|chunks| - 1]);
      }
    }
  }

  lemma NothingCarried(ratio: real)
    requires ratio > 0.0
    ensures Carries(Stream(ratio, 0.0, []), []) && Yield([], 0.0, ratio) == []
  {
  }

  lemma {:induction false} PushAllPasses(ratio: real, chunks: seq<seq<StereoFrame>>)
    requires ratio > 0.0 && Abs(ratio - 1.0) < EPSILON
    ensures PushAll(ratio, chunks) == Pushed(Stream(ratio, 0.0, []), Flatten(chunks))
  {
    if chunks != [] {
      PushAllPasses(ratio, chunks[..|chunks| - 1]);
    }
  }

  /** Different rates are never taken for equal ones. */
  lemma DifferentRatesDiffer(sourceRate: u32, targetRate: u32)
    requires sourceRate > 0 && targetRate > 0
    ensures sourceRate == targetRate <==> Abs(Ratio(sourceRate, targetRate) - 1.0) < EPSILON
  {
    var ratio, t := Ratio(sourceRate, targetRate), targetRate as real;
    var excess, opposite := (ratio - 1.0) * t, (1.0 - ratio) * t;
    assert excess == (sourceRate - targetRate) as real by {
      assert ratio * t == sourceRate as real;
    }
    if sourceRate == targetRate {
      NoExcess(ratio - 1.0, t);
    } else if Abs(ratio - 1.0) < EPSILON {
      SmallExcess(ratio - 1.0, t, excess);
      SmallExcess(1.0 - ratio, t, opposite);
    }
  }

  lemma NoExcess(d: real, t: real)
    requires t > 0.0 && d * t == 0.0
    ensures d == 0.0
  {
  }

  lemma SmallExcess(d: real, t: real, x: real)
    requires 0.0 < t < U32_LIMIT as real && d < EPSILON && x == d * t
    ensures x < 1.0
  {
    MulStrict(d, EPSILON, t);
    MulStrict(t, 4294967296.0, EPSILON);
  }

  /**
    Streaming equals batch: for any two rates and every way to cut the input into chunks, the
    output of a streaming resampler that does not panic is that of the batch resampler exactly
    when the rates are equal or the input is not a single frame; up to two to one it never panics.
   */
  lemma StreamingEqualsBatch(chunks: seq<seq<StereoFrame>>, sourceRate: u32, targetRate: u32)
    requires 0 < sourceRate && 0 < targetRate
    ensures var r := PushAll(Ratio(sourceRate, targetRate), chunks);
      && (sourceRate <= 2 * targetRate ==> r.Pushed?)
      && (r.Pushed? ==>
            (r.output == Batch(Flatten(chunks), sourceRate, targetRate)
             <==> sourceRate == targetRate || |Flatten(chunks)| != 1))
  {
    hide PushAll;
    var ratio := Ratio(sourceRate, targetRate);
    DifferentRatesDiffer(sourceRate, targetRate);
    RatioPositive(sourceRate, targetRate);
    if sourceRate == targetRate {
      PushAllPasses(ratio, chunks);
    } else {
      if sourceRate <= 2 * targetRate {
        RatioAtMostTwo(sourceRate, targetRate);
      }
      PushAllYields(ratio, chunks);
    }
  }

  lemma RatioAtMostTwo(sourceRate: u32, targetRate: u32)
    requires 0 < sourceRate <= 2 * targetRate
    ensures 0.0 < Ratio(sourceRate, targetRate) <= 2.0
  {
    BelowQuotient(2.0, sourceRate as real, targetRate as real);
  }

  /** Frames in a single chunk that makes a fresh resampler of this ratio drain past its end. */
  function FatalLength(ratio: real): nat
    requires ratio > 2.0
  {
    QuotientPositive(1.0, ratio - 2.0);
    2 * Ceil(1.0 / (ratio - 2.0))
  }

  /**
    The drain stays in range whatever is pushed exactly for ratios up to two: beyond, one chunk
    into a fresh resampler is enough to drain past the end.
   */
  lemma DrainInRangeIffAtMostTwo(ratio: real)
    requires ratio > 0.0
    ensures ratio <= 2.0 <==> forall chunks :: PushAll(ratio, chunks).Pushed?
  {
    if ratio <= 2.0 {
      forall chunks
        ensures PushAll(ratio, chunks).Pushed?
      {
        if Abs(ratio - 1.0) < EPSILON {
          PushAllPasses(ratio, chunks);
        } else {
          PushAllYields(ratio, chunks);
        }
      }
    } else {
      var chunk := seq(FatalLength(ratio), _ => SILENCE);
      FatalChunk(ratio, chunk);
      assert PushAll(ratio, [chunk]).Panicked?;
    }
  }

  /** Where a push stops: short of the buffer's end by less than the last step, or where it began. */
  lemma StopsNearEnd(length: nat, start: real, ratio: real)
    requires 0.0 < ratio <= 2.0 && 0.0 <= start < 1.0
    ensures var end := start + Travel(ratio, Count(length, start, ratio));
      0.0 <= end && end.Floor <= length
  {
    var k := Count(length, start, ratio);
    TravelMonotone(ratio, ratio, 0, k);
    if k > 0 {
      CountIsExact(length, start, ratio, k - 1);
    }
  }

  /** A ratio that is set, and what is then pushed: the sender adjusts its rate before every chunk. */
  datatype Feed = Feed(ratio: real, chunk: seq<StereoFrame>)

  function PushVarying(s: Stream, feeds: seq<Feed>): (r: Pushed)
    requires s.readPos >= 0.0 && forall f :: f in feeds ==> f.ratio > 0.0
    ensures r.Pushed? ==> r.stream.readPos >= 0.0
  {
    if feeds == [] then Pushed(s, [])
    else
      match PushVarying(s, feeds[..|feeds| - 1])
      case Panicked => Panicked
      case Pushed(t, output) =>
        match Push(t.(ratio := feeds[|feeds| - 1].ratio), feeds[|feeds| - 1].chunk)
        case Panicked => Panicked
        case Pushed(u, more) => Pushed(u, output + more)
  }

  /** Whatever the rate is set to between pushes, up to two the drain stays in range and the phase inside a frame. */
  lemma {:induction false} VaryingRatesStayInRange(s: Stream, feeds: seq<Feed>)
    requires 0.0 <= s.readPos < 1.0 && forall f :: f in feeds ==> 0.0 < f.ratio <= 2.0
    ensures var r := PushVarying(s, feeds);
      r.Pushed? && 0.0 <= r.stream.readPos < 1.0
  {
    hide Count, Yield;
    if feeds != [] {
      var before, last := feeds[..|feeds| - 1], feeds[|feeds| - 1];
      VaryingRatesStayInRange(s, before);
      var t := PushVarying(s, before).stream;
      StopsNearEnd(|t.buffer + last.chunk|, t.readPos, last.ratio);
    }
  }

  lemma {:induction false} TravelSplits(ratio: real, k: nat)
    ensures Travel(ratio, k) == (2 * k) as real + Travel(ratio - 2.0, k)
  {
    if k > 0 {
      TravelSplits(ratio, k - 1);
    }
  }

  /** The steps after which the excess over two has grown to a whole frame. */
  lemma ExcessGrows(excess: real, k: nat)
    requires excess > 0.0 && k == Ceil(1.0 / excess) - 1
    ensures 0.0 <= Travel(excess, k) < 1.0 <= Travel(excess, k + 1)
  {
    TravelIsProduct(excess, k);
    TravelIsProduct(excess, k + 1);
    TravelMonotone(excess, excess, 0, k);
    BelowQuotient(k as real, 1.0, excess);
    BelowQuotient((k + 1) as real, 1.0, excess);
  }

  lemma FatalChunk(ratio: real, chunk: seq<StereoFrame>)
    requires ratio > 2.0 && |chunk| == FatalLength(ratio)
    ensures PushAll(ratio, [chunk]).Panicked?
  {
    hide Count, Yield;
    QuotientPositive(1.0, ratio - 2.0);
    var k: nat := Ceil(1.0 / (ratio - 2.0)) - 1;
    ExcessGrows(ratio - 2.0, k);
    TravelSplits(ratio, k);
    TravelSplits(ratio, k + 1);
    CountIsExact(|chunk|, 0.0, ratio, k);
    CountIsExact(|chunk|, 0.0, ratio, k + 1);
    assert Count(|chunk|, 0.0, ratio) == k + 1;
    assert [] + chunk == chunk;
    assert Push(Stream(ratio, 0.0, []), chunk).Panicked?;
    OneChunk(ratio, chunk);
  }

  lemma OneChunk(ratio: real, chunk: seq<StereoFrame>)
    requires ratio > 0.0 && Push(Stream(ratio, 0.0, []), chunk).Panicked?
    ensures PushAll(ratio, [chunk]).Panicked?
  {
    assert [chunk][..0] == [];
    assert PushAll(ratio, []) == Pushed(Stream(ratio, 0.0, []), []);
  }

  // ----- a line stays a line

  lemma InterpolateOnLine(input: seq<StereoFrame>, a: StereoFrame, d: StereoFrame, position: real)
    requires OnLine(input, a, d) && Inside(|input|, position)
    ensures Interpolate(input, position) == LineAt(a, d, position)
  {
    hide Lerp, LineAt;
    LerpBetween(input, a, d, position.Floor, position - position.Floor as real);
  }

  lemma YieldOnLine(input: seq<StereoFrame>, a: StereoFrame, d: StereoFrame, ratio: real, k: nat)
    requires ratio > 0.0 && OnLine(input, a, d) && k < Count(|input|, 0.0, ratio)
    ensures Yield(input, 0.0, ratio)[k] == LineAt(a, d, k as real * ratio)
  {
    hide Interpolate, Count, Yield, LineAt, OnLine;
    YieldAt(input, 0.0, ratio, k);
    InterpolateOnLine(input, a, d, Travel(ratio, k));
    TravelIsProduct(ratio, k);
  }

  /** Output `k` is there exactly when there is an input frame beyond its position. */
  lemma BatchReaches(input: seq<StereoFrame>, sourceRate: u32, targetRate: u32, ratio: real, k: nat)
    requires 0 < sourceRate && 0 < targetRate && sourceRate != targetRate && |input| > 1
    requires ratio == sourceRate as real / targetRate as real
    ensures k < |Batch(input, sourceRate, targetRate)| <==> k as real * ratio + 1.0 < |input| as real
  {
    hide Count, FirstFrames;
    RatioPositive(sourceRate, targetRate);
    CountIsExact(|input|, 0.0, ratio, k);
    TravelIsProduct(ratio, k);
    TravelMonotone(ratio, ratio, 0, k);
  }

  lemma EqualRates(x: real, rate: real)
    requires rate > 0.0
    ensures x * (rate / rate) == x
  {
    assert rate / rate == 1.0;
  }

  /**
    A line stays a line: of frames on a line the batch resampler returns those on the same line,
    one source step over the target step apart.
   */
  lemma BatchOnLine(input: seq<StereoFrame>, a: StereoFrame, d: StereoFrame, sourceRate: u32, targetRate: u32,
                    ratio: real, k: nat)
    requires 0 < sourceRate && 0 < targetRate && ratio == sourceRate as real / targetRate as real
    requires OnLine(input, a, d) && k < |Batch(input, sourceRate, targetRate)|
    ensures Batch(input, sourceRate, targetRate)[k] == LineAt(a, d, k as real * ratio)
  {
    hide Count, Yield, LineAt;
    RatioPositive(sourceRate, targetRate);
    if sourceRate == targetRate {
      EqualRates(k as real, sourceRate as real);
    } else if |input| == 1 {
      assert k as real * ratio == 0.0;
    } else {
      YieldOnLine(input, a, d, ratio, k);
    }
  }

  /** So does the streaming resampler, however the line is cut into chunks, at any ratio but one. */
  lemma StreamOnLine(chunks: seq<seq<StereoFrame>>, a: StereoFrame, d: StereoFrame, ratio: real, k: nat)
    requires ratio > 0.0 && Abs(ratio - 1.0) >= EPSILON && OnLine(Flatten(chunks), a, d)
    requires PushAll(ratio, chunks).Pushed? && k < |PushAll(ratio, chunks).output|
    ensures PushAll(ratio, chunks).output[k] == LineAt(a, d, k as real * ratio)
  {
    hide Count, Yield, PushAll, LineAt, OnLine;
    PushAllYields(ratio, chunks);
    YieldOnLine(Flatten(chunks), a, d, ratio, k);
  }
}
