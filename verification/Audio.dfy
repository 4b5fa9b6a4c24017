/** Stereo frames and sample conversion (`common/src/audio.rs`), over exact reals. */
module Audio {
  import opened Numbers

  const SAMPLE_RATE: u32 := 48_000
  const CHANNELS: u16 := 2
  const SAMPLE_FORMAT_S16LE: u16 := 1

  datatype StereoFrame = StereoFrame(left: real, right: real)

  const SILENCE := StereoFrame(0.0, 0.0)

  function Lerp(a: StereoFrame, b: StereoFrame, frac: real): StereoFrame {
    StereoFrame(
      a.left + (b.left - a.left) * frac,
      a.right + (b.right - a.right) * frac)
  }

  function I16ToF32(sample: i16): real {
    if sample == -0x8000 then -1.0 else sample as real / 32767.0
  }

  function F32ToI16(sample: real): i16 {
    if sample <= -1.0 then -0x8000
    else if sample >= 1.0 then 0x7FFF
    else
      RoundInRange(sample);
      Round(sample * 32767.0)
  }

  lemma RoundInRange(sample: real)
    requires -1.0 < sample < 1.0
    ensures -0x7FFF <= Round(sample * 32767.0) <= 0x7FFF
  {
  }

  /** The trip i16 -> f32 -> i16 is the identity for every sample but one: -32767 comes back as -32768. */
  lemma SampleRoundTrip(sample: i16)
    ensures F32ToI16(I16ToF32(sample)) == sample <==> sample != -0x7FFF
    ensures F32ToI16(I16ToF32(-0x7FFF)) == -0x8000
  {
    if -0x7FFF < sample < 0x7FFF {
      assert I16ToF32(sample) * 32767.0 == sample as real;
    }
  }

  /** Between two neighbouring points of a line it is the line: the fraction counts linearly, on each side its own. */
  lemma LerpOnLine(a: StereoFrame, d: StereoFrame, x: real, frac: real)
    ensures Lerp(LineAt(a, d, x), LineAt(a, d, x + 1.0), frac) == LineAt(a, d, x + frac)
  {
    PointOnLine(a.left, d.left, x, frac);
    PointOnLine(a.right, d.right, x, frac);
  }

  /** A point of the line through `a` with slope `d`. */
  function LineAt(a: StereoFrame, d: StereoFrame, x: real): StereoFrame {
    StereoFrame(a.left + d.left * x, a.right + d.right * x)
  }

  /** Frames that lie on a line, one step apart. */
  predicate OnLine(frames: seq<StereoFrame>, a: StereoFrame, d: StereoFrame) {
    forall i :: 0 <= i < |frames| ==> frames[i] == LineAt(a, d, i as real)
  }

  /** Between two frames on a line. */
  lemma LerpBetween(frames: seq<StereoFrame>, a: StereoFrame, d: StereoFrame, i: nat, frac: real)
    requires OnLine(frames, a, d) && i + 1 < |frames|
    ensures Lerp(frames[i], frames[i + 1], frac) == LineAt(a, d, i as real + frac)
  {
    hide Lerp, LineAt;
    LerpOnLine(a, d, i as real, frac);
    assert (i + 1) as real == i as real + 1.0;
    assert frames[i] == LineAt(a, d, i as real);
    assert frames[i + 1] == LineAt(a, d, (i + 1) as real);
  }

  lemma LineSteps(d: real, x: real, frac: real)
    ensures d * (x + 1.0) == d * x + d && d * (x + frac) == d * x + d * frac
  {
  }

  lemma PointOnLine(a: real, d: real, x: real, frac: real)
    ensures var (y, next) := (a + d * x, a + d * (x + 1.0));
      y + (next - y) * frac == a + d * (x + frac)
  {
    LineSteps(d, x, frac);
    var y, next := a + d * x, a + d * (x + 1.0);
    assert next - y == d;
    assert (next - y) * frac == d * frac;
  }

  /** Quantizing is to the nearest of the 65535 levels, and saturates outside. */
  lemma QuantizesToNearest(sample: real)
    ensures -1.0 < sample < 1.0 ==> -0.5 <= F32ToI16(sample) as real - sample * 32767.0 <= 0.5
    ensures sample >= 1.0 ==> F32ToI16(sample) == 0x7FFF
    ensures sample <= -1.0 ==> F32ToI16(sample) == -0x8000
  {
    RoundsToNearest(sample * 32767.0);
    if -1.0 < sample < 1.0 {
      RoundInRange(sample);
    }
  }

  /** Samples are equally spaced from full scale to full scale, but for the lowest, which is full scale too. */
  lemma SamplesAreEven(sample: i16)
    ensures I16ToF32(0x7FFF) == 1.0 && I16ToF32(0) == 0.0 && I16ToF32(-0x7FFF) == I16ToF32(-0x8000) == -1.0
    ensures sample > -0x7FFF ==> I16ToF32(sample) - I16ToF32(sample - 1) == I16ToF32(1)
  {
  }

  lemma LerpEndpoints(a: StereoFrame, b: StereoFrame)
    ensures Lerp(a, b, 0.0) == a
    ensures Lerp(a, b, 1.0) == b
  {
  }
}
