/** Machine-integer bounds, saturating arithmetic and facts about real arithmetic. */
module Numbers {
  const U16_LIMIT: int := 0x1_0000
  const U32_LIMIT: int := 0x1_0000_0000
  const U64_LIMIT: int := 0x1_0000_0000_0000_0000
  const U32_MAX: nat := U32_LIMIT - 1
  const U64_MAX: nat := U64_LIMIT - 1

  type byte = x: int | 0 <= x < 0x100
  type i16 = x: int | -0x8000 <= x < 0x8000
  type u16 = x: int | 0 <= x < U16_LIMIT
  type u32 = x: int | 0 <= x < U32_LIMIT
  type u64 = x: int | 0 <= x < U64_LIMIT

  function Max(a: int, b: int): int {
    if a >= b then a else b
  }

  function Min(a: int, b: int): int {
    if a <= b then a else b
  }

  /** `u64::saturating_sub`. */
  function SatSub(a: nat, b: nat): nat {
    if a >= b then a - b else 0
  }

  /** `u64::saturating_add`. */
  function SatAdd(a: nat, b: nat): nat {
    Min(a + b, U64_MAX)
  }

  /** `u64::saturating_mul`. */
  function SatMul(a: nat, b: nat): nat {
    Min(a * b, U64_MAX)
  }

  /** `wrapping_add` on 32 bits. */
  function Wrap(n: nat): u32 {
    n % U32_LIMIT
  }

  /** `f64::clamp`. */
  function Clamp(x: real, lo: real, hi: real): real
    requires lo <= hi
  {
    if x < lo then lo else if x > hi then hi else x
  }

  /** `f64::round`: to the nearest whole number, halves away from zero. */
  function Round(x: real): int {
    if x >= 0.0 then (x + 0.5).Floor else -(-x + 0.5).Floor
  }

  /** Rounding goes to the nearest whole number, away from zero when there are two. */
  lemma RoundsToNearest(x: real)
    ensures -0.5 <= Round(x) as real - x <= 0.5
    ensures Round(x) as real - x == 0.5 ==> x > 0.0
    ensures Round(x) as real - x == -0.5 ==> x < 0.0
  {
  }

  /** Clamping leaves what is inside and moves the rest to the nearer end. */
  lemma ClampsToRange(x: real, lo: real, hi: real)
    requires lo <= hi
    ensures lo <= Clamp(x, lo, hi) <= hi
    ensures lo <= x <= hi ==> Clamp(x, lo, hi) == x
    ensures x < lo ==> Clamp(x, lo, hi) == lo
    ensures x > hi ==> Clamp(x, lo, hi) == hi
  {
  }

  function Abs(x: real): real {
    if x < 0.0 then -x else x
  }

  lemma MulMonotone(a: real, b: real, x: real)
    requires a <= b && 0.0 <= x
    ensures a * x <= b * x && x * a <= x * b
  {
  }

  lemma MulStrict(a: real, b: real, x: real)
    requires a < b && 0.0 < x
    ensures a * x < b * x && x * a < x * b
  {
  }

  lemma MulNegate(x: real, k: real)
    ensures x * -k == -(x * k)
  {
  }

  /** Moving a point by `x` moves its floor by `floor(x)` or one more. */
  lemma FloorShift(a: real, x: real)
    ensures x.Floor <= (a + x).Floor - a.Floor <= x.Floor + 1
  {
  }

  /** Moving a point by at most a whole number `e` moves its floor by at most `e`. */
  lemma FloorShiftBetween(a: real, x: real, e: int)
    ensures 0.0 <= x <= e as real ==> 0 <= (a + x).Floor - a.Floor <= e
    ensures e as real <= x <= 0.0 ==> e <= (a + x).Floor - a.Floor <= 0
  {
  }

  lemma FloorPlusInt(a: real, n: int)
    ensures (a + n as real).Floor == a.Floor + n
  {
  }

  /** Ceiling division brackets the exact quotient. */
  lemma CeilDivBounds(x: nat, d: nat)
    requires d > 0
    ensures (x + d - 1) / d * d >= x
    ensures (x + d - 1) / d * d < x + d
  {
  }

  lemma MulMonotoneInt(a: nat, b: nat, d: nat)
    requires a <= b
    ensures a * d <= b * d
  {
  }

  /** Euclidean division is the only way to write `x` with a remainder below `d`. */
  lemma DivUnique(x: nat, d: nat, quotient: nat, remainder: nat)
    requires 0 < d && x == quotient * d + remainder && remainder < d
    ensures x / d == quotient
  {
    var k := x / d;
    assert x == k * d + x % d;
    if k < quotient {
      MulMonotoneInt(k + 1, quotient, d);
    } else if quotient < k {
      MulMonotoneInt(quotient + 1, k, d);
    }
  }

  // ----- equal parts

  /** Where the `i`-th of equal parts starts: a frame in an interleaved slice, a packet in waiting frames. */
  function Offset(i: nat, size: nat): nat {
    if i == 0 then 0 else Offset(i - 1, size) + size
  }

  lemma {:induction false} OffsetIsProduct(i: nat, size: nat)
    ensures Offset(i, size) == i * size
  {
    if i > 0 {
      OffsetIsProduct(i - 1, size);
    }
  }

  lemma {:induction false} OffsetMonotone(i: nat, n: nat, size: nat)
    requires i <= n
    ensures Offset(i, size) <= Offset(n, size)
  {
    if i < n {
      OffsetMonotone(i, n - 1, size);
    }
  }

  // ----- equal steps

  /** The distance of `k` steps. */
  function Travel(step: real, k: nat): real {
    if k == 0 then 0.0 else Travel(step, k - 1) + step
  }

  lemma {:induction false} TravelIsProduct(step: real, k: nat)
    ensures Travel(step, k) == k as real * step
  {
    if k > 0 {
      TravelIsProduct(step, k - 1);
    }
  }

  lemma TravelByOne(k: nat)
    ensures Travel(1.0, k) == k as real
  {
    TravelIsProduct(1.0, k);
  }

  lemma TravelNext(step: real, k: nat)
    ensures Travel(step, k + 1) == Travel(step, k) + step
  {
  }

  lemma {:induction false} TravelSum(step: real, j: nat, k: nat)
    ensures Travel(step, j + k) == Travel(step, j) + Travel(step, k)
  {
    if k > 0 {
      TravelSum(step, j, k - 1);
    }
  }

  lemma {:induction false} TravelMonotone(a: real, b: real, j: nat, k: nat)
    requires 0.0 <= a <= b && j <= k
    ensures 0.0 <= Travel(a, j) <= Travel(b, k)
    decreases k
  {
    if j < k {
      TravelMonotone(a, b, j, k - 1);
    } else if k > 0 {
      TravelMonotone(a, b, j - 1, k - 1);
    }
  }

  lemma {:induction false} TravelPositive(step: real, k: nat)
    requires step > 0.0
    ensures Travel(step, k) >= 0.0 && (k > 0 ==> Travel(step, k) >= step)
  {
    if k > 0 {
      TravelPositive(step, k - 1);
    }
  }
}
