/** Fixed-width machine arithmetic used by the fingerprinting code: `u64` values with
    wrap-around, and the saturating conversion to `u32`. */
module Words {
  const TWO64: nat := 0x1_0000_0000_0000_0000
  const U32_MAX: nat := 0xFFFF_FFFF

  const U16_MAX: nat := 0xFFFF

  type u32 = x: int | 0 <= x < 0x1_0000_0000
  type u64 = x: int | 0 <= x < 0x1_0000_0000_0000_0000

  function WrappingAdd(a: u64, b: u64): u64 {
    (a + b) % TWO64
  }

  function WrappingMul(a: u64, b: u64): u64 {
    (a * b) % TWO64
  }

  function WrappingSub(a: u64, b: u64): u64 {
    (a - b) % TWO64
  }

  /** The number, or the largest 32-bit number if it does not fit. */
  function SaturateU32(n: nat): nat {
    if n <= U32_MAX then n else U32_MAX
  }

  /** Two integers that differ by a multiple of `m` have the same remainder. */
  lemma ModShift(a: int, b: int, m: int, k: int)
    requires m > 0
    requires a == b + k * m
    ensures a % m == b % m
  {
    var qa, ra := a / m, a % m;
    var qb, rb := b / m, b % m;
    assert a == qa * m + ra;
    assert b == qb * m + rb;
    var d := qa - qb - k;
    assert d * m == rb - ra;
    if d != 0 {
      MultipleAtLeast(d, m);
    }
  }

  lemma {:induction false} MultipleAtLeast(d: int, m: int)
    requires m > 0
    requires d != 0
    ensures d > 0 ==> d * m >= m
    ensures d < 0 ==> d * m <= -m
    decreases if d < 0 then -d else d
  {
    if d > 1 {
      MultipleAtLeast(d - 1, m);
      assert d * m == (d - 1) * m + m;
    } else if d < -1 {
      MultipleAtLeast(d + 1, m);
      assert d * m == (d + 1) * m - m;
    }
  }
}
