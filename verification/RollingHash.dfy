/** The polynomial rolling hash of the token-region fingerprints. */
module RollingHash {
  import opened Words

  /** The polynomial  s[0]*b^(n-1) + ... + s[n-1]  over the unbounded integers. */
  function Poly(b: int, s: seq<int>): int {
    if s == [] then 0 else Poly(b, s[..|s| - 1]) * b + s[|s| - 1]
  }

  function Pow(b: int, e: nat): int {
    if e == 0 then 1 else Pow(b, e - 1) * b
  }

  lemma PolySnoc(b: int, w: seq<int>, t: int)
    ensures Poly(b, w + [t]) == Poly(b, w) * b + t
  {
    assert (w + [t])[..|w|] == w;
  }

  /** Removing the oldest term subtracts its weight. */
  lemma {:induction false} PolyHead(b: int, p: int, w: seq<int>)
    ensures Poly(b, [p] + w) == p * Pow(b, |w|) + Poly(b, w)
  {
    if w == [] {
      PolySnoc(b, [], p);
      assert [p] + w == [] + [p];
    } else {
      var v, t := w[..|w| - 1], w[|w| - 1];
      assert w == v + [t];
      assert [p] + w == ([p] + v) + [t];
      PolySnoc(b, [p] + v, t);
      PolySnoc(b, v, t);
      PolyHead(b, p, v);
      var x, y := Pow(b, |v|), Poly(b, v);
      assert (p * x + y) * b == p * (x * b) + y * b;
    }
  }

  /** One step of the rolling window over the integers. */
  lemma PolySlide(b: int, p: int, w: seq<int>, t: int)
    ensures Poly(b, w + [t]) == Poly(b, [p] + w) * b + t - p * Pow(b, |w| + 1)
  {
    PolyHead(b, p, w);
    PolySnoc(b, w, t);
    var x, y := Pow(b, |w|), Poly(b, w);
    assert (p * x + y) * b == p * (x * b) + y * b;
  }

  /** Wrapping arithmetic commutes with reduction modulo 2^64: growing the window. */
  lemma WrapGrow(b: u64, h: int, t: u64)
    ensures WrappingAdd(WrappingMul(h % TWO64, b), t) == (h * b + t) % TWO64
  {
    var k := h / TWO64;
    assert h == k * TWO64 + h % TWO64;
    var x := (h % TWO64) * b;
    var j := x / TWO64;
    assert x == j * TWO64 + x % TWO64;
    assert (k * TWO64) * b == (k * b) * TWO64;
    assert h * b == (k * b) * TWO64 + x by {
      assert (k * TWO64 + h % TWO64) * b == (k * TWO64) * b + (h % TWO64) * b;
    }
    var d := -(k * b) - j;
    assert d * TWO64 == -((k * b) * TWO64) - j * TWO64;
    ModShift(x % TWO64 + t, h * b + t, TWO64, d);
  }

  /** Wrapping arithmetic commutes with reduction modulo 2^64: dropping the oldest term. */
  lemma WrapDrop(g: int, p: u64, q: int)
    ensures WrappingSub(g % TWO64, WrappingMul(p, q % TWO64)) == (g - p * q) % TWO64
  {
    var kg, kq := g / TWO64, q / TWO64;
    assert g == kg * TWO64 + g % TWO64;
    assert q == kq * TWO64 + q % TWO64;
    var x := p * (q % TWO64);
    var j := x / TWO64;
    assert x == j * TWO64 + x % TWO64;
    assert p * q == (p * kq) * TWO64 + x by {
      assert p * (kq * TWO64 + q % TWO64) == p * (kq * TWO64) + p * (q % TWO64);
      assert p * (kq * TWO64) == (p * kq) * TWO64;
    }
    var d := p * kq + j - kg;
    assert d * TWO64 == (p * kq) * TWO64 + j * TWO64 - kg * TWO64;
    ModShift(g % TWO64 - x % TWO64, g - p * q, TWO64, d);
  }

  lemma WrapSlide(b: u64, p: u64, t: u64, h: int, q: int)
    ensures WrappingSub(WrappingAdd(WrappingMul(h % TWO64, b), t), WrappingMul(p, q % TWO64))
         == (h * b + t - p * q) % TWO64
  {
    WrapGrow(b, h, t);
    WrapDrop(h * b + t, p, q);
  }

  /** The rolling update computes the direct polynomial hash of the shifted window. */
  lemma RollingStep(b: u64, p: u64, w: seq<int>, t: u64, h: u64, power: u64)
    requires h == Poly(b, [p] + w) % TWO64
    requires power == Pow(b, |w| + 1) % TWO64
    ensures WrappingSub(WrappingAdd(WrappingMul(h, b), t), WrappingMul(p, power)) == Poly(b, w + [t]) % TWO64
  {
    hide Poly, Pow, WrappingAdd, WrappingMul, WrappingSub;
    var whole, weight := Poly(b, [p] + w), Pow(b, |w| + 1);
    PolySlide(b, p, w, t);
    WrapSlide(b, p, t, whole, weight);
  }

  /** `wrapping_power`: the loop computes the power modulo 2^64. */
  method WrappingPower(base: u64, exponent: nat) returns (result: u64)
    ensures result == Pow(base, exponent) % TWO64
  {
    result := 1;
    var index := 0;
    while index < exponent
      invariant 0 <= index <= exponent
      invariant result == Pow(base, index) % TWO64
    {
      WrapGrow(base, Pow(base, index), 0);
      result := WrappingMul(result, base);
      index := index + 1;
    }
  }
}
