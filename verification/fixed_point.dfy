/**
 The `D128` decimal type of the contracts: an integer mantissa over a fixed
 scale. The scale (the crate's `DECIMAL`) is not part of this model, so it is
 an arbitrary positive constant here and nothing below depends on its value.
 The mantissa is signed, since the settlement's deposit rate may fall below
 zero; a value converted back to a token balance must not be negative.
 Every division and every product with a rescale truncates toward zero.
 */
module FixedPoint {
  import opened Types

  type Scale = n: int | n > 0 witness 1

  /** The number of mantissa units in 1.0. */
  const SCALE: Scale

  datatype D128 = D128(m: int)

  function One(): D128 { D128(SCALE) }

  function Zero(): D128 { D128(0) }

  function Abs(a: int): nat { if a < 0 then -a else a }

  /** Integer division truncating toward zero, as in Rust. */
  function Quot(a: int, b: int): int
    requires b != 0
  {
    if (a >= 0) == (b > 0) then Abs(a) / Abs(b) else -(Abs(a) / Abs(b))
  }

  function Sub(a: D128, b: D128): D128 { D128(a.m - b.m) }

  function MinD(a: D128, b: D128): D128 { if a.m <= b.m then a else b }

  /** `D128 * D128`, rescaled. */
  function Mul(a: D128, b: D128): D128 { D128(Quot(a.m * b.m, SCALE)) }

  /** `D128 / D128`; dividing by zero panics. */
  function Div(a: D128, b: D128): (r: Result<D128>)
    ensures r.Ok? <==> b.m != 0
  {
    if b.m == 0 then Fail(ArithmeticFault) else Ok(D128(Quot(a.m * SCALE, b.m)))
  }

  /** `D128 / u128`; dividing by zero panics. */
  function DivInt(a: D128, n: nat): (r: Result<D128>)
    ensures r.Ok? <==> n != 0
  {
    if n == 0 then Fail(ArithmeticFault) else Ok(D128(Quot(a.m, n)))
  }

  /** `u128 * D128` kept as a `D128`: exact, no rescale. */
  function FromIntTimes(x: nat, d: D128): D128 { D128(x * d.m) }

  /** `d.mul_int(x)`, `(x * d).as_u128()` and `d * x` into a `Balance`: the
      product truncated to a whole number of tokens. */
  function MulInt(d: D128, x: int): int { Quot(d.m * x, SCALE) }

  /** A value stored into a `u128` balance: negative values fault. */
  function ToBalance(x: int): (r: Result<nat>)
    ensures r.Ok? <==> x >= 0
    ensures r.Ok? ==> r.value == x
  {
    if x < 0 then Fail(ArithmeticFault) else Ok(x)
  }

  /** A ratio in [0, 1] times a token amount stays within that amount. */
  lemma MulIntFraction(d: D128, x: nat)
    ensures 0 <= d.m <= SCALE ==> 0 <= MulInt(d, x) <= x
  {
    if 0 <= d.m <= SCALE {
      assert d.m * x <= SCALE * x by {
        assert (SCALE - d.m) * x >= 0;
      }
      DivLeq(d.m * x, SCALE, x);
    }
  }

  /** If `a <= b * c` with b positive then `a / b <= c`. */
  lemma DivLeq(a: nat, b: int, c: nat)
    requires b > 0
    requires a <= b * c
    ensures a / b <= c
  {
  }

  /** Integer division by a positive divisor is monotone. */
  lemma DivMonotone(a: nat, b: nat, d: int)
    requires d > 0 && a <= b
    ensures a / d <= b / d
  {
    var qa, qb := a / d, b / d;
    assert qa * d <= a by { assert a == qa * d + a % d; }
    assert b < (qb + 1) * d by { assert b == qb * d + b % d; }
  }

  /** Rescaling a nonnegative value by a nonnegative factor stays nonnegative. */
  lemma MulIntNonneg(d: D128, x: int)
    ensures d.m >= 0 && x >= 0 ==> MulInt(d, x) >= 0
  {
    if d.m >= 0 && x >= 0 {
      assert d.m * x >= 0;
    }
  }

  /** The product of two nonnegative decimals is nonnegative. */
  lemma MulNonneg(a: D128, b: D128)
    ensures a.m >= 0 && b.m >= 0 ==> Mul(a, b).m >= 0
  {
    if a.m >= 0 && b.m >= 0 {
      assert a.m * b.m >= 0;
    }
  }

  /** Rescaling a nonnegative amount is monotone in the factor. */
  lemma MulIntMonotone(lo: D128, hi: D128, x: nat)
    requires 0 <= lo.m <= hi.m
    ensures MulInt(lo, x) <= MulInt(hi, x)
  {
    assert 0 <= lo.m * x <= hi.m * x by {
      assert (hi.m - lo.m) * x >= 0;
    }
    DivMonotone(lo.m * x, hi.m * x, SCALE);
  }

  /** Truncating division by a positive divisor keeps the dividend's sign. */
  lemma QuotSign(a: int, n: int)
    requires n > 0
    ensures a >= 0 ==> Quot(a, n) >= 0
    ensures a <= 0 ==> Quot(a, n) <= 0
  {
  }

  /** Multiplying by a nonnegative factor is monotone. */
  lemma MulMonotone(a: int, b: int, p: int)
    ensures a <= b && p >= 0 ==> a * p <= b * p
  {
    if a <= b && p >= 0 {
      assert (b - a) * p >= 0;
    }
  }

  /** Dividing a multiple of a positive divisor gives back the multiplier. */
  lemma MulDivCancel(k: int, p: int)
    requires p > 0
    ensures (k * p) / p == k
  {
    var q := (k * p) / p;
    assert k * p == q * p + (k * p) % p;
    assert (q + 1) * p == q * p + p;
    assert (k + 1) * p == k * p + p;
    MulMonotone(q + 1, k, p);
    MulMonotone(k + 1, q, p);
  }
}
