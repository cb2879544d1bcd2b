/** Exact scaled integers: a coefficient and a decimal scale.  Every sum of money or quantities goes through
    this arithmetic because adding coefficients of different scales is wrong by factors of ten. */
module Exact {

  import opened Wrappers

  function Pow10(n: nat): (p: int)
    ensures p >= 1
  {
    if n == 0 then 1 else 10 * Pow10(n - 1)
  }

  lemma {:induction false} PowAdds(a: nat, b: nat)
    ensures Pow10(a + b) == Pow10(a) * Pow10(b)
  {
    if b > 0 {
      PowAdds(a, b - 1);
      calc {
        Pow10(a + b);
        10 * Pow10(a + (b - 1));
        10 * (Pow10(a) * Pow10(b - 1));
        Pow10(a) * (10 * Pow10(b - 1));
      }
    }
  }

  /** The coefficient of the same amount at a deeper scale: one more digit for every place. */
  function Restate(value: int, from: nat, deeper: nat): int
    requires from <= deeper
    decreases deeper
  {
    if from == deeper then value else 10 * Restate(value, from, deeper - 1)
  }

  /** Restating is multiplying by a power of ten. */
  lemma {:induction false} RestateIsProduct(value: int, from: nat, deeper: nat)
    requires from <= deeper
    ensures Restate(value, from, deeper) == value * Pow10(deeper - from)
    decreases deeper
  {
    if from < deeper {
      RestateIsProduct(value, from, deeper - 1);
      Associate(value, Pow10(deeper - 1 - from), 10);
    }
  }

  lemma {:induction false} RestateTwice(value: int, a: nat, b: nat, c: nat)
    requires a <= b <= c
    ensures Restate(Restate(value, a, b), b, c) == Restate(value, a, c)
    decreases c
  {
    if b < c {
      RestateTwice(value, a, b, c - 1);
    }
  }

  lemma Associate(x: int, y: int, z: int)
    ensures x * y * z == x * (y * z)
  {
  }

  lemma {:induction false} RestateSum(x: int, y: int, a: nat, b: nat)
    requires a <= b
    ensures Restate(x + y, a, b) == Restate(x, a, b) + Restate(y, a, b)
    decreases b
  {
    if a < b {
      RestateSum(x, y, a, b - 1);
    }
  }

  lemma Distribute(x: int, y: int, k: int)
    ensures (x + y) * k == x * k + y * k
  {
  }

  function Max(a: nat, b: nat): nat { if a >= b then a else b }

  predicate IsInt64(v: int) { -0x8000_0000_0000_0000 <= v <= 0x7fff_ffff_ffff_ffff }

  lemma Int64Bounds(v: int)
    ensures IsInt64(v) <==> -9223372036854775808 <= v <= 9223372036854775807
  {
  }

  /* ---------------------------------------------------------------- accumulation */

  datatype Amount = Amount(value: int, scale: nat)

  function Deepest(amounts: seq<Amount>): (s: nat)
    ensures forall i :: 0 <= i < |amounts| ==> amounts[i].scale <= s
    ensures s == 0 || exists i :: 0 <= i < |amounts| && s == amounts[i].scale
  {
    if amounts == [] then 0 else Max(Deepest(amounts[..|amounts| - 1]), amounts[|amounts| - 1].scale)
  }

  /** The exact sum of the amounts, at a scale none of them exceeds. */
  function Total(amounts: seq<Amount>, scale: nat): int
    requires forall i :: 0 <= i < |amounts| ==> amounts[i].scale <= scale
  {
    if amounts == [] then 0
    else Total(amounts[..|amounts| - 1], scale) + Restate(amounts[|amounts| - 1].value, amounts[|amounts| - 1].scale, scale)
  }

  lemma {:induction false} TotalRestates(amounts: seq<Amount>, a: nat, b: nat)
    requires a <= b && forall i :: 0 <= i < |amounts| ==> amounts[i].scale <= a
    ensures Restate(Total(amounts, a), a, b) == Total(amounts, b)
    decreases |amounts|
  {
    if amounts == [] {
      RestateSum(0, 0, a, b);
    } else {
      var before, last := amounts[..|amounts| - 1], amounts[|amounts| - 1];
      TotalRestates(before, a, b);
      RestateSum(Total(before, a), Restate(last.value, last.scale, a), a, b);
      RestateTwice(last.value, last.scale, a, b);
    }
  }

  class ScaledInt {
    var value: int
    var scale: nat

    /** A zero accumulator at scale 0. */
    constructor ()
      ensures value == 0 && scale == 0
    {
      value, scale := 0, 0;
    }

    /** Deepen to a scale; a shallower one is ignored. */
    method Align(to: nat)
      modifies this
      ensures scale == Max(old(scale), to)
      ensures value == Restate(old(value), old(scale), scale)
    {
      if to <= scale {
        return;
      }
      RestateIsProduct(value, scale, to);
      value := value * Pow10(to - scale);
      scale := to;
    }

    /** Add an amount, both sides aligned to the deeper scale first. */
    method Add(amount: int, at: nat)
      modifies this
      ensures scale == Max(old(scale), at)
      ensures value == Restate(old(value), old(scale), scale) + Restate(amount, at, scale)
    {
      Align(at);
      var addend := amount;
      if at < scale {
        RestateIsProduct(amount, at, scale);
        addend := addend * Pow10(scale - at);
      }
      value := value + addend;
    }

    /** Accumulating a list gives its exact sum at its deepest scale: no precision is ever dropped. */
    method AddAll(amounts: seq<Amount>)
      requires value == 0 && scale == 0
      modifies this
      ensures scale == Deepest(amounts) && value == Total(amounts, scale)
    {
      for i := 0 to |amounts|
        invariant scale == Deepest(amounts[..i]) && value == Total(amounts[..i], scale)
      {
        ghost var before := scale;
        Add(amounts[i].value, amounts[i].scale);
        var upTo := amounts[..i + 1];
        assert upTo[..i] == amounts[..i] && upTo[i] == amounts[i];
        assert Deepest(upTo) == scale;
        TotalRestates(amounts[..i], before, scale);
      }
      assert amounts[..|amounts|] == amounts;
    }
  }

  /* ---------------------------------------------------------------- quotients */

  /** Division that truncates toward zero. */
  function Quo(a: int, b: int): int
    requires b > 0
  {
    if a >= 0 then a / b else -(-a / b)
  }

  lemma QuotientFits(x: int, t: int, p: int)
    requires t > 0 && 0 <= x <= p * t
    ensures 0 <= x / t <= p
    ensures x - t < x / t * t <= x
  {
    var q := x / t;
    assert x == q * t + x % t;
    if q > p {
      StepUp(p, q, t);
    }
  }

  lemma {:induction false} StepUp(p: int, q: int, t: int)
    requires p < q && t > 0
    ensures p * t + t <= q * t
    decreases q - p
  {
    Distribute(q - 1, 1, t);
    if p < q - 1 {
      StepUp(p, q - 1, t);
    }
  }

  /** A truncated share of p in the ratio q to t lies between nothing and p and is within one unit of exact. */
  predicate ShareBounds(p: int, q: int, t: int, share: int) {
    if p >= 0 then 0 <= share <= p && p * q - t < share * t <= p * q
    else p <= share <= 0 && p * q <= share * t < p * q + t
  }

  lemma ShareUp(p: int, q: int, t: int)
    requires p >= 0 && 0 <= q <= t && t > 0
    ensures ShareBounds(p, q, t, Quo(p * q, t))
  {
    Scales(p, q, t);
    QuotientFits(p * q, t, p);
  }

  lemma Negate(x: int, y: int)
    ensures (-x) * y == -(x * y)
  {
  }

  lemma ShareFits(p: int, q: int, t: int)
    requires 0 <= q <= t && t > 0
    ensures ShareBounds(p, q, t, Quo(p * q, t))
  {
    if p >= 0 {
      ShareUp(p, q, t);
    } else {
      var m := -p;
      ShareUp(m, q, t);
      Negate(m, q);
      var up := Quo(m * q, t);
      assert Quo(p * q, t) == -up;
      Negate(up, t);
    }
  }

  lemma Scales(p: int, q: int, t: int)
    requires p >= 0 && 0 <= q <= t
    ensures 0 <= p * q <= p * t
  {
    assert p * t - p * q == p * (t - q);
  }

  /** value times multiplier over divisor at a result scale, rounded half up on magnitude in one step. */
  function MulDivRound(value: int, valueScale: nat, multiplier: int, multiplierScale: nat, divisor: int, divisorScale: nat, resultScale: nat): int
    requires divisor != 0
  {
    var exponent := resultScale + divisorScale - valueScale - multiplierScale;
    var numerator := if exponent >= 0 then value * multiplier * Pow10(exponent) else value * multiplier;
    var denominator := if exponent >= 0 then divisor else divisor * Pow10(-exponent);
    NonZero(divisor, Pow10(if exponent < 0 then -exponent else 0));
    Rounded(numerator, denominator)
  }

  lemma NonZero(a: int, b: int)
    requires a != 0 && b >= 1
    ensures a * b != 0
  {
  }

  function Abs(x: int): nat { if x >= 0 then x else -x }

  function HalfUp(n: nat, d: nat): nat
    requires d > 0
  {
    if 2 * (n % d) >= d then n / d + 1 else n / d
  }

  function Rounded(numerator: int, denominator: int): int
    requires denominator != 0
  {
    var q: int := HalfUp(Abs(numerator), Abs(denominator));
    if (numerator < 0) != (denominator < 0) then -q else q
  }

  /** The rounding is to the nearest integer, and a tie goes up in magnitude. */
  lemma HalfUpIsNearest(n: nat, d: nat)
    requires d > 0
    ensures var q := HalfUp(n, d); 2 * (n - q * d) < d && 2 * (q * d - n) <= d
  {
    assert n == n / d * d + n % d;
    Distribute(n / d, 1, d);
  }

  lemma SignedProduct(q: int, d: int, a: bool, b: bool)
    ensures (if a != b then -q else q) * (if b then -d else d) == if a then -(q * d) else q * d
  {
    Negate(q, d);
    Negate(q, -d);
    Negate(d, q);
  }

  lemma RoundedIsClose(numerator: int, denominator: int)
    requires denominator != 0
    ensures 2 * Abs(Rounded(numerator, denominator) * denominator - numerator) <= Abs(denominator)
    ensures 2 * (Abs(numerator) - Abs(Rounded(numerator, denominator) * denominator)) < Abs(denominator)
  {
    var n, d := Abs(numerator), Abs(denominator);
    HalfUpIsNearest(n, d);
    SignedProduct(HalfUp(n, d), d, numerator < 0, denominator < 0);
  }

  lemma Widen(x: int, y: int, k: int)
    requires 2 * Abs(x) <= Abs(y) && k >= 1
    ensures 2 * Abs(x * k) <= Abs(y * k)
  {
    Negate(x, k);
    Negate(y, k);
    Scales(k, 2 * Abs(x), Abs(y));
    assert 2 * (Abs(x) * k) == k * (2 * Abs(x));
  }

  lemma AbsScales(x: int, k: int)
    requires k >= 1
    ensures Abs(x * k) == Abs(x) * k
  {
    Negate(x, k);
    if x > 0 {
      Scales(k, 1, x);
    } else {
      Scales(k, 0, -x);
    }
  }

  lemma GapScales(a: int, b: int, c: int, k: int)
    requires 2 * (a - b) < c && k >= 1
    ensures 2 * (a * k - b * k) < c * k
  {
    StepUp(2 * (a - b), c, k);
    assert 2 * (a - b) * k == 2 * (a * k - b * k);
  }

  /** A quotient that does not fall short by half a unit or more does not at any finer scale. */
  lemma WidenShortfall(x: int, y: int, z: int, k: int)
    requires 2 * (Abs(x) - Abs(y)) < Abs(z) && k >= 1
    ensures 2 * (Abs(x * k) - Abs(y * k)) < Abs(z * k)
  {
    AbsScales(x, k);
    AbsScales(y, k);
    AbsScales(z, k);
    GapScales(Abs(x), Abs(y), Abs(z), k);
  }

  /** The result is the nearest one to the exact quotient of the amounts, whatever their scales:
      (value / 10^vs) (multiplier / 10^ms) / (divisor / 10^ds) compared at 10^rs without any rounding.  Of two that
      are equally near it is the one of greater magnitude. */
  lemma ConversionIsNearest(value: int, vs: nat, multiplier: int, ms: nat, divisor: int, ds: nat, rs: nat)
    requires divisor != 0
    ensures var q := MulDivRound(value, vs, multiplier, ms, divisor, ds, rs);
            var exact, unit := value * multiplier * Pow10(rs + ds), divisor * Pow10(vs + ms);
            2 * Abs(q * unit - exact) <= Abs(unit) && 2 * (Abs(exact) - Abs(q * unit)) < Abs(unit)
  {
    var q := MulDivRound(value, vs, multiplier, ms, divisor, ds, rs);
    var exponent, product := rs + ds - vs - ms, value * multiplier;
    if exponent >= 0 {
      var k := Pow10(vs + ms);
      PowAdds(exponent, vs + ms);
      Associate(product, Pow10(exponent), k);
      Associate(q, divisor, k);
      RoundedIsClose(product * Pow10(exponent), divisor);
      Widen(q * divisor - product * Pow10(exponent), divisor, k);
      Distribute(q * divisor, -(product * Pow10(exponent)), k);
      Negate(product * Pow10(exponent), k);
      WidenShortfall(product * Pow10(exponent), q * divisor, divisor, k);
    } else {
      var k := Pow10(rs + ds);
      PowAdds(-exponent, rs + ds);
      NonZero(divisor, Pow10(-exponent));
      var d := divisor * Pow10(-exponent);
      Associate(divisor, Pow10(-exponent), k);
      Associate(q, d, k);
      RoundedIsClose(product, d);
      Widen(q * d - product, d, k);
      Distribute(q * d, -product, k);
      Negate(product, k);
      WidenShortfall(product, q * d, d, k);
    }
  }

  datatype ConversionError = DivisionByZero | NegativeScale

  /** exact.MulDivRound: refused for a zero divisor or a negative scale, in this order. */
  method Convert(value: int, valueScale: int, multiplier: int, multiplierScale: int, divisor: int, divisorScale: int, resultScale: int)
    returns (r: Result<int, ConversionError>)
    ensures divisor == 0 <==> r == Err(DivisionByZero)
    ensures divisor != 0 && (valueScale < 0 || multiplierScale < 0 || divisorScale < 0 || resultScale < 0) <==> r == Err(NegativeScale)
    ensures r.Ok? ==> r.value == MulDivRound(value, valueScale, multiplier, multiplierScale, divisor, divisorScale, resultScale)
  {
    if divisor == 0 {
      return Err(DivisionByZero);
    }
    if valueScale < 0 || multiplierScale < 0 || divisorScale < 0 || resultScale < 0 {
      return Err(NegativeScale);
    }
    r := Ok(MulDivRound(value, valueScale, multiplier, multiplierScale, divisor, divisorScale, resultScale));
  }

  /** A credit and a debit of the same size convert to the same size. */
  lemma ConversionIsSymmetric(value: int, valueScale: nat, multiplier: int, multiplierScale: nat, divisor: int, divisorScale: nat, resultScale: nat)
    requires divisor != 0
    ensures MulDivRound(-value, valueScale, multiplier, multiplierScale, divisor, divisorScale, resultScale)
         == -MulDivRound(value, valueScale, multiplier, multiplierScale, divisor, divisorScale, resultScale)
  {
    var exponent := resultScale + divisorScale - valueScale - multiplierScale;
    assert (-value) * multiplier == -(value * multiplier);
    if exponent >= 0 {
      assert (-(value * multiplier)) * Pow10(exponent) == -(value * multiplier * Pow10(exponent));
      RoundedIsOdd(value * multiplier * Pow10(exponent), divisor);
    } else {
      NonZero(divisor, Pow10(-exponent));
      RoundedIsOdd(value * multiplier, divisor * Pow10(-exponent));
    }
  }

  lemma RoundedIsOdd(numerator: int, denominator: int)
    requires denominator != 0
    ensures Rounded(-numerator, denominator) == -Rounded(numerator, denominator)
  {
    var d := Abs(denominator);
    assert 0 % d == 0 && 0 / d == 0;
  }
}
