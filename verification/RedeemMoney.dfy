/**
 Dollar amounts as exact rationals. Rounding is to the nearest cent, a half cent
 upwards; USDC has six decimals.
 */
module RedeemMoney {
  /** `Math.round(100 * x)`. */
  function Cents(x: real): int { (100.0 * x + 0.5).Floor }

  function Usd(cents: int): real { cents as real / 100.0 }

  function RoundUsd(x: real): real { Usd(Cents(x)) }

  function UsdToUsdcMicros(usd: real): int { (RoundUsd(usd) * 1000000.0 + 0.5).Floor }

  predicate WholeCents(x: real) { RoundUsd(x) == x }

  /** Whole cents pass through rounding, alone or added to anything. */
  lemma RoundingShifts(x: real, c: int)
    ensures Cents(x + Usd(c)) == Cents(x) + c && RoundUsd(x + Usd(c)) == RoundUsd(x) + Usd(c)
    ensures Cents(Usd(c)) == c && WholeCents(Usd(c))
  {
    assert 100.0 * (x + Usd(c)) + 0.5 == (100.0 * x + 0.5) + c as real;
  }

  lemma WholeCentsAdd(x: real, y: real)
    requires WholeCents(y)
    ensures RoundUsd(x + y) == RoundUsd(x) + y
  {
    RoundingShifts(x, Cents(y));
  }

  /** A rounded amount is the nearest whole cent. */
  lemma RoundingIsNear(x: real)
    ensures -0.005 < RoundUsd(x) - x <= 0.005 && WholeCents(RoundUsd(x))
  {
    RoundingShifts(0.0, Cents(x));
  }

  /** The on-chain amount is exactly ten thousand micros a cent: the second rounding never moves it. */
  lemma MicrosAreCents(usd: real)
    ensures UsdToUsdcMicros(usd) == 10000 * Cents(usd)
  {
    assert RoundUsd(usd) * 1000000.0 == (10000 * Cents(usd)) as real;
  }

  /** `n` charges of `x`. */
  function Times(x: real, n: nat): real { if n == 0 then 0.0 else Times(x, n - 1) + x }

  lemma {:induction false} TimesIsProduct(x: real, n: nat)
    ensures Times(x, n) == x * n as real
  {
    if n == 0 {
    } else {
      TimesIsProduct(x, n - 1);
      assert x * n as real == x * ((n - 1) as real + 1.0);
    }
  }

  method Multiply(x: real, n: nat) returns (r: real)
    ensures r == Times(x, n)
  {
    TimesIsProduct(x, n);
    r := x * n as real;
  }

  function SumOf<T>(xs: seq<T>, f: T -> real): real {
    if xs == [] then 0.0 else SumOf(xs[..|xs| - 1], f) + f(xs[|xs| - 1])
  }

  lemma {:induction false} SumIsWholeCents<T>(xs: seq<T>, f: T -> real)
    requires forall x :: x in xs ==> WholeCents(f(x))
    ensures WholeCents(SumOf(xs, f))
  {
    if xs == [] {
      RoundingShifts(0.0, 0);
    } else {
      var front, last := xs[..|xs| - 1], xs[|xs| - 1];
      SumIsWholeCents(front, f);
      WholeCentsAdd(SumOf(front, f), f(last));
    }
  }

  lemma {:induction false} SumAdds<T>(xs: seq<T>, f: T -> real, g: T -> real, h: T -> real)
    requires forall x :: x in xs ==> h(x) == f(x) + g(x)
    ensures SumOf(xs, h) == SumOf(xs, f) + SumOf(xs, g)
  {
    if xs == [] {
    } else {
      SumAdds(xs[..|xs| - 1], f, g, h);
      assert xs[|xs| - 1] in xs;
    }
  }

  /** Rounding each term moves a sum by at most half a cent a term. */
  lemma {:induction false} SumIsNear<T>(xs: seq<T>, f: T -> real, g: T -> real)
    requires forall x :: x in xs ==> g(x) == RoundUsd(f(x))
    ensures -0.005 * |xs| as real <= SumOf(xs, g) - SumOf(xs, f) <= 0.005 * |xs| as real
  {
    if xs == [] {
    } else {
      SumIsNear(xs[..|xs| - 1], f, g);
      assert xs[|xs| - 1] in xs;
      RoundingIsNear(f(xs[|xs| - 1]));
    }
  }
}
