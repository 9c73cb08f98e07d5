/**
 Money is fixed-point with four decimals: an amount is the number of
 ten-thousandths. Exchange rates are exact reals. Math.round rounds halves
 towards positive infinity.
 */
module Money {
  import opened Sums

  /** The 0.01 tolerance of the posting rules. */
  const CENT := 100

  function Abs(x: int): nat { if x < 0 then -x else x }

  function OnIf(here: bool, amount: int): int { if here then amount else 0 }

  function Round(x: real): (n: int)
    ensures n as real - 0.5 <= x < n as real + 0.5
  {
    (x + 0.5).Floor
  }

  /** convertAmountAtRate: the converted amount is the exact product to within half a unit. */
  function Convert(amount: int, rate: real): (base: int)
    ensures base as real - 0.5 <= amount as real * rate < base as real + 0.5
  {
    Round(amount as real * rate)
  }

  lemma ConvertZero(rate: real)
    ensures Convert(0, rate) == 0
  {
    assert 0 as real * rate == 0.0;
  }

  lemma ConvertAtOne(amount: int)
    ensures Convert(amount, 1.0) == amount
  {
  }

  /** An amount at a rate, before rounding. */
  function Exact(amount: int, rate: real): real { amount as real * rate }

  function RealSum<T>(xs: seq<T>, g: T -> real): real {
    if xs == [] then 0.0 else RealSum(xs[..|xs| - 1], g) + g(xs[|xs| - 1])
  }

  /** `base` is `exact` to within half a unit for each of n roundings. */
  predicate NearBy(base: int, exact: real, n: nat) {
    -(n as real) <= 2.0 * (base as real - exact) <= n as real
  }

  /** Two half units are one. */
  lemma WithinOne(base: int, exact: real, n: nat)
    requires NearBy(base, exact, n) && n <= 2
    ensures NearBy(base, exact, 2)
  {
  }

  /** Rounding every term to within half a unit moves the sum by at most n/2. */
  lemma {:induction false} RoundedSum<T>(xs: seq<T>, f: T -> int, g: T -> real)
    requires forall x :: x in xs ==> -0.5 <= f(x) as real - g(x) <= 0.5
    ensures NearBy(Sum(xs, f), RealSum(xs, g), |xs|)
  {
    if xs != [] {
      RoundedSum(xs[..|xs| - 1], f, g);
    }
  }

  lemma Distribute(x: int, y: int, rate: real)
    ensures (x + y) as real * rate == x as real * rate + y as real * rate
  {
  }

  lemma {:induction false} ScaledSum<T>(xs: seq<T>, h: T -> int, g: T -> real, rate: real)
    requires forall x :: x in xs ==> g(x) == h(x) as real * rate
    ensures RealSum(xs, g) == Exact(Sum(xs, h), rate)
  {
    if xs == [] {
      assert Sum(xs, h) as real == 0.0;
    } else {
      var init, last := xs[..|xs| - 1], xs[|xs| - 1];
      ScaledSum(init, h, g, rate);
      Distribute(Sum(init, h), h(last), rate);
    }
  }
}
