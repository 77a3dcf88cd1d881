/** The exponential waiting times shared by the warm pool's launcher and the worker's HTTP client. */
module Backoffs {

  function Pow2(n: nat): (p: nat)
    ensures p >= 1
  {
    if n == 0 then 1 else 2 * Pow2(n - 1)
  }

  /** The wait before retry number n + 1: doubled after each one. */
  function Delay(base: real, n: nat): real {
    if n == 0 then base else Delay(base, n - 1) * 2.0
  }

  function Backoff(base: real, n: nat): (waits: seq<real>)
    ensures |waits| == n
  {
    if n == 0 then [] else Backoff(base, n - 1) + [Delay(base, n - 1)]
  }

  function Total(waits: seq<real>): real {
    if waits == [] then 0.0 else Total(waits[..|waits| - 1]) + waits[|waits| - 1]
  }

  /** 2^n as a real, and a product of reals: the inductive proofs below see neither definition. */
  function Factor(n: nat): real {
    Pow2(n) as real
  }

  function Times(a: real, b: real): real {
    a * b
  }

  lemma FactorStep(n: nat)
    requires n > 0
    ensures Factor(n) == Factor(n - 1) * 2.0
    ensures Factor(n) - 1.0 == (Factor(n - 1) - 1.0) + Factor(n - 1)
  {
  }

  lemma TimesDoubled(a: real, b: real)
    ensures Times(a, b) * 2.0 == Times(a, b * 2.0)
  {
  }

  lemma TimesDistributes(a: real, b: real, c: real)
    ensures Times(a, b) + Times(a, c) == Times(a, b + c)
  {
  }

  lemma TimesUnits(a: real)
    ensures Times(a, 0.0) == 0.0 && Times(a, 1.0) == a
  {
  }

  lemma TotalStep(base: real, n: nat)
    requires n > 0
    ensures Total(Backoff(base, n)) == Total(Backoff(base, n - 1)) + Delay(base, n - 1)
  {
    assert Backoff(base, n)[..n - 1] == Backoff(base, n - 1);
  }

  lemma {:induction false} DelayIsScaled(base: real, n: nat)
    ensures Delay(base, n) == Times(base, Factor(n))
  {
    hide Times;
    if n == 0 {
      TimesUnits(base);
    } else {
      DelayIsScaled(base, n - 1);
      FactorStep(n);
      TimesDoubled(base, Factor(n - 1));
    }
  }

  lemma {:induction false} TotalIsScaled(base: real, n: nat)
    ensures Total(Backoff(base, n)) == Times(base, Factor(n) - 1.0)
  {
    hide Times;
    if n == 0 {
      TimesUnits(base);
    } else {
      TotalIsScaled(base, n - 1);
      TotalStep(base, n);
      DelayIsScaled(base, n - 1);
      FactorStep(n);
      TimesDistributes(base, Factor(n - 1) - 1.0, Factor(n - 1));
    }
  }

  /** The wait before retry number n + 1 is base * 2^n. */
  lemma DelayClosedForm(base: real, n: nat)
    ensures Delay(base, n) == base * Factor(n)
  {
    hide Factor;
    DelayIsScaled(base, n);
  }

  /** After n retries the time spent waiting is base * (2^n - 1). */
  lemma BackoffTotal(base: real, n: nat)
    ensures Total(Backoff(base, n)) == base * (Factor(n) - 1.0)
  {
    hide Factor;
    TotalIsScaled(base, n);
  }
}
