/** Geometric growth: integer powers of a real base and month-by-month compounding.
    Every series the projection produces (apartment value, investment balance) and
    both amortisation formulas are built on these. */
module Growth {

  /** x raised to the natural power n, i.e. the source's `x ** n` for an integer n >= 0. */
  function Pow(x: real, n: nat): real
  {
    if n == 0 then 1.0 else x * Pow(x, n - 1)
  }

  /** A positive base has a positive power. */
  lemma {:induction false} PowPositive(x: real, n: nat)
    requires x > 0.0
    ensures Pow(x, n) > 0.0
  {
    if n > 0 {
      PowPositive(x, n - 1);
    }
  }

  /** Exponents add: x^(a+b) == x^a * x^b. */
  lemma {:induction false} PowAdd(x: real, a: nat, b: nat)
    ensures Pow(x, a + b) == Pow(x, a) * Pow(x, b)
  {
    if a > 0 {
      PowAdd(x, a - 1, b);
      assert Pow(x, a + b) == x * Pow(x, a - 1 + b);
    }
  }

  /** For a base of at least one, powers never decrease with the exponent, and for a
      base above one they strictly increase. */
  lemma {:induction false} PowGrows(x: real, a: nat, b: nat)
    requires x >= 1.0 && a <= b
    ensures Pow(x, a) <= Pow(x, b)
    ensures x > 1.0 && a < b ==> Pow(x, a) < Pow(x, b)
  {
    if a < b {
      PowGrows(x, a, b - 1);
      PowPositive(x, b - 1);
      assert Pow(x, b) == x * Pow(x, b - 1);
      assert Pow(x, b - 1) <= x * Pow(x, b - 1);
    }
  }

  /** For a base strictly between zero and one, every positive power stays below one. */
  lemma {:induction false} PowBelowOne(x: real, n: nat)
    requires 0.0 < x < 1.0 && n >= 1
    ensures 0.0 < Pow(x, n) < 1.0
  {
    if n > 1 {
      PowBelowOne(x, n - 1);
      assert Pow(x, n) == x * Pow(x, n - 1);
    }
  }

  /** The amount `start` after k months of compounding at the monthly rate `rate`:
      what `value *= 1 + rate` leaves after k iterations. */
  function Compounded(start: real, rate: real, k: nat): real
  {
    start * Pow(1.0 + rate, k)
  }

  /** What `value *= 1 + rate` leaves after k iterations, one month at a time. */
  function Grown(start: real, rate: real, k: nat): real
  {
    if k == 0 then start else Grown(start, rate, k - 1) * (1.0 + rate)
  }

  /** Compounding month by month gives the closed form start * (1 + rate)^k. */
  lemma {:induction false} GrownIsCompounded(start: real, rate: real, k: nat)
    ensures Grown(start, rate, k) == Compounded(start, rate, k)
  {
    if k > 0 {
      GrownIsCompounded(start, rate, k - 1);
      assert Pow(1.0 + rate, k) == (1.0 + rate) * Pow(1.0 + rate, k - 1);
      assert start * ((1.0 + rate) * Pow(1.0 + rate, k - 1))
             == (start * Pow(1.0 + rate, k - 1)) * (1.0 + rate);
    }
  }

  /** One more month of compounding multiplies by 1 + rate, as the loop body does. */
  lemma CompoundedStep(start: real, rate: real, k: nat)
    ensures Compounded(start, rate, k + 1) == Compounded(start, rate, k) * (1.0 + rate)
  {
    assert Pow(1.0 + rate, k + 1) == (1.0 + rate) * Pow(1.0 + rate, k);
  }

  /** A non-negative amount compounded at a non-negative rate never decreases, and a
      positive amount at a positive rate strictly increases. */
  lemma CompoundedMonotone(start: real, rate: real, j: nat, k: nat)
    requires start >= 0.0 && rate >= 0.0 && j <= k
    ensures Compounded(start, rate, j) <= Compounded(start, rate, k)
    ensures start > 0.0 && rate > 0.0 && j < k ==> Compounded(start, rate, j) < Compounded(start, rate, k)
  {
    PowGrows(1.0 + rate, j, k);
  }

  /** With a zero rate the amount stays at its starting value. */
  lemma {:induction false} CompoundedAtZeroRate(start: real, k: nat)
    ensures Compounded(start, 0.0, k) == start
  {
    if k > 0 {
      CompoundedAtZeroRate(start, k - 1);
      CompoundedStep(start, 0.0, k - 1);
    }
  }

  /** `monthly` is the monthly-equivalent rate of `annual`: twelve months of compounding
      at `monthly` give one year at `annual`. */
  predicate Compounds(annual: real, monthly: real)
  {
    1.0 + monthly > 0.0 && Pow(1.0 + monthly, 12) == 1.0 + annual
  }

  /** The monthly-equivalent rate has the sign of its annual rate: it is positive exactly
      when the annual rate is, and zero exactly when the annual rate is. */
  lemma MonthlyRateSign(annual: real, monthly: real)
    requires Compounds(annual, monthly)
    ensures monthly > 0.0 <==> annual > 0.0
    ensures monthly == 0.0 <==> annual == 0.0
  {
    var x := 1.0 + monthly;
    if monthly > 0.0 {
      PowGrows(x, 0, 12);
    } else if monthly < 0.0 {
      PowBelowOne(x, 12);
    } else {
      CompoundedAtZeroRate(1.0, 12);
    }
  }
}
