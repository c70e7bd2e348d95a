/** Level-payment (annuity) amortisation: the monthly payment that retires a loan in a
    fixed number of months, and the principal still owed after some of those payments. */
module Amortization {
  import opened Growth

  /** The level monthly payment on `principal` at monthly rate `i` over `n` months:
      principal * i / (1 - (1 + i)^(-n)), with (1 + i)^(-n) written as 1 / (1 + i)^n.
      The formula divides by zero when n == 0 or i == 0; the tool never asks for either. */
  function LevelPayment(principal: real, i: real, n: nat): real
    requires i > 0.0 && n >= 1
  {
    GrowthAboveOne(i, n);
    Annuity(principal, i, Pow(1.0 + i, n))
  }

  /** The principal still owed after m level payments against an n-month schedule:
      principal * ((1 + i)^n - (1 + i)^m) / ((1 + i)^n - 1). */
  function RemainingPrincipal(principal: real, i: real, n: nat, m: nat): real
    requires i > 0.0 && n >= 1
  {
    GrowthAboveOne(i, n);
    Owed(principal, Pow(1.0 + i, n), Pow(1.0 + i, m))
  }

  /** The balance of a loan after m months in which interest is charged and then
      `payment` is paid: b := b * (1 + i) - payment, starting from `principal`. */
  function Balance(principal: real, i: real, payment: real, m: nat): real
  {
    if m == 0 then principal else Balance(principal, i, payment, m - 1) * (1.0 + i) - payment
  }

  /** The payment formula with x standing for (1 + i)^n. */
  function Annuity(p: real, i: real, x: real): real
    requires x > 1.0
  {
    (p * i) / (1.0 - 1.0 / x)
  }

  /** The remaining-principal formula with x standing for (1 + i)^n and y for (1 + i)^m:
      the principal times the fraction of it still owed. */
  function Owed(p: real, x: real, y: real): real
    requires x > 1.0
  {
    p * ((x - y) / (x - 1.0))
  }

  // Facts about (1 + i)^k in the form the lemmas below use.

  lemma GrowthAboveOne(i: real, n: nat)
    requires i > 0.0 && n >= 1
    ensures Pow(1.0 + i, n) > 1.0
  {
    PowGrows(1.0 + i, 0, n);
  }

  lemma GrowthAtLeastOne(i: real, m: nat)
    requires i >= 0.0
    ensures Pow(1.0 + i, m) >= 1.0
  {
    PowGrows(1.0 + i, 0, m);
  }

  /** (1 + i)^n splits at m as (1 + i)^m * (1 + i)^(n - m). */
  lemma PowSplit(i: real, n: nat, m: nat)
    requires m <= n
    ensures Pow(1.0 + i, n) == Pow(1.0 + i, m) * Pow(1.0 + i, n - m)
  {
    PowAdd(1.0 + i, m, n - m);
    assert m + (n - m) == n;
  }

  /** Every payment is more than the month's interest on a positive principal, so the
      principal shrinks; a zero principal (a loan fully retired by a sale) needs no
      payment, and a negative principal a negative one. */
  lemma LevelPaymentSign(principal: real, i: real, n: nat)
    requires i > 0.0 && n >= 1
    ensures principal == 0.0 <==> LevelPayment(principal, i, n) == 0.0
    ensures principal > 0.0 ==> LevelPayment(principal, i, n) > principal * i
    ensures principal < 0.0 ==> LevelPayment(principal, i, n) < 0.0
  {
    GrowthAboveOne(i, n);
    AnnuitySign(principal, i, Pow(1.0 + i, n));
  }

  /** A larger principal never needs a smaller payment. */
  lemma LevelPaymentMonotone(p1: real, p2: real, i: real, n: nat)
    requires i > 0.0 && n >= 1 && p1 <= p2
    ensures LevelPayment(p1, i, n) <= LevelPayment(p2, i, n)
  {
    GrowthAboveOne(i, n);
    AnnuityMonotone(p1, p2, i, Pow(1.0 + i, n));
  }

  /** The closed form owes the whole principal before any payment and nothing after
      the last one. */
  lemma RemainingEndpoints(principal: real, i: real, n: nat)
    requires i > 0.0 && n >= 1
    ensures RemainingPrincipal(principal, i, n, 0) == principal
    ensures RemainingPrincipal(principal, i, n, n) == 0.0
  {
    GrowthAboveOne(i, n);
    assert Pow(1.0 + i, 0) == 1.0;
    OwedEnds(principal, Pow(1.0 + i, n));
  }

  /** While payments remain, a non-negative loan still owes something non-negative and
      never more than it started with. */
  lemma RemainingBounds(principal: real, i: real, n: nat, m: nat)
    requires i > 0.0 && n >= 1 && m <= n && principal >= 0.0
    ensures 0.0 <= RemainingPrincipal(principal, i, n, m) <= principal
  {
    GrowthAboveOne(i, n);
    GrowthAtLeastOne(i, m);
    PowGrows(1.0 + i, m, n);
    OwedBounds(principal, Pow(1.0 + i, n), Pow(1.0 + i, m));
  }

  /** One month of the schedule: the closed form at m + 1 is the closed form at m with a
      month's interest added and one level payment taken off. */
  lemma RemainingStep(principal: real, i: real, n: nat, m: nat)
    requires i > 0.0 && n >= 1
    ensures RemainingPrincipal(principal, i, n, m + 1)
            == RemainingPrincipal(principal, i, n, m) * (1.0 + i) - LevelPayment(principal, i, n)
  {
    GrowthAboveOne(i, n);
    assert Pow(1.0 + i, m + 1) == (1.0 + i) * Pow(1.0 + i, m);
    OwedStep(principal, i, Pow(1.0 + i, n), Pow(1.0 + i, m), Pow(1.0 + i, m + 1));
  }

  /** The closed form is the true outstanding balance: paying the level payment for m
      months leaves exactly RemainingPrincipal(principal, i, n, m) owed. */
  lemma {:induction false} BalanceIsRemaining(principal: real, i: real, n: nat, m: nat)
    requires i > 0.0 && n >= 1
    ensures Balance(principal, i, LevelPayment(principal, i, n), m)
            == RemainingPrincipal(principal, i, n, m)
  {
    if m == 0 {
      RemainingEndpoints(principal, i, n);
    } else {
      BalanceIsRemaining(principal, i, n, m - 1);
      RemainingStep(principal, i, n, m - 1);
    }
  }

  /** A loan paid at its level payment is fully repaid after its n payments. */
  lemma FullyAmortises(principal: real, i: real, n: nat)
    requires i > 0.0 && n >= 1
    ensures Balance(principal, i, LevelPayment(principal, i, n), n) == 0.0
  {
    BalanceIsRemaining(principal, i, n, n);
    RemainingEndpoints(principal, i, n);
  }

  /** Re-amortising what is owed after m payments over the n - m months left gives back
      the original level payment. */
  lemma Reamortise(principal: real, i: real, n: nat, m: nat)
    requires i > 0.0 && m < n
    ensures LevelPayment(RemainingPrincipal(principal, i, n, m), i, n - m)
            == LevelPayment(principal, i, n)
  {
    GrowthAboveOne(i, n);
    GrowthAtLeastOne(i, m);
    GrowthAboveOne(i, n - m);
    PowSplit(i, n, m);
    AnnuityOfOwed(principal, i, Pow(1.0 + i, n), Pow(1.0 + i, m), Pow(1.0 + i, n - m));
  }

  // Properties of the two formulas over plain reals. Each is proved in a small
  // context, without the power function.

  lemma AnnuityTimes(p: real, i: real, x: real)
    requires x > 1.0
    ensures Annuity(p, i, x) * (x - 1.0) == p * i * x
  {
    var pay := Annuity(p, i, x);
    DivTimes(1.0, x);
    assert 1.0 - 1.0 / x > 0.0;
    DivTimes(p * i, 1.0 - 1.0 / x);
    assert pay * (1.0 - 1.0 / x) == p * i;
    MulOut(pay, 1.0 / x, x);
  }

  lemma OwedTimes(p: real, x: real, y: real)
    requires x > 1.0
    ensures Owed(p, x, y) * (x - 1.0) == p * (x - y)
  {
    DivTimes(x - y, x - 1.0);
    ScaleFraction(p, (x - y) / (x - 1.0), x - 1.0, x - y, Owed(p, x, y));
  }

  lemma AnnuitySign(p: real, i: real, x: real)
    requires i > 0.0 && x > 1.0
    ensures p == 0.0 <==> Annuity(p, i, x) == 0.0
    ensures p > 0.0 ==> Annuity(p, i, x) > p * i
    ensures p < 0.0 ==> Annuity(p, i, x) < 0.0
  {
    AnnuityTimes(p, i, x);
    SignFromProduct(Annuity(p, i, x), p, i, x);
  }

  lemma AnnuityMonotone(p1: real, p2: real, i: real, x: real)
    requires i > 0.0 && x > 1.0 && p1 <= p2
    ensures Annuity(p1, i, x) <= Annuity(p2, i, x)
  {
    AnnuityTimes(p1, i, x);
    AnnuityTimes(p2, i, x);
    OrderFromProduct(Annuity(p1, i, x), Annuity(p2, i, x), p1, p2, i, x);
  }

  lemma OwedEnds(p: real, x: real)
    requires x > 1.0
    ensures Owed(p, x, 1.0) == p && Owed(p, x, x) == 0.0
  {
    OwedTimes(p, x, 1.0);
    OwedTimes(p, x, x);
    Cancel(Owed(p, x, 1.0), p, x - 1.0);
    assert p * (x - x) == 0.0 * (x - 1.0);
    Cancel(Owed(p, x, x), 0.0, x - 1.0);
  }

  lemma OwedBounds(p: real, x: real, y: real)
    requires p >= 0.0 && 1.0 <= y <= x && x > 1.0
    ensures 0.0 <= Owed(p, x, y) <= p
  {
    OwedTimes(p, x, y);
    BoundsFromProduct(p, x, y, Owed(p, x, y));
  }

  lemma OwedStep(p: real, i: real, x: real, y: real, y1: real)
    requires x > 1.0 && y1 == (1.0 + i) * y
    ensures Owed(p, x, y1) == Owed(p, x, y) * (1.0 + i) - Annuity(p, i, x)
  {
    OwedTimes(p, x, y);
    OwedTimes(p, x, y1);
    AnnuityTimes(p, i, x);
    StepCore(p, i, x, y, y1, Owed(p, x, y), Owed(p, x, y1), Annuity(p, i, x));
  }

  lemma AnnuityOfOwed(p: real, i: real, x: real, y: real, z: real)
    requires x > 1.0 && x == y * z && y >= 1.0 && z > 1.0
    ensures Annuity(Owed(p, x, y), i, z) == Annuity(p, i, x)
  {
    OwedTimes(p, x, y);
    AnnuityTimes(p, i, x);
    AnnuityTimes(Owed(p, x, y), i, z);
    ReamortiseCore(p, i, x, y, z, Owed(p, x, y), Annuity(p, i, x), Annuity(Owed(p, x, y), i, z));
  }

  // Identities over plain reals, where x stands for (1 + i)^n and y for (1 + i)^m. Each
  // is kept apart so that it is proved in a small context, without the power function.

  lemma DivTimes(a: real, d: real)
    requires d != 0.0
    ensures (a / d) * d == a
  {
  }

  lemma Cancel(a: real, b: real, d: real)
    requires d != 0.0 && a * d == b * d
    ensures a == b
  {
  }

  lemma NonnegativeFactor(u: real, v: real)
    requires v > 0.0 && u * v >= 0.0
    ensures u >= 0.0
  {
  }

  lemma MulOut(a: real, b: real, x: real)
    requires b * x == 1.0
    ensures a * (1.0 - b) * x == a * x - a
  {
    assert a * (1.0 - b) * x == a * x - a * (b * x);
  }

  lemma ScaleFraction(p: real, f: real, d: real, a: real, r: real)
    requires f * d == a && r == p * f
    ensures r * d == p * a
  {
    assert r * d == p * (f * d);
  }

  lemma SignFromProduct(pay: real, p: real, i: real, x: real)
    requires i > 0.0 && x > 1.0 && pay * (x - 1.0) == p * i * x
    ensures p == 0.0 <==> pay == 0.0
    ensures p > 0.0 ==> pay > p * i
    ensures p < 0.0 ==> pay < 0.0
  {
    var c := p * i;
    assert (pay - c) * (x - 1.0) == c;
    assert p > 0.0 ==> c > 0.0;
    assert p < 0.0 ==> c < 0.0;
    assert p == 0.0 <==> c == 0.0;
  }

  lemma OrderFromProduct(a1: real, a2: real, p1: real, p2: real, i: real, x: real)
    requires i > 0.0 && x > 1.0 && p1 <= p2
    requires a1 * (x - 1.0) == p1 * i * x && a2 * (x - 1.0) == p2 * i * x
    ensures a1 <= a2
  {
    assert (a2 - a1) * (x - 1.0) == (p2 - p1) * i * x;
    assert (p2 - p1) * i >= 0.0;
    assert (p2 - p1) * i * x >= 0.0;
    NonnegativeFactor(a2 - a1, x - 1.0);
  }

  lemma BoundsFromProduct(p: real, x: real, y: real, r: real)
    requires p >= 0.0 && 1.0 <= y <= x && x > 1.0 && r * (x - 1.0) == p * (x - y)
    ensures 0.0 <= r <= p
  {
    assert p * (x - y) >= 0.0;
    NonnegativeFactor(r, x - 1.0);
    assert (p - r) * (x - 1.0) == p * (y - 1.0);
    assert p * (y - 1.0) >= 0.0;
    NonnegativeFactor(p - r, x - 1.0);
  }

  lemma StepCore(p: real, i: real, x: real, y: real, y1: real, r0: real, r1: real, pay: real)
    requires x > 1.0 && y1 == (1.0 + i) * y
    requires r0 * (x - 1.0) == p * (x - y) && r1 * (x - 1.0) == p * (x - y1)
    requires pay * (x - 1.0) == p * i * x
    ensures r1 == r0 * (1.0 + i) - pay
  {
    assert (r0 * (1.0 + i) - pay) * (x - 1.0) == r0 * (x - 1.0) * (1.0 + i) - pay * (x - 1.0);
    assert (r0 * (1.0 + i) - pay) * (x - 1.0) == r1 * (x - 1.0);
    Cancel(r1, r0 * (1.0 + i) - pay, x - 1.0);
  }

  lemma ReamortiseCore(p: real, i: real, x: real, y: real, z: real, r: real, pay: real, payR: real)
    requires x == y * z && y >= 1.0 && z > 1.0
    requires r * (x - 1.0) == p * (x - y)
    requires pay * (x - 1.0) == p * i * x && payR * (z - 1.0) == r * i * z
    ensures payR == pay
  {
    assert x > 1.0 by { assert y * z >= 1.0 * z; }
    assert p * (x - y) == p * y * (z - 1.0);
    assert payR * (z - 1.0) * (x - 1.0) == r * (x - 1.0) * i * z;
    assert r * (x - 1.0) * i * z == p * y * (z - 1.0) * i * z;
    assert p * y * (z - 1.0) * i * z == (p * i * x) * (z - 1.0);
    assert pay * (x - 1.0) * (z - 1.0) == (p * i * x) * (z - 1.0);
    assert (payR * (z - 1.0)) * (x - 1.0) == (pay * (z - 1.0)) * (x - 1.0);
    Cancel(payR * (z - 1.0), pay * (z - 1.0), x - 1.0);
    Cancel(payR, pay, z - 1.0);
  }
}
