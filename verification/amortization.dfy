/**
 * The amortization engine: a fixed-rate, fixed-term loan repaid in equal
 * monthly installments, computed over exact real numbers.
 */
module Amortization {

  /** `Math.pow(x, k)` for a natural exponent. */
  function Pow(x: real, k: nat): real
  {
    if k == 0 then 1.0 else x * Pow(x, k - 1)
  }

  lemma {:induction false} PowAtLeastOne(x: real, k: nat)
    requires x >= 1.0
    ensures Pow(x, k) >= 1.0
  {
    if k > 0 {
      PowAtLeastOne(x, k - 1);
    }
  }

  /** For a positive monthly rate, (1 + r)^n - 1 is positive, so the annuity divisor is never zero. */
  lemma {:induction false} PowAboveOne(x: real, k: nat)
    requires x > 1.0 && k >= 1
    ensures Pow(x, k) > 1.0
  {
    PowAtLeastOne(x, k - 1);
  }

  /** The monthly interest rate for an annual rate given in percent. */
  function MonthlyRate(annualPercent: real): (r: real)
    ensures r * 1200.0 == annualPercent
    ensures r == 0.0 <==> annualPercent == 0.0
    ensures annualPercent >= 0.0 ==> r >= 0.0
  {
    annualPercent / 100.0 / 12.0
  }

  /** Number of monthly installments for a term in years. */
  function Periods(termYears: nat): (n: nat)
    ensures n % 12 == 0 && n / 12 == termYears
  {
    termYears * 12
  }

  datatype Schedule = Schedule(installment: real, totalInterest: real, totalPayment: real)

  /**
   * The monthly installment for `principal` at monthly rate `r` over `n` months:
   * principal / n without interest, the annuity formula otherwise.
   */
  function Installment(principal: real, r: real, n: nat): (m: real)
    requires r >= 0.0 && n > 0
    ensures r == 0.0 ==> m * n as real == principal
    ensures r > 0.0 ==> Pow(1.0 + r, n) > 1.0 && m * (Pow(1.0 + r, n) - 1.0) == principal * r * Pow(1.0 + r, n)
  {
    if r == 0.0 then
      principal / n as real
    else
      PowAboveOne(1.0 + r, n);
      var growth := Pow(1.0 + r, n);
      (principal * (r * growth)) / (growth - 1.0)
  }

  /** The repayment schedule for `principal` at `annualPercent` over `termYears`. */
  function Amortize(principal: real, annualPercent: real, termYears: nat): (s: Schedule)
    requires annualPercent >= 0.0 && termYears > 0
    ensures s.installment == Installment(principal, MonthlyRate(annualPercent), Periods(termYears))
    ensures s.totalPayment == s.installment * Periods(termYears) as real
    ensures s.totalInterest == s.totalPayment - principal
    ensures annualPercent == 0.0 ==> s.totalInterest == 0.0 && s.totalPayment == principal
  {
    var r := MonthlyRate(annualPercent);
    var n := Periods(termYears);
    var installment := Installment(principal, r, n);
    if r == 0.0 then
      Schedule(installment, 0.0, principal)
    else
      var totalPaid := installment * n as real;
      Schedule(installment, totalPaid - principal, totalPaid)
  }

  /** Outstanding balance after `k` months: each month adds interest at rate `r` and subtracts `payment`. */
  function Balance(principal: real, r: real, payment: real, k: nat): real
  {
    if k == 0 then principal else Balance(principal, r, payment, k - 1) * (1.0 + r) - payment
  }

  /** Closed form of the balance, multiplied through by `r`. */
  lemma {:induction false} BalanceClosedForm(principal: real, r: real, payment: real, k: nat)
    ensures Balance(principal, r, payment, k) * r
         == principal * r * Pow(1.0 + r, k) - payment * (Pow(1.0 + r, k) - 1.0)
  {
    if k == 0 {
      assert Pow(1.0 + r, k) == 1.0;
    } else {
      BalanceClosedForm(principal, r, payment, k - 1);
      ClosedFormStep(principal, r, payment, Balance(principal, r, payment, k - 1), Pow(1.0 + r, k - 1),
                     Balance(principal, r, payment, k), Pow(1.0 + r, k));
    }
  }

  /** One month of the closed-form induction, as plain algebra. */
  lemma ClosedFormStep(principal: real, r: real, payment: real, b: real, g: real, next: real, x: real)
    requires b * r == principal * r * g - payment * (g - 1.0)
    requires next == b * (1.0 + r) - payment && x == (1.0 + r) * g
    ensures next * r == principal * r * x - payment * (x - 1.0)
  {
    assert next * r == (b * r) * (1.0 + r) - payment * r;
    assert (b * r) * (1.0 + r) == (principal * r * g) * (1.0 + r) - (payment * (g - 1.0)) * (1.0 + r);
    assert (principal * r * g) * (1.0 + r) == principal * r * x;
    assert (payment * (g - 1.0)) * (1.0 + r) + payment * r == payment * ((g - 1.0) * (1.0 + r) + r);
    assert (g - 1.0) * (1.0 + r) + r == x - 1.0;
  }

  lemma {:induction false} BalanceWithoutInterest(principal: real, payment: real, k: nat)
    ensures Balance(principal, 0.0, payment, k) == principal - k as real * payment
  {
    if k > 0 {
      BalanceWithoutInterest(principal, payment, k - 1);
    }
  }

  /** Paying the installment every month leaves nothing owed after the last month. */
  lemma InstallmentRepaysLoan(principal: real, r: real, n: nat)
    requires r >= 0.0 && n > 0
    ensures Balance(principal, r, Installment(principal, r, n), n) == 0.0
  {
    var m := Installment(principal, r, n);
    if r == 0.0 {
      BalanceWithoutInterest(principal, m, n);
    } else {
      BalanceClosedForm(principal, r, m, n);
      assert Balance(principal, r, m, n) * r == 0.0;
    }
  }

  /** (1 + r)^k - 1 <= k * r * (1 + r)^k for r >= 0 (a Bernoulli-type bound). */
  lemma {:induction false} GrowthBound(r: real, k: nat)
    requires r >= 0.0
    ensures Pow(1.0 + r, k) - 1.0 <= k as real * r * Pow(1.0 + r, k)
  {
    if k > 0 {
      GrowthBound(r, k - 1);
      var g := Pow(1.0 + r, k - 1);
      PowAtLeastOne(1.0 + r, k - 1);
      assert Pow(1.0 + r, k) == g + r * g;
      assert r * g >= 0.0;
      calc {
        Pow(1.0 + r, k) - 1.0;
        (g - 1.0) + r * g;
      <= (k - 1) as real * r * g + r * g;
        k as real * r * g;
      <= { assert k as real * r >= 0.0; }
        k as real * r * (g + r * g);
      }
    }
  }

  /** Over the whole term the installments pay back at least the principal: interest is never negative. */
  lemma InstallmentsCoverPrincipal(principal: real, r: real, n: nat)
    requires principal >= 0.0 && r >= 0.0 && n > 0
    ensures Installment(principal, r, n) * n as real >= principal
  {
    if r != 0.0 {
      GrowthBound(r, n);
      CoverBound(principal, r, Pow(1.0 + r, n), Installment(principal, r, n), n as real);
    }
  }

  /** From m * (g - 1) = p * r * g and g - 1 <= n * r * g, with g > 1 and p >= 0, it follows that m * n >= p. */
  lemma CoverBound(p: real, r: real, g: real, m: real, n: real)
    requires p >= 0.0 && r > 0.0 && g > 1.0 && n >= 0.0
    requires m * (g - 1.0) == p * r * g && g - 1.0 <= n * r * g
    ensures m * n >= p
  {
    var d := g - 1.0;
    assert (m * n) * d == (m * d) * n;
    assert (m * d) * n == p * (n * r * g);
    assert p * (n * r * g) >= p * d;
    CancelPositive(m * n, p, d);
  }

  lemma CancelPositive(x: real, y: real, d: real)
    requires d > 0.0 && x * d >= y * d
    ensures x >= y
  {
    assert (x - y) * d >= 0.0;
  }
}
