/**
 * The calculate action: validate the calculator inputs in a fixed order,
 * then hand the financed amount to the amortization engine.
 */
module Calculation {
  import opened Wrappers
  import opened Amortization

  /** The loan terms the calculator offers, in years. */
  const LoanTerms: set<nat> := {4, 5, 6, 7}

  /**
   * `parseFloat(downPayment) || 0`: an empty or unparseable amount (and zero)
   * counts as zero; any number, a negative one included, is kept.
   */
  function DownPaymentAmount(field: Option<real>): (d: real)
    ensures d != 0.0 <==> field.Some? && field.value != 0.0
    ensures d != 0.0 ==> d == field.value
  {
    if field.Some? then field.value else 0.0
  }

  /** The three input errors, in the order they are checked. */
  datatype CalcError = InvalidPrice | DownPaymentNotBelowPrice | InvalidInterestRate

  datatype LoanResult = LoanResult(
    monthlyInstallment: real,
    totalInterest: real,
    totalPayment: real,
    financedAmount: real,
    downPayment: real)

  /**
   * The outcome of pressing "calculate" with the given parsed fields: the first
   * failing check, or the repayment figures for the financed amount.
   */
  function Evaluate(price: Option<real>, downPayment: Option<real>, rate: Option<real>, termYears: nat)
    : (r: Result<LoanResult, CalcError>)
    requires termYears > 0
    ensures r == Failure(InvalidPrice) <==> !(price.Some? && price.value > 0.0)
    ensures r == Failure(DownPaymentNotBelowPrice) <==>
      price.Some? && price.value > 0.0 && DownPaymentAmount(downPayment) >= price.value
    ensures r == Failure(InvalidInterestRate) <==>
      price.Some? && price.value > 0.0 && DownPaymentAmount(downPayment) < price.value
      && !(rate.Some? && rate.value >= 0.0)
    ensures r.Success? ==>
      && r.value.downPayment == DownPaymentAmount(downPayment)
      && r.value.financedAmount == price.value - r.value.downPayment
      && r.value.financedAmount > 0.0
      && r.value.totalPayment == r.value.monthlyInstallment * Periods(termYears) as real
      && r.value.totalInterest == r.value.totalPayment - r.value.financedAmount
      && r.value.totalInterest >= 0.0
      && (rate.value == 0.0 ==> r.value.totalInterest == 0.0 && r.value.totalPayment == r.value.financedAmount)
      && Balance(r.value.financedAmount, MonthlyRate(rate.value), r.value.monthlyInstallment,
                 Periods(termYears)) == 0.0
  {
    if !(price.Some? && price.value > 0.0) then Failure(InvalidPrice)
    else if DownPaymentAmount(downPayment) >= price.value then Failure(DownPaymentNotBelowPrice)
    else if !(rate.Some? && rate.value >= 0.0) then Failure(InvalidInterestRate)
    else
      var dp := DownPaymentAmount(downPayment);
      var principal := price.value - dp;
      var s := Amortize(principal, rate.value, termYears);
      InstallmentRepaysLoan(principal, MonthlyRate(rate.value), Periods(termYears));
      InstallmentsCoverPrincipal(principal, MonthlyRate(rate.value), Periods(termYears));
      Success(LoanResult(s.installment, s.totalInterest, s.totalPayment, principal, dp))
  }

  /**
   * A negative down payment is not rejected: it raises the financed amount
   * above the car price.
   */
  lemma NegativeDownPaymentRaisesPrincipal(price: real, downPayment: real, rate: real, termYears: nat)
    requires price > 0.0 && downPayment < 0.0 && rate >= 0.0 && termYears > 0
    ensures var r := Evaluate(Some(price), Some(downPayment), Some(rate), termYears);
      r.Success? && r.value.financedAmount > price
  {
  }
}
