/**
 * The calculator screen: the component state and the event handlers that
 * update it field by field. The car-search gateway is a parameter.
 */
module CarFinanceApp {
  import opened Wrappers
  import opened Text
  import opened RecentSearches
  import opened DownPayment
  import opened Amortization
  import opened Calculation

  /** A candidate vehicle returned by the search gateway. */
  datatype CarInfo = CarInfo(
    brand: string,
    model: string,
    trim: string,
    price: real,
    imageUrl: Option<string>,
    brandLogoUrl: Option<string>)

  /** What the gateway does with a query: resolve to a list of cars, or throw an error with a message. */
  datatype GatewayAnswer = Cars(cars: seq<CarInfo>) | Thrown(message: string)

  /** The search error shown under the search box. */
  datatype SearchError =
    | BlankQuery            // nothing but whitespace was typed
    | NoMatchingCars        // the gateway found no car
    | SearchFailed(message: string)
    | GenericSearchFailure  // the gateway threw an error without a message

  /** `error.message || <generic message>`. */
  function FailureFor(message: string): (e: SearchError)
    ensures e.SearchFailed? <==> message != ""
    ensures e.SearchFailed? ==> e.message == message
    ensures !e.SearchFailed? ==> e == GenericSearchFailure
  {
    if message == "" then GenericSearchFailure else SearchFailed(message)
  }

  /** The calculator inputs, as one value. */
  datatype LoanInputs = LoanInputs(
    carPrice: Option<real>,
    downPayment: Option<real>,
    downPaymentPercent: Option<real>,
    interestRate: Option<real>,
    loanTerm: nat)

  class App {
    var searchQuery: string
    var searchError: Option<SearchError>
    var searchResults: seq<CarInfo>
    var recentSearches: seq<string>

    var carPrice: Option<real>
    var downPayment: Option<real>
    var downPaymentPercent: Option<real>
    var interestRate: Option<real>
    var loanTerm: nat

    var monthlyInstallment: Option<real>
    var totalInterest: Option<real>
    var totalPayment: Option<real>
    var financedAmount: Option<real>
    var calculatedDownPayment: Option<real>
    var shareStatus: Option<string>

    function Inputs(): LoanInputs
      reads this
    {
      LoanInputs(carPrice, downPayment, downPaymentPercent, interestRate, loanTerm)
    }

    /** No result is displayed. */
    predicate NoResults()
      reads this
    {
      monthlyInstallment.None? && totalInterest.None? && totalPayment.None?
      && financedAmount.None? && calculatedDownPayment.None?
    }

    /** Every result field holds a number. */
    predicate HasResults()
      reads this
    {
      monthlyInstallment.Some? && totalInterest.Some? && totalPayment.Some?
      && financedAmount.Some? && calculatedDownPayment.Some?
    }

    function Shown(): LoanResult
      reads this
      requires HasResults()
    {
      LoanResult(monthlyInstallment.value, totalInterest.value, totalPayment.value,
                 financedAmount.value, calculatedDownPayment.value)
    }

    /**
     * The term is one the screen offers, the recent list is within its bound
     * and holds no two entries equal ignoring case, and the results are either all absent or exactly what calculating from
     * the current inputs gives: a displayed result is never stale.
     */
    ghost predicate Valid()
      reads this
    {
      && loanTerm in LoanTerms
      && |recentSearches| <= MaxRecent
      && NoCaseDuplicates(recentSearches)
      && (NoResults() || (HasResults() && Evaluate(carPrice, downPayment, interestRate, loanTerm) == Success(Shown())))
    }

    /** The initial state of the screen (the stored recent list is not loaded here). */
    constructor ()
      ensures Valid()
      ensures searchQuery == "" && searchError == None && searchResults == [] && recentSearches == []
      ensures Inputs() == LoanInputs(None, None, Some(25.0), Some(5.0), 5)
      ensures NoResults() && shareStatus == None
    {
      searchQuery, searchError, searchResults, recentSearches := "", None, [], [];
      carPrice, downPayment, downPaymentPercent, interestRate, loanTerm := None, None, Some(25.0), Some(5.0), 5;
      monthlyInstallment, totalInterest, totalPayment := None, None, None;
      financedAmount, calculatedDownPayment, shareStatus := None, None, None;
    }

    /** `resetCalculationResults`: clears the five result fields and the share status, nothing else. */
    method ResetCalculationResults()
      modifies this
      ensures NoResults() && shareStatus == None
      ensures Inputs() == old(Inputs())
      ensures searchQuery == old(searchQuery) && searchError == old(searchError)
      ensures searchResults == old(searchResults) && recentSearches == old(recentSearches)
    {
      monthlyInstallment, totalInterest, totalPayment := None, None, None;
      financedAmount, calculatedDownPayment, shareStatus := None, None, None;
    }

    /** Typing in the search box. */
    method EditSearchQuery(text: string)
      requires Valid()
      modifies this
      ensures Valid()
      ensures searchQuery == text
      ensures searchError == old(searchError) && searchResults == old(searchResults)
      ensures recentSearches == old(recentSearches) && Inputs() == old(Inputs())
      ensures NoResults() == old(NoResults()) && (old(HasResults()) ==> HasResults() && Shown() == old(Shown()))
      ensures shareStatus == old(shareStatus)
    {
      searchQuery := text;
    }

    /**
     * `handleSearch`. A blank query only sets the error and never reaches the
     * gateway. Otherwise the error, the results and the computed figures are
     * cleared, the (untrimmed) query is sent, and the answer decides: a thrown
     * error or an empty list sets an error; a non-empty list is shown and the
     * query is recorded in the recent list.
     */
    method Search(query: string, gateway: string -> GatewayAnswer) returns (sent: seq<string>)
      requires Valid()
      modifies this
      ensures Valid()
      ensures Inputs() == old(Inputs()) && searchQuery == old(searchQuery)
      ensures IsBlank(query) ==>
        && sent == []
        && searchError == Some(BlankQuery)
        && searchResults == old(searchResults)
        && recentSearches == old(recentSearches)
        && NoResults() == old(NoResults()) && (old(HasResults()) ==> HasResults() && Shown() == old(Shown()))
        && shareStatus == old(shareStatus)
      ensures !IsBlank(query) ==> sent == [query] && NoResults() && shareStatus == None
      ensures !IsBlank(query) && gateway(query).Thrown? ==>
        && searchError == Some(FailureFor(gateway(query).message))
        && searchResults == []
        && recentSearches == old(recentSearches)
      ensures !IsBlank(query) && gateway(query) == Cars([]) ==>
        && searchError == Some(NoMatchingCars)
        && searchResults == []
        && recentSearches == old(recentSearches)
      ensures !IsBlank(query) && gateway(query).Cars? && gateway(query).cars != [] ==>
        && searchError == None
        && searchResults == gateway(query).cars
        && recentSearches == RecordSearch(old(recentSearches), query)
    {
      if IsBlank(query) {
        searchError := Some(BlankQuery);
        sent := [];
        return;
      }
      searchError := None;
      ResetCalculationResults();
      searchResults := [];

      sent := [query];
      var answer := gateway(query);
      match answer {
        case Thrown(message) =>
          searchError := Some(FailureFor(message));
        case Cars(cars) =>
          if |cars| == 0 {
            searchError := Some(NoMatchingCars);
          } else {
            searchResults := cars;
            RecordSearchKeepsNoCaseDuplicates(recentSearches, query);
            recentSearches := RecordSearch(recentSearches, query);
          }
      }
    }

    /** `handleRecentSearchClick`: puts the entry in the search box and searches for it. */
    method RecentSearchClick(query: string, gateway: string -> GatewayAnswer) returns (sent: seq<string>)
      requires Valid()
      modifies this
      ensures Valid()
      ensures searchQuery == query && Inputs() == old(Inputs())
      ensures IsBlank(query) ==>
        && sent == []
        && searchError == Some(BlankQuery)
        && searchResults == old(searchResults)
        && recentSearches == old(recentSearches)
        && NoResults() == old(NoResults()) && (old(HasResults()) ==> HasResults() && Shown() == old(Shown()))
        && shareStatus == old(shareStatus)
      ensures !IsBlank(query) ==> sent == [query] && NoResults() && shareStatus == None
      ensures !IsBlank(query) && gateway(query).Thrown? ==>
        && searchError == Some(FailureFor(gateway(query).message))
        && searchResults == []
        && recentSearches == old(recentSearches)
      ensures !IsBlank(query) && gateway(query) == Cars([]) ==>
        && searchError == Some(NoMatchingCars)
        && searchResults == []
        && recentSearches == old(recentSearches)
      ensures !IsBlank(query) && gateway(query).Cars? && gateway(query).cars != [] ==>
        && searchError == None
        && searchResults == gateway(query).cars
        && recentSearches == RecordSearch(old(recentSearches), query)
    {
      searchQuery := query;
      sent := Search(query, gateway);
    }

    /**
     * `handleCarSelect`: the chosen car's price fills the price field, the
     * amount is re-derived from the percent only when that is a non-negative
     * number (there is no price check and the amount is never cleared here),
     * and the search results are hidden.
     */
    method SelectCar(price: real)
      requires Valid()
      modifies this
      ensures Valid()
      ensures carPrice == Some(price)
      ensures downPayment == SelectedAmount(price, old(downPaymentPercent), old(downPayment))
      ensures downPaymentPercent == old(downPaymentPercent)
      ensures interestRate == old(interestRate) && loanTerm == old(loanTerm)
      ensures NoResults() && shareStatus == None
      ensures searchResults == []
      ensures searchQuery == old(searchQuery) && searchError == old(searchError)
      ensures recentSearches == old(recentSearches)
    {
      carPrice := Some(price);
      ResetCalculationResults();
      downPayment := SelectedAmount(price, downPaymentPercent, downPayment);
      searchResults := [];
    }

    /** `handleCarPriceChange`: stores the price and re-derives (or clears) the amount. */
    method EditCarPrice(value: Option<real>)
      requires Valid()
      modifies this
      ensures Valid()
      ensures Inputs() == old(Inputs()).(carPrice := value, downPayment := DerivedAmount(value, old(downPaymentPercent)))
      ensures NoResults() && shareStatus == None
      ensures searchQuery == old(searchQuery) && searchError == old(searchError)
      ensures searchResults == old(searchResults) && recentSearches == old(recentSearches)
    {
      carPrice := value;
      ResetCalculationResults();
      downPayment := DerivedAmount(value, downPaymentPercent);
    }

    /** `handleDownPaymentAmountChange`: stores the amount and re-derives (or clears) the percent. */
    method EditDownPaymentAmount(value: Option<real>)
      requires Valid()
      modifies this
      ensures Valid()
      ensures Inputs() == old(Inputs()).(downPayment := value, downPaymentPercent := DerivedPercent(old(carPrice), value))
      ensures NoResults() && shareStatus == None
      ensures searchQuery == old(searchQuery) && searchError == old(searchError)
      ensures searchResults == old(searchResults) && recentSearches == old(recentSearches)
    {
      downPayment := value;
      ResetCalculationResults();
      downPaymentPercent := DerivedPercent(carPrice, value);
    }

    /** `handleDownPaymentPercentChange`: stores the percent and re-derives (or clears) the amount. */
    method EditDownPaymentPercent(value: Option<real>)
      requires Valid()
      modifies this
      ensures Valid()
      ensures Inputs() == old(Inputs()).(downPaymentPercent := value, downPayment := DerivedAmount(old(carPrice), value))
      ensures NoResults() && shareStatus == None
      ensures searchQuery == old(searchQuery) && searchError == old(searchError)
      ensures searchResults == old(searchResults) && recentSearches == old(recentSearches)
    {
      downPaymentPercent := value;
      ResetCalculationResults();
      downPayment := DerivedAmount(carPrice, value);
    }

    /** The interest-rate field's change handler. */
    method EditInterestRate(value: Option<real>)
      requires Valid()
      modifies this
      ensures Valid()
      ensures Inputs() == old(Inputs()).(interestRate := value)
      ensures NoResults() && shareStatus == None
      ensures searchQuery == old(searchQuery) && searchError == old(searchError)
      ensures searchResults == old(searchResults) && recentSearches == old(recentSearches)
    {
      interestRate := value;
      ResetCalculationResults();
    }

    /** One of the four loan-term buttons. */
    method SelectLoanTerm(years: nat)
      requires Valid() && years in LoanTerms
      modifies this
      ensures Valid()
      ensures Inputs() == old(Inputs()).(loanTerm := years)
      ensures NoResults() && shareStatus == None
      ensures searchQuery == old(searchQuery) && searchError == old(searchError)
      ensures searchResults == old(searchResults) && recentSearches == old(recentSearches)
    {
      loanTerm := years;
      ResetCalculationResults();
    }

    /**
     * `handleCalculateClick`. Returns the alert raised, if any. A rejected
     * input changes nothing; otherwise the five result fields receive the
     * figures for the current inputs. While a result is displayed the
     * inputs are the ones it was computed from, so calculating again is
     * accepted and changes nothing.
     */
    method Calculate() returns (alert: Option<CalcError>)
      requires Valid()
      modifies this
      ensures Valid()
      ensures var e := Evaluate(old(carPrice), old(downPayment), old(interestRate), old(loanTerm));
        && (e.Failure? ==> alert == Some(e.error) && unchanged(this))
        && (e.Success? ==> alert == None && HasResults() && Shown() == e.value)
      ensures Inputs() == old(Inputs()) && shareStatus == old(shareStatus)
      ensures searchQuery == old(searchQuery) && searchError == old(searchError)
      ensures searchResults == old(searchResults) && recentSearches == old(recentSearches)
      ensures old(HasResults()) ==> alert == None && unchanged(this)
    {
      var price := carPrice;
      var interest := interestRate;
      if !(price.Some? && price.value > 0.0) {
        alert := Some(InvalidPrice);
        return;
      }
      var dp := DownPaymentAmount(downPayment);
      if dp >= price.value {
        alert := Some(DownPaymentNotBelowPrice);
        return;
      }
      if !(interest.Some? && interest.value >= 0.0) {
        alert := Some(InvalidInterestRate);
        return;
      }
      var principal := price.value - dp;
      var s := Amortize(principal, interest.value, loanTerm);
      monthlyInstallment := Some(s.installment);
      totalInterest := Some(s.totalInterest);
      totalPayment := Some(s.totalPayment);
      financedAmount := Some(principal);
      calculatedDownPayment := Some(dp);
      alert := None;
    }
  }
}
