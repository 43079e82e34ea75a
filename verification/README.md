# Car finance calculator — a verified model

This project models the logic of a browser-based car-financing calculator for
the Thai market. A user types a car model, an AI-backed search gateway proposes
vehicles with estimated prices, the user picks one, and the calculator works
out a fixed-rate loan: monthly installment, total interest and total payment
from the car price, the down payment, the annual interest rate and a term of
4 to 7 years. All of this logic lives in one React component, `App.tsx`.

The model has these parts:

- `Text` (`text.dfy`): ECMAScript `trim`, with its full set of whitespace and
  line-terminator code points, and the case-insensitive comparison
  `a.toLowerCase() === b.toLowerCase()`.
- `RecentSearches` (`recent_searches.dfy`): the recent-search list. Each
  successful search puts the trimmed query first, drops every older entry
  equal to it ignoring case, and keeps at most 5 entries.
- `Amortization` (`amortization.dfy`): the annuity formula over exact reals.
  `Pow` is defined by recursion. The model proves that `(1 + r)^n > 1`, so the
  divisor is never zero. It also proves that paying the installment every
  month brings the balance to exactly zero after `n` months, and that the
  total interest is never negative.
- `DownPayment` (`down_payment.dfy`): the down-payment synchronizer. It
  models `toFixed(0)` as rounding to the nearest integer, with ties going
  away from zero, and `toFixed(2)` as the same rounding at a hundredth. It
  gives the three re-derivation rules, and round-trip bounds between the
  amount and the percent.
- `Calculation` (`calculation.dfy`): the calculate action. It checks the
  price, then the down payment, then the rate. On success it hands the
  financed amount to the engine.
- `CarFinanceApp` (`app.dfy`): the component state as a class `App`. It has
  one field per `useState` and one method per event handler. Each method
  states the whole new state. The class invariant `Valid()` says that the
  recent list never holds two entries equal ignoring case, and that a
  displayed result always equals what calculating from the current inputs
  gives, so a result is never stale.
- `Scenarios` (`scenarios.dfy`): worked examples. They include the
  "Toyota Yaris / Honda Civic" history and the 1,000,000 / 25 % round trip,
  plus a zero-rate loan and a client session on `App`.

Modelling choices:

- The text inputs are modelled by their parsed value, `Option<real>`. `None`
  stands for an empty or unparseable field (NaN). The handlers the model
  covers read these fields only through `parseFloat`. Elsewhere the raw text
  is only rendered or copied into the share summary (App.tsx:219-226), and
  neither is modelled. The one exception is the down
  payment, which is read as `parseFloat(downPayment) || 0`
  (`Calculation.DownPaymentAmount`): an empty field counts as 0, and a
  negative amount is kept. Nothing later rejects a negative down payment, so
  the financed amount can exceed the price
  (`Calculation.NegativeDownPaymentRaisesPrincipal`).
- The search gateway is a parameter `string -> GatewayAnswer`: either a list
  of cars or a thrown error with its message. `App.Search` returns the
  queries it sent, so "a blank query never reaches the gateway" is part of
  its contract. The gateway receives the untrimmed query. The recent list
  stores the trimmed one.
- Behaviour of the code worth noting:
  - A price edit re-derives the amount only when the price is positive *and*
    the percent is a non-negative number.
  - Picking a car re-derives the amount whenever the percent is a
    non-negative number. There is no price check, and the amount is never
    cleared.
  - The percent is bounded (0–80) only by the slider widget; the handler
    accepts any number.
  - The down payment may be negative; no check rejects it.
  - The blank-query check is in the search handler; the list update itself
    does not test for a blank query.
- A failed validation never meets a displayed result: while one is shown,
  the inputs are the ones it was computed from, so calculating again is
  accepted and changes nothing (`App.Calculate`).

## Model

| member | source | states |
|---|---|---|
| `Text.Trim` | App.tsx:77 | the result is the input minus its leading and trailing whitespace: the input is whitespace, then the result, then whitespace; the result neither starts nor ends with whitespace; it is empty exactly when the input is all whitespace |
| `Text.IsBlank` | App.tsx:61 | `!query.trim()` holds exactly when the query is empty or all whitespace |
| `Text.Lower` | App.tsx:78 | `toLowerCase` keeps the length and folds each character separately, A–Z to a–z |
| `Text.SameIgnoringCaseCharwise` | App.tsx:78 | two strings match ignoring case exactly when they have the same length and agree position by position after folding |
| `Text.TrimIdempotent` | App.tsx:77 | trimming a trimmed query changes nothing |
| `RecentSearches.DropMatches` | App.tsx:78 | a string is in the result exactly when it is in the input and differs from the key ignoring case; the result is a subsequence of the input (original order) |
| `RecentSearches.DropMatchesCounts` | App.tsx:78 | `filter` keeps every copy: each string occurs as often as in the input, or not at all if it matches the key |
| `RecentSearches.RecordSearch` | App.tsx:76-83 | length between 1 and 5; head is the trimmed query; the tail is exactly the first min(4, survivors) old entries that differ from the query ignoring case, in their old order (so the oldest are evicted), none equal to the head ignoring case; when the list is not full, every surviving old entry is kept |
| `RecentSearches.RecordSearchKeepsNoCaseDuplicates` | App.tsx:78-80 | a list without case-insensitive duplicates stays without them |
| `RecentSearches.RecordSearchIdempotent` | App.tsx:76-83 | searching the same query twice in a row gives the same list as once |
| `RecentSearches.SubsequenceKeepsNoCaseDuplicates` | App.tsx:78 | filtering entries out of a list cannot create a case-insensitive duplicate |
| `Amortization.MonthlyRate` | App.tsx:132 | the monthly rate times 1200 is the annual percent; it is zero exactly when the annual rate is, and non-negative for a non-negative rate |
| `Amortization.Periods` | App.tsx:133 | the number of months is a whole number of years: divisible by 12, with quotient the term |
| `Amortization.PowAboveOne` | App.tsx:144-145 | (1 + r)^n > 1 for r > 0 and n >= 1, so the annuity divisor is non-zero |
| `Amortization.Installment` | App.tsx:135-145 | without interest installment * n = principal; with monthly rate r > 0 the installment satisfies m * ((1+r)^n - 1) = principal * r * (1+r)^n |
| `Amortization.Amortize` | App.tsx:131-155 | total payment = installment * (term * 12); total interest = total payment - principal; at 0 % the interest is 0 and the total payment is the principal |
| `Amortization.BalanceClosedForm` | App.tsx:143-145 | closed form of the month-by-month loan balance, the induction behind the repayment property |
| `Amortization.InstallmentRepaysLoan` | App.tsx:135-145 | paying the computed installment every month for n months leaves a balance of exactly zero |
| `Amortization.GrowthBound` | App.tsx:144-145 | (1 + r)^n - 1 <= n * r * (1 + r)^n for r >= 0 |
| `Amortization.InstallmentsCoverPrincipal` | App.tsx:143-148 | for a non-negative principal, installment * n >= principal, so the total interest is never negative |
| `DownPayment.RoundToInteger` | App.tsx:168 | `toFixed(0)`: the unique integer in (x - 1/2, x + 1/2] for x >= 0 and in [x - 1/2, x + 1/2) for x < 0 |
| `DownPayment.RoundToCents` | App.tsx:184 | `toFixed(2)` read back: a whole number of hundredths, namely `toFixed(0)` of 100x divided by 100, so within 0.005 of x |
| `DownPayment.RoundedShare` | App.tsx:167-168 | `toFixed(0)` of price * percent / 100: the whole amount in (s - 1/2, s + 1/2] for a share s >= 0, in [s - 1/2, s + 1/2) for s < 0, so a tie goes away from zero |
| `DownPayment.DerivedAmount` | App.tsx:163-171 | an amount exactly when the price is positive and the percent a non-negative number, and then the rounded share; cleared otherwise |
| `DownPayment.DerivedPercent` | App.tsx:179-187 | a percent exactly when the price is positive and the amount a non-negative number, and then the two-decimal rounding (`RoundToCents`) of amount / price * 100, within 0.005 of it; cleared otherwise |
| `DownPayment.SelectedAmount` | App.tsx:103-107 | keeps the current amount unless the percent is a non-negative number; then exactly the rounded share (`RoundedShare`), whatever the price; agrees with the edit rule when the price is positive |
| `DownPayment.PercentRoundTrip` | App.tsx:182-200 | percent -> amount -> percent returns the percent within 50 / price + 0.005 |
| `DownPayment.AmountRoundTrip` | App.tsx:182-200 | amount -> percent -> amount returns the amount within 0.5 + price / 20000 |
| `Calculation.DownPaymentAmount` | App.tsx:47-49 | `parseFloat(downPayment) \|\| 0`: non-zero exactly when the field holds a non-zero number, and then that number (a negative one included) |
| `Calculation.Evaluate` | App.tsx:114-156 | rejects, in this order, a missing or non-positive price, a down payment >= price, a missing or negative rate (each iff its condition); on success financed = price - down payment > 0, the recorded down payment is `parseFloat(...) \|\| 0`, total = installment * months, interest = total - financed >= 0, zero rate gives zero interest, and the installment repays the loan |
| `Calculation.NegativeDownPaymentRaisesPrincipal` | App.tsx:122-131 | a negative down payment passes validation and finances more than the car price |
| `CarFinanceApp.FailureFor` | App.tsx:87 | `error.message \|\| generic`: the thrown message when it is non-empty, the generic failure otherwise |
| `CarFinanceApp.App.constructor` | App.tsx:12-29 | the initial state: empty search, no price or amount, 25 %, 5 %, 5 years, no results |
| `CarFinanceApp.App.ResetCalculationResults` | App.tsx:51-58 | clears the five result fields and the share status and nothing else |
| `CarFinanceApp.App.EditSearchQuery` | App.tsx:274 | only the search box text changes |
| `CarFinanceApp.App.Search` | App.tsx:60-91 | blank query: only the error is set, nothing sent; otherwise results and figures cleared, the query sent once, then: thrown error -> its message (or the generic one), list unchanged; empty list -> "no matches", list unchanged; cars -> shown and the list becomes `RecordSearch` of the old one; calculator inputs never change |
| `CarFinanceApp.App.RecentSearchClick` | App.tsx:93-96 | the query fills the search box; every other field follows `Search` case by case (blank, thrown, empty, cars), including the error, the results, the figures and the share status |
| `CarFinanceApp.App.SelectCar` | App.tsx:98-112 | price set, amount per `SelectedAmount`, percent, rate and term unchanged, results cleared, search results hidden |
| `CarFinanceApp.App.EditCarPrice` | App.tsx:158-172 | price stored as given, amount per `DerivedAmount` from the old percent, other inputs unchanged, results cleared |
| `CarFinanceApp.App.EditDownPaymentAmount` | App.tsx:174-188 | amount stored as given, percent per `DerivedPercent` from the old price, other inputs unchanged, results cleared |
| `CarFinanceApp.App.EditDownPaymentPercent` | App.tsx:190-204 | percent stored as given, amount per `DerivedAmount` from the old price, other inputs unchanged, results cleared |
| `CarFinanceApp.App.EditInterestRate` | App.tsx:366 | rate stored, results cleared, nothing else changes |
| `CarFinanceApp.App.SelectLoanTerm` | App.tsx:372-373 | term stored, results cleared, nothing else changes |
| `CarFinanceApp.App.Calculate` | App.tsx:114-156 | on rejection returns the first failing check and changes nothing; on success the result fields equal `Evaluate` of the inputs and nothing else changes; while a result is displayed it is never rejected |
| `Scenarios.RecentSearchesExample` | App.tsx:76-83 | "Toyota Yaris", "Honda Civic", "Toyota Yaris" leaves ["Toyota Yaris", "Honda Civic"] |
| `Scenarios.SynchronizerExample` | App.tsx:163-187 | price 1,000,000 at 25 % gives 250,000; 250,000 gives back 25 % |
| `Scenarios.ZeroRateExample` | App.tsx:131-141 | 800,000 with 200,000 down at 0 % over 5 years: 10,000 a month, 600,000 in total, no interest |
| `Scenarios.DownPaymentEqualToPriceExample` | App.tsx:122-125 | a down payment equal to the price is rejected as such, before the rate is checked |

## Left out

- Loading the recent list from `localStorage` at start-up and saving it after each update (App.tsx:32-45, 81) are browser I/O. The model starts from an empty list.
- The share action, the clipboard, `setTimeout` and the share status messages (App.tsx:214-249) are platform side effects. The model keeps only the fact that every reset clears the share status.
- The `alert` texts and `scrollIntoView` (App.tsx:110-111, 119-128) are platform side effects. The model records only which alert was raised.
- Currency and number formatting with `Intl.NumberFormat` (App.tsx:206-212, components/CarResultCard.tsx:12-19) is locale library behaviour. So is the `.replace(/\.00$/, '')` string clean-up (App.tsx:184), which does not change the parsed value.
- The `isSearching` flag (App.tsx:13, 65, 89) and races between searches still in flight are left out. Each search is modelled as one atomic step.
- The gateway's own implementation in services/geminiService.ts (API key check, prompt, response schema, JSON parsing, its error messages) is a network call. It is modelled only as a function from a query to a list of cars or a thrown message. Nothing in the code bounds that list to 5 cars.
- IEEE-754 floating point, `Math.pow` rounding, `parseFloat` prefix parsing and `toFixed`'s exponent notation for values of 1e21 and above are left out. The model works over exact reals, and each field is modelled by its parsed value.
- `Text.Lower` folds only the ASCII letters A–Z. `toLowerCase` also maps other Unicode letters, which the model leaves out. Thai script has no case.
- components/ConfirmationDialog.tsx, components/CarResultCard.tsx and components/icons/ShareIcon.tsx are presentation with no logic. The card only passes the car's price to `App.SelectCar`.
