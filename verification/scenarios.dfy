/** Worked examples of the calculator's behaviour, derived from the contracts of the other modules. */
module Scenarios {
  import opened Wrappers
  import opened Text
  import opened RecentSearches
  import opened DownPayment
  import opened Calculation
  import opened CarFinanceApp

  /** Searching "Toyota Yaris", "Honda Civic", then "Toyota Yaris" again. */
  lemma RecentSearchesExample()
    ensures RecordSearch(RecordSearch(RecordSearch([], "Toyota Yaris"), "Honda Civic"), "Toyota Yaris")
      == ["Toyota Yaris", "Honda Civic"]
  {
    FirstSearch();
    SecondSearch();
    RepeatedSearch();
  }

  lemma FirstSearch()
    ensures RecordSearch([], "Toyota Yaris") == ["Toyota Yaris"]
  {
    TrimUntouched("Toyota Yaris");
  }

  lemma SecondSearch()
    ensures RecordSearch(["Toyota Yaris"], "Honda Civic") == ["Honda Civic", "Toyota Yaris"]
  {
    TrimUntouched("Honda Civic");
    YarisCivicDiffer();
    RecordDistinct("Toyota Yaris", "Honda Civic");
  }

  lemma RepeatedSearch()
    ensures RecordSearch(["Honda Civic", "Toyota Yaris"], "Toyota Yaris") == ["Toyota Yaris", "Honda Civic"]
  {
    TrimUntouched("Toyota Yaris");
    YarisCivicDiffer();
    RecordRepeated("Honda Civic", "Toyota Yaris");
  }

  lemma RecordDistinct(a: string, b: string)
    requires Trim(b) == b && !SameIgnoringCase(a, b)
    ensures RecordSearch([a], b) == [b, a]
  {
    assert DropMatches([a], b) == [a];
    var r := RecordSearch([a], b);
    assert |r| == 2 && r[0] == b;
    assert r[1..] == [a];
    assert r == [r[0]] + r[1..];
  }

  lemma RecordRepeated(a: string, b: string)
    requires Trim(b) == b && !SameIgnoringCase(a, b)
    ensures RecordSearch([a, b], b) == [b, a]
  {
    assert [a, b][1..] == [b];
    assert SameIgnoringCase(b, b);
    assert DropMatches([b], b) == [];
    assert DropMatches([a, b], b) == [a];
    var r := RecordSearch([a, b], b);
    assert |r| == 2 && r[0] == b;
    assert r[1..] == [a];
    assert r == [r[0]] + r[1..];
  }

  lemma YarisCivicDiffer()
    ensures !SameIgnoringCase("Honda Civic", "Toyota Yaris")
  {
    assert Lower("Toyota Yaris")[0] != Lower("Honda Civic")[0];
  }

  /** A price of 1,000,000 at 25 percent gives 250,000, and 250,000 gives back 25 percent. */
  lemma SynchronizerExample()
    ensures DerivedAmount(Some(1000000.0), Some(25.0)) == Some(250000.0)
    ensures DerivedPercent(Some(1000000.0), Some(250000.0)) == Some(25.0)
  {
    RoundToIntegerOfInteger(250000);
    RoundToIntegerOfInteger(2500);
  }

  /** 800,000 with 200,000 down at 0 percent over 5 years: 10,000 a month, no interest. */
  lemma ZeroRateExample()
    ensures Evaluate(Some(800000.0), Some(200000.0), Some(0.0), 5)
      == Success(LoanResult(10000.0, 0.0, 600000.0, 600000.0, 200000.0))
  {
  }

  /** A down payment equal to the price is rejected before the interest rate is looked at. */
  lemma DownPaymentEqualToPriceExample()
    ensures Evaluate(Some(800000.0), Some(800000.0), None, 5) == Failure(DownPaymentNotBelowPrice)
  {
  }

  /** A session on the screen: search, pick a car, set a zero rate, calculate. */
  method Session()
  {
    var app := new App();
    var noCars := (q: string) => Cars([]);
    var sent := app.Search("   ", noCars);
    assert IsBlank("   ") by { assert AllWhitespace("   "); }
    assert sent == [] && app.searchError == Some(BlankQuery);

    var car := CarInfo("Toyota", "Yaris", "", 800000.0, None, None);
    var oneCar := (q: string) => Cars([car]);
    assert !IsBlank("Yaris") by { assert !IsWhitespace("Yaris"[0]); }
    sent := app.Search("Yaris", oneCar);
    assert sent == ["Yaris"] && app.searchResults == [car];
    assert |app.recentSearches| == 1;

    app.SelectCar(800000.0);
    assert app.downPayment == Some(200000.0) by { RoundToIntegerOfInteger(200000); }
    app.EditInterestRate(Some(0.0));
    var alert := app.Calculate();
    ZeroRateExample();
    assert alert == None;
    assert app.monthlyInstallment == Some(10000.0);
    assert app.totalInterest == Some(0.0);
  }
}
