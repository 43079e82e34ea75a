/**
 * The down-payment synchronizer: the amount and the percentage of the car
 * price are kept aligned; whichever field the user edits drives the other.
 */
module DownPayment {
  import opened Wrappers

  function Abs(x: real): real
  {
    if x < 0.0 then -x else x
  }

  /**
   * The integer that `x.toFixed(0)` prints: the nearest integer, a tie going
   * away from zero (toFixed rounds the magnitude half up and keeps the sign).
   */
  function RoundToInteger(x: real): (n: int)
    ensures x >= 0.0 ==> x - 0.5 < n as real <= x + 0.5
    ensures x < 0.0 ==> x - 0.5 <= n as real < x + 0.5
  {
    if x >= 0.0 then (x + 0.5).Floor else -((-x + 0.5).Floor)
  }

  lemma RoundToIntegerClose(x: real)
    ensures Abs(RoundToInteger(x) as real - x) <= 0.5
  {
  }

  lemma RoundToIntegerOfInteger(k: int)
    ensures RoundToInteger(k as real) == k
  {
  }

  /** The value that `x.toFixed(2)` prints (the `.00` suffix removal does not change it). */
  function RoundToCents(x: real): (c: real)
    ensures c * 100.0 == RoundToInteger(x * 100.0) as real
    ensures Abs(c - x) <= 0.005
  {
    var n := RoundToInteger(x * 100.0);
    RoundToIntegerClose(x * 100.0);
    n as real / 100.0
  }

  /** A parsed field that holds a number (`!isNaN(v)`) at least `bound`. */
  predicate AtLeast(v: Option<real>, bound: real)
  {
    v.Some? && v.value >= bound
  }

  /** A parsed price field that holds a positive number. */
  predicate PositivePrice(price: Option<real>)
  {
    price.Some? && price.value > 0.0
  }

  /** `(price * percent / 100).toFixed(0)` read back as a number: a whole amount within half a unit of the exact share. */
  function RoundedShare(price: real, percent: real): (a: real)
    ensures a == a.Floor as real
    ensures Abs(a - price * percent / 100.0) <= 0.5
    ensures price * percent / 100.0 >= 0.0 ==> a >= 0.0
    ensures var exact := price * percent / 100.0;
      exact >= 0.0 ==> exact - 0.5 < a <= exact + 0.5
    ensures var exact := price * percent / 100.0;
      exact < 0.0 ==> exact - 0.5 <= a < exact + 0.5
  {
    var exact := price * percent / 100.0;
    RoundToIntegerClose(exact);
    RoundToInteger(exact) as real
  }

  /**
   * The amount field after a price or percent edit: `(price * percent / 100).toFixed(0)`
   * when the price is positive and the percent non-negative, cleared otherwise.
   */
  function DerivedAmount(price: Option<real>, percent: Option<real>): (a: Option<real>)
    ensures a.Some? <==> PositivePrice(price) && AtLeast(percent, 0.0)
    ensures a.Some? ==> a.value >= 0.0 && a.value == RoundedShare(price.value, percent.value)
  {
    if PositivePrice(price) && AtLeast(percent, 0.0) then
      assert price.value * percent.value / 100.0 >= 0.0;
      Some(RoundedShare(price.value, percent.value))
    else None
  }

  /**
   * The percent field after an amount edit: `(amount / price * 100).toFixed(2)`
   * when the price is positive and the amount non-negative, cleared otherwise.
   */
  function DerivedPercent(price: Option<real>, amount: Option<real>): (p: Option<real>)
    ensures p.Some? <==> PositivePrice(price) && AtLeast(amount, 0.0)
    ensures p.Some? ==> p.value >= 0.0 && p.value == RoundToCents(amount.value / price.value * 100.0)
    ensures p.Some? ==> Abs(p.value - amount.value / price.value * 100.0) <= 0.005
  {
    if PositivePrice(price) && AtLeast(amount, 0.0) then
      Some(RoundToCents(amount.value / price.value * 100.0))
    else None
  }

  /**
   * The amount field after a car is picked from the search results: re-derived
   * from the percent when that is a non-negative number, whatever the price;
   * left as it was otherwise.
   */
  function SelectedAmount(price: real, percent: Option<real>, current: Option<real>): (a: Option<real>)
    ensures !AtLeast(percent, 0.0) ==> a == current
    ensures AtLeast(percent, 0.0) ==> a == Some(RoundedShare(price, percent.value))
    ensures AtLeast(percent, 0.0) ==> a.Some? && Abs(a.value - price * percent.value / 100.0) <= 0.5
    ensures price > 0.0 ==> a == (if AtLeast(percent, 0.0) then DerivedAmount(Some(price), percent) else current)
  {
    if AtLeast(percent, 0.0) then Some(RoundedShare(price, percent.value)) else current
  }

  /**
   * Deriving the amount from a percent and then the percent back from that amount
   * returns the percent to within the rounding of both steps.
   */
  lemma PercentRoundTrip(price: real, percent: real)
    requires price > 0.0 && percent >= 0.0
    ensures var back := DerivedPercent(Some(price), DerivedAmount(Some(price), Some(percent)));
      back.Some? && Abs(back.value - percent) <= 50.0 / price + 0.005
  {
    var a := DerivedAmount(Some(price), Some(percent)).value;
    var back := DerivedPercent(Some(price), Some(a)).value;
    var exact := price * percent / 100.0;
    assert Abs(a - exact) <= 0.5 by { assert a == RoundedShare(price, percent); }
    ScaledDistance(a, exact, 100.0 / price, 0.5);
    assert a / price * 100.0 == a * (100.0 / price);
    assert percent == exact * (100.0 / price);
    assert 0.5 * (100.0 / price) == 50.0 / price;
    assert Abs(back - a / price * 100.0) <= 0.005;
    assert Abs(a / price * 100.0 - percent) <= 50.0 / price;
    Triangle(back, a / price * 100.0, percent);
  }

  /**
   * Deriving the percent from an amount and then the amount back from that percent
   * returns the amount to within the rounding of both steps.
   */
  lemma AmountRoundTrip(price: real, amount: real)
    requires price > 0.0 && amount >= 0.0
    ensures var back := DerivedAmount(Some(price), DerivedPercent(Some(price), Some(amount)));
      back.Some? && Abs(back.value - amount) <= 0.5 + price / 20000.0
  {
    var pc := DerivedPercent(Some(price), Some(amount)).value;
    assert DerivedPercent(Some(price), Some(amount)) == Some(pc);
    var back := DerivedAmount(Some(price), Some(pc)).value;
    assert Abs(back - price * pc / 100.0) <= 0.5 by { assert back == RoundedShare(price, pc); }
    ShareOfRoundedPercent(price, amount, pc);
    Triangle(back, price * pc / 100.0, amount);
  }

  /** A percent within 0.005 of the exact one gives a share within price / 20000 of the amount. */
  lemma ShareOfRoundedPercent(price: real, amount: real, pc: real)
    requires price > 0.0 && Abs(pc - amount / price * 100.0) <= 0.005
    ensures Abs(price * pc / 100.0 - amount) <= price / 20000.0
  {
    assert price * (amount / price * 100.0) / 100.0 == amount;
    ScaledDistance(pc, amount / price * 100.0, price / 100.0, 0.005);
    assert pc * (price / 100.0) == price * pc / 100.0;
    assert amount / price * 100.0 * (price / 100.0) == amount;
    assert 0.005 * (price / 100.0) == price / 20000.0;
  }

  /** Scaling two values by a positive factor scales their distance by the same factor. */
  lemma ScaledDistance(x: real, y: real, k: real, d: real)
    requires k > 0.0 && Abs(x - y) <= d
    ensures Abs(x * k - y * k) <= d * k
  {
    assert x * k - y * k == (x - y) * k;
    if x - y < 0.0 {
      assert Abs(x * k - y * k) == (y - x) * k;
    }
  }

  lemma Triangle(x: real, y: real, z: real)
    ensures Abs(x - z) <= Abs(x - y) + Abs(y - z)
  {
  }
}
