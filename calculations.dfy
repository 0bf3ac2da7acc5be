/**
 * The valuation engine of utils/calculations.ts: the Gordon Growth
 * (Dividend Discount) Model with three margin-of-safety tiers and the
 * number of whole shares the per-company allocation buys at each tier.
 */
module Calculations {
  import opened Types

  /** g: the growth percentage as a fraction. */
  function GrowthRate(stock: Stock): real {
    stock.growth / 100.0
  }

  /** r: the required-return percentage as a fraction. */
  function RequiredRate(stock: Stock): real {
    stock.requiredReturn / 100.0
  }

  /** An unusable valuation: only d1 survives, every price and share count is 0. */
  function Invalid(d1: real, reason: Reason): (r: CalculationResult)
    ensures !r.isValid && r.errorReason == Some(reason) && r.d1 == d1
    ensures r.yieldForecast == None && r.ddmPrice == 0.0
    ensures r.mos30 == 0.0 && r.mos40 == 0.0 && r.mos50 == 0.0
    ensures r.maxShares30 == 0 && r.maxShares40 == 0 && r.maxShares50 == 0
  {
    CalculationResult(d1, None, 0.0, 0.0, 0.0, 0.0, 0, 0, 0, false, Some(reason))
  }

  /** `money / mos` is bracketed by two consecutive whole numbers of shares. */
  lemma FloorDivBounds(money: real, mos: real)
    requires mos > 0.0
    ensures ((money / mos).Floor as real) * mos <= money < ((money / mos).Floor as real + 1.0) * mos
  {
    var q := money / mos;
    var n := q.Floor as real;
    assert q * mos == money;
    assert n <= q < n + 1.0;
    MulMonotone(n, q, mos);
    MulStrictMonotone(q, n + 1.0, mos);
    assert money < (n + 1.0) * mos;
  }

  lemma MulMonotone(x: real, y: real, c: real)
    requires x <= y && c > 0.0
    ensures x * c <= y * c
  {
  }

  lemma MulStrictMonotone(x: real, y: real, c: real)
    requires x < y && c > 0.0
    ensures x * c < y * c
  {
  }

  /**
   * What `maxShares` promises about one tier: with a positive tier price it
   * is the largest whole number of shares the money can pay for, otherwise 0.
   */
  predicate SharesFor(money: real, mos: real, shares: int) {
    if mos > 0.0 then (shares as real) * mos <= money < (shares as real + 1.0) * mos
    else shares == 0
  }

  /** `Math.floor(money / mos)` when the tier price is positive, else 0 (calculations.ts:65-67). */
  function MaxShares(money: real, mos: real): (n: int)
    ensures SharesFor(money, mos, n)
  {
    if mos > 0.0 then FloorDivBounds(money, mos); (money / mos).Floor else 0
  }

  /** `calculateDDM(stock, moneyPerCompany)`. */
  function CalculateDDM(stock: Stock, moneyPerCompany: real): (r: CalculationResult)
    // the forecast yield is declared but never produced
    ensures r.yieldForecast == None
    // no dividend: nothing else matters
    ensures stock.dividendBaht <= 0.0 ==> r == Invalid(0.0, NoDiv)
    // with a dividend, D1 = D0 (1 + g), valid or not
    ensures stock.dividendBaht > 0.0 ==> r.d1 == stock.dividendBaht * (1.0 + GrowthRate(stock))
    // validity and the reason that goes with its absence
    ensures r.isValid <==> stock.dividendBaht > 0.0 && RequiredRate(stock) > GrowthRate(stock)
    ensures r.isValid <==> r.errorReason == None
    ensures stock.dividendBaht > 0.0 && RequiredRate(stock) <= GrowthRate(stock) ==>
      r == Invalid(r.d1, RateNotAboveGrowth)
    // P is the present value of the growing perpetuity: P (r - g) = D1
    ensures r.isValid ==> r.ddmPrice * (RequiredRate(stock) - GrowthRate(stock)) == r.d1
    ensures r.isValid ==> r.mos30 == 0.7 * r.ddmPrice && r.mos40 == 0.6 * r.ddmPrice && r.mos50 == 0.5 * r.ddmPrice
    ensures r.ddmPrice >= 0.0 ==> r.mos50 <= r.mos40 <= r.mos30 <= r.ddmPrice
    // each share count is what the allocation buys at that tier
    ensures SharesFor(moneyPerCompany, r.mos30, r.maxShares30)
    ensures SharesFor(moneyPerCompany, r.mos40, r.maxShares40)
    ensures SharesFor(moneyPerCompany, r.mos50, r.maxShares50)
  {
    var g := GrowthRate(stock);
    var rr := RequiredRate(stock);
    if stock.dividendBaht <= 0.0 then
      Invalid(0.0, NoDiv)
    else
      var d1 := stock.dividendBaht * (1.0 + g);
      if rr <= g then
        Invalid(d1, RateNotAboveGrowth)
      else
        var fairPrice := d1 / (rr - g);
        var mos30 := fairPrice * 0.7;
        var mos40 := fairPrice * 0.6;
        var mos50 := fairPrice * 0.5;
        CalculationResult(
          d1, None, fairPrice, mos30, mos40, mos50,
          MaxShares(moneyPerCompany, mos30),
          MaxShares(moneyPerCompany, mos40),
          MaxShares(moneyPerCompany, mos50),
          true, None)
  }

  /** A smaller positive divisor gives a quotient at least as large. */
  lemma DivAntitone(money: real, small: real, large: real)
    requires money >= 0.0 && 0.0 < small <= large
    ensures money / large <= money / small
  {
    assert (money / large) * large == money;
    assert (money / small) * small == money;
    if money / large > money / small {
      MulStrictMonotone(money / small, money / large, small);
      MulMonotone(small, large, money / large);
    }
  }

  /** A deeper discount buys at least as many shares. */
  lemma {:induction false} MaxSharesAntitone(money: real, small: real, large: real)
    requires money >= 0.0 && 0.0 < small <= large
    ensures 0 <= MaxShares(money, large) <= MaxShares(money, small)
  {
    DivAntitone(money, small, large);
    assert 0.0 <= money / large;
  }

  /**
   * With a positive fair price and a non-negative allocation, the deeper the
   * margin of safety the more shares: maxShares50 >= maxShares40 >= maxShares30 >= 0.
   */
  lemma {:induction false} SharesOrdered(stock: Stock, money: real)
    requires money >= 0.0
    requires CalculateDDM(stock, money).isValid && CalculateDDM(stock, money).ddmPrice > 0.0
    ensures var r := CalculateDDM(stock, money);
      0 <= r.maxShares30 <= r.maxShares40 <= r.maxShares50
  {
    var r := CalculateDDM(stock, money);
    MaxSharesAntitone(money, r.mos40, r.mos30);
    MaxSharesAntitone(money, r.mos50, r.mos40);
  }

  /**
   * The fair price has the sign of the forecast dividend: for a valid model it
   * is positive exactly when growth stays above -100%.
   */
  lemma {:induction false} FairPriceSign(stock: Stock, money: real)
    requires CalculateDDM(stock, money).isValid
    ensures CalculateDDM(stock, money).ddmPrice > 0.0 <==> stock.growth > -100.0
  {
    var r := CalculateDDM(stock, money);
    var den := RequiredRate(stock) - GrowthRate(stock);
    assert r.ddmPrice * den == r.d1;
    assert r.d1 > 0.0 <==> 1.0 + GrowthRate(stock) > 0.0;
    if r.ddmPrice > 0.0 {
      MulStrictMonotone(0.0, r.ddmPrice, den);
    } else {
      MulMonotone(r.ddmPrice, 0.0, den);
    }
  }

  /** dividend 2.00, growth 3 %, required return 10 %, allocation 200000. */
  lemma ValidExample()
    ensures var r := CalculateDDM(Stock("x", "X", 34.5, 0.0, 0.0, 0.0, 0.0, 0.0, 2.0, 0.0, 3.0, 10.0,
                                        false, None, None, None), 200000.0);
      && r.isValid && r.d1 == 2.06 && r.ddmPrice == 206.0 / 7.0
      && r.mos30 == 20.6 && r.mos40 == 123.6 / 7.0 && r.mos50 == 103.0 / 7.0
      && r.maxShares30 == 9708
  {
    var s := Stock("x", "X", 34.5, 0.0, 0.0, 0.0, 0.0, 0.0, 2.0, 0.0, 3.0, 10.0, false, None, None, None);
    var r := CalculateDDM(s, 200000.0);
    assert r.ddmPrice == 2.06 / 0.07;
    FloorIs(200000.0 / 20.6, 9708);
  }

  lemma FloorIs(x: real, n: int)
    requires n as real <= x < n as real + 1.0
    ensures x.Floor == n
  {
  }

  /** growth 10 % above the required 8 %: invalid, but D1 = 2.20 is kept. */
  lemma InvalidExample()
    ensures var r := CalculateDDM(Stock("x", "X", 34.5, 0.0, 0.0, 0.0, 0.0, 0.0, 2.0, 0.0, 10.0, 8.0,
                                        false, None, None, None), 200000.0);
      && !r.isValid && r.errorReason == Some(RateNotAboveGrowth) && r.ddmPrice == 0.0 && r.d1 == 2.2
  {
  }
}
