/**
 * The settings panel (components/PortfolioSummary.tsx): the allocation per
 * company it displays and the two handlers that edit the settings.
 */
module PortfolioSummary {
  import opened Types

  /** Capital per position: totalCapital / companyCount, or 0 without a positive count. */
  function MoneyPerCompany(settings: PortfolioSettings): (m: real)
    ensures settings.companyCount > 0 ==> m * (settings.companyCount as real) == settings.totalCapital
    ensures settings.companyCount <= 0 ==> m == 0.0
    ensures settings.totalCapital >= 0.0 ==> m >= 0.0
    ensures settings.companyCount == 1 ==> m == settings.totalCapital
  {
    if settings.companyCount > 0 then settings.totalCapital / (settings.companyCount as real) else 0.0
  }

  /** Capital edit: `parseFloat(text) || 0`; negatives are kept, the count is untouched. */
  function HandleCapitalChange(settings: PortfolioSettings, input: Option<real>): (s: PortfolioSettings)
    ensures s.companyCount == settings.companyCount
    ensures input.None? ==> s.totalCapital == 0.0
    ensures input.Some? ==> s.totalCapital == input.value
  {
    var val := input.GetOr(0.0);
    settings.(totalCapital := val)
  }

  /** Count edit: `Math.max(1, parseInt(text) || 1)`; the capital is untouched. */
  function HandleCountChange(settings: PortfolioSettings, input: Option<int>): (s: PortfolioSettings)
    ensures s.totalCapital == settings.totalCapital
    ensures s.companyCount >= 1
    ensures input.Some? && input.value >= 1 ==> s.companyCount == input.value
    ensures input.None? || input.value < 1 ==> s.companyCount == 1
  {
    var val := match input
      case Some(n) => if n != 0 then n else 1
      case None => 1;
    settings.(companyCount := if val > 1 then val else 1)
  }

  /** After any count edit the allocation is capital / count: the 0 branch is unreachable. */
  lemma {:induction false} AllocationAfterCountEdit(settings: PortfolioSettings, input: Option<int>)
    ensures var s := HandleCountChange(settings, input);
      MoneyPerCompany(s) * (s.companyCount as real) == s.totalCapital
      && MoneyPerCompany(s) == s.totalCapital / (s.companyCount as real)
  {
    var s := HandleCountChange(settings, input);
    assert s.companyCount >= 1;
  }

  /** The two edits touch different fields, so their order does not matter. */
  lemma {:induction false} EditsCommute(settings: PortfolioSettings, capital: Option<real>, count: Option<int>)
    ensures HandleCountChange(HandleCapitalChange(settings, capital), count)
         == HandleCapitalChange(HandleCountChange(settings, count), capital)
  {
    var a := HandleCountChange(HandleCapitalChange(settings, capital), count);
    var b := HandleCapitalChange(HandleCountChange(settings, count), capital);
    assert a.totalCapital == b.totalCapital && a.companyCount == b.companyCount;
  }
}
