/**
 * The edit handlers of one table row (components/StockRow.tsx).  Each
 * handler turns the current stock and the text the user typed into the
 * partial update it hands to `onUpdate`; the row keeps no state of its own.
 * A parsed input is `Some(v)`; `None` is an empty or unparsable field
 * (`parseFloat` giving NaN).
 */
module StockRow {
  import opened Types
  import Text
  import Calculations

  /** `parseFloat(text) || 0`: NaN and 0 both become 0. */
  function NumberOrZero(input: Option<real>): (v: real)
    ensures input.None? ==> v == 0.0
    ensures input.Some? ==> v == input.value
  {
    input.GetOr(0.0)
  }

  /** The argument of the generic `handleChange(field, value)` as the row uses it. */
  datatype FieldEdit =
    | SymbolEdit(symbol: string)
    | GrowthEdit(growth: real)
    | RequiredReturnEdit(requiredReturn: real)

  /** The key a generic edit writes. */
  function EditedField(edit: FieldEdit): Field {
    match edit
    case SymbolEdit(_) => Symbol
    case GrowthEdit(_) => Growth
    case RequiredReturnEdit(_) => RequiredReturn
  }

  /** `handleChange`: `{ [field]: value, error: undefined }`. */
  function HandleChange(stock: Stock, edit: FieldEdit): (u: StockUpdate)
    ensures forall f :: Has(u, f) <==> f == EditedField(edit) || f == Error
    ensures u.error == Some(None)
    ensures match edit
      case SymbolEdit(v) => u.symbol == Some(v)
      case GrowthEdit(v) => u.growth == Some(v)
      case RequiredReturnEdit(v) => u.requiredReturn == Some(v)
  {
    match edit
    case SymbolEdit(v) => EmptyUpdate.(symbol := Some(v), error := Some(None))
    case GrowthEdit(v) => EmptyUpdate.(growth := Some(v), error := Some(None))
    case RequiredReturnEdit(v) => EmptyUpdate.(requiredReturn := Some(v), error := Some(None))
  }

  /** The symbol input's `onChange` (line 83): store the upper-cased text and clear the error. */
  function HandleSymbolChange(stock: Stock, text: string): (u: StockUpdate)
    ensures forall f :: Has(u, f) <==> f == Symbol || f == Error
    ensures u.symbol.Some? && |u.symbol.value| == |text|
    ensures forall i :: 0 <= i < |text| ==> u.symbol.value[i] == Text.UpperChar(text[i])
    ensures u.error == Some(None)
  {
    HandleChange(stock, SymbolEdit(Text.ToUpper(text)))
  }

  /** Price edit: the yield follows the unchanged dividend. */
  function HandlePriceChange(stock: Stock, input: Option<real>): (u: StockUpdate)
    ensures forall f :: Has(u, f) <==> f == Price || f == YieldPercent
    ensures u.price == Some(NumberOrZero(input))
    ensures NumberOrZero(input) > 0.0 ==> u.yieldPercent.Some? && u.yieldPercent.value * NumberOrZero(input) == stock.dividendBaht * 100.0
    ensures NumberOrZero(input) <= 0.0 ==> u.yieldPercent == Some(0.0)
  {
    var v := NumberOrZero(input);
    var newYield := if v > 0.0 then (stock.dividendBaht / v) * 100.0 else 0.0;
    EmptyUpdate.(price := Some(v), yieldPercent := Some(newYield))
  }

  /** Dividend edit: the yield follows from the current price. */
  function HandleDividendChange(stock: Stock, input: Option<real>): (u: StockUpdate)
    ensures forall f :: Has(u, f) <==> f == DividendBaht || f == YieldPercent
    ensures u.dividendBaht == Some(NumberOrZero(input))
    ensures stock.price > 0.0 ==> u.yieldPercent.Some? && u.yieldPercent.value * stock.price == NumberOrZero(input) * 100.0
    ensures stock.price <= 0.0 ==> u.yieldPercent == Some(0.0)
  {
    var v := NumberOrZero(input);
    var newYield := if stock.price > 0.0 then (v / stock.price) * 100.0 else 0.0;
    EmptyUpdate.(dividendBaht := Some(v), yieldPercent := Some(newYield))
  }

  /** Yield edit: the dividend follows from the current price. */
  function HandleYieldChange(stock: Stock, input: Option<real>): (u: StockUpdate)
    ensures forall f :: Has(u, f) <==> f == YieldPercent || f == DividendBaht
    ensures u.yieldPercent == Some(NumberOrZero(input))
    ensures u.dividendBaht.Some? && u.dividendBaht.value * 100.0 == stock.price * NumberOrZero(input)
  {
    var v := NumberOrZero(input);
    var newDividend := stock.price * (v / 100.0);
    EmptyUpdate.(yieldPercent := Some(v), dividendBaht := Some(newDividend))
  }

  /** Growth edit: an empty or unparsable field counts as 0; the error is cleared. */
  function HandleGrowthChange(stock: Stock, input: Option<real>): (u: StockUpdate)
    ensures forall f :: Has(u, f) <==> f == Growth || f == Error
    ensures u.growth == Some(if input.Some? then input.value else 0.0)
    ensures u.error == Some(None)
  {
    var v := match input case Some(x) => x case None => 0.0;
    HandleChange(stock, GrowthEdit(v))
  }

  /** Required-return edit: an empty or unparsable field counts as 0; the error is cleared. */
  function HandleReturnChange(stock: Stock, input: Option<real>): (u: StockUpdate)
    ensures forall f :: Has(u, f) <==> f == RequiredReturn || f == Error
    ensures u.requiredReturn == Some(if input.Some? then input.value else 0.0)
    ensures u.error == Some(None)
  {
    var v := match input case Some(x) => x case None => 0.0;
    HandleChange(stock, RequiredReturnEdit(v))
  }

  /** The valuation the row displays, recomputed from its current props (line 17). */
  function Result(stock: Stock, moneyPerCompany: real): (r: CalculationResult)
    ensures r.isValid <==> stock.dividendBaht > 0.0 && stock.requiredReturn > stock.growth
    // the forecast-yield cell (line 159) can only ever show its 0.00% branch
    ensures !(r.yieldForecast.Some? && r.yieldForecast.value > 0.0)
  {
    Calculations.CalculateDDM(stock, moneyPerCompany)
  }

  /** The price/dividend/yield triple agrees: with a positive price, yield = dividend / price * 100. */
  predicate Coupled(s: Stock) {
    s.price > 0.0 ==> s.yieldPercent * s.price == s.dividendBaht * 100.0
  }

  /** The three coupled edits each leave the row coupled, whatever it held before. */
  lemma {:induction false} CoupledAfterEdit(stock: Stock, input: Option<real>)
    ensures Coupled(Merge(stock, HandlePriceChange(stock, input)))
    ensures Coupled(Merge(stock, HandleDividendChange(stock, input)))
    ensures Coupled(Merge(stock, HandleYieldChange(stock, input)))
  {
    var v := NumberOrZero(input);
    var y := Merge(stock, HandleYieldChange(stock, input));
    assert y.dividendBaht * 100.0 == stock.price * v;
    assert y.yieldPercent == v && y.price == stock.price;
  }

  /** A coupled edit writes its two keys of the triple and leaves every other key of the row, the error included, as it was. */
  lemma {:induction false} CoupledEditsKeepOtherFields(stock: Stock, input: Option<real>)
    ensures forall f :: f != Price && f != YieldPercent ==>
      Get(Merge(stock, HandlePriceChange(stock, input)), f) == Get(stock, f)
    ensures forall f :: f != DividendBaht && f != YieldPercent ==>
      Get(Merge(stock, HandleDividendChange(stock, input)), f) == Get(stock, f)
    ensures forall f :: f != YieldPercent && f != DividendBaht ==>
      Get(Merge(stock, HandleYieldChange(stock, input)), f) == Get(stock, f)
  {
    MergeSpec(stock, HandlePriceChange(stock, input));
    MergeSpec(stock, HandleDividendChange(stock, input));
    MergeSpec(stock, HandleYieldChange(stock, input));
  }

  /** Growth and required-return edits do not touch the triple, so they keep it coupled. */
  lemma {:induction false} CoupledKeptByGrowthAndReturnEdits(stock: Stock, input: Option<real>)
    requires Coupled(stock)
    ensures Coupled(Merge(stock, HandleGrowthChange(stock, input)))
    ensures Coupled(Merge(stock, HandleReturnChange(stock, input)))
  {
    MergeSpec(stock, HandleGrowthChange(stock, input));
    MergeSpec(stock, HandleReturnChange(stock, input));
    assert Get(Merge(stock, HandleGrowthChange(stock, input)), Price) == Get(stock, Price);
    assert Get(Merge(stock, HandleGrowthChange(stock, input)), DividendBaht) == Get(stock, DividendBaht);
    assert Get(Merge(stock, HandleGrowthChange(stock, input)), YieldPercent) == Get(stock, YieldPercent);
    assert Get(Merge(stock, HandleReturnChange(stock, input)), Price) == Get(stock, Price);
    assert Get(Merge(stock, HandleReturnChange(stock, input)), DividendBaht) == Get(stock, DividendBaht);
    assert Get(Merge(stock, HandleReturnChange(stock, input)), YieldPercent) == Get(stock, YieldPercent);
  }

  /**
   * Round trip: with a positive price, entering dividend D and then typing
   * back the yield that edit produced gives dividend D again.
   */
  lemma {:induction false} DividendYieldRoundTrip(stock: Stock, d: real)
    requires stock.price > 0.0
    ensures var s1 := Merge(stock, HandleDividendChange(stock, Some(d)));
      var s2 := Merge(s1, HandleYieldChange(s1, Some(s1.yieldPercent)));
      s2.dividendBaht == d && s2.price == stock.price
  {
    var s1 := Merge(stock, HandleDividendChange(stock, Some(d)));
    var p := stock.price;
    assert s1.price == p;
    assert s1.yieldPercent * p == d * 100.0;
    var s2 := Merge(s1, HandleYieldChange(s1, Some(s1.yieldPercent)));
    assert s2.dividendBaht * 100.0 == p * s1.yieldPercent;
  }

  /**
   * The other way round: entering yield Y and then typing back the dividend
   * that edit produced gives yield Y again.
   */
  lemma {:induction false} YieldDividendRoundTrip(stock: Stock, y: real)
    requires stock.price > 0.0
    ensures var s1 := Merge(stock, HandleYieldChange(stock, Some(y)));
      var s2 := Merge(s1, HandleDividendChange(s1, Some(s1.dividendBaht)));
      s2.yieldPercent == y && s2.price == stock.price
  {
    var s1 := Merge(stock, HandleYieldChange(stock, Some(y)));
    var p := stock.price;
    assert s1.price == p;
    assert s1.dividendBaht * 100.0 == p * y;
    var s2 := Merge(s1, HandleDividendChange(s1, Some(s1.dividendBaht)));
    assert s2.yieldPercent * p == s1.dividendBaht * 100.0;
    MulCancel(s2.yieldPercent, y, p);
  }

  lemma MulCancel(a: real, b: real, c: real)
    requires c != 0.0 && a * c == b * c
    ensures a == b
  {
  }
}
