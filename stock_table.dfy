/**
 * The table (components/StockTable.tsx): it computes the allocation once
 * and renders one row per stock, in list order, each with that allocation.
 */
module StockTable {
  import opened Types
  import PortfolioSummary
  import StockRow
  import Calculations

  /** The allocation handed to every row; the same value the settings panel shows. */
  function MoneyPerCompany(settings: PortfolioSettings): (m: real)
    ensures m == PortfolioSummary.MoneyPerCompany(settings)
    ensures settings.totalCapital >= 0.0 ==> m >= 0.0
    ensures settings.companyCount == 1 ==> m == settings.totalCapital
  {
    if settings.companyCount > 0 then settings.totalCapital / (settings.companyCount as real) else 0.0
  }

  /** What one rendered `<StockRow>` receives and shows. */
  datatype RowView = RowView(key: string, stock: Stock, moneyPerCompany: real, result: CalculationResult)

  /** `stocks.map(stock => <StockRow key={stock.id} stock={stock} moneyPerCompany={m} />)`. */
  function RenderRows(stocks: seq<Stock>, m: real): (rows: seq<RowView>)
    ensures |rows| == |stocks|
    ensures forall i :: 0 <= i < |stocks| ==>
      rows[i].key == stocks[i].id && rows[i].stock == stocks[i] && rows[i].moneyPerCompany == m
      && rows[i].result == Calculations.CalculateDDM(stocks[i], m)
  {
    if stocks == [] then []
    else [RowView(stocks[0].id, stocks[0], m, StockRow.Result(stocks[0], m))] + RenderRows(stocks[1..], m)
  }

  /** The table body for the current state. */
  function Rows(stocks: seq<Stock>, settings: PortfolioSettings): (rows: seq<RowView>)
    ensures |rows| == |stocks|
    ensures forall i :: 0 <= i < |stocks| ==>
      rows[i].key == stocks[i].id && rows[i].stock == stocks[i]
      && rows[i].moneyPerCompany == PortfolioSummary.MoneyPerCompany(settings)
      && rows[i].result == Calculations.CalculateDDM(stocks[i], PortfolioSummary.MoneyPerCompany(settings))
  {
    RenderRows(stocks, MoneyPerCompany(settings))
  }

  /** Every row gets the same allocation. */
  lemma {:induction false} SameAllocationEverywhere(stocks: seq<Stock>, settings: PortfolioSettings, i: int, j: int)
    requires 0 <= i < |stocks| && 0 <= j < |stocks|
    ensures Rows(stocks, settings)[i].moneyPerCompany == Rows(stocks, settings)[j].moneyPerCompany
  {
  }

  /** Rendering follows the list: rendering two lists one after the other is rendering their concatenation. */
  lemma {:induction false} RenderRowsAppend(a: seq<Stock>, b: seq<Stock>, m: real)
    ensures RenderRows(a + b, m) == RenderRows(a, m) + RenderRows(b, m)
  {
    if a != [] {
      assert (a + b)[1..] == a[1..] + b;
      RenderRowsAppend(a[1..], b, m);
    }
  }
}
