/**
 * The portfolio state of App.tsx and the handlers that change it.  The list
 * transforms inside the state setters (append, `filter`, `map` with a
 * spread) are functions; the handlers are methods of `Portfolio`, whose
 * fields are the component's state.  What the environment supplies, a
 * fresh id, the answer of the confirmation dialog and the outcome of each
 * data fetch, is passed in as a parameter.
 */
module App {
  import opened Types
  import Text
  import Calculations

  // ---------------------------------------------------------------- add

  /** The blank row `handleAddStock` appends. */
  function NewStock(id: string): (s: Stock)
    ensures s.id == id && s.symbol == "" && Text.Trim(s.symbol) == [] && !s.loading
    ensures s.error == None && s.sources == None && s.referenceYear == None
    ensures s.price == 0.0 && s.pe == 0.0 && s.pbv == 0.0 && s.de == 0.0 && s.roe == 0.0 && s.eps == 0.0
    ensures s.dividendBaht == 0.0 && s.yieldPercent == 0.0
    ensures s.growth == DEFAULT_GROWTH && s.requiredReturn == DEFAULT_REQ_RETURN
  {
    Stock(id, "", 0.0, 0.0, 0.0, 0.0, 0.0, 0.0, 0.0, 0.0,
          DEFAULT_GROWTH, DEFAULT_REQ_RETURN, false, None, None, None)
  }

  /** A fresh row has no dividend, so its valuation is "No Div" whatever the allocation. */
  lemma {:induction false} NewStockHasNoValuation(id: string, money: real)
    ensures var r := Calculations.CalculateDDM(NewStock(id), money);
      !r.isValid && r.errorReason == Some(NoDiv) && r.ddmPrice == 0.0 && r.maxShares30 == 0
  {
  }

  predicate UniqueIds(stocks: seq<Stock>) {
    forall i, j :: 0 <= i < j < |stocks| ==> stocks[i].id != stocks[j].id
  }

  predicate IdAbsent(stocks: seq<Stock>, id: string) {
    forall i :: 0 <= i < |stocks| ==> stocks[i].id != id
  }

  // ---------------------------------------------------------------- update

  /** `stocks.map(s => s.id === id ? { ...s, ...updates } : s)`. */
  function UpdateRows(stocks: seq<Stock>, id: string, updates: StockUpdate): (r: seq<Stock>)
    ensures |r| == |stocks|
    ensures forall i :: 0 <= i < |stocks| ==>
      r[i] == if stocks[i].id == id then Merge(stocks[i], updates) else stocks[i]
  {
    if stocks == [] then []
    else [if stocks[0].id == id then Merge(stocks[0], updates) else stocks[0]] + UpdateRows(stocks[1..], id, updates)
  }

  /**
   * Key by key: in a row whose id matches, every key the update carries is
   * overwritten and every other key keeps its value; other rows are untouched.
   */
  lemma {:induction false} UpdateRowsFields(stocks: seq<Stock>, id: string, updates: StockUpdate, i: int, f: Field)
    requires 0 <= i < |stocks|
    ensures stocks[i].id == id && Has(updates, f) ==> Get(UpdateRows(stocks, id, updates)[i], f) == Assigned(updates, f)
    ensures stocks[i].id == id && !Has(updates, f) ==> Get(UpdateRows(stocks, id, updates)[i], f) == Get(stocks[i], f)
    ensures stocks[i].id != id ==> UpdateRows(stocks, id, updates)[i] == stocks[i]
  {
    MergeSpec(stocks[i], updates);
  }

  /** An update for an id that is not in the list changes nothing. */
  lemma {:induction false} UpdateUnknownId(stocks: seq<Stock>, id: string, updates: StockUpdate)
    requires IdAbsent(stocks, id)
    ensures UpdateRows(stocks, id, updates) == stocks
  {
  }

  /** An update that carries no `id` key keeps every row's id, hence keeps them distinct. */
  lemma {:induction false} UpdateKeepsIds(stocks: seq<Stock>, id: string, updates: StockUpdate)
    requires updates.id.None?
    ensures forall i :: 0 <= i < |stocks| ==> UpdateRows(stocks, id, updates)[i].id == stocks[i].id
    ensures UniqueIds(stocks) ==> UniqueIds(UpdateRows(stocks, id, updates))
  {
    var r := UpdateRows(stocks, id, updates);
    assert forall i :: 0 <= i < |stocks| ==> r[i].id == stocks[i].id;
  }

  // ---------------------------------------------------------------- delete

  /** `stocks.filter(s => s.id !== id)`. */
  function RemoveRows(stocks: seq<Stock>, id: string): (r: seq<Stock>)
    ensures |r| <= |stocks|
    ensures forall i :: 0 <= i < |r| ==> r[i].id != id
    ensures IdAbsent(stocks, id) ==> r == stocks
  {
    if stocks == [] then []
    else
      var tail := stocks[1..];
      assert IdAbsent(stocks, id) ==> IdAbsent(tail, id);
      if stocks[0].id == id then RemoveRows(tail, id) else [stocks[0]] + RemoveRows(tail, id)
  }

  /** Every kept row was in the list, and every row without the id is kept. */
  lemma {:induction false} RemoveRowsMembers(stocks: seq<Stock>, id: string)
    ensures forall i :: 0 <= i < |RemoveRows(stocks, id)| ==> RemoveRows(stocks, id)[i] in stocks
    ensures forall i :: 0 <= i < |stocks| && stocks[i].id != id ==> stocks[i] in RemoveRows(stocks, id)
  {
    if stocks != [] {
      var tail := stocks[1..];
      RemoveRowsMembers(tail, id);
      var rest := RemoveRows(tail, id);
      assert forall i :: 1 <= i < |stocks| ==> stocks[i] == tail[i - 1];
      assert forall k :: 0 <= k < |rest| ==> rest[k] in stocks;
    }
  }

  /** Removal keeps the order of the rows it keeps: it works piecewise on a concatenation. */
  lemma {:induction false} RemoveRowsAppend(a: seq<Stock>, b: seq<Stock>, id: string)
    ensures RemoveRows(a + b, id) == RemoveRows(a, id) + RemoveRows(b, id)
  {
    if a == [] {
      assert a + b == b;
    } else {
      var ab := a + b;
      assert ab[0] == a[0] && ab[1..] == a[1..] + b;
      RemoveRowsAppend(a[1..], b, id);
      var head := if a[0].id == id then [] else [a[0]];
      assert RemoveRows(ab, id) == head + RemoveRows(ab[1..], id);
      assert RemoveRows(a, id) == head + RemoveRows(a[1..], id);
    }
  }

  /** Removing rows keeps the remaining ids distinct. */
  lemma {:induction false} RemoveKeepsUnique(stocks: seq<Stock>, id: string)
    requires UniqueIds(stocks)
    ensures UniqueIds(RemoveRows(stocks, id))
  {
    if stocks != [] {
      var rest := stocks[1..];
      assert UniqueIds(rest) by {
        forall i, j | 0 <= i < j < |rest| ensures rest[i].id != rest[j].id {
          assert rest[i] == stocks[i + 1] && rest[j] == stocks[j + 1];
        }
      }
      RemoveKeepsUnique(rest, id);
      RemoveRowsMembers(rest, id);
      var r := RemoveRows(rest, id);
      forall k | 0 <= k < |r| ensures r[k].id != stocks[0].id {
        var j :| 0 <= j < |rest| && rest[j] == r[k];
        assert stocks[j + 1] == rest[j];
      }
    }
  }

  // ---------------------------------------------------------------- refresh

  const SYMBOL_REQUIRED: string := "Symbol required"
  const FETCH_FAILED: string := "Fetch failed"

  /** What the data service returns on success. */
  datatype FetchedData = FetchedData(
    price: real, pe: real, pbv: real, de: real, roe: real, eps: real,
    dividendBaht: real, yieldPercent: real,
    sources: seq<Source>, referenceYear: string)

  /** The settled promise of one `fetchStockData` call: the data, or the error's message ("" when it has none). */
  datatype FetchOutcome = Fetched(data: FetchedData) | Failed(message: string)

  /** `symbol.trim().toUpperCase()`. */
  function Normalize(symbol: string): (r: string)
    ensures |r| == |Text.Trim(symbol)|
    ensures forall i :: 0 <= i < |r| ==> r[i] == Text.UpperChar(Text.Trim(symbol)[i])
    ensures r == [] <==> Text.AllWhitespace(symbol)
  {
    Text.TrimSpec(symbol);
    Text.ToUpper(Text.Trim(symbol))
  }

  /** The symbol is blank for the refresh guard exactly when it is blank for the refresh-all filter. */
  lemma {:induction false} NormalizeBlank(symbol: string)
    ensures Normalize(symbol) == [] <==> Text.Trim(symbol) == []
  {
    assert |Normalize(symbol)| == |Text.Trim(symbol)|;
  }

  /**
   * A refreshed row's symbol is already normalised, so refreshing the row
   * again with its own symbol (the Enter key of the symbol input) keeps it.
   */
  lemma {:induction false} NormalizeIdempotent(symbol: string)
    ensures Normalize(Normalize(symbol)) == Normalize(symbol)
  {
    var t := Text.Trim(symbol);
    var u := Text.ToUpper(t);
    Text.TrimSpec(symbol);
    if u != [] {
      Text.UpperCharKeepsNonWhitespace(t[0]);
      Text.UpperCharKeepsNonWhitespace(t[|t| - 1]);
    }
    Text.TrimFixpoint(u);
    Text.ToUpperIdempotent(t);
  }

  /** The message the service rewrites credential errors into, and the phrase the platform uses. */
  predicate IsKeyFailure(message: string) {
    Text.Contains(message, "entity was not found") || Text.Contains(message, "API Key")
  }

  /** A message is a credential failure exactly when one of the two phrases occurs in it. */
  lemma {:induction false} IsKeyFailureSpec(message: string)
    ensures IsKeyFailure(message) <==>
      ((exists i :: Text.OccursAt(message, "entity was not found", i)) || (exists i :: Text.OccursAt(message, "API Key", i)))
  {
  }

  /**
   * Every message that starts with "API Key" is a credential failure; the
   * service's rewritten credential error (services/stockService.ts:80) is one.
   */
  lemma {:induction false} ServiceKeyErrorIsKeyFailure(rest: string)
    ensures IsKeyFailure("API Key" + rest)
  {
    var m := "API Key" + rest;
    assert m[0..7] == "API Key";
    assert Text.OccursAt(m, "API Key", 0);
  }

  /** `{ error: 'Symbol required' }`: only the error key. */
  function SymbolRequiredUpdate(): (u: StockUpdate)
    ensures forall f :: Has(u, f) <==> f == Error
    ensures u.error == Some(Some(SYMBOL_REQUIRED))
  {
    EmptyUpdate.(error := Some(Some(SYMBOL_REQUIRED)))
  }

  /** `{ symbol: trimmedSymbol, loading: true, error: undefined }`. */
  function PendingUpdate(symbol: string): (u: StockUpdate)
    ensures forall f :: Has(u, f) <==> f == Symbol || f == Loading || f == Error
    ensures u.symbol == Some(symbol) && u.loading == Some(true) && u.error == Some(None)
  {
    EmptyUpdate.(symbol := Some(symbol), loading := Some(true), error := Some(None))
  }

  /**
   * `{ ...data, loading: false }` or `{ loading: false, error: error.message || 'Fetch failed' }`.
   * A success carries every fetched key and `loading`, never `id`, `symbol`, growth,
   * required return or `error`; a failure carries only `loading` and `error`.
   */
  function CompletionUpdate(outcome: FetchOutcome): (u: StockUpdate)
    ensures u.loading == Some(false)
    ensures outcome.Fetched? ==> forall f :: Has(u, f) <==>
      f != Id && f != Symbol && f != Growth && f != RequiredReturn && f != Error
    ensures outcome.Failed? ==> forall f :: Has(u, f) <==> f == Loading || f == Error
    ensures outcome.Failed? ==> u.error == Some(Some(if outcome.message == "" then FETCH_FAILED else outcome.message))
  {
    match outcome
    case Fetched(d) =>
      EmptyUpdate.(price := Some(d.price), pe := Some(d.pe), pbv := Some(d.pbv), de := Some(d.de),
                   roe := Some(d.roe), eps := Some(d.eps), dividendBaht := Some(d.dividendBaht),
                   yieldPercent := Some(d.yieldPercent), sources := Some(Some(d.sources)),
                   referenceYear := Some(Some(d.referenceYear)), loading := Some(false))
    case Failed(m) =>
      EmptyUpdate.(loading := Some(false), error := Some(Some(if m == "" then FETCH_FAILED else m)))
  }

  /** The row while its fetch is outstanding: normalised symbol, loading, no error. */
  function PendingRow(row: Stock, symbol: string): (r: Stock)
    ensures r.loading && r.error == None && r.symbol == symbol
    ensures r == row.(symbol := symbol, loading := true, error := None)
  {
    Merge(row, PendingUpdate(symbol))
  }

  /** One row after `handleRefreshStock(id, symbol)` settles with `outcome`. */
  function RefreshRow(row: Stock, symbol: string, outcome: FetchOutcome): (r: Stock)
    ensures r.id == row.id
  {
    var t := Normalize(symbol);
    if t == [] then Merge(row, SymbolRequiredUpdate())
    else Merge(PendingRow(row, t), CompletionUpdate(outcome))
  }

  /**
   * What one refresh does to its row.  A blank symbol only sets the error
   * (no fetch, loading untouched).  Otherwise the row ends not loading,
   * under the normalised symbol, holding either all the fetched data with no
   * error, or its old data with the failure's message (or "Fetch failed").
   */
  lemma {:induction false} RefreshRowSpec(row: Stock, symbol: string, outcome: FetchOutcome)
    ensures Normalize(symbol) == [] ==> RefreshRow(row, symbol, outcome) == row.(error := Some(SYMBOL_REQUIRED))
    ensures Normalize(symbol) != [] && outcome.Fetched? ==>
      var d := outcome.data;
      RefreshRow(row, symbol, outcome)
        == row.(symbol := Normalize(symbol), price := d.price, pe := d.pe, pbv := d.pbv, de := d.de,
                roe := d.roe, eps := d.eps, dividendBaht := d.dividendBaht, yieldPercent := d.yieldPercent,
                loading := false, error := None, sources := Some(d.sources), referenceYear := Some(d.referenceYear))
    ensures Normalize(symbol) != [] && outcome.Failed? ==>
      RefreshRow(row, symbol, outcome)
        == row.(symbol := Normalize(symbol), loading := false,
                error := Some(if outcome.message == "" then FETCH_FAILED else outcome.message))
  {
    var t := Normalize(symbol);
    if t != [] {
      var p := PendingRow(row, t);
      assert p == row.(symbol := t, loading := true, error := None);
    }
  }

  /** The list after the three successive `handleUpdateStock` calls of one refresh. */
  function RefreshedRows(stocks: seq<Stock>, id: string, symbol: string, outcome: FetchOutcome): (r: seq<Stock>)
    ensures |r| == |stocks|
  {
    var t := Normalize(symbol);
    if t == [] then UpdateRows(stocks, id, SymbolRequiredUpdate())
    else UpdateRows(UpdateRows(stocks, id, PendingUpdate(t)), id, CompletionUpdate(outcome))
  }

  /** The three list updates of one refresh change exactly the rows with the id, each as `RefreshRow` says. */
  lemma {:induction false} RefreshedRowsSpec(stocks: seq<Stock>, id: string, symbol: string, outcome: FetchOutcome)
    ensures forall i :: 0 <= i < |stocks| ==>
      RefreshedRows(stocks, id, symbol, outcome)[i]
      == if stocks[i].id == id then RefreshRow(stocks[i], symbol, outcome) else stocks[i]
  {
  }

  /** `hasKey` after one refresh: a credential failure sets it to false, nothing else touches it. */
  function KeyAfterRefresh(hasKey: Option<bool>, symbol: string, outcome: FetchOutcome): (h: Option<bool>)
    ensures h == Some(false) || h == hasKey
    ensures h != hasKey ==> Normalize(symbol) != [] && outcome.Failed? && IsKeyFailure(outcome.message)
    ensures Normalize(symbol) != [] && outcome.Failed? && IsKeyFailure(outcome.message) ==> h == Some(false)
  {
    if Normalize(symbol) != [] && outcome.Failed? && IsKeyFailure(outcome.message) then Some(false) else hasKey
  }

  // ---------------------------------------------------------------- refresh all

  /** The refresh-all filter's test `s.symbol.trim() !== ''`. */
  predicate HasSymbol(s: Stock) {
    Text.Trim(s.symbol) != []
  }

  /** `stocks.filter(s => s.symbol.trim() !== '')`. */
  function RefreshTargets(stocks: seq<Stock>): (r: seq<Stock>)
    ensures |r| <= |stocks|
  {
    if stocks == [] then []
    else (if HasSymbol(stocks[0]) then [stocks[0]] else []) + RefreshTargets(stocks[1..])
  }

  /** Every target is a row of the list, and every target has a symbol. */
  lemma {:induction false} RefreshTargetsMembers(stocks: seq<Stock>)
    ensures forall k :: 0 <= k < |RefreshTargets(stocks)| ==> RefreshTargets(stocks)[k] in stocks
    ensures forall k :: 0 <= k < |RefreshTargets(stocks)| ==> HasSymbol(RefreshTargets(stocks)[k])
  {
    if stocks != [] {
      RefreshTargetsMembers(stocks[1..]);
      var rest := RefreshTargets(stocks[1..]);
      assert forall k :: 0 <= k < |rest| ==> rest[k] in stocks;
    }
  }

  lemma {:induction false} RefreshTargetsAppend(a: seq<Stock>, b: seq<Stock>)
    ensures RefreshTargets(a + b) == RefreshTargets(a) + RefreshTargets(b)
  {
    if a == [] {
      assert a + b == b;
    } else {
      var x, rest := a[0], a[1..];
      assert a == [x] + rest && a + b == [x] + (rest + b);
      RefreshTargetsAppend(rest, b);
      RefreshTargetsCons(x, rest);
      RefreshTargetsCons(x, rest + b);
    }
  }

  /** The filter keeps the first row exactly when it has a symbol, and filters the rest on its own. */
  lemma {:induction false} RefreshTargetsCons(x: Stock, s: seq<Stock>)
    ensures RefreshTargets([x] + s) == (if HasSymbol(x) then [x] else []) + RefreshTargets(s)
  {
    assert ([x] + s)[0] == x && ([x] + s)[1..] == s;
  }

  /** The targets of a list with distinct ids have distinct ids. */
  lemma {:induction false} RefreshTargetsUnique(stocks: seq<Stock>)
    requires UniqueIds(stocks)
    ensures UniqueIds(RefreshTargets(stocks))
  {
    if stocks != [] {
      var rest := stocks[1..];
      assert UniqueIds(rest) by {
        forall i, j | 0 <= i < j < |rest| ensures rest[i].id != rest[j].id {
          assert rest[i] == stocks[i + 1] && rest[j] == stocks[j + 1];
        }
      }
      RefreshTargetsUnique(rest);
      RefreshTargetsMembers(rest);
      var r := RefreshTargets(rest);
      forall k | 0 <= k < |r| ensures r[k].id != stocks[0].id {
        var j :| 0 <= j < |rest| && rest[j] == r[k];
        assert stocks[j + 1] == rest[j];
      }
    }
  }

  /** The list after refreshing `targets` one after another, the k-th settling with `outcomes[k]`. */
  function RefreshAllRows(stocks: seq<Stock>, targets: seq<Stock>, outcomes: seq<FetchOutcome>): (r: seq<Stock>)
    requires |outcomes| == |targets|
    ensures |r| == |stocks|
    ensures forall i :: 0 <= i < |stocks| ==> r[i].id == stocks[i].id
    decreases |targets|
  {
    if targets == [] then stocks
    else
      var n := |targets| - 1;
      var prev := RefreshAllRows(stocks, targets[..n], outcomes[..n]);
      RefreshedRowsSpec(prev, targets[n].id, targets[n].symbol, outcomes[n]);
      RefreshedRows(prev, targets[n].id, targets[n].symbol, outcomes[n])
  }

  /** `hasKey` after refreshing `targets` one after another. */
  function RefreshAllKey(hasKey: Option<bool>, targets: seq<Stock>, outcomes: seq<FetchOutcome>): (h: Option<bool>)
    requires |outcomes| == |targets|
    ensures h == Some(false) || h == hasKey
    decreases |targets|
  {
    if targets == [] then hasKey
    else
      var n := |targets| - 1;
      KeyAfterRefresh(RefreshAllKey(hasKey, targets[..n], outcomes[..n]), targets[n].symbol, outcomes[n])
  }

  /** One more target is one more single-row refresh, on the rows and on `hasKey`. */
  lemma {:induction false} RefreshAllStep(stocks: seq<Stock>, hasKey: Option<bool>, targets: seq<Stock>, outcomes: seq<FetchOutcome>, i: int)
    requires |outcomes| == |targets| && 0 <= i < |targets|
    ensures RefreshAllRows(stocks, targets[..i + 1], outcomes[..i + 1])
      == RefreshedRows(RefreshAllRows(stocks, targets[..i], outcomes[..i]), targets[i].id, targets[i].symbol, outcomes[i])
    ensures RefreshAllKey(hasKey, targets[..i + 1], outcomes[..i + 1])
      == KeyAfterRefresh(RefreshAllKey(hasKey, targets[..i], outcomes[..i]), targets[i].symbol, outcomes[i])
  {
    assert targets[..i + 1][..i] == targets[..i] && targets[..i + 1][i] == targets[i];
    assert outcomes[..i + 1][..i] == outcomes[..i] && outcomes[..i + 1][i] == outcomes[i];
  }

  /** A row whose id no target carries comes out of a refresh-all untouched. */
  lemma {:induction false} RefreshAllUntouched(stocks: seq<Stock>, targets: seq<Stock>, outcomes: seq<FetchOutcome>, i: int)
    requires |outcomes| == |targets| && 0 <= i < |stocks|
    requires forall k :: 0 <= k < |targets| ==> targets[k].id != stocks[i].id
    ensures RefreshAllRows(stocks, targets, outcomes)[i] == stocks[i]
    decreases |targets|
  {
    if targets != [] {
      var n := |targets| - 1;
      RefreshAllUntouched(stocks, targets[..n], outcomes[..n], i);
      RefreshedRowsSpec(RefreshAllRows(stocks, targets[..n], outcomes[..n]), targets[n].id, targets[n].symbol, outcomes[n]);
    }
  }

  /** With distinct target ids, the row a target names ends as that one refresh alone makes it. */
  lemma {:induction false} RefreshAllHit(stocks: seq<Stock>, targets: seq<Stock>, outcomes: seq<FetchOutcome>, i: int, k: int)
    requires |outcomes| == |targets| && 0 <= i < |stocks| && 0 <= k < |targets|
    requires UniqueIds(targets) && targets[k].id == stocks[i].id
    ensures RefreshAllRows(stocks, targets, outcomes)[i] == RefreshRow(stocks[i], targets[k].symbol, outcomes[k])
    decreases |targets|
  {
    var n := |targets| - 1;
    var prev := RefreshAllRows(stocks, targets[..n], outcomes[..n]);
    assert prev[i].id == stocks[i].id;
    RefreshedRowsSpec(prev, targets[n].id, targets[n].symbol, outcomes[n]);
    if k == n {
      RefreshAllUntouched(stocks, targets[..n], outcomes[..n], i);
    } else {
      assert UniqueIds(targets[..n]);
      RefreshAllHit(stocks, targets[..n], outcomes[..n], i, k);
    }
  }

  /** The position of row i among the refresh targets: how many targets come before it. */
  function Rank(stocks: seq<Stock>, i: int): nat
    requires 0 <= i <= |stocks|
  {
    |RefreshTargets(stocks[..i])|
  }

  /** Row i, when it is a target, is the target at its rank. */
  lemma {:induction false} TargetAtRank(stocks: seq<Stock>, i: int)
    requires 0 <= i < |stocks| && HasSymbol(stocks[i])
    ensures Rank(stocks, i) < |RefreshTargets(stocks)|
    ensures RefreshTargets(stocks)[Rank(stocks, i)] == stocks[i]
  {
    assert stocks == stocks[..i] + ([stocks[i]] + stocks[i + 1..]);
    RefreshTargetsAppend(stocks[..i], [stocks[i]] + stocks[i + 1..]);
    RefreshTargetsAppend([stocks[i]], stocks[i + 1..]);
    assert RefreshTargets([stocks[i]]) == [stocks[i]] by {
      assert [stocks[i]][1..] == [];
    }
  }

  /**
   * Refresh-all, with distinct ids: every row with a blank symbol is left as
   * it was, and every other row is refreshed with its own symbol and the
   * outcome of its own fetch, the fetches being made in list order, exactly
   * as if it had been refreshed alone.
   */
  lemma {:induction false} RefreshAllSpec(stocks: seq<Stock>, outcomes: seq<FetchOutcome>)
    requires UniqueIds(stocks)
    requires |outcomes| == |RefreshTargets(stocks)|
    ensures |RefreshAllRows(stocks, RefreshTargets(stocks), outcomes)| == |stocks|
    ensures forall i :: 0 <= i < |stocks| && !HasSymbol(stocks[i]) ==>
      RefreshAllRows(stocks, RefreshTargets(stocks), outcomes)[i] == stocks[i]
    ensures forall i :: 0 <= i < |stocks| && HasSymbol(stocks[i]) ==>
      Rank(stocks, i) < |outcomes|
      && RefreshAllRows(stocks, RefreshTargets(stocks), outcomes)[i]
         == RefreshRow(stocks[i], stocks[i].symbol, outcomes[Rank(stocks, i)])
  {
    var targets := RefreshTargets(stocks);
    RefreshTargetsUnique(stocks);
    RefreshTargetsMembers(stocks);
    forall i | 0 <= i < |stocks| && !HasSymbol(stocks[i])
      ensures RefreshAllRows(stocks, targets, outcomes)[i] == stocks[i]
    {
      forall k | 0 <= k < |targets| ensures targets[k].id != stocks[i].id {
        var j :| 0 <= j < |stocks| && stocks[j] == targets[k];
        assert j != i;
      }
      RefreshAllUntouched(stocks, targets, outcomes, i);
    }
    forall i | 0 <= i < |stocks| && HasSymbol(stocks[i])
      ensures Rank(stocks, i) < |outcomes|
      ensures RefreshAllRows(stocks, targets, outcomes)[i] == RefreshRow(stocks[i], stocks[i].symbol, outcomes[Rank(stocks, i)])
    {
      TargetAtRank(stocks, i);
      RefreshAllHit(stocks, targets, outcomes, i, Rank(stocks, i));
    }
  }

  /** Some fetch among the outcomes failed with a credential error. */
  predicate SomeKeyFailure(outcomes: seq<FetchOutcome>) {
    exists k :: 0 <= k < |outcomes| && outcomes[k].Failed? && IsKeyFailure(outcomes[k].message)
  }

  /** A credential failure among `outcomes` is one among all but the last, or the last. */
  lemma {:induction false} SomeKeyFailureLast(outcomes: seq<FetchOutcome>)
    requires outcomes != []
    ensures var n := |outcomes| - 1;
      SomeKeyFailure(outcomes)
      <==> SomeKeyFailure(outcomes[..n]) || (outcomes[n].Failed? && IsKeyFailure(outcomes[n].message))
  {
    var n := |outcomes| - 1;
    if SomeKeyFailure(outcomes[..n]) {
      var k :| 0 <= k < n && outcomes[..n][k].Failed? && IsKeyFailure(outcomes[..n][k].message);
      assert outcomes[k] == outcomes[..n][k];
    }
    if SomeKeyFailure(outcomes) && !(outcomes[n].Failed? && IsKeyFailure(outcomes[n].message)) {
      var k :| 0 <= k < |outcomes| && outcomes[k].Failed? && IsKeyFailure(outcomes[k].message);
      assert k < n && outcomes[..n][k] == outcomes[k];
    }
  }

  /** Refresh-all turns `hasKey` false exactly when one of its fetches failed with a credential error. */
  lemma {:induction false} RefreshAllKeySpec(hasKey: Option<bool>, targets: seq<Stock>, outcomes: seq<FetchOutcome>)
    requires |outcomes| == |targets|
    requires forall k :: 0 <= k < |targets| ==> HasSymbol(targets[k])
    ensures RefreshAllKey(hasKey, targets, outcomes) == if SomeKeyFailure(outcomes) then Some(false) else hasKey
    decreases |targets|
  {
    if targets != [] {
      var n := |targets| - 1;
      assert forall k :: 0 <= k < n ==> HasSymbol(targets[..n][k]);
      RefreshAllKeySpec(hasKey, targets[..n], outcomes[..n]);
      var before := RefreshAllKey(hasKey, targets[..n], outcomes[..n]);
      KeyAfterTarget(before, targets[n], outcomes[n]);
      SomeKeyFailureLast(outcomes);
    }
  }

  /** For a target (non-blank symbol) only the fetch outcome decides the key status. */
  lemma {:induction false} KeyAfterTarget(hasKey: Option<bool>, target: Stock, outcome: FetchOutcome)
    requires HasSymbol(target)
    ensures KeyAfterRefresh(hasKey, target.symbol, outcome)
      == if outcome.Failed? && IsKeyFailure(outcome.message) then Some(false) else hasKey
  {
    NormalizeBlank(target.symbol);
  }

  // ---------------------------------------------------------------- state

  /** The blob `handleSave` writes: `{ settings, stocks }`. */
  datatype Snapshot = Snapshot(settings: PortfolioSettings, stocks: seq<Stock>)

  class Portfolio {
    var settings: PortfolioSettings
    var stocks: seq<Stock>
    var isSaved: bool
    var hasKey: Option<bool>
    var isRefreshingAll: bool
    /** The last snapshot written to local storage. */
    var storage: Option<Snapshot>

    /** The initial state: default settings, no rows, clean, key status unknown. */
    constructor ()
      ensures settings == INITIAL_PORTFOLIO_SETTINGS && stocks == []
      ensures isSaved && hasKey == None && !isRefreshingAll && storage == None
    {
      settings := INITIAL_PORTFOLIO_SETTINGS;
      stocks := [];
      isSaved := true;
      hasKey := None;
      isRefreshingAll := false;
      storage := None;
    }

    /** `markUnsaved`. */
    method MarkUnsaved()
      modifies this
      ensures !isSaved
      ensures settings == old(settings) && stocks == old(stocks) && hasKey == old(hasKey)
      ensures isRefreshingAll == old(isRefreshingAll) && storage == old(storage)
    {
      if isSaved {
        isSaved := false;
      }
    }

    /** `handleSave`: store `{ settings, stocks }` as they are, then mark clean. */
    method HandleSave()
      modifies this
      ensures storage == Some(Snapshot(old(settings), old(stocks)))
      ensures isSaved
      ensures settings == old(settings) && stocks == old(stocks) && hasKey == old(hasKey)
      ensures isRefreshingAll == old(isRefreshingAll)
    {
      storage := Some(Snapshot(settings, stocks));
      isSaved := true;
    }

    /** `handleSettingsChange`. */
    method HandleSettingsChange(newSettings: PortfolioSettings)
      modifies this
      ensures settings == newSettings && !isSaved
      ensures stocks == old(stocks) && hasKey == old(hasKey)
      ensures isRefreshingAll == old(isRefreshingAll) && storage == old(storage)
    {
      settings := newSettings;
      MarkUnsaved();
    }

    /** `handleAddStock`, with `crypto.randomUUID()` passed in as `freshId`. */
    method HandleAddStock(freshId: string)
      modifies this
      ensures stocks == old(stocks) + [NewStock(freshId)] && !isSaved
      ensures UniqueIds(old(stocks)) && IdAbsent(old(stocks), freshId) ==> UniqueIds(stocks)
      ensures settings == old(settings) && hasKey == old(hasKey)
      ensures isRefreshingAll == old(isRefreshingAll) && storage == old(storage)
    {
      stocks := stocks + [NewStock(freshId)];
      MarkUnsaved();
    }

    /** `handleDeleteStock`, with the answer of `confirm()` passed in. */
    method HandleDeleteStock(id: string, confirmed: bool)
      modifies this
      ensures confirmed ==> stocks == RemoveRows(old(stocks), id) && !isSaved
      ensures !confirmed ==> stocks == old(stocks) && isSaved == old(isSaved)
      ensures UniqueIds(old(stocks)) ==> UniqueIds(stocks)
      ensures settings == old(settings) && hasKey == old(hasKey)
      ensures isRefreshingAll == old(isRefreshingAll) && storage == old(storage)
    {
      if confirmed {
        if UniqueIds(stocks) {
          RemoveKeepsUnique(stocks, id);
        }
        stocks := RemoveRows(stocks, id);
        MarkUnsaved();
      }
    }

    /** `handleUpdateStock`. */
    method HandleUpdateStock(id: string, updates: StockUpdate)
      modifies this
      ensures stocks == UpdateRows(old(stocks), id, updates) && !isSaved
      ensures settings == old(settings) && hasKey == old(hasKey)
      ensures isRefreshingAll == old(isRefreshingAll) && storage == old(storage)
    {
      stocks := UpdateRows(stocks, id, updates);
      MarkUnsaved();
    }

    /** `handleRefreshStock(id, symbol)`, the fetch settling with `outcome`. */
    method HandleRefreshStock(id: string, symbol: string, outcome: FetchOutcome)
      modifies this
      ensures stocks == RefreshedRows(old(stocks), id, symbol, outcome) && !isSaved
      ensures hasKey == KeyAfterRefresh(old(hasKey), symbol, outcome)
      ensures settings == old(settings)
      ensures isRefreshingAll == old(isRefreshingAll) && storage == old(storage)
    {
      var trimmedSymbol := Normalize(symbol);
      if trimmedSymbol == [] {
        HandleUpdateStock(id, SymbolRequiredUpdate());
        return;
      }
      HandleUpdateStock(id, PendingUpdate(trimmedSymbol));
      match outcome
      case Fetched(_) =>
        HandleUpdateStock(id, CompletionUpdate(outcome));
      case Failed(message) =>
        if IsKeyFailure(message) {
          hasKey := Some(false);
        }
        HandleUpdateStock(id, CompletionUpdate(outcome));
    }

    /** `handleRefreshAll`, the k-th fetch settling with `outcomes[k]`. */
    method HandleRefreshAll(outcomes: seq<FetchOutcome>)
      requires |outcomes| == |RefreshTargets(stocks)|
      modifies this
      ensures stocks == RefreshAllRows(old(stocks), RefreshTargets(old(stocks)), outcomes)
      ensures hasKey == RefreshAllKey(old(hasKey), RefreshTargets(old(stocks)), outcomes)
      ensures isSaved == (old(isSaved) && RefreshTargets(old(stocks)) == [])
      ensures isRefreshingAll == (old(isRefreshingAll) && RefreshTargets(old(stocks)) == [])
      ensures settings == old(settings) && storage == old(storage)
    {
      var stocksToRefresh := RefreshTargets(stocks);
      if |stocksToRefresh| == 0 {
        return;
      }
      ghost var s0, h0, saved0 := stocks, hasKey, isSaved;
      ghost var settings0, storage0 := settings, storage;
      isRefreshingAll := true;
      var i := 0;
      while i < |stocksToRefresh|
        invariant 0 <= i <= |stocksToRefresh|
        invariant stocks == RefreshAllRows(s0, stocksToRefresh[..i], outcomes[..i])
        invariant hasKey == RefreshAllKey(h0, stocksToRefresh[..i], outcomes[..i])
        invariant isSaved == (saved0 && i == 0)
        invariant isRefreshingAll
        invariant settings == settings0 && storage == storage0
      {
        var s := stocksToRefresh[i];
        HandleRefreshStock(s.id, s.symbol, outcomes[i]);
        RefreshAllStep(s0, h0, stocksToRefresh, outcomes, i);
        i := i + 1;
      }
      assert stocksToRefresh[..i] == stocksToRefresh && outcomes[..i] == outcomes;
      isRefreshingAll := false;
    }
  }
}
