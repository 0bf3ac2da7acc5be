# Dividend-discount portfolio calculator: a Dafny model

This project models the core of a small React application that values Thai
equities with the Gordon Growth (Dividend Discount) Model and sizes one
position per company. The model has two parts.

- The valuation engine `calculateDDM` (module `Calculations`). Growth and
  required return are percentages and become g and r. D1 = D0·(1+g), the
  fair price is P = D1/(r−g), and there are three margin-of-safety prices
  (70 %, 60 % and 50 % of P). Each tier also gets the number of whole shares
  the per-company allocation buys.
- The bookkeeping that feeds the engine.
  - `App`: the portfolio state, as the class `App.Portfolio`. Its fields are
    the settings, the ordered list of stocks, the unsaved-changes flag, the
    key status, the refresh-all flag and the last saved snapshot. Its
    handlers add, update, delete, save and refresh.
  - `StockRow`: the per-row edit handlers. Each one turns what the user
    typed into a partial update of the row, keeping price, dividend and
    yield coupled.
  - `PortfolioSummary`: the settings panel's allocation and its two edits.
  - `StockTable`: the allocation the table hands to every row.

Supporting modules:

- `Types` mirrors types.ts and constants.ts. A `Partial<Stock>` is the
  datatype `StockUpdate`, and object spread is `Merge`.
- `Text` models the three JavaScript string operations the handlers use:
  `trim`, `toUpperCase` and `includes`.

JavaScript numbers are exact `real`s. `Math.floor` is `.Floor`. A parsed text
field is an `Option`, where `None` stands for an empty or unparsable input.

Things the environment supplies are method parameters:

- the fresh id of a new row (`crypto.randomUUID()`);
- the answer of the confirmation dialog;
- the settled outcome of each data fetch, either the fetched record or the
  error's message.

### Where the code differs from what one might expect

The model follows the code.

- **No board-lot rounding.** The share counts are plain
  `Math.floor(money / mos)` (utils/calculations.ts:65-67), with no rounding
  down to lots of 100 shares. For example, 200000 at a tier price of 20.6
  gives 9708 shares, not 9700 (`Calculations.ValidExample`).
- **`yieldForecast` is never set.** `CalculationResult` declares it
  (types.ts:28), but `calculateDDM` never produces it, so the forecast-yield cell of a row can
  only show its `0.00%` branch.
- **Garbled reason text.** The reason text for r ≤ g
  (utils/calculations.ts:48) is a mis-decoded string. It is the constant `RateNotAboveGrowth` here.
- **Coupled edits keep the row's error.** The symbol, growth and
  required-return edits clear the row's error message, but the price,
  dividend and yield edits do not (components/StockRow.tsx:28, 34, 40): a
  failed fetch's message stays on the row after those edits
  (`StockRow.CoupledEditsKeepOtherFields`).

## Model

| member | source | states |
|---|---|---|
| `Calculations.Invalid` | utils/calculations.ts:18-31 | an unusable result is not valid, carries its reason and keeps the given d1; its fair price, tier prices and share counts are all 0 and it has no forecast yield |
| `Calculations.MaxShares` | utils/calculations.ts:65-67 | with a positive tier price, the count n satisfies n·mos ≤ money < (n+1)·mos (the largest affordable whole number); otherwise it is 0 |
| `Calculations.FloorDivBounds` | utils/calculations.ts:65-67 | floor(money/mos)·mos ≤ money < (floor(money/mos)+1)·mos for mos > 0 |
| `Calculations.CalculateDDM` | utils/calculations.ts:4-70 | dividend ≤ 0 gives the all-zero "No Div" result whatever the other inputs. A positive dividend gives d1 = D0·(1+g), valid or not. The result is valid iff dividend > 0 and r > g, and iff it has no reason. r ≤ g gives the zeroed result with reason RateNotAboveGrowth and d1 kept. When valid, P·(r−g) = d1 and the tiers are 0.7P, 0.6P, 0.5P. P ≥ 0 gives mos50 ≤ mos40 ≤ mos30 ≤ P. Each share count is what the allocation buys at its tier. yieldForecast is never produced |
| `Calculations.DivAntitone` | utils/calculations.ts:65-67 | for money ≥ 0, a larger divisor never gives a larger quotient |
| `Calculations.MaxSharesAntitone` | utils/calculations.ts:65-67 | a deeper discount (a smaller positive tier price) buys at least as many shares, never fewer than 0 |
| `Calculations.SharesOrdered` | utils/calculations.ts:55-57 | a valid result with P > 0 and money ≥ 0 has 0 ≤ maxShares30 ≤ maxShares40 ≤ maxShares50 |
| `Calculations.FairPriceSign` | utils/calculations.ts:33-53 | for a valid result, P > 0 exactly when growth > −100 % |
| `Calculations.ValidExample` | utils/calculations.ts:33-67 | dividend 2, growth 3 %, return 10 % and allocation 200000 give d1 = 2.06, P = 206/7, mos30 = 20.6 and 9708 shares at 30 % |
| `Calculations.InvalidExample` | utils/calculations.ts:33-50 | growth 10 % over return 8 % is invalid with reason RateNotAboveGrowth, P = 0 and d1 = 2.2 kept |
| `Types.Merge` | App.tsx:116 | spreading the empty update `{}` leaves the row as it was (`MergeSpec` states the key-by-key meaning) |
| `Types.MergeSpec` | App.tsx:116 | spreading an update (here and in `{ ...data, loading: false }` at line 131) overwrites exactly the keys the update carries and keeps every other key |
| `Text.TrimStart` | App.tsx:121 | trimming the start never lengthens the text |
| `Text.TrimStartSpec` | App.tsx:121 | the result is a suffix, what was dropped is all whitespace, and the result does not start with whitespace |
| `Text.TrimEnd` | App.tsx:121 | trimming the end never lengthens the text |
| `Text.TrimEndSpec` | App.tsx:121 | the result is a prefix, what was dropped is all whitespace, and the result does not end with whitespace |
| `Text.Trim` | App.tsx:121 | trimming never lengthens the text (`TrimSpec` states what it keeps) |
| `Text.TrimFixpoint` | App.tsx:121 | text that neither starts nor ends with whitespace is its own trim |
| `Text.TrimSpec` | App.tsx:142 | `trim` keeps a contiguous middle slice with only whitespace on either side and no whitespace at either end; the result is empty iff the text is all whitespace |
| `Text.ToUpper` | components/StockRow.tsx:83 | the same length, each character upper-cased |
| `Text.UpperCharKeepsNonWhitespace` | App.tsx:121 | upper-casing never turns a character into whitespace |
| `Text.ToUpperIdempotent` | App.tsx:121 | upper-casing twice is upper-casing once |
| `Text.ContainsFrom` | App.tsx:134 | true iff the needle occurs at some index from the start index on |
| `Text.Contains` | App.tsx:134 | true iff the needle occurs at some index |
| `StockRow.NumberOrZero` | components/StockRow.tsx:26 | `parseFloat(text) \|\| 0`: an empty or unparsable input gives 0, otherwise the parsed value |
| `StockRow.HandleChange` | components/StockRow.tsx:20-22 | the update carries exactly the edited key and `error`; the error is cleared and the key gets the value |
| `StockRow.HandleSymbolChange` | components/StockRow.tsx:83 | the update carries only `symbol` and `error`; the symbol is the typed text upper-cased character by character; the error is cleared |
| `StockRow.HandlePriceChange` | components/StockRow.tsx:25-29 | the update carries exactly price and yield. Price = input or 0. With a positive price, yield·price = dividend·100; otherwise the yield is 0 |
| `StockRow.HandleDividendChange` | components/StockRow.tsx:31-35 | the update carries exactly dividend and yield. Dividend = input or 0. With a positive price, yield·price = dividend·100; otherwise the yield is 0 |
| `StockRow.HandleYieldChange` | components/StockRow.tsx:37-41 | the update carries exactly yield and dividend; yield = input or 0; dividend·100 = price·yield, so price 0 gives dividend 0 |
| `StockRow.HandleGrowthChange` | components/StockRow.tsx:43-46 | the update carries exactly growth and error; an empty or unparsable input gives 0, otherwise the parsed value; the error is cleared |
| `StockRow.HandleReturnChange` | components/StockRow.tsx:48-51 | the same for the required return |
| `StockRow.Result` | components/StockRow.tsx:17 | the displayed valuation is valid iff dividend > 0 and return > growth; it never has a positive forecast yield |
| `StockRow.CoupledAfterEdit` | components/StockRow.tsx:25-41 | after any of the three coupled edits, with a positive price, yield·price = dividend·100, whatever the row held before |
| `StockRow.CoupledEditsKeepOtherFields` | components/StockRow.tsx:28-40 | each coupled edit leaves every key except its own two, `error` included, as it was |
| `StockRow.CoupledKeptByGrowthAndReturnEdits` | components/StockRow.tsx:43-51 | growth and return edits keep a coupled row coupled |
| `StockRow.DividendYieldRoundTrip` | components/StockRow.tsx:31-41 | with a positive price, a dividend edit to D followed by a yield edit to the resulting yield gives dividend D again |
| `StockRow.YieldDividendRoundTrip` | components/StockRow.tsx:31-41 | with a positive price, a yield edit to Y followed by a dividend edit to the resulting dividend gives yield Y again |
| `PortfolioSummary.MoneyPerCompany` | components/PortfolioSummary.tsx:13-15 | a positive count gives m·count = capital, otherwise m = 0. Capital ≥ 0 gives m ≥ 0. Count 1 gives the whole capital |
| `PortfolioSummary.HandleCapitalChange` | components/PortfolioSummary.tsx:17-20 | an empty or unparsable input gives capital 0, otherwise the parsed value with negatives kept; the count is unchanged |
| `PortfolioSummary.HandleCountChange` | components/PortfolioSummary.tsx:22-25 | the count is always ≥ 1. A parsed value ≥ 1 is kept, and anything else gives 1. The capital is unchanged |
| `PortfolioSummary.AllocationAfterCountEdit` | components/PortfolioSummary.tsx:13-15 | after any count edit the allocation is capital / count: the 0 branch cannot be taken |
| `PortfolioSummary.EditsCommute` | components/PortfolioSummary.tsx:17-25 | a capital edit and a count edit give the same settings in either order |
| `StockTable.MoneyPerCompany` | components/StockTable.tsx:24-26 | the table's allocation is the one the settings panel shows. Capital ≥ 0 gives a non-negative allocation. Count 1 gives the whole capital |
| `StockTable.RenderRows` | components/StockTable.tsx:68-76 | one row per stock, in list order, keyed by its id; each gets the same allocation and shows `calculateDDM` of its stock and that allocation |
| `StockTable.Rows` | components/StockTable.tsx:24-26 | the same, with the allocation computed from the settings |
| `StockTable.SameAllocationEverywhere` | components/StockTable.tsx:72 | any two rows receive the same allocation |
| `StockTable.RenderRowsAppend` | components/StockTable.tsx:68 | rendering a concatenation is the concatenation of the renderings |
| `App.NewStock` | App.tsx:89-103 | the new row has the given id and the empty symbol; price, pe, pbv, de, roe, eps, dividend and yield are all 0; growth is 3.0 and required return 10.0 (the defaults); it is not loading and has no error, sources or reference year |
| `App.NewStockHasNoValuation` | App.tsx:88-103 | a new row has no dividend, so its valuation is "No Div" with P = 0 and no shares |
| `App.UpdateRows` | App.tsx:116 | the length is unchanged; each row with the id is merged with the update; every other row is unchanged |
| `App.UpdateRowsFields` | App.tsx:116 | key by key: in a matching row each key the update carries is overwritten and every other key is kept; other rows are untouched |
| `App.UpdateUnknownId` | App.tsx:116 | an update for an id not in the list changes nothing |
| `App.UpdateKeepsIds` | App.tsx:116 | an update without an `id` key keeps every row's id, so distinct ids stay distinct |
| `App.RemoveRows` | App.tsx:110 | no kept row has the id, there are no more of them than rows, and an absent id changes nothing (`RemoveRowsMembers` and `RemoveRowsAppend` give membership and order) |
| `App.RemoveRowsMembers` | App.tsx:110 | every kept row was in the list, and every row without the id is kept |
| `App.RemoveRowsAppend` | App.tsx:110 | removal works piecewise on a concatenation, so the kept rows stay in order |
| `App.RemoveKeepsUnique` | App.tsx:110 | removing rows keeps ids distinct |
| `App.Normalize` | App.tsx:121 | the normalised symbol is the trimmed text upper-cased character by character; it is empty exactly when the typed symbol is all whitespace |
| `App.NormalizeIdempotent` | App.tsx:121 | normalising a normalised symbol changes nothing, so refreshing a refreshed row again with its own symbol keeps the symbol |
| `App.NormalizeBlank` | App.tsx:121-122 | the trimmed, upper-cased symbol is empty iff the trimmed symbol is empty, so the refresh guard and the refresh-all filter agree |
| `App.IsKeyFailureSpec` | App.tsx:134 | a message counts as a credential failure exactly when "entity was not found" or "API Key" occurs somewhere in it |
| `App.ServiceKeyErrorIsKeyFailure` | services/stockService.ts:80 | every message that starts with "API Key", the service's rewritten credential error among them, is recognised as a key failure |
| `App.SymbolRequiredUpdate` | App.tsx:123 | the update carries only the `error` key, set to "Symbol required" |
| `App.PendingUpdate` | App.tsx:127 | the update carries exactly `symbol`, `loading` and `error`; loading is on, the error cleared, the symbol the given one |
| `App.CompletionUpdate` | App.tsx:131-137 | loading is turned off. A success carries every fetched key and `loading`, and never `id`, `symbol`, growth, required return or `error`. A failure carries only `loading` and `error`, with the message as error ("Fetch failed" when it is empty) |
| `App.PendingRow` | App.tsx:127 | while its fetch is outstanding, the row has the normalised symbol, is loading, has no error and is otherwise unchanged |
| `App.RefreshRow` | App.tsx:120-139 | a refresh never changes the row's id |
| `App.RefreshRowSpec` | App.tsx:120-139 | a blank symbol only sets the error to "Symbol required" (no fetch, loading untouched). A success sets the normalised symbol and all fetched fields, with loading off and the error cleared. A failure keeps the old data, sets the normalised symbol and turns loading off, with the message as error ("Fetch failed" when the message is empty) |
| `App.RefreshedRows` | App.tsx:120-139 | the three successive list updates of one refresh keep the number of rows |
| `App.RefreshedRowsSpec` | App.tsx:120-139 | those updates change exactly the rows with the id, each as `RefreshRow` says, and leave every other row as it was |
| `App.KeyAfterRefresh` | App.tsx:121-136 | the key status changes only to false, and only when the symbol is not blank and the fetch failed with a message mentioning "entity was not found" or "API Key"; such a failure with a non-blank symbol always sets it |
| `App.RefreshTargets` | App.tsx:142 | there are no more targets than rows |
| `App.RefreshTargetsMembers` | App.tsx:142 | every target is a row of the list and has a non-blank symbol |
| `App.RefreshTargetsCons` | App.tsx:142 | the filter keeps a list's first row exactly when its symbol is not blank, and filters the rest alone |
| `App.RefreshTargetsAppend` | App.tsx:142 | the target filter works piecewise on a concatenation, so the targets stay in list order |
| `App.RefreshTargetsUnique` | App.tsx:142 | the targets of a list with distinct ids have distinct ids |
| `App.RefreshAllRows` | App.tsx:145-147 | refreshing the targets one after another keeps the length and every row's id |
| `App.RefreshAllKey` | App.tsx:134-147 | after the targets are refreshed one after another, the key status is false or as it was (`RefreshAllKeySpec` says which) |
| `App.RefreshAllStep` | App.tsx:145-147 | one more target is one more single-row refresh, of the rows and of the key status |
| `App.RefreshAllUntouched` | App.tsx:145-147 | a row whose id no target carries comes out unchanged |
| `App.RefreshAllHit` | App.tsx:145-147 | with distinct target ids, the row a target names ends as that single refresh makes it |
| `App.TargetAtRank` | App.tsx:142 | a row with a symbol is the target at its rank (the number of targets before it) |
| `App.RefreshAllSpec` | App.tsx:141-149 | with distinct ids, rows with a blank symbol are left as they were. Every other row is refreshed with its own symbol and its own fetch outcome, the rank-th in list order, as if refreshed alone |
| `App.SomeKeyFailureLast` | App.tsx:134-135 | a credential failure among the outcomes is one among all but the last, or the last itself |
| `App.KeyAfterTarget` | App.tsx:121-136 | for a row with a non-blank symbol, only the fetch outcome decides the key status: a credential failure sets it to false, anything else keeps it |
| `App.RefreshAllKeySpec` | App.tsx:134-136 | after a refresh-all the key status is false if any fetch failed with a credential error, and unchanged otherwise |
| `App.Portfolio.constructor` | App.tsx:11-18 | the initial state: default settings, no rows, saved, key status unknown, not refreshing |
| `App.Portfolio.MarkUnsaved` | App.tsx:79-81 | clears the saved flag and nothing else |
| `App.Portfolio.HandleSave` | App.tsx:69-77 | stores a snapshot of the current settings and rows and marks the state saved; nothing else changes |
| `App.Portfolio.HandleSettingsChange` | App.tsx:83-86 | replaces the settings and marks the state unsaved; nothing else changes |
| `App.Portfolio.HandleAddStock` | App.tsx:88-106 | appends exactly one blank row with the defaults at the end and marks the state unsaved. Distinct ids stay distinct for a fresh id. Nothing else changes |
| `App.Portfolio.HandleDeleteStock` | App.tsx:108-113 | when confirmed, removes the rows with the id and marks the state unsaved; when not, nothing changes, the saved flag included; distinct ids stay distinct |
| `App.Portfolio.HandleUpdateStock` | App.tsx:115-118 | merges the update into the rows with the id and marks the state unsaved; nothing else changes |
| `App.Portfolio.HandleRefreshStock` | App.tsx:120-139 | the rows become `RefreshedRows` and the key status `KeyAfterRefresh`. The state is marked unsaved. The settings, the refresh-all flag and the stored snapshot are unchanged |
| `App.Portfolio.HandleRefreshAll` | App.tsx:141-149 | refreshes the non-blank-symbol rows one after another, in list order, each with its own outcome. With no such row it is a no-op, the saved flag included. The refresh-all flag ends false when there was a target, and as it started otherwise |

## Left out

- Fetching the data (services/stockService.ts) is not modelled: the prompt, the network call, JSON parsing and source extraction. A fetch is an input, either the fetched record or the error's message. The service's message rewriting matters only through the text `App.IsKeyFailure` inspects.
- The `companyName` key the service adds to its record is not modelled. A `Stock` has no such key, so the spread of the fetched data into a row is modelled over the `Stock` keys only.
- API-key discovery and selection (App.tsx:21-49) use the environment and the host window. `hasKey` starts unknown, and only the refresh handler sets it.
- Loading the saved portfolio (App.tsx:51-67) is not modelled. Neither is the initial empty-list row it adds, which depends on local storage and JSON parsing.
- `App.Portfolio.HandleSave`: models the write to local storage as a snapshot field. The `isSaving` indicator and the 500 ms timer before the saved flag is set are left out. The saved flag is set at once.
- Asynchrony and React state batching are not modelled. Each handler runs to completion, and each fetch settles before the next starts, as the sequential `await` in the refresh-all loop intends.
- The stale `isSaved` closure of `markUnsaved` inside the memoised update handler is not modelled. Here `MarkUnsaved` always reads the current flag.
- `confirm()` and `crypto.randomUUID()` are not modelled; their results are parameters.
- Number parsing (`parseFloat`, `parseInt`) is not modelled. Handler inputs are already parsed, and `None` stands for an empty or NaN result.
- `Calculations.CalculateDDM`: the `x || 0` defaults for growth and return are the identity on real numbers, so missing or NaN values are not modelled.
- IEEE-754 rounding, NaN and infinities are not modelled. The arithmetic is exact, so the round trips hold exactly.
- `Text.ToUpper`: models the upper-casing of ASCII letters only, not the full Unicode case mapping of `toUpperCase`.
- The number and currency formatters (`formatCurrency`, `formatNumber`, `formatForInput`) are locale formatting and are not modelled.
- The markup, styling and the Enter-key shortcut of a row are not modelled (the shortcut only calls the refresh handler). Neither is `MOCK_DELAY_MS`, which no modelled code uses.
