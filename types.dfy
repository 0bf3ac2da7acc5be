/**
 * The records of the portfolio calculator (types.ts) and its default
 * constants (constants.ts).  JavaScript numbers are exact reals here; a
 * field that TypeScript marks optional (`error?`, `sources?`,
 * `referenceYear?`) is an Option.
 */
module Types {

  datatype Option<+T> = None | Some(value: T) {
    /** The value, or `default` when there is none. */
    function GetOr(default: T): T {
      match this
      case Some(v) => v
      case None => default
    }
  }

  /** One citation returned by the data service. */
  datatype Source = Source(title: string, uri: string)

  /** One tracked equity: a row of the table. */
  datatype Stock = Stock(
    id: string,
    symbol: string,
    price: real,
    pe: real,
    pbv: real,
    de: real,
    roe: real,
    eps: real,
    dividendBaht: real,
    yieldPercent: real,
    growth: real,
    requiredReturn: real,
    loading: bool,
    error: Option<string>,
    sources: Option<seq<Source>>,
    referenceYear: Option<string>)

  datatype PortfolioSettings = PortfolioSettings(totalCapital: real, companyCount: int)

  /** Why a valuation is not usable: no dividend, or r <= g. */
  datatype Reason = NoDiv | RateNotAboveGrowth

  datatype CalculationResult = CalculationResult(
    d1: real,
    yieldForecast: Option<real>,
    ddmPrice: real,
    mos30: real,
    mos40: real,
    mos50: real,
    maxShares30: int,
    maxShares40: int,
    maxShares50: int,
    isValid: bool,
    errorReason: Option<Reason>)

  const DEFAULT_GROWTH: real := 3.0
  const DEFAULT_REQ_RETURN: real := 10.0
  const INITIAL_PORTFOLIO_SETTINGS: PortfolioSettings := PortfolioSettings(1000000.0, 5)

  /**
   * `Partial<Stock>`: every key may be absent (None).  For the optional
   * fields a present key may itself hold `undefined`, hence the nested
   * Option: `Some(None)` is `{ error: undefined }`.
   */
  datatype StockUpdate = StockUpdate(
    id: Option<string>,
    symbol: Option<string>,
    price: Option<real>,
    pe: Option<real>,
    pbv: Option<real>,
    de: Option<real>,
    roe: Option<real>,
    eps: Option<real>,
    dividendBaht: Option<real>,
    yieldPercent: Option<real>,
    growth: Option<real>,
    requiredReturn: Option<real>,
    loading: Option<bool>,
    error: Option<Option<string>>,
    sources: Option<Option<seq<Source>>>,
    referenceYear: Option<Option<string>>)

  /** The empty object literal `{}`. */
  const EmptyUpdate: StockUpdate :=
    StockUpdate(None, None, None, None, None, None, None, None,
                None, None, None, None, None, None, None, None)

  /** The keys of a Stock, so that updates can be reasoned about key by key. */
  datatype Field =
    | Id | Symbol | Price | Pe | Pbv | De | Roe | Eps
    | DividendBaht | YieldPercent | Growth | RequiredReturn
    | Loading | Error | Sources | ReferenceYear

  /** The value stored under one key, whatever its type. */
  datatype Value =
    | Text(s: string)
    | Number(x: real)
    | Flag(b: bool)
    | OptText(t: Option<string>)
    | OptSources(o: Option<seq<Source>>)

  /** `stock[f]`. */
  function Get(s: Stock, f: Field): Value {
    match f
    case Id => Text(s.id)
    case Symbol => Text(s.symbol)
    case Price => Number(s.price)
    case Pe => Number(s.pe)
    case Pbv => Number(s.pbv)
    case De => Number(s.de)
    case Roe => Number(s.roe)
    case Eps => Number(s.eps)
    case DividendBaht => Number(s.dividendBaht)
    case YieldPercent => Number(s.yieldPercent)
    case Growth => Number(s.growth)
    case RequiredReturn => Number(s.requiredReturn)
    case Loading => Flag(s.loading)
    case Error => OptText(s.error)
    case Sources => OptSources(s.sources)
    case ReferenceYear => OptText(s.referenceYear)
  }

  /** `f in updates`: whether an update object carries key `f`. */
  predicate Has(u: StockUpdate, f: Field) {
    match f
    case Id => u.id.Some?
    case Symbol => u.symbol.Some?
    case Price => u.price.Some?
    case Pe => u.pe.Some?
    case Pbv => u.pbv.Some?
    case De => u.de.Some?
    case Roe => u.roe.Some?
    case Eps => u.eps.Some?
    case DividendBaht => u.dividendBaht.Some?
    case YieldPercent => u.yieldPercent.Some?
    case Growth => u.growth.Some?
    case RequiredReturn => u.requiredReturn.Some?
    case Loading => u.loading.Some?
    case Error => u.error.Some?
    case Sources => u.sources.Some?
    case ReferenceYear => u.referenceYear.Some?
  }

  /** `updates[f]` for a key the update carries. */
  function Assigned(u: StockUpdate, f: Field): Value
    requires Has(u, f)
  {
    match f
    case Id => Text(u.id.value)
    case Symbol => Text(u.symbol.value)
    case Price => Number(u.price.value)
    case Pe => Number(u.pe.value)
    case Pbv => Number(u.pbv.value)
    case De => Number(u.de.value)
    case Roe => Number(u.roe.value)
    case Eps => Number(u.eps.value)
    case DividendBaht => Number(u.dividendBaht.value)
    case YieldPercent => Number(u.yieldPercent.value)
    case Growth => Number(u.growth.value)
    case RequiredReturn => Number(u.requiredReturn.value)
    case Loading => Flag(u.loading.value)
    case Error => OptText(u.error.value)
    case Sources => OptSources(u.sources.value)
    case ReferenceYear => OptText(u.referenceYear.value)
  }

  /** `{ ...s, ...u }`: the keys present in `u` overwrite, the rest stay. */
  function Merge(s: Stock, u: StockUpdate): (r: Stock)
    // spreading `{}` changes nothing
    ensures u == EmptyUpdate ==> r == s
  {
    Stock(
      u.id.GetOr(s.id),
      u.symbol.GetOr(s.symbol),
      u.price.GetOr(s.price),
      u.pe.GetOr(s.pe),
      u.pbv.GetOr(s.pbv),
      u.de.GetOr(s.de),
      u.roe.GetOr(s.roe),
      u.eps.GetOr(s.eps),
      u.dividendBaht.GetOr(s.dividendBaht),
      u.yieldPercent.GetOr(s.yieldPercent),
      u.growth.GetOr(s.growth),
      u.requiredReturn.GetOr(s.requiredReturn),
      u.loading.GetOr(s.loading),
      u.error.GetOr(s.error),
      u.sources.GetOr(s.sources),
      u.referenceYear.GetOr(s.referenceYear))
  }

  /** Spreading an update: every key it carries is overwritten, every other key keeps its value. */
  lemma {:induction false} MergeSpec(s: Stock, u: StockUpdate)
    ensures forall f :: Has(u, f) ==> Get(Merge(s, u), f) == Assigned(u, f)
    ensures forall f :: !Has(u, f) ==> Get(Merge(s, u), f) == Get(s, f)
  {
    forall f ensures Has(u, f) ==> Get(Merge(s, u), f) == Assigned(u, f) {
      match f
      case Id =>
      case Symbol =>
      case Price =>
      case Pe =>
      case Pbv =>
      case De =>
      case Roe =>
      case Eps =>
      case DividendBaht =>
      case YieldPercent =>
      case Growth =>
      case RequiredReturn =>
      case Loading =>
      case Error =>
      case Sources =>
      case ReferenceYear =>
    }
    forall f ensures !Has(u, f) ==> Get(Merge(s, u), f) == Get(s, f) {
      match f
      case Id =>
      case Symbol =>
      case Price =>
      case Pe =>
      case Pbv =>
      case De =>
      case Roe =>
      case Eps =>
      case DividendBaht =>
      case YieldPercent =>
      case Growth =>
      case RequiredReturn =>
      case Loading =>
      case Error =>
      case Sources =>
      case ReferenceYear =>
    }
  }
}
