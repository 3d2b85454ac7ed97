/** The one computation `get_stock_foundation` makes on the parsed maps
    itself: the debt-to-equity ratio stored into the market dict, with
    equity `BVPS * Total_Shares` and a guard for equity that is not
    positive. The application rounds only the ratio; the engine rounds
    whichever branch it takes. */
module Foundation {
  import opened Wrappers
  import opened OrderedDict
  import opened PyValue
  import opened Coerce
  import opened Flatten
  import opened Market

  /** The key the ratio is stored under. */
  const RatioKey: string := "Debt_to-Equity"

  /** A Python number as a real; `None` for anything `*`, `/` or `>` on a
      number rejects. */
  function AsNumber(v: Json): (r: Option<real>)
    ensures v.JFloat? ==> r == Some(v.x)
    ensures v.JStr? || v.JNull? || v.JArr? || v.JObj? ==> r.None?
  {
    match v
    case JBool(b) => Some(if b then 1.0 else 0.0)
    case JInt(i) => Some(i as real)
    case JFloat(x) => Some(x)
    case _ => None
  }

  /** `financials.get('BVPS', 0) * market.get('Total_Shares', 0)`. */
  function Equity(financials: Flat, market: Flat): Option<real> {
    match (AsNumber(GetOr(financials, "BVPS", JInt(0))), AsNumber(GetOr(market, "Total_Shares", JInt(0))))
    case (Some(b), Some(s)) => Some(b * s)
    case _ => None
  }

  /** `market['Total_Debt'] / total_equity` for a positive equity; `None`
      when the key is missing (`KeyError`) or its value is not a number. */
  function DebtOver(market: Flat, equity: real): Option<real>
    requires equity > 0.0
  {
    match Get(market, "Total_Debt")
    case None => None
    case Some(v) =>
      match AsNumber(v)
      case None => None
      case Some(t) => Some(t / equity)
  }

  /** `Final_app.py`: `round(Total_Debt / equity, 2) if equity > 0 else 0.0`,
      stored into the market dict. */
  function AppDebtToEquity(financials: Flat, market: Flat): Outcome<Flat> {
    match Equity(financials, market)
    case None => Raised
    case Some(e) =>
      if e > 0.0 then
        match DebtOver(market, e)
        case None => Raised
        case Some(q) => Done(Set(market, RatioKey, JFloat(Round2(q))))
      else Done(Set(market, RatioKey, JFloat(0.0)))
  }

  /** `stock_engine.py`: `d_e_ratio = Total_Debt / equity` or `0.0`, then
      `round(d_e_ratio, 2)` stored into the market dict. */
  function EngineDebtToEquity(financials: Flat, market: Flat): Outcome<Flat> {
    match Equity(financials, market)
    case None => Raised
    case Some(e) =>
      var ratio := if e > 0.0 then DebtOver(market, e) else Some(0.0);
      match ratio
      case None => Raised
      case Some(q) => Done(Set(market, RatioKey, JFloat(Round2(q))))
  }

  /** Rounding the guard's 0.0 leaves it 0.0, so the two versions are the
      same function of the two maps. */
  lemma DebtToEquityAgree(financials: Flat, market: Flat)
    ensures AppDebtToEquity(financials, market) == EngineDebtToEquity(financials, market)
  {
    Round2Exact(0);
  }

  /** Equity that is not positive stores exactly 0.0, whatever the debt,
      and a missing `BVPS` or `Total_Shares` counts as 0. */
  lemma DebtToEquityGuard(financials: Flat, market: Flat)
    requires Equity(financials, market).Some? && Equity(financials, market).value <= 0.0
    ensures EngineDebtToEquity(financials, market) == Done(Set(market, RatioKey, JFloat(0.0)))
  {
    Round2Exact(0);
  }

  /** A missing `BVPS` or `Total_Shares` makes the equity 0. */
  lemma MissingCountsZero(financials: Flat, market: Flat)
    requires "BVPS" !in financials.keys || "Total_Shares" !in market.keys
    requires Equity(financials, market).Some?
    ensures Equity(financials, market) == Some(0.0)
  {
  }

  /** Positive equity stores the debt over the equity rounded to two
      places, which is within half a hundredth of the exact ratio. */
  lemma DebtToEquityRatio(financials: Flat, market: Flat, debt: real)
    requires Equity(financials, market).Some? && Equity(financials, market).value > 0.0
    requires Get(market, "Total_Debt") == Some(JFloat(debt))
    ensures var e := Equity(financials, market).value;
            && EngineDebtToEquity(financials, market) == Done(Set(market, RatioKey, JFloat(Round2(debt / e))))
            && -0.005 <= Round2(debt / e) - debt / e <= 0.005
  {
  }

  /** With float `Total_Shares` and `Total_Debt` entries and a `BVPS`
      that is missing or a float, the step never raises and changes no
      entry but the ratio's. */
  lemma StoreRatio(financials: Flat, market: Flat)
    requires "BVPS" !in financials.keys || Get(financials, "BVPS").value.JFloat?
    requires Get(market, "Total_Shares").Some? && Get(market, "Total_Shares").value.JFloat?
    requires Get(market, "Total_Debt").Some? && Get(market, "Total_Debt").value.JFloat?
    ensures EngineDebtToEquity(financials, market).Done?
    ensures EngineDebtToEquity(financials, market).value.keys ==
            if RatioKey in market.keys then market.keys else market.keys + [RatioKey]
    ensures forall k :: k != RatioKey ==> Get(EngineDebtToEquity(financials, market).value, k) == Get(market, k)
  {
  }

  /** On a market dict `parse_api_2_market` returned and a `BVPS` that is
      missing or a float, the step never raises: the dict gains the ratio
      as its last key and every other key, `Net_Debt` among them, keeps its
      value. */
  lemma FoundationMarket(data: Json, show: Show, market: Flat, financials: Flat)
    requires Market.Market(data, show) == Done(market)
    requires "BVPS" !in financials.keys || Get(financials, "BVPS").value.JFloat?
    ensures EngineDebtToEquity(financials, market).Done?
    ensures var m := EngineDebtToEquity(financials, market).value;
            && m.keys == MarketKeys + [RatioKey]
            && (forall k :: k != RatioKey ==> Get(m, k) == Get(market, k))
  {
    MarketShape(data, show, market);
    MarketNetDebt(data, show, market);
    MarketNumbers(data, show, market, "Total_Shares", "shares");
    StoreRatio(financials, market);
    RatioKeyNew();
  }

  lemma RatioKeyNew()
    ensures RatioKey !in MarketKeys
  {
  }
}
