/** `parse_api_2_market`: a fixed list of assignments, each reading one field
    of the share-price object (or of one of its nested groups) through
    `clean_number`, then the raw date and the net debt computed from two
    values already stored. Both files define it identically. */
module Market {
  import opened Wrappers
  import opened OrderedDict
  import opened PyValue
  import opened Coerce
  import opened Flatten

  /** `clean_number(obj.get(name))`; `None` where it raises. */
  function Coerced(fs: seq<(string, Json)>, name: string): Option<real> {
    CleanNumber(ObjGet(fs, name, JNull))
  }

  /** The float stored from `obj.get(name)` when that does not raise. */
  function Number(fs: seq<(string, Json)>, name: string): real {
    Coerced(fs, name).GetOr(0.0)
  }

  /** `data.get(name, {})` as the receiver of a further `.get`: `None` when
      the value present is not a dict, so that the `.get` raises. */
  function Group(fs: seq<(string, Json)>, name: string): Option<seq<(string, Json)>> {
    match Lookup(fs, name)
    case None => Some([])
    case Some(JObj(g)) => Some(g)
    case Some(_) => None
  }

  function Members(fs: seq<(string, Json)>, name: string): seq<(string, Json)> {
    Group(fs, name).GetOr([])
  }

  /** Output key and input field of a run of plain numeric assignments. */
  type Table = seq<(string, string)>

  /** The writes `extracted[key] = clean_number(obj.get(field))` of a table, in order. */
  function NumberLog(fs: seq<(string, Json)>, table: Table): (log: seq<Write>)
    ensures |log| == |table|
  {
    seq(|table|, i requires 0 <= i < |table| => (table[i].0, JFloat(Number(fs, table[i].1))))
  }

  /** Row `i` of the table gives write `i`. */
  lemma NumberLogAt(fs: seq<(string, Json)>, table: Table, i: nat)
    requires i < |table|
    ensures NumberLog(fs, table)[i] == (table[i].0, JFloat(Number(fs, table[i].1)))
  {
  }

  /** Some field of the table is a list or a dict, which `float()` rejects. */
  predicate NumbersRaise(fs: seq<(string, Json)>, table: Table) {
    exists i :: 0 <= i < |table| && Coerced(fs, table[i].1).None?
  }

  /** Trading data. */
  const Trading: Table := [
    ("Open", "open"), ("High", "high"), ("Low", "low"), ("LDCP", "ldcp"),
    ("Bid Price", "bid_price"), ("Bid Volume", "bid_volume"),
    ("Ask Price", "ask_price"), ("Ask Volume", "ask_volume"),
    ("Volume", "volume"), ("Value", "value"), ("Close", "close")]

  /** The 52-week figures, read from the object itself. */
  const Week52: Table := [
    ("52W_High", "fifty_two_week_high"), ("52W_Low", "fifty_two_week_low"),
    ("52W_Avg", "fifty_two_week_average")]

  /** The total returns, read from the `total_return` group. */
  const Returns: Table := [
    ("1M Returns", "1M"), ("3M Returns", "3M"), ("6M Returns", "6M"),
    ("1Y Returns", "1Y"), ("3Y Returns", "3Y"), ("5Y Returns", "5Y")]

  /** Valuation and equity profile. */
  const Valuation: Table := [
    ("PE_Live", "pe"), ("Div Yield", "dividend_yield"), ("PBV_Live", "pbv"),
    ("Enterprise Value", "ev"), ("Total_Debt", "total_debt"), ("Cash", "cash"),
    ("Current_Price", "current"), ("Market_Cap", "market_cap"),
    ("Total_Shares", "shares"), ("Free Float Value", "free_float"),
    ("Free Float %", "free_float_percentage"), ("Change", "change"),
    ("Change_%", "change_in_percentage")]

  /** `f"{clean_number(g.get(lo))}-{clean_number(g.get(hi))}"`. */
  function RangeText(g: seq<(string, Json)>, lo: string, hi: string, show: Show): Json {
    JStr(Str(JFloat(Number(g, lo)), show) + "-" + Str(JFloat(Number(g, hi)), show))
  }

  predicate RangeRaises(fs: seq<(string, Json)>, group: string, lo: string, hi: string) {
    match Group(fs, group)
    case None => true
    case Some(g) => Coerced(g, lo).None? || Coerced(g, hi).None?
  }

  /** The circuit-breaker and day-range strings. */
  function RangesLog(fs: seq<(string, Json)>, show: Show): seq<Write> {
    [("Circuit Breaker", RangeText(Members(fs, "circuit_breaker"), "lower_lock", "upper_lock", show)),
     ("Day Range", RangeText(Members(fs, "day_range"), "low", "high", show))]
  }

  predicate RangesRaise(fs: seq<(string, Json)>) {
    RangeRaises(fs, "circuit_breaker", "lower_lock", "upper_lock") || RangeRaises(fs, "day_range", "low", "high")
  }

  predicate HistoryRaises(fs: seq<(string, Json)>) {
    NumbersRaise(fs, Week52) || Group(fs, "total_return").None? ||
    NumbersRaise(Members(fs, "total_return"), Returns)
  }

  /** `extracted['Last_Updated'] = data.get('date', '')`. */
  function DateWrite(fs: seq<(string, Json)>): Write {
    ("Last_Updated", ObjGet(fs, "date", JStr("")))
  }

  /** `extracted['Net_Debt'] = extracted['Total_Debt'] - extracted['Cash']`. */
  function NetDebtWrite(debt: real, cash: real): Write {
    ("Net_Debt", JFloat(debt - cash))
  }

  /** The last two writes: the date, and the net debt from the values the
      `Total_Debt` and `Cash` writes stored. */
  function ClosingWrites(fs: seq<(string, Json)>): seq<Write> {
    [DateWrite(fs), NetDebtWrite(Number(fs, "total_debt"), Number(fs, "cash"))]
  }

  /** The writes of the five sections of numbers and ranges, in order. */
  function SectionsLog(fs: seq<(string, Json)>, show: Show): seq<Write> {
    NumberLog(fs, Trading) + RangesLog(fs, show) + NumberLog(fs, Week52) +
    NumberLog(Members(fs, "total_return"), Returns) + NumberLog(fs, Valuation)
  }

  /** All 37 writes. */
  function MarketLog(fs: seq<(string, Json)>, show: Show): seq<Write> {
    SectionsLog(fs, show) + ClosingWrites(fs)
  }

  /** An exception escapes `parse_api_2_market`: a field that `float()`
      rejects, or a nested group that is present but not a dict. */
  predicate MarketRaises(fs: seq<(string, Json)>) {
    NumbersRaise(fs, Trading) || RangesRaise(fs) || HistoryRaises(fs) || NumbersRaise(fs, Valuation)
  }

  /** `parse_api_2_market(data)`; `data.get` raises unless `data` is a dict. */
  function Market(data: Json, show: Show): Outcome<Flat> {
    if !data.JObj? || MarketRaises(data.fields) then Raised
    else Done(Replay(EmptyDict(), MarketLog(data.fields, show)))
  }

  /** The output keys, in the order the code assigns them. */
  const MarketKeys: seq<string> :=
    KeysOf(Trading) + ["Circuit Breaker", "Day Range"] + KeysOf(Week52) + KeysOf(Returns) +
    KeysOf(Valuation) + ["Last_Updated", "Net_Debt"]

  lemma NumberLogKeys(fs: seq<(string, Json)>, table: Table)
    ensures KeysOf(NumberLog(fs, table)) == KeysOf(table)
  {
  }

  lemma RangesKeys(fs: seq<(string, Json)>, show: Show)
    ensures KeysOf(RangesLog(fs, show)) == ["Circuit Breaker", "Day Range"]
  {
  }

  lemma ClosingKeys(fs: seq<(string, Json)>)
    ensures KeysOf(ClosingWrites(fs)) == ["Last_Updated", "Net_Debt"]
  {
  }

  /** The keys of the writes do not depend on the data. */
  lemma MarketLogKeys(fs: seq<(string, Json)>, show: Show)
    ensures KeysOf(MarketLog(fs, show)) == MarketKeys
  {
    var a := NumberLog(fs, Trading);
    var b := RangesLog(fs, show);
    var c := NumberLog(fs, Week52);
    var c2 := NumberLog(Members(fs, "total_return"), Returns);
    var e := NumberLog(fs, Valuation);
    var f := ClosingWrites(fs);
    NumberLogKeys(fs, Trading);
    NumberLogKeys(fs, Week52);
    NumberLogKeys(Members(fs, "total_return"), Returns);
    NumberLogKeys(fs, Valuation);
    RangesKeys(fs, show);
    ClosingKeys(fs);
    KeysOfAppend(a, b);
    KeysOfAppend(a + b, c);
    KeysOfAppend(a + b + c, c2);
    KeysOfAppend(a + b + c + c2, e);
    KeysOfAppend(SectionsLog(fs, show), f);
  }

  lemma TradingKeysDistinct()
    ensures Distinct(KeysOf(Trading))
    ensures forall x :: x in KeysOf(Trading) ==> x !in ["Circuit Breaker", "Day Range"]
  {
  }

  lemma HistoryKeysDistinct()
    ensures Distinct(KeysOf(Week52)) && Distinct(KeysOf(Returns))
    ensures forall x :: x in KeysOf(Trading) + ["Circuit Breaker", "Day Range"] ==> x !in KeysOf(Week52)
    ensures forall x :: x in KeysOf(Trading) + ["Circuit Breaker", "Day Range"] + KeysOf(Week52) ==> x !in KeysOf(Returns)
  {
  }

  lemma ValuationKeysDistinct()
    ensures Distinct(KeysOf(Valuation))
  {
  }

  lemma TradingValuationApart()
    ensures forall x :: x in KeysOf(Trading) ==> x !in KeysOf(Valuation)
  {
  }

  lemma HistoryValuationApart()
    ensures forall x :: x in ["Circuit Breaker", "Day Range"] + KeysOf(Week52) + KeysOf(Returns) ==> x !in KeysOf(Valuation)
  {
  }

  lemma ClosingKeysDistinct()
    ensures var before := KeysOf(Trading) + ["Circuit Breaker", "Day Range"] + KeysOf(Week52) + KeysOf(Returns) + KeysOf(Valuation);
            "Last_Updated" !in before && "Net_Debt" !in before
  {
  }

  /** No output key is assigned twice. */
  lemma MarketKeysDistinct()
    ensures Distinct(MarketKeys)
  {
    var t := KeysOf(Trading);
    var b := ["Circuit Breaker", "Day Range"];
    TradingKeysDistinct();
    DistinctAppend(t, b);
    HistoryKeysDistinct();
    DistinctAppend(t + b, KeysOf(Week52));
    DistinctAppend(t + b + KeysOf(Week52), KeysOf(Returns));
    ValuationKeysDistinct();
    TradingValuationApart();
    HistoryValuationApart();
    assert forall x :: x in t + b + KeysOf(Week52) + KeysOf(Returns) ==>
                       x in t || x in b + KeysOf(Week52) + KeysOf(Returns);
    DistinctAppend(t + b + KeysOf(Week52) + KeysOf(Returns), KeysOf(Valuation));
    ClosingKeysDistinct();
    DistinctAppend(t + b + KeysOf(Week52) + KeysOf(Returns) + KeysOf(Valuation), ["Last_Updated", "Net_Debt"]);
  }

  // ---------------------------------------------------------------------
  // The function as the code runs it, loop by loop.

  lemma NumberLogSnoc(fs: seq<(string, Json)>, table: Table, i: nat)
    requires i < |table|
    ensures NumberLog(fs, table[..i + 1]) == NumberLog(fs, table[..i]) + [(table[i].0, JFloat(Number(fs, table[i].1)))]
  {
  }

  /** A run of `extracted[key] = clean_number(obj.get(field))` lines, one
      per row of `table`, in order. */
  method WriteNumbers(d: Flat, fs: seq<(string, Json)>, table: Table) returns (r: Outcome<Flat>)
    ensures r.Raised? <==> NumbersRaise(fs, table)
    ensures r.Done? ==> r.value == Replay(d, NumberLog(fs, table))
  {
    var cur := d;
    var i := 0;
    while i < |table|
      invariant 0 <= i <= |table|
      invariant forall j :: 0 <= j < i ==> Coerced(fs, table[j].1).Some?
      invariant cur == Replay(d, NumberLog(fs, table[..i]))
    {
      var (key, name) := table[i];
      var x := Coerced(fs, name);
      if x.None? {
        return Raised;
      }
      assert forall j :: 0 <= j < i + 1 ==> Coerced(fs, table[j].1).Some? by {
        forall j | 0 <= j < i + 1 ensures Coerced(fs, table[j].1).Some? {
          if j == i { assert table[j].1 == name; }
        }
      }
      NumberLogSnoc(fs, table, i);
      ReplaySnoc(d, NumberLog(fs, table[..i]), key, JFloat(x.value));
      cur := Set(cur, key, JFloat(x.value));
      i := i + 1;
    }
    assert table[..i] == table;
    return Done(cur);
  }

  /** `g = data.get(group, {})` and
      `extracted[key] = f"{clean_number(g.get(lo))}-{clean_number(g.get(hi))}"`. */
  method WriteRange(d: Flat, fs: seq<(string, Json)>, key: string, group: string, lo: string, hi: string, show: Show)
      returns (r: Outcome<Flat>)
    ensures r.Raised? <==> RangeRaises(fs, group, lo, hi)
    ensures r.Done? ==> r.value == Set(d, key, RangeText(Members(fs, group), lo, hi, show))
  {
    var g := Group(fs, group);
    if g.None? {
      return Raised;
    }
    var a := Coerced(g.value, lo);
    if a.None? {
      return Raised;
    }
    var b := Coerced(g.value, hi);
    if b.None? {
      return Raised;
    }
    return Done(Set(d, key, JStr(Str(JFloat(a.value), show) + "-" + Str(JFloat(b.value), show))));
  }

  /** In a table that names each output key once, the run of writes leaves
      the key of row `k` holding that row's number. */
  lemma TableWrite(fs: seq<(string, Json)>, table: Table, k: nat)
    requires k < |table| && Distinct(KeysOf(table))
    ensures LastWrite(NumberLog(fs, table), table[k].0) == Some(JFloat(Number(fs, table[k].1)))
  {
    NumberLogAt(fs, table, k);
    NumberLogKeys(fs, table);
    LastWriteDistinct(NumberLog(fs, table), k);
  }

  lemma DebtAndCashRows()
    ensures Valuation[4] == ("Total_Debt", "total_debt") && Valuation[5] == ("Cash", "cash")
  {
  }

  /** The valuation run comes last, so a key it writes holds what it wrote. */
  lemma SectionsValuation(fs: seq<(string, Json)>, show: Show, k: nat)
    requires k < |Valuation|
    ensures Get(Replay(EmptyDict(), SectionsLog(fs, show)), Valuation[k].0) == Some(JFloat(Number(fs, Valuation[k].1)))
  {
    var p := NumberLog(fs, Trading) + RangesLog(fs, show) + NumberLog(fs, Week52) +
             NumberLog(Members(fs, "total_return"), Returns);
    var v := NumberLog(fs, Valuation);
    ValuationKeysDistinct();
    TableWrite(fs, Valuation, k);
    ReplayAppend(EmptyDict(), p, v);
    ReplayGet(Replay(EmptyDict(), p), v, Valuation[k].0);
  }

  /** When `Net_Debt` is computed, `Total_Debt` and `Cash` hold the values
      their own assignments stored. */
  lemma SectionsDebtAndCash(fs: seq<(string, Json)>, show: Show)
    ensures Get(Replay(EmptyDict(), SectionsLog(fs, show)), "Total_Debt") == Some(JFloat(Number(fs, "total_debt")))
    ensures Get(Replay(EmptyDict(), SectionsLog(fs, show)), "Cash") == Some(JFloat(Number(fs, "cash")))
  {
    DebtAndCashRows();
    SectionsValuation(fs, show, 4);
    SectionsValuation(fs, show, 5);
  }

  /** Storing the date leaves `Total_Debt` and `Cash` as the sections left them. */
  lemma ClosingReads(fs: seq<(string, Json)>, show: Show)
    ensures var cur := Set(Replay(EmptyDict(), SectionsLog(fs, show)), "Last_Updated", ObjGet(fs, "date", JStr("")));
      Get(cur, "Total_Debt") == Some(JFloat(Number(fs, "total_debt"))) && Get(cur, "Cash") == Some(JFloat(Number(fs, "cash")))
  {
    SectionsDebtAndCash(fs, show);
  }

  lemma ReplayClosing(s: seq<Write>, d: Flat, date: Write, debt: Write)
    requires d == Replay(EmptyDict(), s)
    ensures Set(Set(d, date.0, date.1), debt.0, debt.1) == Replay(EmptyDict(), s + [date, debt])
  {
    ReplayAppend(EmptyDict(), s, [date, debt]);
    ReplayPair(d, date, debt);
  }

  /** The date and the net debt complete the writes that precede them. */
  lemma ClosingLog(fs: seq<(string, Json)>, s: seq<Write>, d: Flat, debt: real, cash: real)
    requires d == Replay(EmptyDict(), s)
    requires debt == Number(fs, "total_debt") && cash == Number(fs, "cash")
    ensures Set(Set(d, "Last_Updated", ObjGet(fs, "date", JStr(""))), "Net_Debt", JFloat(debt - cash)) ==
            Replay(EmptyDict(), s + ClosingWrites(fs))
  {
    ReplayClosing(s, d, DateWrite(fs), NetDebtWrite(debt, cash));
  }

  /** `Final_app.py:40-54`: trading data, then the two range strings. */
  method WriteTrading(fs: seq<(string, Json)>, show: Show) returns (r: Outcome<Flat>)
    ensures r.Raised? <==> NumbersRaise(fs, Trading) || RangesRaise(fs)
    ensures r.Done? ==> r.value == Replay(EmptyDict(), NumberLog(fs, Trading) + RangesLog(fs, show))
  {
    var trading := WriteNumbers(EmptyDict(), fs, Trading);
    if trading.Raised? {
      return Raised;
    }
    var breaker := WriteRange(trading.value, fs, "Circuit Breaker", "circuit_breaker", "lower_lock", "upper_lock", show);
    if breaker.Raised? {
      return Raised;
    }
    r := WriteRange(breaker.value, fs, "Day Range", "day_range", "low", "high", show);
    if r.Done? {
      var log := RangesLog(fs, show);
      ReplayAppend(EmptyDict(), NumberLog(fs, Trading), log);
      ReplayPair(trading.value, log[0], log[1]);
    }
  }

  /** `Final_app.py:55-64`: the 52-week figures and the total returns. */
  method WriteHistory(d: Flat, fs: seq<(string, Json)>) returns (r: Outcome<Flat>)
    ensures r.Raised? <==> HistoryRaises(fs)
    ensures r.Done? ==> r.value == Replay(d, NumberLog(fs, Week52) + NumberLog(Members(fs, "total_return"), Returns))
  {
    var week := WriteNumbers(d, fs, Week52);
    if week.Raised? {
      return Raised;
    }
    var totals := Group(fs, "total_return");
    if totals.None? {
      return Raised;
    }
    r := WriteNumbers(week.value, totals.value, Returns);
    if r.Done? {
      ReplayAppend(d, NumberLog(fs, Week52), NumberLog(totals.value, Returns));
    }
  }

  /** `Final_app.py:40-77`: every section of numbers and ranges. */
  method WriteSections(fs: seq<(string, Json)>, show: Show) returns (r: Outcome<Flat>)
    ensures r.Raised? <==> MarketRaises(fs)
    ensures r.Done? ==> r.value == Replay(EmptyDict(), SectionsLog(fs, show))
  {
    var trading := WriteTrading(fs, show);
    if trading.Raised? {
      return Raised;
    }
    var history := WriteHistory(trading.value, fs);
    if history.Raised? {
      return Raised;
    }
    r := WriteNumbers(history.value, fs, Valuation);
    if r.Done? {
      var a := NumberLog(fs, Trading) + RangesLog(fs, show);
      var w, t := NumberLog(fs, Week52), NumberLog(Members(fs, "total_return"), Returns);
      ReplayAppend(trading.value, w, t);
      ReplayAppend(EmptyDict(), a, w);
      ReplayAppend(EmptyDict(), a + w, t);
      ReplayAppend(EmptyDict(), a + w + t, NumberLog(fs, Valuation));
    }
  }

  /** `parse_api_2_market(data)`. */
  method ParseMarket(data: Json, show: Show) returns (r: Outcome<Flat>)
    ensures r == Market(data, show)
  {
    if !data.JObj? {
      return Raised;
    }
    var fs := data.fields;
    var sections := WriteSections(fs, show);
    if sections.Raised? {
      return Raised;
    }
    var cur := Set(sections.value, "Last_Updated", ObjGet(fs, "date", JStr("")));
    ClosingReads(fs, show);
    var debt, cash := Get(cur, "Total_Debt").value.x, Get(cur, "Cash").value.x;
    ClosingLog(fs, SectionsLog(fs, show), sections.value, debt, cash);
    return Done(Set(cur, "Net_Debt", JFloat(debt - cash)));
  }

  // ---------------------------------------------------------------------
  // What the result holds.

  lemma MarketLogDistinct(fs: seq<(string, Json)>, show: Show)
    ensures Distinct(KeysOf(MarketLog(fs, show)))
  {
    MarketLogKeys(fs, show);
    MarketKeysDistinct();
  }

  /** Every fixed output key is present, each once and in the order of the
      assignments, whatever the data holds. */
  lemma MarketShape(data: Json, show: Show, d: Flat)
    requires Market(data, show) == Done(d)
    ensures d.keys == MarketKeys
  {
    MarketLogDistinct(data.fields, show);
    ReplayDistinctKeys(MarketLog(data.fields, show));
    MarketLogKeys(data.fields, show);
  }

  lemma NumberLogHas(fs: seq<(string, Json)>, table: Table, key: string, field: string)
    requires (key, field) in table
    ensures (key, JFloat(Number(fs, field))) in NumberLog(fs, table)
  {
    var i :| 0 <= i < |table| && table[i] == (key, field);
    NumberLogAt(fs, table, i);
  }

  /** A write of the function is what its key holds in the result. */
  lemma MarketHolds(data: Json, show: Show, d: Flat, w: Write)
    requires Market(data, show) == Done(d)
    requires w in MarketLog(data.fields, show)
    ensures Get(d, w.0) == Some(w.1)
  {
    MarketLogDistinct(data.fields, show);
    ReplayDistinctHas(MarketLog(data.fields, show), w);
  }

  /** Each numeric key read from the object itself holds `clean_number` of
      its field. */
  lemma MarketNumbers(data: Json, show: Show, d: Flat, key: string, field: string)
    requires Market(data, show) == Done(d)
    requires (key, field) in Trading || (key, field) in Week52 || (key, field) in Valuation
    ensures Get(d, key) == Some(JFloat(Number(data.fields, field)))
  {
    var fs := data.fields;
    var w := (key, JFloat(Number(fs, field)));
    if (key, field) in Trading {
      NumberLogHas(fs, Trading, key, field);
    } else if (key, field) in Week52 {
      NumberLogHas(fs, Week52, key, field);
    } else {
      NumberLogHas(fs, Valuation, key, field);
    }
    assert w in MarketLog(fs, show);
    MarketHolds(data, show, d, w);
  }

  /** Each return key holds `clean_number` of its field of `total_return`. */
  lemma MarketReturns(data: Json, show: Show, d: Flat, key: string, field: string)
    requires Market(data, show) == Done(d)
    requires (key, field) in Returns
    ensures Get(d, key) == Some(JFloat(Number(Members(data.fields, "total_return"), field)))
  {
    var g := Members(data.fields, "total_return");
    NumberLogHas(g, Returns, key, field);
    assert (key, JFloat(Number(g, field))) in MarketLog(data.fields, show);
    MarketHolds(data, show, d, (key, JFloat(Number(g, field))));
  }

  /** A field missing from the object gives 0.0. */
  lemma MissingFieldZero(data: Json, show: Show, d: Flat, key: string, field: string)
    requires Market(data, show) == Done(d)
    requires (key, field) in Trading || (key, field) in Week52 || (key, field) in Valuation
    requires Lookup(data.fields, field).None?
    ensures Get(d, key) == Some(JFloat(0.0))
  {
    MarketNumbers(data, show, d, key, field);
  }

  /** `Last_Updated` holds the raw `date`, `""` when there is none. */
  lemma MarketDate(data: Json, show: Show, d: Flat)
    requires Market(data, show) == Done(d)
    ensures Get(d, "Last_Updated") == Some(ObjGet(data.fields, "date", JStr("")))
  {
    assert DateWrite(data.fields) in MarketLog(data.fields, show);
    MarketHolds(data, show, d, DateWrite(data.fields));
  }

  /** `Net_Debt` is the stored `Total_Debt` less the stored `Cash`. */
  lemma MarketNetDebt(data: Json, show: Show, d: Flat)
    requires Market(data, show) == Done(d)
    ensures Get(d, "Total_Debt") == Some(JFloat(Number(data.fields, "total_debt")))
    ensures Get(d, "Cash") == Some(JFloat(Number(data.fields, "cash")))
    ensures Get(d, "Net_Debt") == Some(JFloat(Get(d, "Total_Debt").value.x - Get(d, "Cash").value.x))
  {
    var fs := data.fields;
    DebtAndCashRows();
    MarketNumbers(data, show, d, "Total_Debt", "total_debt");
    MarketNumbers(data, show, d, "Cash", "cash");
    var debt, cash := Number(fs, "total_debt"), Number(fs, "cash");
    var w := NetDebtWrite(debt, cash);
    assert w in MarketLog(fs, show);
    MarketHolds(data, show, d, w);
    NetFromStored(d, debt, cash);
  }

  lemma NetFromStored(d: Flat, debt: real, cash: real)
    requires Get(d, "Total_Debt") == Some(JFloat(debt)) && Get(d, "Cash") == Some(JFloat(cash))
    requires Get(d, NetDebtWrite(debt, cash).0) == Some(NetDebtWrite(debt, cash).1)
    ensures Get(d, "Net_Debt") == Some(JFloat(Get(d, "Total_Debt").value.x - Get(d, "Cash").value.x))
  {
  }
}
