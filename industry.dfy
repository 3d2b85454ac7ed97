/** `parse_api_4_industry`: every item whose label is a key of the match map
    writes its coerced value under the name the map gives that label; the
    two files differ only in the names. */
module Industry {
  import opened Wrappers
  import opened OrderedDict
  import opened PyValue
  import opened Coerce
  import opened Flatten

  /** The entries of a `match_map` dict literal, label first. */
  type Literal = seq<(string, string)>

  /** The match map of `Final_app.py`. */
  const AppNames: Literal := [
    ("Div Yield", "Ind_Div_Yield"), ("PER", "Ind_PE"), ("PBV", "Ind_PBV"),
    ("ROE", "Ind_ROE"), ("Net Margin", "Ind_Net_Margin"),
    ("Price/Sales", "Ind_Price_Sales"), ("EV/Sales", "Ind_EV_Sales"),
    ("EV/EBITDA", "Ind_EV_EBITDA"), ("Gross Margin", "Ind_Gross_Margin"),
    ("EBITDA Margin", "Ind_EBITDA_Margin"), ("Operating Margin", "Ind_Op_Margin")]

  /** The match map of `stock_engine.py`. */
  const EngineNames: Literal := [
    ("Div Yield", "Industry_Div_Yield"), ("PER", "Industry_PE_Ratio"),
    ("PBV", "Industry_PBV"), ("Price/Sales", "Industry_Price_Sales"),
    ("EV/Sales", "Industry_EV_Sales"), ("EV/EBITDA", "Industry_EV_EBITDA"),
    ("ROE", "Industry_ROE"), ("Gross Margin", "Industry_Gross_Margin"),
    ("EBITDA Margin", "Industry_EBITDA_Margin"),
    ("Operating Margin", "Industry_Operating_Margin"),
    ("Net Margin", "Industry_Net_Margin")]

  /** The dict the literal evaluates to; only lookups are made in it, so
      its order is not kept. A repeated label keeps its last name. */
  function MatchMap(lit: Literal): map<string, string> {
    if lit == [] then map[]
    else MatchMap(lit[..|lit| - 1])[lit[|lit| - 1].0 := lit[|lit| - 1].1]
  }

  /** The names a literal gives, in order. */
  function Names(lit: Literal): (ns: seq<string>)
    ensures |ns| == |lit| && forall i :: 0 <= i < |lit| ==> ns[i] == lit[i].1
  {
    seq(|lit|, i requires 0 <= i < |lit| => lit[i].1)
  }

  /** `item.get('label')`. */
  function ItemLabel(fields: seq<(string, Json)>): Json {
    ObjGet(fields, "label", JNull)
  }

  /** An exception escapes while handling `item`: it is not a dict
      (`item.get` raises), or its label is a list or a dict, which
      `label in match_map` cannot hash. */
  predicate ItemRaises(item: Json) {
    !item.JObj? || ItemLabel(item.fields).JArr? || ItemLabel(item.fields).JObj?
  }

  /** The guarded write one item makes: only a str label equals a key of the
      map, and a value `clean_number` raises on writes nothing. */
  function ItemWrite(item: Json, m: map<string, string>): (w: Option<Write>)
    ensures w.Some? <==> item.JObj? && ItemLabel(item.fields).JStr? && ItemLabel(item.fields).s in m
                         && CleanNumber(ObjGet(item.fields, "value", JNull)).Some?
    ensures w.Some? ==> w.value.0 == m[ItemLabel(item.fields).s]
                        && w.value.1 == JFloat(CleanNumber(ObjGet(item.fields, "value", JNull)).value)
  {
    if item.JObj? && ItemLabel(item.fields).JStr? && ItemLabel(item.fields).s in m then
      match CleanNumber(ObjGet(item.fields, "value", JNull))
      case Some(x) => Some((m[ItemLabel(item.fields).s], JFloat(x)))
      case None => None
    else None
  }

  function ItemLogs(items: seq<Json>, m: map<string, string>): seq<seq<Write>> {
    seq(|items|, i requires 0 <= i < |items| => Emit(ItemWrite(items[i], m)))
  }

  function IndustryLog(items: seq<Json>, m: map<string, string>): seq<Write> {
    Concat(ItemLogs(items, m))
  }

  /** `parse_api_4_industry(data)` with the match map `lit`. */
  function Industry(data: Json, lit: Literal): Outcome<Flat> {
    match Iterate(data)
    case None => Raised
    case Some(items) =>
      if exists i :: 0 <= i < |items| && ItemRaises(items[i]) then Raised
      else Done(Replay(EmptyDict(), IndustryLog(items, MatchMap(lit))))
  }

  /** One more item appends its write. */
  lemma IndustryLogSnoc(items: seq<Json>, m: map<string, string>)
    requires items != []
    ensures IndustryLog(items, m) == IndustryLog(items[..|items| - 1], m) + Emit(ItemWrite(items[|items| - 1], m))
  {
    assert ItemLogs(items, m)[..|items| - 1] == ItemLogs(items[..|items| - 1], m);
  }

  /** `cur` is what the item loop holds after its first `i` passes. */
  predicate ItemsDone(items: seq<Json>, m: map<string, string>, i: nat, cur: Flat) {
    i <= |items| && cur == Replay(EmptyDict(), IndustryLog(items[..i], m))
  }

  /** One pass of the item loop. */
  lemma ItemStep(items: seq<Json>, m: map<string, string>, i: nat, prev: Flat, next: Flat)
    requires i < |items| && ItemsDone(items, m, i, prev)
    requires next == match ItemWrite(items[i], m)
                     case Some(w) => Set(prev, w.0, w.1)
                     case None => prev
    ensures ItemsDone(items, m, i + 1, next)
  {
    IndustryLogSnoc(items[..i + 1], m);
    assert items[..i + 1][..i] == items[..i];
    match ItemWrite(items[i], m)
    case Some(w) =>
      ReplaySnoc(EmptyDict(), IndustryLog(items[..i], m), w.0, w.1);
    case None =>
      assert IndustryLog(items[..i], m) + [] == IndustryLog(items[..i], m);
  }

  /** `for item in data`, given the map the literal built. */
  method ScanItems(items: seq<Json>, m: map<string, string>) returns (r: Outcome<Flat>)
    ensures r.Raised? <==> exists i :: 0 <= i < |items| && ItemRaises(items[i])
    ensures r.Done? ==> r.value == Replay(EmptyDict(), IndustryLog(items, m))
  {
    var cur := EmptyDict();
    var i := 0;
    while i < |items|
      invariant 0 <= i <= |items|
      invariant forall j :: 0 <= j < i ==> !ItemRaises(items[j])
      invariant ItemsDone(items, m, i, cur)
    {
      var item := items[i];
      if ItemRaises(item) {
        return Raised;
      }
      assert forall j :: 0 <= j < i + 1 ==> !ItemRaises(items[j]) by {
        forall j | 0 <= j < i + 1 ensures !ItemRaises(items[j]) {
          if j == i { assert !ItemRaises(item); }
        }
      }
      var next := cur;
      match ItemWrite(item, m) {
        case Some(w) => next := Set(cur, w.0, w.1);
        case None =>
      }
      ItemStep(items, m, i, cur, next);
      cur := next;
      i := i + 1;
    }
    assert items[..i] == items;
    return Done(cur);
  }

  /** `parse_api_4_industry(data)` as the code runs it, loop by loop. */
  method ParseIndustry(data: Json, lit: Literal) returns (r: Outcome<Flat>)
    ensures r == Industry(data, lit)
  {
    var m := MatchMap(lit);
    var items := Iterate(data);
    if items.None? {
      return Raised;
    }
    r := ScanItems(items.value, m);
  }

  // ---------------------------------------------------------------------
  // What the result holds.

  /** The coerced value of the last item labelled `s` whose value
      `clean_number` accepts. */
  function LastReading(items: seq<Json>, s: string): Option<real> {
    if items == [] then None
    else
      var item := items[|items| - 1];
      if item.JObj? && ItemLabel(item.fields) == JStr(s) && CleanNumber(ObjGet(item.fields, "value", JNull)).Some? then
        CleanNumber(ObjGet(item.fields, "value", JNull))
      else LastReading(items[..|items| - 1], s)
  }

  /** Whatever the literal's dict maps a label to is an entry of the literal. */
  lemma {:induction false} MatchMapHas(lit: Literal, s: string)
    requires s in MatchMap(lit)
    ensures (s, MatchMap(lit)[s]) in lit
    decreases |lit|
  {
    var n := |lit| - 1;
    if lit[n].0 != s {
      MatchMapHas(lit[..n], s);
    }
  }

  /** With distinct labels, the literal's dict maps each label to its name. */
  lemma {:induction false} MatchMapGet(lit: Literal, i: nat)
    requires Distinct(KeysOf(lit)) && i < |lit|
    ensures lit[i].0 in MatchMap(lit) && MatchMap(lit)[lit[i].0] == lit[i].1
    decreases |lit|
  {
    var n := |lit| - 1;
    if i < n {
      KeysOfLast(lit);
      assert KeysOf(lit)[i] != KeysOf(lit)[n];
      MatchMapGet(lit[..n], i);
      assert lit[..n][i] == lit[i];
    }
  }

  /** With distinct labels and distinct names, the literal's dict maps each
      of its labels to its name, and no other label to that name. */
  lemma MatchMapEntry(lit: Literal, s: string, name: string)
    requires Distinct(KeysOf(lit)) && Distinct(Names(lit))
    requires (s, name) in lit
    ensures s in MatchMap(lit) && MatchMap(lit)[s] == name
    ensures forall s' :: s' in MatchMap(lit) && MatchMap(lit)[s'] == name ==> s' == s
  {
    var i :| 0 <= i < |lit| && lit[i] == (s, name);
    MatchMapGet(lit, i);
    forall s' | s' in MatchMap(lit) && MatchMap(lit)[s'] == name
      ensures s' == s
    {
      MatchMapHas(lit, s');
      var j :| 0 <= j < |lit| && lit[j] == (s', name);
      assert Names(lit)[j] == Names(lit)[i];
    }
  }

  /** Names that only one label maps to hold the last reading of that label. */
  lemma {:induction false} IndustryLogLast(items: seq<Json>, m: map<string, string>, s: string, name: string)
    requires s in m && m[s] == name
    requires forall s' :: s' in m && m[s'] == name ==> s' == s
    ensures LastWrite(IndustryLog(items, m), name) ==
            match LastReading(items, s)
            case Some(x) => Some(JFloat(x))
            case None => None
    decreases |items|
  {
    if items != [] {
      var n := |items| - 1;
      IndustryLogSnoc(items, m);
      LastWriteAppend(IndustryLog(items[..n], m), Emit(ItemWrite(items[n], m)), name);
      IndustryLogLast(items[..n], m, s, name);
    }
  }

  /** Each name of the literal holds the value of the last item carrying
      its label and a value `clean_number` accepts, and is absent when there
      is none. */
  lemma IndustryValue(data: Json, lit: Literal, d: Flat, s: string, name: string)
    requires Distinct(KeysOf(lit)) && Distinct(Names(lit))
    requires Industry(data, lit) == Done(d)
    requires (s, name) in lit
    ensures Get(d, name) == match LastReading(Iterate(data).value, s)
                            case Some(x) => Some(JFloat(x))
                            case None => None
  {
    var items := Iterate(data).value;
    MatchMapEntry(lit, s, name);
    ReplayEmptyGet(IndustryLog(items, MatchMap(lit)), name);
    IndustryLogLast(items, MatchMap(lit), s, name);
  }

  /** Every write of the item loop is made under a name of the map. */
  lemma IndustryLogName(items: seq<Json>, m: map<string, string>, w: Write)
    requires w in IndustryLog(items, m)
    ensures exists s :: s in m && m[s] == w.0
  {
    ConcatFrom(ItemLogs(items, m), w);
    var i :| 0 <= i < |items| && w in Emit(ItemWrite(items[i], m));
    assert ItemWrite(items[i], m) == Some(w);
  }

  /** The result has no key but the names of the literal. */
  lemma IndustryKeys(data: Json, lit: Literal, d: Flat, key: string)
    requires Industry(data, lit) == Done(d)
    requires key in d.keys
    ensures key in Names(lit)
  {
    var log := IndustryLog(Iterate(data).value, MatchMap(lit));
    ReplayEmptyKeys(log, key);
    var k :| 0 <= k < |log| && log[k].0 == key;
    IndustryLogName(Iterate(data).value, MatchMap(lit), log[k]);
    var s :| s in MatchMap(lit) && MatchMap(lit)[s] == key;
    MatchMapHas(lit, s);
    var j :| 0 <= j < |lit| && lit[j] == (s, key);
    assert Names(lit)[j] == key;
  }

  lemma AppLabelsDistinct()
    ensures Distinct(KeysOf(AppNames))
  {
  }

  lemma AppNamesDistinct()
    ensures Distinct(Names(AppNames))
  {
  }

  lemma EngineLabelsDistinct()
    ensures Distinct(KeysOf(EngineNames))
  {
  }

  lemma EngineNamesDistinct()
    ensures Distinct(Names(EngineNames))
  {
  }

  /** The two files recognise the same labels. */
  lemma SameLabels()
    ensures forall i :: 0 <= i < |AppNames| ==> AppNames[i].0 in KeysOf(EngineNames)
    ensures forall i :: 0 <= i < |EngineNames| ==> EngineNames[i].0 in KeysOf(AppNames)
  {
    assert KeysOf(AppNames) == ["Div Yield", "PER", "PBV", "ROE", "Net Margin", "Price/Sales", "EV/Sales",
                                "EV/EBITDA", "Gross Margin", "EBITDA Margin", "Operating Margin"];
    assert KeysOf(EngineNames) == ["Div Yield", "PER", "PBV", "Price/Sales", "EV/Sales", "EV/EBITDA", "ROE",
                                   "Gross Margin", "EBITDA Margin", "Operating Margin", "Net Margin"];
  }

  /** The two versions fail on the same inputs, and where they succeed they
      hold the same reading for every label, under their own names. */
  lemma IndustryAgree(data: Json, s: string, a: string, b: string)
    requires (s, a) in AppNames && (s, b) in EngineNames
    ensures Industry(data, AppNames).Raised? <==> Industry(data, EngineNames).Raised?
    ensures Industry(data, AppNames).Done? ==>
            Get(Industry(data, AppNames).value, a) == Get(Industry(data, EngineNames).value, b)
  {
    if Industry(data, AppNames).Done? {
      AppLabelsDistinct();
      AppNamesDistinct();
      EngineLabelsDistinct();
      EngineNamesDistinct();
      IndustryValue(data, AppNames, Industry(data, AppNames).value, s, a);
      IndustryValue(data, EngineNames, Industry(data, EngineNames).value, s, b);
    }
  }
}
