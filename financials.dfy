/** `parse_api_1_financials`: each item's label is tested against every
    keyword of a vocabulary by substring containment; every keyword that
    matches writes `"<clean_name>_<year>"` for each data point of the item
    and the bare `clean_name` for its latest data point. */
module Financials {
  import opened Wrappers
  import opened Text
  import opened OrderedDict
  import opened PyValue
  import opened Coerce
  import opened Flatten

  /** `target_keys.items()`: keyword and clean name, in dict order. */
  type Vocabulary = seq<(string, string)>

  /** `item.get('label', '')`. */
  function Label(fields: seq<(string, Json)>): Json {
    ObjGet(fields, "label", JStr(""))
  }

  /** `item.get('data', [])`. */
  function Points(fields: seq<(string, Json)>): Json {
    ObjGet(fields, "data", JArr([]))
  }

  /** An exception escapes while trying `kw` on an item: `kw in raw_label`
      raises for a label that is no container, and the data loop of a
      matching keyword raises for data that cannot be iterated. */
  predicate KeywordRaises(fields: seq<(string, Json)>, kw: string) {
    match Contains(Label(fields), kw)
    case None => true
    case Some(m) => m && Iterate(Points(fields)).None?
  }

  /** An exception escapes while handling `item`: it is not an object
      (`item.get` raises), or some keyword raises. */
  predicate ItemRaises(item: Json, vocab: Vocabulary) {
    !item.JObj? || exists k :: 0 <= k < |vocab| && KeywordRaises(item.fields, vocab[k].0)
  }

  /** The guarded `extracted[clean_name] = clean_number(item['data'][-1]['value'])`. */
  function LatestWrite(fields: seq<(string, Json)>, name: string): seq<Write> {
    match LastValue(fields)
    case Some(x) => [(name, JFloat(x))]
    case None => []
  }

  /** The writes one keyword makes for one item. */
  function KeywordLog(fields: seq<(string, Json)>, kw: string, name: string, show: Show): seq<Write> {
    if Contains(Label(fields), kw) == Some(true) then
      (match Iterate(Points(fields))
       case Some(entries) => EntriesLog(name, entries, show)
       case None => []) + LatestWrite(fields, name)
    else []
  }

  /** The writes of each pass of the keyword loop for one item. */
  function KeywordLogs(fields: seq<(string, Json)>, vocab: Vocabulary, show: Show): seq<seq<Write>> {
    seq(|vocab|, k requires 0 <= k < |vocab| => KeywordLog(fields, vocab[k].0, vocab[k].1, show))
  }

  /** The writes of the keyword loop for one item. */
  function ItemLog(fields: seq<(string, Json)>, vocab: Vocabulary, show: Show): seq<Write> {
    Concat(KeywordLogs(fields, vocab, show))
  }

  /** The writes for one item of the item loop. */
  function ItemWrites(item: Json, vocab: Vocabulary, show: Show): seq<Write> {
    if item.JObj? then ItemLog(item.fields, vocab, show) else []
  }

  /** The writes of each pass of the item loop. */
  function ItemLogs(items: seq<Json>, vocab: Vocabulary, show: Show): seq<seq<Write>> {
    seq(|items|, i requires 0 <= i < |items| => ItemWrites(items[i], vocab, show))
  }

  /** The writes of the item loop. */
  function FinancialsLog(items: seq<Json>, vocab: Vocabulary, show: Show): seq<Write> {
    Concat(ItemLogs(items, vocab, show))
  }

  /** `parse_api_1_financials(data)`: `Raised` when an exception escapes,
      otherwise the writes replayed into an empty dict. */
  function Financials(data: Json, vocab: Vocabulary, show: Show): Outcome<Flat> {
    match Iterate(data)
    case None => Raised
    case Some(items) =>
      if exists i :: 0 <= i < |items| && ItemRaises(items[i], vocab) then Raised
      else Done(Replay(EmptyDict(), FinancialsLog(items, vocab, show)))
  }

  /** The body of the keyword loop: test the label, then fill in the
      data points and the latest value. */
  method ScanKeyword(d: Flat, fields: seq<(string, Json)>, kw: string, name: string, show: Show) returns (r: Outcome<Flat>)
    ensures r.Raised? <==> KeywordRaises(fields, kw)
    ensures r.Done? ==> r.value == Replay(d, KeywordLog(fields, kw, name, show))
  {
    var c := Contains(Label(fields), kw);
    if c.None? {
      return Raised;
    }
    if !c.value {
      return Done(d);
    }
    var entries := Iterate(Points(fields));
    if entries.None? {
      return Raised;
    }
    var cur := ScanEntries(d, name, entries.value, show);
    var pre := EntriesLog(name, entries.value, show);
    var latest := LastValue(fields);
    if latest.Some? {
      ReplaySnoc(d, pre, name, JFloat(latest.value));
      cur := Set(cur, name, JFloat(latest.value));
    } else {
      assert pre + [] == pre;
    }
    return Done(cur);
  }

  /** The keyword loop, run for one item on the dict built so far. */
  method ScanKeywords(d: Flat, fields: seq<(string, Json)>, vocab: Vocabulary, show: Show) returns (r: Outcome<Flat>)
    ensures r.Raised? <==> exists k :: 0 <= k < |vocab| && KeywordRaises(fields, vocab[k].0)
    ensures r.Done? ==> r.value == Replay(d, ItemLog(fields, vocab, show))
  {
    ghost var ls := KeywordLogs(fields, vocab, show);
    var cur := d;
    var k := 0;
    while k < |vocab|
      invariant 0 <= k <= |vocab|
      invariant forall j :: 0 <= j < k ==> !KeywordRaises(fields, vocab[j].0)
      invariant cur == Replay(d, Concat(ls[..k]))
    {
      var step := ScanKeyword(cur, fields, vocab[k].0, vocab[k].1, show);
      if step.Raised? {
        return Raised;
      }
      assert forall j :: 0 <= j < k + 1 ==> !KeywordRaises(fields, vocab[j].0) by {
        forall j | 0 <= j < k + 1 ensures !KeywordRaises(fields, vocab[j].0) {
          if j == k { assert !KeywordRaises(fields, vocab[k].0); }
        }
      }
      ConcatSnoc(ls, k);
      ReplayAppend(d, Concat(ls[..k]), ls[k]);
      cur := step.value;
      k := k + 1;
    }
    assert ls[..k] == ls;
    return Done(cur);
  }

  /** The body of the item loop: an item that is not an object raises at
      `item.get`, any other runs the keyword loop. */
  method ScanItem(d: Flat, item: Json, vocab: Vocabulary, show: Show) returns (r: Outcome<Flat>)
    ensures r.Raised? <==> ItemRaises(item, vocab)
    ensures r.Done? ==> r.value == Replay(d, ItemWrites(item, vocab, show))
  {
    if !item.JObj? {
      return Raised;
    }
    r := ScanKeywords(d, item.fields, vocab, show);
  }

  /** The item loop. */
  method ScanItems(xs: seq<Json>, vocab: Vocabulary, show: Show) returns (r: Outcome<Flat>)
    ensures r.Raised? <==> exists i :: 0 <= i < |xs| && ItemRaises(xs[i], vocab)
    ensures r.Done? ==> r.value == Replay(EmptyDict(), FinancialsLog(xs, vocab, show))
  {
    ghost var ls := ItemLogs(xs, vocab, show);
    var d := EmptyDict();
    var i := 0;
    while i < |xs|
      invariant 0 <= i <= |xs|
      invariant forall j :: 0 <= j < i ==> !ItemRaises(xs[j], vocab)
      invariant d == Replay(EmptyDict(), Concat(ls[..i]))
    {
      var step := ScanItem(d, xs[i], vocab, show);
      if step.Raised? {
        return Raised;
      }
      ghost var ok := !ItemRaises(xs[i], vocab);
      assert forall j :: 0 <= j < i + 1 ==> !ItemRaises(xs[j], vocab) by {
        forall j | 0 <= j < i + 1 ensures !ItemRaises(xs[j], vocab) {
          if j == i { assert ok; }
        }
      }
      ConcatSnoc(ls, i);
      ReplayAppend(EmptyDict(), Concat(ls[..i]), ls[i]);
      d := step.value;
      i := i + 1;
    }
    assert ls[..i] == ls;
    return Done(d);
  }

  /** `parse_api_1_financials(data)` as the code runs it, loop by loop. */
  method ParseFinancials(data: Json, vocab: Vocabulary, show: Show) returns (r: Outcome<Flat>)
    ensures r == Financials(data, vocab, show)
  {
    var items := Iterate(data);
    if items.None? {
      return Raised;
    }
    r := ScanItems(items.value, vocab, show);
  }

  // ---------------------------------------------------------------------
  // What the writes are.

  /** A keyword writes only when the label contains it: its data points,
      each under `"<clean_name>_<year>"`, and then the bare `clean_name`
      with the latest data point when that can be read. */
  lemma KeywordLogWrites(fields: seq<(string, Json)>, kw: string, name: string, show: Show, w: Write)
    requires Iterate(Points(fields)).Some?
    ensures w in KeywordLog(fields, kw, name, show) <==>
            && Contains(Label(fields), kw) == Some(true)
            && ((exists j :: 0 <= j < |Iterate(Points(fields)).value| &&
                   EntryWrite(name, Iterate(Points(fields)).value[j], show) == Some(w))
                || (LastValue(fields).Some? && w == (name, JFloat(LastValue(fields).value))))
  {
    EntriesLogWrites(name, Iterate(Points(fields)).value, show, w);
  }

  /** Within one keyword's writes, the bare `clean_name` ends up holding the
      coerced value of the item's last data point, and is not written at all
      when that cannot be read (for instance when the data list is empty). */
  lemma LatestValueWins(fields: seq<(string, Json)>, kw: string, name: string, show: Show)
    requires Contains(Label(fields), kw) == Some(true)
    ensures LastWrite(KeywordLog(fields, kw, name, show), name) ==
            match LastValue(fields) case Some(x) => Some(JFloat(x)) case None => None
  {
    var entries := match Iterate(Points(fields)) case Some(es) => es case None => [];
    var a := EntriesLog(name, entries, show);
    forall i | 0 <= i < |a| ensures a[i].0 != name {
      EntriesLogWrites(name, entries, show, a[i]);
      var j :| 0 <= j < |entries| && EntryWrite(name, entries[j], show) == Some(a[i]);
    }
    LastWriteAppend(a, LatestWrite(fields, name), name);
  }

  /** A write one keyword makes for one item is a write of the whole
      function, so its key is in the result. */
  lemma KeywordWriteKept(items: seq<Json>, vocab: Vocabulary, show: Show, i: nat, k: nat, w: Write)
    requires i < |items| && items[i].JObj? && k < |vocab|
    requires w in KeywordLog(items[i].fields, vocab[k].0, vocab[k].1, show)
    ensures w.0 in Replay(EmptyDict(), FinancialsLog(items, vocab, show)).keys
  {
    var log := FinancialsLog(items, vocab, show);
    ConcatHas(KeywordLogs(items[i].fields, vocab, show), k, w);
    ConcatHas(ItemLogs(items, vocab, show), i, w);
    var m :| 0 <= m < |log| && log[m] == w;
    ReplayEmptyKeys(log, w.0);
  }

  /** Every write of the whole function is one some keyword makes for some item. */
  lemma KeywordWriteOrigin(items: seq<Json>, vocab: Vocabulary, show: Show, w: Write)
    requires w in FinancialsLog(items, vocab, show)
    ensures exists i, k :: 0 <= i < |items| && 0 <= k < |vocab| && items[i].JObj? &&
              w in KeywordLog(items[i].fields, vocab[k].0, vocab[k].1, show)
  {
    ConcatFrom(ItemLogs(items, vocab, show), w);
    var i :| 0 <= i < |items| && w in ItemLogs(items, vocab, show)[i];
    ConcatFrom(KeywordLogs(items[i].fields, vocab, show), w);
    var k :| 0 <= k < |vocab| && w in KeywordLogs(items[i].fields, vocab, show)[k];
    assert w in KeywordLog(items[i].fields, vocab[k].0, vocab[k].1, show);
  }

  /** Fan-out with no first-match-wins: for every item and every keyword its
      label contains, each readable data point is written under
      `"<clean_name>_<year>"`, and the bare `clean_name` is written when the
      latest data point can be read. */
  lemma FinancialsFanOut(data: Json, vocab: Vocabulary, show: Show, d: Flat, i: nat, k: nat, j: nat)
    requires Financials(data, vocab, show) == Done(d)
    requires i < |Iterate(data).value| && Iterate(data).value[i].JObj?
    requires k < |vocab|
    requires Contains(Label(Iterate(data).value[i].fields), vocab[k].0) == Some(true)
    ensures j < |Iterate(Points(Iterate(data).value[i].fields)).value| &&
            Iterate(Points(Iterate(data).value[i].fields)).value[j].JObj? &&
            CleanNumber(ObjGet(Iterate(Points(Iterate(data).value[i].fields)).value[j].fields, "value", JNull)).Some?
            ==> vocab[k].1 + "_" + YearText(Iterate(Points(Iterate(data).value[i].fields)).value[j].fields, show) in d.keys
    ensures LastValue(Iterate(data).value[i].fields).Some? ==> vocab[k].1 in d.keys
  {
    var items := Iterate(data).value;
    var fs := items[i].fields;
    assert !ItemRaises(items[i], vocab);
    assert !KeywordRaises(fs, vocab[k].0);
    var entries := Iterate(Points(fs)).value;
    forall w | w in KeywordLog(fs, vocab[k].0, vocab[k].1, show) ensures w.0 in d.keys {
      KeywordWriteKept(items, vocab, show, i, k, w);
    }
    if j < |entries| && entries[j].JObj? && CleanNumber(ObjGet(entries[j].fields, "value", JNull)).Some? {
      var w := EntryWrite(vocab[k].1, entries[j], show).value;
      KeywordLogWrites(fs, vocab[k].0, vocab[k].1, show, w);
    }
    if LastValue(fs).Some? {
      KeywordLogWrites(fs, vocab[k].0, vocab[k].1, show, (vocab[k].1, JFloat(LastValue(fs).value)));
    }
  }

  /** Nothing else is written: every key of the result is a clean name of
      the vocabulary, bare or followed by `_` and a year, written for an
      item whose label contains that name's keyword. */
  lemma FinancialsKeys(data: Json, vocab: Vocabulary, show: Show, d: Flat, key: string)
    requires Financials(data, vocab, show) == Done(d)
    requires key in d.keys
    ensures exists i, k :: 0 <= i < |Iterate(data).value| && 0 <= k < |vocab| &&
              Iterate(data).value[i].JObj? &&
              Contains(Label(Iterate(data).value[i].fields), vocab[k].0) == Some(true) &&
              (key == vocab[k].1 || IsPrefix(vocab[k].1 + "_", key))
  {
    var items := Iterate(data).value;
    var log := FinancialsLog(items, vocab, show);
    ReplayEmptyKeys(log, key);
    var m :| 0 <= m < |log| && log[m].0 == key;
    var w := log[m];
    KeywordWriteOrigin(items, vocab, show, w);
    var i, k :| 0 <= i < |items| && 0 <= k < |vocab| && items[i].JObj? &&
                w in KeywordLog(items[i].fields, vocab[k].0, vocab[k].1, show);
    KeywordWriteKey(items[i].fields, vocab[k].0, vocab[k].1, show, w);
  }

  /** A keyword writes only for a label that contains it, and only the bare
      clean name or the clean name followed by `_`. */
  lemma KeywordWriteKey(fields: seq<(string, Json)>, kw: string, name: string, show: Show, w: Write)
    requires w in KeywordLog(fields, kw, name, show)
    ensures Contains(Label(fields), kw) == Some(true)
    ensures w.0 == name || IsPrefix(name + "_", w.0)
  {
    if Iterate(Points(fields)).Some? {
      KeywordLogWrites(fields, kw, name, show, w);
      if w.0 != name {
        var entries := Iterate(Points(fields)).value;
        var j :| 0 <= j < |entries| && EntryWrite(name, entries[j], show) == Some(w);
        var p := name + "_";
        assert w.0 == p + YearText(entries[j].fields, show);
        assert w.0[..|p|] == p;
      }
    }
  }

  // ---------------------------------------------------------------------
  // The two vocabularies.

  /** `target_keys.items()` for a dict literal with entries `lit`. */
  function TargetKeys(lit: Vocabulary): Vocabulary {
    Items(Replay(EmptyDict(), lit))
  }

  /** The `target_keys` literal of `Final_app.py`. */
  const AppTargets: Vocabulary := [
    ("PER", "PE_Ratio"), ("ROE", "ROE"), ("Net Margin", "Net_Margin"),
    ("BVPS", "BVPS"), ("EPS", "EPS"), ("DPS", "DPS"), ("Div Yield", "Div_Yield"),
    ("PBV", "PBV"), ("Price/Sales", "Price/Sales"), ("EV/Sales", "EV/Sales"),
    ("EV/EBITDA", "EV/EBITDA"), ("Gross Margin", "Gross_Margin"),
    ("EBITDA Margin", "EBITDA_Margin"), ("Operating Margin", "Operating_Margin")]

  /** The `target_keys` literal of `stock_engine.py`, in three pieces: the
      entries before its second "PER", that entry, and the rest. */
  const EngineHead: Vocabulary := [
    ("PER", "PE_Ratio"), ("ROE", "ROE"), ("Net Margin", "Net_Margin"),
    ("BVPS", "BVPS"), ("EPS", "EPS"), ("DPS", "DPS"), ("Div Yield", "Div_Yield")]
  const EngineTail: Vocabulary := [
    ("PBV", "PBV"), ("Price/Sales", "Price/Sales"), ("EV/Sales", "EV/Sales"),
    ("EV/EBITDA", "EV/EBITDA"), ("Gross Margin", "Gross_Margin"),
    ("EBITDA Margin", "EBITDA_Margin"), ("Operating Margin", "Operating_Margin")]
  const EngineTargets: Vocabulary := EngineHead + [("PER", "PER")] + EngineTail

  /** What iterating the `stock_engine.py` dict yields: "PER" in its first
      position with its second name. */
  const EngineItems: Vocabulary := EngineHead[0 := ("PER", "PER")] + EngineTail

  lemma AppTargetsDistinct()
    ensures Distinct(KeysOf(AppTargets))
  {
  }

  lemma EngineHeadDistinct()
    ensures Distinct(KeysOf(EngineHead))
  {
  }

  lemma EngineItemsDistinct()
    ensures Distinct(KeysOf(EngineItems))
  {
    var h := EngineHead[0 := ("PER", "PER")];
    assert KeysOf(h) == KeysOf(EngineHead);
    EngineHeadDistinct();
    assert Distinct(KeysOf(EngineTail));
    assert forall x :: x in KeysOf(EngineHead) ==> x !in KeysOf(EngineTail);
    DistinctAppend(KeysOf(h), KeysOf(EngineTail));
    KeysOfAppend(h, EngineTail);
  }

  /** The `Final_app.py` dict iterates in the order of its literal. */
  lemma AppTargetKeys()
    ensures TargetKeys(AppTargets) == AppTargets
  {
    AppTargetsDistinct();
    ItemsReplayDistinct(AppTargets);
  }

  /** The repeated "PER" of the `stock_engine.py` literal keeps the first
      position and takes the second name. */
  lemma EngineTargetKeys()
    ensures TargetKeys(EngineTargets) == EngineItems
  {
    var e: Dict<string> := EmptyDict();
    ReplayAppend(e, EngineHead + [("PER", "PER")], EngineTail);
    ReplaySnoc(e, EngineHead, "PER", "PER");
    EngineHeadDistinct();
    ReplayOverwrite(EngineHead, 0, "PER");
    ReplayAppend(e, EngineHead[0 := ("PER", "PER")], EngineTail);
    EngineItemsDistinct();
    ItemsReplayDistinct(EngineItems);
  }

  /** The only name `n` for which `"PE_Ratio"` is an `f"{n}_{year}"` key. */
  lemma PERatioPrefix(n: string)
    requires IsPrefix(n + "_", "PE_Ratio")
    ensures n == "PE"
  {
    var h := "PE_Ratio";
    assert h[|n|] == (n + "_")[|n|] == '_';
    assert h[0] == 'P' && h[1] == 'E' && h[3] == 'R' && h[4] == 'a' && h[5] == 't' && h[6] == 'i' && h[7] == 'o';
    assert n == (n + "_")[..|n|] == h[..2];
  }

  lemma EngineNamesNotPERatio()
    ensures forall k :: 0 <= k < |EngineItems| ==> EngineItems[k].1 != "PE_Ratio" && EngineItems[k].1 != "PE"
  {
    assert forall k :: 0 <= k < |EngineItems| ==> EngineItems[k] == if k < 7 then EngineHead[0 := ("PER", "PER")][k] else EngineTail[k - 7];
  }

  /** The `stock_engine.py` version never writes `PE_Ratio`: its second
      "PER" entry renamed the first. */
  lemma EngineNoPERatio(data: Json, show: Show, d: Flat)
    requires Financials(data, TargetKeys(EngineTargets), show) == Done(d)
    ensures "PE_Ratio" !in d.keys
  {
    if "PE_Ratio" in d.keys {
      FinancialsKeys(data, TargetKeys(EngineTargets), show, d, "PE_Ratio");
      EngineTargetKeys();
      EngineNamesNotPERatio();
      forall n | IsPrefix(n + "_", "PE_Ratio") ensures n == "PE" {
        PERatioPrefix(n);
      }
    }
  }
}
