/** What every parser shares: a flat result map, the `year`/`value` data
    points that are turned into `"<prefix>_<year>"` keys inside a
    `try/except: pass`, and the `['data'][-1]['value']` lookup of the
    latest data point.

    A parser is specified by the list of assignments it makes (its write
    log) and the condition under which an exception escapes it; its result
    is that log replayed into an empty dict. */
module Flatten {
  import opened Wrappers
  import opened Text
  import opened OrderedDict
  import opened PyValue
  import opened Coerce

  /** One `extracted[key] = value`. */
  type Write = (string, Json)

  /** The `extracted` dict a parser returns. */
  type Flat = Dict<Json>

  function Emit(w: Option<Write>): seq<Write> {
    match w
    case Some(x) => [x]
    case None => []
  }

  /** The key part an f-string makes of `entry.get('year')`. */
  function YearText(entry: seq<(string, Json)>, show: Show): string {
    Str(ObjGet(entry, "year", JNull), show)
  }

  /** One pass of the guarded per-entry body
      `extracted[f"{prefix}_{entry.get('year')}"] = clean_number(entry.get('value'))`:
      an entry that is not an object, or whose value `float()` rejects,
      raises inside the `try` and writes nothing. */
  function EntryWrite(prefix: string, entry: Json, show: Show): (w: Option<Write>)
    ensures w.Some? <==> entry.JObj? && CleanNumber(ObjGet(entry.fields, "value", JNull)).Some?
    ensures w.Some? ==> w.value.1.JFloat? && |w.value.0| > |prefix|
  {
    if !entry.JObj? then None
    else match CleanNumber(ObjGet(entry.fields, "value", JNull))
      case None => None
      case Some(x) => Some((prefix + "_" + YearText(entry.fields, show), JFloat(x)))
  }

  /** The writes of each pass of `for entry in entries: try: ... except: pass`. */
  function EntryLogs(prefix: string, entries: seq<Json>, show: Show): seq<seq<Write>> {
    seq(|entries|, j requires 0 <= j < |entries| => Emit(EntryWrite(prefix, entries[j], show)))
  }

  /** The writes of the whole entry loop. */
  function EntriesLog(prefix: string, entries: seq<Json>, show: Show): seq<Write> {
    Concat(EntryLogs(prefix, entries, show))
  }

  /** A write is in the log exactly when some entry produces it. */
  lemma EntriesLogWrites(prefix: string, entries: seq<Json>, show: Show, w: Write)
    ensures w in EntriesLog(prefix, entries, show) <==>
            exists j :: 0 <= j < |entries| && EntryWrite(prefix, entries[j], show) == Some(w)
  {
    var ls := EntryLogs(prefix, entries, show);
    if w in Concat(ls) {
      ConcatFrom(ls, w);
      var j :| 0 <= j < |ls| && w in ls[j];
      assert EntryWrite(prefix, entries[j], show) == Some(w);
    }
    if exists j :: 0 <= j < |entries| && EntryWrite(prefix, entries[j], show) == Some(w) {
      var j :| 0 <= j < |entries| && EntryWrite(prefix, entries[j], show) == Some(w);
      assert w in ls[j];
      ConcatHas(ls, j, w);
    }
  }

  /** Every key the entries write is the prefix, an underscore and a year. */
  lemma EntriesLogKeys(prefix: string, entries: seq<Json>, show: Show, w: Write)
    requires w in EntriesLog(prefix, entries, show)
    ensures exists j :: 0 <= j < |entries| && entries[j].JObj? && w.0 == prefix + "_" + YearText(entries[j].fields, show)
  {
    EntriesLogWrites(prefix, entries, show, w);
  }

  /** `for entry in entries: try: extracted[...] = ... except: pass`. */
  method ScanEntries(d: Flat, prefix: string, entries: seq<Json>, show: Show) returns (r: Flat)
    ensures r == Replay(d, EntriesLog(prefix, entries, show))
  {
    ghost var ls := EntryLogs(prefix, entries, show);
    r := d;
    var i := 0;
    while i < |entries|
      invariant 0 <= i <= |entries|
      invariant r == Replay(d, Concat(ls[..i]))
    {
      ConcatSnoc(ls, i);
      var w := EntryWrite(prefix, entries[i], show);
      if w.Some? {
        assert ls[i] == [w.value];
        ReplaySnoc(d, Concat(ls[..i]), w.value.0, w.value.1);
        r := Set(r, w.value.0, w.value.1);
      } else {
        assert Concat(ls[..i]) + ls[i] == Concat(ls[..i]);
      }
      i := i + 1;
    }
    assert ls[..i] == ls;
  }

  /** `clean_number(obj['data'][-1]['value'])`; `None` when any step of it
      raises: no `data` key, a `data` that is not a non-empty list, a last
      element that is not an object or lacks `value`, or a value `float()`
      rejects. */
  function LastValue(fields: seq<(string, Json)>): (r: Option<real>)
    ensures r.Some? ==> Lookup(fields, "data").Some? && Lookup(fields, "data").value.JArr?
    ensures Lookup(fields, "data") == Some(JArr([])) ==> r.None?
  {
    match Lookup(fields, "data")
    case Some(JArr(xs)) =>
      if xs == [] then None
      else (match xs[|xs| - 1]
        case JObj(last) =>
          (match Lookup(last, "value")
           case Some(v) => CleanNumber(v)
           case None => None)
        case _ => None)
    case _ => None
  }

  /** A dict filled from empty holds exactly the keys some write assigns. */
  lemma ReplayEmptyKeys(log: seq<Write>, k: string)
    ensures k in Replay(EmptyDict(), log).keys <==> exists i :: 0 <= i < |log| && log[i].0 == k
  {
    ReplayKeys(EmptyDict(), log);
  }

  /** Last write wins: each key of a dict filled from empty holds the value
      of the last write to it. */
  lemma ReplayEmptyGet(log: seq<Write>, k: string)
    ensures Get(Replay(EmptyDict(), log), k) == LastWrite(log, k)
  {
    ReplayGet(EmptyDict(), log, k);
  }

  /** Each key of a dict filled from empty holds a write of the log to it. */
  lemma ReplayEmptyOrigin(log: seq<Write>, k: string)
    requires k in Replay(EmptyDict(), log).keys
    ensures (k, Get(Replay(EmptyDict(), log), k).value) in log
  {
    ReplayGet(EmptyDict(), log, k);
  }

  /** Every write of the log leaves its key in the dict. */
  lemma ReplayEmptyHas(log: seq<Write>, w: Write)
    requires w in log
    ensures w.0 in Replay(EmptyDict(), log).keys
  {
    var i :| 0 <= i < |log| && log[i] == w;
    ReplayEmptyKeys(log, w.0);
  }

  /** Iterating a dict's items and keeping the last write per key gives the
      dict back. */
  lemma ItemsLastWrite(flat: Flat, k: string)
    ensures LastWrite(Items(flat), k) == Get(flat, k)
  {
    if k in flat.keys {
      var i :| 0 <= i < |flat.keys| && flat.keys[i] == k;
      assert KeysOf(Items(flat)) == flat.keys;
      LastWriteDistinct(Items(flat), i);
    }
  }

  lemma LastWriteAppend(a: seq<Write>, b: seq<Write>, k: string)
    ensures LastWrite(a + b, k) == if LastWrite(b, k).Some? then LastWrite(b, k) else LastWrite(a, k)
  {
    ReplayGet(EmptyDict(), a + b, k);
    ReplayAppend(EmptyDict(), a, b);
    ReplayGet(Replay(EmptyDict(), a), b, k);
    ReplayGet(EmptyDict(), a, k);
  }
}
