/** `transform_to_grid`: a flat dict becomes a table with one row per
    metric and one column per year, for the keys whose part after the last
    underscore is all digits; rows ascending, year columns descending, every
    cell a str. A dict with no such key comes back as a two-column
    Metric/Value listing, and an empty dict as an empty table. */
module Grid {
  import opened Wrappers
  import opened Text
  import opened OrderedDict
  import opened PyValue
  import opened Flatten
  import opened Ordering

  /** `key.rsplit('_', 1)` for a key that passes
      `"_" in key and key.rsplit('_', 1)[-1].isdigit()`: its metric and its
      year; `None` for a key the filter skips. */
  function SplitKey(key: string): Option<(string, string)> {
    match LastIndexOf(key, '_')
    case None => None
    case Some(i) => if AllDigits(key[i + 1..]) then Some((key[..i], key[i + 1..])) else None
  }

  /** A key passes the filter as metric `m` and year `y` exactly when it is
      `m + "_" + y` with `y` all digits. */
  lemma SplitKeyJoin(key: string, m: string, y: string)
    ensures SplitKey(key) == Some((m, y)) <==> AllDigits(y) && key == m + "_" + y
  {
    if AllDigits(y) && key == m + "_" + y {
      var i := |m|;
      assert key[i + 1..] == y && key[..i] == m;
      assert '_' !in y by {
        forall j | 0 <= j < |y| ensures y[j] != '_' {
          assert IsDigit(y[j]);
        }
      }
      LastIndexOfIs(key, '_', i);
    }
    if SplitKey(key) == Some((m, y)) {
      var i := LastIndexOf(key, '_').value;
      assert key == key[..i] + "_" + key[i + 1..];
    }
  }

  /** What the loop builds: `data_map` (metric to year to value) and
      `years`, a set, kept here in the order its members were added. */
  datatype Pivot = Pivot(dataMap: Dict<Dict<Json>>, years: seq<string>)

  /** A key's metric and year (or `None` where the filter skips it) and
      its value: what one pass of the loop works with. */
  type Cut = (Option<(string, string)>, Json)

  /** The split of every key of `flat_data.items()`, in order. */
  function Cuts(items: seq<Write>): seq<Cut> {
    seq(|items|, k requires 0 <= k < |items| => (SplitKey(items[k].0), items[k].1))
  }

  /** One pass of `for key, value in flat_data.items()`. */
  function PivotStep(p: Pivot, e: Cut): Pivot {
    match e.0
    case None => p
    case Some((m, y)) =>
      Pivot(Set(p.dataMap, m, Set(GetOr(p.dataMap, m, EmptyDict()), y, e.1)),
            if y in p.years then p.years else p.years + [y])
  }

  function PivotOf(es: seq<Cut>): Pivot {
    if es == [] then Pivot(EmptyDict(), [])
    else PivotStep(PivotOf(es[..|es| - 1]), es[|es| - 1])
  }

  /** The table `transform_to_grid` returns. */
  datatype Grid =
    | Blank
      /** `pd.DataFrame(list(flat_data.items()), columns=["Metric", "Value"]).astype(str)`. */
    | Listing(pairs: seq<(string, string)>)
      /** Row labels, column labels and cells. */
    | Frame(index: seq<string>, columns: seq<string>, cells: seq<seq<string>>)

  /** A cell after `astype(str)`: the str of the value, or `"nan"` where the
      metric has no value for the year. */
  function CellText(dataMap: Dict<Dict<Json>>, m: string, y: string, show: Show): string {
    match Get(GetOr(dataMap, m, EmptyDict()), y)
    case Some(v) => Str(v, show)
    case None => "nan"
  }

  function Cells(dataMap: Dict<Dict<Json>>, index: seq<string>, columns: seq<string>, show: Show): seq<seq<string>> {
    seq(|index|, r requires 0 <= r < |index| =>
      seq(|columns|, c requires 0 <= c < |columns| => CellText(dataMap, index[r], columns[c], show)))
  }

  function ListingOf(flat: Flat, show: Show): seq<(string, string)> {
    seq(|flat.keys|, i requires 0 <= i < |flat.keys| => (flat.keys[i], Str(flat.values[flat.keys[i]], show)))
  }

  /** `transform_to_grid(flat_data)`. */
  function TransformToGrid(flat: Flat, show: Show): Grid {
    if flat.keys == [] then Blank
    else
      var p := PivotOf(Cuts(Items(flat)));
      if p.dataMap.keys == [] then Listing(ListingOf(flat, show))
      else
        var index, columns := SortedSet(p.dataMap.keys, false), SortedSet(p.years, true);
        Frame(index, columns, Cells(p.dataMap, index, columns, show))
  }

  lemma PivotSnoc(es: seq<Cut>, i: nat)
    requires i < |es|
    ensures PivotOf(es[..i + 1]) == PivotStep(PivotOf(es[..i]), es[i])
  {
    assert es[..i + 1][..i] == es[..i];
  }

  /** The body of the loop for one key and value. */
  method AddCell(p: Pivot, key: string, value: Json) returns (q: Pivot)
    ensures q == PivotStep(p, (SplitKey(key), value))
  {
    var dataMap, years := p.dataMap, p.years;
    var parts := SplitKey(key);
    if parts.Some? {
      var (metric, year) := parts.value;
      if metric !in dataMap.keys {
        SetTwice(dataMap, metric, EmptyDict(), Set(EmptyDict(), year, value));
        dataMap := Set(dataMap, metric, EmptyDict());
      }
      dataMap := Set(dataMap, metric, Set(Get(dataMap, metric).value, year, value));
      if year !in years {
        years := years + [year];
      }
    }
    return Pivot(dataMap, years);
  }

  /** `transform_to_grid(flat_data)` as the code runs it, loop by loop. */
  method TransformGrid(flat: Flat, show: Show) returns (g: Grid)
    ensures g == TransformToGrid(flat, show)
  {
    if flat.keys == [] {
      return Blank;
    }
    var items := Items(flat);
    ghost var es := Cuts(items);
    var cur := Pivot(EmptyDict(), []);
    var i := 0;
    while i < |items|
      invariant 0 <= i <= |items|
      invariant cur == PivotOf(es[..i])
    {
      var next := AddCell(cur, items[i].0, items[i].1);
      PivotSnoc(es, i);
      cur := next;
      i := i + 1;
    }
    assert es[..i] == es;
    if cur.dataMap.keys == [] {
      return Listing(ListingOf(flat, show));
    }
    var index := SortedSet(cur.dataMap.keys, false);
    var columns := SortedSet(cur.years, true);
    return Frame(index, columns, Cells(cur.dataMap, index, columns, show));
  }

  // ---------------------------------------------------------------------
  // What the table holds.

  /** One pass adds at most the metric of its own key. */
  lemma PivotStepMetric(p: Pivot, e: Cut, m: string)
    ensures m in PivotStep(p, e).dataMap.keys <==> m in p.dataMap.keys || (e.0.Some? && e.0.value.0 == m)
  {
  }

  /** One pass adds at most the year of its own key. */
  lemma PivotStepYear(p: Pivot, e: Cut, y: string)
    ensures y in PivotStep(p, e).years <==> y in p.years || (e.0.Some? && e.0.value.1 == y)
  {
  }

  /** One pass changes at most the cell its own key names. */
  lemma PivotStepCell(p: Pivot, e: Cut, m: string, y: string)
    ensures Get(GetOr(PivotStep(p, e).dataMap, m, EmptyDict()), y) ==
            if e.0 == Some((m, y)) then Some(e.1) else Get(GetOr(p.dataMap, m, EmptyDict()), y)
  {
    match e.0
    case None =>
    case Some((m', y')) =>
      var row := GetOr(p.dataMap, m', EmptyDict());
      assert PivotStep(p, e).dataMap == Set(p.dataMap, m', Set(row, y', e.1));
      if m != m' {
        assert GetOr(PivotStep(p, e).dataMap, m, EmptyDict()) == GetOr(p.dataMap, m, EmptyDict());
      } else {
        assert GetOr(PivotStep(p, e).dataMap, m, EmptyDict()) == Set(row, y', e.1);
      }
  }

  /** `data_map` holds a metric exactly when some key passes the filter
      with that metric. */
  lemma {:induction false} PivotMetrics(es: seq<Cut>, m: string)
    ensures m in PivotOf(es).dataMap.keys <==>
            exists i :: 0 <= i < |es| && es[i].0.Some? && es[i].0.value.0 == m
    decreases |es|
  {
    if es != [] {
      var n := |es| - 1;
      PivotMetrics(es[..n], m);
      PivotStepMetric(PivotOf(es[..n]), es[n], m);
      assert forall i :: 0 <= i < n ==> es[..n][i] == es[i];
    }
  }

  /** `years` holds a year exactly when some key passes the filter with
      that year. */
  lemma {:induction false} PivotYears(es: seq<Cut>, y: string)
    ensures y in PivotOf(es).years <==>
            exists i :: 0 <= i < |es| && es[i].0.Some? && es[i].0.value.1 == y
    decreases |es|
  {
    if es != [] {
      var n := |es| - 1;
      PivotYears(es[..n], y);
      PivotStepYear(PivotOf(es[..n]), es[n], y);
      assert forall i :: 0 <= i < n ==> es[..n][i] == es[i];
    }
  }

  lemma CutsPrefix(items: seq<Write>, n: nat)
    requires n <= |items|
    ensures Cuts(items[..n]) == Cuts(items)[..n]
  {
  }

  /** `data_map[m][y]` is the value last assigned to the key `m + "_" + y`,
      for a digit-only `y`, and is absent for any other `y`. */
  lemma {:induction false} PivotCell(items: seq<Write>, m: string, y: string)
    ensures Get(GetOr(PivotOf(Cuts(items)).dataMap, m, EmptyDict()), y) ==
            if AllDigits(y) then LastWrite(items, m + "_" + y) else None
    decreases |items|
  {
    if items != [] {
      var n := |items| - 1;
      var es := Cuts(items);
      CutsPrefix(items, n);
      assert es[n] == (SplitKey(items[n].0), items[n].1);
      PivotCell(items[..n], m, y);
      PivotStepCell(PivotOf(es[..n]), es[n], m, y);
      SplitKeyJoin(items[n].0, m, y);
    }
  }

  /** A year some key passes the filter with is a digit string. */
  lemma CutYearDigits(items: seq<Write>, i: nat)
    requires i < |items| && Cuts(items)[i].0.Some?
    ensures AllDigits(Cuts(items)[i].0.value.1)
  {
    var (m, y) := SplitKey(items[i].0).value;
    SplitKeyJoin(items[i].0, m, y);
  }

  /** Every year column is a digit string. */
  lemma PivotYearDigits(items: seq<Write>, y: string)
    requires y in PivotOf(Cuts(items)).years
    ensures AllDigits(y)
  {
    var es := Cuts(items);
    PivotYears(es, y);
    var i :| 0 <= i < |es| && es[i].0.Some? && es[i].0.value.1 == y;
    CutYearDigits(items, i);
  }

  /** A key of the dict passes the filter with metric `m` exactly when
      some pass of the loop sees it do so. */
  lemma FlatMetric(flat: Flat, m: string)
    ensures (exists k :: k in flat.keys && SplitKey(k).Some? && SplitKey(k).value.0 == m) <==>
            exists i :: 0 <= i < |Cuts(Items(flat))| && Cuts(Items(flat))[i].0.Some? && Cuts(Items(flat))[i].0.value.0 == m
  {
    var items := Items(flat);
    var es := Cuts(items);
    if exists k :: k in flat.keys && SplitKey(k).Some? && SplitKey(k).value.0 == m {
      var k :| k in flat.keys && SplitKey(k).Some? && SplitKey(k).value.0 == m;
      var i :| 0 <= i < |flat.keys| && flat.keys[i] == k;
      assert es[i].0 == SplitKey(k);
    }
    if exists i :: 0 <= i < |es| && es[i].0.Some? && es[i].0.value.0 == m {
      var i :| 0 <= i < |es| && es[i].0.Some? && es[i].0.value.0 == m;
      assert items[i].0 in flat.keys && es[i].0 == SplitKey(items[i].0);
    }
  }

  /** A key of the dict passes the filter with year `y` exactly when some
      pass of the loop sees it do so. */
  lemma FlatYear(flat: Flat, y: string)
    ensures (exists k :: k in flat.keys && SplitKey(k).Some? && SplitKey(k).value.1 == y) <==>
            exists i :: 0 <= i < |Cuts(Items(flat))| && Cuts(Items(flat))[i].0.Some? && Cuts(Items(flat))[i].0.value.1 == y
  {
    var items := Items(flat);
    var es := Cuts(items);
    if exists k :: k in flat.keys && SplitKey(k).Some? && SplitKey(k).value.1 == y {
      var k :| k in flat.keys && SplitKey(k).Some? && SplitKey(k).value.1 == y;
      var i :| 0 <= i < |flat.keys| && flat.keys[i] == k;
      assert es[i].0 == SplitKey(k);
    }
    if exists i :: 0 <= i < |es| && es[i].0.Some? && es[i].0.value.1 == y {
      var i :| 0 <= i < |es| && es[i].0.Some? && es[i].0.value.1 == y;
      assert items[i].0 in flat.keys && es[i].0 == SplitKey(items[i].0);
    }
  }

  /** An empty dict gives the empty table; a dict no key of which passes
      the filter gives the Metric/Value listing of all its items, in order;
      any other dict gives the pivoted table. */
  lemma GridShape(flat: Flat, show: Show)
    ensures TransformToGrid(flat, show).Blank? <==> flat.keys == []
    ensures TransformToGrid(flat, show).Listing? <==>
            flat.keys != [] && forall k :: k in flat.keys ==> SplitKey(k).None?
    ensures TransformToGrid(flat, show).Listing? ==>
            var pairs := TransformToGrid(flat, show).pairs;
            && |pairs| == |flat.keys|
            && forall i :: 0 <= i < |pairs| ==> pairs[i] == (flat.keys[i], Str(Get(flat, flat.keys[i]).value, show))
  {
    var es := Cuts(Items(flat));
    var dm := PivotOf(es).dataMap;
    if dm.keys != [] {
      PivotMetrics(es, dm.keys[0]);
      FlatMetric(flat, dm.keys[0]);
    } else if exists k :: k in flat.keys && SplitKey(k).Some? {
      var k :| k in flat.keys && SplitKey(k).Some?;
      PivotMetrics(es, SplitKey(k).value.0);
      FlatMetric(flat, SplitKey(k).value.0);
    }
  }

  /** The rows are the distinct metrics of the keys that pass the filter,
      in ascending order. */
  lemma GridIndex(flat: Flat, show: Show, m: string)
    requires TransformToGrid(flat, show).Frame?
    ensures Sorted(TransformToGrid(flat, show).index, false)
    ensures m in TransformToGrid(flat, show).index <==>
            exists k :: k in flat.keys && SplitKey(k).Some? && SplitKey(k).value.0 == m
  {
    PivotMetrics(Cuts(Items(flat)), m);
    FlatMetric(flat, m);
  }

  /** The columns are the distinct years of the keys that pass the filter,
      in descending order, each a digit string. */
  lemma GridColumns(flat: Flat, show: Show, y: string)
    requires TransformToGrid(flat, show).Frame?
    ensures Sorted(TransformToGrid(flat, show).columns, true)
    ensures y in TransformToGrid(flat, show).columns <==>
            exists k :: k in flat.keys && SplitKey(k).Some? && SplitKey(k).value.1 == y
    ensures y in TransformToGrid(flat, show).columns ==> AllDigits(y)
  {
    var items := Items(flat);
    PivotYears(Cuts(items), y);
    FlatYear(flat, y);
    if y in TransformToGrid(flat, show).columns {
      PivotYearDigits(items, y);
    }
  }

  /** The cell of metric `m` and year `y` is the str of the dict's value
      under `m + "_" + y`, and `"nan"` when the dict has no such key. */
  lemma GridCells(flat: Flat, show: Show, r: nat, c: nat)
    requires TransformToGrid(flat, show).Frame?
    requires r < |TransformToGrid(flat, show).index| && c < |TransformToGrid(flat, show).columns|
    ensures var g := TransformToGrid(flat, show);
            && |g.cells| == |g.index| && |g.cells[r]| == |g.columns|
            && g.cells[r][c] == match Get(flat, g.index[r] + "_" + g.columns[c])
                                case Some(v) => Str(v, show)
                                case None => "nan"
  {
    var g := TransformToGrid(flat, show);
    var items := Items(flat);
    var m, y := g.index[r], g.columns[c];
    PivotYearDigits(items, y);
    PivotCell(items, m, y);
    ItemsLastWrite(flat, m + "_" + y);
  }
}
