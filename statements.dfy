/** The three table parsers, `parse_api_5_stock_price`,
    `parse_api_6_income_statement` and `parse_api_7_balance_sheet`. Each
    walks rows that carry a `label` and a `data` list of `year`/`value`
    points and writes one `"<label>_<year>"` key per point; the stock price
    and the balance sheet add a level of categories above the rows. */
module Statements {
  import opened Wrappers
  import opened Text
  import opened OrderedDict
  import opened PyValue
  import opened Coerce
  import opened Flatten

  /** How a row's label enters its keys: as it is (`metric.get('label')`
      in the stock price) or stripped (`item.get('label', '').strip()` in
      the statements). */
  datatype Labels = Raw | Stripped

  /** `x.get('label', '').strip()`; `None` when `.strip()` raises because
      the label is not a str. */
  function StrippedLabel(fields: seq<(string, Json)>): (r: Option<string>)
    ensures r.Some? <==> ObjGet(fields, "label", JStr("")).JStr?
  {
    var l := ObjGet(fields, "label", JStr(""));
    if l.JStr? then Some(Strip(l.s)) else None
  }

  /** The text a row's label puts into its keys; `None` when reading it
      raises. */
  function RowName(labels: Labels, fields: seq<(string, Json)>, show: Show): Option<string> {
    match labels
    case Raw => Some(Str(ObjGet(fields, "label", JNull), show))
    case Stripped => StrippedLabel(fields)
  }

  /** What `for x in v.get('data', [])` visits, for a dict `v` whose data
      can be iterated. */
  function Children(v: Json): seq<Json> {
    if v.JObj? then Iterate(ObjGet(v.fields, "data", JArr([]))).GetOr([]) else []
  }

  /** An exception escapes while handling `row`: it is not a dict, its
      label cannot be read, or its data cannot be iterated. Anything going
      wrong with a single point is caught by the per-point `try`. */
  predicate RowRaises(labels: Labels, row: Json, show: Show) {
    || !row.JObj?
    || RowName(labels, row.fields, show).None?
    || Iterate(ObjGet(row.fields, "data", JArr([]))).None?
  }

  /** The writes of one row below the key prefix `head`. */
  function RowLog(head: string, labels: Labels, row: Json, show: Show): seq<Write> {
    if row.JObj? && RowName(labels, row.fields, show).Some? then
      EntriesLog(head + RowName(labels, row.fields, show).value, Children(row), show)
    else []
  }

  function RowLogs(head: string, labels: Labels, rows: seq<Json>, show: Show): seq<seq<Write>> {
    seq(|rows|, i requires 0 <= i < |rows| => RowLog(head, labels, rows[i], show))
  }

  /** The writes of a loop over rows. */
  function RowsLog(head: string, labels: Labels, rows: seq<Json>, show: Show): seq<Write> {
    Concat(RowLogs(head, labels, rows, show))
  }

  /** The key prefix of a category's rows: nothing in the stock price, which
      never reads a category's label, and `label_1 + "_"` in the balance
      sheet; `None` when that label cannot be stripped. */
  function CategoryHead(labels: Labels, fields: seq<(string, Json)>): Option<string> {
    match labels
    case Raw => Some("")
    case Stripped =>
      match StrippedLabel(fields)
      case Some(l) => Some(l + "_")
      case None => None
  }

  /** An exception escapes while handling `cat`: it is not a dict, its
      label (where one is read) is not a str, its data cannot be iterated,
      or one of its rows raises. */
  predicate CategoryRaises(labels: Labels, cat: Json, show: Show) {
    || !cat.JObj?
    || CategoryHead(labels, cat.fields).None?
    || Iterate(ObjGet(cat.fields, "data", JArr([]))).None?
    || exists i :: 0 <= i < |Children(cat)| && RowRaises(labels, Children(cat)[i], show)
  }

  /** The writes of one category. */
  function CategoryLog(labels: Labels, cat: Json, show: Show): seq<Write> {
    if cat.JObj? && CategoryHead(labels, cat.fields).Some? then
      RowsLog(CategoryHead(labels, cat.fields).value, labels, Children(cat), show)
    else []
  }

  function CategoryLogs(labels: Labels, cats: seq<Json>, show: Show): seq<seq<Write>> {
    seq(|cats|, c requires 0 <= c < |cats| => CategoryLog(labels, cats[c], show))
  }

  /** The writes of a loop over categories. */
  function CategoriesLog(labels: Labels, cats: seq<Json>, show: Show): seq<Write> {
    Concat(CategoryLogs(labels, cats, show))
  }

  // ---------------------------------------------------------------------
  // The parsers.

  /** `parse_api_5_stock_price(data)`: categories of metrics of points,
      keyed `"<metric_label>_<year>"`. */
  function StockPrice(data: Json, show: Show): Outcome<Flat> {
    match Iterate(data)
    case None => Raised
    case Some(cats) =>
      if exists c :: 0 <= c < |cats| && CategoryRaises(Raw, cats[c], show) then Raised
      else Done(Replay(EmptyDict(), CategoriesLog(Raw, cats, show)))
  }

  /** The two lists a statement holds. */
  datatype Period = Annual | Quarter

  function PeriodKey(p: Period): string {
    match p
    case Annual => "annual"
    case Quarter => "quarter"
  }

  /** `{'Annual': ..., 'Quarter': ...}`. */
  datatype Statement = Statement(annual: Flat, quarter: Flat) {
    function Part(p: Period): Flat {
      match p
      case Annual => annual
      case Quarter => quarter
    }
  }

  /** `data.get('annual', [])` or `data.get('quarter', [])`, iterated;
      `None` when `data` is not a dict or the list cannot be iterated. */
  function PeriodItems(data: Json, p: Period): Option<seq<Json>> {
    if data.JObj? then Iterate(ObjGet(data.fields, PeriodKey(p), JArr([]))) else None
  }

  /** The loop over one period's rows of an income statement. */
  function IncomePart(rows: seq<Json>, show: Show): Outcome<Flat> {
    if exists i :: 0 <= i < |rows| && RowRaises(Stripped, rows[i], show) then Raised
    else Done(Replay(EmptyDict(), RowsLog("", Stripped, rows, show)))
  }

  /** `parse_api_6_income_statement(data)`: the annual loop, then the
      quarter loop, each into its own dict, keyed `"<label>_<year>"`. */
  function IncomeStatement(data: Json, show: Show): Outcome<Statement> {
    match PeriodItems(data, Annual)
    case None => Raised
    case Some(a) =>
      match IncomePart(a, show)
      case Raised => Raised
      case Done(annual) =>
        match PeriodItems(data, Quarter)
        case None => Raised
        case Some(q) =>
          match IncomePart(q, show)
          case Raised => Raised
          case Done(quarter) => Done(Statement(annual, quarter))
  }

  /** The loop over one period's categories of a balance sheet. */
  function SheetPart(cats: seq<Json>, show: Show): Outcome<Flat> {
    if exists c :: 0 <= c < |cats| && CategoryRaises(Stripped, cats[c], show) then Raised
    else Done(Replay(EmptyDict(), CategoriesLog(Stripped, cats, show)))
  }

  /** `parse_api_7_balance_sheet(data)` in `Final_app.py`: annual and
      quarter, keyed `"<label_1>_<label_2>_<year>"`. */
  function BalanceSheet(data: Json, show: Show): Outcome<Statement> {
    match PeriodItems(data, Annual)
    case None => Raised
    case Some(a) =>
      match SheetPart(a, show)
      case Raised => Raised
      case Done(annual) =>
        match PeriodItems(data, Quarter)
        case None => Raised
        case Some(q) =>
          match SheetPart(q, show)
          case Raised => Raised
          case Done(quarter) => Done(Statement(annual, quarter))
  }

  /** `parse_api_7_balance_sheet(data)` in `stock_engine.py`: the annual
      loop only, returned as a single dict. */
  function EngineBalanceSheet(data: Json, show: Show): Outcome<Flat> {
    match PeriodItems(data, Annual)
    case None => Raised
    case Some(a) => SheetPart(a, show)
  }

  // ---------------------------------------------------------------------
  // The loops.

  lemma RowsLogSnoc(head: string, labels: Labels, rows: seq<Json>, show: Show)
    requires rows != []
    ensures RowsLog(head, labels, rows, show) ==
            RowsLog(head, labels, rows[..|rows| - 1], show) + RowLog(head, labels, rows[|rows| - 1], show)
  {
    assert RowLogs(head, labels, rows, show)[..|rows| - 1] == RowLogs(head, labels, rows[..|rows| - 1], show);
  }

  lemma CategoriesLogSnoc(labels: Labels, cats: seq<Json>, show: Show)
    requires cats != []
    ensures CategoriesLog(labels, cats, show) ==
            CategoriesLog(labels, cats[..|cats| - 1], show) + CategoryLog(labels, cats[|cats| - 1], show)
  {
    assert CategoryLogs(labels, cats, show)[..|cats| - 1] == CategoryLogs(labels, cats[..|cats| - 1], show);
  }

  /** The body of a row loop for one row: `label = ...`, then
      `for entry in row.get('data', [])`. */
  method ScanRow(d: Flat, head: string, labels: Labels, row: Json, show: Show) returns (r: Outcome<Flat>)
    ensures r.Raised? <==> RowRaises(labels, row, show)
    ensures r.Done? ==> r.value == Replay(d, RowLog(head, labels, row, show))
  {
    if !row.JObj? {
      return Raised;
    }
    var name := RowName(labels, row.fields, show);
    if name.None? {
      return Raised;
    }
    var entries := Iterate(ObjGet(row.fields, "data", JArr([])));
    if entries.None? {
      return Raised;
    }
    var cur := ScanEntries(d, head + name.value, entries.value, show);
    return Done(cur);
  }

  /** `cur` is what a row loop holds after its first `i` passes. */
  predicate RowsDone(d: Flat, head: string, labels: Labels, rows: seq<Json>, show: Show, i: nat, cur: Flat) {
    i <= |rows| && cur == Replay(d, RowsLog(head, labels, rows[..i], show))
  }

  lemma RowStep(d: Flat, head: string, labels: Labels, rows: seq<Json>, show: Show, i: nat, prev: Flat, next: Flat)
    requires i < |rows| && RowsDone(d, head, labels, rows, show, i, prev)
    requires next == Replay(prev, RowLog(head, labels, rows[i], show))
    ensures RowsDone(d, head, labels, rows, show, i + 1, next)
  {
    assert rows[..i + 1][..i] == rows[..i];
    RowsLogSnoc(head, labels, rows[..i + 1], show);
    ReplayAppend(d, RowsLog(head, labels, rows[..i], show), RowLog(head, labels, rows[i], show));
  }

  /** `for item in rows`, writing each row's points below `head`. */
  method ScanRows(d: Flat, head: string, labels: Labels, rows: seq<Json>, show: Show) returns (r: Outcome<Flat>)
    ensures r.Raised? <==> exists i :: 0 <= i < |rows| && RowRaises(labels, rows[i], show)
    ensures r.Done? ==> r.value == Replay(d, RowsLog(head, labels, rows, show))
  {
    var cur := d;
    var i := 0;
    while i < |rows|
      invariant 0 <= i <= |rows|
      invariant forall j :: 0 <= j < i ==> !RowRaises(labels, rows[j], show)
      invariant RowsDone(d, head, labels, rows, show, i, cur)
    {
      var step := ScanRow(cur, head, labels, rows[i], show);
      if step.Raised? {
        return Raised;
      }
      assert forall j :: 0 <= j < i + 1 ==> !RowRaises(labels, rows[j], show) by {
        forall j | 0 <= j < i + 1 ensures !RowRaises(labels, rows[j], show) {
          if j == i { assert step.Done?; }
        }
      }
      RowStep(d, head, labels, rows, show, i, cur, step.value);
      cur := step.value;
      i := i + 1;
    }
    assert rows[..i] == rows;
    return Done(cur);
  }

  /** The body of a category loop for one category. */
  method ScanCategory(d: Flat, labels: Labels, cat: Json, show: Show) returns (r: Outcome<Flat>)
    ensures r.Raised? <==> CategoryRaises(labels, cat, show)
    ensures r.Done? ==> r.value == Replay(d, CategoryLog(labels, cat, show))
  {
    if !cat.JObj? {
      return Raised;
    }
    var head := CategoryHead(labels, cat.fields);
    if head.None? {
      return Raised;
    }
    var rows := Iterate(ObjGet(cat.fields, "data", JArr([])));
    if rows.None? {
      return Raised;
    }
    assert rows.value == Children(cat);
    r := ScanRows(d, head.value, labels, rows.value, show);
  }

  /** `cur` is what a category loop holds after its first `c` passes. */
  predicate CategoriesDone(labels: Labels, cats: seq<Json>, show: Show, c: nat, cur: Flat) {
    c <= |cats| && cur == Replay(EmptyDict(), CategoriesLog(labels, cats[..c], show))
  }

  lemma CategoryStep(labels: Labels, cats: seq<Json>, show: Show, c: nat, prev: Flat, next: Flat)
    requires c < |cats| && CategoriesDone(labels, cats, show, c, prev)
    requires next == Replay(prev, CategoryLog(labels, cats[c], show))
    ensures CategoriesDone(labels, cats, show, c + 1, next)
  {
    assert cats[..c + 1][..c] == cats[..c];
    CategoriesLogSnoc(labels, cats[..c + 1], show);
    ReplayAppend(EmptyDict(), CategoriesLog(labels, cats[..c], show), CategoryLog(labels, cats[c], show));
  }

  /** `for category in cats`, into a fresh dict. */
  method ScanCategories(labels: Labels, cats: seq<Json>, show: Show) returns (r: Outcome<Flat>)
    ensures r.Raised? <==> exists c :: 0 <= c < |cats| && CategoryRaises(labels, cats[c], show)
    ensures r.Done? ==> r.value == Replay(EmptyDict(), CategoriesLog(labels, cats, show))
  {
    var cur := EmptyDict();
    var c := 0;
    while c < |cats|
      invariant 0 <= c <= |cats|
      invariant forall j :: 0 <= j < c ==> !CategoryRaises(labels, cats[j], show)
      invariant CategoriesDone(labels, cats, show, c, cur)
    {
      var step := ScanCategory(cur, labels, cats[c], show);
      if step.Raised? {
        return Raised;
      }
      assert forall j :: 0 <= j < c + 1 ==> !CategoryRaises(labels, cats[j], show) by {
        forall j | 0 <= j < c + 1 ensures !CategoryRaises(labels, cats[j], show) {
          if j == c { assert step.Done?; }
        }
      }
      CategoryStep(labels, cats, show, c, cur, step.value);
      cur := step.value;
      c := c + 1;
    }
    assert cats[..c] == cats;
    return Done(cur);
  }

  /** `parse_api_5_stock_price(data)` as the code runs it, loop by loop. */
  method ParseStockPrice(data: Json, show: Show) returns (r: Outcome<Flat>)
    ensures r == StockPrice(data, show)
  {
    var cats := Iterate(data);
    if cats.None? {
      return Raised;
    }
    r := ScanCategories(Raw, cats.value, show);
  }

  /** `parse_api_6_income_statement(data)` as the code runs it, loop by loop. */
  method ParseIncomeStatement(data: Json, show: Show) returns (r: Outcome<Statement>)
    ensures r == IncomeStatement(data, show)
  {
    var a := PeriodItems(data, Annual);
    if a.None? {
      return Raised;
    }
    var annual := ScanRows(EmptyDict(), "", Stripped, a.value, show);
    assert annual == IncomePart(a.value, show);
    if annual.Raised? {
      return Raised;
    }
    var q := PeriodItems(data, Quarter);
    if q.None? {
      return Raised;
    }
    var quarter := ScanRows(EmptyDict(), "", Stripped, q.value, show);
    assert quarter == IncomePart(q.value, show);
    if quarter.Raised? {
      return Raised;
    }
    return Done(Statement(annual.value, quarter.value));
  }

  /** `parse_api_7_balance_sheet(data)` of `Final_app.py` as the code
      runs it. */
  method ParseBalanceSheet(data: Json, show: Show) returns (r: Outcome<Statement>)
    ensures r == BalanceSheet(data, show)
  {
    var a := PeriodItems(data, Annual);
    if a.None? {
      return Raised;
    }
    var annual := ScanCategories(Stripped, a.value, show);
    assert annual == SheetPart(a.value, show);
    if annual.Raised? {
      return Raised;
    }
    var q := PeriodItems(data, Quarter);
    if q.None? {
      return Raised;
    }
    var quarter := ScanCategories(Stripped, q.value, show);
    assert quarter == SheetPart(q.value, show);
    if quarter.Raised? {
      return Raised;
    }
    return Done(Statement(annual.value, quarter.value));
  }

  /** `parse_api_7_balance_sheet(data)` of `stock_engine.py` as the code
      runs it. */
  method ParseEngineBalanceSheet(data: Json, show: Show) returns (r: Outcome<Flat>)
    ensures r == EngineBalanceSheet(data, show)
  {
    var a := PeriodItems(data, Annual);
    if a.None? {
      return Raised;
    }
    r := ScanCategories(Stripped, a.value, show);
  }

  // ---------------------------------------------------------------------
  // What the results hold.

  /** Point `j` of row `i` writes `w`: a dict point whose value
      `clean_number` accepts, under `head`, the row's label, an underscore
      and the point's year. */
  predicate Wrote(head: string, labels: Labels, rows: seq<Json>, show: Show, i: nat, j: nat, w: Write) {
    && i < |rows| && rows[i].JObj? && RowName(labels, rows[i].fields, show).Some?
    && j < |Children(rows[i])| && Children(rows[i])[j].JObj?
    && CleanNumber(ObjGet(Children(rows[i])[j].fields, "value", JNull)).Some?
    && w == (head + RowName(labels, rows[i].fields, show).value + "_" + YearText(Children(rows[i])[j].fields, show),
             JFloat(CleanNumber(ObjGet(Children(rows[i])[j].fields, "value", JNull)).value))
  }

  /** Point `j` of row `i` of category `c` writes `w`. */
  predicate TreeWrote(labels: Labels, cats: seq<Json>, show: Show, c: nat, i: nat, j: nat, w: Write) {
    && c < |cats| && cats[c].JObj? && CategoryHead(labels, cats[c].fields).Some?
    && Wrote(CategoryHead(labels, cats[c].fields).value, labels, Children(cats[c]), show, i, j, w)
  }

  /** One row's writes are exactly the writes of its points. */
  lemma RowLogWrites(head: string, labels: Labels, rows: seq<Json>, show: Show, i: nat, w: Write)
    requires i < |rows|
    ensures w in RowLog(head, labels, rows[i], show) <==> exists j: nat :: Wrote(head, labels, rows, show, i, j, w)
  {
    var row := rows[i];
    if row.JObj? && RowName(labels, row.fields, show).Some? {
      var name, es := RowName(labels, row.fields, show).value, Children(row);
      EntriesLogWrites(head + name, es, show, w);
      forall j: nat | j < |es|
        ensures EntryWrite(head + name, es[j], show) == Some(w) <==> Wrote(head, labels, rows, show, i, j, w)
      {
      }
    }
  }

  /** A row loop's writes are exactly the writes of its points. */
  lemma RowsLogWrites(head: string, labels: Labels, rows: seq<Json>, show: Show, w: Write)
    ensures w in RowsLog(head, labels, rows, show) <==> exists i: nat, j: nat :: Wrote(head, labels, rows, show, i, j, w)
  {
    var ls := RowLogs(head, labels, rows, show);
    if w in Concat(ls) {
      ConcatFrom(ls, w);
      var i :| 0 <= i < |ls| && w in ls[i];
      RowLogWrites(head, labels, rows, show, i, w);
    }
    if exists i: nat, j: nat :: Wrote(head, labels, rows, show, i, j, w) {
      var i: nat, j: nat :| Wrote(head, labels, rows, show, i, j, w);
      RowLogWrites(head, labels, rows, show, i, w);
      ConcatHas(ls, i, w);
    }
  }

  /** One category's writes are exactly the writes of its points. */
  lemma CategoryLogWrites(labels: Labels, cats: seq<Json>, show: Show, c: nat, w: Write)
    requires c < |cats|
    ensures w in CategoryLog(labels, cats[c], show) <==> exists i: nat, j: nat :: TreeWrote(labels, cats, show, c, i, j, w)
  {
    var cat := cats[c];
    if cat.JObj? && CategoryHead(labels, cat.fields).Some? {
      var head, rows := CategoryHead(labels, cat.fields).value, Children(cat);
      RowsLogWrites(head, labels, rows, show, w);
      forall i: nat, j: nat
        ensures TreeWrote(labels, cats, show, c, i, j, w) <==> Wrote(head, labels, rows, show, i, j, w)
      {
      }
    }
  }

  /** A category loop's writes are exactly the writes of its points. */
  lemma CategoriesLogWrites(labels: Labels, cats: seq<Json>, show: Show, w: Write)
    ensures w in CategoriesLog(labels, cats, show) <==> exists c: nat, i: nat, j: nat :: TreeWrote(labels, cats, show, c, i, j, w)
  {
    var ls := CategoryLogs(labels, cats, show);
    if w in Concat(ls) {
      ConcatFrom(ls, w);
      var c :| 0 <= c < |ls| && w in ls[c];
      CategoryLogWrites(labels, cats, show, c, w);
    }
    if exists c: nat, i: nat, j: nat :: TreeWrote(labels, cats, show, c, i, j, w) {
      var c: nat, i: nat, j: nat :| TreeWrote(labels, cats, show, c, i, j, w);
      CategoryLogWrites(labels, cats, show, c, w);
      ConcatHas(ls, c, w);
    }
  }

  /** Every stock-price key is `"<metric_label>_<year>"` of some point of
      some metric, and holds that point's coerced value. */
  lemma StockKeys(data: Json, show: Show, d: Flat, key: string)
    requires StockPrice(data, show) == Done(d)
    requires key in d.keys
    ensures exists c: nat, i: nat, j: nat :: TreeWrote(Raw, Iterate(data).value, show, c, i, j, (key, Get(d, key).value))
  {
    var log := CategoriesLog(Raw, Iterate(data).value, show);
    ReplayEmptyOrigin(log, key);
    CategoriesLogWrites(Raw, Iterate(data).value, show, (key, Get(d, key).value));
  }

  /** Every point of every metric of every category whose value
      `clean_number` accepts leaves its key in the stock-price dict. */
  lemma StockFanOut(data: Json, show: Show, d: Flat, c: nat, i: nat, j: nat, w: Write)
    requires StockPrice(data, show) == Done(d)
    requires TreeWrote(Raw, Iterate(data).value, show, c, i, j, w)
    ensures w.0 in d.keys
  {
    CategoriesLogWrites(Raw, Iterate(data).value, show, w);
    ReplayEmptyHas(CategoriesLog(Raw, Iterate(data).value, show), w);
  }

  /** Every key of either income-statement dict is a stripped row label,
      an underscore and a year, and holds the coerced value of a point of
      that period. */
  lemma IncomeKeys(data: Json, show: Show, s: Statement, p: Period, key: string)
    requires IncomeStatement(data, show) == Done(s)
    requires key in s.Part(p).keys
    ensures exists i: nat, j: nat :: Wrote("", Stripped, PeriodItems(data, p).value, show, i, j, (key, Get(s.Part(p), key).value))
  {
    var rows := PeriodItems(data, p).value;
    assert s.Part(p) == IncomePart(rows, show).value;
    ReplayEmptyOrigin(RowsLog("", Stripped, rows, show), key);
    RowsLogWrites("", Stripped, rows, show, (key, Get(s.Part(p), key).value));
  }

  /** Every point of a period whose value `clean_number` accepts leaves its
      key in that period's dict. */
  lemma IncomeFanOut(data: Json, show: Show, s: Statement, p: Period, i: nat, j: nat, w: Write)
    requires IncomeStatement(data, show) == Done(s)
    requires Wrote("", Stripped, PeriodItems(data, p).value, show, i, j, w)
    ensures w.0 in s.Part(p).keys
  {
    var rows := PeriodItems(data, p).value;
    assert s.Part(p) == IncomePart(rows, show).value;
    RowsLogWrites("", Stripped, rows, show, w);
    ReplayEmptyHas(RowsLog("", Stripped, rows, show), w);
  }

  /** A statement without the period's list has an empty dict for it. */
  lemma IncomeMissing(data: Json, show: Show, s: Statement, p: Period)
    requires IncomeStatement(data, show) == Done(s)
    requires data.JObj? && Lookup(data.fields, PeriodKey(p)).None?
    ensures s.Part(p) == EmptyDict()
  {
    assert PeriodItems(data, p) == Some([]);
    assert RowsLog("", Stripped, [], show) == [];
  }

  /** Every key of either balance-sheet dict is a stripped category label,
      an underscore, a stripped row label, an underscore and a year, and
      holds the coerced value of a point of that period. */
  lemma BalanceKeys(data: Json, show: Show, s: Statement, p: Period, key: string)
    requires BalanceSheet(data, show) == Done(s)
    requires key in s.Part(p).keys
    ensures exists c: nat, i: nat, j: nat :: TreeWrote(Stripped, PeriodItems(data, p).value, show, c, i, j, (key, Get(s.Part(p), key).value))
  {
    var cats := PeriodItems(data, p).value;
    assert s.Part(p) == SheetPart(cats, show).value;
    ReplayEmptyOrigin(CategoriesLog(Stripped, cats, show), key);
    CategoriesLogWrites(Stripped, cats, show, (key, Get(s.Part(p), key).value));
  }

  /** Every point of a period whose value `clean_number` accepts leaves its
      key in that period's dict. */
  lemma BalanceFanOut(data: Json, show: Show, s: Statement, p: Period, c: nat, i: nat, j: nat, w: Write)
    requires BalanceSheet(data, show) == Done(s)
    requires TreeWrote(Stripped, PeriodItems(data, p).value, show, c, i, j, w)
    ensures w.0 in s.Part(p).keys
  {
    var cats := PeriodItems(data, p).value;
    assert s.Part(p) == SheetPart(cats, show).value;
    CategoriesLogWrites(Stripped, cats, show, w);
    ReplayEmptyHas(CategoriesLog(Stripped, cats, show), w);
  }

  /** A balance sheet without the period's list has an empty dict for it. */
  lemma BalanceMissing(data: Json, show: Show, s: Statement, p: Period)
    requires BalanceSheet(data, show) == Done(s)
    requires data.JObj? && Lookup(data.fields, PeriodKey(p)).None?
    ensures s.Part(p) == EmptyDict()
  {
    assert PeriodItems(data, p) == Some([]);
    assert CategoriesLog(Stripped, [], show) == [];
  }

  /** The two balance sheets: the engine's dict is the application's annual
      dict, and the engine raises only where the application does; the
      application also raises on a quarter list the engine never reads. */
  lemma BalanceAgree(data: Json, show: Show)
    ensures BalanceSheet(data, show).Done? ==> EngineBalanceSheet(data, show) == Done(BalanceSheet(data, show).value.annual)
    ensures EngineBalanceSheet(data, show).Raised? ==> BalanceSheet(data, show).Raised?
    ensures (EngineBalanceSheet(data, show).Done? && PeriodItems(data, Quarter).Some? &&
             SheetPart(PeriodItems(data, Quarter).value, show).Done?) ==> BalanceSheet(data, show).Done?
  {
  }
}
