/** `make_hierarchical_grid`: the balance-sheet keys
    `"<category>_<item>_<year>"` become a table with a `Metric` column and
    one column per year, newest first; each category contributes an
    upper-cased header row with blank year cells, then one row per item,
    indented by six spaces, with `"0"` where the item has no value for a
    year. Categories and items keep the order their first key had.

    The code guards the split with `len(parts) >= 3` and then tests
    `len(parts) == 2` inside it, so the branch meant for two-part keys is
    never taken and those keys are dropped. The guard is a parameter here:
    `AsWritten` is the code, `Intended` the evident intent. */
module Hierarchy {
  import opened Wrappers
  import opened Text
  import opened OrderedDict
  import opened PyValue
  import opened Flatten
  import opened Ordering

  /** Which keys the loop places: at least three parts, as the code
      reads, or at least two, as the branch inside it expects. */
  datatype Guard = AsWritten | Intended

  function MinParts(g: Guard): nat {
    match g
    case AsWritten => 3
    case Intended => 2
  }

  /** Where a key goes: category, item and year, from
      `parts = key.split('_')`; `None` for a key the guard skips. */
  function Place(key: string, g: Guard): Option<(string, string, string)> {
    var parts := Split(key, '_');
    if |parts| >= MinParts(g) then
      var year := parts[|parts| - 1];
      if |parts| == 2 then Some(("Items", parts[0], year))
      else Some((parts[0], Join(parts[1..|parts| - 1], '_'), year))
    else None
  }

  /** What the first loop builds: `tree` (category to item to year to
      value) and `all_years`, a set, kept here in the order its members
      were added. */
  datatype Tree = Tree(tree: Dict<Dict<Dict<Json>>>, years: seq<string>)

  /** A key's placement and its value: what one pass of the first loop
      works with. */
  type Entry = (Option<(string, string, string)>, Json)

  /** The placement of every key of `flat_data.items()`, in order. */
  function Entries(items: seq<Write>, g: Guard): seq<Entry> {
    seq(|items|, k requires 0 <= k < |items| => (Place(items[k].0, g), items[k].1))
  }

  /** One pass of `for key, value in flat_data.items()`. */
  function TreeStep(t: Tree, e: Entry): Tree {
    Tree(GrowTree(t.tree, e), GrowYears(t.years, e))
  }

  /** `tree[category][item][year] = value`, creating the category and item
      dicts where they are missing. */
  function GrowTree(tree: Dict<Dict<Dict<Json>>>, e: Entry): Dict<Dict<Dict<Json>>> {
    match e.0
    case None => tree
    case Some((c, i, y)) => Set(tree, c, Set(GetOr(tree, c, EmptyDict()), i, Set(Leaves(tree, c, i), y, e.1)))
  }

  /** `all_years.add(year)`. */
  function GrowYears(years: seq<string>, e: Entry): seq<string> {
    match e.0
    case None => years
    case Some((_, _, y)) => if y in years then years else years + [y]
  }

  function TreeOf(es: seq<Entry>): Tree {
    if es == [] then Tree(EmptyDict(), [])
    else TreeStep(TreeOf(es[..|es| - 1]), es[|es| - 1])
  }

  /** A row of the table: the `Metric` cell, then one per year. */
  type Row = Dict<string>

  function BlankLog(years: seq<string>): seq<(string, string)> {
    seq(|years|, j requires 0 <= j < |years| => (years[j], ""))
  }

  /** `{"Metric": category.upper()}` with `""` for every year. */
  function HeaderRow(cat: string, years: seq<string>): Row {
    Replay(Set(EmptyDict(), "Metric", Upper(cat)), BlankLog(years))
  }

  /** `str(year_vals.get(y, "0"))`. */
  function YearCell(vals: Dict<Json>, y: string, show: Show): string {
    match Get(vals, y)
    case Some(v) => Str(v, show)
    case None => "0"
  }

  function CellLog(vals: Dict<Json>, years: seq<string>, show: Show): seq<(string, string)> {
    seq(|years|, j requires 0 <= j < |years| => (years[j], YearCell(vals, years[j], show)))
  }

  /** `{"Metric": display_name}` with the item's cell for every year. */
  function ItemRow(name: string, vals: Dict<Json>, years: seq<string>, show: Show): Row {
    Replay(Set(EmptyDict(), "Metric", name), CellLog(vals, years, show))
  }

  /** An item's name, indented by six spaces except in the `"Items"`
      category. */
  function DisplayName(cat: string, item: string): string {
    if cat != "Items" then "      " + item else item
  }

  /** The row of item `item` of category `cat`. */
  function ItemRowOf(cat: string, items: Dict<Dict<Json>>, item: string, years: seq<string>, show: Show): Row {
    ItemRow(DisplayName(cat, item), GetOr(items, item, EmptyDict()), years, show)
  }

  function ItemRows(cat: string, items: Dict<Dict<Json>>, years: seq<string>, show: Show): seq<Row> {
    seq(|items.keys|, j requires 0 <= j < |items.keys| => ItemRowOf(cat, items, items.keys[j], years, show))
  }

  /** The rows of one category: its header unless it is `"Items"`, then
      its items in order. */
  function CategoryRows(cat: string, items: Dict<Dict<Json>>, years: seq<string>, show: Show): seq<Row> {
    (if cat != "Items" then [HeaderRow(cat, years)] else []) + ItemRows(cat, items, years, show)
  }

  function CategoryRowLogs(tree: Dict<Dict<Dict<Json>>>, years: seq<string>, show: Show): seq<seq<Row>> {
    seq(|tree.keys|, c requires 0 <= c < |tree.keys| =>
      CategoryRows(tree.keys[c], tree.values[tree.keys[c]], years, show))
  }

  /** `rows`: every category's rows, categories in order. */
  function TreeRows(tree: Dict<Dict<Dict<Json>>>, years: seq<string>, show: Show): seq<Row> {
    Concat(CategoryRowLogs(tree, years, show))
  }

  /** `pd.DataFrame(rows).astype(str)`: the columns of the rows and each
      row's cells; nothing for no rows. */
  datatype Sheet = Sheet(columns: seq<string>, cells: seq<seq<string>>)

  /** The columns are the first row's keys: every row has the same keys
      (`RowKeys`), so that is the union pandas takes. */
  function Frame(rows: seq<Row>): Sheet {
    if rows == [] then Sheet([], [])
    else
      var cols := rows[0].keys;
      Sheet(cols, seq(|rows|, i requires 0 <= i < |rows| =>
        seq(|cols|, j requires 0 <= j < |cols| => GetOr(rows[i], cols[j], "nan"))))
  }

  /** The tree and the years the first loop builds from `flat`. */
  function TreeFor(flat: Flat, g: Guard): Tree {
    TreeOf(Entries(Items(flat), g))
  }

  /** `sorted_years = sorted(list(all_years), reverse=True)`. */
  function YearsFor(flat: Flat, g: Guard): seq<string> {
    SortedSet(TreeFor(flat, g).years, true)
  }

  /** The rows the second loop builds from `flat`. */
  function RowsFor(flat: Flat, show: Show, g: Guard): seq<Row> {
    TreeRows(TreeFor(flat, g).tree, YearsFor(flat, g), show)
  }

  /** `make_hierarchical_grid(flat_data)` under guard `g`. */
  function HierarchicalGrid(flat: Flat, show: Show, g: Guard): Sheet {
    if flat.keys == [] then Sheet([], []) else Frame(RowsFor(flat, show, g))
  }

  // ---------------------------------------------------------------------
  // The loops.

  lemma TreeSnoc(es: seq<Entry>, i: nat)
    requires i < |es|
    ensures TreeOf(es[..i + 1]) == TreeStep(TreeOf(es[..i]), es[i])
  {
    assert es[..i + 1][..i] == es[..i];
  }

  /** `if k not in d: d[k] = a` leaves `k` holding its old value or `a`. */
  lemma FillGet<V>(d: Dict<V>, k: string, a: V)
    ensures Get(if k in d.keys then d else Set(d, k, a), k) == Some(GetOr(d, k, a))
  {
  }

  /** An assignment to `k` after filling it in is the assignment alone. */
  lemma FillSet<V>(d: Dict<V>, k: string, a: V, b: V)
    ensures Set(if k in d.keys then d else Set(d, k, a), k, b) == Set(d, k, b)
  {
    if k !in d.keys {
      SetTwice(d, k, a, b);
    }
  }

  /** The body of the first loop for one key and value. */
  method AddLeaf(t: Tree, key: string, value: Json, g: Guard) returns (r: Tree)
    ensures r == TreeStep(t, (Place(key, g), value))
  {
    var parts := Split(key, '_');
    if |parts| >= MinParts(g) {
      var year := parts[|parts| - 1];
      var years := t.years;
      if year !in years {
        years := years + [year];
      }
      var cat, item;
      if |parts| == 2 {
        cat, item := "Items", parts[0];
      } else {
        cat, item := parts[0], Join(parts[1..|parts| - 1], '_');
      }
      assert Place(key, g) == Some((cat, item, year));
      var tree := PutLeaf(t.tree, cat, item, year, value);
      return Tree(tree, years);
    }
    return t;
  }

  /** Creating the category dict and the item dict where they are missing,
      then `tree[cat][item][year] = value`. */
  method PutLeaf(tree: Dict<Dict<Dict<Json>>>, cat: string, item: string, year: string, value: Json)
    returns (r: Dict<Dict<Dict<Json>>>)
    ensures r == GrowTree(tree, (Some((cat, item, year)), value))
  {
    r := tree;
    if cat !in r.keys {
      r := Set(r, cat, EmptyDict());
    }
    FillGet(tree, cat, EmptyDict());
    var items: Dict<Dict<Json>> := Get(r, cat).value;
    ghost var found := items;
    if item !in items.keys {
      items := Set(items, item, EmptyDict());
    }
    FillGet(found, item, EmptyDict());
    var vals: Dict<Json> := Get(items, item).value;
    FillSet(found, item, EmptyDict(), Set(vals, year, value));
    FillSet(tree, cat, EmptyDict(), Set(items, item, Set(vals, year, value)));
    r := Set(r, cat, Set(items, item, Set(vals, year, value)));
  }

  /** `for key, value in flat_data.items()`. */
  method ScanTree(items: seq<Write>, g: Guard) returns (t: Tree)
    ensures t == TreeOf(Entries(items, g))
  {
    ghost var es := Entries(items, g);
    t := Tree(EmptyDict(), []);
    var i := 0;
    while i < |items|
      invariant 0 <= i <= |items|
      invariant t == TreeOf(es[..i])
    {
      var next := AddLeaf(t, items[i].0, items[i].1, g);
      assert es[i] == (Place(items[i].0, g), items[i].1);
      TreeSnoc(es, i);
      t := next;
      i := i + 1;
    }
    assert es[..i] == es;
  }

  lemma ReplayPrefixSnoc<V>(d: Dict<V>, log: seq<(string, V)>, j: nat)
    requires j < |log|
    ensures Replay(d, log[..j + 1]) == Set(Replay(d, log[..j]), log[j].0, log[j].1)
  {
    TakeSnoc(log, j);
    ReplaySnoc(d, log[..j], log[j].0, log[j].1);
  }

  /** `head_row = {"Metric": ...}; for y in sorted_years: head_row[y] = ""`. */
  method BuildHeader(cat: string, years: seq<string>) returns (row: Row)
    ensures row == HeaderRow(cat, years)
  {
    var start := Set(EmptyDict(), "Metric", Upper(cat));
    row := start;
    var j := 0;
    while j < |years|
      invariant 0 <= j <= |years|
      invariant row == Replay(start, BlankLog(years)[..j])
    {
      ReplayPrefixSnoc(start, BlankLog(years), j);
      row := Set(row, years[j], "");
      j := j + 1;
    }
    assert BlankLog(years)[..j] == BlankLog(years);
  }

  /** `row = {"Metric": display_name}; for y in sorted_years: row[y] = ...`. */
  method BuildItemRow(name: string, vals: Dict<Json>, years: seq<string>, show: Show) returns (row: Row)
    ensures row == ItemRow(name, vals, years, show)
  {
    ghost var log := CellLog(vals, years, show);
    var start := Set(EmptyDict(), "Metric", name);
    row := start;
    var j := 0;
    while j < |years|
      invariant 0 <= j <= |years|
      invariant row == Replay(start, log[..j])
    {
      ReplayPrefixSnoc(start, log, j);
      var y := years[j];
      row := Set(row, y, YearCell(vals, y, show));
      j := j + 1;
    }
    assert log[..j] == log;
  }

  lemma ItemRowsSnoc(cat: string, items: Dict<Dict<Json>>, years: seq<string>, show: Show, j: nat)
    requires j < |items.keys|
    ensures var item := items.keys[j];
            && ItemRowOf(cat, items, item, years, show) == ItemRow(DisplayName(cat, item), items.values[item], years, show)
            && ItemRows(cat, items, years, show)[..j + 1] ==
               ItemRows(cat, items, years, show)[..j] + [ItemRowOf(cat, items, item, years, show)]
  {
    TakeSnoc(ItemRows(cat, items, years, show), j);
  }

  lemma TakeSnoc<T>(s: seq<T>, j: nat)
    requires j < |s|
    ensures s[..j + 1] == s[..j] + [s[j]]
  {
  }

  /** `for item_name, year_vals in items.items()`. */
  method BuildItemRows(cat: string, items: Dict<Dict<Json>>, years: seq<string>, show: Show) returns (rows: seq<Row>)
    ensures rows == ItemRows(cat, items, years, show)
  {
    ghost var all := ItemRows(cat, items, years, show);
    rows := [];
    var j := 0;
    while j < |items.keys|
      invariant 0 <= j <= |items.keys|
      invariant rows == all[..j]
    {
      var item := items.keys[j];
      var name := if cat != "Items" then "      " + item else item;
      var row := BuildItemRow(name, items.values[item], years, show);
      ItemRowsSnoc(cat, items, years, show, j);
      rows := rows + [row];
      j := j + 1;
    }
    assert all[..j] == all;
  }

  /** The body of the second loop for one category. */
  method BuildCategory(cat: string, items: Dict<Dict<Json>>, years: seq<string>, show: Show) returns (rows: seq<Row>)
    ensures rows == CategoryRows(cat, items, years, show)
  {
    rows := [];
    if cat != "Items" {
      var head := BuildHeader(cat, years);
      rows := [head];
    }
    var more := BuildItemRows(cat, items, years, show);
    rows := rows + more;
  }

  /** `for category, items in tree.items()`. */
  method BuildRows(tree: Dict<Dict<Dict<Json>>>, years: seq<string>, show: Show) returns (rows: seq<Row>)
    ensures rows == TreeRows(tree, years, show)
  {
    ghost var ls := CategoryRowLogs(tree, years, show);
    rows := [];
    var c := 0;
    while c < |tree.keys|
      invariant 0 <= c <= |tree.keys|
      invariant rows == Concat(ls[..c])
    {
      var cat := tree.keys[c];
      var more := BuildCategory(cat, tree.values[cat], years, show);
      ConcatSnoc(ls, c);
      rows := rows + more;
      c := c + 1;
    }
    assert ls[..c] == ls;
  }

  /** `make_hierarchical_grid(flat_data)` under guard `g`: `AsWritten` is
      the code as it runs, dropping two-part keys; `Intended` sends them to
      `"Items"` as the code inside the guard means to. */
  method MakeHierarchicalGrid(flat: Flat, show: Show, g: Guard) returns (s: Sheet)
    ensures s == HierarchicalGrid(flat, show, g)
  {
    if flat.keys == [] {
      return Sheet([], []);
    }
    var t := ScanTree(Items(flat), g);
    var sortedYears := SortedSet(t.years, true);
    var rows := BuildRows(t.tree, sortedYears, show);
    return Frame(rows);
  }

  // ---------------------------------------------------------------------
  // Where a key goes.

  /** As written, a key is placed exactly when it is an underscore-free
      category, an item, and an underscore-free year joined by
      underscores; the item keeps any underscores of its own. */
  lemma PlaceJoin(key: string, c: string, i: string, y: string)
    ensures Place(key, AsWritten) == Some((c, i, y)) <==>
            '_' !in c && '_' !in y && key == c + "_" + i + "_" + y
  {
    if Place(key, AsWritten) == Some((c, i, y)) {
      PlacedJoin(key, c, i, y);
    }
    if '_' !in c && '_' !in y && key == c + "_" + i + "_" + y {
      JoinPlaced(c, i, y);
    }
  }

  lemma PlacedJoin(key: string, c: string, i: string, y: string)
    requires Place(key, AsWritten) == Some((c, i, y))
    ensures '_' !in c && '_' !in y && key == c + "_" + i + "_" + y
  {
    var parts := Split(key, '_');
    JoinSplit(key, '_');
    JoinThree(parts, '_');
  }

  lemma JoinPlaced(c: string, i: string, y: string)
    requires '_' !in c && '_' !in y
    ensures Place(c + "_" + i + "_" + y, AsWritten) == Some((c, i, y))
  {
    var ps := Split(i, '_');
    JoinSplit(i, '_');
    var all := [c] + ps + [y];
    assert all[1..|all| - 1] == ps;
    JoinThree(all, '_');
    forall j | 0 <= j < |all| ensures '_' !in all[j] {
      if 0 < j < |all| - 1 {
        assert all[j] == ps[j - 1];
      }
    }
    SplitJoin(all, '_');
  }

  /** Three or more parts join as the first, the joined middle and the
      last. */
  lemma JoinThree(parts: seq<string>, sep: char)
    requires |parts| >= 3
    ensures Join(parts, sep) == parts[0] + [sep] + Join(parts[1..|parts| - 1], sep) + [sep] + parts[|parts| - 1]
  {
    var n := |parts|;
    var mid, last := parts[1..n - 1], parts[n - 1];
    JoinCons(parts, sep);
    assert parts[1..] == mid + [last];
    JoinSnoc(mid, last, sep);
    Regroup(parts[0] + [sep], Join(mid, sep), [sep], last);
  }

  lemma JoinCons(parts: seq<string>, sep: char)
    requires |parts| >= 2
    ensures Join(parts, sep) == parts[0] + [sep] + Join(parts[1..], sep)
  {
  }

  lemma Regroup<T>(a: seq<T>, b: seq<T>, c: seq<T>, d: seq<T>)
    ensures a + (b + c + d) == a + b + c + d
  {
  }

  /** A key of two parts: dropped as written, an item of the `"Items"`
      category as intended. */
  lemma PlaceTwoParts(m: string, y: string)
    requires '_' !in m && '_' !in y
    ensures Place(m + "_" + y, AsWritten) == None
    ensures Place(m + "_" + y, Intended) == Some(("Items", m, y))
  {
    SplitJoin([m, y], '_');
    assert Join([m, y], '_') == m + "_" + y;
  }

  /** As intended, a key is placed where the code places it, or it is an
      item and a year, both without underscores, and goes to `"Items"`. */
  lemma PlaceIntendedJoin(key: string, c: string, i: string, y: string)
    ensures Place(key, Intended) == Some((c, i, y)) <==>
            Place(key, AsWritten) == Some((c, i, y)) ||
            (c == "Items" && '_' !in i && '_' !in y && key == i + "_" + y)
  {
    var parts := Split(key, '_');
    if '_' !in i && '_' !in y && key == i + "_" + y {
      PlaceTwoParts(i, y);
    } else if |parts| == 2 {
      JoinSplit(key, '_');
      assert key == parts[0] + "_" + parts[1];
      PlaceTwoParts(parts[0], parts[1]);
    }
  }

  /** Outside `"Items"` under either guard, and everywhere as written, the
      key placed at a category, item and year is the one joining them. */
  lemma PlaceKey(key: string, g: Guard, c: string, i: string, y: string)
    requires '_' !in c && '_' !in y && (g == AsWritten || c != "Items")
    ensures Place(key, g) == Some((c, i, y)) <==> key == c + "_" + i + "_" + y
  {
    PlaceJoin(key, c, i, y);
    if g == Intended {
      PlaceIntendedJoin(key, c, i, y);
    }
  }

  /** A placed key's category and year hold no underscore. */
  lemma PlaceNoSeparator(key: string, g: Guard)
    requires Place(key, g).Some?
    ensures '_' !in Place(key, g).value.0 && '_' !in Place(key, g).value.2
  {
  }

  /** Both guards place every key of three or more parts the same way. */
  lemma PlaceGuards(key: string)
    requires |Split(key, '_')| != 2
    ensures Place(key, Intended) == Place(key, AsWritten)
  {
  }

  // ---------------------------------------------------------------------
  // What the tree holds.

  /** The distinct elements of `s`, in the order of their first
      occurrence. */
  function Firsts(s: seq<string>): (r: seq<string>)
    ensures Distinct(r)
    ensures forall x :: x in r <==> x in s
  {
    if s == [] then []
    else
      var f := Firsts(s[..|s| - 1]);
      assert forall x :: x in s <==> x in s[..|s| - 1] || x == s[|s| - 1] by {
        assert s == s[..|s| - 1] + [s[|s| - 1]];
      }
      if s[|s| - 1] in f then f else f + [s[|s| - 1]]
  }

  /** The key of `e` is placed in category `c`. */
  predicate InCategory(e: Entry, c: string) {
    e.0.Some? && e.0.value.0 == c
  }

  /** The key of `e` is placed at item `i` of category `c`. */
  predicate InItem(e: Entry, c: string, i: string) {
    InCategory(e, c) && e.0.value.1 == i
  }

  /** The key of `e` is placed with year `y`. */
  predicate InYear(e: Entry, y: string) {
    e.0.Some? && e.0.value.2 == y
  }

  /** The categories of the placed keys, one per key, in order. */
  function Categories(es: seq<Entry>): seq<string> {
    if es == [] then []
    else
      var n := |es| - 1;
      Categories(es[..n]) + match es[n].0 case Some(p) => [p.0] case None => []
  }

  /** The items of the keys placed in category `c`, one per key, in order. */
  function ItemsIn(es: seq<Entry>, c: string): seq<string> {
    if es == [] then []
    else
      var n := |es| - 1;
      ItemsIn(es[..n], c) + match es[n].0
        case Some(p) => if p.0 == c then [p.1] else []
        case None => []
  }

  /** The value of the last key placed at category `c`, item `i` and year
      `y`. */
  function LastPlaced(es: seq<Entry>, c: string, i: string, y: string): Option<Json> {
    if es == [] then None
    else
      var n := |es| - 1;
      if es[n].0 == Some((c, i, y)) then Some(es[n].1) else LastPlaced(es[..n], c, i, y)
  }

  /** The year dict of item `i` in category `c`. */
  function Leaves(tree: Dict<Dict<Dict<Json>>>, c: string, i: string): Dict<Json> {
    GetOr(GetOr(tree, c, EmptyDict()), i, EmptyDict())
  }

  /** One pass adds the category, item and year of its own key, each at
      the end where it is new. */
  lemma TreeStepKeys(t: Tree, e: Entry, c: string)
    ensures TreeStep(t, e).tree.keys ==
            match e.0
            case Some(p) => if p.0 in t.tree.keys then t.tree.keys else t.tree.keys + [p.0]
            case None => t.tree.keys
    ensures GetOr(TreeStep(t, e).tree, c, EmptyDict()).keys ==
            match e.0
            case Some(p) =>
              var ks := GetOr(t.tree, c, EmptyDict()).keys;
              if p.0 != c || p.1 in ks then ks else ks + [p.1]
            case None => GetOr(t.tree, c, EmptyDict()).keys
  {
  }

  lemma TreeStepYears(t: Tree, e: Entry, y: string)
    ensures y in TreeStep(t, e).years <==> y in t.years || InYear(e, y)
  {
  }

  lemma GetOrSet<V>(d: Dict<V>, k': string, v: V, k: string, default: V)
    ensures GetOr(Set(d, k', v), k, default) == if k' == k then v else GetOr(d, k, default)
  {
  }

  /** Setting one leaf of a tree changes no other leaf. */
  lemma SetLeaf(tree: Dict<Dict<Dict<Json>>>, c': string, i': string, y': string, v: Json, c: string, i: string, y: string)
    ensures var items := GetOr(tree, c', EmptyDict());
            Get(Leaves(Set(tree, c', Set(items, i', Set(Leaves(tree, c', i'), y', v))), c, i), y) ==
            if (c', i', y') == (c, i, y) then Some(v) else Get(Leaves(tree, c, i), y)
  {
    var items := GetOr(tree, c', EmptyDict());
    var vals := Set(Leaves(tree, c', i'), y', v);
    GetOrSet(tree, c', Set(items, i', vals), c, EmptyDict());
    GetOrSet(items, i', vals, i, EmptyDict());
  }

  /** One pass changes at most the leaf its own key names. */
  lemma TreeStepLeaf(t: Tree, e: Entry, c: string, i: string, y: string)
    ensures Get(Leaves(TreeStep(t, e).tree, c, i), y) ==
            if e.0 == Some((c, i, y)) then Some(e.1) else Get(Leaves(t.tree, c, i), y)
  {
    match e.0
    case None =>
    case Some((c', i', y')) =>
      SetLeaf(t.tree, c', i', y', e.1, c, i, y);
  }

  lemma FirstsSnoc(s: seq<string>, x: string)
    ensures Firsts(s + [x]) == if x in Firsts(s) then Firsts(s) else Firsts(s) + [x]
  {
    assert (s + [x])[..|s|] == s;
  }

  /** The categories are those of the placed keys, in the order of their
      first key. */
  lemma {:induction false} TreeCategories(es: seq<Entry>)
    ensures TreeOf(es).tree.keys == Firsts(Categories(es))
    decreases |es|
  {
    if es != [] {
      var n := |es| - 1;
      TreeCategories(es[..n]);
      TreeStepKeys(TreeOf(es[..n]), es[n], "");
      match es[n].0
      case None =>
        assert Categories(es) == Categories(es[..n]);
      case Some(p) =>
        assert Categories(es) == Categories(es[..n]) + [p.0];
        FirstsSnoc(Categories(es[..n]), p.0);
    }
  }

  /** The items of a category are those of the keys placed in it, in the
      order of their first key. */
  lemma {:induction false} TreeItems(es: seq<Entry>, c: string)
    ensures GetOr(TreeOf(es).tree, c, EmptyDict()).keys == Firsts(ItemsIn(es, c))
    decreases |es|
  {
    if es != [] {
      var n := |es| - 1;
      TreeItems(es[..n], c);
      TreeStepKeys(TreeOf(es[..n]), es[n], c);
      match es[n].0
      case None =>
        assert ItemsIn(es, c) == ItemsIn(es[..n], c);
      case Some(p) =>
        if p.0 == c {
          assert ItemsIn(es, c) == ItemsIn(es[..n], c) + [p.1];
          FirstsSnoc(ItemsIn(es[..n], c), p.1);
        } else {
          assert ItemsIn(es, c) == ItemsIn(es[..n], c);
        }
    }
  }

  /** `all_years` holds the years of the placed keys and nothing else. */
  lemma {:induction false} TreeYears(es: seq<Entry>, y: string)
    ensures y in TreeOf(es).years <==> exists k :: 0 <= k < |es| && InYear(es[k], y)
    decreases |es|
  {
    if es != [] {
      var n := |es| - 1;
      var prev := TreeOf(es[..n]);
      assert TreeOf(es).years == GrowYears(prev.years, es[n]);
      TreeYears(es[..n], y);
      TreeStepYears(prev, es[n], y);
      PrefixExists(es, n, e => InYear(e, y));
    }
  }

  /** Each leaf holds the value of the last key placed there. */
  lemma {:induction false} TreeLeaf(es: seq<Entry>, c: string, i: string, y: string)
    ensures Get(Leaves(TreeOf(es).tree, c, i), y) == LastPlaced(es, c, i, y)
    decreases |es|
  {
    if es != [] {
      var n := |es| - 1;
      TreeLeaf(es[..n], c, i, y);
      TreeStepLeaf(TreeOf(es[..n]), es[n], c, i, y);
    }
  }

  lemma EntriesPrefix(items: seq<Write>, g: Guard, n: nat)
    requires n <= |items|
    ensures Entries(items[..n], g) == Entries(items, g)[..n]
  {
  }

  /** Where the guard cannot send a two-part key to this category, the
      key placed at a leaf is the one that names it, so the leaf holds that
      key's last value. */
  lemma {:induction false} LastPlacedKey(items: seq<Write>, g: Guard, c: string, i: string, y: string)
    requires '_' !in c && '_' !in y && (g == AsWritten || c != "Items")
    ensures LastPlaced(Entries(items, g), c, i, y) == LastWrite(items, c + "_" + i + "_" + y)
    decreases |items|
  {
    if items != [] {
      var n := |items| - 1;
      var es := Entries(items, g);
      PlaceKey(items[n].0, g, c, i, y);
      EntriesPrefix(items, g, n);
      assert es[n] == (Place(items[n].0, g), items[n].1);
      LastPlacedKey(items[..n], g, c, i, y);
    }
  }

  /** Some element of `es` satisfies `p` exactly when one of all but the
      last does, or the last does. */
  lemma PrefixExists(es: seq<Entry>, n: nat, p: Entry -> bool)
    requires n + 1 == |es|
    ensures (exists k :: 0 <= k < |es| && p(es[k])) <==>
            (exists k :: 0 <= k < n && p(es[..n][k])) || p(es[n])
  {
    if exists k :: 0 <= k < |es| && p(es[k]) {
      var k :| 0 <= k < |es| && p(es[k]);
      if k < n {
        assert es[..n][k] == es[k];
      }
    }
    if exists k :: 0 <= k < n && p(es[..n][k]) {
      var k :| 0 <= k < n && p(es[..n][k]);
      assert es[..n][k] == es[k];
    }
  }

  /** The categories listed are those of the placed keys. */
  lemma {:induction false} CategoriesOf(es: seq<Entry>, c: string)
    ensures c in Categories(es) <==> exists k :: 0 <= k < |es| && InCategory(es[k], c)
    decreases |es|
  {
    if es != [] {
      var n := |es| - 1;
      CategoriesOf(es[..n], c);
      CategoriesLast(es, c);
      PrefixExists(es, n, e => InCategory(e, c));
    }
  }

  /** The items listed for a category are those of the keys placed in it. */
  lemma {:induction false} ItemsInOf(es: seq<Entry>, c: string, i: string)
    ensures i in ItemsIn(es, c) <==> exists k :: 0 <= k < |es| && InItem(es[k], c, i)
    decreases |es|
  {
    if es != [] {
      var n := |es| - 1;
      ItemsInOf(es[..n], c, i);
      ItemsInLast(es, c, i);
      PrefixExists(es, n, e => InItem(e, c, i));
    }
  }

  lemma CategoriesLast(es: seq<Entry>, c: string)
    requires es != []
    ensures var n := |es| - 1;
            c in Categories(es) <==> c in Categories(es[..n]) || InCategory(es[n], c)
  {
  }

  lemma ItemsInLast(es: seq<Entry>, c: string, i: string)
    requires es != []
    ensures var n := |es| - 1;
            i in ItemsIn(es, c) <==> i in ItemsIn(es[..n], c) || InItem(es[n], c, i)
  {
  }

  /** Keys none of which is placed list no category. */
  lemma {:induction false} CategoriesNone(es: seq<Entry>)
    requires forall k :: 0 <= k < |es| ==> es[k].0.None?
    ensures Categories(es) == []
    decreases |es|
  {
    if es != [] {
      var n := |es| - 1;
      assert forall k :: 0 <= k < n ==> es[..n][k] == es[k];
      CategoriesNone(es[..n]);
    }
  }

  // ---------------------------------------------------------------------
  // What the rows hold.

  /** With distinct year keys other than `"Metric"`, a row's columns are
      `Metric` and the years in order. */
  lemma RowKeysOf(first: string, log: seq<(string, string)>)
    requires Distinct(KeysOf(log)) && "Metric" !in KeysOf(log)
    ensures Replay(Set(EmptyDict(), "Metric", first), log).keys == ["Metric"] + KeysOf(log)
  {
    var full := [("Metric", first)] + log;
    ReplayAppend(EmptyDict(), [("Metric", first)], log);
    assert Replay(EmptyDict(), [("Metric", first)]) == Set(EmptyDict(), "Metric", first);
    KeysOfCons(("Metric", first), log);
    DistinctCons("Metric", KeysOf(log));
    ReplayDistinctKeys(full);
  }

  lemma KeysOfCons<V>(p: (string, V), log: seq<(string, V)>)
    ensures KeysOf([p] + log) == [p.0] + KeysOf(log)
  {
    assert forall j :: 0 < j < |log| + 1 ==> ([p] + log)[j] == log[j - 1];
  }

  lemma DistinctCons(x: string, ks: seq<string>)
    requires Distinct(ks) && x !in ks
    ensures Distinct([x] + ks)
  {
    var all := [x] + ks;
    forall a, b | 0 <= a < b < |all| ensures all[a] != all[b] {
      assert all[b] == ks[b - 1];
      if a > 0 {
        assert all[a] == ks[a - 1];
      }
    }
  }

  /** A category's header row: `Metric` holds the upper-cased category and
      every year cell is blank. */
  lemma HeaderCells(cat: string, years: seq<string>)
    requires Distinct(years) && "Metric" !in years
    ensures HeaderRow(cat, years).keys == ["Metric"] + years
    ensures Get(HeaderRow(cat, years), "Metric") == Some(Upper(cat))
    ensures forall y :: y in years ==> Get(HeaderRow(cat, years), y) == Some("")
  {
    var log := BlankLog(years);
    assert KeysOf(log) == years;
    RowKeysOf(Upper(cat), log);
    ReplayGet(Set(EmptyDict(), "Metric", Upper(cat)), log, "Metric");
    forall y | y in years ensures Get(HeaderRow(cat, years), y) == Some("") {
      HeaderCellAt(cat, years, y);
    }
  }

  lemma HeaderCellAt(cat: string, years: seq<string>, y: string)
    requires y in years
    ensures Get(HeaderRow(cat, years), y) == Some("")
  {
    ReplayGet(Set(EmptyDict(), "Metric", Upper(cat)), BlankLog(years), y);
    BlankLogLast(years, y);
  }

  lemma BlankLogLast(years: seq<string>, y: string)
    requires y in years
    ensures LastWrite(BlankLog(years), y) == Some("")
  {
    var log := BlankLog(years);
    var j :| 0 <= j < |years| && years[j] == y;
    assert |log| == |years| && forall i :: 0 <= i < |log| ==> log[i] == (years[i], "");
    LastWriteSame(log, y, "", j);
  }

  /** Where every write to `k` carries `v` and there is one, the last
      write to `k` is `v`. */
  lemma LastWriteSame<V>(log: seq<(string, V)>, k: string, v: V, j: nat)
    requires j < |log| && log[j].0 == k
    requires forall i :: 0 <= i < |log| && log[i].0 == k ==> log[i].1 == v
    ensures LastWrite(log, k) == Some(v)
  {
  }

  /** An item's row: `Metric` holds its name and each year cell the str of
      its value for that year, or `"0"`. */
  lemma ItemCells(name: string, vals: Dict<Json>, years: seq<string>, show: Show)
    requires Distinct(years) && "Metric" !in years
    ensures ItemRow(name, vals, years, show).keys == ["Metric"] + years
    ensures Get(ItemRow(name, vals, years, show), "Metric") == Some(name)
    ensures forall y :: y in years ==> Get(ItemRow(name, vals, years, show), y) == Some(YearCell(vals, y, show))
  {
    ItemRowKeys(name, vals, years, show);
    forall y | y in years ensures Get(ItemRow(name, vals, years, show), y) == Some(YearCell(vals, y, show)) {
      ItemCellAt(name, vals, years, show, y);
    }
  }

  lemma ItemRowKeys(name: string, vals: Dict<Json>, years: seq<string>, show: Show)
    requires Distinct(years) && "Metric" !in years
    ensures ItemRow(name, vals, years, show).keys == ["Metric"] + years
    ensures Get(ItemRow(name, vals, years, show), "Metric") == Some(name)
  {
    var log := CellLog(vals, years, show);
    assert KeysOf(log) == years;
    RowKeysOf(name, log);
    ReplayGet(Set(EmptyDict(), "Metric", name), log, "Metric");
  }

  lemma ItemCellAt(name: string, vals: Dict<Json>, years: seq<string>, show: Show, y: string)
    requires y in years
    ensures Get(ItemRow(name, vals, years, show), y) == Some(YearCell(vals, y, show))
  {
    ReplayGet(Set(EmptyDict(), "Metric", name), CellLog(vals, years, show), y);
    CellLogLast(vals, years, show, y);
  }

  lemma CellLogLast(vals: Dict<Json>, years: seq<string>, show: Show, y: string)
    requires y in years
    ensures LastWrite(CellLog(vals, years, show), y) == Some(YearCell(vals, y, show))
  {
    var log := CellLog(vals, years, show);
    var j :| 0 <= j < |years| && years[j] == y;
    CellLogValues(vals, years, show, y);
    LastWriteSame(log, y, YearCell(vals, y, show), j);
  }

  /** Every write of an item's row to year `y` carries that year's cell. */
  lemma CellLogValues(vals: Dict<Json>, years: seq<string>, show: Show, y: string)
    ensures var log := CellLog(vals, years, show);
            |log| == |years| &&
            forall i :: 0 <= i < |log| ==> log[i].0 == years[i] && (log[i].0 == y ==> log[i].1 == YearCell(vals, y, show))
  {
  }

  /** Every row of a category is its header, when it has one, or the row
      of one of its items. */
  lemma CategoryRowOrigin(c: string, items: Dict<Dict<Json>>, years: seq<string>, show: Show, row: Row)
    requires row in CategoryRows(c, items, years, show)
    ensures (c != "Items" && row == HeaderRow(c, years)) ||
            exists i :: i in items.keys && row == ItemRowOf(c, items, i, years, show)
  {
    if !(c != "Items" && row == HeaderRow(c, years)) {
      var irs := ItemRows(c, items, years, show);
      assert row in irs;
      var j :| 0 <= j < |irs| && irs[j] == row;
      assert items.keys[j] in items.keys;
    }
  }

  /** Every row is the header of a category that is not `"Items"` or the
      row of one of a category's items. */
  lemma RowOrigin(tree: Dict<Dict<Dict<Json>>>, years: seq<string>, show: Show, row: Row)
    requires row in TreeRows(tree, years, show)
    ensures exists c :: c in tree.keys &&
              ((c != "Items" && row == HeaderRow(c, years)) ||
               exists i :: i in GetOr(tree, c, EmptyDict()).keys && row == ItemRowOf(c, GetOr(tree, c, EmptyDict()), i, years, show))
  {
    var ls := CategoryRowLogs(tree, years, show);
    ConcatFrom(ls, row);
    var k :| 0 <= k < |ls| && row in ls[k];
    CategoryAt(tree, years, show, k);
    var c := tree.keys[k];
    CategoryRowOrigin(c, GetOr(tree, c, EmptyDict()), years, show, row);
  }

  /** Each category that is not `"Items"` has its header among the rows,
      and each of its items its row. */
  lemma RowPresence(tree: Dict<Dict<Dict<Json>>>, years: seq<string>, show: Show, c: string, i: string)
    requires c in tree.keys
    ensures c != "Items" ==> HeaderRow(c, years) in TreeRows(tree, years, show)
    ensures i in GetOr(tree, c, EmptyDict()).keys ==>
            ItemRowOf(c, GetOr(tree, c, EmptyDict()), i, years, show) in TreeRows(tree, years, show)
  {
    var k :| 0 <= k < |tree.keys| && tree.keys[k] == c;
    var items := GetOr(tree, c, EmptyDict());
    CategoryAt(tree, years, show, k);
    var rows := CategoryRows(c, items, years, show);
    if c != "Items" {
      assert rows[0] == HeaderRow(c, years);
      ConcatHas(CategoryRowLogs(tree, years, show), k, HeaderRow(c, years));
    }
    if i in items.keys {
      ItemRowIn(c, items, years, show, i);
      ConcatHas(CategoryRowLogs(tree, years, show), k, ItemRowOf(c, items, i, years, show));
    }
  }

  lemma CategoryAt(tree: Dict<Dict<Dict<Json>>>, years: seq<string>, show: Show, k: nat)
    requires k < |tree.keys|
    ensures var c := tree.keys[k];
            && |CategoryRowLogs(tree, years, show)| == |tree.keys|
            && CategoryRowLogs(tree, years, show)[k] == CategoryRows(c, GetOr(tree, c, EmptyDict()), years, show)
  {
    var c := tree.keys[k];
    assert c in tree.keys;
    assert GetOr(tree, c, EmptyDict()) == tree.values[c];
  }

  /** Each item of a category has its row among the category's rows. */
  lemma ItemRowIn(c: string, items: Dict<Dict<Json>>, years: seq<string>, show: Show, i: string)
    requires i in items.keys
    ensures ItemRowOf(c, items, i, years, show) in CategoryRows(c, items, years, show)
  {
    var j :| 0 <= j < |items.keys| && items.keys[j] == i;
    var irs := ItemRows(c, items, years, show);
    assert irs[j] == ItemRowOf(c, items, i, years, show);
    var head: seq<Row> := if c != "Items" then [HeaderRow(c, years)] else [];
    assert CategoryRows(c, items, years, show) == head + irs;
    InSuffix(head, irs, j);
  }

  lemma InSuffix<T>(a: seq<T>, b: seq<T>, j: nat)
    requires j < |b|
    ensures b[j] in a + b
  {
    assert (a + b)[|a| + j] == b[j];
  }

  /** With distinct years other than `"Metric"`, every row has the
      columns `Metric` and the years. */
  lemma RowKeys(tree: Dict<Dict<Dict<Json>>>, years: seq<string>, show: Show, row: Row)
    requires Distinct(years) && "Metric" !in years
    requires row in TreeRows(tree, years, show)
    ensures row.keys == ["Metric"] + years
  {
    RowOrigin(tree, years, show, row);
    var c :| c in tree.keys &&
              ((c != "Items" && row == HeaderRow(c, years)) ||
               exists i :: i in GetOr(tree, c, EmptyDict()).keys && row == ItemRowOf(c, GetOr(tree, c, EmptyDict()), i, years, show));
    if c != "Items" && row == HeaderRow(c, years) {
      HeaderCells(c, years);
    } else {
      var items := GetOr(tree, c, EmptyDict());
      var i :| i in items.keys && row == ItemRowOf(c, items, i, years, show);
      ItemCells(DisplayName(c, i), GetOr(items, i, EmptyDict()), years, show);
    }
  }

  /** Rows that share their keys make a frame with those columns and no
      cell left empty. */
  lemma FrameCells(rows: seq<Row>, cols: seq<string>)
    requires rows != [] && forall r :: r in rows ==> r.keys == cols
    ensures Frame(rows).columns == cols && |Frame(rows).cells| == |rows|
    ensures forall r, j :: 0 <= r < |rows| && 0 <= j < |cols| ==>
              |Frame(rows).cells[r]| == |cols| && Frame(rows).cells[r][j] == Get(rows[r], cols[j]).value
  {
    assert rows[0] in rows;
    forall r, j | 0 <= r < |rows| && 0 <= j < |cols|
      ensures |Frame(rows).cells[r]| == |cols| && Frame(rows).cells[r][j] == Get(rows[r], cols[j]).value
    {
      assert rows[r] in rows;
    }
  }

  // ---------------------------------------------------------------------
  // What the table holds.

  /** The table is empty exactly when no key of the dict is placed. */
  lemma HierarchyEmpty(flat: Flat, show: Show, g: Guard)
    ensures HierarchicalGrid(flat, show, g) == Sheet([], []) <==> forall k :: k in flat.keys ==> Place(k, g).None?
  {
    if exists k :: k in flat.keys && Place(k, g).Some? {
      var k :| k in flat.keys && Place(k, g).Some?;
      PlacedRows(flat, show, g, k);
    } else {
      UnplacedRows(flat, show, g);
    }
  }

  /** A placed key gives at least one row. */
  lemma PlacedRows(flat: Flat, show: Show, g: Guard, key: string)
    requires key in flat.keys && Place(key, g).Some?
    ensures RowsFor(flat, show, g) != []
  {
    var es := Entries(Items(flat), g);
    var t := TreeFor(flat, g);
    var n :| 0 <= n < |flat.keys| && flat.keys[n] == key;
    assert es[n].0 == Place(key, g);
    var (c, i, _) := Place(key, g).value;
    assert InItem(es[n], c, i);
    CategoriesOf(es, c);
    ItemsInOf(es, c, i);
    TreeCategories(es);
    TreeItems(es, c);
    RowPresence(t.tree, YearsFor(flat, g), show, c, i);
  }

  /** A dict no key of which is placed gives no row. */
  lemma UnplacedRows(flat: Flat, show: Show, g: Guard)
    requires forall k :: k in flat.keys ==> Place(k, g).None?
    ensures RowsFor(flat, show, g) == []
  {
    var items := Items(flat);
    var es := Entries(items, g);
    var t := TreeFor(flat, g);
    forall k | 0 <= k < |es| ensures es[k].0.None? {
      assert items[k].0 in flat.keys;
    }
    CategoriesNone(es);
    TreeCategories(es);
    assert CategoryRowLogs(t.tree, YearsFor(flat, g), show) == [];
  }

  /** Once some key is placed and no year reads `"Metric"`, the columns are
      `Metric` and then the years of the placed keys, newest first, and
      every row has exactly those keys, so no cell is left to fill. */
  lemma HierarchyColumns(flat: Flat, show: Show, g: Guard, y: string)
    requires exists k :: k in flat.keys && Place(k, g).Some?
    requires forall k :: k in flat.keys && Place(k, g).Some? ==> Place(k, g).value.2 != "Metric"
    ensures var s, rows := HierarchicalGrid(flat, show, g), RowsFor(flat, show, g);
            && s.columns == ["Metric"] + YearsFor(flat, g)
            && s == Frame(rows) && rows != []
            && forall r :: r in rows ==> r.keys == s.columns
    ensures Sorted(YearsFor(flat, g), true)
    ensures y in YearsFor(flat, g) <==> exists k :: k in flat.keys && Place(k, g).Some? && Place(k, g).value.2 == y
  {
    var items := Items(flat);
    var ys := YearsFor(flat, g);
    HierarchyEmpty(flat, show, g);
    YearsOfFlat(flat, g, y);
    YearsOfFlat(flat, g, "Metric");
    forall a, b | 0 <= a < b < |ys| ensures ys[a] != ys[b] {
      SortedDistinct(ys, true, a, b);
    }
    var rows := RowsFor(flat, show, g);
    forall row | row in rows ensures row.keys == ["Metric"] + ys {
      RowKeys(TreeFor(flat, g).tree, ys, show, row);
    }
    assert rows[0] in rows;
  }

  /** A year is among the sorted years exactly when a key of the dict is
      placed with it. */
  lemma YearsOfFlat(flat: Flat, g: Guard, y: string)
    ensures y in YearsFor(flat, g) <==> exists k :: k in flat.keys && Place(k, g).Some? && Place(k, g).value.2 == y
  {
    TreeYears(Entries(Items(flat), g), y);
    YearOfEntries(flat, g, y);
  }

  lemma YearOfEntries(flat: Flat, g: Guard, y: string)
    ensures (exists k :: k in flat.keys && Place(k, g).Some? && Place(k, g).value.2 == y) <==>
            exists n :: 0 <= n < |Entries(Items(flat), g)| && InYear(Entries(Items(flat), g)[n], y)
  {
    var es := Entries(Items(flat), g);
    if exists k :: k in flat.keys && Place(k, g).Some? && Place(k, g).value.2 == y {
      var k :| k in flat.keys && Place(k, g).Some? && Place(k, g).value.2 == y;
      var n :| 0 <= n < |flat.keys| && flat.keys[n] == k;
      EntryKey(flat, g, n);
      assert InYear(es[n], y);
    }
    if exists n :: 0 <= n < |es| && InYear(es[n], y) {
      var n :| 0 <= n < |es| && InYear(es[n], y);
      EntryKey(flat, g, n);
      assert flat.keys[n] in flat.keys;
    }
  }

  /** The pass for the `n`-th key of the dict places that key. */
  lemma EntryKey(flat: Flat, g: Guard, n: nat)
    requires n < |flat.keys|
    ensures |Entries(Items(flat), g)| == |flat.keys|
    ensures Entries(Items(flat), g)[n].0 == Place(flat.keys[n], g)
  {
  }

  /** A sorted sequence repeats nothing. */
  lemma SortedYears(flat: Flat, g: Guard)
    ensures Distinct(YearsFor(flat, g))
  {
    var ys := YearsFor(flat, g);
    forall a, b | 0 <= a < b < |ys| ensures ys[a] != ys[b] {
      SortedDistinct(ys, true, a, b);
    }
  }

  /** A category of the tree is that of some key of the dict. */
  lemma CategoryOfFlat(flat: Flat, g: Guard, c: string)
    requires c in TreeFor(flat, g).tree.keys
    ensures exists k :: k in flat.keys && Place(k, g).Some? && Place(k, g).value.0 == c
  {
    var es := Entries(Items(flat), g);
    TreeCategories(es);
    CategoriesOf(es, c);
    var n :| 0 <= n < |es| && InCategory(es[n], c);
    EntryKey(flat, g, n);
    assert flat.keys[n] in flat.keys;
  }

  /** Each category other than `"Items"` has its header among the rows:
      `Metric` holds the upper-cased category and every year cell is
      blank. */
  lemma HeaderRowCells(flat: Flat, show: Show, g: Guard, c: string, y: string)
    requires c in TreeFor(flat, g).tree.keys && c != "Items"
    requires y in YearsFor(flat, g) && "Metric" !in YearsFor(flat, g)
    ensures var row := HeaderRow(c, YearsFor(flat, g));
            && row in RowsFor(flat, show, g)
            && Get(row, "Metric") == Some(Upper(c))
            && Get(row, y) == Some("")
  {
    RowPresence(TreeFor(flat, g).tree, YearsFor(flat, g), show, c, "");
    SortedYears(flat, g);
    HeaderCells(c, YearsFor(flat, g));
  }

  /** Each item of each category has its row among the rows: `Metric`
      holds the item, indented unless the category is `"Items"`, and the
      cell of each year the str of the dict's value under
      `category_item_year`, or `"0"` where the dict has no such key. Under
      the intended guard this holds outside `"Items"`, whose items can also
      come from two-part keys. */
  lemma ItemRowCells(flat: Flat, show: Show, g: Guard, c: string, i: string, y: string)
    requires g == AsWritten || c != "Items"
    requires c in TreeFor(flat, g).tree.keys && i in GetOr(TreeFor(flat, g).tree, c, EmptyDict()).keys
    requires y in YearsFor(flat, g) && "Metric" !in YearsFor(flat, g)
    ensures var row := ItemRowOf(c, GetOr(TreeFor(flat, g).tree, c, EmptyDict()), i, YearsFor(flat, g), show);
            && row in RowsFor(flat, show, g)
            && Get(row, "Metric") == Some(DisplayName(c, i))
            && Get(row, y) == Some(match Get(flat, c + "_" + i + "_" + y)
                                   case Some(v) => Str(v, show)
                                   case None => "0")
  {
    var t, ys := TreeFor(flat, g), YearsFor(flat, g);
    RowPresence(t.tree, ys, show, c, i);
    SortedYears(flat, g);
    ItemCells(DisplayName(c, i), Leaves(t.tree, c, i), ys, show);
    LeafOfFlat(flat, g, c, i, y);
  }

  /** The leaf at a category, item and year of the tree holds the dict's
      value under the key joining them. */
  lemma LeafOfFlat(flat: Flat, g: Guard, c: string, i: string, y: string)
    requires g == AsWritten || c != "Items"
    requires c in TreeFor(flat, g).tree.keys && y in YearsFor(flat, g)
    ensures Get(Leaves(TreeFor(flat, g).tree, c, i), y) == Get(flat, c + "_" + i + "_" + y)
  {
    NamesOfFlat(flat, g, c, y);
    TreeLeaf(Entries(Items(flat), g), c, i, y);
    LastPlacedKey(Items(flat), g, c, i, y);
    ItemsLastWrite(flat, c + "_" + i + "_" + y);
  }

  /** The categories and the years of the tree hold no underscore. */
  lemma NamesOfFlat(flat: Flat, g: Guard, c: string, y: string)
    requires c in TreeFor(flat, g).tree.keys && y in YearsFor(flat, g)
    ensures '_' !in c && '_' !in y
  {
    CategoryOfFlat(flat, g, c);
    var kc :| kc in flat.keys && Place(kc, g).Some? && Place(kc, g).value.0 == c;
    PlaceNoSeparator(kc, g);
    YearsOfFlat(flat, g, y);
    var ky :| ky in flat.keys && Place(ky, g).Some? && Place(ky, g).value.2 == y;
    PlaceNoSeparator(ky, g);
  }

  // ---------------------------------------------------------------------
  // The two-part key.

  /** As written, a dict whose one key is `"Cash_2023"` gives the empty
      table: the key has two parts and the guard wants three. */
  lemma TwoPartKeyDropped(v: Json, show: Show)
    ensures HierarchicalGrid(Set(EmptyDict(), "Cash_2023", v), show, AsWritten) == Sheet([], [])
  {
    var flat := Set(EmptyDict(), "Cash_2023", v);
    assert "Cash" + "_" + "2023" == "Cash_2023";
    PlaceTwoParts("Cash", "2023");
    HierarchyEmpty(flat, show, AsWritten);
  }

  /** As intended, the same dict gives one row, `Cash` in the `"Items"`
      category with no header and no indent, and its value under `2023`. */
  lemma TwoPartKeyKept(v: Json, show: Show)
    ensures HierarchicalGrid(Set(EmptyDict(), "Cash_2023", v), show, Intended) ==
            Sheet(["Metric", "2023"], [["Cash", Str(v, show)]])
  {
    var row := ItemRow("Cash", Set(EmptyDict(), "2023", v), ["2023"], show);
    KeptRows(v, show);
    KeptRow(v, show);
    FrameOfTwo(row, "Metric", "2023", "Cash", Str(v, show));
  }

  lemma KeptRows(v: Json, show: Show)
    ensures RowsFor(Set(EmptyDict(), "Cash_2023", v), show, Intended) ==
            [ItemRow("Cash", Set(EmptyDict(), "2023", v), ["2023"], show)]
  {
    var tree := Set(EmptyDict(), "Items", Set(EmptyDict(), "Cash", Set(EmptyDict(), "2023", v)));
    KeptTree(v);
    SortedOne("2023");
    OneItemRows(tree, ["2023"], show);
  }

  lemma KeptTree(v: Json)
    ensures TreeFor(Set(EmptyDict(), "Cash_2023", v), Intended) ==
            Tree(Set(EmptyDict(), "Items", Set(EmptyDict(), "Cash", Set(EmptyDict(), "2023", v))), ["2023"])
  {
    var w: Write := ("Cash_2023", v);
    assert Items(Set(EmptyDict(), "Cash_2023", v)) == [w];
    KeptEntries(v);
    OneKeyTree(v);
  }

  lemma KeptEntries(v: Json)
    ensures Entries([("Cash_2023", v)], Intended) == [(Some(("Items", "Cash", "2023")), v)]
  {
    assert "Cash" + "_" + "2023" == "Cash_2023";
    PlaceTwoParts("Cash", "2023");
  }

  lemma KeptRow(v: Json, show: Show)
    ensures var row := ItemRow("Cash", Set(EmptyDict(), "2023", v), ["2023"], show);
            row.keys == ["Metric", "2023"] && Get(row, "Metric") == Some("Cash") && Get(row, "2023") == Some(Str(v, show))
  {
    var vals := Set(EmptyDict(), "2023", v);
    ItemRowKeys("Cash", vals, ["2023"], show);
    ItemCellAt("Cash", vals, ["2023"], show, "2023");
    assert YearCell(vals, "2023", show) == Str(v, show);
  }

  lemma FrameOfTwo(row: Row, a: string, b: string, x: string, y: string)
    requires row.keys == [a, b] && Get(row, a) == Some(x) && Get(row, b) == Some(y)
    ensures Frame([row]) == Sheet([a, b], [[x, y]])
  {
    var cells := Frame([row]).cells;
    assert |cells| == 1;
    var c0 := cells[0];
    assert |c0| == 2 && c0[0] == x && c0[1] == y;
    assert c0 == [x, y];
  }

  lemma OneKeyTree(v: Json)
    ensures TreeOf([(Some(("Items", "Cash", "2023")), v)]) ==
            Tree(Set(EmptyDict(), "Items", Set(EmptyDict(), "Cash", Set(EmptyDict(), "2023", v))), ["2023"])
  {
    var e: Entry := (Some(("Items", "Cash", "2023")), v);
    assert [e][..0] == [];
    var empty: Dict<Dict<Dict<Json>>> := EmptyDict();
    assert TreeOf([e]) == TreeStep(Tree(empty, []), e);
    assert GetOr(empty, "Items", EmptyDict()) == EmptyDict();
    assert Leaves(empty, "Items", "Cash") == EmptyDict();
  }

  lemma SortedOne(x: string)
    ensures SortedSet([x], true) == [x]
  {
    assert [x][..0] == [];
  }

  lemma OneItemRows(tree: Dict<Dict<Dict<Json>>>, ys: seq<string>, show: Show)
    requires tree.keys == ["Items"] && tree.values["Items"].keys == ["Cash"]
    ensures TreeRows(tree, ys, show) ==
            [ItemRow("Cash", GetOr(tree.values["Items"], "Cash", EmptyDict()), ys, show)]
  {
    var items := GetOr(tree, "Items", EmptyDict());
    assert items == tree.values["Items"];
    CategoryAt(tree, ys, show, 0);
    OneItemRow(items, ys, show);
    ConcatOne(CategoryRowLogs(tree, ys, show));
  }

  lemma OneItemRow(items: Dict<Dict<Json>>, ys: seq<string>, show: Show)
    requires items.keys == ["Cash"]
    ensures CategoryRows("Items", items, ys, show) == [ItemRow("Cash", GetOr(items, "Cash", EmptyDict()), ys, show)]
  {
    assert ItemRows("Items", items, ys, show) == [ItemRowOf("Items", items, "Cash", ys, show)];
    assert DisplayName("Items", "Cash") == "Cash";
  }

  lemma ConcatOne<T>(ls: seq<seq<T>>)
    requires |ls| == 1
    ensures Concat(ls) == ls[0]
  {
    assert ls[..0] == [];
  }
}
