# PyStock-Fundamental-Analyzer: the data-normalisation layer in Dafny

PyStock-Fundamental-Analyzer fetches seven JSON documents per stock:
financial ratios, the share-price snapshot, growth charts, industry averages,
stock-price history, the income statement and the balance sheet. It turns
each one into a flat, insertion-ordered dict. The Streamlit page reshapes
those dicts into tables. This project models that normalisation layer, the
part between the HTTP calls and the rendering, in both files that define it:
`Final_app.py` (the application) and `stock_engine.py` (the engine). It
proves what each step promises.

The normalisation layer has these parts:

- **Value coercion** (`Coerce`). `clean_number` turns `None` and `""` into
  0.0. It strips `,` and `%` from other strings before `float()`, and gives
  0.0 where `float()` fails. `float()` is modelled as a parser of Python's
  decimal literal grammar on exact reals, and `round(x, 2)` as rounding to
  the nearest hundredth with ties to even.
- **Python values and dicts** (`PyValue`, `OrderedDict`, `Text`,
  `Ordering`).
  - `Json` is what `json.loads` produces.
  - `Dict` keeps its keys in insertion order beside the mapping. Assigning
    to a new key appends it; assigning to an existing key keeps its place.
  - `Text` holds the `str` operations the code uses: `strip`, `split`,
    `join`, `replace`, `upper`, `in`.
  - `Ordering` holds the code-point order `sorted()` and `sort_index` use.
- **Parsers** (`Flatten`, `Financials`, `Market`, `Growth`, `Industry`,
  `Statements`).
  - Each `parse_api_*` is specified by two things: its write log (the
    assignments it makes, in order) and the condition under which an
    exception escapes it (`Outcome.Raised`).
  - Its result is the log replayed into an empty dict, so updating an
    existing key keeps its position and the last write wins.
  - Each parser is also written as a method with the code's own nested
    loops, proved equal to that specification.
- **Debt to equity** (`Foundation`). This is the one computation
  `get_stock_foundation` makes itself. It comes in the application's form
  and the engine's form, which are proved equal.
- **Grids** (`Grid`, `Hierarchy`).
  - `transform_to_grid` pivots `"<metric>_<year>"` keys into a table.
  - `make_hierarchical_grid` splits `"<category>_<item>_<year>"` keys into
    header and item rows.
  - Both are methods with the code's loops and mutated dicts, proved equal
    to functions about which the table's rows, columns, order and cells
    are proved.

Some things are parameters rather than fixed:

- `str()` of a float or a container is a caller-supplied
  `show: Json -> string`.
- The financial vocabulary (`Financials.AppTargets`, the engine's
  literal), the industry match maps (`Industry.AppNames`,
  `Industry.EngineNames`) and the guard of the hierarchical grid
  (`Hierarchy.Guard`) are passed in.

Where the application and the engine differ, both versions are modelled and
compared:

- the financial vocabulary, with its repeated `"PER"`;
- the industry names;
- the balance sheet, an annual/quarter pair in one file and one dict in
  the other;
- the debt-to-equity rounding.

## Model

| member | source | states |
|---|---|---|
| Coerce.CleanNumber | Final_app.py:9-15 | `None` and `""` give 0.0; ints and floats give their own value; every other str gives what `float()` parses from it once `,` and `%` are removed, or 0.0 when that fails, never an exception; only a list or a dict raises (same at stock_engine.py:7-19); `Coerce.CleanGroupedPercent` and `Coerce.CleanNonNumeric` work two cases through |
| Coerce.CleanGroupedPercent | Final_app.py:9-15 | `clean_number("1,234.5%")` is 1234.5: the comma and the percent sign are dropped and the point is read |
| Coerce.CleanNonNumeric | Final_app.py:9-15 | `clean_number("abc")` is 0.0: the `ValueError` of `float()` is caught and read as zero |
| Coerce.CleanedGrouped | Final_app.py:12 | a digit run, a comma, a digit run, a point, a digit run and `%` lose the comma and the `%` and keep the rest in order |
| Coerce.PointTextClean | Final_app.py:12 | digits around a point hold nothing for the two `replace` calls to remove |
| Coerce.Cleaned | Final_app.py:12 | the text handed to `float()` has no `,` and no `%`, and keeps every other character of the input |
| Coerce.SeparatorIgnored | Final_app.py:12-14 | a `,` or `%` anywhere in a string does not change the number `clean_number` reads from it |
| Coerce.IntTextRoundTrip | Final_app.py:12-14 | `clean_number` of the decimal text of any int is that int |
| Coerce.ParseFloat | Final_app.py:13 | `float(clean_value)` on a str: surrounding whitespace is dropped, then an optionally signed decimal literal (digits, point, exponent) is read as an exact real, and `None` stands for the `ValueError` `clean_number` catches; `Coerce.ParseIntText`, `Coerce.ParseDigitRun`, `Coerce.ParseDecimal`, `Coerce.WordRejected` and `Coerce.SeparatorIgnored` state what it reads |
| Coerce.ParseDecimal | Final_app.py:13 | for every digit run `a` (possibly empty) and non-empty digit run `d`, `float(a + "." + d)` is the value of `a` plus the value of `d` divided by ten to the power of the length of `d` (written out in `Coerce.Decimal`) |
| Coerce.MantissaPoint | Final_app.py:13 | the mantissa `a.d` of two digit runs reads as `a` plus `d` scaled down by the length of `d` |
| Coerce.MantissaDigits | Final_app.py:13 | a mantissa whose first point sits between two digit runs reads as the whole part plus the scaled fraction |
| Coerce.DecimalText | Final_app.py:13 | `float("1234.5")` is 1234.5 |
| Coerce.WordRejected | Final_app.py:13-14 | `float("abc")` raises `ValueError` (the model gives `None`) |
| Coerce.ParseIntText | Final_app.py:13 | `float()` of the decimal text of any int is that int, sign included |
| Coerce.DigitsValueOfNat | Final_app.py:13 | reading back the digits `str()` writes for a natural number gives that number |
| Coerce.ParseDigitRun | Final_app.py:13 | a run of ASCII digits parses as its decimal value |
| Coerce.Round2 | Final_app.py:190 | `round(x, 2)` is a whole number of hundredths within 0.005 of `x`; `Coerce.Round2Tie` states the tie case |
| Coerce.Round2Tie | Final_app.py:190 | a value exactly halfway between two hundredths rounds to the one with an even last digit, as Python's `round` does (`Round2(0.125) == 0.12`) |
| Coerce.Round2Exact | stock_engine.py:325 | a value that is already a whole number of hundredths is unchanged by rounding |
| Coerce.Round2Monotone | stock_engine.py:325 | rounding preserves order |
| OrderedDict.LastWrite | Final_app.py:34 | `obj[key]` on a decoded object, like a key of a dict after a run of assignments, is the last value assigned to the key: absent exactly when no pair assigns it, and otherwise a value some pair assigns to it |
| OrderedDict.GetOr | Final_app.py:27 | `d.get(k, default)`: the value `k` holds, or `default` when it is absent; `Foundation.MissingCountsZero` and `Market.MissingFieldZero` use the default branch |
| OrderedDict.Set | Final_app.py:32 | `d[k] = v`: an existing key keeps its position and a new key is appended; `k` then holds `v` and every other key holds what it held before |
| OrderedDict.Items | Final_app.py:211 | `list(d.items())`: one pair per key, in key order, each pairing the key with the value it holds |
| OrderedDict.Replay | Final_app.py:26-36 | a run of assignments `d[k] = v` made in turn, which is how every parser fills its dict; `OrderedDict.ReplayGet` and `OrderedDict.ReplayKeys` state what it leaves |
| OrderedDict.ReplayGet | Final_app.py:32 | last write wins: after a run of assignments a key holds the value of the last one that assigned it, and what it held before when none did |
| OrderedDict.ReplayKeys | Final_app.py:32 | after a run of assignments the keys present before keep their places and each new key follows in order of its first assignment |
| PyValue.Lookup | Final_app.py:34 | `obj[key]` on a decoded object: the value of the last pair with that key, as `json.loads` keeps; its contract is `OrderedDict.LastWrite`'s |
| PyValue.ObjGet | Final_app.py:27 | `obj.get(key, default)` on a decoded object: the last value given to `key`, or `default` when no pair has it; `Market.MissingFieldZero` and `Statements.IncomeMissing` state the default branch |
| PyValue.Str | Final_app.py:32 | `str(v)` as an f-string renders it: `None`, `True`, `False`, the decimal text of an int, a str itself, and `show` for floats and containers; `Grid.GridCells` and `Hierarchy.ItemCellAt` state cells through it |
| PyValue.ObjectKeys | Final_app.py:26 | iterating a dict yields exactly the keys its fields carry |
| PyValue.Iterate | Final_app.py:26 | `for x in v` raises exactly on None, bools and numbers, runs over a list's items, and yields strs for a str or a dict |
| PyValue.Contains | Final_app.py:29 | `kw in label` raises exactly on None, bools and numbers, and is the substring test on a str |
| Text.IsSpace | Final_app.py:129 | the characters Python's `str.isspace()` accepts, which `strip()` cuts and `float()` skips; `Text.StripEnds` and `Text.StripCut` state `strip()` in its terms |
| Text.IsSubstring | Final_app.py:29 | `needle in hay` on two strs: `needle` occurs at some position of `hay`; `PyValue.Contains` states the `in` test through it |
| Text.Remove | Final_app.py:12 | `s.replace(c, "")` keeps every character but `c`, and no more |
| Text.RemoveAppend | Final_app.py:12 | removing a character distributes over concatenation |
| Text.RemoveAbsent | Final_app.py:12 | removing a character that does not occur changes nothing |
| Text.Strip | Final_app.py:129 | `label.strip()`: the longest run of leading Python whitespace and then of trailing whitespace is cut and the middle kept in order; `Text.StripEnds`, `Text.StripCut` and `Text.StripNoSpace` state what it keeps and what it cuts (same at stock_engine.py:228) |
| Text.StripEnds | Final_app.py:129 | what `strip()` keeps starts and ends with a non-space character |
| Text.StripCut | Final_app.py:129 | everything `strip()` cuts off is whitespace |
| Text.StripNoSpace | Final_app.py:129 | a string without whitespace is its own `strip()` |
| Text.Upper | Final_app.py:256 | `category.upper()` keeps the length and raises each of `a`-`z` to its capital, leaving every other character as it is; Left out says where this differs from Python |
| Text.LastIndexOf | Final_app.py:212 | the position of the last occurrence, absent exactly when the character does not occur |
| Text.Split | Final_app.py:236 | `split` gives at least one part and no part holds the separator |
| Text.Join | Final_app.py:245 | `"_".join(parts)`: the parts in order with one separator between neighbours; `Text.JoinSplit`, `Text.SplitJoin` and `Text.JoinSnoc` state it |
| Text.JoinSplit | Final_app.py:236 | joining what `split` produced gives the string back |
| Text.SplitJoin | Final_app.py:245 | splitting a join of separator-free parts gives the parts back |
| Text.JoinSnoc | Final_app.py:245 | joining one more part adds a separator and that part |
| Text.NatToString | Final_app.py:212 | the decimal text of a natural number is all digits |
| Text.IntToString | Final_app.py:32 | `str(i)` for an int: a `-` for a negative int, then the decimal digits of its magnitude; `Coerce.ParseIntText` proves `float()` reads it back |
| Text.AllDigits | Final_app.py:212 | `s.isdigit()` on ASCII: a non-empty string of digits `0`-`9`; `Grid.SplitKeyJoin` and `Coerce.ParseDigitRun` state what depends on it |
| Ordering.LessIrreflexive | Final_app.py:224 | no string sorts before itself |
| Ordering.LessTransitive | Final_app.py:224 | the string order is transitive |
| Ordering.LessTotal | Final_app.py:224 | two different strings are ordered one way or the other |
| Ordering.LessAsymmetric | Final_app.py:224 | two strings are never ordered both ways |
| Ordering.Insert | Final_app.py:251 | inserting into a sorted sequence keeps it sorted and adds exactly the new element |
| Ordering.SortedSet | Final_app.py:251 | `sorted(set(s), reverse=desc)` is sorted in the requested direction and holds exactly the members of `s` |
| Ordering.SortedDistinct | Final_app.py:251 | a sorted sequence repeats no element |
| Ordering.SortedUnique | Final_app.py:251 | two sorted sequences with the same members are equal, so the order of the rows and columns is determined |
| Flatten.EntryWrite | Final_app.py:121 | a data point writes exactly when it is a dict whose value `clean_number` accepts, a float under a key longer than the prefix |
| Flatten.EntriesLogWrites | Final_app.py:120-122 | a write is in a data loop's log exactly when some data point produces it |
| Flatten.EntriesLogKeys | Final_app.py:121 | every key the data loop writes is the prefix, `_` and the year of a dict data point |
| Flatten.ScanEntries | Final_app.py:120-122 | the data loop with its `try/except: pass` leaves the dict equal to the log replayed onto it |
| Flatten.LastValue | Final_app.py:34 | `item['data'][-1]['value']` is read only when `data` is a list, and never from an empty list |
| Flatten.ReplayEmptyKeys | Final_app.py:32 | a dict filled from empty holds exactly the keys some write assigns |
| Flatten.ReplayEmptyGet | Final_app.py:32 | last write wins: each key holds the value of the last write to it |
| Flatten.ReplayEmptyOrigin | Final_app.py:32 | every key holds a value that a write of the log assigned to it |
| Flatten.ReplayEmptyHas | Final_app.py:32 | every write of the log leaves its key in the dict |
| Flatten.ItemsLastWrite | Final_app.py:211 | iterating a dict's items and keeping the last write per key gives back the dict |
| Flatten.LastWriteAppend | Final_app.py:32 | in two logs run one after the other, a key's last write comes from the second when that writes it |
| Financials.ScanKeyword | Final_app.py:29-35 | one keyword on one item raises exactly when the label test or the data loop raises, and otherwise applies that keyword's writes |
| Financials.ScanKeywords | Final_app.py:28-35 | the keyword loop raises exactly when some keyword raises, and otherwise applies the writes of every keyword in order |
| Financials.ScanItem | Final_app.py:26-35 | one item raises exactly when it is not a dict or a keyword raises on it, and otherwise applies its writes |
| Financials.ScanItems | Final_app.py:26-35 | the item loop raises exactly when some item raises, and otherwise returns the whole log replayed into an empty dict |
| Financials.Financials | Final_app.py:17-36 | `parse_api_1_financials`: raises when `data` cannot be iterated or some item raises, and otherwise replays every keyword's writes into an empty dict; its keys and values are stated by `Financials.FinancialsKeys`, `Financials.FinancialsFanOut` and `Financials.LatestValueWins` (same at stock_engine.py:23-69) |
| Financials.ParseFinancials | Final_app.py:17-36 | the loops compute `Financials.Financials` for any data and vocabulary (same at stock_engine.py:23-69) |
| Financials.KeywordLogWrites | Final_app.py:29-35 | a keyword writes only for a label that contains it: its readable data points under `"<clean_name>_<year>"`, and the bare `clean_name` when the latest value can be read |
| Financials.LatestValueWins | Final_app.py:34-35 | within a matching keyword's writes, the bare `clean_name` ends up holding the latest data point's value, and is never written when that cannot be read |
| Financials.KeywordWriteKept | Final_app.py:26-33 | every write any keyword makes for any item leaves its key in the result |
| Financials.KeywordWriteOrigin | Final_app.py:26-35 | every write of the whole function comes from some keyword and some dict item |
| Financials.FinancialsFanOut | Final_app.py:26-35 | no first match wins: for every item and every keyword its label contains, each readable data point's key and the bare name are in the result |
| Financials.FinancialsKeys | Final_app.py:26-35 | every key of the result is a clean name, bare or followed by `_`, of a keyword that some item's label contains |
| Financials.KeywordWriteKey | Final_app.py:29-35 | a keyword's writes imply its label test passed, and their keys are the clean name, bare or followed by `_` |
| Financials.AppTargetsDistinct | Final_app.py:19-25 | the application's keywords are distinct |
| Financials.AppTargetKeys | Final_app.py:19-28 | the application's `target_keys.items()` is its literal in order |
| Financials.EngineHeadDistinct | stock_engine.py:27-34 | the engine's keywords before the repeated `"PER"` are distinct |
| Financials.EngineItemsDistinct | stock_engine.py:27-44 | the engine's dict, once built, has distinct keywords |
| Financials.EngineTargetKeys | stock_engine.py:27-49 | the repeated `"PER"` keeps its first position and takes the later name `"PER"` |
| Financials.PERatioPrefix | stock_engine.py:57 | `"PE_Ratio"` is an `f"{n}_{year}"` key only for `n == "PE"` |
| Financials.EngineNamesNotPERatio | stock_engine.py:27-44 | no clean name of the engine's dict is `"PE_Ratio"` or `"PE"` |
| Financials.EngineNoPERatio | stock_engine.py:23-69 | the engine never writes a `"PE_Ratio"` key |
| Market.NumberLogAt | Final_app.py:40-50 | the `i`-th assignment of a run stores `clean_number` of its row's field under its row's key |
| Market.NumberLogKeys | Final_app.py:40-50 | a run of assignments writes exactly its table's keys, in order |
| Market.RangesKeys | Final_app.py:51-54 | the two range strings are written under `Circuit Breaker` and `Day Range` |
| Market.ClosingKeys | Final_app.py:78-79 | the last two assignments write `Last_Updated` and `Net_Debt` |
| Market.MarketLogKeys | Final_app.py:40-79 | the keys written do not depend on the data and are `MarketKeys` in order |
| Market.TradingKeysDistinct | Final_app.py:40-54 | the trading keys are distinct and differ from the range keys |
| Market.HistoryKeysDistinct | Final_app.py:55-64 | the 52-week and return keys are distinct and differ from the earlier keys |
| Market.ValuationKeysDistinct | Final_app.py:65-71 | the valuation keys are distinct |
| Market.TradingValuationApart | Final_app.py:40-71 | no trading key is a valuation key |
| Market.HistoryValuationApart | Final_app.py:51-71 | no range, 52-week or return key is a valuation key |
| Market.ClosingKeysDistinct | Final_app.py:40-79 | `Last_Updated` and `Net_Debt` are not assigned before the last two assignments |
| Market.MarketKeysDistinct | Final_app.py:40-79 | no output key is assigned twice |
| Market.MarketLogDistinct | Final_app.py:40-79 | the write log names each key once, whatever the data |
| Market.WriteNumbers | Final_app.py:40-50 | a run of `extracted[key] = clean_number(obj.get(field))` raises exactly when a field is a list or a dict, and otherwise replays the run's writes |
| Market.Group | Final_app.py:51 | `data.get('circuit_breaker', {})` as the receiver of a further `.get`: the empty dict when missing, the nested dict when present, and a raise when the value is not a dict; `Market.WriteRange` states both outcomes |
| Market.RangeText | Final_app.py:52 | `f"{clean_number(lo)}-{clean_number(hi)}"`: the two coerced bounds rendered by `str` and joined by `-`; `Market.WriteRange` and `Market.RangesKeys` state where it is stored |
| Market.WriteRange | Final_app.py:51-54 | a range string raises exactly when its group is present but not a dict or one of its bounds is a list or a dict, and otherwise stores `"<low>-<high>"` under its key |
| Market.WriteTrading | Final_app.py:40-54 | the trading lines raise exactly when a field or a range raises, and otherwise write the trading and range writes |
| Market.WriteHistory | Final_app.py:55-64 | the 52-week and return lines raise exactly when a field is a list or a dict or `total_return` is present but not a dict, and otherwise append their writes |
| Market.WriteSections | Final_app.py:40-77 | every section of numbers and ranges raises exactly under `MarketRaises`, and otherwise leaves the section writes replayed |
| Market.Market | Final_app.py:38-80 | `parse_api_2_market`: raises when `data` is not a dict or under `Market.MarketRaises`, and otherwise replays the fixed sequence of assignments; `Market.MarketShape`, `Market.MarketNumbers` and `Market.MarketNetDebt` state its keys and values (same at stock_engine.py:72-137) |
| Market.ParseMarket | Final_app.py:38-80 | the statement sequence computes `Market.Market` for any data (same at stock_engine.py:72-137) |
| Market.TableWrite | Final_app.py:65-71 | in a table with distinct keys, each key's last write is its own row's number |
| Market.DebtAndCashRows | Final_app.py:69-70 | `Total_Debt` and `Cash` are read from `total_debt` and `cash` |
| Market.SectionsValuation | Final_app.py:65-71 | when the sections end, each valuation key holds what its own assignment stored |
| Market.SectionsDebtAndCash | Final_app.py:69-70 | when the sections end, `Total_Debt` and `Cash` hold `clean_number` of their fields |
| Market.ClosingReads | Final_app.py:78-79 | storing the date leaves `Total_Debt` and `Cash` as they were |
| Market.ClosingLog | Final_app.py:78-79 | the date and the net debt computed from the stored values complete the write log |
| Market.MarketShape | Final_app.py:40-79 | every fixed output key is present, once each and in the order of the assignments, whatever the data holds |
| Market.NumberLogHas | Final_app.py:40-77 | each row of a table contributes its write |
| Market.MarketHolds | Final_app.py:40-79 | every write of the function is what its key holds in the result |
| Market.MarketNumbers | Final_app.py:40-77 | each top-level numeric key holds `clean_number` of its field |
| Market.MarketReturns | Final_app.py:58-64 | each return key holds `clean_number` of its field of `total_return` |
| Market.MissingFieldZero | Final_app.py:40-77 | a field missing from the object gives 0.0 |
| Market.MarketDate | Final_app.py:78 | `Last_Updated` holds the raw `date`, and `""` when there is none |
| Market.MarketNetDebt | Final_app.py:79 | `Net_Debt` is the stored `Total_Debt` less the stored `Cash`, both coerced from their fields (same at stock_engine.py:118-119 and 135) |
| Market.NetFromStored | Final_app.py:79 | a net-debt write from the stored values is their difference |
| Growth.GraphsLogAppend | Final_app.py:85-87 | the writes of two runs of graphs are the runs' writes in order |
| Growth.GraphsLogSnoc | Final_app.py:87 | one more graph appends its own write |
| Growth.GraphStep | Final_app.py:88-91 | one pass over a dict graph stores the target label's value or 0.0 and otherwise changes nothing |
| Growth.ScanGraphs | Final_app.py:87-91 | the graph loop raises exactly when some graph is not a dict, and otherwise replays its writes |
| Growth.ScanSection | Final_app.py:85-91 | one section raises exactly under `SectionRaises`, and otherwise replays the writes of its graphs |
| Growth.SectionStep | Final_app.py:85-91 | one pass over a section that does not raise extends the loop's progress |
| Growth.ScanSections | Final_app.py:85-91 | the section loop raises exactly when some section raises, and otherwise replays every graph's write from an empty dict |
| Growth.Growth | Final_app.py:82-92 | `parse_api_3_growth`: raises when `data` cannot be iterated or some section raises, and otherwise replays every graph's write; `Growth.GrowthKeys` and `Growth.GrowthValue` state its keys and values (same at stock_engine.py:139-156) |
| Growth.ParseGrowth | Final_app.py:82-92 | the loops compute `Growth.Growth` for any data (same at stock_engine.py:139-156) |
| Growth.IsTarget | Final_app.py:89 | `label in targets`: true exactly for a str equal to `"Revenue Growth"` or `"Net Profit Growth"`; `Growth.LastGraph` and `Growth.GrowthKeys` state what it admits |
| Growth.LastGraph | Final_app.py:89 | a graph found for a label is a dict graph of the data whose label is exactly that target |
| Growth.GraphsLogLast | Final_app.py:89-91 | a later graph overwrites an earlier one: a label's last write comes from its last graph, 0.0 when that graph's value cannot be read |
| Growth.GrowthValue | Final_app.py:85-91 | each target label holds what its last graph wrote, or is absent when no graph carries it (same at stock_engine.py:144-155) |
| Growth.GrowthKeys | Final_app.py:84-91 | the result has no key but `Revenue Growth` and `Net Profit Growth` |
| Industry.Names | Final_app.py:96-102 | the names a literal gives, in order |
| Industry.ItemWrite | Final_app.py:104-110 | an item writes exactly when it is a dict whose str label is a key of the map and whose value `clean_number` accepts, the coerced value under the mapped name |
| Industry.IndustryLogSnoc | Final_app.py:103 | one more item appends its write |
| Industry.ItemStep | Final_app.py:103-110 | one pass applies the item's write and nothing else |
| Industry.ScanItems | Final_app.py:103-110 | the item loop raises exactly when some item raises, and otherwise replays the writes from an empty dict |
| Industry.Industry | Final_app.py:94-111 | `parse_api_4_industry` with a match literal: raises when `data` cannot be iterated or some item raises, and otherwise replays each matching item's write; `Industry.IndustryKeys` and `Industry.IndustryValue` state its keys and values (same at stock_engine.py:160-191) |
| Industry.ParseIndustry | Final_app.py:94-111 | the loop computes `Industry.Industry` for any data and literal (same at stock_engine.py:160-191) |
| Industry.MatchMap | Final_app.py:96-102 | the dict a literal `{label: name, ...}` evaluates to, a repeated label keeping its last name; `Industry.MatchMapHas`, `Industry.MatchMapGet` and `Industry.MatchMapEntry` state it |
| Industry.ItemRaises | Final_app.py:104-105 | an exception escapes for an item that is not a dict (`item.get`) or whose label is a list or dict (`label in match_map` cannot hash it); `Industry.ScanItems` raises exactly then |
| Industry.MatchMapHas | Final_app.py:96-102 | whatever the dict maps a label to is an entry of the literal |
| Industry.MatchMapGet | Final_app.py:96-102 | with distinct labels, the dict maps each label of the literal to its name |
| Industry.MatchMapEntry | Final_app.py:96-102 | with distinct labels and names, each label maps to its name and no other label does |
| Industry.IndustryLogLast | Final_app.py:105-109 | a name only one label maps to is last written with that label's last reading |
| Industry.IndustryValue | Final_app.py:103-110 | each name holds the value of the last item with its label and a readable value, and is absent when there is none |
| Industry.IndustryLogName | Final_app.py:108-109 | every write is made under a name of the map |
| Industry.IndustryKeys | Final_app.py:103-110 | the result has no key but the names of the literal (same at stock_engine.py:164-191) |
| Industry.AppLabelsDistinct | Final_app.py:96-102 | the application's labels are distinct |
| Industry.AppNamesDistinct | Final_app.py:96-102 | the application's names are distinct |
| Industry.EngineLabelsDistinct | stock_engine.py:164-176 | the engine's labels are distinct |
| Industry.EngineNamesDistinct | stock_engine.py:164-176 | the engine's names are distinct |
| Industry.SameLabels | stock_engine.py:164-176 | the two files recognise the same set of labels |
| Industry.IndustryAgree | stock_engine.py:160-191 | the two versions raise on the same data and, where they succeed, hold the same reading for each label under their own names |
| Statements.StrippedLabel | Final_app.py:129 | `x.get('label', '').strip()` can be read exactly when the label is a str or missing |
| Statements.RowName | Final_app.py:118 | the text a row's label puts in its keys: `str` of `metric.get('label')` for the stock-price parser, and `get('label', '').strip()` for the statements; `Statements.StockKeys` and `Statements.IncomeKeys` state the keys built from it |
| Statements.PeriodItems | Final_app.py:128 | `data.get('annual', [])` or `data.get('quarter', [])` iterated: raises when `data` is not a dict or the value cannot be iterated, and is empty when the key is missing; `Statements.IncomeMissing` and `Statements.BalanceMissing` state the missing case |
| Statements.RowsLogSnoc | Final_app.py:128 | one more row appends its writes |
| Statements.CategoriesLogSnoc | Final_app.py:144 | one more category appends its writes |
| Statements.ScanRow | Final_app.py:129-132 | one row raises exactly under `RowRaises`, and otherwise replays its points' writes |
| Statements.RowStep | Final_app.py:128-132 | one pass over a row that does not raise extends the loop's progress |
| Statements.ScanRows | Final_app.py:128-132 | the row loop raises exactly when some row raises, and otherwise replays the writes of all rows |
| Statements.ScanCategory | Final_app.py:145-152 | one category raises exactly under `CategoryRaises`, and otherwise replays its rows' writes below its key prefix |
| Statements.CategoryStep | Final_app.py:144-152 | one pass over a category that does not raise extends the loop's progress |
| Statements.ScanCategories | Final_app.py:144-152 | the category loop raises exactly when some category raises, and otherwise replays every category's writes from an empty dict |
| Statements.StockPrice | Final_app.py:113-123 | `parse_api_5_stock_price`: raises when `data` cannot be iterated or some category raises, and otherwise replays every point's write under its raw metric label; `Statements.StockKeys` and `Statements.StockFanOut` state its keys (same at stock_engine.py:195-216) |
| Statements.IncomeStatement | Final_app.py:125-138 | `parse_api_6_income_statement`: the annual list and then the quarter list, each read with default `[]` and replayed into its own dict under stripped labels, raising when either does; `Statements.IncomeKeys`, `Statements.IncomeFanOut` and `Statements.IncomeMissing` state its keys (same at stock_engine.py:221-254) |
| Statements.BalanceSheet | Final_app.py:140-167 | the application's `parse_api_7_balance_sheet`: annual and quarter, keyed by stripped category label, stripped row label and year, raising when either period does; `Statements.BalanceKeys`, `Statements.BalanceFanOut` and `Statements.BalanceMissing` state its keys |
| Statements.EngineBalanceSheet | stock_engine.py:259-279 | the engine's `parse_api_7_balance_sheet`: the annual period alone as one dict; `Statements.BalanceAgree` proves it is the application's annual dict |
| Statements.ParseStockPrice | Final_app.py:113-123 | the loops compute `Statements.StockPrice` for any data (same at stock_engine.py:195-216) |
| Statements.ParseIncomeStatement | Final_app.py:125-138 | the two loops compute `Statements.IncomeStatement` for any data (same at stock_engine.py:221-254) |
| Statements.ParseBalanceSheet | Final_app.py:140-167 | the annual and quarter loops compute `Statements.BalanceSheet` for any data |
| Statements.ParseEngineBalanceSheet | stock_engine.py:259-279 | the annual loop computes `Statements.EngineBalanceSheet` for any data |
| Statements.RowLogWrites | Final_app.py:130-132 | one row's writes are exactly the writes of its points |
| Statements.RowsLogWrites | Final_app.py:128-132 | a row loop's writes are exactly the writes of the points of its rows |
| Statements.CategoryLogWrites | Final_app.py:145-152 | one category's writes are exactly the writes of its rows' points |
| Statements.CategoriesLogWrites | Final_app.py:144-152 | a category loop's writes are exactly the writes of every point of every row of every category |
| Statements.StockKeys | Final_app.py:115-122 | every stock-price key is `"<metric_label>_<year>"` of some point and holds that point's coerced value (same at stock_engine.py:199-215) |
| Statements.StockFanOut | Final_app.py:115-122 | every readable point of every metric of every category leaves its key in the result |
| Statements.IncomeKeys | Final_app.py:128-137 | every income-statement key of either period is a stripped label, `_` and a year, holding a point's coerced value |
| Statements.IncomeFanOut | Final_app.py:128-137 | every readable point of a period leaves its key in that period's dict, built independently of the other period |
| Statements.IncomeMissing | Final_app.py:128-133 | a missing `annual` or `quarter` list gives an empty dict for that period |
| Statements.BalanceKeys | Final_app.py:143-165 | every balance-sheet key is a stripped category label, `_`, a stripped row label, `_` and a year, holding a point's coerced value |
| Statements.BalanceFanOut | Final_app.py:143-165 | every readable point of a period leaves its key in that period's dict |
| Statements.BalanceMissing | Final_app.py:143-156 | a missing `annual` or `quarter` list gives an empty dict for that period |
| Statements.BalanceAgree | stock_engine.py:259-279 | the engine's dict is the application's annual dict, the engine raises only where the application does, and the application succeeds with the engine whenever its quarter loop does not raise |
| Foundation.AsNumber | Final_app.py:189 | a float is its own number, and a str, None, list or dict is no number for `*` and `>` |
| Foundation.Equity | Final_app.py:189 | `financials.get('BVPS', 0) * market.get('Total_Shares', 0)`: missing keys count 0 and a value that is not a number raises; `Foundation.MissingCountsZero` states the defaults (same at stock_engine.py:317) |
| Foundation.DebtOver | Final_app.py:190 | `market['Total_Debt'] / total_equity` for positive equity: raises when the key is missing or its value is not an int, float or bool, and otherwise is the quotient; `Foundation.DebtToEquityRatio` states the stored ratio |
| Foundation.AppDebtToEquity | Final_app.py:189-190 | the application's step: raises with the product, with a missing `Total_Debt` or a non-number debt, and otherwise stores `round(Total_Debt / equity, 2)` for positive equity and `0.0` otherwise under `Debt_to-Equity`; `Foundation.DebtToEquityGuard` and `Foundation.DebtToEquityRatio` state the two branches |
| Foundation.EngineDebtToEquity | stock_engine.py:317-325 | the engine's step: the same ratio or `0.0`, with `round(…, 2)` applied after the branch; `Foundation.DebtToEquityAgree` proves it equal to `Foundation.AppDebtToEquity` |
| Foundation.DebtToEquityAgree | Final_app.py:189-190 | the application's and the engine's debt-to-equity steps are the same function of the two dicts (engine at stock_engine.py:317-325) |
| Foundation.DebtToEquityGuard | stock_engine.py:320-325 | equity that is not positive stores exactly 0.0, whatever the debt |
| Foundation.MissingCountsZero | stock_engine.py:317 | a missing `BVPS` or `Total_Shares` makes the equity 0 |
| Foundation.DebtToEquityRatio | stock_engine.py:320-325 | positive equity stores `round(Total_Debt / equity, 2)`, within 0.005 of the exact ratio |
| Foundation.StoreRatio | stock_engine.py:325 | with float operands the step never raises, adds only the ratio's key and changes no other entry |
| Foundation.FoundationMarket | stock_engine.py:317-325 | on a dict `parse_api_2_market` returned, the step never raises, appends the ratio as the last key and keeps every other entry, `Net_Debt` included |
| Foundation.RatioKeyNew | stock_engine.py:325 | `Debt_to-Equity` is not among the market keys |
| Grid.SplitKey | Final_app.py:212-214 | the filter `"_" in key and key.rsplit('_', 1)[-1].isdigit()` and the split `metric, year = parts[0], parts[1]` at the last `_`; `Grid.SplitKeyJoin` proves it passes exactly the keys `m_y` with `y` all digits and returns that `(m, y)` |
| Grid.SplitKeyJoin | Final_app.py:212-214 | a key passes the filter as metric `m` and year `y` exactly when it is `m + "_" + y` with `y` all digits |
| Grid.PivotSnoc | Final_app.py:211 | the pivot of one more key is one more step |
| Grid.AddCell | Final_app.py:212-217 | the loop body for one key and value is one pivot step |
| Grid.CellText | Final_app.py:220-226 | a cell after `astype(str)`: `str` of the value `data_map[m][y]` holds, and `"nan"` where the metric has none for the year; `Grid.GridCells` proves it is the flat dict's value under `m_y` |
| Grid.ListingOf | Final_app.py:218 | `DataFrame(list(flat_data.items()), columns=["Metric", "Value"]).astype(str)`: one pair per key in order with `str` of its value; `Grid.GridShape` states when the grid is this listing |
| Grid.TransformToGrid | Final_app.py:206-226 | `transform_to_grid`: an empty dict gives an empty frame, a dict without a `<metric>_<year>` key gives the Metric/Value listing, and otherwise the pivot with rows ascending and columns descending; `Grid.GridShape`, `Grid.GridIndex`, `Grid.GridColumns` and `Grid.GridCells` state that table |
| Grid.TransformGrid | Final_app.py:206-226 | the loop over the items, with its mutated `data_map` and `years`, computes `Grid.TransformToGrid` |
| Grid.PivotStepMetric | Final_app.py:215 | one pass adds at most the metric of its own key |
| Grid.PivotStepYear | Final_app.py:217 | one pass adds at most the year of its own key |
| Grid.PivotStepCell | Final_app.py:216 | one pass changes at most the cell its own key names |
| Grid.PivotMetrics | Final_app.py:211-215 | `data_map` holds a metric exactly when some key passes the filter with it |
| Grid.PivotYears | Final_app.py:211-217 | `years` holds a year exactly when some key passes the filter with it |
| Grid.CutsPrefix | Final_app.py:211 | the splits of a prefix of the items are a prefix of the splits |
| Grid.PivotCell | Final_app.py:211-216 | `data_map[m][y]` is the value last assigned to `m + "_" + y` for a digit-only `y`, and absent for any other `y` |
| Grid.CutYearDigits | Final_app.py:212 | a year some key passes the filter with is all digits |
| Grid.PivotYearDigits | Final_app.py:212-217 | every year collected is all digits |
| Grid.FlatMetric | Final_app.py:211-214 | a key of the dict passes with metric `m` exactly when some pass of the loop sees it do so |
| Grid.FlatYear | Final_app.py:211-214 | a key of the dict passes with year `y` exactly when some pass of the loop sees it do so |
| Grid.GridShape | Final_app.py:208-218 | the empty dict gives the empty table; a dict no key of which passes gives its Metric/Value listing as strs, in order; any other dict gives the pivoted table |
| Grid.GridIndex | Final_app.py:220-224 | the rows are ascending and are exactly the metrics of the keys that pass |
| Grid.GridColumns | Final_app.py:220-223 | the columns are descending, are exactly the years of the keys that pass, and are all digits |
| Grid.GridCells | Final_app.py:220-226 | every row has one cell per column, the str of the dict's value under `metric_year`, and `"nan"` when the dict has no such key |
| Hierarchy.TreeSnoc | Final_app.py:235 | the tree of one more key is one more step |
| Hierarchy.FillGet | Final_app.py:247-248 | `if k not in d: d[k] = a` leaves `k` holding its old value or `a` |
| Hierarchy.FillSet | Final_app.py:247-249 | an assignment after filling in a key is the assignment alone |
| Hierarchy.AddLeaf | Final_app.py:236-249 | the loop body for one key and value is one tree step under the guard |
| Hierarchy.PutLeaf | Final_app.py:247-249 | creating the missing dicts and assigning the leaf grows the tree by that leaf |
| Hierarchy.ScanTree | Final_app.py:235-249 | the first loop, with its mutated `tree` and `all_years`, computes the tree of the placed keys |
| Hierarchy.BuildHeader | Final_app.py:256-257 | the header-row loop builds the header row |
| Hierarchy.BuildItemRow | Final_app.py:262-265 | the item-row loop builds the item row |
| Hierarchy.ItemRowsSnoc | Final_app.py:260-266 | one more item appends its row |
| Hierarchy.BuildItemRows | Final_app.py:260-266 | the item loop builds one row per item, in order |
| Hierarchy.BuildCategory | Final_app.py:255-266 | one category gives its header unless it is `"Items"`, then its item rows |
| Hierarchy.BuildRows | Final_app.py:254-266 | the category loop builds every category's rows, in order |
| Hierarchy.HierarchicalGrid | Final_app.py:228-269 | `make_hierarchical_grid` under either guard: an empty dict gives an empty frame, and otherwise the frame of the header and item rows built from the placed keys; `Hierarchy.HierarchyEmpty`, `Hierarchy.HierarchyColumns`, `Hierarchy.HeaderRowCells` and `Hierarchy.ItemRowCells` state that table |
| Hierarchy.MakeHierarchicalGrid | Final_app.py:228-269 | the function's two loops, with their mutated `tree`, `all_years` and `rows`, compute `Hierarchy.HierarchicalGrid` under the given guard: `AsWritten` is the code as it runs, and `Intended` sends two-part keys to `"Items"` as the branch at Final_app.py:240-242 means to |
| Hierarchy.Place | Final_app.py:236-245 | where `parts = key.split('_')` sends a key: `None` below the guard's part count, `"Items"` and the first part for two parts, and otherwise the first part, the middle parts joined by `_`, and the last part as year; `Hierarchy.PlaceJoin`, `Hierarchy.PlaceIntendedJoin` and `Hierarchy.PlaceTwoParts` state both guards |
| Hierarchy.PlaceJoin | Final_app.py:236-245 | as written, a key is placed at category `c`, item `i` and year `y` exactly when `c` and `y` hold no `_` and the key is `c_i_y` |
| Hierarchy.PlacedJoin | Final_app.py:236-245 | a placed key is the join of its category, item and year |
| Hierarchy.JoinPlaced | Final_app.py:236-245 | the join of an underscore-free category, an item and an underscore-free year is placed there |
| Hierarchy.JoinThree | Final_app.py:245 | three or more parts join as the first, the joined middle and the last |
| Hierarchy.JoinCons | Final_app.py:245 | two or more parts join as the first part, a separator and the join of the rest |
| Hierarchy.PlaceTwoParts | Final_app.py:237-242 | a two-part key is dropped as written and goes to `"Items"` as intended |
| Hierarchy.PlaceIntendedJoin | Final_app.py:237-245 | as intended, a key is placed as written, or it has two underscore-free parts and goes to `"Items"` |
| Hierarchy.PlaceKey | Final_app.py:236-245 | outside `"Items"`, and everywhere as written, the key placed at a category, item and year is their join |
| Hierarchy.PlaceNoSeparator | Final_app.py:236-238 | a placed key's category and year hold no `_` |
| Hierarchy.PlaceGuards | Final_app.py:237 | both guards place every key that does not have exactly two parts the same way |
| Hierarchy.Firsts | Final_app.py:247 | the first occurrences of a sequence, each once, with the same members |
| Hierarchy.TreeStepKeys | Final_app.py:247-248 | one pass adds its category and item at the end where they are new, and nothing else |
| Hierarchy.TreeStepYears | Final_app.py:239 | one pass adds only the year of its key |
| Hierarchy.SetLeaf | Final_app.py:249 | assigning one leaf of the tree leaves every other leaf as it was |
| Hierarchy.TreeStepLeaf | Final_app.py:247-249 | one pass changes at most the leaf its key names |
| Hierarchy.FirstsSnoc | Final_app.py:247 | one more element adds itself at the end when it is new |
| Hierarchy.TreeCategories | Final_app.py:235-247 | the tree's categories are those of the placed keys, in the order of their first key |
| Hierarchy.TreeItems | Final_app.py:235-248 | a category's items are those of the keys placed in it, in the order of their first key |
| Hierarchy.TreeYears | Final_app.py:235-239 | `all_years` holds exactly the years of the placed keys |
| Hierarchy.TreeLeaf | Final_app.py:235-249 | each leaf holds the value of the last key placed there |
| Hierarchy.EntriesPrefix | Final_app.py:235 | the placements of a prefix of the items are a prefix of the placements |
| Hierarchy.LastPlacedKey | Final_app.py:235-249 | where the guard sends no two-part key, the last value placed at a leaf is the last write to the key joining it |
| Hierarchy.CategoriesOf | Final_app.py:235-247 | a category is listed exactly when some key is placed in it |
| Hierarchy.ItemsInOf | Final_app.py:235-248 | an item is listed for a category exactly when some key is placed at it |
| Hierarchy.CategoriesLast | Final_app.py:235-247 | the categories of one more key are the earlier ones and its own |
| Hierarchy.ItemsInLast | Final_app.py:235-248 | the items of one more key are the earlier ones and its own |
| Hierarchy.CategoriesNone | Final_app.py:235-247 | keys none of which is placed list no category |
| Hierarchy.RowKeysOf | Final_app.py:256-265 | a row's columns are `Metric` and then its distinct year keys |
| Hierarchy.HeaderRow | Final_app.py:256-257 | `head_row = {"Metric": category.upper()}` with `""` assigned for every sorted year; `Hierarchy.HeaderCells` states its columns and cells |
| Hierarchy.YearCell | Final_app.py:265 | `str(year_vals.get(y, "0"))`: `str` of the leaf's value, and `"0"` when the item has none for the year; `Hierarchy.ItemCellAt` proves it is the cell |
| Hierarchy.ItemRow | Final_app.py:262-265 | `row = {"Metric": display_name}` with the year cell assigned for every sorted year; `Hierarchy.ItemCells` states its columns and cells |
| Hierarchy.DisplayName | Final_app.py:261 | an item's name indented by six spaces in every category except `"Items"`; `Hierarchy.ItemRowCells` and `Hierarchy.OneItemRow` state both cases |
| Hierarchy.Frame | Final_app.py:269 | `pd.DataFrame(rows).astype(str)`: the first row's keys as columns and each row's values under them; `Hierarchy.FrameCells` and `Hierarchy.RowKeys` prove every row has those keys, so they are the union pandas takes |
| Hierarchy.HeaderCells | Final_app.py:256-257 | a header row has the columns `Metric` and the years, the upper-cased category under `Metric` and `""` in every year |
| Hierarchy.HeaderCellAt | Final_app.py:257 | every year cell of a header row is `""` |
| Hierarchy.BlankLogLast | Final_app.py:257 | the last blank write to a year is `""` |
| Hierarchy.ItemCells | Final_app.py:262-265 | an item row has the columns `Metric` and the years, its name under `Metric` and its cell in every year |
| Hierarchy.ItemRowKeys | Final_app.py:262 | an item row's columns are `Metric` and the years, with its name under `Metric` |
| Hierarchy.ItemCellAt | Final_app.py:263-265 | each year cell of an item row is `str(year_vals.get(y, "0"))` |
| Hierarchy.CellLogLast | Final_app.py:263-265 | the last write to a year of an item row is its cell |
| Hierarchy.CellLogValues | Final_app.py:263-265 | every write of an item row to a year carries that year's cell |
| Hierarchy.CategoryRowOrigin | Final_app.py:255-266 | every row of a category is its header, when it has one, or one of its items' rows |
| Hierarchy.RowOrigin | Final_app.py:254-266 | every row is the header of a category other than `"Items"` or the row of one of a category's items |
| Hierarchy.RowPresence | Final_app.py:254-266 | every category other than `"Items"` has its header among the rows, and every item its row |
| Hierarchy.CategoryAt | Final_app.py:254 | the `k`-th category contributes the `k`-th group of rows |
| Hierarchy.ItemRowIn | Final_app.py:260-266 | every item has its row among its category's rows |
| Hierarchy.RowKeys | Final_app.py:256-265 | with distinct years other than `"Metric"`, every row has the columns `Metric` and the years |
| Hierarchy.FrameCells | Final_app.py:269 | rows that share their keys make a frame with those columns and no cell left empty |
| Hierarchy.HierarchyEmpty | Final_app.py:230-250 | the table is empty exactly when no key of the dict is placed |
| Hierarchy.PlacedRows | Final_app.py:235-266 | a placed key gives at least one row |
| Hierarchy.UnplacedRows | Final_app.py:235-266 | a dict no key of which is placed gives no row |
| Hierarchy.HierarchyColumns | Final_app.py:251-269 | once a key is placed, the columns are `Metric` and the placed keys' years, newest first, and every row has exactly those keys |
| Hierarchy.YearsOfFlat | Final_app.py:235-251 | a year is a column exactly when some key of the dict is placed with it |
| Hierarchy.YearOfEntries | Final_app.py:235-239 | a key of the dict is placed with year `y` exactly when some pass of the loop sees it so |
| Hierarchy.EntryKey | Final_app.py:235 | the `n`-th pass places the `n`-th key of the dict |
| Hierarchy.SortedYears | Final_app.py:251 | the sorted years repeat nothing |
| Hierarchy.CategoryOfFlat | Final_app.py:235-247 | a category of the tree is that of some placed key |
| Hierarchy.HeaderRowCells | Final_app.py:255-258 | each category other than `"Items"` has its header among the rows, its name upper-cased and every year blank |
| Hierarchy.ItemRowCells | Final_app.py:260-266 | each item of each category has its row, its name under `Metric` indented by six spaces unless the category is `"Items"`, and in each year the str of the dict's value under `category_item_year`, or `"0"` |
| Hierarchy.LeafOfFlat | Final_app.py:235-249 | the leaf at a category, item and year holds the dict's value under the key joining them |
| Hierarchy.NamesOfFlat | Final_app.py:236-238 | the categories and years of the tree hold no `_` |
| Hierarchy.TwoPartKeyDropped | Final_app.py:237-242 | as written, the dict whose one key is `"Cash_2023"` gives the empty table |
| Hierarchy.TwoPartKeyKept | Final_app.py:240-242 | as intended, the same dict gives the one unindented row `Cash` with its value under `2023`, and no header |
| Hierarchy.KeptRows | Final_app.py:254-266 | as intended, the dict with the one key `"Cash_2023"` gives exactly the row of `Cash` |
| Hierarchy.KeptTree | Final_app.py:235-250 | as intended, the dict with the one key `"Cash_2023"` builds the tree `Items` / `Cash` / `2023` |
| Hierarchy.KeptEntries | Final_app.py:240-242 | as intended, `"Cash_2023"` is placed at `Items`, `Cash`, `2023` |
| Hierarchy.KeptRow | Final_app.py:261-265 | the `Cash` row has the columns `Metric` and `2023`, the name `Cash` and the str of its value |
| Hierarchy.OneKeyTree | Final_app.py:247-249 | one placed key builds a tree of one leaf |
| Hierarchy.OneItemRows | Final_app.py:254-266 | a tree of one item in `"Items"` gives that item's row alone |
| Hierarchy.OneItemRow | Final_app.py:255-266 | the `"Items"` category with one item gives that item's row and no header |

## Left out

- The HTTP requests and the `try/except` that turns any failure of
  `get_stock_foundation` into `None` (Final_app.py:169-197,
  stock_engine.py:283-340) are network I/O. Only the debt-to-equity step is
  modelled, as a function of the two parsed dicts. A raising parser is
  `Outcome.Raised`, which is where that `except` takes over.
- The Streamlit page and `show_kv_table` (Final_app.py:271-375) are
  rendering only.
- The Excel export (stock_engine.py:343-388) is file I/O.
- `pdf_generator.py` is FPDF drawing, and no part of it is in the model.
- Binary floating point is not modelled. Numbers are exact reals, so
  `round(x, 2)` is exact half-even rounding. The result of a division is
  exact too.
- `float()` covers decimal notation with ASCII digits only. `inf`, `nan`
  and non-ASCII digits are treated as unparseable, and `isdigit()` is
  ASCII only too.
- Text.Upper, Hierarchy.HeaderCells, Hierarchy.HeaderRowCells: `str.upper()`
  is modelled on ASCII letters only and keeps the length. Python maps every
  cased Unicode letter and can lengthen a string (`"ß"` becomes `"SS"`), so
  for a category with non-ASCII letters the header text the model states
  differs from the program's. Character case tables are outside the model.
- `str()` of a float, a list or a dict is the caller-supplied `show`. The
  model does not say what text it produces: the range strings of the
  market snapshot, the grid cells and the f-string keys whose year is not
  a str are stated in terms of `show`.
- pandas is modelled only by the shape it produces. `DataFrame.from_dict`,
  `sort_index` and `astype(str)` become a row index, a column list and a
  matrix of strs. For the hierarchical grid, the column union of
  `DataFrame(rows)` is the first row's keys; `Hierarchy.RowKeys` proves
  every row has those keys.
- Grid.CellText, Grid.GridCells: every cell is stated as `str` of its value
  through `show`. pandas stores a column of ints that also holds a float or
  a missing cell as float64, so an int `5` there prints as `"5.0"`. Every
  `<metric>_<year>` key the parsers write holds a float from
  `clean_number`, so no dict they build reaches that case; the column
  dtypes of pandas are outside the model.
- Neither grid keeps only the five most recent years, because the code
  shown truncates nowhere.
- Foundation.AsNumber: a str or list operand is treated as raising. In
  Python, `*` may succeed on one (repetition), but the comparison
  `total_equity > 0` that follows then raises, so the outcome is the same.
- Foundation.FoundationMarket: stated for a `BVPS` that is missing or a
  float, which is what `parse_api_1_financials` stores; other values are
  covered by `Foundation.DebtToEquityAgree` and the `Outcome` of the step.
- Hierarchy.ItemRowCells, Hierarchy.LeafOfFlat, Hierarchy.LastPlacedKey:
  under the intended guard they do not cover the `"Items"` category. There
  a leaf can also come from a two-part key, so its key is not the
  three-part join; `Hierarchy.PlaceIntendedJoin` states where those keys
  go.
- Hierarchy.HierarchyColumns, Hierarchy.ItemRowCells,
  Hierarchy.HeaderRowCells: they require that no year reads `"Metric"`. A
  year `"Metric"` would overwrite the `Metric` cell of every row, and no
  balance-sheet year has that form.
- Hierarchy.TreeYears: `all_years` is a set. The model keeps it as a
  sequence in the order of first insertion and states only its members,
  which is all that `sorted()` reads.
- Top-level items that are not dicts, which the original code does not
  guard against, are not excluded by a precondition. Every parser states
  exactly when such input raises.

## Findings

| source | as written | input that shows it | evidently intended | confidence | as-written member | corrected member |
|---|---|---|---|---|---|---|
| Final_app.py:237-242 | `if len(parts) >= 3:` guards the branch `if len(parts) == 2: cat = "Items"`, which therefore never runs; two-part keys are dropped | the dict `{"Cash_2023": v}` gives an empty table | two-part keys become items of the `"Items"` category, shown without a header or indent (Final_app.py:255, 261) | not executed | Hierarchy.TwoPartKeyDropped | Hierarchy.TwoPartKeyKept |
