# Sales dashboard core, modelled in Dafny

A model of the data-preparation and filtering core of `Ciencia_datos.py`. This script loads the
monthly sales CSV files of an electronics retailer and derives the analysis columns, then serves a
Dash dashboard whose dropdowns filter the rows and whose cards show KPIs.

The model covers the following parts of the script:

- **Loading and cleaning.** Repeated header lines and rows without an order id are dropped in each
  file, and the files are concatenated. Rows whose quantity or price is not a positive number, or
  whose timestamp did not parse, are then discarded.
- **Derived columns.** For each row the model derives:
  - revenue, as quantity × unit price;
  - the calendar columns: quarter, Spanish month name, Spanish day name and weekend flag;
  - city and state, from the shipping address (`extraer_ubicacion`);
  - the product category (`asignar_categoria`);
  - the price tier (`pd.cut`);
  - the full state name, with a fallback to the code;
  - the special-event label (`identificar_evento`).
- **Dashboard logic.** The filter chain of `update_dashboard`, with its `'Todos'`/`'Todas'`
  sentinels and the inclusive date range; the `reset_filtros` callback; the KPI block (revenue,
  distinct orders, units, average ticket); and the `groupby().sum()` rankings `idxmax` and
  `nlargest(10)`.

Modules, one file each:

| file | module | what it holds |
|---|---|---|
| `options.dfy` | `Options` | `Option`, standing for NaN/NaT and for `no_update` |
| `seqs.dfy` | `Seqs` | boolean-mask selection (`df[mask]`), subsequences, first match, `pd.concat` |
| `pystr.dfy` | `PyStr` | Python's `str.strip`, `str.split(sep)`, `str.lower`, the `in` substring test |
| `calendar.dfy` | `Calendar` | dates, parsed timestamps, quarter, `mapa_meses`, `dias_espanol`, weekend flag |
| `location.dfy` | `Location` | `extraer_ubicacion` |
| `category.dfy` | `Category` | `asignar_categoria` as an ordered rule list |
| `pricetier.dfy` | `PriceTier` | `pd.cut` with right-closed bins, and the tier labels |
| `states.dfy` | `States` | `estados_usa` and the `.map(...).fillna(...)` fallback |
| `events.dfy` | `Events` | `eventos_especiales` and `identificar_evento` |
| `sales.dfy` | `Sales` | raw rows, validity, the enriched record and its derivation |
| `cleaning.dfy` | `Cleaning` | the load-and-clean pipeline |
| `dashboard.dfy` | `Dashboard` | the filters of `update_dashboard` and `reset_filtros` |
| `aggregates.dfy` | `Aggregates` | column sums, `groupby(...).sum()`, `idxmax`, `nlargest` |
| `kpis.dfy` | `Kpis` | the KPI cards |

The model makes these choices:

- **Numbers.** Quantities and prices are `real`, because `pd.to_numeric` yields int or float
  columns and the script never requires whole numbers.
- **Parsed values are inputs.** `pd.to_numeric(errors='coerce')` and `pd.to_datetime(...,
  errors='coerce')` are library parsers. A raw row therefore carries their results as `Option`s,
  where `None` stands for NaN/NaT. The parsed timestamp includes the weekday index that
  `dt.dayofweek` reports.
- **Event dates are dates.** `identificar_evento` formats the date with `strftime('%Y-%m-%d')`
  and looks the string up in lists of such strings. On valid dates that formatting is
  one-to-one, so the model compares `Date` values instead.

## Model

| member | source | states |
|---|---|---|
| `Seqs.Select` | Ciencia_datos.py:70 | a boolean mask keeps only rows that satisfy it, keeps every row that satisfies it, and never adds rows |
| `Seqs.SelectCount` | Ciencia_datos.py:70 | a mask keeps every copy of an accepted row value and no copy of a rejected one, so duplicate line items are neither merged nor dropped |
| `Seqs.SelectIsSubsequence` | Ciencia_datos.py:70 | masking keeps the surviving rows in their original order |
| `Seqs.SelectSelect` | Ciencia_datos.py:520-536 | two successive `data = data[mask]` steps select the same rows as the conjunction of the masks |
| `Seqs.SelectConcatAll` | Ciencia_datos.py:53-58 | masking each file and then concatenating equals concatenating and then masking |
| `Seqs.SelectStronger` | Ciencia_datos.py:520-536 | a stronger mask selects a subsequence of what a weaker one selects, hence never more rows |
| `Seqs.IsSubsequenceTransitive` | Ciencia_datos.py:520-536 | a filter applied to a filtered frame still yields an order-preserving subset of the original |
| `PyStr.Strip` | Ciencia_datos.py:111-112 | `strip()` removes whitespace, and only whitespace, from both ends; it returns a contiguous slice that is empty exactly when the input is all whitespace, and otherwise starts and ends on a non-space |
| `PyStr.StripAround` | Ciencia_datos.py:111-112 | a string with blank margins around a core that has non-space ends strips to exactly that core |
| `PyStr.StripIdempotent` | Ciencia_datos.py:111-112 | stripping twice equals stripping once |
| `PyStr.Split` | Ciencia_datos.py:109 | `split(sep)` yields one more piece than there are separators (so at least one), and no piece contains the separator |
| `PyStr.JoinSplit` | Ciencia_datos.py:109 | joining the pieces of `split(sep)` with `sep` gives back the original string |
| `PyStr.SplitConcat` | Ciencia_datos.py:109 | splitting `a + sep + b` splits `a` and `b` separately |
| `PyStr.SplitNoSeparator` | Ciencia_datos.py:112-113 | a string without the separator splits to itself alone |
| `PyStr.LowerChar` | Ciencia_datos.py:123 | one character lower-cased: never a capital; a capital becomes the small letter 32 code points later; anything else is unchanged |
| `PyStr.Lower` | Ciencia_datos.py:123 | `lower()` keeps the length, leaves no capital, turns each capital into its small letter and keeps every other character in place |
| `PyStr.LowerIdempotent` | Ciencia_datos.py:123 | lower-casing twice equals lower-casing once |
| `Calendar.Quarter` | Ciencia_datos.py:87 | the quarter is between 1 and 4 and is the one whose three months contain the month |
| `Calendar.MonthNameInjective` | Ciencia_datos.py:92-96 | `mapa_meses` gives different months different names |
| `Calendar.DayNameTranslates` | Ciencia_datos.py:98-103 | the Spanish day name is the `dias_espanol` translation of the English `day_name()` for that weekday index |
| `Calendar.DayNameInjective` | Ciencia_datos.py:98-103 | different weekdays get different Spanish names |
| `Calendar.WeekendByName` | Ciencia_datos.py:104 | `Es Finde` (weekday index 5 or 6) holds exactly on 'Sábado' and 'Domingo' |
| `Calendar.ColumnsOf` | Ciencia_datos.py:78-104 | the derived date, month number, hour, weekday, quarter, month name and day name agree with the timestamp, and the weekend flag is set exactly on Saturday and Sunday |
| `Calendar.DateLeTransitive` | Ciencia_datos.py:534-535 | the date order used by the range filter is transitive |
| `Calendar.MinDate` | Ciencia_datos.py:489 | `df['Fecha'].min()` is one of the dates and is no later than any of them |
| `Calendar.MaxDate` | Ciencia_datos.py:489 | `df['Fecha'].max()` is one of the dates and is no earlier than any of them |
| `Calendar.MinDateUnique` | Ciencia_datos.py:489 | any date of the column that is no later than all of them is exactly `min()` |
| `Calendar.MaxDateUnique` | Ciencia_datos.py:489 | any date of the column that is no earlier than all of them is exactly `max()` |
| `Location.ExtractLocation` | Ciencia_datos.py:107-117 | fewer than three comma-separated segments give ('Desconocido', 'Desconocido'); otherwise the city is segment 1 stripped (so it has no comma and no surrounding blanks), and the state is the longest space-free prefix of the stripped third segment |
| `Location.BlankStateSegment` | Ciencia_datos.py:112-113 | an all-blank third segment gives the state '', never 'Desconocido', because `split(' ')` always returns a piece |
| `Location.ThreeSegmentPlace` | Ciencia_datos.py:109-114 | for `street,city,rest` the place is (stripped city, first space-token of stripped rest) |
| `Location.ExampleAddress` | Ciencia_datos.py:107-117 | "136 Church St, San Francisco, CA 94016" yields ('San Francisco', 'CA') |
| `Category.Categorize` | Ciencia_datos.py:122-141 | the category is always one of the nine labels |
| `Category.FirstMatchIsFirstFiring` | Ciencia_datos.py:124-139 | in an if/elif chain with distinct labels, a rule's label is returned exactly when that rule fires and no earlier rule does |
| `Category.FirstMatchIsDefault` | Ciencia_datos.py:140-141 | the default is returned exactly when no rule fires |
| `Category.RulesDistinct` | Ciencia_datos.py:124-141 | the eight labels and 'Otros' are pairwise different |
| `Category.CategorizeFirstFiring` | Ciencia_datos.py:122-139 | a product gets the i-th label exactly when a keyword of the i-th group occurs in its lower-cased name and none of an earlier group does |
| `Category.CategorizeDefault` | Ciencia_datos.py:140-141 | 'Otros' is returned exactly when no keyword occurs in the lower-cased name |
| `Category.CategorizeLower` | Ciencia_datos.py:123 | lower-casing the product first does not change the category |
| `Category.KeywordBounds` | Ciencia_datos.py:124-139 | if a keyword of group i occurs, the category is that of group i or of an earlier group |
| `Category.ScreenBeatsTv` | Ciencia_datos.py:130-137 | a name containing 'screen' is never 'Televisores' |
| `Category.TvBeatsLg` | Ciencia_datos.py:136-139 | a name containing 'tv' is never 'Electrodomésticos' |
| `Category.IphoneImpliesPhone` | Ciencia_datos.py:134 | 'iphone' contains 'phone', so the second test of that arm adds nothing |
| `PriceTier.Cut` | Ciencia_datos.py:146-148 | with increasing edges, a bin exists exactly when `edges[0] < x <= edges[last]`, and the bin found is the right-closed interval holding `x` |
| `PriceTier.CutUnique` | Ciencia_datos.py:146-148 | any interval `(edges[i], edges[i+1]]` holding `x` is the one reported |
| `PriceTier.CutMonotone` | Ciencia_datos.py:146-148 | a larger value never lands in an earlier bin |
| `PriceTier.TierOf` | Ciencia_datos.py:146-148 | 'Económico' for 0<p≤20, 'Medio' for 20<p≤100, 'Premium' for 100<p≤500, 'Alta Gama' for 500<p≤1000, 'Lujo' for 1000<p≤10000, and no tier otherwise (each an if-and-only-if) |
| `PriceTier.TierMonotone` | Ciencia_datos.py:146-148 | the tier rank never decreases as the price grows |
| `PriceTier.TierRankIsBin` | Ciencia_datos.py:146-148 | the tier's position among the labels is the bin index of the price |
| `States.Lookup` | Ciencia_datos.py:166 | `.map(table).fillna(key)`: the value of the first entry with the key, and the key itself exactly when no entry has it |
| `States.StateName` | Ciencia_datos.py:153-166 | the full name from `estados_usa`, and the raw code exactly when the code is not in the table |
| `States.UnlistedPassThrough` | Ciencia_datos.py:166 | 'Desconocido' and '' map to themselves |
| `States.TableSize` | Ciencia_datos.py:153-164 | the table has 50 entries |
| `Events.FirstEvent` | Ciencia_datos.py:219-224 | the first event in declaration order whose date list contains the date wins; 'Día Normal' is returned when none does, and (if no event is called that) only then |
| `Events.Shadowed` | Ciencia_datos.py:221-223 | an event whose dates all belong to an earlier event is never returned |
| `Events.IdentifyEvent` | Ciencia_datos.py:200-224 | the label is 'Día Normal' exactly when no event lists the date, and otherwise the name of an event that lists it |
| `Events.NoEventIsNormal` | Ciencia_datos.py:200-216 | no special event is itself called 'Día Normal' |
| `Events.NewYear2020Unreachable` | Ciencia_datos.py:200-224 | 'Año Nuevo 2020' is never returned: its only date also belongs to the earlier 'Año Nuevo' |
| `Events.NewYearExamples` | Ciencia_datos.py:201 | 2019-01-01 and 2020-01-01 are both 'Año Nuevo' |
| `Events.BackToSchoolFirstDay` | Ciencia_datos.py:208 | 2019-08-15 is 'Back to School' |
| `Events.DayAfterBackToSchool` | Ciencia_datos.py:208-224 | 2019-08-20, the day after the Back to School dates, is 'Día Normal' |
| `Sales.Derive` | Ciencia_datos.py:73-166 | each enriched column of a valid row agrees with its raw columns, and the raw row can be read back from the record |
| `Sales.DeriveSource` | Ciencia_datos.py:73-166 | a well-formed record is determined by its raw row: deriving it again gives the same record |
| `Cleaning.ReadBatch` | Ciencia_datos.py:53-54 | per file, the header filter followed by `dropna` keeps exactly the rows with a present id other than 'Order ID', in order |
| `Cleaning.Ingest` | Ciencia_datos.py:48-58 | cleaning each file and concatenating equals filtering the concatenation of all files |
| `Cleaning.DeriveAll` | Ciencia_datos.py:73-166 | one well-formed record per valid row, each remembering its row |
| `Cleaning.Wrangle` | Ciencia_datos.py:67-77 | on rows with ids, the numeric and timestamp filters keep exactly the valid rows, in order, and every record is well formed |
| `Cleaning.Clean` | Ciencia_datos.py:48-77 | the cleaned table's rows are exactly the valid rows of all files, in file order, each one well formed |
| `Cleaning.CleanKeepsValidRows` | Ciencia_datos.py:53-77 | the cleaned table is an order-preserving subsequence that is never longer than the input, and it holds a row exactly when the row is valid |
| `Cleaning.InvalidRowDropped` | Ciencia_datos.py:53-77 | an extra one-row file, appended after the others, whose row is a header, lacks an id, has a non-positive or unreadable quantity or price, or lacks a timestamp changes nothing |
| `Cleaning.ValidRowAppended` | Ciencia_datos.py:53-77 | an extra one-row file with a valid row, appended after the others, appends exactly that row's record |
| `Dashboard.Apply` | Ciencia_datos.py:518-536 | successive masks keep an order-preserving subset of rows that pass every mask |
| `Dashboard.FilterData` | Ciencia_datos.py:518-536 | the filtered data is an order-preserving subsequence of the rows |
| `Dashboard.ApplySelects` | Ciencia_datos.py:518-536 | the chain of masks selects exactly the rows passing all of them |
| `Dashboard.CriteriaMeaning` | Ciencia_datos.py:520-536 | the masks applied for a choice of dropdowns all hold exactly when every non-sentinel dropdown equals the row's column and the date is within the inclusive range |
| `Dashboard.FilterSelectsMatches` | Ciencia_datos.py:518-536 | the filtered data is exactly the subsequence of rows matching every non-sentinel dropdown and the inclusive date range |
| `Dashboard.NarrowerShowsLess` | Ciencia_datos.py:520-536 | replacing sentinels by values or narrowing the date range yields a subsequence, never more rows |
| `Dashboard.ResetFilters` | Ciencia_datos.py:485-489 | no click (None or 0) changes nothing; otherwise every dropdown returns to its sentinel and the date range to the earliest and latest date in the data |
| `Dashboard.ResetShowsEverything` | Ciencia_datos.py:485-536 | after a reset, with the city on 'Todas', the filter shows every row |
| `Aggregates.SumOfConcat` | Ciencia_datos.py:544-546 | a column's sum adds up over a split of the rows |
| `Aggregates.Keys` | Ciencia_datos.py:181-183 | the group keys are distinct and are exactly the keys that occur in the rows |
| `Aggregates.Series` | Ciencia_datos.py:181-183 | `groupby(key)[col].sum()`: entry j holds the j-th distinct key of the rows, paired with the sum over the rows carrying that key |
| `Aggregates.SeriesKeys` | Ciencia_datos.py:181-183 | the series has one entry per group: its keys are pairwise distinct, every row's key appears, and no other key does |
| `Aggregates.ArgMax` | Ciencia_datos.py:181-183 | the position holds the largest sum, and no earlier position has a sum that large |
| `Aggregates.IdxMax` | Ciencia_datos.py:181-183 | `idxmax` returns a key that occurs in the rows, and no other key has a larger group sum |
| `Aggregates.NLargest` | Ciencia_datos.py:701 | `nlargest(n)` takes min(n, size) entries of the series, never increasing, and every entry it leaves out is no larger than the last one kept |
| `Aggregates.Top10` | Ciencia_datos.py:712 | min(10, number of groups) groups, largest first, drawn without repetition from the series, each paired with its own group sum, and no group left out has a larger sum than one kept |
| `Aggregates.GroupsPartitionTotal` | Ciencia_datos.py:181-183 | the group sums add up to the column's total: every row is in exactly one group |
| `Kpis.OrderIds` | Ciencia_datos.py:545 | the distinct ids are exactly those of the rows, and there are at most as many as rows |
| `Kpis.OrderCount` | Ciencia_datos.py:545 | `nunique()` is the number of distinct order ids of the rows: zero exactly when no row is shown, and never more than the row count |
| `Kpis.Ticket` | Ciencia_datos.py:547 | when there are orders, ticket × orders = revenue; when there are none, the ticket is 0 |
| `Kpis.Summarize` | Ciencia_datos.py:544-547 | the cards show the rows' total revenue, distinct orders and total units; an empty selection gives all-zero cards; otherwise ticket × orders = revenue |
| `Kpis.TotalsConcat` | Ciencia_datos.py:544-546 | revenue and units add up over a split of the rows |
| `Kpis.OrderIdsConcat` | Ciencia_datos.py:545 | the orders of a split are the union of the orders of its halves |
| `Kpis.PositiveTotals` | Ciencia_datos.py:544-546 | over cleaned rows, revenue and units are positive exactly when some row is shown |
| `Kpis.SubsetTotals` | Ciencia_datos.py:544-546 | a subsequence of cleaned rows never has more revenue or units |
| `Kpis.SubsetOrders` | Ciencia_datos.py:545 | a subsequence of rows never has more distinct orders |
| `Kpis.FilteredKpis` | Ciencia_datos.py:518-547 | under any filter, the shown revenue, units and orders are at most those of all rows, so the "% del total" shares are at most 100 |

## Left out

- Reading the CSV files. `glob`, `read_csv`, `exit()` on a missing folder and the per-file month
  label (lines 41-58) are file-system I/O. A file is modelled as the sequence of its rows.
- Parsing. The textual parsing of quantities, prices and timestamps (lines 67-68 and 76) is a
  library parser. So are `day_name()`, `isocalendar().week`, `to_period('M')` and `dayofyear`
  (lines 79-89). Their results, or their failure, are given as inputs. The year, minute, ISO
  week, year-month and day-of-year columns are not modelled, because no modelled operation
  reads them.
- Missing addresses and product names. `extraer_ubicacion` and `asignar_categoria` first apply
  `str()`, so a missing value arrives as the text 'nan'. The model takes the text as given. Its
  `except` branch is not modelled, because nothing in the string operations can raise.
- `inf`. A quantity or price that `pd.to_numeric` reads as infinity would pass the positivity
  filter. Real numbers have no infinity.
- Floating point. Sums, products and the ticket division are exact real arithmetic. Rounding
  and summation order are not modelled.
- Sales.Derive: does not model the pandas `Categorical` dtype of the tier column; a missing
  tier is `None` and compares unequal to every tier label, as NaN does in the filter.
- PyStr.Lower: covers ASCII and Latin-1 capitals only. Other Unicode case mappings of
  `str.lower`, such as Greek, Cyrillic and special cases like 'İ', are not modelled.
- Events.IdentifyEvent: compares `Date` values, not `strftime` strings. Non-date inputs, which
  go through `str(fecha)`, are not modelled.
- Aggregates.IdxMax: among keys with equal sums it returns the one that appears first in the
  data. pandas `groupby` sorts its keys, so `idxmax` returns the smallest such key in sort order.
  The contract states only that the returned group is maximal, which holds either way. The
  source calls `idxmax` with no guard, so an empty frame raises `ValueError`; the model
  instead requires at least one row and does not model the exception.
- Aggregates.Series: the entries are in first-appearance order of the keys, whereas pandas
  `groupby` sorts its keys. The contract pins keys and sums but not pandas' sorted order.
- Aggregates.NLargest: among equal sums it keeps series order, and the series is in
  first-appearance order rather than pandas' sorted key order. Only the ordering and the
  "nothing larger left out" properties are stated.
- Dashboard.ResetFilters: `ciudad` is not one of its outputs. The city dropdown is set to
  'Todas' by `update_ciudades` when the state changes, so `ResetShowsEverything` takes the
  city value as a parameter.
- The date picker bounds arrive as strings and pass through `pd.to_datetime(...).date()`.
  They are given as `Date` values.
- The remaining uses of the filtered data: the subtitle and active-city count (line 539), the
  formatting of the KPI cards, and growth and variation percentages (lines 188-192, 590-596,
  726-739, 805-812). Charts, rolling means and heatmaps (lines 639-720), the layout and
  `update_ciudades` (lines 229-483), threading and the browser launch (lines 857-876) are also
  left out. All of these are presentation or UI.
- `analisis_ventas.py` is not part of this model.
- Two behaviours are modelled as the code has them. Line 113 reads as if an empty state
  segment gave 'Desconocido', but the test there is always true, so an empty state is `''`
  (`BlankStateSegment`). 'Año Nuevo 2020' can never be returned (`NewYear2020Unreachable`).
