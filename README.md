# Hungarian 1 % donation dashboard — a Dafny model of its core

The dashboard loads one JSON file per year (2023, 2024, 2025) of disclosed
donation records. Each record has a name `n`, a tax number `a`, an address
`c`, an offered amount `o` and a donor count `f`. The dashboard shows:

- statistics cards and a table for each year;
- a combined table that joins the years by tax number;
- five analytical views that join the years by company name: top revenue,
  top 100, shared locations, "special" companies and single-donor companies;
- a virtual table that filters, sorts and windows very large row sets.

This project models that core and proves what the code promises about it.

The modules follow the program:

- `Common` holds the shared pieces: `Option`, `Math.round`, counting, and
  sorting by a comparator. Sorting is an in-place insertion sort on an
  array, proved ordered, a permutation and stable, as
  `Array.prototype.sort` is.
- `Records` is the input data and the per-company yearly `{o, f}` slots.
- `Aggregation` is the merge loop every view starts from. It is written as
  the nested imperative loops (`Aggregate`, `AddYear`) and proved equal to
  a fold (`Merge`). The key is a parameter: the company name or the tax
  number.
- `Analytics` covers `window.analyticsManager` with its five views. Each view
  is a loop proved against a specification of the rows: which companies,
  which figures, which order. The manager is a class whose fields are the
  stored views.
- `Dashboard` covers `DashboardManager`:
  - the year cards and the in-place sort of `adatok`;
  - `updateCombinedData`;
  - the tab-swipe index arithmetic.
- `Utils` covers `window.dashboardUtils`: tax-number formatting, the two
  bounded memo caches, the percentage and yearly-income figures, and the
  cache cleanup.
- `VirtualTables` covers the `VirtualTable` class: search, header sort,
  scroll window and data replacement.
- `Charts` covers the 25-colour palette and `getColor`.

Where the views' behaviour may surprise a reader, the model follows the code:

- The locations view is ordered by the number of companies.
- The "special" view keeps companies with between one and four donors and
  more than 1,000,000 in some year.
- The top-revenue view is left in the order the companies were first met,
  unsorted.
- The combined table keys records by tax number. In the model, all records
  without one fall into a single entry, named after the first such record;
  the code makes two such entries (see "## Left out").

## Model

| member | source | states |
|---|---|---|
| Common.InsertionSort | virtual-table.js:118-127 | sorting in place yields an array ordered by the comparator that is a permutation of the input, and stable: each position is traced to the input position it came from, and equal elements keep their input order |
| Common.SortSeq | analytics.js:204 | a sorted copy is ordered by the comparator, has the same elements with the same multiplicities, and keeps equal elements in their input order (`Array.prototype.sort` is stable) |
| Common.Round | utils.js:42 | `Math.round`: the result is within half a unit of its argument, halves rounding up |
| Common.Count | main.js:118 | `filter(...).length`: at most the length of the list, and 0 exactly when no element passes |
| Common.CountPermutation | main.js:118 | the number of records passing a filter does not depend on their order |
| Records.AllRecordsYear | main.js:245-247 | a record is visited exactly when it belongs to one of the loaded years |
| Records.RecordsTotalAppend | main.js:112-113 | the `_.sumBy` totals of two runs of records add up |
| Records.RecordsTotalPermutation | main.js:112-113 | the amount and donor totals do not depend on the order of the records, so sorting `adatok` does not change them |
| Records.Company.Add | main.js:259-260 | adding a record raises only that year's slot, by the record's amount and donors, and keeps name, tax number and address |
| Records.RecordSumAbsent | main.js:249-259 | a key no record carries has zero amount and zero donors |
| Aggregation.MergeOrder | main.js:249-257 | every key is inserted once, and the insertion order lists exactly the keys of the dictionary |
| Aggregation.MergeKeys | main.js:249-257 | a key has an entry exactly when some visited record carries it |
| Aggregation.MergeFirst | main.js:249-256 | an entry's name, tax number and address are those of the first record carrying its key |
| Aggregation.MergeSlot | main.js:259-260 | an entry's slot for a year is the sum of that year's records carrying its key |
| Aggregation.AddEntryFields | main.js:249-260 | one step of the merge creates a new key's entry from the record it meets, and never changes the name, tax number or address of an existing entry |
| Aggregation.MergeFirstMet | main.js:249-264 | `Object.values` lists the keys in the order their first records were visited, and lists exactly the keys that occur |
| Aggregation.MergeCorrect | main.js:245-261 | the whole merge of the loaded years has all of the four properties above |
| Aggregation.AddYear | main.js:248-260 | the inner loop over one year's records extends the merge by exactly those records |
| Aggregation.Aggregate | main.js:245-261 | the nested loops over the years present and their records build the merge and satisfy the merge's specification |
| Aggregation.MergeTotals | main.js:245-261 | for each year, the slots summed over all entries equal that year's record totals: nothing is lost or counted twice |
| Aggregation.AggregateTotals | main.js:245-261 | the same conservation for the merge of the loaded years |
| Analytics.NameMerge | analytics.js:15-32 | keyed by name, the merge has one entry per name that occurs, each carrying its own name and its per-year sums |
| Analytics.CompaniesByName | analytics.js:15-32 | `Object.values` of the name-keyed merge lists each occurring name once, each entry the merge of that name's records |
| Analytics.NameCompaniesOrder | analytics.js:15-32 | the merged companies come in the order their names were first met among the loaded records, year after year, each name once |
| Analytics.MonthlyPerCapita | analytics.js:39-43 | the monthly estimate per donor times 0.018 f gives back o; it is 0 without donors and never negative |
| Analytics.MonthlyThreshold | analytics.js:39-45 | the monthly estimate exceeds 3,000,000 exactly when o exceeds 54,000 per donor |
| Analytics.FractionChange | analytics.js:50-51 | the change times the earlier amount is the difference; from zero it is 1 for growth and 0 otherwise; it is positive or negative exactly when the amount grew or fell |
| Analytics.ChangeClassAgrees | analytics.js:449-460 | the percentage column and the amount column get the same class, positive exactly for growth and negative exactly for decline, with a `+` exactly for growth |
| Analytics.HasHighIncome | analytics.js:37-47 | the `qualifies` loop holds exactly when some year has donors and more than 54,000 per donor |
| Analytics.TopRevenueRowOf | analytics.js:50-79 | a top-revenue row carries its company's amounts, donors, two yearly changes, monthly estimates and three-year total |
| Analytics.TopRevenue | analytics.js:12-81 | one row per high-income company, each with its own figures, in the order the company names were first met (the view is not sorted) |
| Analytics.HasFewDonorsLargeAmount | analytics.js:181-186 | the `qualifies` loop holds exactly when some year has 1 to 4 donors and more than 1,000,000 |
| Analytics.SpecialFilter | analytics.js:179-201 | the filter loop pushes the row of each qualifying company, with its own figures, exactly once, in the order of `Object.values` |
| Analytics.SpecialSorted | analytics.js:204 | sorting the special rows keeps them and orders them by three-year total, largest first |
| Analytics.Special | analytics.js:159-204 | one row per qualifying company, with its own figures, largest three-year total first; the rows are the stable sort of the qualifying companies' rows taken in first-met order, so ties keep that order |
| Analytics.SingleDonorStep | analytics.js:234-245 | one turn of the filter adds a row exactly for a company with one donor and more than 50,000 in 2025 |
| Analytics.SingleDonorFilter | analytics.js:233-246 | the filter loop pushes the row of each company with one 2025 donor and more than 50,000 in 2025, exactly once, in the order of `Object.values` |
| Analytics.SingleDonorSorted | analytics.js:249 | sorting the single-donor rows keeps them and orders them by 2025 amount, largest first |
| Analytics.SingleDonor | analytics.js:213-249 | one row per company with exactly one 2025 donor and more than 50,000 in 2025, largest 2025 amount first; the rows are the stable sort of those companies' rows taken in first-met order, so ties keep that order |
| Analytics.Top100LeftOut | analytics.js:110-112 | a company cut off by the top 100 has a 2025 amount no larger than any listed one |
| Analytics.Top100Correct | analytics.js:110-122 | whatever order the sort gives to ties: the rows are min(100, companies) distinct companies with their own amounts and differences, largest 2025 amount first, and none left out is larger |
| Analytics.Top100 | analytics.js:91-122 | the top-100 rows meet the top-100 specification, and are the first hundred of the stable sort of the companies in first-met order |
| Analytics.GroupCorrect | analytics.js:131-141 | each location (`Ismeretlen` for a missing address) is listed once, with each distinct company name found there listed once |
| Analytics.LocationOf | analytics.js:134 | a record's location is never empty: `Ismeretlen` stands for a missing or empty address |
| Analytics.GroupAdd | analytics.js:134-138 | adding one record puts its name under its location, creating the location if it is new, and keeps each name once |
| Analytics.GroupOrderCorrect | analytics.js:131-141 | the locations are listed in the order their first records were visited, and at each location the names in the order their first records there were visited (`Set` insertion order) |
| Analytics.GroupYear | analytics.js:133-139 | the loop over one year's records extends the grouping by exactly those records |
| Analytics.GroupLocations | analytics.js:129-141 | the nested loops build the grouping of all loaded records |
| Analytics.LocationsStep | analytics.js:145-149 | one turn keeps a location exactly when it has at least two companies, with their count and their names joined in first-met order |
| Analytics.LocationRowOfGroup | analytics.js:145-147 | the row built for a location counts its distinct names and joins them in the order they were first met there |
| Analytics.LocationsFilter | analytics.js:144-149 | the `Object.entries` loop pushes one row per location with at least two names, in the order the locations were first met |
| Analytics.LocationsSorted | analytics.js:152 | sorting the location rows keeps them and orders them by company count, largest first |
| Analytics.LocationsView | analytics.js:128-152 | one row per location shared by at least two company names, with their number and their names in first-met order, largest count first; the rows are the stable sort of those rows in first-met location order |
| Analytics.AnalyticsManager.constructor | analytics.js:2-7 | every stored view starts empty |
| Analytics.AnalyticsManager.ProcessTopRevenue | analytics.js:9-86 | without all three years, no rows and the stored views unchanged; otherwise the top-revenue rows, in first-met order, stored; the other views unchanged |
| Analytics.AnalyticsManager.ProcessTop100 | analytics.js:88-126 | without 2025, no rows and nothing changed; otherwise the top-100 rows, cut from a stable sort, stored |
| Analytics.AnalyticsManager.ProcessLocations | analytics.js:128-156 | the locations rows, stably sorted, stored; the other views unchanged |
| Analytics.AnalyticsManager.ProcessSpecial | analytics.js:158-208 | the special rows, stably sorted, stored; the other views unchanged |
| Analytics.AnalyticsManager.ProcessSingleDonor | analytics.js:210-253 | without 2025, no rows and nothing changed; otherwise the single-donor rows, stably sorted, stored |
| Analytics.AnalyticsManager.UpdateAnalyticsView | analytics.js:255-261 | every view is recomputed with its rows and their order; a view whose years are missing keeps its rows |
| Dashboard.AvgPerPerson | main.js:114 | 0 without donors; otherwise within half a unit of o / f |
| Dashboard.AvgYearlyIncome | main.js:115 | 0 without donors; otherwise within half a unit of (o / f) · 2000 / 3 |
| Dashboard.AvgYearlyIncomeAgrees | main.js:203-205 | the cards' `/ 0.0015` and the tables' `* 100 / 0.15` give the same figure |
| Dashboard.SingleRecordYear | main.js:112-124 | with one record, the year cards show that record's own table figures and its amount as the top-ten revenue |
| Dashboard.StatsBounds | main.js:112-124 | companies above one million are at most all companies and each adds more than a million to the total; the top-ten revenue is at most the total, and equal to it with ten records or fewer |
| Dashboard.Above1MShare | main.js:118 | the amount total is at least 1,000,001 per record above one million |
| Dashboard.NonIncreasingUnique | main.js:121-122 | two non-increasing orderings of the same amounts are equal |
| Dashboard.SortedAmounts | main.js:121-122 | any two orderings of the same records by amount, largest first, list the same amounts |
| Dashboard.SortedStatsAgree | main.js:112-124 | the year cards do not depend on how the sort breaks ties |
| Dashboard.CombinedCompaniesCorrect | main.js:243-264 | the combined table has one entry per tax number that occurs (the missing one once), each summing that tax number's records per year, named after its first record |
| Dashboard.TaxMerge | main.js:249-251 | keyed by tax number, the keys are exactly the tax numbers that occur, and each entry carries its own |
| Dashboard.TaxValues | main.js:264 | `Object.values` of the tax-keyed merge lists one entry per tax number, in insertion order, each summing that tax number's records |
| Dashboard.CompaniesTotalByYear | main.js:287-288 | the three-year totals summed over companies are the three yearly totals added up |
| Dashboard.CombinedConserves | main.js:245-288 | the combined totals are the totals of all loaded records, and the sums of the yearly cards' totals |
| Dashboard.CombinedStatsBounds | main.js:286-297 | companies above one million and growing companies are among all companies; each one above one million adds more than a million |
| Dashboard.Above1MTotalShare | main.js:293-294 | the three-year total is at least 1,000,001 per company above one million |
| Dashboard.RemoveFirst | main.js:507 | a string without `#` is unchanged; otherwise the result is the string without its first `#`, everything before and after it kept |
| Dashboard.IndexOf | main.js:507-508 | -1 exactly when the tab is absent; otherwise the first position holding it |
| Dashboard.SwipeTarget | main.js:499-516 | a movement of at most 50 switches nothing; any switch is to one of the five tabs |
| Dashboard.TabsPlain | main.js:503 | the five tab names are distinct and hold no `#` |
| Dashboard.SwipeSteps | main.js:511-515 | a swipe left from tab i goes to tab i+1 and a swipe right to tab i-1, cyclically |
| Dashboard.SwipeRoundTrip | main.js:511-515 | a swipe left followed by a swipe right returns to the starting tab, and the other way round |
| Dashboard.DashboardManager.constructor | main.js:2-9 | nothing is loaded at the start |
| Dashboard.DashboardManager.StoreYear | main.js:46-47 | the parsed file is stored under its year, and the year is added to the loaded ones |
| Dashboard.DashboardManager.ProcessYearData | main.js:107-124 | nothing for a missing file or list; otherwise the stored list is stably sorted by amount, largest first (a permutation of itself, ties in their file order), and the cards are those of the list, with its count and its `o`/`f` totals |
| Dashboard.DashboardManager.UpdateCombinedData | main.js:240-297 | nothing before a year is loaded; otherwise the combined rows and cards, with one company per tax number and the totals of all loaded records |
| Utils.Digits | utils.js:56 | only digits are kept, never more characters than the input; a single character is kept exactly when it is a digit |
| Utils.DigitsKept | utils.js:56 | the result holds exactly the digits that occur in the input |
| Utils.DigitsAppend | utils.js:56 | the digits of a concatenation are the concatenated digits |
| Utils.TaxFormatEleven | utils.js:59-60 | eleven digits become 13 characters with dashes after the 8th and 9th digit, and keep the same digits |
| Utils.RegroupedDigits | utils.js:60 | regrouping eleven digits with two dashes keeps the digits, in order |
| Utils.TaxFormatOther | utils.js:61-62 | any other tax number is shown as it is |
| Utils.TaxFormatIdempotent | utils.js:56-63 | formatting a formatted tax number changes nothing |
| Utils.PercentChange | utils.js:40-43 | from zero, 100 for growth and 0 otherwise; else within half a percent of the exact change |
| Utils.YearlyIncome | utils.js:35-38 | 0 without people |
| Utils.YearlyIncomeForms | utils.js:35-38 | `x * 100 / 0.15` is `x / 0.0015`, and the result is within half a unit of x · 2000 / 3 |
| Utils.DashboardUtils.constructor | utils.js:2-13 | both caches start empty and consistent |
| Utils.DashboardUtils.FormatHungarianNumber | utils.js:15-29 | the result is the formatter's; a new result is cached while the cache has fewer than 10,000 entries; every cached value stays correct |
| Utils.DashboardUtils.FormatTaxNumberCached | utils.js:48-71 | the result is the uncached formatting (empty for a missing or empty tax number); a new one is cached only while there is room; the cache stays correct and bounded |
| Utils.DashboardUtils.Cleanup | utils.js:220-224 | both caches are emptied |
| VirtualTables.LowerIdempotent | virtual-table.js:93 | lower-casing twice is lower-casing once |
| VirtualTables.Contains | virtual-table.js:101 | a term found is never longer than the text |
| VirtualTables.ContainsMeans | virtual-table.js:101 | `includes` holds exactly when the term occurs at some position |
| VirtualTables.Filter | virtual-table.js:98-103 | the kept rows are exactly the rows of the data in which some column matches |
| VirtualTables.FilterSubsequence | virtual-table.js:98-103 | the search keeps the order of the rows it keeps |
| VirtualTables.FilterIdempotent | virtual-table.js:98-103 | searching the found rows again for the same term finds them all |
| VirtualTables.FilterAppend | virtual-table.js:98-103 | searching two runs of rows is searching each |
| VirtualTables.FalsyRowNeverMatches | virtual-table.js:101 | a row whose cells are all falsy is never found |
| VirtualTables.StrLessIrreflexive | virtual-table.js:123-124 | no string is smaller than itself |
| VirtualTables.StrLessTransitive | virtual-table.js:123-124 | string comparison is transitive |
| VirtualTables.StrLessTotal | virtual-table.js:123-124 | of two different strings one is smaller |
| VirtualTables.CellLessOrder | virtual-table.js:123-124 | the cell order is irreflexive, transitive and total |
| VirtualTables.RowOrderTotal | virtual-table.js:118-127 | the comparator on a column, in either direction, is a total preorder, so the sort is well defined |
| VirtualTables.SortToggle | virtual-table.js:111-116 | a click selects the column; another column starts ascending; two clicks on the sorted column restore the state |
| VirtualTables.FirstVisible | virtual-table.js:151 | the row index is the floor of scrollTop / rowHeight |
| VirtualTables.WindowCovers | virtual-table.js:151-158 | every row on screen is rendered, and never more than a screen and three buffers |
| VirtualTables.VirtualTable.constructor | virtual-table.js:3-24 | options default to 35, 20, 5 and 300; the table starts unfiltered, unsorted, at the top, and rendered |
| VirtualTables.VirtualTable.Render | virtual-table.js:149-160 | the window is the one for the current scroll position, and the visible rows are that slice |
| VirtualTables.VirtualTable.VisibleRange | virtual-table.js:196-200 | after a render, the 1-based range shown counts exactly the rendered rows |
| VirtualTables.VirtualTable.HandleScroll | virtual-table.js:143-147 | the new position is stored and rendered |
| VirtualTables.VirtualTable.Search | virtual-table.js:92-108 | the term is stored lower-cased; an empty term shows all rows, another the matching ones in order; then it renders |
| VirtualTables.VirtualTable.Sort | virtual-table.js:110-131 | the header state toggles, and the filtered rows become a permutation of themselves ordered by the column and direction, equal rows keeping their previous order |
| VirtualTables.VirtualTable.SetData | virtual-table.js:203-208 | the new rows become both the data and the shown rows |
| VirtualTables.VirtualTable.Refresh | virtual-table.js:210-212 | the window is rendered again |
| Charts.TruncRem | charts.js:12 | the JavaScript remainder: below 25 in size, the sign of the dividend, differing from it by a multiple of 25 |
| Charts.GetColor | charts.js:11-13 | any colour is from the palette; there is one exactly for a non-negative index or a multiple of 25 |
| Charts.GetColorFirst | charts.js:11-13 | series 0 to 24 get the palette in order |
| Charts.GetColorDistinct | charts.js:3-13 | no two of the first 25 series share a colour |
| Charts.PaletteDistinct | charts.js:3-9 | the palette holds 25 different colours |
| Charts.GetColorPeriodic | charts.js:11-13 | colours repeat every 25 series |

## Left out

- DOM, jQuery, DataTables, Chart.js, HTML strings, `toLocaleString` and
  `toFixed`: rendering is not modelled. Locale number formatting is the
  uninterpreted `formatter` of `DashboardUtils`.
- Fetching files, timers, the progress bar, local storage (`storage.js`),
  CSV export, debounce and throttle, and `formatHungarianCurrency` are not
  part of this model.
- Concurrency between loads, and the `loadPromises` deduplication, are not
  modelled.
- JavaScript object-key ordering puts integer-like keys first. The merges
  and the location grouping model plain insertion order; a name, a tax
  number or an address that looks like an integer (a bare postcode such as
  "1051") would be listed earlier by the browser, and `Object.entries` of
  the locations would visit it first.
- The record field `i` (row number) is not modelled; the tables copy it
  unchanged.
- Amounts and donor counts are natural numbers. Fractional or negative
  amounts, `NaN` and floating-point rounding are not modelled; `/` is
  exact real division.
- Dashboard.CombinedCompaniesCorrect: a null tax number and an absent one
  are one key (`None`) in the model. The code indexes `companies[d.a]`, so
  they become the two string keys `"null"` and `"undefined"`: two entries,
  each shown with an empty tax number. A real tax number equal to the
  string "null" or "undefined" would share those keys. Neither the split
  nor the collision is modelled.
- VirtualTables.CellLessOrder: cells are strings, integers or missing.
  Between cells of different kinds (a number against a string, anything
  against `undefined`), JavaScript's `<` and `>` coerce or answer false.
  The comparator is then not consistent and the browser's order is
  unspecified. The model orders cells of different kinds by kind instead.
- VirtualTables.LowerIdempotent: lower-casing covers A to Z only; other
  letters are kept.
- VirtualTables.StrLessTransitive: strings are sequences of Unicode
  characters compared by code point. JavaScript compares UTF-16 code
  units, which orders characters outside the Basic Multilingual Plane
  differently; that difference is not modelled.
- A record's name is always present. The tables show a missing `n` as the
  empty string, and the name-keyed merges would key it as `"undefined"`;
  neither is modelled. Object keys such as `__proto__`, which a plain
  JavaScript object treats specially, are not modelled either.
- VirtualTables.CellString: numbers are shown as their decimal digits;
  non-integer numbers are not modelled.
- VirtualTables.VirtualTable.constructor: a `rowHeight` option of 0 (a
  division by zero in `render`) is excluded by its precondition. An option
  passed explicitly as `undefined` replaces the default in the code's
  object spread; in the model `None` always means the default.
- VirtualTables.VirtualTable.HandleScroll: the scroll position is a
  parameter, not read from the DOM.
- Dashboard.SwipeTarget: the touch coordinates and the active tab's
  `data-bs-target` are parameters; showing the tab is not modelled.
- Analytics.Top100: the top-100 view sums only `o` in the source; the
  model reuses the `{o, f}` merge and ignores `f`.
