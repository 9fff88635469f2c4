# Sales dashboard core, modelled in Dafny

This project models the data core of a sales dashboard that reads a
spreadsheet of sales and shows figures about it. It covers three parts:

- **Cleaning** (`cleanData` and its helpers `extrairMes` and
  `normalizarCategoria`): raw spreadsheet rows become `Sale` records. A row
  needs a category, a product and a revenue cell. A listed spelling of a
  category is mapped to one of three canonical names; any other category
  passes through trimmed and upper-cased. The month code is read from a month
  name or from a date. A Brazilian currency amount such as `R$ 1.234,56` is parsed.
- **Aggregation** (`processData` and the `calculate*` functions): totals, the
  average ticket, revenue per category with its percentage share, revenue and
  quantity per month in calendar order, the ten products with the most
  revenue, and the lists of categories and months offered by the filters.
- **Views**: the `Dashboard` component's category and month filters, and the
  `DataTable` component, which sorts by a clicked column, searches five text
  fields and splits the rows into pages.

Modules, in dependency order:

- `Wrappers`: `Option`.
- `JsText`: JavaScript's `trim`, `toLowerCase`/`toUpperCase`, `includes`,
  `replace` and code-point string order.
- `JsNumber`: decimal `parseInt` and `parseFloat`.
- `Lists`: `filter`, `map`, `slice`, sums and distinctness.
- `Assoc`: association lists. They stand for an object literal's own entries
  and for a `Map`, whose keys keep the order in which they were first set.
- `StableSort`: `Array.prototype.sort` with a one-key comparator. The sort is
  stable, as ECMAScript 2019 requires.
- `Months`, `Categories`, `Sales`: cleaning.
- `Aggregation`: `processData`.
- `DashboardView` and `DataTableView`: the two components, as classes that
  hold their React state in fields.

Each `forEach` loop that fills a `Map` is a method with a loop invariant. The
method is proved equal to a declarative grouping: one entry per key, in order
of first occurrence, holding the sum over that key's rows. Lemmas then prove
what the dashboard promises about that grouping: the parts add up to the
total, months come in calendar order, the ranking is a stable sort, and only
the top of the ranking is kept.

Three behaviours of the code are worth knowing:

- The month filter at the end of `cleanData` can drop a row that passed the
  first filter; see the first finding. Only `Sales.CleanDataAsWritten` keeps
  this behaviour. `Sales.CleanData` is the corrected cleaning, and
  `Sales.CleanDataKeepsCandidates` proves that its month filter drops nothing.
- A quantity can be negative, and the model keeps this: `parseInt` accepts a
  leading minus, so `-3` stays `-3` (`JsNumber.ParseIntOfNegative`).
- A product name can be empty, and the model keeps this: a cell of spaces is
  truthy, passes the first filter, and trims to an empty name
  (`Sales.BlankProductKept`).

## Model

| member | source | states |
|---|---|---|
| Months.MonthCodesDistinct | src/utils.ts:12-15 | The twelve month codes are pairwise distinct. |
| Months.MonthNamesAreCodes | src/utils.ts:75-88 | Every value in the month-name table is one of the twelve codes. |
| Months.MonthNumbered | src/utils.ts:106 | Month n in 1..12 is the n-th code; any other number gives the fallback `Jan`; the result is always a code. |
| Months.ExtractMonth | src/utils.ts:73-110 | The extracted month is always one of the twelve codes, and an empty input gives `Jan`. |
| Months.DateMonth | src/utils.ts:93-109 | The date branch always yields a month code. |
| Months.ExtractMonthOfName | src/utils.ts:90-92 | A text whose trimmed, lower-cased form is in the name table yields that entry's code. |
| Months.ExtractMonthOfMarch | src/utils.ts:78 | `março`, `march` and `mar`, in any case and with any padding, yield `Mar`. |
| Months.DateMonthGroup | src/utils.ts:93 | The month group of a date match has one or two digits. |
| Months.ExtractMonthDayFirst | src/utils.ts:93-106 | When the first date in the trimmed, lower-cased text is a `D/M/YYYY` date at any index, with no date of either shape starting earlier, the month is numbered by its M group, whatever follows. |
| Months.ExtractMonthYearFirst | src/utils.ts:93-106 | When the first date in the trimmed, lower-cased text is a `YYYY-M-D` date at any index, with no date of either shape starting earlier, the month is numbered by its M group, whatever follows. |
| Months.ExtractMonthDayFirstAtStart | src/utils.ts:93-106 | A raw text that starts with a `D/M/YYYY` date, whatever follows, yields the month numbered by its M group. |
| Months.ExtractMonthYearFirstAtStart | src/utils.ts:93-106 | A raw text that starts with a `YYYY-M-D` date, whatever follows, yields the month numbered by its M group. |
| Months.ExtractMonthDayFirstMarch | src/utils.ts:93-106 | A text starting `DD/03/YYYY` yields `Mar`. |
| Months.ExtractMonthYearFirstMarch | src/utils.ts:93-106 | A text starting `YYYY-03-DD` yields `Mar`. |
| Months.ExtractMonthThirteen | src/utils.ts:106 | A date with month group `13` falls back to `Jan`. |
| Months.ExtractMonthZero | src/utils.ts:106 | A date with month group `0` falls back to `Jan`. |
| Months.ExtractMonthWithoutDigits | src/utils.ts:93-109 | A text with no digits that is not a month name yields `Jan`. |
| Months.DateShapeExamples | src/utils.ts:93 | `15/03/2024`, `2024-03-15`, `2024-13-01` and `1/0/2024` match the date pattern, and each month group is as written. |
| Months.ExtractMonthAsWritten | src/utils.ts:73-110 | As written, an empty text gives `Jan`, a string result is always a month code, and any other result is the inherited member `constructor` or `__proto__`. |
| Months.ExtractMonthAsWrittenAgrees | src/utils.ts:73-110 | Apart from the inherited names `constructor` and `__proto__`, the code as written returns what the corrected `ExtractMonth` returns. |
| Months.ExtractMonthAsWrittenInherited | src/utils.ts:91-92 | As written, a text that normalises to an inherited name returns that inherited member, not a string. |
| Months.InheritedNamesMissing | src/utils.ts:75-88 | The table's own entries do not include `constructor` or `__proto__`. |
| Categories.NormalizeCategory | src/utils.ts:112-124 | The result is one of the three canonical categories, or the trimmed, upper-cased input. |
| Categories.CategoryValuesCanonical | src/utils.ts:114-122 | Every value in the synonym table is canonical. |
| Categories.CanonicalFixed | src/utils.ts:112-124 | A canonical category normalises to itself. |
| Categories.NormalizeCategoryIdempotent | src/utils.ts:112-124 | Normalising twice is the same as normalising once. |
| Categories.NormalizeCategoryUnlisted | src/utils.ts:123 | A key missing from the table passes through as the trimmed, upper-cased input. |
| Categories.NormalizeServices | src/utils.ts:117-119 | `SERVIÇO`, `SERVIÇOS` and `SERVICOS` all normalise to `SERVICOS`. |
| Categories.CategoryKeyIdempotent | src/utils.ts:113 | Trimming and upper-casing twice is the same as doing it once. |
| Sales.CleanData | src/utils.ts:55-71 | Cleaning never yields more sales than rows, and every sale has a month code. |
| Sales.ToSale | src/utils.ts:58-68 | Every mapped sale has a month code and a category that is canonical or the trimmed, upper-cased cell. |
| Sales.CleanDataKeepsCandidates | src/utils.ts:55-71 | The corrected cleaning yields exactly one sale per row that passes the first filter, in order, and every sale has a month code, so the last filter rejects nothing. |
| Sales.SaleFields | src/utils.ts:58-68 | A cleaned sale's category is canonical or the trimmed, upper-cased cell; its product is the trimmed cell; its month is a code. |
| Sales.BlankProductKept | src/utils.ts:57-64 | A product cell of white space only passes the first filter and yields an empty product name. |
| Sales.CleanDataAppend | src/utils.ts:55-71 | Rows are cleaned independently: cleaning a concatenation concatenates the results. |
| Sales.SaleDate | src/utils.ts:61 | A non-empty `Data` cell is kept as is; otherwise the date is today's. |
| Sales.EmptyDataIgnoresMes | src/utils.ts:59-61 | An empty `Data` cell is not nullish, so `Mes` is never read: the month is `Jan` and the date is today's. |
| Sales.ParseQuantity | src/utils.ts:65 | A quantity is negative only when its text, after leading white space, starts with a minus. |
| Sales.SaleQuantity | src/utils.ts:65 | A quantity cell of digits is read as its decimal value; a missing cell gives 0. |
| Sales.UndefinedIsNaN | src/utils.ts:65 | `parseInt("undefined")` is NaN, which is why a missing quantity becomes 0. |
| Sales.ParseRevenue | src/utils.ts:66 | A revenue is negative only when its rewritten text, after leading white space, starts with a minus. |
| Sales.RevenueTextOfAmount | src/utils.ts:66 | For `R$`, any white space, digits with points, `,` and cents, the rewritten text is the white space, the digits without points, `.` and the cents. |
| Sales.RevenueOfBrazilianAmount | src/utils.ts:66 | Such an amount, `R$ 1.234,56` for one, parses to the whole part without points plus the cents over a power of ten. |
| Sales.RevenueOfPointedDigits | src/utils.ts:66 | Digits and points without a comma parse to the digits with the points removed, so `100.5` gives 1005. |
| Sales.CleanDataAsWritten | src/utils.ts:55-71 | The code as written never keeps more sales than the corrected cleaning. |
| Sales.CleanDataAsWrittenAgrees | src/utils.ts:55-71 | When no row's month source normalises to an inherited name, cleaning as written equals the corrected cleaning. |
| Sales.InheritedMonthRejected | src/utils.ts:70 | As written, a row whose month source normalises to an inherited name fails the month filter. |
| Sales.ConstructorRowDropped | src/utils.ts:55-71 | A valid row dated `Constructor` is kept by the corrected cleaning but dropped by the code as written. |
| JsNumber.ParseInt | src/utils.ts:65 | `parseInt` gives a negative number only after a leading minus. |
| JsNumber.ParseFloat | src/utils.ts:66 | `parseFloat` gives a negative number only after a leading minus. |
| JsNumber.ParseFloatOfDigits | src/utils.ts:66 | `parseFloat` of digits alone is their value. |
| JsNumber.ParseIntOfDigits | src/utils.ts:65 | `parseInt` of digits followed by a non-digit is the value of those digits. |
| JsNumber.ParseIntOfNegative | src/utils.ts:65 | `parseInt` accepts a leading minus, so a quantity can be negative. |
| JsNumber.ParseFloatOfDecimal | src/utils.ts:66 | `parseFloat` of `w.f` is w plus f over 10 to the length of f. |
| JsNumber.ParseWithoutDigits | src/utils.ts:65-66 | A text without digits parses to NaN, for both integers and decimals. |
| JsText.Trim | src/utils.ts:64 | `trim` keeps one contiguous segment, removes only white space, and leaves no white space at either end. |
| JsText.TrimUnique | src/utils.ts:64 | That segment is unique: any segment with only white space around it and none at its ends is the trimmed text. |
| Assoc.SetEffect | src/utils.ts:162 | `map.set` keeps the keys unique, appends a new key at the end, gives the key its new value and changes no other key. |
| StableSort.SortByCorrect | src/utils.ts:173 | The sort returns a permutation of its input, ordered by the comparator, and elements with equal keys keep their input order. |
| StableSort.SortBySum | src/utils.ts:173 | Sorting keeps every sum over the elements. |
| Lists.SliceTo | src/utils.ts:228 | `slice(0, limit)` keeps the first `min(limit, n)` elements, or for a negative limit all but the last `-limit`. |
| Aggregation.SumByKey | src/utils.ts:158-163 | The `forEach` loop builds a map with one entry per key, in order of first occurrence, each holding that key's sum. |
| Aggregation.GroupedStep | src/utils.ts:160-163 | One turn of the loop, `set(k, (get(k) or 0) + m(row))`, turns the grouping of a prefix into the grouping of the longer prefix. |
| Aggregation.GroupedRead | src/utils.ts:161 | Reading the map at a key gives that key's sum; a key no row carries reads as missing, that is 0. |
| Aggregation.GroupedTotal | src/utils.ts:165 | The map's values add up to the sum over all rows. |
| Aggregation.CalculateMetrics | src/utils.ts:143-155 | The order count is the number of rows; the average ticket times the count is the revenue; with no rows every metric is 0. |
| Aggregation.MetricsByGroup | src/utils.ts:144-147 | Total revenue and total quantity equal the sums of the per-group totals, whatever the grouping key. |
| Aggregation.Round | src/utils.ts:171 | `Math.round(x)` lies within one half of x, rounding halves up. |
| Aggregation.PercentualBounds | src/utils.ts:171 | The share is the exact percentage to within 0.05, lies in 0..100 for a part of a positive total, and is 0 when the total is not positive. |
| Aggregation.CalculateSalesByCategory | src/utils.ts:157-174 | The method's grouping, shares and sort equal the declarative category breakdown. |
| Aggregation.SalesByCategoryEntries | src/utils.ts:167-172 | Every category of the rows appears exactly once, with its revenue and its share of the total. |
| Aggregation.SalesByCategoryOrder | src/utils.ts:173 | Categories are sorted by revenue, largest first; categories with equal revenue keep their order of first occurrence. |
| Aggregation.SalesByCategoryTotal | src/utils.ts:165-173 | The category revenues add up to the total revenue. |
| Aggregation.SalesByCategoryShareSum | src/utils.ts:165-173 | With a positive revenue total the shares add up to 100 within 0.05 per category; otherwise they add up to 0. |
| Aggregation.GetUniqueMonths | src/utils.ts:235-238 | At most 12 months are listed, each a month code. |
| Aggregation.UniqueMonthsCorrect | src/utils.ts:235-238 | The months listed are exactly the codes some row carries, each once, in calendar order, at most 12. |
| Aggregation.GroupedMonths | src/utils.ts:182-183 | Filtering the codes by `grouped.has` gives the same list as `getUniqueMonths`. |
| Aggregation.CalculateSalesByMonth | src/utils.ts:176-185 | The method equals the declarative monthly revenue list. |
| Aggregation.CalculateQuantityByMonth | src/utils.ts:187-196 | The method equals the declarative monthly quantity list. |
| Aggregation.MonthlyTotal | src/utils.ts:176-196 | When every row has a month code, the monthly sums add up to the sum over all rows. |
| Aggregation.SalesByMonthCorrect | src/utils.ts:176-185 | Each entry holds its month's revenue; the months are those of `getUniqueMonths`; when every row has a code, the entries add up to the total revenue. |
| Aggregation.QuantityByMonthCorrect | src/utils.ts:187-196 | The same for quantities, adding up to the total quantity. |
| Aggregation.LastCategoryCorrect | src/utils.ts:205-216 | A product that occurs is labelled with the category of its last row. |
| Aggregation.ProductTotalsRead | src/utils.ts:199-218 | The map holds each product's category and totals, and nothing for a product no row carries. |
| Aggregation.ProductTotalsStep | src/utils.ts:201-217 | One turn of the loop adds the row to its product's totals and replaces the product's category. |
| Aggregation.ProductTotalsLoop | src/utils.ts:199-218 | The `forEach` loop over the rows builds exactly the per-product map. |
| Aggregation.CalculateTopProducts | src/utils.ts:198-229 | The method equals the first `limit` entries of the products ranked by revenue. |
| Aggregation.RankedProductsEntries | src/utils.ts:220-227 | The ranking lists every product exactly once, each with its revenue, quantity and last category. |
| Aggregation.RankedProductsDistinct | src/utils.ts:199-227 | No product appears twice in the ranking. |
| Aggregation.TopProductsCorrect | src/utils.ts:227-228 | The top list has `min(limit, products)` entries, is a prefix of the ranking sorted by revenue, and no product left out earns more than a listed one. |
| Aggregation.GetUniqueCategories | src/utils.ts:231-233 | There are never more categories than rows. |
| Aggregation.UniqueCategoriesCorrect | src/utils.ts:231-233 | The categories listed are exactly those of the rows, in strictly increasing string order, so each appears once. |
| Aggregation.ProcessData | src/utils.ts:126-141 | `processData` bundles the five results for the same rows, with `limit` 10. |
| Aggregation.ProcessDataConsistent | src/utils.ts:126-141 | The category revenues add up to total revenue, and the monthly ones do too when every row has a code; at most 10 products are ranked; the order count is the number of rows. |
| DashboardView.ShownRowsCorrect | src/components/Dashboard.tsx:37-46 | A row is shown iff it was loaded and passes both selections; never more rows than were loaded. |
| DashboardView.ShowAll | src/components/Dashboard.tsx:37-46 | With both "everything" options selected, every loaded row is shown, in order. |
| DashboardView.CategoryOptionsCorrect | src/components/Dashboard.tsx:27-30 | The first category option is "everything"; the others are the row categories, each once. |
| DashboardView.MonthOptionsCorrect | src/components/Dashboard.tsx:32-35 | The first month option is "everything"; the others are the month codes the rows carry, in calendar order. |
| DashboardView.Dashboard.constructor | src/components/Dashboard.tsx:24-25 | The dashboard starts with both selections at "everything", so no filter is active. |
| DashboardView.Dashboard.HasActiveFilters | src/components/Dashboard.tsx:55-56 | With no active filter, the shown rows are all the loaded rows. |
| DashboardView.Dashboard.SelectCategory | src/components/Dashboard.tsx:94 | Choosing a category changes only the category selection. |
| DashboardView.Dashboard.SelectMonth | src/components/Dashboard.tsx:107 | Choosing a month changes only the month selection. |
| DashboardView.Dashboard.ClearFilters | src/components/Dashboard.tsx:50-53 | Clearing resets both selections, leaves no active filter, and shows every row again. |
| DashboardView.Dashboard.FilteredData | src/components/Dashboard.tsx:37-46 | The one or two sequential filters give exactly the rows that pass both selections. |
| DashboardView.Dashboard.ProcessedFilteredData | src/components/Dashboard.tsx:48 | Every figure is computed from the shown rows, and the order count is at most the number loaded. |
| DataTableView.SomeIncludesExists | src/components/DataTable.tsx:24 | `fields.some(f => f.toLowerCase().includes(t))` holds iff some field contains t. |
| DataTableView.MatchSearch | src/components/DataTable.tsx:20-25 | A row matches iff the term is blank or one of its five text fields, lower-cased, contains the trimmed, lower-cased term. |
| DataTableView.BlankTermMatchesAll | src/components/DataTable.tsx:21 | A term of white space only matches every row. |
| DataTableView.MatchIgnoresFigures | src/components/DataTable.tsx:23 | The quantity and the revenue never affect whether a row matches. |
| DataTableView.PageRows | src/components/DataTable.tsx:56-57 | A page holds at most `itemsPerPage` rows, and its k-th row is row `startIndex + k`. |
| DataTableView.TotalPages | src/components/DataTable.tsx:55 | At least one page; exactly one for no rows; otherwise just enough pages of `itemsPerPage` to hold every row. |
| DataTableView.PageRowsCorrect | src/components/DataTable.tsx:56-57 | A page holds at most `itemsPerPage` consecutive rows starting at its first index, and every page up to the last is non-empty when there are rows. |
| DataTableView.EveryRowOnAPage | src/components/DataTable.tsx:55-57 | Row i is on page `i / itemsPerPage + 1`, at position `i % itemsPerPage`, and that page is within 1..totalPages. |
| DataTableView.DataTable.constructor | src/components/DataTable.tsx:28-31 | The table starts sorted by revenue, descending, on page 1, with an empty search and 10 rows per page. |
| DataTableView.DataTable.HandleSort | src/components/DataTable.tsx:59-65 | From any state, clicking the column already sorted ascending sorts it descending, any other click sorts ascending, and the page goes back to 1, which is always in range. |
| DataTableView.DataTable.HandleSearchChange | src/components/DataTable.tsx:67-70 | From any state, a new search term sets the term and returns to page 1, which is always in range. |
| DataTableView.DataTable.HandleItemsPerPageChange | src/components/DataTable.tsx:72-75 | From any state, a new page size from the options sets the size and returns to page 1, which is always in range. |
| DataTableView.DataTable.PreviousPage | src/components/DataTable.tsx:159 | From any state, "Anterior" goes to `max(1, page - 1)`, and a page in range stays in range. |
| DataTableView.DataTable.NextPage | src/components/DataTable.tsx:170 | From any state, "Próximo" goes to `min(totalPages, page + 1)`, so afterwards the page is in range, even when it was past the last page before. |
| DataTableView.DataTable.PaginatedData | src/components/DataTable.tsx:56-57 | The current page holds at most `itemsPerPage` rows, and its k-th row is listed row `startIndex + k`. |
| DataTableView.DataTable.ShownFrom | src/components/DataTable.tsx:151 | The first number shown is never negative, and it is 0 exactly when no row is listed. |
| DataTableView.DataTable.ShownTo | src/components/DataTable.tsx:152 | The last number shown is at most the number of listed rows and at most `currentPage * itemsPerPage`. |
| DataTableView.DataTable.ReceiveDataAsWritten | src/components/DataTable.tsx:29 | New rows replace the data, and every other piece of state is kept, the page included. |
| DataTableView.DataTable.ReceiveData | src/components/DataTable.tsx:29 | New rows replace the data and the page returns to 1, so the state stays valid. |
| DataTableView.DataTable.FilteredDataCorrect | src/components/DataTable.tsx:33-53 | The listed rows are the handed rows that match the search, each exactly as often as it was handed; the list is sorted by the chosen column and direction. |
| DataTableView.DataTable.PageCorrect | src/components/DataTable.tsx:55-57 | From any state the page holds at most `itemsPerPage` rows; a page in range holds some whenever any row matches; and the "Mostrando x a y" numbers count exactly the rows on a page that lists any. |
| DataTableView.StalePageListsNothing | src/components/DataTable.tsx:55-57 | With rows that fit on one page, page 2 is past the last page and lists nothing. |

## Left out

- Reading the spreadsheet (`processExcelFile`, `FileReader`, the XLSX
  library) is not modelled. Rows arrive as maps from column header to cell
  text. Cells the sheet gives as numbers are taken as their decimal text.
- Sales.IsCandidate: a cell holding the number `0` or the boolean `false` is
  falsy in JavaScript, but its text here (`0`, `false`) is not empty and so
  is truthy. The code drops a row whose `Categoria` or `Produto` is such a
  cell, and the model keeps it. A `Data` cell of `0` gives today's date in
  the code, and the date text `0` in the model.
- The clock is not modelled. `new Date().toISOString().split('T')[0]` is the
  `today` parameter of `Sales.ToSale`.
- `formatCurrency`, `formatNumber`, the JSX rendering, the filter summary's
  percentage text, the charts, `App` and `DropZone` are presentation only and
  are not modelled.
- Numbers are modelled as exact reals and unbounded integers, not IEEE
  doubles. Revenue and quantity sums are therefore exact and associative.
  With floating point, the sums and the percentages can differ in the last
  bits.
- Aggregation.CalculateMetrics: quantities are summed as reals, like
  JavaScript numbers. Integer overflow and loss of precision above 2^53 are
  not modelled.
- JsNumber.ParseFloat: covers decimal literals only. Exponents, `Infinity`
  and hexadecimal input to `parseFloat` are not modelled; such a text parses
  as its leading decimal part or as NaN.
- JsNumber.ParseInt: models only decimal digits after an optional sign.
  `parseInt` without a radix also reads `0x` prefixes; only the radix-10
  quantity call is covered.
- Strings are sequences of code points. JavaScript compares UTF-16 code
  units, so the default sort in `getUniqueCategories` can order characters
  outside the Basic Multilingual Plane differently.
- `localeCompare` in the table's sort is modelled as code-point order. The
  browser's locale collation (accents, case) is not modelled.
- `toLowerCase` and `toUpperCase` map ASCII and Latin-1 letters only.
  Full Unicode case mapping, including expansions such as `ß` to `SS`, is
  not modelled.
- The regular expression in `extrairMes` is modelled by its two shapes, each
  tried at every position, left to right. A match is identified by its
  month group alone, as the code uses only that group.
- The synonym table of `normalizarCategoria` is read through its own
  entries only. Inherited members cannot be hit there: the key is
  upper-cased, and no member inherited from `Object.prototype` has an
  upper-case-only name.
- React's memoisation and re-rendering are not modelled. Each memoised value
  is a function of the component's fields, recomputed on demand.

## Findings

| source | as written | input that shows it | evidently intended | confidence | as-written member | corrected member |
|---|---|---|---|---|---|---|
| src/utils.ts:75-92 | `meses[normalized]` reads a plain object literal, so it also finds members inherited from `Object.prototype`. They are truthy and are returned in place of a month code, and the final `MESES_VALIDOS.has` filter then drops the row. | A row with `Categoria`, `Produto` and `Receita` filled and `Data` = `Constructor` (or `__proto__`) | Look up only the table's own entries, so the fallback date rule and `Jan` apply. The month filter then never drops a row. | not executed | Sales.ConstructorRowDropped | Sales.CleanDataKeepsCandidates |
| src/components/DataTable.tsx:29 | `currentPage` is kept when the `data` prop changes. The dashboard passes its filtered rows, so a narrower filter can leave the table on a page past the last one. | On page 2 with 20 rows, filter down to 5 rows: `startIndex` is 10, nothing is listed, and the footer reads "Mostrando 11 a 5 de 5" | Return to page 1 when the rows change, as the table does after every sort, search and page-size change | not executed | DataTableView.StalePageListsNothing | DataTableView.DataTable.ReceiveData |
