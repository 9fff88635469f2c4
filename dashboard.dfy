/**
 * The dashboard's filter state: a category and a month selection, each with
 * an "everything" option, narrowing the loaded rows before every figure is
 * computed from them.
 */
module DashboardView {

  import opened Lists
  import opened Sales
  import opened Aggregation

  /** The category option that selects every category. */
  const AllCategories: string := "Todas as categorias"

  /** The month option that selects every month. */
  const AllMonths: string := "Todos os meses"

  /** A row passes the selection of `category` and `month`. */
  predicate Selected(row: Sale, category: string, month: string) {
    (category == AllCategories || row.Categoria == category) && (month == AllMonths || row.Mes == month)
  }

  function Selection(category: string, month: string): Sale -> bool {
    row => Selected(row, category, month)
  }

  /** The rows the dashboard shows. */
  function ShownRows(raw: seq<Sale>, category: string, month: string): seq<Sale> {
    Filter(raw, Selection(category, month))
  }

  /** The rows shown are exactly the loaded rows that pass both selections; never more rows than were loaded. */
  lemma ShownRowsCorrect(raw: seq<Sale>, category: string, month: string)
    ensures forall row :: row in ShownRows(raw, category, month) <==> row in raw && Selected(row, category, month)
    ensures |ShownRows(raw, category, month)| <= |raw|
  {
    FilterMembers(raw, Selection(category, month));
  }

  /** With both "everything" options selected, every loaded row is shown, in order. */
  lemma ShowAll(raw: seq<Sale>)
    ensures ShownRows(raw, AllCategories, AllMonths) == raw
  {
    FilterAll(raw, Selection(AllCategories, AllMonths));
  }

  /** The category options: "everything", then the categories of the rows, each once, in increasing order. */
  function CategoryOptions(raw: seq<Sale>): seq<string> {
    [AllCategories] + GetUniqueCategories(raw)
  }

  /** The month options: "everything", then the months of the rows, in calendar order. */
  function MonthOptions(raw: seq<Sale>): seq<string> {
    [AllMonths] + GetUniqueMonths(raw)
  }

  /** Every option after the first names a category of some row, and every category of the rows is offered once. */
  lemma CategoryOptionsCorrect(raw: seq<Sale>)
    ensures CategoryOptions(raw)[0] == AllCategories
    ensures forall c :: c in CategoryOptions(raw)[1..] <==> c in MapSeq(raw, CategoryOf)
    ensures Distinct(CategoryOptions(raw)[1..])
  {
    var u := GetUniqueCategories(raw);
    assert CategoryOptions(raw)[1..] == u;
    UniqueCategoriesCorrect(raw);
    forall i, j | 0 <= i < j < |u| ensures u[i] != u[j] {
      JsText.StrLessIrreflexive(u[i]);
    }
  }

  /** Every option after the first is a month code some row carries, each once, in calendar order. */
  lemma MonthOptionsCorrect(raw: seq<Sale>)
    ensures MonthOptions(raw)[0] == AllMonths
    ensures forall mes :: mes in MonthOptions(raw)[1..] <==> Months.IsMonthCode(mes) && mes in MapSeq(raw, MonthOf)
    ensures InOrderOf(MonthOptions(raw)[1..], Months.MonthCodes)
  {
    assert MonthOptions(raw)[1..] == GetUniqueMonths(raw);
    UniqueMonthsCorrect(raw);
  }

  class Dashboard {
    /** The loaded rows, `data.raw_data`. */
    var rawData: seq<Sale>
    var selectedCategory: string
    var selectedMonth: string

    constructor(rawData: seq<Sale>)
      ensures this.rawData == rawData
      ensures selectedCategory == AllCategories && selectedMonth == AllMonths
      ensures !HasActiveFilters()
    {
      this.rawData := rawData;
      selectedCategory := AllCategories;
      selectedMonth := AllMonths;
    }

    /** A selection other than "everything" is in force; without one, every loaded row is shown. */
    predicate HasActiveFilters()
      reads this
      ensures !HasActiveFilters() ==> Rows() == rawData
    {
      ShowAll(rawData);
      selectedCategory != AllCategories || selectedMonth != AllMonths
    }

    /** The rows the current selections show. */
    function Rows(): seq<Sale>
      reads this
    {
      ShownRows(rawData, selectedCategory, selectedMonth)
    }

    /** Choosing a category in the first select. */
    method SelectCategory(category: string)
      modifies this
      ensures selectedCategory == category
      ensures selectedMonth == old(selectedMonth) && rawData == old(rawData)
    {
      selectedCategory := category;
    }

    /** Choosing a month in the second select. */
    method SelectMonth(month: string)
      modifies this
      ensures selectedMonth == month
      ensures selectedCategory == old(selectedCategory) && rawData == old(rawData)
    {
      selectedMonth := month;
    }

    /** `handleClearFilters`: both selections back to "everything", so every row is shown again. */
    method ClearFilters()
      modifies this
      ensures selectedCategory == AllCategories && selectedMonth == AllMonths
      ensures rawData == old(rawData)
      ensures !HasActiveFilters() && Rows() == rawData
    {
      selectedCategory := AllCategories;
      selectedMonth := AllMonths;
      ShowAll(rawData);
    }

    /** The memoised `filteredData`: at most two filters, one per active selection. */
    method FilteredData() returns (filtered: seq<Sale>)
      ensures filtered == Rows()
    {
      var category, month := selectedCategory, selectedMonth;
      var byCategory := (r: Sale) => r.Categoria == category;
      var byMonth := (r: Sale) => r.Mes == month;
      filtered := rawData;
      if category != AllCategories {
        filtered := Filter(filtered, byCategory);
      }
      if month != AllMonths {
        filtered := Filter(filtered, byMonth);
      }
      var selection := Selection(category, month);
      if category != AllCategories && month != AllMonths {
        FilterFilter(rawData, byCategory, byMonth, selection);
      } else if category != AllCategories {
        FilterSame(rawData, byCategory, selection);
      } else if month != AllMonths {
        FilterSame(rawData, byMonth, selection);
      } else {
        ShowAll(rawData);
      }
    }

    /** Every figure on the dashboard is computed from the rows shown. */
    method ProcessedFilteredData() returns (d: DashboardData)
      ensures d == ProcessDataOf(Rows())
      ensures d.metrics.pedidos_totais == |Rows()| <= |rawData|
    {
      var filtered := FilteredData();
      d := ProcessData(filtered);
      ShownRowsCorrect(rawData, selectedCategory, selectedMonth);
    }
  }
}
