/**
 * The table of all shown rows: sorted by a column chosen by clicking its
 * header, narrowed by a search box, and cut into pages.
 */
module DataTableView {

  import opened JsText
  import opened Lists
  import opened StableSort
  import opened Sales

  /** The columns, in display order; each header sorts by its field. */
  datatype Column = Data | Categoria | Produto | Codigo_Produto | Mes | Quantidade | Receita

  const Columns: seq<Column> := [Data, Categoria, Produto, Codigo_Produto, Mes, Quantidade, Receita]

  /** The page sizes offered. */
  const ItemsPerPageOptions: seq<int> := [10, 25, 50, 100]

  const DefaultItemsPerPage: int := 10

  /** The value of a row's cell the comparator looks at: text columns compare as strings, the others as numbers. */
  function CellKey(column: Column, row: Sale): SortKey {
    match column
    case Data => SortKey.Text(row.Data)
    case Categoria => SortKey.Text(row.Categoria)
    case Produto => SortKey.Text(row.Produto)
    case Codigo_Produto => SortKey.Text(row.Codigo_Produto)
    case Mes => SortKey.Text(row.Mes)
    case Quantidade => Num(row.Quantidade as real)
    case Receita => Num(row.Receita)
  }

  function ColumnKey(column: Column): Sale -> SortKey {
    row => CellKey(column, row)
  }

  /** The fields the search looks in; the quantity and the revenue are not searched. */
  function SearchedFields(row: Sale): seq<string> {
    [row.Data, row.Categoria, row.Produto, row.Codigo_Produto, row.Mes]
  }

  /** `fields.some((f) => f.toLowerCase().includes(t))`. */
  predicate SomeIncludes(fields: seq<string>, t: string) {
    fields != [] && (Includes(ToLower(fields[0]), t) || SomeIncludes(fields[1..], t))
  }

  /**
   * `matchSearch`: a blank term matches every row; any other term matches
   * exactly the rows with a searched field that contains the trimmed term,
   * both sides in lower case.
   */
  predicate MatchSearch(row: Sale, term: string)
    ensures MatchSearch(row, term) <==>
      (Trim(term) == [] || exists i :: 0 <= i < 5 && Includes(ToLower(SearchedFields(row)[i]), ToLower(Trim(term))))
  {
    SomeIncludesExists(SearchedFields(row), ToLower(Trim(term)));
    Trim(term) == [] || SomeIncludes(SearchedFields(row), ToLower(Trim(term)))
  }

  function Matcher(term: string): Sale -> bool {
    row => MatchSearch(row, term)
  }

  lemma {:induction false} SomeIncludesExists(fields: seq<string>, t: string)
    ensures SomeIncludes(fields, t) <==> exists i :: 0 <= i < |fields| && Includes(ToLower(fields[i]), t)
  {
    if fields != [] {
      SomeIncludesExists(fields[1..], t);
      if Includes(ToLower(fields[0]), t) {
      } else if exists i :: 0 <= i < |fields| && Includes(ToLower(fields[i]), t) {
        var i :| 0 <= i < |fields| && Includes(ToLower(fields[i]), t);
        assert fields[1..][i - 1] == fields[i];
      }
    }
  }

  /** A term made of white space only matches every row. */
  lemma BlankTermMatchesAll(row: Sale, term: string)
    requires forall i :: 0 <= i < |term| ==> IsWhiteSpace(term[i])
    ensures MatchSearch(row, term)
  {
    var t := Trim(term);
    var a :| SegmentWithin(term, a, t);
  }

  /** The quantity and the revenue of a row never decide whether it matches. */
  lemma MatchIgnoresFigures(row: Sale, term: string, quantidade: int, receita: real)
    ensures MatchSearch(row.(Quantidade := quantidade, Receita := receita), term) == MatchSearch(row, term)
  {
    assert SearchedFields(row.(Quantidade := quantidade, Receita := receita)) == SearchedFields(row);
  }

  /** `Math.ceil(n / itemsPerPage) || 1`: the pages needed for `n` rows, and one page when there are none. */
  function TotalPages(n: nat, itemsPerPage: int): (pages: int)
    requires itemsPerPage > 0
    ensures pages >= 1
    ensures n == 0 ==> pages == 1
    ensures n > 0 ==> (pages - 1) * itemsPerPage < n <= pages * itemsPerPage
  {
    if n == 0 then 1
    else
      var pages := (n + itemsPerPage - 1) / itemsPerPage;
      assert pages * itemsPerPage <= n + itemsPerPage - 1 < pages * itemsPerPage + itemsPerPage;
      pages
  }

  /** The rows of page `page`: `rows.slice(startIndex, startIndex + itemsPerPage)`. */
  function PageRows(rows: seq<Sale>, page: int, itemsPerPage: int): (r: seq<Sale>)
    requires page >= 1 && itemsPerPage > 0
    ensures |r| <= itemsPerPage
    ensures forall k :: 0 <= k < |r| ==> (page - 1) * itemsPerPage + k < |rows| && r[k] == rows[(page - 1) * itemsPerPage + k]
  {
    SliceRange(rows, (page - 1) * itemsPerPage, (page - 1) * itemsPerPage + itemsPerPage)
  }

  /**
   * A page holds at most `itemsPerPage` consecutive rows; every page up to
   * the last one holds at least one row when there are rows.
   */
  lemma PageRowsCorrect(rows: seq<Sale>, page: int, itemsPerPage: int)
    requires page >= 1 && itemsPerPage > 0
    ensures |PageRows(rows, page, itemsPerPage)| <= itemsPerPage
    ensures forall k :: 0 <= k < |PageRows(rows, page, itemsPerPage)| ==>
      PageRows(rows, page, itemsPerPage)[k] == rows[(page - 1) * itemsPerPage + k]
    ensures rows != [] && page <= TotalPages(|rows|, itemsPerPage) ==> PageRows(rows, page, itemsPerPage) != []
  {
    if rows != [] && page <= TotalPages(|rows|, itemsPerPage) {
      assert (page - 1) * itemsPerPage <= (TotalPages(|rows|, itemsPerPage) - 1) * itemsPerPage;
    }
  }

  /** Every row is on one of the pages from 1 to the last: row `i` is on page `i / itemsPerPage + 1`. */
  lemma EveryRowOnAPage(rows: seq<Sale>, itemsPerPage: int, i: int)
    requires itemsPerPage > 0 && 0 <= i < |rows|
    ensures 1 <= i / itemsPerPage + 1 <= TotalPages(|rows|, itemsPerPage)
    ensures i % itemsPerPage < |PageRows(rows, i / itemsPerPage + 1, itemsPerPage)|
    ensures PageRows(rows, i / itemsPerPage + 1, itemsPerPage)[i % itemsPerPage] == rows[i]
  {
    var q, r := i / itemsPerPage, i % itemsPerPage;
    assert q * itemsPerPage + r == i && 0 <= q && 0 <= r < itemsPerPage;
    var pages := TotalPages(|rows|, itemsPerPage);
    if pages < q + 1 {
      MulMonotone(pages, q, itemsPerPage);
    }
    PageRowsCorrect(rows, q + 1, itemsPerPage);
  }

  /** A page that lists rows lists those from its first index up to the end of the page or of the rows. */
  lemma PageShown(rows: seq<Sale>, page: int, itemsPerPage: int)
    requires page >= 1 && itemsPerPage > 0
    ensures var start := (page - 1) * itemsPerPage;
      var end := start + itemsPerPage;
      PageRows(rows, page, itemsPerPage) != [] ==>
        start < |rows| && |PageRows(rows, page, itemsPerPage)| == (if end < |rows| then end else |rows|) - start
  {
  }

  lemma MulMonotone(a: int, b: int, c: int)
    requires a <= b && c > 0
    ensures a * c <= b * c
  {
  }

  class DataTable {
    /** The rows handed to the table. */
    var data: seq<Sale>
    var sortKey: Column
    var sortDirection: Direction
    var currentPage: int
    var searchTerm: string
    var itemsPerPage: int

    /**
     * What every state of the table keeps: the page size is one of those
     * offered and the page number is positive. The page can lie past the
     * last page, when the rows change under it.
     */
    predicate Valid()
      reads this
    {
      itemsPerPage in ItemsPerPageOptions && currentPage >= 1
    }

    /** `sortedData`: the rows sorted by the chosen column in the chosen direction. */
    function SortedData(): seq<Sale>
      reads this
    {
      SortBy(data, ColumnKey(sortKey), sortDirection)
    }

    /** `filteredData`: the sorted rows that match the search. */
    function FilteredData(): seq<Sale>
      reads this
    {
      Filter(SortedData(), Matcher(searchTerm))
    }

    /** `totalPages`. */
    function PageCount(): int
      reads this
      requires Valid()
    {
      TotalPages(|FilteredData()|, itemsPerPage)
    }

    /** The current page is one of the pages. */
    predicate PageInRange()
      reads this
      requires Valid()
    {
      currentPage <= PageCount()
    }

    /** `paginatedData`: the rows of the current page. */
    function PaginatedData(): (r: seq<Sale>)
      reads this
      requires Valid()
      ensures |r| <= itemsPerPage
      ensures forall k :: 0 <= k < |r| ==>
        (currentPage - 1) * itemsPerPage + k < |FilteredData()| && r[k] == FilteredData()[(currentPage - 1) * itemsPerPage + k]
    {
      PageRows(FilteredData(), currentPage, itemsPerPage)
    }

    /** The first and last row numbers of "Mostrando x a y de n". */
    function ShownFrom(): (n: int)
      reads this
      requires Valid()
      ensures n >= 0 && (n == 0 <==> FilteredData() == [])
    {
      if |FilteredData()| == 0 then 0 else (currentPage - 1) * itemsPerPage + 1
    }

    function ShownTo(): (n: int)
      reads this
      requires Valid()
      ensures n <= |FilteredData()| && n <= currentPage * itemsPerPage
    {
      var end := (currentPage - 1) * itemsPerPage + itemsPerPage;
      if end < |FilteredData()| then end else |FilteredData()|
    }

    /** The table first shows every row by revenue, largest first, ten to a page, from the first page. */
    constructor(data: seq<Sale>)
      ensures this.data == data
      ensures sortKey == Receita && sortDirection == Desc
      ensures currentPage == 1 && searchTerm == "" && itemsPerPage == DefaultItemsPerPage
      ensures Valid() && PageInRange()
    {
      this.data := data;
      sortKey := Receita;
      sortDirection := Desc;
      currentPage := 1;
      searchTerm := "";
      itemsPerPage := DefaultItemsPerPage;
    }

    /** `handleSort`: a second click on the column sorted ascending sorts it descending; any other click sorts ascending. */
    method HandleSort(key: Column)
      requires Valid()
      modifies this
      ensures sortKey == key
      ensures sortDirection == if old(sortKey) == key && old(sortDirection) == Asc then Desc else Asc
      ensures currentPage == 1
      ensures data == old(data) && searchTerm == old(searchTerm) && itemsPerPage == old(itemsPerPage)
      ensures Valid() && PageInRange()
    {
      sortDirection := if sortKey == key && sortDirection == Asc then Desc else Asc;
      sortKey := key;
      currentPage := 1;
    }

    /** `handleSearchChange`. */
    method HandleSearchChange(value: string)
      requires Valid()
      modifies this
      ensures searchTerm == value && currentPage == 1
      ensures data == old(data) && sortKey == old(sortKey) && sortDirection == old(sortDirection)
      ensures itemsPerPage == old(itemsPerPage)
      ensures Valid() && PageInRange()
    {
      searchTerm := value;
      currentPage := 1;
    }

    /** `handleItemsPerPageChange`, with a size from the select. */
    method HandleItemsPerPageChange(value: int)
      requires Valid() && value in ItemsPerPageOptions
      modifies this
      ensures itemsPerPage == value && currentPage == 1
      ensures data == old(data) && sortKey == old(sortKey) && sortDirection == old(sortDirection)
      ensures searchTerm == old(searchTerm)
      ensures Valid() && PageInRange()
    {
      itemsPerPage := value;
      currentPage := 1;
    }

    /** The "Anterior" button: one page back, never before the first; from a page in range the page stays in range. */
    method PreviousPage()
      requires Valid()
      modifies this
      ensures currentPage == if old(currentPage) - 1 < 1 then 1 else old(currentPage) - 1
      ensures data == old(data) && sortKey == old(sortKey) && sortDirection == old(sortDirection)
      ensures searchTerm == old(searchTerm) && itemsPerPage == old(itemsPerPage)
      ensures Valid()
      ensures old(PageInRange()) ==> PageInRange()
    {
      currentPage := if currentPage - 1 < 1 then 1 else currentPage - 1;
    }

    /**
     * The "Próximo" button: one page on, never past the last. From a page
     * past the last one it goes back to the last page, so afterwards the page
     * is always in range.
     */
    method NextPage()
      requires Valid()
      modifies this
      ensures currentPage == if old(PageCount()) < old(currentPage) + 1 then old(PageCount()) else old(currentPage) + 1
      ensures data == old(data) && sortKey == old(sortKey) && sortDirection == old(sortDirection)
      ensures searchTerm == old(searchTerm) && itemsPerPage == old(itemsPerPage)
      ensures Valid() && PageInRange()
    {
      var totalPages := PageCount();
      currentPage := if totalPages < currentPage + 1 then totalPages else currentPage + 1;
    }

    /** New rows handed to the table, as the table keeps its state: the page is kept too, in range or not. */
    method ReceiveDataAsWritten(newData: seq<Sale>)
      requires Valid()
      modifies this
      ensures data == newData && currentPage == old(currentPage)
      ensures sortKey == old(sortKey) && sortDirection == old(sortDirection)
      ensures searchTerm == old(searchTerm) && itemsPerPage == old(itemsPerPage)
      ensures Valid()
    {
      data := newData;
    }

    /** New rows handed to the table, back on the first page as after every other change of what is listed. */
    method ReceiveData(newData: seq<Sale>)
      requires Valid()
      modifies this
      ensures data == newData && currentPage == 1
      ensures sortKey == old(sortKey) && sortDirection == old(sortDirection)
      ensures searchTerm == old(searchTerm) && itemsPerPage == old(itemsPerPage)
      ensures Valid() && PageInRange()
    {
      data := newData;
      currentPage := 1;
    }

    /**
     * The rows listed are the handed rows that match the search, each as
     * often as it was handed, in the order of the chosen column.
     */
    lemma FilteredDataCorrect()
      ensures multiset(FilteredData()) == multiset(Filter(data, Matcher(searchTerm)))
      ensures forall row :: row in FilteredData() <==> row in data && MatchSearch(row, searchTerm)
      ensures |FilteredData()| <= |data|
      ensures Sorted(FilteredData(), ColumnKey(sortKey), sortDirection)
    {
      var sorted := SortedData();
      var matches := Matcher(searchTerm);
      assert multiset(sorted) == multiset(data) && |sorted| == |data| by {
        SortByCorrect(data, ColumnKey(sortKey), sortDirection);
        SortByLength(data, ColumnKey(sortKey), sortDirection);
      }
      FilterPermutation(sorted, data, matches);
      assert forall row :: row in FilteredData() <==> row in data && MatchSearch(row, searchTerm) by {
        FilterMembers(sorted, matches);
        forall row ensures row in sorted <==> row in data {
          assert row in sorted <==> row in multiset(sorted);
        }
      }
      FilterHolds(sorted, matches);
      assert Sorted(FilteredData(), ColumnKey(sortKey), sortDirection) by {
        SortByCorrect(data, ColumnKey(sortKey), sortDirection);
        FilterSorted(sorted, matches, ColumnKey(sortKey), sortDirection);
      }
    }

    /**
     * The current page holds at most `itemsPerPage` rows; when it is one of
     * the pages it holds some whenever there are rows to list; and
     * "Mostrando x a y" counts exactly the rows on it.
     */
    lemma PageCorrect()
      requires Valid()
      ensures |PaginatedData()| <= itemsPerPage
      ensures PageInRange() && FilteredData() != [] ==> PaginatedData() != []
      ensures PaginatedData() != [] ==> ShownTo() - ShownFrom() + 1 == |PaginatedData()|
    {
      var rows := FilteredData();
      assert PageInRange() && rows != [] ==> PaginatedData() != [] by {
        PageRowsCorrect(rows, currentPage, itemsPerPage);
      }
      assert PaginatedData() != [] ==> ShownTo() - ShownFrom() + 1 == |PaginatedData()| by {
        PageShown(rows, currentPage, itemsPerPage);
      }
    }
  }

  /**
   * The table keeps its page when it is handed new rows: after a narrower
   * selection on the dashboard, page 2 of rows that now fit on one page lists
   * nothing although there are rows.
   */
  lemma StalePageListsNothing(rows: seq<Sale>, itemsPerPage: int)
    requires 0 < |rows| <= itemsPerPage
    ensures TotalPages(|rows|, itemsPerPage) == 1
    ensures PageRows(rows, 2, itemsPerPage) == []
  {
    var pages := TotalPages(|rows|, itemsPerPage);
    if pages >= 2 {
      MulAtLeast(pages - 1, itemsPerPage);
    }
  }

  lemma MulAtLeast(a: int, b: int)
    requires a >= 1 && b > 0
    ensures a * b >= b
  {
  }
}
