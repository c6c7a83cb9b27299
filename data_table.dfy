/**
 * `views/components/data_table.py`: the paging and sort state of `DataTable`. The Treeview,
 * its scrollbars and buttons are drawn from this state; only the state is modelled.
 */
module DataTableState {
  import opened Base
  import opened Text
  import opened CharMaps

  /** A row of the table: column key to the text `str()` gives for its value. */
  type Row = map<String, String>

  /** `PAGINATION_SIZE`, the default page size. */
  const PaginationSize: int := 50

  // ---------------------------------------------------------------- paging arithmetic

  /** `max(1, (total + page_size - 1) // page_size)`; `//` floors, as `/` does for a positive divisor. */
  function TotalPages(total: int, size: int): int
    requires size >= 1
  {
    var q := (total + size - 1) / size;
    if q < 1 then 1 else q
  }

  /** There is always a page, and the page count is the ceiling of `total / size`. */
  lemma TotalPagesIsCeiling(total: int, size: int)
    requires size >= 1
    ensures var n := TotalPages(total, size);
      n >= 1
      && (total <= size ==> n == 1)
      && (total > 0 ==> (n - 1) * size < total <= n * size)
  {
    var q := (total + size - 1) / size;
    var m := (total + size - 1) % size;
    assert q * size + m == total + size - 1 && 0 <= m < size;
    if total <= size {
      assert q < 2 by {
        if q >= 2 {
          MulMonotone(2, q, size);
        }
      }
    }
    if total > 0 {
      assert q >= 1 by {
        if q <= 0 {
          MulMonotone(q, 0, size);
        }
      }
      assert (q - 1) * size == q * size - size;
    }
  }

  /** Index of the first row of page `page` (1-based). */
  function PageStart(page: int, size: int): (start: nat)
    requires page >= 1 && size >= 1
  {
    MulMonotone(0, page - 1, size);
    (page - 1) * size
  }

  /** `all_data[start:start + page_size]`; Python clamps the end to the length, and a start past it gives no rows. */
  function Slice(data: seq<Row>, start: nat, size: nat): (r: seq<Row>)
    ensures |r| <= size
    ensures forall i :: 0 <= i < |r| ==> start + i < |data| && r[i] == data[start + i]
    ensures |r| == (if start >= |data| then 0 else if start + size >= |data| then |data| - start else size)
  {
    if start >= |data| then []
    else if start + size >= |data| then data[start..]
    else data[start..start + size]
  }

  /** The rows `_refresh_display` shows for page `page`. */
  function PageRows(data: seq<Row>, page: int, size: int): (r: seq<Row>)
    requires page >= 1 && size >= 1
  {
    Slice(data, PageStart(page, size), size)
  }

  lemma MulMonotone(a: int, b: int, size: int)
    requires a <= b && size >= 0
    ensures a * size <= b * size
  {
    assert b * size - a * size == (b - a) * size;
  }

  /** Row `k` falls on page `k / size + 1` (1-based), and that page is within the page count. */
  lemma RowPage(total: int, size: int, k: int)
    requires size >= 1 && 0 <= k < total
    ensures var q := k / size;
      q >= 0 && q * size <= k < q * size + size && q + 1 <= TotalPages(total, size)
  {
    var q := k / size;
    var m := k % size;
    assert q * size + m == k && 0 <= m < size;
    assert q >= 0 by {
      if q < 0 {
        MulMonotone(q, -1, size);
      }
    }
    TotalPagesIsCeiling(total, size);
    var n := TotalPages(total, size);
    assert q + 1 <= n by {
      if q >= n {
        MulMonotone(n, q, size);
      }
    }
  }

  /**
   * With the record count taken from the data, row `k` is shown on page `k / size + 1`, at
   * position `k % size`, and that page is one the buttons can reach.
   */
  lemma EveryRowOnItsPage(data: seq<Row>, size: int, k: int)
    requires size >= 1 && 0 <= k < |data|
    ensures var p := k / size + 1;
      1 <= p <= TotalPages(|data|, size)
      && k % size < |PageRows(data, p, size)| && PageRows(data, p, size)[k % size] == data[k]
  {
    RowPage(|data|, size, k);
    var q := k / size;
    assert PageStart(q + 1, size) == q * size;
    assert k % size == k - q * size;
  }

  // ---------------------------------------------------------------- sorting

  /** `str(x.get(col_key, "")).lower()`. */
  function SortKey(row: Row, col: String): String
  {
    ToLower(if col in row then row[col] else "")
  }

  /** Python's `<=` on strings: code point by code point, a prefix first. */
  predicate LexLe(a: String, b: String)
    decreases |a|
  {
    a == [] || (b != [] && (a[0] < b[0] || (a[0] == b[0] && LexLe(a[1..], b[1..]))))
  }

  lemma {:induction false} LexLeTotal(a: String, b: String)
    ensures LexLe(a, b) || LexLe(b, a)
    decreases |a|
  {
    if a != [] && b != [] && a[0] == b[0] {
      LexLeTotal(a[1..], b[1..]);
    }
  }

  lemma {:induction false} LexLeTransitive(a: String, b: String, c: String)
    requires LexLe(a, b) && LexLe(b, c)
    ensures LexLe(a, c)
    decreases |a|
  {
    if a != [] && a[0] == b[0] && b[0] == c[0] {
      LexLeTransitive(a[1..], b[1..], c[1..]);
    }
  }

  /** Row `x` may stand before row `y` in the order `sort(key=…, reverse=…)` produces. */
  predicate InOrder(x: Row, y: Row, col: String, reverse: bool)
  {
    if reverse then LexLe(SortKey(y, col), SortKey(x, col)) else LexLe(SortKey(x, col), SortKey(y, col))
  }

  predicate SortedBy(s: seq<Row>, col: String, reverse: bool)
  {
    forall i, j :: 0 <= i < j < |s| ==> InOrder(s[i], s[j], col, reverse)
  }

  /** Inserts `x` before the first row it may precede, so it stays ahead of rows with its key. */
  function Insert(x: Row, s: seq<Row>, col: String, reverse: bool): seq<Row>
  {
    if s == [] then [x]
    else if InOrder(x, s[0], col, reverse) then [x] + s
    else [s[0]] + Insert(x, s[1..], col, reverse)
  }

  /**
   * `list.sort(key=…, reverse=…)`: a stable sort, written as an insertion sort. With
   * `reverse` Python keeps equal keys in their original order, so the order used is the
   * reversed key order rather than the reversed ascending result.
   */
  function SortRows(s: seq<Row>, col: String, reverse: bool): seq<Row>
  {
    if s == [] then [] else Insert(s[0], SortRows(s[1..], col, reverse), col, reverse)
  }

  lemma InOrderTotal(x: Row, y: Row, col: String, reverse: bool)
    ensures InOrder(x, y, col, reverse) || InOrder(y, x, col, reverse)
  {
    LexLeTotal(SortKey(x, col), SortKey(y, col));
  }

  lemma InOrderTransitive(x: Row, y: Row, z: Row, col: String, reverse: bool)
    requires InOrder(x, y, col, reverse) && InOrder(y, z, col, reverse)
    ensures InOrder(x, z, col, reverse)
  {
    if reverse {
      LexLeTransitive(SortKey(z, col), SortKey(y, col), SortKey(x, col));
    } else {
      LexLeTransitive(SortKey(x, col), SortKey(y, col), SortKey(z, col));
    }
  }

  lemma {:induction false} InsertPermutes(x: Row, s: seq<Row>, col: String, reverse: bool)
    ensures multiset(Insert(x, s, col, reverse)) == multiset(s) + multiset{x}
    decreases |s|
  {
    if s != [] && !InOrder(x, s[0], col, reverse) {
      InsertPermutes(x, s[1..], col, reverse);
      assert s == [s[0]] + s[1..];
    }
  }

  /** Row `y` may stand before every row of `s`. */
  predicate Precedes(y: Row, s: seq<Row>, col: String, reverse: bool)
  {
    forall k :: 0 <= k < |s| ==> InOrder(y, s[k], col, reverse)
  }

  lemma {:induction false} InsertKeepsPrecedes(y: Row, x: Row, s: seq<Row>, col: String, reverse: bool)
    requires Precedes(y, s, col, reverse) && InOrder(y, x, col, reverse)
    ensures Precedes(y, Insert(x, s, col, reverse), col, reverse)
    decreases |s|
  {
    if s != [] && !InOrder(x, s[0], col, reverse) {
      InsertKeepsPrecedes(y, x, s[1..], col, reverse);
    }
  }

  lemma ConsSorted(y: Row, t: seq<Row>, col: String, reverse: bool)
    requires Precedes(y, t, col, reverse) && SortedBy(t, col, reverse)
    ensures SortedBy([y] + t, col, reverse)
  {
    var r := [y] + t;
    forall i, j | 0 <= i < j < |r|
      ensures InOrder(r[i], r[j], col, reverse)
    {
      if i == 0 {
        assert r[j] == t[j - 1];
      } else {
        assert r[i] == t[i - 1] && r[j] == t[j - 1];
      }
    }
  }

  lemma SortedTail(s: seq<Row>, col: String, reverse: bool)
    requires s != [] && SortedBy(s, col, reverse)
    ensures Precedes(s[0], s[1..], col, reverse) && SortedBy(s[1..], col, reverse)
  {
    forall i, j | 0 <= i < j < |s[1..]|
      ensures InOrder(s[1..][i], s[1..][j], col, reverse)
    {
      assert s[1..][i] == s[i + 1] && s[1..][j] == s[j + 1];
    }
  }

  lemma {:induction false} InsertSorted(x: Row, s: seq<Row>, col: String, reverse: bool)
    requires SortedBy(s, col, reverse)
    ensures SortedBy(Insert(x, s, col, reverse), col, reverse)
    decreases |s|
  {
    if s == [] {
    } else {
      SortedTail(s, col, reverse);
      if InOrder(x, s[0], col, reverse) {
        forall k | 0 <= k < |s|
          ensures InOrder(x, s[k], col, reverse)
        {
          if k > 0 {
            InOrderTransitive(x, s[0], s[k], col, reverse);
          }
        }
        assert s == [s[0]] + s[1..];
        ConsSorted(x, s, col, reverse);
      } else {
        InOrderTotal(x, s[0], col, reverse);
        InsertSorted(x, s[1..], col, reverse);
        InsertKeepsPrecedes(s[0], x, s[1..], col, reverse);
        ConsSorted(s[0], Insert(x, s[1..], col, reverse), col, reverse);
      }
    }
  }

  lemma {:induction false} SortRowsSorted(s: seq<Row>, col: String, reverse: bool)
    ensures SortedBy(SortRows(s, col, reverse), col, reverse)
    decreases |s|
  {
    if s != [] {
      SortRowsSorted(s[1..], col, reverse);
      InsertSorted(s[0], SortRows(s[1..], col, reverse), col, reverse);
    }
  }

  lemma {:induction false} SortRowsPermutes(s: seq<Row>, col: String, reverse: bool)
    ensures multiset(SortRows(s, col, reverse)) == multiset(s)
    decreases |s|
  {
    if s != [] {
      SortRowsPermutes(s[1..], col, reverse);
      InsertPermutes(s[0], SortRows(s[1..], col, reverse), col, reverse);
      assert s == [s[0]] + s[1..];
    }
  }

  // ---------------------------------------------------------------- the table

  class DataTable {
    /** `_page_size`. */
    const pageSize: int
    /** `_all_data`. */
    var allData: seq<Row>
    /** `_total_records`. */
    var totalRecords: int
    /** `_current_page`. */
    var currentPage: int
    /** `_sort_column`; `""` before the first sort. */
    var sortColumn: String
    /** `_sort_reverse`. */
    var sortReverse: bool

    /** The page is always one of the pages the count gives. */
    predicate Valid()
      reads this
    {
      pageSize >= 1 && 1 <= currentPage <= TotalPages(totalRecords, pageSize)
    }

    /** `DataTable(...)`: empty, on page 1, unsorted. */
    constructor (size: int)
      requires size >= 1
      ensures Valid()
      ensures pageSize == size && allData == [] && totalRecords == 0 && currentPage == 1
      ensures sortColumn == "" && !sortReverse
    {
      pageSize := size;
      allData := [];
      totalRecords := 0;
      currentPage := 1;
      sortColumn := "";
      sortReverse := false;
    }

    /** `_refresh_display`: the rows of the current page. */
    function Displayed(): (r: seq<Row>)
      requires Valid()
      reads this
      ensures |r| <= pageSize
    {
      PageRows(allData, currentPage, pageSize)
    }

    /** `_update_pagination`: the page count shown in the label. */
    function Pages(): (n: int)
      requires Valid()
      reads this
      ensures n >= 1 && currentPage <= n
    {
      TotalPages(totalRecords, pageSize)
    }

    /** The state of the "previous" button. */
    predicate PrevEnabled()
      requires Valid()
      reads this
    {
      currentPage > 1
    }

    /** The state of the "next" button. */
    predicate NextEnabled()
      requires Valid()
      reads this
    {
      currentPage < Pages()
    }

    /** `load_data(data, total)`: the count is `total` when given, else the row count; back to page 1. */
    method Load(data: seq<Row>, total: Option<int>)
      requires Valid()
      modifies this
      ensures Valid()
      ensures allData == data && currentPage == 1
      ensures totalRecords == (if total.Some? then total.value else |data|)
      ensures sortColumn == old(sortColumn) && sortReverse == old(sortReverse)
    {
      allData := data;
      totalRecords := if total.Some? then total.value else |data|;
      currentPage := 1;
    }

    /** `_prev_page`: one page back, never below page 1. */
    method PrevPage()
      requires Valid()
      modifies this
      ensures Valid()
      ensures currentPage == (if old(currentPage) > 1 then old(currentPage) - 1 else old(currentPage))
      ensures allData == old(allData) && totalRecords == old(totalRecords)
      ensures sortColumn == old(sortColumn) && sortReverse == old(sortReverse)
    {
      if currentPage > 1 {
        currentPage := currentPage - 1;
      }
    }

    /** `_next_page`: one page forward, never past the last page. */
    method NextPage()
      requires Valid()
      modifies this
      ensures Valid()
      ensures var n := TotalPages(totalRecords, pageSize);
        currentPage == (if old(currentPage) < n then old(currentPage) + 1 else old(currentPage))
      ensures allData == old(allData) && totalRecords == old(totalRecords)
      ensures sortColumn == old(sortColumn) && sortReverse == old(sortReverse)
    {
      var totalPages := TotalPages(totalRecords, pageSize);
      if currentPage < totalPages {
        currentPage := currentPage + 1;
      }
    }

    /**
     * `_sort_by_column(col_key)`: the same column again flips the direction, a new one sorts
     * ascending; the rows are sorted by the lower-cased text of that column and the table goes
     * back to page 1.
     */
    method SortByColumn(col: String)
      requires Valid()
      modifies this
      ensures Valid()
      ensures sortColumn == col
      ensures sortReverse == (if old(sortColumn) == col then !old(sortReverse) else false)
      ensures allData == SortRows(old(allData), col, sortReverse)
      ensures SortedBy(allData, col, sortReverse) && multiset(allData) == multiset(old(allData))
      ensures currentPage == 1 && totalRecords == old(totalRecords)
    {
      if sortColumn == col {
        sortReverse := !sortReverse;
      } else {
        sortColumn := col;
        sortReverse := false;
      }
      SortRowsSorted(allData, col, sortReverse);
      SortRowsPermutes(allData, col, sortReverse);
      allData := SortRows(allData, col, sortReverse);
      currentPage := 1;
    }

    /** `clear`: no rows, no records, page 1; the sort settings stay. */
    method Clear()
      requires Valid()
      modifies this
      ensures Valid()
      ensures allData == [] && totalRecords == 0 && currentPage == 1
      ensures sortColumn == old(sortColumn) && sortReverse == old(sortReverse)
    {
      allData := [];
      totalRecords := 0;
      currentPage := 1;
    }
  }
}
