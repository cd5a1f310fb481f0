/**
 * Pagination of the filtered results: 30 rows per page, the page count and
 * the slice offsets of `main`, all in integer arithmetic.
 */
module Pages {

  const RowsPerPage: nat := 30

  /**
   * `max(1, (total - 1) // rows_per_page + 1)`. Python's `//` floors; for the
   * positive divisor used here Dafny's Euclidean `/` agrees, also at total = 0,
   * where `(0 - 1) // 30` is -1.
   */
  function PageCount(total: nat): (pages: nat)
    ensures pages >= 1
    ensures total >= 1 ==> (pages - 1) * RowsPerPage < total <= pages * RowsPerPage
    ensures total == 0 ==> pages == 1
  {
    var p := (total - 1) / RowsPerPage + 1;
    if p < 1 then 1 else p
  }

  /** `start = (page - 1) * rows_per_page` */
  function PageStart(page: nat): int {
    (page - 1) * RowsPerPage
  }

  /** `end = min(start + rows_per_page, total)` */
  function PageEnd(page: nat, total: nat): int {
    var e := PageStart(page) + RowsPerPage;
    if e < total then e else total
  }

  /**
   * For a non-empty result set and a page the page widget allows, the slice is
   * non-empty, inside the results and at most one page long; every page but
   * the last is full.
   */
  lemma PageBounds(total: nat, page: nat)
    requires total >= 1 && 1 <= page <= PageCount(total)
    ensures 0 <= PageStart(page) < PageEnd(page, total) <= total
    ensures PageEnd(page, total) - PageStart(page) <= RowsPerPage
    ensures page < PageCount(total) ==> PageEnd(page, total) - PageStart(page) == RowsPerPage
    ensures page == PageCount(total) ==> PageEnd(page, total) == total
  {
  }

  /** `results.iloc[start:end]` for a page in range. */
  function PageSlice<T>(results: seq<T>, page: nat): (s: seq<T>)
    requires 1 <= page <= PageCount(|results|)
    ensures |s| <= RowsPerPage
    ensures |results| >= 1 ==> |s| >= 1
  {
    if |results| == 0 then []
    else
      PageBounds(|results|, page);
      results[PageStart(page)..PageEnd(page, |results|)]
  }

  /** All pages, in order. */
  function Paginate<T>(results: seq<T>): (pages: seq<seq<T>>)
    ensures |pages| == PageCount(|results|)
  {
    seq(PageCount(|results|), p requires 0 <= p < PageCount(|results|) => PageSlice(results, p + 1))
  }

  function Concat<T>(parts: seq<seq<T>>): seq<T> {
    if |parts| == 0 then [] else Concat(parts[..|parts| - 1]) + parts[|parts| - 1]
  }

  /** The first k pages together are the first min(30k, total) results. */
  lemma {:induction false} FirstPages<T>(results: seq<T>, k: nat)
    requires k <= PageCount(|results|)
    ensures var n := if k * RowsPerPage < |results| then k * RowsPerPage else |results|;
            Concat(Paginate(results)[..k]) == results[..n]
  {
    var pages := Paginate(results);
    var total := |results|;
    if k > 0 {
      FirstPages(results, k - 1);
      assert pages[..k][..k - 1] == pages[..k - 1];
      assert Concat(pages[..k]) == Concat(pages[..k - 1]) + pages[k - 1];
      if total == 0 {
        assert pages[k - 1] == [];
      } else {
        PageBounds(total, k);
        var start := PageStart(k);
        var end := PageEnd(k, total);
        assert start == (k - 1) * RowsPerPage && start + RowsPerPage == k * RowsPerPage;
        assert pages[k - 1] == results[start..end];
        assert results[..start] + results[start..end] == results[..end];
      }
    }
  }

  /** Concatenating the pages in order gives back exactly the results. */
  lemma PagesReassemble<T>(results: seq<T>)
    ensures Concat(Paginate(results)) == results
  {
    var pages := Paginate(results);
    FirstPages(results, |pages|);
    assert pages[..|pages|] == pages;
  }
}
