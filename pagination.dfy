/** The page arithmetic of the product table: the slice a page shows, the
    number of pages, and the "showing X - Y of N" range. */
module Pagination {
  import opened Js

  /** Index of the first item of page `page` (pages count from 1). */
  function PageStart(page: int, itemsPerPage: int): (start: int)
    ensures page >= 1 && itemsPerPage >= 0 ==> start >= 0
    ensures start + itemsPerPage == page * itemsPerPage
  {
    (page - 1) * itemsPerPage
  }

  /** The items of page `page`: `list.slice(start, start + itemsPerPage)`. */
  function PageSlice<T>(s: seq<T>, page: int, itemsPerPage: int): (r: seq<T>)
    ensures |r| <= |s|
    ensures page >= 1 && itemsPerPage >= 1 ==> |r| <= itemsPerPage
  {
    var start := PageStart(page, itemsPerPage);
    Slice(s, start, start + itemsPerPage)
  }

  /** A page is the contiguous run of at most `itemsPerPage` items from its
      start index, cut short at the end of the list, and empty when it starts
      at or past the end. */
  lemma PageSliceBounds<T>(s: seq<T>, page: int, itemsPerPage: int)
    requires page >= 1 && itemsPerPage >= 1
    ensures PageStart(page, itemsPerPage) >= 0
    ensures |PageSlice(s, page, itemsPerPage)| <= itemsPerPage
    ensures var start := PageStart(page, itemsPerPage);
      && (start >= |s| ==> PageSlice(s, page, itemsPerPage) == [])
      && (start < |s| ==> PageSlice(s, page, itemsPerPage) == s[start..Min(start + itemsPerPage, |s|)])
  {
    var start := PageStart(page, itemsPerPage);
    SliceNonNegative(s, start, start + itemsPerPage);
  }

  lemma MulMonotonic(x: int, y: int, z: int)
    requires x <= y && z >= 0
    ensures x * z <= y * z
  {
  }

  /** `Math.ceil(count / itemsPerPage)`: the least number of pages of
      `itemsPerPage` items that together hold `count` items. */
  function TotalPages(count: nat, itemsPerPage: int): (n: nat)
    requires itemsPerPage >= 1
    ensures count <= n * itemsPerPage
    ensures n == 0 || (n - 1) * itemsPerPage < count
  {
    var n := (count + itemsPerPage - 1) / itemsPerPage;
    var r := (count + itemsPerPage - 1) % itemsPerPage;
    assert n * itemsPerPage + r == count + itemsPerPage - 1;
    assert (n - 1) * itemsPerPage == n * itemsPerPage - itemsPerPage;
    n
  }

  /** There are no pages exactly when there are no items. */
  lemma TotalPagesZero(count: nat, itemsPerPage: int)
    requires itemsPerPage >= 1
    ensures TotalPages(count, itemsPerPage) == 0 <==> count == 0
  {
  }

  /** A page from 1 on shows items exactly when it is no later than the last page. */
  lemma PageSliceNonEmptyIff<T>(s: seq<T>, page: int, itemsPerPage: int)
    requires page >= 1 && itemsPerPage >= 1
    ensures PageSlice(s, page, itemsPerPage) != [] <==> page <= TotalPages(|s|, itemsPerPage)
  {
    var n := TotalPages(|s|, itemsPerPage);
    PageSliceBounds(s, page, itemsPerPage);
    if page <= n {
      MulMonotonic(page - 1, n - 1, itemsPerPage);
    } else {
      MulMonotonic(n, page - 1, itemsPerPage);
    }
  }

  /** Page 1, where every action but `goToPage` leaves the table, shows the
      first `itemsPerPage` items of the list (all of them when there are fewer). */
  lemma FirstPage<T>(s: seq<T>, itemsPerPage: int)
    requires itemsPerPage >= 1
    ensures PageSlice(s, 1, itemsPerPage) == s[..Min(itemsPerPage, |s|)]
  {
    PageSliceBounds(s, 1, itemsPerPage);
  }

  /** The numbers `updatePaginationInfo` shows: "showing first - last of count". */
  function InfoRange(page: int, itemsPerPage: int, count: nat): (r: (int, int))
    ensures page >= 1 && itemsPerPage >= 1 ==> r.0 >= 1 && r.1 <= count
    ensures r.1 - r.0 + 1 <= itemsPerPage
  {
    ((page - 1) * itemsPerPage + 1, Min(page * itemsPerPage, count))
  }

  /** For a page that shows items, the caption names exactly the 1-based
      positions of those items in the list. */
  lemma InfoRangeMatchesSlice<T>(s: seq<T>, page: int, itemsPerPage: int)
    requires page >= 1 && itemsPerPage >= 1 && PageSlice(s, page, itemsPerPage) != []
    ensures var (first, last) := InfoRange(page, itemsPerPage, |s|);
      && 1 <= first <= last <= |s|
      && last - first + 1 == |PageSlice(s, page, itemsPerPage)|
      && PageSlice(s, page, itemsPerPage) == s[first - 1..last]
  {
    PageSliceBounds(s, page, itemsPerPage);
    assert page * itemsPerPage == PageStart(page, itemsPerPage) + itemsPerPage;
  }
}
