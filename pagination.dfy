/**
 * The Paginator of display_framework.py: a fixed sequence cut into pages of
 * a fixed size, with a movable current page. The page arithmetic is shared
 * with the track browser of tidal_tool.py.
 */
module Pagination {
  import opened Text

  function Min(a: int, b: int): int { if a <= b then a else b }
  function Max(a: int, b: int): int { if a >= b then a else b }

  /** `(n + size - 1) // size`: the number of pages needed for `n` items. */
  function CeilDiv(n: nat, size: nat): (c: nat)
    requires size >= 1
    ensures n == 0 ==> c == 0
    ensures n > 0 ==> c >= 1 && (c - 1) * size < n <= c * size
  {
    var c := (n + size - 1) / size;
    assert n + size - 1 == c * size + (n + size - 1) % size;
    MulPred(c, size);
    c
  }

  lemma MulPred(c: int, size: int)
    ensures (c - 1) * size == c * size - size
  {
  }

  /** `max(1, ceil(n / size))`: an empty sequence still has one (empty) page. */
  function PageCount(n: nat, size: nat): (c: nat)
    requires size >= 1
    ensures c >= 1
    ensures n == 0 ==> c == 1
    ensures n > 0 ==> (c - 1) * size < n <= c * size
  {
    Max(1, CeilDiv(n, size))
  }

  lemma MulMono(a: int, b: int, size: nat)
    ensures a <= b ==> a * size <= b * size
  {
  }

  /** Paginator.get_page: `[]` outside 1..PageCount, else `items[(p-1)*size : min((p-1)*size + size, n)]`. */
  function PageSlice<T>(items: seq<T>, size: nat, p: int): (r: seq<T>)
    requires size >= 1
    ensures p < 1 || p > PageCount(|items|, size) ==> r == []
    ensures 1 <= p <= PageCount(|items|, size) ==>
      (p - 1) * size <= |items| && r == items[(p - 1) * size .. Min((p - 1) * size + size, |items|)]
    ensures |r| <= size
  {
    if p < 1 || p > PageCount(|items|, size) then []
    else
      var start := (p - 1) * size;
      MulMono(p - 1, PageCount(|items|, size) - 1, size);
      items[start .. Min(start + size, |items|)]
  }

  /** The pages p, p+1, ..., PageCount concatenated. */
  function PagesFrom<T>(items: seq<T>, size: nat, p: nat): seq<T>
    requires size >= 1 && p >= 1
    decreases PageCount(|items|, size) + 1 - p
  {
    if p > PageCount(|items|, size) then [] else PageSlice(items, size, p) + PagesFrom(items, size, p + 1)
  }

  lemma SplitAt<T>(s: seq<T>, i: nat, j: nat)
    requires i <= j <= |s|
    ensures s[i..] == s[i..j] + s[j..]
  {
  }

  lemma MulSucc(p: int, size: nat)
    ensures (p - 1) * size + size == p * size
  {
  }

  /** Where page `p` starts relative to the end of the items. */
  lemma PageArith(n: nat, size: nat, p: nat)
    requires size >= 1 && p >= 1 && (p - 1) * size <= n
    ensures p > PageCount(n, size) ==> (p - 1) * size == n
    ensures p <= PageCount(n, size) && p * size > n ==> p == PageCount(n, size)
  {
    var c := PageCount(n, size);
    MulMono(c, p - 1, size);
    MulMono(p, c - 1, size);
  }

  lemma {:induction false} PagesFromSuffix<T>(items: seq<T>, size: nat, p: nat)
    requires size >= 1 && p >= 1 && (p - 1) * size <= |items|
    ensures PagesFrom(items, size, p) == items[(p - 1) * size..]
    decreases PageCount(|items|, size) + 1 - p
  {
    var c := PageCount(|items|, size);
    var st := (p - 1) * size;
    MulSucc(p, size);
    var next := p * size;
    PageArith(|items|, size, p);
    if p > c {
      assert PagesFrom(items, size, p) == [];
    } else if next <= |items| {
      assert PageSlice(items, size, p) == items[st .. next];
      assert (p + 1 - 1) * size == next;
      PagesFromSuffix(items, size, p + 1);
      SplitAt(items, st, next);
    } else {
      assert PageSlice(items, size, p) == items[st..];
      assert PagesFrom(items, size, p + 1) == [];
    }
  }

  /** Pages 1..PageCount cover the items exactly once, in order, with no gap and no overlap. */
  lemma PagesPartition<T>(items: seq<T>, size: nat)
    requires size >= 1
    ensures PagesFrom(items, size, 1) == items
  {
    PagesFromSuffix(items, size, 1);
  }

  /** Every page but the last is full; the last page holds the remainder (at least one item when there are items). */
  lemma PageSizes<T>(items: seq<T>, size: nat, p: int)
    requires size >= 1 && 1 <= p <= PageCount(|items|, size)
    ensures p < PageCount(|items|, size) ==> |PageSlice(items, size, p)| == size
    ensures p == PageCount(|items|, size) ==> |PageSlice(items, size, p)| == |items| - (p - 1) * size
    ensures |items| > 0 ==> |PageSlice(items, size, p)| > 0
  {
    var c := PageCount(|items|, size);
    if p < c {
      MulMono(p, c - 1, size);
    }
  }

  /**
   * get_page_info's range "Showing start-end": both 1-based and inclusive, so an
   * empty sequence reads "1-0"; the range is exactly the positions of the page.
   */
  function ShowingRange(n: nat, size: nat, page: int): (r: (int, int))
    requires size >= 1
  {
    ((page - 1) * size + 1, Min(page * size, n))
  }

  lemma ShowingRangeIsPage<T>(items: seq<T>, size: nat, page: int)
    requires size >= 1 && 1 <= page <= PageCount(|items|, size)
    ensures var (s, e) := ShowingRange(|items|, size, page);
      1 <= s && s - 1 <= e <= |items| && items[s - 1 .. e] == PageSlice(items, size, page)
    ensures |items| == 0 ==> ShowingRange(|items|, size, page) == (1, 0)
  {
    MulMono(page - 1, PageCount(|items|, size) - 1, size);
  }

  /** A paginator over a fixed sequence; only the current page moves. */
  class Paginator<T> {
    const items: seq<T>
    const itemsPerPage: nat
    const totalItems: nat
    const totalPages: nat
    var currentPage: int

    ghost predicate Valid()
      reads this
    {
      itemsPerPage >= 1 && totalItems == |items| &&
      totalPages == PageCount(totalItems, itemsPerPage) &&
      1 <= currentPage <= totalPages
    }

    /** __init__: `total_pages = max(1, ceil(n / size))`, starting on page 1. */
    constructor (items: seq<T>, itemsPerPage: nat)
      requires itemsPerPage >= 1
      ensures Valid()
      ensures this.items == items && this.itemsPerPage == itemsPerPage && totalItems == |items|
      ensures totalPages == PageCount(|items|, itemsPerPage) && currentPage == 1
    {
      this.items := items;
      this.itemsPerPage := itemsPerPage;
      this.totalItems := |items|;
      this.totalPages := PageCount(|items|, itemsPerPage);
      this.currentPage := 1;
    }

    /** get_page: the p-th page, or `[]` when p is out of range. */
    function GetPage(p: int): (r: seq<T>)
      requires Valid()
      reads this
      ensures p < 1 || p > totalPages ==> r == []
      ensures 1 <= p <= totalPages ==>
        var start := (p - 1) * itemsPerPage;
        start <= totalItems && r == items[start .. Min(start + itemsPerPage, totalItems)]
      ensures |r| <= itemsPerPage
    {
      PageSlice(items, itemsPerPage, p)
    }

    /** get_current_page. */
    function GetCurrentPage(): (r: seq<T>)
      requires Valid()
      reads this
      ensures r == GetPage(currentPage)
      ensures totalItems > 0 ==> 0 < |r| <= itemsPerPage
    {
      PageSizes(items, itemsPerPage, currentPage);
      GetPage(currentPage)
    }

    /** next_page: moves forward and reports true exactly when not already on the last page. */
    method NextPage() returns (moved: bool)
      requires Valid()
      modifies this
      ensures Valid()
      ensures moved <==> old(currentPage) < totalPages
      ensures currentPage == if moved then old(currentPage) + 1 else old(currentPage)
    {
      if currentPage < totalPages {
        currentPage := currentPage + 1;
        return true;
      }
      return false;
    }

    /** previous_page: moves back and reports true exactly when not already on page 1. */
    method PreviousPage() returns (moved: bool)
      requires Valid()
      modifies this
      ensures Valid()
      ensures moved <==> old(currentPage) > 1
      ensures currentPage == if moved then old(currentPage) - 1 else old(currentPage)
    {
      if currentPage > 1 {
        currentPage := currentPage - 1;
        return true;
      }
      return false;
    }

    /** get_page_info: "Page c of t | Showing s-e of n". */
    function GetPageInfo(): (r: string)
      requires Valid()
      reads this
      ensures var (s, e) := ShowingRange(totalItems, itemsPerPage, currentPage);
        s >= 1 && e >= 0 &&
        r == "Page " + NatToString(currentPage) + " of " + NatToString(totalPages)
          + " | Showing " + NatToString(s) + "-" + NatToString(e) + " of " + NatToString(totalItems)
    {
      var (s, e) := ShowingRange(totalItems, itemsPerPage, currentPage);
      MulMono(0, currentPage - 1, itemsPerPage);
      "Page " + NatToString(currentPage) + " of " + NatToString(totalPages)
        + " | Showing " + NatToString(s) + "-" + NatToString(e) + " of " + NatToString(totalItems)
    }
  }

  /** 45 items at 20 per page: three pages, the last holding 5 items. */
  lemma FortyFiveItems<T>(items: seq<T>)
    requires |items| == 45
    ensures PageCount(45, 20) == 3
    ensures |PageSlice(items, 20, 3)| == 5 && PageSlice(items, 20, 4) == []
  {
  }
}
