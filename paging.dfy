/** The ten-row pagination shared by the copy-trade audit list and the
    recharge list of the back office: the row window requested for a page,
    the page count, and the clamped "previous"/"next" buttons. */
module Paging {

  const PageSize: nat := 10

  /** The inclusive row range `.range(from, to)` asks for on page `page`
      (pages count from 1). */
  datatype Window = Window(from: int, to: int)

  function PageWindow(page: int): (w: Window)
    ensures w.to - w.from + 1 == PageSize
    ensures page >= 1 ==> w.from >= 0
  {
    var from := (page - 1) * PageSize;
    Window(from, from + PageSize - 1)
  }

  /** Every row index lies in the window of exactly one page: pages are
      disjoint and leave no gap. */
  lemma {:induction false} RowOnExactlyOnePage(row: nat, page: int)
    requires page >= 1
    ensures PageWindow(page).from <= row <= PageWindow(page).to <==> page == row / PageSize + 1
  {
    var w := PageWindow(page);
    var q := row / PageSize;
    assert row == q * 10 + row % 10;
    if w.from <= row <= w.to {
      var k := page - 1;
      assert -10 < (k - q) * 10 < 10;
      assert k - q == 0;
    }
  }

  /** Consecutive pages are adjacent ten-row ranges. */
  lemma NextPageFollows(page: int)
    ensures PageWindow(page + 1).from == PageWindow(page).to + 1
  {
  }

  /** `Math.ceil(total / pageSize)`. */
  function TotalPages(total: nat): (n: nat)
    ensures n * PageSize >= total
    ensures n * PageSize < total + PageSize
  {
    (total + PageSize - 1) / PageSize
  }

  /** The "previous" button: `Math.max(1, p - 1)`. */
  function PrevPage(page: int): (p: int)
    ensures p >= 1
    ensures page > 1 ==> p == page - 1
    ensures page <= 1 ==> p == 1
  {
    if page - 1 > 1 then page - 1 else 1
  }

  /** The "next" button: `Math.min(totalPages, p + 1)`. */
  function NextPage(page: int, totalPages: int): (p: int)
    ensures p <= totalPages
    ensures page < totalPages ==> p == page + 1
    ensures page >= totalPages ==> p == totalPages
  {
    if totalPages < page + 1 then totalPages else page + 1
  }

  /** Starting from a page in range, the buttons never leave 1..totalPages. */
  lemma NavigationStaysInRange(page: int, totalPages: int)
    requires 1 <= page <= totalPages
    ensures 1 <= PrevPage(page) <= totalPages
    ensures 1 <= NextPage(page, totalPages) <= totalPages
  {
  }
}
