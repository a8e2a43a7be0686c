/**
 * The pager: fixed item count and page size, the last page number, the four
 * guarded navigation steps and the rules for when the pager and its buttons
 * are enabled.
 */
module Pagination {
  import opened Filters

  const Total: nat := 19
  const PageSize: nat := 10

  /**
   * `Math.floor((n + d - 1) / d)`. For non-negative operands the floor of the
   * real quotient is Dafny's integer division. The result is the smallest
   * number of pages of `d` items that hold `n` items.
   */
  function CeilDiv(n: nat, d: nat): (q: nat)
    requires d > 0
    ensures q * d >= n
    ensures q > 0 ==> (q - 1) * d < n
  {
    var q := (n + d - 1) / d;
    var r := (n + d - 1) % d;
    assert q * d + r == n + d - 1;
    assert q * d >= n;
    assert q > 0 ==> (q - 1) * d == q * d - d;
    q
  }

  /** The number of the last page. */
  const MaxPage: nat := CeilDiv(Total, PageSize)

  lemma MaxPageValue()
    ensures MaxPage == 2
  {
  }

  /** The four pager buttons. */
  datatype Nav = First | Previous | Next | Last

  /** First and Previous are disabled unless `page > 1`; Next and Last unless `page < maxPage`. */
  predicate Disabled(nav: Nav, page: int, maxPage: int)
    ensures 1 <= page <= maxPage && (nav == First || nav == Previous) ==> (Disabled(nav, page, maxPage) <==> page == 1)
    ensures 1 <= page <= maxPage && (nav == Next || nav == Last) ==> (Disabled(nav, page, maxPage) <==> page == maxPage)
  {
    match nav
    case First | Previous => !(page > 1)
    case Next | Last => !(page < maxPage)
  }

  /**
   * The page after a click handler has run: a click at the edge the button
   * guards returns early; otherwise First goes to 1, Previous down one, Next
   * up one and Last to `maxPage`.
   */
  function Navigate(nav: Nav, page: int, maxPage: int): (r: int)
    ensures r == page <==> Disabled(nav, page, maxPage)
    ensures 1 <= page <= maxPage ==> 1 <= r <= maxPage
    ensures nav == First && page > 1 ==> r == 1
    ensures nav == Last && page < maxPage ==> r == maxPage
    ensures nav == Previous && page > 1 ==> r == page - 1
    ensures nav == Next && page < maxPage ==> r == page + 1
  {
    match nav
    case First => if page <= 1 then page else 1
    case Previous => if page <= 1 then page else page - 1
    case Next => if page >= maxPage then page else page + 1
    case Last => if page >= maxPage then page else maxPage
  }

  /** First and Last are idempotent: a second click is a no-op. */
  lemma NavigateFirstLastIdempotent(nav: Nav, page: int, maxPage: int)
    requires nav == First || nav == Last
    requires 1 <= page <= maxPage
    ensures Navigate(nav, Navigate(nav, page, maxPage), maxPage) == Navigate(nav, page, maxPage)
  {
  }

  /** The page after a run of clicks, each applied to the page the previous one left. */
  function NavigateAll(navs: seq<Nav>, page: int, maxPage: int): int
    decreases |navs|
  {
    if |navs| == 0 then page else NavigateAll(navs[1..], Navigate(navs[0], page, maxPage), maxPage)
  }

  /** However many buttons are clicked, the page stays within `[1, maxPage]`. */
  lemma {:induction false} NavigateAllInRange(navs: seq<Nav>, page: int, maxPage: int)
    requires 1 <= page <= maxPage
    ensures 1 <= NavigateAll(navs, page, maxPage) <= maxPage
    decreases |navs|
  {
    if |navs| > 0 {
      NavigateAllInRange(navs[1..], Navigate(navs[0], page, maxPage), maxPage);
    }
  }

  /** `k` clicks on Next from a page in range end on `min(page + k, maxPage)`. */
  lemma {:induction false} NextRepeated(k: nat, page: int, maxPage: int)
    requires 1 <= page <= maxPage
    ensures NavigateAll(seq(k, _ => Next), page, maxPage) == if page + k <= maxPage then page + k else maxPage
    decreases k
  {
    if k > 0 {
      var navs := seq(k, _ => Next);
      assert navs[1..] == seq(k - 1, _ => Next);
      NextRepeated(k - 1, Navigate(Next, page, maxPage), maxPage);
    }
  }

  /** `k` clicks on Previous end on `max(page - k, 1)`. */
  lemma {:induction false} PreviousRepeated(k: nat, page: int, maxPage: int)
    requires 1 <= page <= maxPage
    ensures NavigateAll(seq(k, _ => Previous), page, maxPage) == if page - k >= 1 then page - k else 1
    decreases k
  {
    if k > 0 {
      var navs := seq(k, _ => Previous);
      assert navs[1..] == seq(k - 1, _ => Previous);
      PreviousRepeated(k - 1, Navigate(Previous, page, maxPage), maxPage);
    }
  }

  /** `!(loading || status || type || originalLaunch) && showPages`: the pager is shown. */
  predicate PagerVisible(loading: bool, f: Filters, showPages: bool)
    ensures PagerVisible(loading, f, showPages) <==> !loading && showPages && f == NoFilters
  {
    !(loading || AnyFilterSet(f)) && showPages
  }
}
