/**
 * The `App` component's state and its handlers: the fetch coordinator
 * `getCapsules`, the completion handlers of its request, the four pager
 * handlers, the filter inputs, and the effect that refetches whenever the
 * page changes.
 *
 * React's re-rendering is modelled sequentially: each handler applies its
 * updates in order, and a handler that changed `page` is followed by the
 * effect, `getCapsules(true)`. A request is issued by returning its
 * parameters; it completes later, in any order, through `Complete`.
 */
module Viewer {
  import opened Wrappers
  import opened JsValues
  import opened Filters
  import opened Pagination
  import opened Query
  import opened Records

  class App {
    var page: int
    var status: StatusChoice
    var capsuleType: TypeChoice
    var originalLaunch: string
    var loading: bool
    var list: seq<Record>
    var showPages: bool

    /** The page number stays on an existing page. */
    ghost predicate Valid()
      reads this
    {
      1 <= page <= MaxPage
    }

    /** The initial state of every `useState`. */
    constructor ()
      ensures Valid()
      ensures page == 1 && CurrentFilters() == NoFilters
      ensures !loading && list == [] && showPages
    {
      page := 1;
      status := AnyStatus;
      capsuleType := AnyType;
      originalLaunch := "";
      loading := false;
      list := [];
      showPages := true;
    }

    function CurrentFilters(): Filters
      reads this
    {
      Filters(status, capsuleType, originalLaunch)
    }

    /** The pager is rendered. */
    predicate ShowsPager()
      reads this
    {
      PagerVisible(loading, CurrentFilters(), showPages)
    }

    /** The button is rendered with the `disabled` class. */
    predicate ButtonDisabled(nav: Nav)
      reads this
    {
      Disabled(nav, page, MaxPage)
    }

    /** Without filters, a call that did not come from a page change first returns to page 1. */
    predicate ResetsPage(pageButtonClicked: bool)
      reads this
    {
      !AnyFilterSet(CurrentFilters()) && !pageButtonClicked && page != 1
    }

    /**
     * `getCapsules(pageButtonClicked)`: marks the view as loading and shows
     * the pager exactly when no filter is set; then either moves to page 1
     * and issues nothing, or issues the request for the current filters and
     * page. The list is left to the completion handlers.
     */
    method GetCapsules(pageButtonClicked: bool) returns (request: Option<seq<Param>>)
      requires Valid()
      modifies this`loading, this`showPages, this`page
      ensures Valid()
      ensures loading
      ensures showPages == !AnyFilterSet(CurrentFilters())
      ensures old(ResetsPage(pageButtonClicked)) ==> page == 1 && request == None
      ensures !old(ResetsPage(pageButtonClicked)) ==>
                page == old(page) && request == Some(CapsulesRequest(CurrentFilters(), page, pageButtonClicked))
    {
      loading := true;
      if AnyFilterSet(CurrentFilters()) {
        showPages := false;
      } else {
        showPages := true;
        if !pageButtonClicked && page != 1 {
          page := 1;
          return None;
        }
      }
      request := Some(CapsulesRequest(CurrentFilters(), page, pageButtonClicked));
    }

    /**
     * The completion handler of a request: on success the reconciled
     * records, on failure the empty list, and in both cases loading ends.
     * A success handler that throws updates nothing. Nothing ties the
     * completion to the request it answers, so the last one applied wins.
     */
    method Complete(outcome: Outcome)
      modifies this`list, this`loading
      ensures outcome.Rejected? ==> list == [] && !loading
      ensures Settle(outcome).Some? ==> list == Settle(outcome).value && !loading
      ensures Settle(outcome).None? ==> list == old(list) && loading == old(loading)
    {
      match outcome
      case Rejected =>
        list := [];
        loading := false;
      case Fulfilled(data) =>
        var records := Reconcile(data);
        if records.Some? {
          list := records.value;
          loading := false;
        }
    }

    method GoToFirstPage()
      modifies this`page
      ensures page == Navigate(First, old(page), MaxPage)
      ensures old(Valid()) ==> Valid()
    {
      if page <= 1 {
        return;
      }
      page := 1;
    }

    method GoToPreviousPage()
      modifies this`page
      ensures page == Navigate(Previous, old(page), MaxPage)
      ensures old(Valid()) ==> Valid()
    {
      if page <= 1 {
        return;
      }
      page := page - 1;
    }

    method GoToNextPage()
      modifies this`page
      ensures page == Navigate(Next, old(page), MaxPage)
      ensures old(Valid()) ==> Valid()
    {
      if page >= CeilDiv(Total, PageSize) {
        return;
      }
      page := page + 1;
    }

    method GoToLastPage()
      modifies this`page
      ensures page == Navigate(Last, old(page), MaxPage)
      ensures old(Valid()) ==> Valid()
    {
      if page >= CeilDiv(Total, PageSize) {
        return;
      }
      page := CeilDiv(Total, PageSize);
    }

    /** The effect on `page`: after the first render and after every change of the page. */
    method OnPageChange() returns (request: Option<seq<Param>>)
      requires Valid()
      modifies this`loading, this`showPages, this`page
      ensures Valid() && loading && page == old(page)
      ensures showPages == !AnyFilterSet(CurrentFilters())
      ensures request == Some(CapsulesRequest(CurrentFilters(), page, true))
    {
      request := GetCapsules(true);
    }

    /**
     * A click on a pager button, which exists only while the pager is shown:
     * the handler moves the page, and a move triggers the effect's request
     * for the new page. A disabled button changes nothing.
     */
    method Click(nav: Nav) returns (request: Option<seq<Param>>)
      requires Valid() && ShowsPager()
      modifies this`loading, this`showPages, this`page
      ensures Valid()
      ensures page == Navigate(nav, old(page), MaxPage)
      ensures request.Some? <==> !old(ButtonDisabled(nav))
      ensures request.Some? ==> loading && showPages && request.value == CapsulesRequest(CurrentFilters(), page, true)
      ensures request.None? ==> loading == old(loading) && showPages == old(showPages)
    {
      var before := page;
      match nav {
        case First => GoToFirstPage();
        case Previous => GoToPreviousPage();
        case Next => GoToNextPage();
        case Last => GoToLastPage();
      }
      if page != before {
        request := OnPageChange();
      } else {
        request := None;
      }
    }

    /**
     * The Search button, `getCapsules()`: always ends in exactly one request
     * and never sends an offset. With a filter set the page is kept and the
     * pager hidden; without one the view returns to page 1 (through the
     * effect when it was elsewhere) and shows the pager.
     */
    method Search() returns (request: Option<seq<Param>>)
      requires Valid()
      modifies this`loading, this`showPages, this`page
      ensures Valid() && loading
      ensures request.Some? && Lookup(request.value, "offset") == None
      ensures AnyFilterSet(CurrentFilters()) ==>
                page == old(page) && !showPages && request.value == CapsulesRequest(CurrentFilters(), page, false)
      ensures !AnyFilterSet(CurrentFilters()) ==>
                page == 1 && showPages && request.value == CapsulesRequest(CurrentFilters(), 1, false)
    {
      var before := page;
      request := GetCapsules(false);
      if page != before {
        request := OnPageChange();
        FirstPageRequest(CurrentFilters());
      }
    }

    /** The status drop-down. It does not fetch. */
    method SetStatus(s: StatusChoice)
      modifies this`status
      ensures status == s
    {
      status := s;
    }

    /** The type drop-down. It does not fetch. */
    method SetType(t: TypeChoice)
      modifies this`capsuleType
      ensures capsuleType == t
    {
      capsuleType := t;
    }

    /** The launch-time input, and with `""` its Clear button. It does not fetch. */
    method SetOriginalLaunch(text: string)
      modifies this`originalLaunch
      ensures originalLaunch == text
    {
      originalLaunch := text;
    }
  }

  /** On page 1 a page-change fetch and a search send the same request. */
  lemma FirstPageRequest(f: Filters)
    ensures CapsulesRequest(f, 1, true) == CapsulesRequest(f, 1, false)
  {
  }
}
