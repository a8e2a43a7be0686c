/**
 * Runs of the viewer from its initial state, as a user would drive it:
 * each method builds a fresh `App`, applies a sequence of events and
 * completions, and states what was requested or shown.
 */
module Scenarios {
  import opened Wrappers
  import opened JsValues
  import opened Filters
  import opened Pagination
  import opened Query
  import opened Records
  import opened Viewer

  const EmptyBody: JsValue := JsArray([])

  /**
   * The first render fetches page 1 with every filter empty, `limit=10` and
   * no offset: `?status=&original_launch=&type=&limit=10`.
   */
  method InitialLoad() returns (request: Option<seq<Param>>)
    ensures request == Some([Param("status", ""), Param("original_launch", ""), Param("type", ""), Param("limit", "10")])
  {
    var app := new App();
    request := app.OnPageChange();
    CapsulesRequestListed(NoFilters, 1, true);
  }

  /** On the last of the two pages Next and Last are disabled and Next does nothing. */
  method LastPage() returns (nextDisabled: bool, lastDisabled: bool, request: Option<seq<Param>>, page: int)
    ensures nextDisabled && lastDisabled
    ensures request == None && page == 2
  {
    MaxPageValue();
    var app := new App();
    var first := app.OnPageChange();
    app.Complete(Fulfilled(EmptyBody));
    var second := app.Click(Next);
    PageSizeText();
    assert second.Some? && Lookup(second.value, "offset") == Some("10");
    app.Complete(Fulfilled(EmptyBody));
    nextDisabled, lastDisabled := app.ButtonDisabled(Next), app.ButtonDisabled(Last);
    request := app.Click(Next);
    page := app.page;
  }

  /**
   * A status chosen while on page 2 is searched without an offset,
   * `?status=active&original_launch=&type=&limit=10`; the pager
   * is hidden while the page stays 2.
   */
  method FilterOnSecondPage() returns (request: Option<seq<Param>>, page: int, pagerShown: bool)
    ensures request == Some([Param("status", "active"), Param("original_launch", ""), Param("type", ""), Param("limit", "10")])
    ensures page == 2 && !pagerShown
  {
    MaxPageValue();
    var app := new App();
    var first := app.OnPageChange();
    app.Complete(Fulfilled(EmptyBody));
    var second := app.Click(Next);
    app.Complete(Fulfilled(EmptyBody));
    app.SetStatus(Active);
    request := app.Search();
    CapsulesRequestListed(app.CurrentFilters(), 2, false);
    page := app.page;
    pagerShown := app.ShowsPager();
  }

  /** A failed fetch empties the list; searching again issues the same request again. */
  method SearchAfterFailure() returns (shown: seq<Record>, first: Option<seq<Param>>, second: Option<seq<Param>>)
    ensures shown == []
    ensures first.Some? && first == second
  {
    var app := new App();
    first := app.Search();
    app.Complete(Rejected);
    shown := app.list;
    second := app.Search();
  }

  /**
   * The initial fetch is still loading when a filtered search is issued; the
   * filtered answer arrives first and the unfiltered one last, so the list
   * ends up holding the unfiltered records although the filter is still set.
   */
  method StaleResponseWins(unfiltered: JsValue, filtered: JsValue) returns (shown: seq<Record>, status: StatusChoice)
    requires Reconcile(unfiltered).Some? && Reconcile(filtered).Some?
    ensures shown == Reconcile(unfiltered).value && status == Active
  {
    var app := new App();
    var initial := app.OnPageChange();
    app.SetStatus(Active);
    var search := app.Search();
    app.Complete(Fulfilled(filtered));
    app.Complete(Fulfilled(unfiltered));
    shown := app.list;
    status := app.status;
  }
}
