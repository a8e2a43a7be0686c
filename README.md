# SpaceX capsules viewer: pagination, filters and fetch coordination

This project models the state machine inside the `App` component of a
client-side viewer for the SpaceX capsules catalog. The component holds the
current page, three filters (status, type, launch time), a loading flag, the
list of records on display and a flag that says whether the pager is shown.
The item count (19) and the page size (10) are fixed, so the last page is
`floor((19 + 10 - 1) / 10) = 2`.

`getCapsules` is the fetch coordinator. It marks the view as loading. With a
filter set, it hides the pager and requests the filtered records. It adds an
offset only for a page-change call past page 1, whatever the filters. No
request the interface can trigger with a filter set carries an offset, though:
a search is not a page-change call, and the pager that changes pages is hidden
while a filter is set. Without a filter, it shows the pager. A call that did not come from a
page change and finds the page away from 1 moves to page 1 and issues nothing
itself: the effect on `page` then fetches page 1. Otherwise it requests the
current page, with `offset=(page-1)*10` when it came from a page change past
page 1. The completion handlers install the records with every `status`
capitalized, or the empty list on failure, and clear the loading flag.

Modules, leaf first:

- `Wrappers`: the `Option` type (`None` models JavaScript `null`).
- `JsValues`: JSON values as the response body holds them, and records.
- `Text`: `capitalizeFirstLetter` with its ASCII case mapping, decimal
  numerals with their reader, and splitting at a separator.
- `Filters`: the closed choices of the two drop-downs and the launch text.
- `Pagination`: the page count, the four guarded navigation steps, the
  disabled and visibility rules of the pager.
- `Query`: the request parameters, the URL they form, and a reader that
  recovers them from the URL.
- `Records`: the success and failure handlers as functions of the outcome.
- `Viewer`: class `App`, whose fields are the component's state and whose
  methods are its handlers.
- `Scenarios`: runs from the initial state (first load, last page, filter on
  page 2, failure then search, a stale response).

How the source's behaviour is stated:

- The HTTP call becomes an outcome, `Fulfilled(body)` or `Rejected`. A method
  that issues a request returns its parameters. The completion is applied
  later by `App.Complete`, in whatever order the caller chooses.
- Nothing ties a completion to the request it answers. The last completion
  applied sets `list` and clears `loading`, even while a newer request is in
  flight. `Scenarios.StaleResponseWins` shows an unfiltered answer that lands
  last replacing the filtered one.
- A change of `page` runs the effect `getCapsules(true)`. `App.Click` and
  `App.Search` call `App.OnPageChange` exactly when the handler changed the page.
- The success handler throws when the body is not an array or holds a `null`
  or `undefined` item. The promise returned by `.then(onSuccess, onFailure)`
  then rejects unhandled. Neither `list` nor `loading` changes, so the view
  stays in its loading state. `Records.Settle` returns `None` for this case.

The model follows the code where a cleaner design would behave differently:

- The request always carries `status=`, `original_launch=` and `type=`, empty
  when unset. They are not left out.
- The last page is `floor((total + pageSize - 1) / pageSize)` with no lower
  bound of 1. With 19 items it is 2.
- First and Previous are disabled when `!(page > 1)`, and Next and Last when
  `!(page < maxPage)`.
- Pager navigation is possible only without a filter because the pager is
  not rendered otherwise. `App.Click` requires `App.ShowsPager()` for that
  reason. The handlers themselves do not check the filters.
- There is no request token and no discarding of stale responses.

## Model

| member | source | states |
|---|---|---|
| Text.CapitalizeFirstLetter | src/App.js:22-25 | null exactly for a non-string or empty input; otherwise a string of the same length whose tail is unchanged and whose first character is upper-cased |
| Text.UpperCase | src/App.js:24 | lower-case ASCII letters map to the upper-case letter at the same alphabet position; every other character is kept; the result is never lower-case |
| Text.CapitalizeIdempotent | src/App.js:22-25 | capitalizing a capitalized string gives it back unchanged |
| Text.DecimalString | src/App.js:39 | numbers in the template literal are non-empty digit strings with no leading zero |
| Text.ParseDecimalString | src/App.js:39 | reading the rendered limit or offset back gives the number |
| Filters.StatusText | src/App.js:92-95 | the status value is empty for "Any" and otherwise one of the four status names |
| Filters.TypeText | src/App.js:99-102 | the type value is empty for "Any" and otherwise one of the three type names |
| Filters.AnyFilterSet | src/App.js:29 | the filter test holds exactly when some choice is not "Any" or the launch text is non-empty, that is, exactly when the filters differ from the initial empty ones |
| Pagination.CeilDiv | src/App.js:72 | `floor((n+d-1)/d)` is the least page count whose pages hold n items |
| Pagination.MaxPageValue | src/App.js:9-10 | with 19 items and 10 per page the last page is 2 |
| Pagination.Navigate | src/App.js:61-79 | a handler leaves the page unchanged exactly when its button is disabled; from a page in [1, maxPage] it stays in that range; an enabled First goes to 1, Last to maxPage, Previous to page - 1 and Next to page + 1 |
| Pagination.Disabled | src/App.js:139-143 | on a page in [1, maxPage], First and Previous are disabled exactly on page 1, and Next and Last exactly on maxPage |
| Pagination.NavigateFirstLastIdempotent | src/App.js:61-79 | a second click on First or Last changes nothing |
| Pagination.NavigateAllInRange | src/App.js:61-79 | any sequence of clicks keeps the page in [1, maxPage] |
| Pagination.NextRepeated | src/App.js:71-74 | k clicks on Next end on min(page + k, maxPage) |
| Pagination.PreviousRepeated | src/App.js:66-69 | k clicks on Previous end on max(page - k, 1) |
| Pagination.PagerVisible | src/App.js:138 | the pager is shown exactly when not loading, no filter is set and showPages holds |
| Query.CapsulesRequest | src/App.js:39 | the request carries status, original_launch, type and limit in that order; values are verbatim, the launch text gets `:00.000Z` when non-empty, limit is 10, and offset is present exactly for a page-change call past page 1, with value (page-1)*10 |
| Query.LookupFirst | src/App.js:39 | a parameter read finds the first parameter with that name, and nothing when none has it |
| Query.QueryString | src/App.js:39 | the query string is the parameters rendered `key=value` and joined with `&` |
| Query.QueryRoundTrip | src/App.js:39 | a query string built from parameters without separators in them splits and reads back as those parameters in order |
| Query.Url | src/App.js:39 | the URL is the endpoint, `?` and the query string of `key=value` pieces; when the parameters hold no separators, reading the URL back gives exactly those parameters |
| Query.RequestUrlRoundTrip | src/App.js:39 | the URL `getCapsules` requests reads back as its parameters when the launch text holds no `&` |
| Query.RequestDeterminesFilters | src/App.js:39 | two filter settings that send the same request on the same page are equal: distinct options give distinct status, type or launch values |
| Query.LaunchValueInjective | src/App.js:39 | distinct launch texts give distinct `original_launch` values |
| Filters.StatusTextInjective | src/App.js:92-95 | distinct status options carry distinct values |
| Filters.TypeTextInjective | src/App.js:99-102 | distinct type options carry distinct values |
| Query.CapsulesRequestListed | src/App.js:39 | without an offset the request is exactly the four parameters status, original_launch, type, limit=10 |
| Records.DisplayStatus | src/App.js:42 | the new status is a string exactly when the old one is a non-empty string, and null otherwise; the string has the old length, its first character upper-cased and the rest unchanged |
| Records.Spread | src/App.js:41 | spreading an object copies its fields; an array or a string gives the key "i" holding element i, and its keys are exactly the indices "0".."n-1"; a boolean or a number gives no keys |
| Records.IndexedEntriesAll | src/App.js:41 | the index entries of a sequence hold every element under its decimal index, and the keys are exactly the decimal indices |
| Records.StatusProperty | src/App.js:42 | `item.status` is the status entry of the item's own properties, and undefined when it has none |
| Records.IndexedEntriesAt | src/App.js:41 | spreading a string or an array yields the key "i" holding element i, for every index i |
| Records.IndexedEntriesKeys | src/App.js:41 | spreading a string or an array yields no key other than an index |
| Records.ReconcileItem | src/App.js:40-43 | the record keeps every key and value of the item except status, and status holds the capitalized value or null |
| Records.MapItems | src/App.js:40-43 | the map fails exactly when some item is null or undefined; otherwise one record per item, same length and order |
| Records.Reconcile | src/App.js:39-44 | the success handler succeeds exactly on an array without null or undefined items, and then yields the reconciled items in order |
| Records.Settle | src/App.js:39-49 | a failed request gives the empty list; a fulfilled one updates the list exactly when the body is an array without null or undefined items, and then installs one reconciled record per item, same length and order |
| Records.DisplayStatusIdempotent | src/App.js:22-25 | capitalizing a displayed status again changes nothing |
| Records.ReconcileItemIdempotent | src/App.js:40-43 | reconciling a reconciled record again changes nothing |
| Records.ReconcileIdempotent | src/App.js:40-43 | reconciling a body made of reconciled records gives back the same list |
| Viewer.App.constructor | src/App.js:11-20 | page 1, no filters, not loading, empty list, pager shown |
| Viewer.App.GetCapsules | src/App.js:27-39 | loading is set; showPages is true exactly when no filter is set; without filters a call not from a page change on a page other than 1 moves to page 1 and requests nothing; otherwise the page is kept and the request for the filters and page is issued; the page stays in range |
| Viewer.App.Complete | src/App.js:39-49 | failure empties the list; success installs the reconciled records; both clear loading; a throwing success handler changes nothing |
| Viewer.App.GoToFirstPage | src/App.js:61-64 | the page becomes Navigate(First, page), and stays in range |
| Viewer.App.GoToPreviousPage | src/App.js:66-69 | the page becomes Navigate(Previous, page), and stays in range |
| Viewer.App.GoToNextPage | src/App.js:71-74 | the page becomes Navigate(Next, page), and stays in range |
| Viewer.App.GoToLastPage | src/App.js:76-79 | the page becomes Navigate(Last, page), and stays in range |
| Viewer.App.OnPageChange | src/App.js:52-54 | the effect keeps the page, sets loading and requests the current page as a page-change call |
| Viewer.App.Click | src/App.js:139-143 | a click moves the page as its handler does; a request follows exactly when the button was enabled, for the new page with the pager shown; a disabled button changes nothing |
| Viewer.App.Search | src/App.js:109 | Search always issues exactly one request and never an offset; with a filter the page is kept and the pager hidden; without one the page becomes 1 and the pager is shown |
| Viewer.App.SetStatus | src/App.js:92 | the status becomes the chosen option; nothing is fetched |
| Viewer.App.SetType | src/App.js:99 | the type becomes the chosen option; nothing is fetched |
| Viewer.App.SetOriginalLaunch | src/App.js:106-107 | the launch text becomes the input, or empty for Clear; nothing is fetched |
| Viewer.FirstPageRequest | src/App.js:39 | on page 1 a page-change call and a search send the same request |
| Scenarios.InitialLoad | src/App.js:52-54 | the first load requests `status=&original_launch=&type=&limit=10` |
| Scenarios.LastPage | src/App.js:71-79 | on page 2 of 2, the returned disabled flags of Next and Last are both set, Next issues nothing and the page stays 2 |
| Scenarios.FilterOnSecondPage | src/App.js:27-39 | a status searched on page 2 is requested as `status=active&original_launch=&type=&limit=10`, the page stays 2 and the pager is hidden |
| Scenarios.SearchAfterFailure | src/App.js:45-49 | after a failure the list is empty and a second search issues the same request again |
| Scenarios.StaleResponseWins | src/App.js:39-49 | an earlier unfiltered answer applied after the filtered one replaces it |

## Left out

- The JSX markup, the CSS class strings and the inline height calculation (src/App.js:81-147): they are presentation. Only the pager's visibility and disabled rules are kept.
- The axios HTTP transport and `console.log` of the error: the request is returned as parameters and its completion is an outcome supplied by the caller.
- `showDashboard`: its animation class and two-second timer are presentation and timing. The timer runs the `getCapsules` closure of the render in which the intro button was clicked. That closure reads the filters and the page as they were at that click, not as they are when the timer fires. The model does not capture this stale closure. The deferred call acts as `App.Search` would on the state at the click: a filter chosen or a page turned within the two seconds does not reach it.
- React's effect scheduling and batching: each handler applies its updates in order, and a change of `page` is followed by `getCapsules(true)`.
- The rendering of launch dates with `toUTCString`: it is date and locale formatting.
- Text.UpperCase: maps only 'a'..'z'. JavaScript's `toUpperCase` also maps other letters, and some of them to two characters ('ß' becomes "SS"). The statuses the service sends are ASCII.
- JsValues.JsValue: JSON numbers are integers here. Fractions are not modelled because nothing in the core reads a number from the body.
- Records.Spread: a string spreads into one entry per Dafny character. JavaScript spreads UTF-16 code units, which differ only outside the Basic Multilingual Plane.
- Query.RequestUrlRoundTrip: holds only when the launch text has no `&`. The code applies no percent-encoding, and a `datetime-local` value never contains `&`.
- Validation of filter values: the drop-downs offer only the empty value or a member of the fixed lists, so the model makes them closed choices.
