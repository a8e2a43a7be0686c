/**
 * The request `getCapsules` sends: its query parameters, the URL they are
 * written into, and a reader for such URLs that recovers the parameters.
 */
module Query {
  import opened Wrappers
  import opened Text
  import opened Filters
  import opened Pagination

  const Endpoint: string := "https://api.spacexdata.com/v3/capsules"

  /** Appended to the `datetime-local` text (minutes precision) to form a full timestamp. */
  const LaunchSuffix: string := ":00.000Z"

  datatype Param = Param(key: string, value: string)

  function Keys(ps: seq<Param>): (ks: seq<string>)
    ensures |ks| == |ps| && forall i :: 0 <= i < |ps| ==> ks[i] == ps[i].key
  {
    seq(|ps|, i requires 0 <= i < |ps| => ps[i].key)
  }

  /** The value of the first parameter named `key`, as a query-string reader finds it. */
  function Lookup(ps: seq<Param>, key: string): Option<string>
    decreases |ps|
  {
    if |ps| == 0 then None
    else if ps[0].key == key then Some(ps[0].value)
    else Lookup(ps[1..], key)
  }

  /** Lookup finds the first parameter with the key, and nothing when none has it. */
  lemma {:induction false} LookupFirst(ps: seq<Param>, key: string, i: int)
    requires 0 <= i <= |ps|
    requires forall j :: 0 <= j < i ==> ps[j].key != key
    ensures i < |ps| && ps[i].key == key ==> Lookup(ps, key) == Some(ps[i].value)
    ensures i == |ps| ==> Lookup(ps, key) == None
    decreases i
  {
    if i > 0 {
      LookupFirst(ps[1..], key, i - 1);
    }
  }

  /** `originalLaunch && originalLaunch + ':00.000Z'`. */
  function LaunchValue(launch: string): string
  {
    if launch == "" then "" else launch + LaunchSuffix
  }

  /** The suffix keeps distinct launch texts apart. */
  lemma LaunchValueInjective(a: string, b: string)
    requires LaunchValue(a) == LaunchValue(b)
    ensures a == b
  {
    if a != "" && b != "" {
      assert |a| == |b|;
      assert a == (a + LaunchSuffix)[..|a|];
      assert b == (b + LaunchSuffix)[..|b|];
    }
  }

  /** The filter parameters and the page size, which every request carries. */
  function BaseParams(f: Filters): seq<Param>
  {
    [ Param("status", StatusText(f.status)),
      Param("original_launch", LaunchValue(f.originalLaunch)),
      Param("type", TypeText(f.capsuleType)),
      Param("limit", DecimalString(PageSize)) ]
  }

  /** `(pageButtonClicked && page>1) ? '&offset='+(page-1)*pageSize : ''`. */
  function OffsetParams(page: int, pageButtonClicked: bool): seq<Param>
  {
    if pageButtonClicked && page > 1 then [Param("offset", DecimalString((page - 1) * PageSize))] else []
  }

  lemma RequestLookups(f: Filters, page: int, pageButtonClicked: bool)
    ensures var ps := BaseParams(f) + OffsetParams(page, pageButtonClicked);
      && Lookup(ps, "status") == Some(StatusText(f.status))
      && Lookup(ps, "original_launch") == Some(LaunchValue(f.originalLaunch))
      && Lookup(ps, "type") == Some(TypeText(f.capsuleType))
      && Lookup(ps, "limit") == Some("10")
      && Lookup(ps, "offset") == if pageButtonClicked && page > 1 then Some(DecimalString((page - 1) * PageSize)) else None
  {
    PageSizeText();
    var ps := BaseParams(f) + OffsetParams(page, pageButtonClicked);
    LookupFirst(ps, "status", 0);
    LookupFirst(ps, "original_launch", 1);
    LookupFirst(ps, "type", 2);
    LookupFirst(ps, "limit", 3);
    LookupFirst(ps, "offset", 4);
  }

  /**
   * The parameters of the request `getCapsules(pageButtonClicked)` issues:
   * status, original_launch and type verbatim (empty when unset), then the
   * page size as `limit`, and an `offset` only for a page-button fetch past
   * the first page.
   */
  function CapsulesRequest(f: Filters, page: int, pageButtonClicked: bool): (ps: seq<Param>)
    ensures |ps| >= 4 && Keys(ps)[..4] == ["status", "original_launch", "type", "limit"]
    ensures Lookup(ps, "status") == Some(StatusText(f.status))
    ensures Lookup(ps, "type") == Some(TypeText(f.capsuleType))
    ensures Lookup(ps, "original_launch") == Some(if f.originalLaunch == "" then "" else f.originalLaunch + ":00.000Z")
    ensures Lookup(ps, "limit") == Some("10")
    ensures Lookup(ps, "offset").Some? <==> pageButtonClicked && page > 1
    ensures Lookup(ps, "offset").Some? ==> Lookup(ps, "offset") == Some(DecimalString((page - 1) * 10))
    ensures |ps| == if pageButtonClicked && page > 1 then 5 else 4
  {
    RequestLookups(f, page, pageButtonClicked);
    BaseParams(f) + OffsetParams(page, pageButtonClicked)
  }

  /** Distinct filters never send the same request: the request determines the filters. */
  lemma RequestDeterminesFilters(f: Filters, g: Filters, page: int, pageButtonClicked: bool)
    requires CapsulesRequest(f, page, pageButtonClicked) == CapsulesRequest(g, page, pageButtonClicked)
    ensures f == g
  {
    StatusTextInjective(f.status, g.status);
    TypeTextInjective(f.capsuleType, g.capsuleType);
    LaunchValueInjective(f.originalLaunch, g.originalLaunch);
  }

  lemma PageSizeText()
    ensures DecimalString(PageSize) == "10"
  {
  }

  /** The parameters of CapsulesRequest, listed. */
  lemma CapsulesRequestListed(f: Filters, page: int, pageButtonClicked: bool)
    ensures !(pageButtonClicked && page > 1) ==>
              CapsulesRequest(f, page, pageButtonClicked) ==
              [ Param("status", StatusText(f.status)),
                Param("original_launch", LaunchValue(f.originalLaunch)),
                Param("type", TypeText(f.capsuleType)),
                Param("limit", "10") ]
  {
    PageSizeText();
  }

  function RenderParam(p: Param): string
  {
    p.key + "=" + p.value
  }

  /** The parameters written `key=value` and joined with `&`. */
  function QueryString(ps: seq<Param>): (q: string)
    ensures |ps| > 0 ==> q == Join(Pieces(ps), '&')
    decreases |ps|
  {
    assert |ps| > 1 ==> Pieces(ps)[1..] == Pieces(ps[1..]);
    if |ps| == 0 then ""
    else if |ps| == 1 then RenderParam(ps[0])
    else RenderParam(ps[0]) + "&" + QueryString(ps[1..])
  }

  /**
   * The URL of a request: the endpoint, `?`, then the query string, with no
   * percent-encoding; unambiguous parameters read back from it exactly.
   */
  function Url(ps: seq<Param>): (url: string)
    ensures |Endpoint| + 1 <= |url| && url[..|Endpoint| + 1] == Endpoint + "?"
    ensures url == Endpoint + "?" + QueryString(ps)
    ensures |ps| > 0 && Unambiguous(ps) ==> ParseUrl(url) == Some(ps)
  {
    var prefix := Endpoint + "?";
    var url := prefix + QueryString(ps);
    assert url[..|prefix|] == prefix && url[|prefix|..] == QueryString(ps);
    if |ps| > 0 && Unambiguous(ps) then QueryRoundTrip(ps); url else url
  }

  function ParseParam(s: string): Param
  {
    var kv := BreakAt(s, '=');
    Param(kv.0, kv.1)
  }

  function ParseParams(parts: seq<string>): (ps: seq<Param>)
    ensures |ps| == |parts|
    ensures forall i :: 0 <= i < |parts| ==> ps[i] == ParseParam(parts[i])
    decreases |parts|
  {
    if |parts| == 0 then [] else [ParseParam(parts[0])] + ParseParams(parts[1..])
  }

  /** Reads the parameters back from a URL of the endpoint; None for any other URL. */
  function ParseUrl(url: string): Option<seq<Param>>
  {
    var prefix := Endpoint + "?";
    if |prefix| <= |url| && url[..|prefix|] == prefix
    then Some(ParseParams(Split(url[|prefix|..], '&')))
    else None
  }

  /** Neither separator in the key, and no `&` in the value. */
  predicate PlainParam(p: Param)
  {
    '&' !in p.key && '=' !in p.key && '&' !in p.value
  }

  /** Parameters a query string can carry unambiguously without encoding. */
  predicate Unambiguous(ps: seq<Param>)
  {
    forall i :: 0 <= i < |ps| ==> PlainParam(ps[i])
  }

  /** The pieces of a query string between its `&`s. */
  function Pieces(ps: seq<Param>): (parts: seq<string>)
    ensures |parts| == |ps| && forall i :: 0 <= i < |ps| ==> parts[i] == RenderParam(ps[i])
  {
    seq(|ps|, i requires 0 <= i < |ps| => RenderParam(ps[i]))
  }

  /** A query string of unambiguous parameters reads back as exactly those parameters, in order. */
  lemma QueryRoundTrip(ps: seq<Param>)
    requires |ps| > 0 && Unambiguous(ps)
    ensures ParseParams(Split(QueryString(ps), '&')) == ps
  {
    var parts := Pieces(ps);
    forall i | 0 <= i < |parts|
      ensures '&' !in parts[i]
    {
      assert PlainParam(ps[i]);
      assert parts[i] == ps[i].key + ['='] + ps[i].value;
    }
    SplitJoin(parts, '&');
    forall i | 0 <= i < |ps|
      ensures ParseParam(parts[i]) == ps[i]
    {
      assert PlainParam(ps[i]);
      BreakAtJoin(ps[i].key, '=', ps[i].value);
      assert parts[i] == ps[i].key + ['='] + ps[i].value;
    }
    assert ParseParams(parts) == ps;
  }

  lemma DigitsCarryNoSeparator(s: string)
    requires AllDigits(s)
    ensures '&' !in s
  {
  }

  lemma FilterTextsCarryNoSeparator(f: Filters)
    requires '&' !in f.originalLaunch
    ensures '&' !in StatusText(f.status) && '&' !in TypeText(f.capsuleType)
    ensures '&' !in LaunchValue(f.originalLaunch)
  {
  }

  lemma RequestUnambiguous(f: Filters, page: int, pageButtonClicked: bool)
    requires '&' !in f.originalLaunch
    ensures Unambiguous(CapsulesRequest(f, page, pageButtonClicked))
  {
    BaseUnambiguous(f);
    OffsetUnambiguous(page, pageButtonClicked);
    UnambiguousConcat(BaseParams(f), OffsetParams(page, pageButtonClicked));
  }

  lemma BaseUnambiguous(f: Filters)
    requires '&' !in f.originalLaunch
    ensures Unambiguous(BaseParams(f))
  {
    FilterTextsCarryNoSeparator(f);
    DigitsCarryNoSeparator(DecimalString(PageSize));
  }

  lemma OffsetUnambiguous(page: int, pageButtonClicked: bool)
    ensures Unambiguous(OffsetParams(page, pageButtonClicked))
  {
    if pageButtonClicked && page > 1 {
      DigitsCarryNoSeparator(DecimalString((page - 1) * PageSize));
    }
  }

  lemma UnambiguousConcat(a: seq<Param>, b: seq<Param>)
    requires Unambiguous(a) && Unambiguous(b)
    ensures Unambiguous(a + b)
  {
    forall i | 0 <= i < |a + b|
      ensures PlainParam((a + b)[i])
    {
      if i < |a| {
        assert (a + b)[i] == a[i];
      } else {
        assert (a + b)[i] == b[i - |a|];
      }
    }
  }

  /**
   * The URL `getCapsules` requests reads back as its parameters whenever the
   * launch text holds no `&` (a `datetime-local` value never does).
   */
  lemma RequestUrlRoundTrip(f: Filters, page: int, pageButtonClicked: bool)
    requires '&' !in f.originalLaunch
    ensures ParseUrl(Url(CapsulesRequest(f, page, pageButtonClicked))) == Some(CapsulesRequest(f, page, pageButtonClicked))
  {
    RequestUnambiguous(f, page, pageButtonClicked);
  }
}
