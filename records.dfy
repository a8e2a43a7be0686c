/**
 * What the response handlers of `getCapsules` make of a completed request:
 * each record of the body copied with its `status` capitalized, or an empty
 * list when the request failed.
 */
module Records {
  import opened Wrappers
  import opened JsValues
  import opened Text

  /** How the HTTP request ended: with a parsed response body, or rejected. */
  datatype Outcome = Fulfilled(data: JsValue) | Rejected

  /** The entries `"0"`, `"1"`, ... that spreading a string or an array yields. */
  function IndexedEntries(elems: seq<JsValue>): Record
    decreases |elems|
  {
    if |elems| == 0 then map[]
    else IndexedEntries(elems[..|elems| - 1])[DecimalString(|elems| - 1) := elems[|elems| - 1]]
  }

  /** Entry `"i"` holds element `i`. */
  lemma {:induction false} IndexedEntriesAt(elems: seq<JsValue>, i: nat)
    requires i < |elems|
    ensures DecimalString(i) in IndexedEntries(elems) && IndexedEntries(elems)[DecimalString(i)] == elems[i]
    decreases |elems|
  {
    var n := |elems| - 1;
    if i < n {
      var prefix := elems[..n];
      IndexedEntriesAt(prefix, i);
      assert prefix[i] == elems[i];
      if DecimalString(i) == DecimalString(n) {
        DecimalStringInjective(i, n);
      }
    }
  }

  /** Every entry is `"i"` for some index `i`. */
  lemma {:induction false} IndexedEntriesKeys(elems: seq<JsValue>, k: string)
    requires k in IndexedEntries(elems)
    ensures exists i :: 0 <= i < |elems| && k == DecimalString(i)
    decreases |elems|
  {
    var n := |elems| - 1;
    if k != DecimalString(n) {
      IndexedEntriesKeys(elems[..n], k);
    }
  }

  /**
   * All entries of IndexedEntries at once: each index key holds its element,
   * and the keys are exactly the numerals of the indices.
   */
  lemma IndexedEntriesAll(elems: seq<JsValue>)
    ensures forall i :: 0 <= i < |elems| ==> DecimalString(i) in IndexedEntries(elems) && IndexedEntries(elems)[DecimalString(i)] == elems[i]
    ensures forall k :: k in IndexedEntries(elems) ==> exists i :: 0 <= i < |elems| && k == DecimalString(i)
    ensures forall k :: k in IndexedEntries(elems) ==> AllDigits(k)
  {
    forall i | 0 <= i < |elems|
      ensures DecimalString(i) in IndexedEntries(elems) && IndexedEntries(elems)[DecimalString(i)] == elems[i]
    {
      IndexedEntriesAt(elems, i);
    }
    forall k | k in IndexedEntries(elems)
      ensures (exists i :: 0 <= i < |elems| && k == DecimalString(i)) && AllDigits(k)
    {
      IndexedEntriesKeys(elems, k);
    }
  }

  /** The own enumerable properties `{...v}` copies out of a value that is not null or undefined. */
  function Spread(v: JsValue): (r: Record)
    requires !Nullish(v)
    ensures v.JsObject? ==> r == v.fields
    ensures v.JsArray? ==> forall i :: 0 <= i < |v.elems| ==> DecimalString(i) in r && r[DecimalString(i)] == v.elems[i]
    ensures v.JsString? ==> forall i :: 0 <= i < |v.s| ==> DecimalString(i) in r && r[DecimalString(i)] == JsString([v.s[i]])
    ensures v.JsArray? ==> forall k :: k in r ==> exists i :: 0 <= i < |v.elems| && k == DecimalString(i)
    ensures v.JsString? ==> forall k :: k in r ==> exists i :: 0 <= i < |v.s| && k == DecimalString(i)
    ensures v.JsArray? || v.JsString? ==> forall k :: k in r ==> AllDigits(k)
    ensures v.JsBool? || v.JsNumber? ==> r == map[]
  {
    match v
    case JsObject(fields) => fields
    case JsArray(elems) =>
      IndexedEntriesAll(elems);
      IndexedEntries(elems)
    case JsString(s) =>
      var chars := seq(|s|, i requires 0 <= i < |s| => JsString([s[i]]));
      IndexedEntriesAll(chars);
      IndexedEntries(chars)
    case JsBool(_) => map[]
    case JsNumber(_) => map[]
  }

  /** `v.status`: only a plain object may carry that property; on anything else it is undefined. */
  function StatusProperty(v: JsValue): (r: JsValue)
    requires !Nullish(v)
    ensures "status" in Spread(v) ==> r == Spread(v)["status"]
    ensures "status" !in Spread(v) ==> r == JsUndefined
  {
    assert !IsDigit("status"[0]);
    if v.JsObject? && "status" in v.fields then v.fields["status"] else JsUndefined
  }

  /** `capitalizeFirstLetter(status)` as a JavaScript value: the capitalized string, or null. */
  function DisplayStatus(v: JsValue): (d: JsValue)
    ensures d.JsNull? || d.JsString?
    ensures d.JsString? <==> v.JsString? && |v.s| > 0
    ensures d.JsString? ==> |d.s| == |v.s| && d.s[0] == UpperCase(v.s[0]) && d.s[1..] == v.s[1..]
  {
    match CapitalizeFirstLetter(v)
    case Some(t) => JsString(t)
    case None => JsNull
  }

  /**
   * `({...obj, status: capitalizeFirstLetter(obj.status)})`: every property
   * of the item is kept, and `status` is present and holds the display form.
   */
  function ReconcileItem(item: JsValue): (r: Record)
    requires !Nullish(item)
    ensures r.Keys == Spread(item).Keys + {"status"}
    ensures r["status"] == DisplayStatus(StatusProperty(item))
    ensures forall k :: k in Spread(item) && k != "status" ==> r[k] == Spread(item)[k]
  {
    Spread(item)["status" := DisplayStatus(StatusProperty(item))]
  }

  /**
   * `items.map(...)`: None when an item is null or undefined, since reading
   * its `status` throws; otherwise one reconciled record per item, in order.
   */
  function MapItems(items: seq<JsValue>): (r: Option<seq<Record>>)
    ensures r.Some? <==> forall i :: 0 <= i < |items| ==> !Nullish(items[i])
    ensures r.Some? ==> |r.value| == |items|
    ensures r.Some? ==> forall i :: 0 <= i < |items| ==> r.value[i] == ReconcileItem(items[i])
    decreases |items|
  {
    if |items| == 0 then Some([])
    else if Nullish(items[0]) then None
    else
      match MapItems(items[1..])
      case None => None
      case Some(rest) => Some([ReconcileItem(items[0])] + rest)
  }

  /**
   * The list the success handler installs, or None when it throws: the body
   * is not an array, or holds a null or undefined item.
   */
  function Reconcile(data: JsValue): (r: Option<seq<Record>>)
    ensures r.Some? <==> data.JsArray? && forall i :: 0 <= i < |data.elems| ==> !Nullish(data.elems[i])
    ensures r.Some? ==> |r.value| == |data.elems|
    ensures r.Some? ==> forall i :: 0 <= i < |data.elems| ==> r.value[i] == ReconcileItem(data.elems[i])
  {
    if data.JsArray? then MapItems(data.elems) else None
  }

  /**
   * The list after the completion handler of a request has run: the
   * reconciled records on success, the empty list on failure, and None when
   * the success handler throws (nothing is updated then).
   */
  function Settle(outcome: Outcome): (r: Option<seq<Record>>)
    ensures outcome.Rejected? ==> r == Some([])
    ensures outcome.Fulfilled? ==>
              (r.Some? <==> outcome.data.JsArray? &&
                            forall i :: 0 <= i < |outcome.data.elems| ==> !Nullish(outcome.data.elems[i]))
    ensures outcome.Fulfilled? && r.Some? ==>
              |r.value| == |outcome.data.elems| &&
              forall i :: 0 <= i < |outcome.data.elems| ==> r.value[i] == ReconcileItem(outcome.data.elems[i])
  {
    match outcome
    case Rejected => Some([])
    case Fulfilled(data) => Reconcile(data)
  }

  /** A displayed status is already in display form. */
  lemma DisplayStatusIdempotent(v: JsValue)
    ensures DisplayStatus(DisplayStatus(v)) == DisplayStatus(v)
  {
  }

  /** Reconciling a reconciled record again changes nothing. */
  lemma ReconcileItemIdempotent(item: JsValue)
    requires !Nullish(item)
    ensures ReconcileItem(JsObject(ReconcileItem(item))) == ReconcileItem(item)
  {
  }

  /** Reconciling a body of reconciled records gives back the same list. */
  lemma ReconcileIdempotent(data: JsValue)
    requires Reconcile(data).Some?
    ensures var rs := Reconcile(data).value;
            Reconcile(JsArray(seq(|rs|, i requires 0 <= i < |rs| => JsObject(rs[i])))) == Some(rs)
  {
    var rs := Reconcile(data).value;
    var again := JsArray(seq(|rs|, i requires 0 <= i < |rs| => JsObject(rs[i])));
    forall i | 0 <= i < |rs|
      ensures ReconcileItem(again.elems[i]) == rs[i]
    {
      ReconcileItemIdempotent(data.elems[i]);
    }
    assert Reconcile(again).value == rs;
  }
}
