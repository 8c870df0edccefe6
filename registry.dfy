/** The `musers` registry: which manager chat receives the notifications of a payment method. */
module Registry {
  import opened JsValues
  import opened Wrappers

  /** A document of `musers`; a missing field is `Undefined`. */
  datatype Manager = Manager(payment: Value, chatId: Value)

  /** Record `i` is the first one, in query-result order, whose `payment` equals `method`. */
  ghost predicate IsFirstMatch(registry: seq<Manager>, method': Value, i: int) {
    0 <= i < |registry| && registry[i].payment == method'
    && forall j :: 0 <= j < i ==> registry[j].payment != method'
  }

  /** The position of the first record whose `payment` equals `method`, if any. */
  function FirstMatch(registry: seq<Manager>, method': Value): (r: Option<nat>)
    ensures r.Some? ==> IsFirstMatch(registry, method', r.value)
    ensures r.None? ==> forall j :: 0 <= j < |registry| ==> registry[j].payment != method'
    decreases |registry|
  {
    if registry == [] then None
    else if registry[0].payment == method' then Some(0)
    else
      match FirstMatch(registry[1..], method')
      case None => None
      case Some(i) => Some(i + 1)
  }

  /** What `where('payment', '==', method).get()` followed by `snap.docs[0]` gives. */
  datatype Lookup = Refused | NoMatch | Found(manager: Manager)

  /**
   * The registry query. Firestore refuses `undefined` as a query value, so a
   * request without a `method` field makes the query throw; otherwise the
   * first matching record in result order is taken.
   */
  function Resolve(registry: seq<Manager>, method': Value): (r: Lookup)
    ensures r == Refused <==> method' == Undefined
    ensures r == NoMatch <==> method' != Undefined && forall j :: 0 <= j < |registry| ==> registry[j].payment != method'
    ensures r.Found? <==> method' != Undefined && exists i :: IsFirstMatch(registry, method', i)
    ensures r.Found? ==> exists i :: IsFirstMatch(registry, method', i) && r.manager == registry[i]
  {
    if method' == Undefined then Refused
    else
      match FirstMatch(registry, method')
      case None => NoMatch
      case Some(i) => Found(registry[i])
  }
}
