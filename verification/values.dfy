/** Python values as they cross the bus: dictionaries, lists, numbers,
    strings and timezone-aware datetimes.

    `datetime.isoformat()` and `json.dumps` are not modelled character by
    character. Their outputs are the dedicated text constructors `IsoText`
    and `JsonText`, which makes both encodings injective with a left
    inverse (`fromisoformat`, `json.loads`) by construction. */
module Values {
  import opened Wrappers

  /** A timezone-aware datetime: `instant` is the point in time on a UTC
      axis (it alone decides comparisons), `utcOffset` is the offset the
      value carries and that `isoformat()` writes out. */
  datatype DateTime = DateTime(instant: int, utcOffset: int)

  datatype Value =
    | Null
    | Bool(b: bool)
    | Int(i: int)
    | Real(r: real)
    | Str(s: string)          // text that no encoder of this model produced
    | IsoText(t: DateTime)    // the text `t.isoformat()`
    | JsonText(j: Value)      // the text `json.dumps(j)`
    | Time(t: DateTime)       // a `datetime` object
    | List(items: seq<Value>)
    | Dict(fields: map<string, Value>)
  {
    predicate IsText() { Str? || IsoText? || JsonText? }
  }

  /** What `json.dumps` accepts: everything but a `datetime` object, at any
      depth. */
  predicate Serializable(v: Value) {
    match v
    case Time(_) => false
    case List(items) => forall i :: 0 <= i < |items| ==> Serializable(items[i])
    case Dict(fields) => forall k :: k in fields ==> Serializable(fields[k])
    case _ => true
  }

  /** `x.isoformat()`: only a datetime has the method. */
  function IsoFormat(v: Value): (r: Result<Value>)
    ensures r.Ok? <==> v.Time?
    ensures r.Ok? ==> r.value.IsText() && r.value.IsoText?
  {
    if v.Time? then Ok(IsoText(v.t)) else Err("AttributeError")
  }

  /** `datetime.fromisoformat(x)`: a `TypeError` for a non-string argument,
      a `ValueError` for text that is not an ISO-8601 datetime. */
  function FromIsoFormat(v: Value): (r: Result<Value>)
    ensures r.Ok? <==> v.IsoText?
    ensures r.Ok? ==> r.value.Time?
  {
    if v.IsoText? then Ok(Time(v.t))
    else if v.IsText() then Err("ValueError")
    else Err("TypeError")
  }

  /** `json.dumps(x)`. */
  function Dumps(v: Value): (r: Result<Value>)
    ensures r.Ok? <==> Serializable(v)
    ensures r.Ok? ==> r.value.IsText()
  {
    if Serializable(v) then Ok(JsonText(v)) else Err("TypeError")
  }

  /** `json.loads(x)`. */
  function Loads(v: Value): (r: Result<Value>)
    ensures r.Ok? <==> v.JsonText?
  {
    if v.JsonText? then Ok(v.j)
    else if v.IsText() then Err("JSONDecodeError")
    else Err("TypeError")
  }

  lemma IsoRoundTrip(t: DateTime)
    ensures IsoFormat(Time(t)).Ok?
    ensures FromIsoFormat(IsoFormat(Time(t)).value) == Ok(Time(t))
  {
  }

  lemma JsonRoundTrip(v: Value)
    requires Serializable(v)
    ensures Loads(Dumps(v).value) == Ok(v)
  {
  }

  /** `d[key]` on a dictionary. */
  function Get(d: map<string, Value>, key: string): (r: Result<Value>)
    ensures r.Ok? <==> key in d
    ensures r.Ok? ==> r.value == d[key]
  {
    if key in d then Ok(d[key]) else Err("KeyError")
  }

  /** `x[key]` on an arbitrary value: only a dictionary can be indexed by a
      string key here. */
  function Index(v: Value, key: string): (r: Result<Value>)
    ensures r.Ok? <==> v.Dict? && key in v.fields
  {
    if v.Dict? then Get(v.fields, key) else Err("TypeError")
  }
}
