/** The values `JSON.parse` produces, and how JavaScript tests them. Numbers are
  * integers here; fractional numbers and NaN are not modelled. */
module Json {
  import opened Wrappers

  datatype Value =
    | Null
    | Bool(b: bool)
    | Num(n: int)
    | Str(s: string)
    | Arr(items: seq<Value>)
    | Obj(fields: map<string, Value>)

  /** `!!v` for a present value. */
  predicate Truthy(v: Value)
  {
    match v
    case Null => false
    case Bool(b) => b
    case Num(n) => n != 0
    case Str(s) => s != ""
    case _ => true
  }

  /** `!!v` where `None` stands for `undefined`. */
  predicate Present(v: Option<Value>)
  {
    v.Some? && Truthy(v.value)
  }

  /** `v !== null && typeof v === "object"`: arrays count as objects. */
  predicate IsObject(v: Value)
  {
    v.Arr? || v.Obj?
  }

  /** `v[key]`, with `None` for `undefined`: only a plain object carries named claims. */
  function Get(v: Value, key: string): (r: Option<Value>)
    ensures r.Some? ==> v.Obj? && key in v.fields && r.value == v.fields[key]
    ensures v.Obj? && key in v.fields ==> r.Some?
  {
    if v.Obj? && key in v.fields then Some(v.fields[key]) else None
  }

  /** `typeof v[key] === "string" ? v[key] : undefined`. */
  function StringAt(v: Value, key: string): (r: Option<string>)
    ensures r.Some? <==> Get(v, key).Some? && Get(v, key).value.Str?
    ensures r.Some? ==> Get(v, key) == Some(Str(r.value))
  {
    match Get(v, key)
    case Some(Str(s)) => Some(s)
    case _ => None
  }

  /** `a ?? b`, where both `None` (undefined) and `Null` fall through to `b`. */
  function Coalesce(a: Option<Value>, b: Option<Value>): (r: Option<Value>)
    ensures a.Some? && a.value != Null ==> r == a
    ensures (a.None? || a == Some(Null)) ==> r == b
  {
    if a.None? || a.value == Null then b else a
  }
}
