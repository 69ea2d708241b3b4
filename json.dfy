/** The dictionaries that `to_dict` produces and `from_dict` consumes: the
    JSON values Python's `json` module reads back, and the lookups the
    `from_dict` class methods make on them. */
module Json {
  import opened Common

  /** A JSON value. `JTime(t)` stands for the ISO-8601 string that
      `datetime.isoformat()` writes for the instant `t` (microseconds); the
      text of that string is not modelled. */
  datatype Value = JNull | JBool(b: bool) | JNum(n: real) | JStr(s: string) | JTime(t: int)

  type Object = map<string, Value>

  /** Python truthiness of a decoded JSON value (`if d.get(k)`). */
  predicate Truthy(v: Value) {
    match v
    case JNull => false
    case JBool(b) => b
    case JNum(n) => n != 0.0
    case JStr(s) => s != ""
    case JTime(_) => true
  }

  /** `d[k]` where the field must hold a string: a missing key is Python's KeyError. */
  function RequiredStr(d: Object, k: string): (r: Result<string>)
    ensures r.Ok? <==> k in d && d[k].JStr?
    ensures r.Ok? ==> d[k] == JStr(r.value)
  {
    if k !in d then Err("KeyError: " + k)
    else if d[k].JStr? then Ok(d[k].s)
    else Err("not a string: " + k)
  }

  /** `float(d[k])` */
  function RequiredNum(d: Object, k: string): (r: Result<real>)
    ensures r.Ok? <==> k in d && d[k].JNum?
    ensures r.Ok? ==> d[k] == JNum(r.value)
  {
    if k !in d then Err("KeyError: " + k)
    else if d[k].JNum? then Ok(d[k].n)
    else Err("not a number: " + k)
  }

  /** `d.get(k, default)` for a string field. */
  function StrOr(d: Object, k: string, default: string): (r: Result<string>)
    ensures k !in d ==> r == Ok(default)
    ensures k in d ==> (r.Ok? <==> d[k].JStr?) && (r.Ok? ==> d[k] == JStr(r.value))
  {
    if k !in d then Ok(default)
    else if d[k].JStr? then Ok(d[k].s)
    else Err("not a string: " + k)
  }

  /** `d.get(k, default)` for a number field. */
  function NumOr(d: Object, k: string, default: real): (r: Result<real>)
    ensures k !in d ==> r == Ok(default)
    ensures k in d ==> (r.Ok? <==> d[k].JNum?) && (r.Ok? ==> d[k] == JNum(r.value))
  {
    if k !in d then Ok(default)
    else if d[k].JNum? then Ok(d[k].n)
    else Err("not a number: " + k)
  }

  /** `d.get(k, default)` for a boolean field. */
  function BoolOr(d: Object, k: string, default: bool): (r: Result<bool>)
    ensures k !in d ==> r == Ok(default)
    ensures k in d ==> (r.Ok? <==> d[k].JBool?) && (r.Ok? ==> d[k] == JBool(r.value))
  {
    if k !in d then Ok(default)
    else if d[k].JBool? then Ok(d[k].b)
    else Err("not a boolean: " + k)
  }

  /** `d.get(k)` for an optional id: absent and `null` are both `None`. */
  function OptionalStr(d: Object, k: string): (r: Result<Option<string>>)
    ensures (k !in d || d[k] == JNull) ==> r == Ok(None)
    ensures r.Ok? && r.value.Some? ==> k in d && d[k] == JStr(r.value.value)
  {
    if k !in d || d[k] == JNull then Ok(None)
    else if d[k].JStr? then Ok(Some(d[k].s))
    else Err("not a string: " + k)
  }

  /** `datetime.fromisoformat(d[k]) if d.get(k) else None` */
  function OptionalTime(d: Object, k: string): (r: Result<Option<int>>)
    ensures (k !in d || !Truthy(d[k])) ==> r == Ok(None)
    ensures k in d && d[k].JTime? ==> r == Ok(Some(d[k].t))
    ensures r.Ok? && r.value.Some? ==> k in d && d[k] == JTime(r.value.value)
  {
    if k !in d || !Truthy(d[k]) then Ok(None)
    else if d[k].JTime? then Ok(Some(d[k].t))
    else Err("not an ISO-8601 timestamp: " + k)
  }

  /** `x.isoformat() if x else None` */
  function TimeOrNull(t: Option<int>): (v: Value)
    ensures t.None? <==> v == JNull
  {
    match t
    case None => JNull
    case Some(x) => JTime(x)
  }
}
