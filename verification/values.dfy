/** Values shared by every agent: optional values, results with the error
    the agents raise, and the JSON-like dictionaries the agents pass around
    (user profiles, feedback results, conflict resolutions). */
module Values {

  /** Python's `None` versus a present value. */
  datatype Option<T> = None | Some(value: T) {

    /** The value, or `default` when absent. */
    function GetOr(default: T): T {
      match this
      case Some(v) => v
      case None => default
    }
  }

  /** The ways the modelled agent code raises instead of returning. */
  datatype Error =
    | NotText(key: string)     // `.lower()` on a value that is not a `str`, or `+=` of a `str`
                               // onto a value that is neither a `str` nor a `list`
    | NotMapping(key: string)  // `.get(...)` on a value that is not a `dict`
    | NotKeyed(key: string)    // `"k" in v` or `v["k"]` raising `TypeError`: `v` is not a `dict`
    | MissingKey(key: string)  // `row[key]` on a row that has no such column

  datatype Result<T> = Ok(value: T) | Err(error: Error) {

    predicate IsFailure() {
      Err?
    }

    function PropagateFailure<U>(): Result<U>
      requires Err?
    {
      Err(error)
    }

    function Extract(): T
      requires Ok?
    {
      value
    }
  }

  /** A JSON-like value, as stored in the profile and feedback files. */
  datatype Value =
    | Null
    | Bool(b: bool)
    | Num(n: real)
    | Str(s: string)
    | List(items: seq<Value>)
    | Obj(fields: map<string, Value>)

  /** A Python `dict` with string keys. */
  type Object = map<string, Value>

  /** A list of strings as a value. */
  function Strs(xs: seq<string>): (v: Value)
    ensures v.List? && |v.items| == |xs|
    ensures forall i :: 0 <= i < |xs| ==> v.items[i] == Str(xs[i])
  {
    List(seq(|xs|, i requires 0 <= i < |xs| => Str(xs[i])))
  }

  /** `m.get(key, default)` where the caller then needs a `str`: an absent
      key gives `default`, a string gives itself, anything else is the
      error the following string operation raises. */
  function TextOr(m: Object, key: string, default: string): Result<string> {
    if key !in m then Ok(default)
    else if m[key].Str? then Ok(m[key].s)
    else Err(NotText(key))
  }

  /** `m.get(key, {})` where the caller then calls `.get` on the result. */
  function ObjectOr(m: Object, key: string): Result<Object> {
    if key !in m then Ok(map[])
    else if m[key].Obj? then Ok(m[key].fields)
    else Err(NotMapping(key))
  }

  /** `m.get(key) == Str(text)`: a missing key or a value of another type
      compares unequal, as Python's `==` does. */
  predicate HasText(m: Object, key: string, text: string) {
    key in m && m[key] == Str(text)
  }
}
