/** The values the converter passes around: everything it stores, decodes
    or builds is a JSON value, and Python's `None` is `JNull`. The functions
    below give the Python meaning of the few built-ins the converter applies
    to such values (`dict.get`, `len`, `in`, truthiness), including the
    exceptions they raise on a value of the wrong kind. */
module Json {
  import opened Text

  datatype Json =
    | JNull
    | JBool(b: bool)
    | JNum(n: int)
    | JStr(s: string)
    | JArr(items: seq<Json>)
    | JObj(fields: map<string, Json>)

  /** `{}` and `[]`, the defaults the nodes pass to `.get`. */
  const EmptyDict := JObj(map[])
  const EmptyList := JArr([])

  /** Why a Python expression or a model call did not produce a value. */
  datatype PyError =
    | ModelCallFailed       // the model client raised, or returned no text
    | AttributeError        // `.get` on a value that is not a dict
    | TypeError             // `len`, `in`, iteration or indexing on the wrong kind
    | KeyOrderNotModelled   // the result depends on a dict's insertion order

  datatype Option<+T> = None | Some(value: T)

  /** A Python computation: a value, or the exception that escapes. */
  datatype Result<+T> = Ok(value: T) | Raise(error: PyError) {
    predicate IsFailure() { Raise? }
    function PropagateFailure<U>(): Result<U> requires Raise? { Raise(error) }
    function Extract(): T requires Ok? { value }
  }

  /** Python's `bool(v)`. */
  predicate Truthy(v: Json) {
    match v
    case JNull => false
    case JBool(b) => b
    case JNum(n) => n != 0
    case JStr(s) => s != []
    case JArr(a) => a != []
    case JObj(m) => m != map[]
  }

  /** Python's `v or default`. */
  function OrElse(v: Json, default: Json): Json {
    if Truthy(v) then v else default
  }

  /** `m.get(key, default)` on a dict. */
  function GetOr(m: map<string, Json>, key: string, default: Json): Json {
    if key in m then m[key] else default
  }

  /** `m.get(key)` on a dict: `None` when the key is missing. */
  function Lookup(m: map<string, Json>, key: string): Json {
    GetOr(m, key, JNull)
  }

  /** `v.get(key, default)` on any value: only dicts have `.get`. */
  function Get(v: Json, key: string, default: Json): Result<Json> {
    if v.JObj? then Ok(GetOr(v.fields, key, default)) else Raise(AttributeError)
  }

  /** Python's `len(v)`. */
  function Len(v: Json): Result<nat> {
    match v
    case JStr(s) => Ok(|s|)
    case JArr(a) => Ok(|a|)
    case JObj(m) => Ok(|m|)
    case _ => Raise(TypeError)
  }

  /** Python's `needle in v` for a string `needle`: a substring test on a
      string, an element test on a list, a key test on a dict. */
  function In(needle: string, v: Json): Result<bool> {
    match v
    case JStr(s) => Ok(Contains(s, needle))
    case JArr(a) => Ok(JStr(needle) in a)
    case JObj(m) => Ok(needle in m)
    case _ => Raise(TypeError)
  }

  /** The elements of `v` when every element is about to receive `.get`:
      a list yields its items; the items of a non-empty string or dict are
      strings, so the first `.get` already raises; other values are not
      iterable. */
  function ReceiversOf(v: Json): Result<seq<Json>> {
    match v
    case JArr(a) => Ok(a)
    case JStr(s) => if s == [] then Ok([]) else Raise(AttributeError)
    case JObj(m) => if m == map[] then Ok([]) else Raise(AttributeError)
    case _ => Raise(TypeError)
  }

  /** The list of JSON strings for a list of strings. */
  function Strings(ss: seq<string>): (r: seq<Json>)
    ensures |r| == |ss| && forall i :: 0 <= i < |ss| ==> r[i] == JStr(ss[i])
  {
    seq(|ss|, i requires 0 <= i < |ss| => JStr(ss[i]))
  }
}
