/** Values shared by every component: optional fields and the loosely typed
    values that the JSON API and the form library hand around. */
module Values {

  /** A field that may be missing from a record (JavaScript `undefined`). */
  datatype Option<+T> = None | Some(value: T) {
    function GetOr(default: T): T {
      match this
      case Some(v) => v
      case None => default
    }
  }

  /** A JSON value as a form field or a stored record holds it. Numbers are
      integers in this model. */
  datatype Value = Undefined | Null | Bool(b: bool) | Num(n: int) | Str(s: string)

  /** JavaScript truthiness of a value. */
  predicate Truthy(v: Value) {
    match v
    case Undefined => false
    case Null => false
    case Bool(b) => b
    case Num(n) => n != 0
    case Str(s) => s != ""
  }

  /** JavaScript truthiness of an optional string: present and not empty. */
  predicate Present(o: Option<string>) {
    o.Some? && o.value != ""
  }

  /** `a || b` on optional strings: the first operand when it is truthy. */
  function OrElse(a: Option<string>, b: Option<string>): (r: Option<string>)
    ensures Present(a) ==> r == a
    ensures !Present(a) ==> r == b
  {
    if Present(a) then a else b
  }

  /** An optional string as a form value. */
  function FromOption(o: Option<string>): Value {
    match o
    case Some(s) => Str(s)
    case None => Undefined
  }

  /** The outcome of an HTTP request: the response body, or a failure with
      the server's `response.data.message` when there is one. */
  datatype Response<+T> = Ok(body: T) | Failure(message: Option<string>)

  /** Browser storage (`localStorage`, `sessionStorage`) as a map from keys to
      strings; `getItem` gives null for a missing key. */
  type Storage = map<string, string>

  function GetItem(store: Storage, key: string): (r: Option<string>)
    ensures r.Some? <==> key in store
    ensures r.Some? ==> r.value == store[key]
  {
    if key in store then Some(store[key]) else None
  }
}
