/** Parsed JSON values and the Python operations the server applies to them:
    subscripting, `.get`, iteration, truthiness, f-string rendering and list
    comprehensions whose body may raise. A Python exception is a `None`. */
module JsonValue {

  /** Failure-compatible option: `None` stands for a raised exception. */
  datatype Option<+T> = None | Some(value: T) {
    predicate IsFailure() { None? }

    function PropagateFailure<U>(): Option<U>
      requires None?
    {
      None
    }

    function Extract(): T
      requires Some?
    {
      value
    }

    function GetOr(default: T): T {
      if Some? then value else default
    }
  }

  /** A value as Python's `json` module produces it; numbers are integers. */
  datatype Json =
    | JNull
    | JBool(b: bool)
    | JInt(i: int)
    | JStr(s: string)
    | JArr(items: seq<Json>)
    | JObj(fields: map<string, Json>)

  /** `v[key]`: KeyError on a dict without the key, TypeError on any other value. */
  function Item(v: Json, key: string): Option<Json> {
    if v.JObj? && key in v.fields then Some(v.fields[key]) else None
  }

  /** `v.get(key, default)`: only a dict has `get` (AttributeError otherwise). */
  function Get(v: Json, key: string, default: Json): Option<Json> {
    if !v.JObj? then None
    else if key in v.fields then Some(v.fields[key])
    else Some(default)
  }

  /** `v.get(key)`: Python's `None` for an absent key. */
  function GetNone(v: Json, key: string): Option<Json> {
    Get(v, key, JNull)
  }

  /** The value at `key` of a dict, or null; the total reading used in contracts. */
  function Field(v: Json, key: string): Json {
    if v.JObj? && key in v.fields then v.fields[key] else JNull
  }

  /** The elements of a JSON array, or none. */
  function Items(v: Json): seq<Json> {
    if v.JArr? then v.items else []
  }

  /** What a Python `for` loop over `v` visits, for loops whose body subscripts
      or calls `.get` on each element: a list's items and a string's one-character
      strings; a dict visits its keys, which are strings on which every such body
      raises, so only the empty dict gets through; null, booleans and numbers are
      not iterable (TypeError). */
  function LoopItems(v: Json): (r: Option<seq<Json>>)
    ensures v.JArr? ==> r == Some(v.items)
    ensures r.Some? ==> forall x :: x in r.value ==> v.JArr? || x.JStr?
  {
    match v
    case JArr(items) => Some(items)
    case JStr(s) => Some(seq(|s|, i requires 0 <= i < |s| => JStr([s[i]])))
    case JObj(m) => if m == map[] then Some([]) else None
    case _ => None
  }

  /** Python truthiness. */
  predicate Truthy(v: Json) {
    match v
    case JNull => false
    case JBool(b) => b
    case JInt(i) => i != 0
    case JStr(s) => s != ""
    case JArr(items) => items != []
    case JObj(m) => m != map[]
  }

  /** `[f(x) for x in xs]` where `f` may raise: all results, or the exception. */
  function MapAll<T>(f: Json -> Option<T>, xs: seq<Json>): (r: Option<seq<T>>)
    ensures r.Some? <==> forall i :: 0 <= i < |xs| ==> f(xs[i]).Some?
    ensures r.Some? ==> |r.value| == |xs| && forall i :: 0 <= i < |xs| ==> f(xs[i]) == Some(r.value[i])
  {
    if xs == [] then Some([])
    else
      var y :- f(xs[0]);
      var ys :- MapAll(f, xs[1..]);
      Some([y] + ys)
  }

  function DigitChar(d: nat): char
    requires d < 10
  {
    "0123456789"[d]
  }

  /** Decimal digits of `n`, most significant first. */
  function NatToString(n: nat): (s: string)
    ensures |s| > 0 && forall i :: 0 <= i < |s| ==> '0' <= s[i] <= '9'
  {
    if n < 10 then [DigitChar(n)] else NatToString(n / 10) + [DigitChar(n % 10)]
  }

  /** `str(i)` for a Python int. */
  function IntToString(i: int): string {
    if i < 0 then "-" + NatToString(-i) else NatToString(i)
  }

  /** `str(v)`, as an f-string placeholder renders `v`. */
  function PyStr(v: Json): string {
    if v.JStr? then v.s else PyRepr(v)
  }

  /** `repr(v)`. Nothing inside a string is escaped, and a non-empty dict
      is shown without its entries (the map keeps no insertion order). */
  function PyRepr(v: Json): string
    decreases v
  {
    match v
    case JNull => "None"
    case JBool(b) => if b then "True" else "False"
    case JInt(i) => IntToString(i)
    case JStr(s) => "'" + s + "'"
    case JArr(items) => "[" + JoinWith(", ", seq(|items|, k requires 0 <= k < |items| => PyRepr(items[k]))) + "]"
    case JObj(m) => if m == map[] then "{}" else "{...}"
  }

  /** `sep.join(xs)`. */
  function JoinWith(sep: string, xs: seq<string>): string {
    if xs == [] then "" else if |xs| == 1 then xs[0] else xs[0] + sep + JoinWith(sep, xs[1..])
  }
}
