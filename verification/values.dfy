/** The JSON-like values the checks read and write, and the handful of Python
    built-in behaviours they depend on: truthiness, `d.get(k, default)`,
    `d[k]`, `len`, iteration, hashing of dict keys and `<` against a number.

    A dict is a `map`, so the model keeps key membership and values but not
    Python's insertion order; `Iterate` therefore reports a dict's keys as a
    set, and every check says what happens to its (string) elements.
 */
module Values {
  import opened Wrappers

  datatype Value =
    | Null
    | Bool(b: bool)
    | Int(i: int)
    | Num(r: real)
    | Str(s: string)
    | Arr(items: seq<Value>)
    | Obj(fields: map<string, Value>)

  /** Python's truth value: None, False, zero and empty containers are false. */
  predicate Truthy(v: Value) {
    match v
    case Null => false
    case Bool(b) => b
    case Int(i) => i != 0
    case Num(r) => r != 0.0
    case Str(s) => |s| > 0
    case Arr(xs) => |xs| > 0
    case Obj(m) => |m| > 0
  }

  /** `v.get(k, default)`: only a dict has `.get`. */
  function Get(v: Value, k: string, default: Value): Result<Value> {
    match v
    case Obj(m) => Ok(if k in m then m[k] else default)
    case _ => Err(AttributeError)
  }

  /** `v[k]` with a string key: a missing key raises KeyError, and every
      non-dict raises TypeError (lists and strings want integer indices, the
      scalars are not subscriptable). */
  function Index(v: Value, k: string): Result<Value> {
    match v
    case Obj(m) => if k in m then Ok(m[k]) else Err(KeyError)
    case _ => Err(TypeError)
  }

  /** `k in v` after an `isinstance(v, dict)` test. */
  predicate HasKey(v: Value, k: string) {
    v.Obj? && k in v.fields
  }

  /** Only the immutable values can be dict keys; a list or dict raises
      TypeError ("unhashable type"). */
  predicate Hashable(v: Value) {
    !v.Arr? && !v.Obj?
  }

  /** The number a value stands for in an ordering comparison; `bool` is a
      subclass of `int` in Python. */
  predicate IsNumber(v: Value) {
    v.Int? || v.Num? || v.Bool?
  }

  function NumberOf(v: Value): real
    requires IsNumber(v)
  {
    if v.Int? then v.i as real else if v.Num? then v.r else if v.b then 1.0 else 0.0
  }

  /** `v < t`: defined between numbers only; None or a string raises TypeError. */
  function Less(v: Value, t: int): (r: Result<bool>)
    ensures r.Ok? <==> IsNumber(v)
    ensures r.Ok? ==> (r.value <==> NumberOf(v) < t as real)
  {
    match v
    case Int(i) => Ok(i < t)
    case Num(x) => Ok(x < t as real)
    case Bool(b) => Ok((if b then 1 else 0) < t)
    case _ => Err(TypeError)
  }

  /** What a `for` loop over a value visits. */
  datatype Iteration =
    | Items(items: seq<Value>)   // a list's elements, or a string's one-character strings
    | Keys(keys: set<string>)    // a dict visits its keys, in an order the model does not keep
    | NotIterable                // None, booleans and numbers raise TypeError

  function Chars(s: string): (r: seq<Value>)
    ensures |r| == |s|
    ensures forall i | 0 <= i < |s| :: r[i] == Str([s[i]])
  {
    seq(|s|, i requires 0 <= i < |s| => Str([s[i]]))
  }

  function Iterate(v: Value): Iteration {
    match v
    case Arr(xs) => Items(xs)
    case Str(s) => Items(Chars(s))
    case Obj(m) => Keys(m.Keys)
    case _ => NotIterable
  }

  /** `len(v)`; it is defined exactly for the values a loop can visit, and
      counts what the loop visits. */
  function Len(v: Value): (r: Result<nat>)
    ensures r.Ok? <==> !Iterate(v).NotIterable?
    ensures Iterate(v).Items? ==> r == Ok(|Iterate(v).items|)
    ensures Iterate(v).Keys? ==> r == Ok(|Iterate(v).keys|)
  {
    match v
    case Arr(xs) => Ok(|xs|)
    case Str(s) => Ok(|s|)
    case Obj(m) => Ok(|m.Keys|)
    case _ => Err(TypeError)
  }
}
