/**
 * JSON values as Python's `json` module hands them to the language-server client
 * (None, bool, int, str, list, dict), and the few dictionary operations the client
 * performs on them, with Python's semantics: `==` treats True as 1, `in` on a list
 * compares elements, `d[k]` raises KeyError or TypeError, and so on.
 */
module PyJson {
  import opened Wrappers
  import Text

  datatype Json =
    | JNull
    | JBool(b: bool)
    | JInt(i: int)
    | JStr(s: string)
    | JArr(items: seq<Json>)
    | JObj(fields: map<string, Json>)

  /** The Python exceptions the modelled code can raise. */
  datatype PyError = KeyError | IndexError | TypeError | AttributeError | AssertionError | NameError

  /** The number a bool or an int stands for (Python's bool is a subclass of int). */
  function NumberOf(j: Json): Option<int>
  {
    match j
    case JBool(b) => Some(if b then 1 else 0)
    case JInt(i) => Some(i)
    case _ => None
  }

  /** Python's `==` on JSON values. */
  predicate PyEq(a: Json, b: Json)
    decreases a
  {
    match a
    case JNull => b.JNull?
    case JBool(_) => NumberOf(b).Some? && NumberOf(b) == NumberOf(a)
    case JInt(_) => NumberOf(b).Some? && NumberOf(b) == NumberOf(a)
    case JStr(x) => b.JStr? && b.s == x
    case JArr(xs) =>
      b.JArr? && |xs| == |b.items| && forall k :: 0 <= k < |xs| ==> PyEq(xs[k], b.items[k])
    case JObj(m) =>
      b.JObj? && m.Keys == b.fields.Keys && forall k :: k in m ==> PyEq(m[k], b.fields[k])
  }

  /** Python's `x == "<literal>"` holds only for that very string, so it is equality of values. */
  lemma PyEqString(x: Json, s: string)
    ensures PyEq(x, JStr(s)) <==> x == JStr(s)
  {
  }

  lemma {:induction false} PyEqReflexive(a: Json)
    ensures PyEq(a, a)
    decreases a
  {
    match a
    case JArr(xs) =>
      forall k | 0 <= k < |xs| ensures PyEq(xs[k], xs[k]) { PyEqReflexive(xs[k]); }
    case JObj(m) =>
      forall k | k in m ensures PyEq(m[k], m[k]) { PyEqReflexive(m[k]); }
    case _ =>
  }

  /** Python's `bool(j)`. */
  predicate Truthy(j: Json)
  {
    match j
    case JNull => false
    case JBool(b) => b
    case JInt(i) => i != 0
    case JStr(s) => s != ""
    case JArr(xs) => xs != []
    case JObj(m) => m != map[]
  }

  /** `d.get(key, default)`; only a dict has `get`. */
  function Get(d: Json, key: string, default: Json): Result<Json, PyError>
  {
    if !d.JObj? then Err(AttributeError)
    else if key in d.fields then Ok(d.fields[key])
    else Ok(default)
  }

  /** `d[key]` with a string key. */
  function Index(d: Json, key: string): Result<Json, PyError>
  {
    match d
    case JObj(m) => if key in m then Ok(m[key]) else Err(KeyError)
    case _ => Err(TypeError)
  }

  /** `d[0]`: the first list element, the first character of a string, key 0 of a dict. */
  function First(d: Json): Result<Json, PyError>
  {
    match d
    case JArr(xs) => if xs == [] then Err(IndexError) else Ok(xs[0])
    case JStr(s) => if s == [] then Err(IndexError) else Ok(JStr([s[0]]))
    case JObj(_) => Err(KeyError)
    case _ => Err(TypeError)
  }

  /** Python's `key in container` for a string key. */
  function In(key: string, container: Json): Result<bool, PyError>
  {
    match container
    case JObj(m) => Ok(key in m)
    case JArr(xs) => Ok(exists k :: 0 <= k < |xs| && PyEq(JStr(key), xs[k]))
    case JStr(s) => Ok(Text.Contains(s, key))
    case _ => Err(TypeError)
  }

  /** `d[key] = v` on a dict. */
  function SetKey(d: Json, key: string, v: Json): Result<Json, PyError>
  {
    match d
    case JObj(m) => Ok(JObj(m[key := v]))
    case _ => Err(TypeError)
  }

  /** `del d[key]`. */
  function DelKey(d: Json, key: string): Result<Json, PyError>
  {
    match d
    case JObj(m) => if key in m then Ok(JObj(m - {key})) else Err(KeyError)
    case _ => Err(TypeError)
  }

  /** A JSON list of strings. */
  function Strings(xs: seq<string>): (r: Json)
    ensures r.JArr? && |r.items| == |xs|
    ensures forall k :: 0 <= k < |xs| ==> r.items[k] == JStr(xs[k])
  {
    JArr(seq(|xs|, k requires 0 <= k < |xs| => JStr(xs[k])))
  }
}
