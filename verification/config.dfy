/** The JSON values the installation reads from its personality files
    (`personalities/<name>.json`), and the files themselves as a map from
    path to content. */
module Config {
  import opened Wrappers
  import opened Text

  /** A JSON value as far as the code looks at it: strings, integers,
      booleans, finite numbers with a fraction or exponent (Python floats,
      here exact reals), and everything else (lists, nested objects, null,
      and the non-finite `NaN`/`Infinity` that Python's decoder accepts). */
  datatype Json = JStr(s: string) | JInt(n: int) | JBool(b: bool) | JFloat(x: real) | JOther

  /** A decoded JSON object (a Python `dict` from `json.load`). */
  type Object = map<string, Json>

  /** The top-level value `json.load` returns for a file: an object, a list,
      a string, or a scalar (a number, a boolean or null). */
  datatype Document = DObject(obj: Object) | DList(items: seq<Json>) | DText(s: string) | DScalar

  /** What opening and decoding a file yields: its top-level value, or an
      error (unreadable file or invalid JSON). */
  datatype FileContent = Parsed(doc: Document) | Unreadable

  /** Python's `k in doc` for a string `k`: a key of an object, an element
      of a list, a piece of a string.  On a scalar Python raises TypeError
      instead; callers test for that case first. */
  predicate Has(doc: Document, k: string) {
    match doc
    case DObject(obj) => k in obj
    case DList(items) => JStr(k) in items
    case DText(s) => Occurs(k, s)
    case DScalar => false
  }

  /** The file system as the loaders see it; a path missing from the map
      does not exist. */
  type Files = map<string, FileContent>

  /** Why loading a personality failed. */
  datatype LoadError =
    | FileNotFound(path: string)
    | MissingKey(name: string, key: string)
    | Undecodable(path: string)
    | NotContainer(path: string)

  /** `int(x)` for a float: the integer part, rounding toward zero. */
  function Truncate(x: real): (n: int)
    ensures x >= 0.0 ==> 0 <= n && n as real <= x < n as real + 1.0
    ensures x < 0.0 ==> n <= 0 && n as real - 1.0 < x <= n as real
  {
    if x >= 0.0 then x.Floor else -((-x).Floor)
  }

  /** Python's `int(x)` for a decoded JSON value; `None` stands for the
      `ValueError`/`TypeError`/`OverflowError` it raises.  A boolean is the
      integer 1 or 0; a float is truncated toward zero. */
  function IntOf(j: Json): (r: Option<int>)
    ensures j.JInt? ==> r == Some(j.n)
    ensures j.JBool? ==> r == Some(if j.b then 1 else 0)
    ensures j.JFloat? && j.x >= 0.0 ==> r.Some? && r.value as real <= j.x < r.value as real + 1.0
    ensures j.JFloat? && j.x < 0.0 ==> r.Some? && r.value as real - 1.0 < j.x <= r.value as real
    ensures j.JOther? ==> r == None
  {
    match j
    case JInt(n) => Some(n)
    case JBool(b) => Some(if b then 1 else 0)
    case JFloat(x) => Some(Truncate(x))
    case JStr(s) => ParseInt(s)
    case JOther => None
  }

  /** A configured speed, or `dflt` when the key is absent: `int(cfg.get(key, dflt))`. */
  function IntSetting(cfg: Object, key: string, dflt: int): (r: Option<int>)
    ensures key !in cfg ==> r == Some(dflt)
  {
    if key in cfg then IntOf(cfg[key]) else Some(dflt)
  }

  /** A speed written as decimal text reads back as that number. */
  lemma IntOfDecimalText(n: int)
    ensures IntOf(JStr(IntToString(n))) == Some(n)
  {
    IntToStringRoundTrip(n);
  }
}
