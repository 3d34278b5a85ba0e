/**
 * The loosely-typed values the publisher receives as keyword arguments, with Python's truthiness
 * and `str()` conversion.
 */
module PyValue {
  import opened Text

  /**
   * A Python value as a keyword argument can hold it: `None`, a `bool`, an `int`, a `str`, a list
   * (or tuple) and a `dict` (its items in insertion order).
   */
  datatype Raw =
    | RNone
    | RBool(b: bool)
    | RInt(i: int)
    | RStr(s: string)
    | RList(items: seq<Raw>)
    | RDict(entries: seq<(Raw, Raw)>)

  /** Python's `bool(x)`: `None`, `False`, `0` and empty strings and containers are false. */
  predicate Truthy(x: Raw) {
    match x
    case RNone => false
    case RBool(b) => b
    case RInt(i) => i != 0
    case RStr(s) => s != ""
    case RList(items) => items != []
    case RDict(entries) => entries != []
  }

  /** Python's `str(x)`: a string is itself, anything else its `repr`. */
  function Str(x: Raw): string {
    if x.RStr? then x.s else Repr(x)
  }

  /** Python's `repr(x)`, with strings always in single quotes and nothing escaped. */
  function Repr(x: Raw): string
    decreases x
  {
    match x
    case RNone => "None"
    case RBool(b) => if b then "True" else "False"
    case RInt(i) => IntToString(i)
    case RStr(s) => "'" + s + "'"
    case RList(items) =>
      "[" + Join(", ", seq(|items|, k requires 0 <= k < |items| => Repr(items[k]))) + "]"
    case RDict(entries) =>
      "{" + Join(", ", seq(|entries|, k requires 0 <= k < |entries| =>
                             Repr(entries[k].0) + ": " + Repr(entries[k].1))) + "}"
  }

  /** `[str(x) for x in xs]`. */
  function StrEach(xs: seq<Raw>): (r: seq<string>)
    ensures |r| == |xs| && forall i :: 0 <= i < |xs| ==> r[i] == Str(xs[i])
  {
    seq(|xs|, i requires 0 <= i < |xs| => Str(xs[i]))
  }

  /** `d.values()` of a dict given by its items. */
  function Values(entries: seq<(Raw, Raw)>): (r: seq<Raw>)
    ensures |r| == |entries| && forall i :: 0 <= i < |entries| ==> r[i] == entries[i].1
  {
    seq(|entries|, i requires 0 <= i < |entries| => entries[i].1)
  }

  /** Strings as a Python list of `str`. */
  function Strs(ss: seq<string>): (r: seq<Raw>)
    ensures |r| == |ss| && forall i :: 0 <= i < |ss| ==> r[i] == RStr(ss[i])
  {
    seq(|ss|, i requires 0 <= i < |ss| => RStr(ss[i]))
  }

  /** The keyword arguments of one call. */
  type Args = map<string, Raw>

  /** `kwargs.get(key, default)`: a key that is present wins even when its value is `None`. */
  function Get(args: Args, key: string, default: Raw): Raw {
    if key in args then args[key] else default
  }
}
