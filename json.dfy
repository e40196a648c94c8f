/** The Python values that travel through the modelled code: the part of what `json.load`
    produces that the model covers (None, bool, int, str, list, dict; floats are not modelled),
    with Python's subscription rules and `str`/`repr`. */
module JsonValue {
  import opened Wrappers
  import Text
  import Quoting

  datatype Json =
    | JNull
    | JBool(b: bool)
    | JInt(i: int)
    | JStr(s: string)
    | JArr(items: seq<Json>)
    /** A dict, as the sequence of its items in insertion order. */
    | JObj(fields: seq<(string, Json)>)

  /** The items of a dict with string keys, in insertion order. */
  type Dict = seq<(string, Json)>

  /** The position of the first item with key `k`, or `|d|` when there is none. */
  function KeyIndex(d: Dict, k: string): (i: nat)
    ensures i <= |d|
    ensures i < |d| ==> d[i].0 == k
    ensures forall j :: 0 <= j < i ==> d[j].0 != k
  {
    if d == [] then 0 else if d[0].0 == k then 0 else 1 + KeyIndex(d[1..], k)
  }

  predicate HasKey(d: Dict, k: string)
  {
    KeyIndex(d, k) < |d|
  }

  /** `d.get(k)`. */
  function Get(d: Dict, k: string): (r: Option<Json>)
    ensures r.Some? <==> HasKey(d, k)
  {
    var i := KeyIndex(d, k);
    if i < |d| then Some(d[i].1) else None
  }

  function Keys(d: Dict): (ks: seq<string>)
    ensures |ks| == |d| && forall i :: 0 <= i < |d| ==> ks[i] == d[i].0
  {
    seq(|d|, i requires 0 <= i < |d| => d[i].0)
  }

  /** What every Python dict satisfies: no key occurs twice. */
  predicate DistinctKeys(d: Dict)
  {
    forall i, j :: 0 <= i < j < |d| ==> d[i].0 != d[j].0
  }

  /** `type(v).__name__`. */
  function TypeName(v: Json): string
  {
    match v
    case JNull => "NoneType"
    case JBool(_) => "bool"
    case JInt(_) => "int"
    case JStr(_) => "str"
    case JArr(_) => "list"
    case JObj(_) => "dict"
  }

  /** What goes between the brackets of a subscription: a string key or an int index. */
  datatype Key = Name(name: string) | Index(index: int)

  /** The exception a failing subscription raises: KeyError, IndexError or TypeError. */
  datatype LookupFault =
    | KeyError(key: Key)
    | IndexError(container: string)
    | NotSubscriptable(typeName: string)
    | BadIndexType(container: string)

  /** A list or string index as Python reads it: negative indices count from the end. */
  function NormIndex(i: int, len: nat): int
  {
    if i < 0 then i + len else i
  }

  /** `v[k]`. */
  function Subscript(v: Json, k: Key): Result<Json, LookupFault>
  {
    match v
    case JObj(fields) =>
      if k.Name? && HasKey(fields, k.name) then Success(Get(fields, k.name).value)
      else Failure(KeyError(k))
    case JArr(items) =>
      if k.Name? then Failure(BadIndexType("list"))
      else if 0 <= NormIndex(k.index, |items|) < |items| then Success(items[NormIndex(k.index, |items|)])
      else Failure(IndexError("list"))
    case JStr(s) =>
      if k.Name? then Failure(BadIndexType("str"))
      else if 0 <= NormIndex(k.index, |s|) < |s| then Success(JStr([s[NormIndex(k.index, |s|)]]))
      else Failure(IndexError("string"))
    case _ => Failure(NotSubscriptable(TypeName(v)))
  }

  /** `repr(v)`; strings, and the keys of a dict, are written as `repr` writes a str. */
  function Repr(v: Json): string
    decreases v
  {
    match v
    case JNull => "None"
    case JBool(b) => if b then "True" else "False"
    case JInt(i) => Text.IntToString(i)
    case JStr(s) => Quoting.QuoteStr(s)
    case JArr(items) =>
      "[" + Text.Join(", ", seq(|items|, i requires 0 <= i < |items| => Repr(items[i]))) + "]"
    case JObj(fields) =>
      "{" + Text.Join(", ", seq(|fields|, i requires 0 <= i < |fields| =>
                                  Quoting.QuoteStr(fields[i].0) + ": " + Repr(fields[i].1))) + "}"
  }

  /** `str(v)`. */
  function Str(v: Json): string
  {
    if v.JStr? then v.s else Repr(v)
  }

  /** `str(exc)` for a failed subscription. */
  function FaultText(f: LookupFault): string
  {
    match f
    case KeyError(Name(n)) => Quoting.QuoteStr(n)
    case KeyError(Index(i)) => Text.IntToString(i)
    case IndexError(c) => c + " index out of range"
    case NotSubscriptable(t) => "'" + t + "' object is not subscriptable"
    case BadIndexType(c) =>
      if c == "list" then "list indices must be integers or slices, not str"
      else "string indices must be integers, not 'str'"
  }

  /** The text of `KeyError(k)` for a key of printable ASCII without quote or backslash is
      the key in single quotes. */
  lemma KeyErrorText(k: string)
    requires Quoting.Plain(k)
    ensures FaultText(KeyError(Name(k))) == "'" + k + "'"
  {
    Quoting.PlainQuote(k);
  }
}
