/** Python values of JSON shape, as `json.loads` and a browser evaluation hand
    them to the scraper, and the few built-in Python operations on them that the
    modelled code relies on (truthiness, `str.strip`, key lookup). */
module JsonValues {

  datatype Option<+T> = None | Some(value: T)

  /** A Python value built from JSON: `None`, `bool`, `int`, `float`, `str`,
      `list` and `dict`.  A `dict` keeps its insertion order as a sequence of
      key/value pairs; floats are finite and kept as exact reals. */
  datatype Json =
    | JNull
    | JBool(b: bool)
    | JInt(i: int)
    | JFloat(x: real)
    | JStr(s: string)
    | JArr(items: seq<Json>)
    | JObj(entries: seq<(string, Json)>)

  /** `k in d` for a dict `d`. */
  predicate HasKey(es: seq<(string, Json)>, k: string)
  {
    exists n :: 0 <= n < |es| && es[n].0 == k
  }

  /** `d[k]`: the value stored under the first occurrence of `k`. */
  function Lookup(es: seq<(string, Json)>, k: string): (v: Json)
    requires HasKey(es, k)
    ensures exists n :: 0 <= n < |es| && es[n] == (k, v)
  {
    if es[0].0 == k then es[0].1 else Lookup(es[1..], k)
  }

  /** No key occurs twice, as in a Python dict. */
  predicate UniqueNames<V>(es: seq<(string, V)>)
  {
    forall a, b :: 0 <= a < b < |es| ==> es[a].0 != es[b].0
  }

  /** `d.get(k, default)`. */
  function Get(es: seq<(string, Json)>, k: string, default: Json): (v: Json)
    ensures !HasKey(es, k) ==> v == default
    ensures HasKey(es, k) ==> v == Lookup(es, k)
  {
    if HasKey(es, k) then Lookup(es, k) else default
  }

  /** Python truthiness: `None`, `False`, zero and empty containers are false. */
  predicate Truthy(j: Json)
  {
    match j
    case JNull => false
    case JBool(b) => b
    case JInt(i) => i != 0
    case JFloat(x) => x != 0.0
    case JStr(s) => s != []
    case JArr(items) => items != []
    case JObj(es) => es != []
  }

  /** The characters `str.isspace` accepts, which are those `str.strip()` removes. */
  predicate IsSpace(c: char)
  {
    c == ' ' || ('\t' <= c <= '\r') || ('\U{1C}' <= c <= '\U{1F}')
    || c == '\U{85}' || c == '\U{A0}' || c == '\U{1680}'
    || ('\U{2000}' <= c <= '\U{200A}') || c == '\U{2028}' || c == '\U{2029}'
    || c == '\U{202F}' || c == '\U{205F}' || c == '\U{3000}'
  }

  /** `not s.strip()`: the text is empty or consists of whitespace only. */
  predicate Blank(s: string)
  {
    forall k :: 0 <= k < |s| ==> IsSpace(s[k])
  }

  /** `sub` occurs in `s` starting at position `i`. */
  predicate OccursAt(sub: string, s: string, i: int)
  {
    0 <= i <= |s| - |sub| && s[i..i + |sub|] == sub
  }

  /** `sub in s` for two strings. */
  predicate IsSubstring(sub: string, s: string)
  {
    exists i | 0 <= i <= |s| - |sub| :: OccursAt(sub, s, i)
  }

  /** `for item in x`: a list yields its items, a string its characters,
      a dict its keys; anything else raises `TypeError` (`None`). */
  function Iterate(x: Json): (r: Option<seq<Json>>)
    ensures r.Some? <==> x.JArr? || x.JStr? || x.JObj?
    ensures x.JArr? ==> r == Some(x.items)
  {
    match x
    case JArr(items) => Some(items)
    case JStr(s) => Some(seq(|s|, k requires 0 <= k < |s| => JStr([s[k]])))
    case JObj(es) => Some(seq(|es|, k requires 0 <= k < |es| => JStr(es[k].0)))
    case _ => None
  }

  /** `s in x`: a key of a dict, an item of a list equal to the string `s`, or
      a substring of a string; anything else raises `TypeError` (`None`). */
  function Contains(x: Json, s: string): (r: Option<bool>)
    ensures r.Some? <==> x.JArr? || x.JStr? || x.JObj?
    ensures x.JObj? ==> r == Some(HasKey(x.entries, s))
  {
    match x
    case JObj(es) => Some(HasKey(es, s))
    case JArr(items) => Some(JStr(s) in items)
    case JStr(t) => Some(IsSubstring(s, t))
    case _ => None
  }
}
