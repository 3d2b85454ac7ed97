/** Python values as `json.loads` produces them, and the handful of built-in
    operations the parsers apply to them. An operation that would raise in
    Python returns `None`. */
module PyValue {
  import opened Wrappers
  import opened Text
  import opened OrderedDict

  datatype Json =
    | JNull
    | JBool(b: bool)
    | JInt(i: int)
    | JFloat(x: real)
    | JStr(s: string)
    | JArr(items: seq<Json>)
    | JObj(fields: seq<(string, Json)>)

  /** Python's `str()` of a float, a list or a dict. How CPython spells a
      float is not part of this model, so the caller supplies it. */
  type Show = Json -> string

  /** `obj[key]` on a decoded JSON object. A decoded object is the list of
      its key/value pairs in the order of the text, and `json.loads` builds
      the dict by assigning them in turn, so a repeated key keeps the value
      written last. */
  function Lookup(fields: seq<(string, Json)>, key: string): Option<Json> {
    LastWrite(fields, key)
  }

  /** `obj.get(key, default)`. */
  function ObjGet(fields: seq<(string, Json)>, key: string, default: Json): Json {
    Lookup(fields, key).GetOr(default)
  }

  /** The keys of a decoded object in the order iterating the dict yields
      them: each key once, at its first occurrence. */
  function ObjectKeys(fields: seq<(string, Json)>): (ks: seq<string>)
    ensures forall k :: k in ks <==> exists i :: 0 <= i < |fields| && fields[i].0 == k
  {
    if fields == [] then []
    else
      var ks := ObjectKeys(fields[..|fields| - 1]);
      var k := fields[|fields| - 1].0;
      assert forall i :: 0 <= i < |fields| - 1 ==> fields[..|fields| - 1][i] == fields[i];
      if k in ks then ks else ks + [k]
  }

  function Strings(ss: seq<string>): (r: seq<Json>)
    ensures |r| == |ss| && forall i :: 0 <= i < |ss| ==> r[i] == JStr(ss[i])
  {
    seq(|ss|, i requires 0 <= i < |ss| => JStr(ss[i]))
  }

  /** What `for x in v` runs over: the items of a list, the one-character
      strings of a str, the keys of a dict. `None` when Python raises
      `TypeError` (None, bools and numbers are not iterable). */
  function Iterate(v: Json): (r: Option<seq<Json>>)
    ensures r.None? <==> v.JNull? || v.JBool? || v.JInt? || v.JFloat?
    ensures v.JArr? ==> r == Some(v.items)
    ensures r.Some? && !v.JArr? ==> forall i :: 0 <= i < |r.value| ==> r.value[i].JStr?
  {
    match v
    case JArr(xs) => Some(xs)
    case JStr(s) => Some(seq(|s|, i requires 0 <= i < |s| => JStr([s[i]])))
    case JObj(fs) => Some(Strings(ObjectKeys(fs)))
    case _ => None
  }

  /** `needle in container` for a str needle: a substring test on a str,
      an element test on a list, a key test on a dict. `None` when Python
      raises `TypeError`. */
  function Contains(container: Json, needle: string): (r: Option<bool>)
    ensures r.None? <==> container.JNull? || container.JBool? || container.JInt? || container.JFloat?
    ensures container.JStr? ==> r == Some(IsSubstring(needle, container.s))
  {
    match container
    case JStr(s) => Some(IsSubstring(needle, s))
    case JArr(xs) => Some(JStr(needle) in xs)
    case JObj(fs) => Some(Lookup(fs, needle).Some?)
    case _ => None
  }

  /** Python's `str(v)`, as an f-string renders a value. */
  function Str(v: Json, show: Show): string {
    match v
    case JNull => "None"
    case JBool(b) => if b then "True" else "False"
    case JInt(i) => IntToString(i)
    case JStr(s) => s
    case _ => show(v)
  }
}
