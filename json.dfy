/**
 * The JSON values the core decodes from model replies and program output,
 * Python's truthiness on them, `dict.get`, and the `\{.*\}` block search
 * (with `re.S`) that the planner, the classifier and the researcher share.
 *
 * `json.loads` itself is not modelled: it is a `Decoder` parameter. Every
 * text the core hands to it begins with `{`, so a successful decode is an
 * object, and a failed one carries the text of the raised error.
 */
module Json {
  import opened Wrappers

  /** A decoded JSON value; numbers are kept as `real` (JSON integers and floats alike). */
  datatype Value =
    | JNull
    | JBool(b: bool)
    | JNum(n: real)
    | JStr(s: string)
    | JArr(items: seq<Value>)
    | JObj(fields: map<string, Value>)

  /** A Python `dict` decoded from a JSON object, or built by the core. */
  type Obj = map<string, Value>

  /** `json.loads` on a text that begins with `{`: the object, or the error message. */
  type Decoder = string -> Result<Obj, string>

  /** Python's `bool(v)`. */
  predicate Truthy(v: Value) {
    match v
    case JNull => false
    case JBool(b) => b
    case JNum(n) => n != 0.0
    case JStr(s) => s != []
    case JArr(items) => items != []
    case JObj(fields) => fields != map[]
  }

  /** `d.get(key)`: the stored value, or `None` when the key is absent. */
  function Get(d: Obj, key: string): (v: Value)
    ensures key !in d ==> v == JNull
    ensures key in d ==> v == d[key]
  {
    if key in d then d[key] else JNull
  }

  /** The message of the `TypeError` a list or dict raises as a dictionary key. */
  const UnhashableType: string := "unhashable type"

  /** The value may be used as a `dict` key (lists and dicts are unhashable). */
  predicate Hashable(v: Value) {
    !v.JArr? && !v.JObj?
  }

  /** The index of the first `c` in `s`. */
  function FirstIndex(s: string, c: char): (r: Option<nat>)
    ensures r.Some? ==> r.value < |s| && s[r.value] == c && forall k :: 0 <= k < r.value ==> s[k] != c
    ensures r.None? <==> forall k :: 0 <= k < |s| ==> s[k] != c
  {
    if s == [] then None
    else if s[0] == c then Some(0)
    else
      match FirstIndex(s[1..], c)
      case None => None
      case Some(k) =>
        Some(k + 1)
  }

  /** The index of the last `c` in `s`. */
  function LastIndex(s: string, c: char): (r: Option<nat>)
    ensures r.Some? ==> r.value < |s| && s[r.value] == c && forall k :: r.value < k < |s| ==> s[k] != c
    ensures r.None? <==> forall k :: 0 <= k < |s| ==> s[k] != c
  {
    if s == [] then None
    else if s[|s| - 1] == c then Some(|s| - 1)
    else
      var init := s[..|s| - 1];
      assert s == init + [s[|s| - 1]];
      match LastIndex(init, c)
      case None => None
      case Some(k) =>
        Some(k)
  }

  /**
   * `re.search(r"\{.*\}", s, re.S)`: from the first `{` to the last `}`,
   * greedily and across lines; absent when no `}` follows the first `{`.
   */
  function BraceBlock(s: string): (r: Option<string>)
    ensures r.Some? ==> |r.value| >= 2 && r.value[0] == '{' && r.value[|r.value| - 1] == '}'
  {
    match (FirstIndex(s, '{'), LastIndex(s, '}'))
    case (Some(i), Some(j)) => if i < j then Some(s[i..j + 1]) else None
    case _ => None
  }

  /** The block is the slice from the first `{` to the last `}` of the text. */
  lemma BraceBlockBounds(s: string)
    requires BraceBlock(s).Some?
    ensures var i, j := FirstIndex(s, '{').value, LastIndex(s, '}').value;
      i < j && BraceBlock(s).value == s[i..j + 1]
      && (forall k :: 0 <= k < i ==> s[k] != '{') && (forall k :: j < k < |s| ==> s[k] != '}')
  {
  }

  /** No block is found only when no `}` stands anywhere after a `{`. */
  lemma BraceBlockAbsent(s: string, i: nat, j: nat)
    requires BraceBlock(s).None?
    requires i < j < |s| && s[i] == '{'
    ensures s[j] != '}'
  {
  }

  /** The names as a JSON list of strings. */
  function StringList(names: seq<string>): (v: Value)
    ensures v.JArr? && |v.items| == |names|
    ensures forall k :: 0 <= k < |names| ==> v.items[k] == JStr(names[k])
  {
    JArr(seq(|names|, k requires 0 <= k < |names| => JStr(names[k])))
  }
}
