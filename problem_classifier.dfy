/**
 * `classify_task`: the model's classification of a task, completed with
 * defaults, or, when no JSON object can be read from the reply, a heuristic
 * classification computed from the task text itself. The model's reply is
 * an input and decoding is the `Decoder` parameter.
 */
module ProblemClassifier {
  import opened Wrappers
  import opened Strings
  import opened Json
  import AlgorithmMap

  // ---------------------------------------------------------------------
  // The JSON path: setdefault on the decoded object
  // ---------------------------------------------------------------------

  /** The four `setdefault` values, in the order the calls make them. */
  const Defaults: Obj := map["category" := JNull, "short_form" := JNull, "domain_hint" := JNull, "notes" := JStr("")]

  /** The five keys every classification carries. */
  const ClassificationKeys: set<string> := {"category", "short_form", "domain_hint", "notes", "original_task"}

  /**
   * The decoded object after the four `setdefault` calls (a key keeps its
   * decoded value and only a missing key takes its default, which is
   * `Defaults + data`) and the `original_task` assignment.
   */
  function WithDefaults(data: Obj, taskText: string): (r: Obj)
    ensures r.Keys == data.Keys + ClassificationKeys
    ensures forall k :: k in data && k != "original_task" ==> r[k] == data[k]
    ensures forall k :: k in Defaults && k !in data ==> r[k] == Defaults[k]
    ensures r["original_task"] == if Truthy(Get(data, "original_task")) then data["original_task"] else JStr(taskText)
  {
    var d := Defaults + data;
    assert d.Keys + {"original_task"} == data.Keys + ClassificationKeys;
    d["original_task" := if Truthy(Get(d, "original_task")) then d["original_task"] else JStr(taskText)]
  }

  // ---------------------------------------------------------------------
  // The heuristic fallback: keyword cascade
  // ---------------------------------------------------------------------

  /** The first keyword test that holds on the lower-cased text decides the category. */
  function Category(taskText: string): (cat: string)
    ensures cat in {"integration", "linear_system", "ode_ivp", "pde", "root_finding", "optimization_unconstrained", "other"}
  {
    var lower := LowerAscii(taskText);
    if Contains(lower, "tích phân") || Contains(lower, "integral") then "integration"
    else if Contains(lower, "hệ phương trình") || Contains(lower, "ma trận") then "linear_system"
    else if Contains(lower, "phương trình vi phân") || Contains(lower, "ode") then "ode_ivp"
    else if Contains(lower, "pde") then "pde"
    else if Contains(lower, "tìm nghiệm") || Contains(lower, "= 0") || Contains(lower, "giải phương trình") then "root_finding"
    else if Contains(lower, "tối ưu") || Contains(lower, "cực trị") then "optimization_unconstrained"
    else "other"
  }

  /** Every category the heuristic names, except `other`, has methods in the catalogue. */
  lemma CategoryInCatalogue(taskText: string)
    ensures Category(taskText) != "other" ==> AlgorithmMap.Lookup(Category(taskText)).Some?
    ensures Category(taskText) == "other" ==> AlgorithmMap.Lookup(Category(taskText)).None?
  {
    AlgorithmMap.OtherIsNotACategory();
  }

  /** A mention of an integral wins over every later test, whatever else the text says. */
  lemma IntegralComesFirst(taskText: string)
    requires Contains(LowerAscii(taskText), "integral")
    ensures Category(taskText) == "integration"
  {
  }

  // ---------------------------------------------------------------------
  // The heuristic fallback: `\(([0-9\.\-]+)\s*,\s*([0-9\.\-]+)\)`
  // ---------------------------------------------------------------------

  predicate IsNumberChar(c: char) {
    IsDigit(c) || c == '.' || c == '-'
  }

  /** The two numbers of a parenthesised pair that starts at `i`, if the pattern matches there. */
  function DomainAt(s: string, i: nat): (r: Option<(string, string)>)
    ensures r.Some? ==> i < |s| && s[i] == '('
    ensures r.Some? ==> r.value.0 != [] && r.value.1 != []
    ensures r.Some? ==> forall k :: 0 <= k < |r.value.0| ==> IsNumberChar(r.value.0[k])
    ensures r.Some? ==> forall k :: 0 <= k < |r.value.1| ==> IsNumberChar(r.value.1[k])
    ensures r.Some? ==> OccursAt(s, r.value.0, i + 1)
  {
    if i >= |s| || s[i] != '(' then None
    else
      var e1 := RunEnd(s, i + 1, IsNumberChar);
      var w1 := RunEnd(s, e1, IsSpace);
      if e1 == i + 1 || w1 == |s| || s[w1] != ',' then None
      else
        var w2 := RunEnd(s, w1 + 1, IsSpace);
        var e2 := RunEnd(s, w2, IsNumberChar);
        if e2 == w2 || e2 == |s| || s[e2] != ')' then None
        else Some((s[i + 1..e1], s[w2..e2]))
  }

  /** `re.search`: the leftmost position from `i` on where the pair pattern matches. */
  function FindDomain(s: string, i: nat): (r: Option<nat>)
    requires i <= |s|
    ensures r.Some? ==> i <= r.value < |s| && DomainAt(s, r.value).Some?
    ensures r.Some? ==> forall j :: i <= j < r.value ==> DomainAt(s, j).None?
    ensures r.None? ==> forall j :: i <= j ==> DomainAt(s, j).None?
  {
    var p := (j: nat) => DomainAt(s, j).Some?;
    assert forall j: nat :: p(j) <==> DomainAt(s, j).Some?;
    FirstFrom(|s|, i, p)
  }

  /** The fallback `domain_hint`: `"(a,b)"` from the first pair, whitespace dropped. */
  function DomainHint(taskText: string): (r: Option<string>)
    ensures r.Some? ==> |r.value| >= 5 && r.value[0] == '(' && r.value[|r.value| - 1] == ')' && ',' in r.value
  {
    match FindDomain(taskText, 0)
    case None => None
    case Some(p) =>
      var (a, b) := DomainAt(taskText, p).value;
      Some("(" + a + "," + b + ")")
  }

  // ---------------------------------------------------------------------
  // The heuristic fallback: `(.+?)=\s*0`
  // ---------------------------------------------------------------------

  /** `=` at `e`, then optional whitespace (newlines included), then `0`. */
  predicate EqualsZeroAt(s: string, e: nat) {
    e < |s| && s[e] == '=' && var w := RunEnd(s, e + 1, IsSpace); w < |s| && s[w] == '0'
  }

  /** The lazy `.+?`: the first end `e` from which `=\s*0` follows, without crossing a newline. */
  function LazyEnd(s: string, i: nat, e: nat): (r: Option<nat>)
    requires i < e <= |s|
    requires forall k :: i <= k < e ==> s[k] != '\n'
    ensures r.Some? ==> e <= r.value < |s| && EqualsZeroAt(s, r.value)
    ensures r.Some? ==> forall k :: i <= k < r.value ==> s[k] != '\n'
    ensures r.Some? ==> forall k :: e <= k < r.value ==> !EqualsZeroAt(s, k)
    decreases |s| - e
  {
    if e == |s| then None
    else if EqualsZeroAt(s, e) then Some(e)
    else if s[e] == '\n' then None
    else LazyEnd(s, i, e + 1)
  }

  /** The text `(.+?)` captures when the match starts at `i`. */
  function ShortAt(s: string, i: nat): (r: Option<string>)
    ensures r.Some? ==> r.value != [] && '\n' !in r.value
    ensures r.Some? ==> OccursAt(s, r.value, i) && EqualsZeroAt(s, i + |r.value|)
    ensures r.Some? ==> forall k :: i < k < i + |r.value| ==> !EqualsZeroAt(s, k)
  {
    if i >= |s| || s[i] == '\n' then None
    else
      match LazyEnd(s, i, i + 1)
      case None => None
      case Some(e) => Some(s[i..e])
  }

  /** `re.search`: the leftmost start from `i` on where `(.+?)=\s*0` matches. */
  function FindShort(s: string, i: nat): (r: Option<nat>)
    requires i <= |s|
    ensures r.Some? ==> i <= r.value < |s| && ShortAt(s, r.value).Some?
    ensures r.Some? ==> forall j :: i <= j < r.value ==> ShortAt(s, j).None?
    ensures r.None? ==> forall j :: i <= j ==> ShortAt(s, j).None?
  {
    var p := (j: nat) => ShortAt(s, j).Some?;
    assert forall j: nat :: p(j) <==> ShortAt(s, j).Some?;
    FirstFrom(|s|, i, p)
  }

  /** The fallback `short_form`: the captured text, stripped, with `^` written as `**`. */
  function ShortForm(taskText: string): (r: Option<string>)
    ensures r.None? <==> FindShort(taskText, 0).None?
    ensures r.Some? ==> '^' !in r.value
  {
    match FindShort(taskText, 0)
    case None => None
    case Some(p) => Some(ReplaceChar(Strip(ShortAt(taskText, p).value), '^', "**"))
  }

  /** `Some(text)` as the string value, `None` as `null`. */
  function OptionalText(t: Option<string>): Value {
    match t
    case None => JNull
    case Some(s) => JStr(s)
  }

  /** The heuristic classification, with `notes == "fallback"`. */
  function Fallback(taskText: string): (r: Obj)
    ensures r.Keys == ClassificationKeys
    ensures r["notes"] == JStr("fallback") && r["original_task"] == JStr(taskText)
  {
    map[
      "category" := JStr(Category(taskText)),
      "short_form" := OptionalText(ShortForm(taskText)),
      "domain_hint" := OptionalText(DomainHint(taskText)),
      "notes" := JStr("fallback"),
      "original_task" := JStr(taskText)]
  }

  /** `classify_task` on the model's reply. */
  function ClassifyTask(taskText: string, reply: string, decode: Decoder): (r: Obj)
    ensures ClassificationKeys <= r.Keys
    ensures r["original_task"] == JStr(taskText) || Truthy(r["original_task"])
  {
    var content := Strip(reply);
    match BraceBlock(content)
    case None => Fallback(taskText)
    case Some(block) =>
      match decode(block)
      case Failure(_) => Fallback(taskText)
      case Success(data) => WithDefaults(data, taskText)
  }

  /** When the block decodes, values the model supplied survive, except a falsy `original_task`. */
  lemma DecodedValuesKept(taskText: string, reply: string, decode: Decoder, key: string)
    requires BraceBlock(Strip(reply)).Some?
    requires var d := decode(BraceBlock(Strip(reply)).value); d.Success? && key in d.value
    requires key != "original_task" || Truthy(decode(BraceBlock(Strip(reply)).value).value[key])
    ensures ClassifyTask(taskText, reply, decode)[key] == decode(BraceBlock(Strip(reply)).value).value[key]
  {
  }
}
