/**
 * The `Validator`: for each candidate method, a script (the one the model
 * wrote, or a built-in template), run through `execute_python_raw`, and the
 * first JSON line of its output read back as the method's metrics; then the
 * choice of the best method among the records.
 *
 * The model's answers are parameters: `askReply` for the list of methods,
 * `codeReply(m)` for the script of method `m`. The sandbox is the
 * `SandboxEnv` of the tools module, over the `Code` that is run. Decoding is
 * the `Decoder` parameter and `float()` on a string is `parseFloat`.
 */
module Validation {
  import opened Wrappers
  import opened Strings
  import opened Json
  import opened Tools
  import AlgorithmMap

  /** The constructor's arguments; no method of the class changes them. */
  datatype Validator = Validator(
    taskText: string,
    shortForm: Value,
    domainHint: Value,
    candidateMethods: Value,
    tol: real,
    maxiter: int)

  const DefaultTol: real := 0.000001
  const DefaultMaxIter: int := 200

  /** The most methods validated in one call (`methods[:6]`). */
  const MaxMethods: nat := 6

  /** The `parse_error` of an output without a JSON line. */
  const NoJsonLine: string := "no json line"

  /** The `TypeError` of slicing a value that is neither a list nor a string. */
  const NotSubscriptable: string := "object is not subscriptable"

  /** The `TypeError` of `abs()` on a string, list or dict. */
  const BadAbsOperand: string := "bad operand type for abs()"

  /** The `ValueError` of `min()` on no results. */
  const EmptyMin: string := "min() arg is an empty sequence"

  // ---------------------------------------------------------------------
  // _clean
  // ---------------------------------------------------------------------

  /** The language tag `python`, in any mix of cases. */
  predicate IsPythonTag(w: string) {
    LowerAscii(w) == "python"
  }

  /** `re.sub(r"^```(?:python)?\n", "", s, flags=re.I)`: the opening fence, tagged or not. */
  function DropOpeningFence(s: string): (r: string)
    ensures r == s || s == "```\n" + r || (|s| >= 10 && IsPythonTag(s[3..9]) && s == "```" + s[3..9] + "\n" + r)
  {
    if |s| >= 10 && s[..3] == "```" && IsPythonTag(s[3..9]) && s[9] == '\n' then
      assert s == s[..3] + s[3..9] + "\n" + s[10..];
      s[10..]
    else if StartsWith(s, "```\n") then
      assert s == s[..4] + s[4..];
      s[4..]
    else s
  }

  /**
   * `re.sub(r"\n```$", "", s)`: without MULTILINE, `$` matches at the end
   * and just before a final newline, which is then kept.
   */
  function DropClosingFence(s: string): (r: string)
    ensures r == s || s == r + "\n```" || (r != [] && r[|r| - 1] == '\n' && s == r[..|r| - 1] + "\n```\n")
  {
    if EndsWith(s, "\n```") then
      assert s == s[..|s| - 4] + s[|s| - 4..];
      s[..|s| - 4]
    else if EndsWith(s, "\n```\n") then
      var r := s[..|s| - 5] + "\n";
      assert r[..|r| - 1] == s[..|s| - 5];
      assert s == s[..|s| - 5] + s[|s| - 5..];
      r
    else s
  }

  /** `_clean`: the text without its Markdown fence, stripped. */
  function Clean(s: string): (r: string)
    ensures Strip(r) == r
  {
    if s == [] then
      StripOfStripped(s);
      s
    else
      var r := Strip(DropClosingFence(DropOpeningFence(s)));
      StripIdempotent(DropClosingFence(DropOpeningFence(s)));
      r
  }

  /** A fenced block, tagged `python` in any case or untagged, cleans to its stripped body. */
  lemma FencedBlockUnwrapped(tag: string, body: string)
    requires tag == "" || IsPythonTag(tag)
    ensures Clean("```" + tag + "\n" + body + "\n```") == Strip(body)
  {
    FencesDropped(tag, body);
  }

  /** Both fences of a block come off and leave its body. */
  lemma FencesDropped(tag: string, body: string)
    requires tag == "" || IsPythonTag(tag)
    ensures DropClosingFence(DropOpeningFence("```" + tag + "\n" + body + "\n```")) == body
  {
    var s := "```" + tag + "\n" + body + "\n```";
    var inner := body + "\n```";
    if tag == "" {
      assert s[3] == '\n';
      if |s| >= 10 {
        assert LowerAscii(s[3..9])[0] == '\n';
      }
      assert s == "```\n" + inner;
      assert DropOpeningFence(s) == inner;
    } else {
      assert |tag| == 6;
      assert s[..3] == "```" && s[3..9] == tag && s[9] == '\n';
      assert s[10..] == inner;
    }
    assert inner[..|inner| - 4] == body;
  }

  /** A text with no fence at either end is only stripped. */
  lemma UnfencedIsStripped(s: string)
    requires !StartsWith(s, "```") && !EndsWith(s, "```") && !EndsWith(s, "```\n")
    ensures Clean(s) == Strip(s)
  {
    NoFenceToDrop(s);
  }

  /** Neither fence pattern matches a text that does not begin or end with a fence. */
  lemma NoFenceToDrop(s: string)
    requires !StartsWith(s, "```") && !EndsWith(s, "```") && !EndsWith(s, "```\n")
    ensures DropClosingFence(DropOpeningFence(s)) == s
  {
    NoOpeningFence(s);
    NoClosingFence(s);
  }

  lemma NoOpeningFence(s: string)
    requires !StartsWith(s, "```")
    ensures DropOpeningFence(s) == s
  {
  }

  lemma NoClosingFence(s: string)
    requires !EndsWith(s, "```") && !EndsWith(s, "```\n")
    ensures DropClosingFence(s) == s
  {
  }

  // ---------------------------------------------------------------------
  // _ask_methods
  // ---------------------------------------------------------------------

  /** The class `[\n,;]` that separates the methods in the model's answer. */
  predicate IsMethodSeparator(c: char) {
    c == '\n' || c == ',' || c == ';'
  }

  predicate NoSeparator(s: string) {
    forall i :: 0 <= i < |s| ==> !IsMethodSeparator(s[i])
  }

  /** `re.sub(r"^\d+\.\s*", "", t)`: a leading `N.` and the spaces after it. */
  function DropNumbering(t: string): (r: string)
    ensures |r| <= |t| && r == t[|t| - |r|..]
    ensures Trimmed(t) ==> Trimmed(r)
  {
    var e := RunEnd(t, 0, IsDigit);
    if 0 < e < |t| && t[e] == '.' then t[RunEnd(t, e + 1, IsSpace)..] else t
  }

  /** A number, a dot and spaces are dropped from the front of a name. */
  lemma NumberingDropped(n: nat, gap: string, name: string)
    requires forall i :: 0 <= i < |gap| ==> IsSpace(gap[i])
    requires name == [] || !IsSpace(name[0])
    ensures DropNumbering(NatToString(n) + "." + gap + name) == name
  {
    var digits := NatToString(n);
    var t := digits + "." + gap + name;
    var e := RunEnd(t, 0, IsDigit);
    assert t[|digits|] == '.';
    assert e == |digits|;
    var w := RunEnd(t, e + 1, IsSpace);
    assert forall k :: e + 1 <= k < e + 1 + |gap| ==> t[k] == gap[k - e - 1];
    if name != [] {
      assert t[e + 1 + |gap|] == name[0];
    }
    assert w == e + 1 + |gap|;
    assert t[w..] == name;
  }

  /** A slice of a separator-free text is separator-free. */
  lemma NoSeparatorSlice(s: string, a: nat, b: nat)
    requires a <= b <= |s| && NoSeparator(s)
    ensures NoSeparator(s[a..b])
  {
    assert forall i :: 0 <= i < b - a ==> s[a..b][i] == s[a + i];
  }

  /** The entry one part contributes: none if it is blank, else the stripped part without its numbering. */
  function PartEntry(p: string): (r: seq<string>)
    ensures |r| <= 1
    ensures forall k :: 0 <= k < |r| ==> Trimmed(r[k])
  {
    var t := Strip(p);
    if t == "" then []
    else
      StripTrimmed(p);
      [DropNumbering(t)]
  }

  /** Stripping and dropping the numbering only cut a part down. */
  lemma EntryKeepsNoSeparator(p: string)
    requires NoSeparator(p)
    ensures forall k :: 0 <= k < |PartEntry(p)| ==> NoSeparator(PartEntry(p)[k])
  {
    var t := Strip(p);
    if t != "" {
      var d := DropNumbering(t);
      NoSeparatorSlice(p, StripStart(p), StripEnd(p));
      NoSeparatorSlice(t, |t| - |d|, |t|);
      assert PartEntry(p) == [d];
    }
  }

  /** The entries of the parts, in order (the loop of `_ask_methods` before `[:6]`). */
  function MethodEntries(parts: seq<string>): (r: seq<string>)
    ensures |r| <= |parts|
    ensures forall k :: 0 <= k < |r| ==> Trimmed(r[k])
    decreases |parts|
  {
    if parts == [] then []
    else
      var init := MethodEntries(parts[..|parts| - 1]);
      var last := PartEntry(parts[|parts| - 1]);
      assert forall k :: |init| <= k < |init + last| ==> (init + last)[k] == last[k - |init|];
      init + last
  }

  /** Parts without separators give entries without separators. */
  lemma {:induction false} EntriesKeepNoSeparator(parts: seq<string>)
    requires forall k :: 0 <= k < |parts| ==> NoSeparator(parts[k])
    ensures forall k :: 0 <= k < |MethodEntries(parts)| ==> NoSeparator(MethodEntries(parts)[k])
    decreases |parts|
  {
    if parts != [] {
      var init := parts[..|parts| - 1];
      assert forall k :: 0 <= k < |init| ==> init[k] == parts[k];
      EntriesKeepNoSeparator(init);
      EntryKeepsNoSeparator(parts[|parts| - 1]);
      var r := MethodEntries(parts);
      var a := MethodEntries(init);
      var b := PartEntry(parts[|parts| - 1]);
      assert r == a + b;
      forall k | 0 <= k < |r| ensures NoSeparator(r[k]) {
        if k < |a| {
          assert r[k] == a[k];
        } else {
          assert r[k] == b[k - |a|];
        }
      }
    }
  }

  /** The entries of one more part are those of the parts before it and its own. */
  lemma EntriesStep(parts: seq<string>, i: nat)
    requires i < |parts|
    ensures MethodEntries(parts[..i + 1]) == MethodEntries(parts[..i]) + PartEntry(parts[i])
  {
    assert parts[..i + 1][..i] == parts[..i];
  }

  /** What `_ask_methods` returns for the model's answer, or the exception the call raised. */
  function AskedMethods(reply: Reply): Result<seq<string>, string> {
    match reply
    case Raised(message) => Failure(message)
    case Text(txt) =>
      Success(AlgorithmMap.Take(MethodEntries(SplitRuns(txt, IsMethodSeparator)), MaxMethods))
  }

  /** At most six entries, none with whitespace at its ends, none holding a separator. */
  lemma AskedMethodsShape(reply: Reply)
    requires AskedMethods(reply).Success?
    ensures var ms := AskedMethods(reply).value;
      |ms| <= MaxMethods && forall k :: 0 <= k < |ms| ==> Trimmed(ms[k]) && NoSeparator(ms[k])
  {
    var parts := SplitRuns(reply.content, IsMethodSeparator);
    EntriesKeepNoSeparator(parts);
  }

  /** `_ask_methods`. */
  method AskMethods(reply: Reply) returns (r: Result<seq<string>, string>)
    ensures r == AskedMethods(reply)
  {
    match reply
    case Raised(message) =>
      return Failure(message);
    case Text(txt) =>
      var parts := SplitRuns(txt, IsMethodSeparator);
      var methods: seq<string> := [];
      for i := 0 to |parts|
        invariant methods == MethodEntries(parts[..i])
      {
        EntriesStep(parts, i);
        var t := Strip(parts[i]);
        if t != "" {
          methods := methods + [DropNumbering(t)];
        }
      }
      assert parts[..|parts|] == parts;
      return Success(AlgorithmMap.Take(methods, MaxMethods));
  }

  // ---------------------------------------------------------------------
  // _ask_code and _fallback
  // ---------------------------------------------------------------------

  /** The script that is run: the model's, or one of the two templates with what they are filled with. */
  datatype Code =
    | Generated(text: string)
    | BisectionTemplate(bracket: string, f: Value, maxiter: int, tol: real)
    | SecantTemplate(f: Value, maxiter: int, tol: real)

  /** `a,b = s[1:-1].split(",")` on the stripped hint: the two assignments, or nothing when there are not two parts. */
  function BracketOf(s: string): (r: string)
    ensures r != "" ==> StartsWith(r, "a=") && EndsWith(r, "\n")
  {
    var inner := if |s| >= 2 then s[1..|s| - 1] else "";
    var parts := SplitOn(inner, ',');
    if |parts| == 2 then
      var r := "a=" + parts[0] + "\nb=" + parts[1] + "\n";
      assert r[..2] == "a=";
      r
    else ""
  }

  /** The lines `a=…` and `b=…` read from a `"(a,b)"` hint; nothing for a falsy or non-string hint. */
  function Bracket(domainHint: Value): (r: string)
    ensures r != "" ==> domainHint.JStr? && StartsWith(r, "a=") && EndsWith(r, "\n")
  {
    if !Truthy(domainHint) || !domainHint.JStr? then "" else BracketOf(Strip(domainHint.s))
  }

  /** A parenthesised pair of comma-free texts gives both bounds. */
  lemma {:induction false} PairBracket(a: string, b: string)
    requires ',' !in a && ',' !in b
    ensures BracketOf("(" + a + "," + b + ")") == "a=" + a + "\nb=" + b + "\n"
  {
    var s := "(" + a + "," + b + ")";
    assert s[1..|s| - 1] == a + [','] + b;
    SplitOnPair(a, b, ',');
  }

  /** A hint without a comma gives no bounds. */
  lemma BracketNeedsComma(domainHint: string)
    requires ',' !in domainHint
    ensures Bracket(JStr(domainHint)) == ""
  {
    var s := Strip(domainHint);
    var a := StripStart(domainHint);
    NotInSlice(domainHint, ',', a, a + |s|);
    if |s| >= 2 {
      NotInSlice(s, ',', 1, |s| - 1);
      SplitOnNone(s[1..|s| - 1], ',');
    } else {
      SplitOnNone("", ',');
    }
  }

  /** `_fallback(m)`: bisection for `"Bisection"`, secant for every other key; a list or dict raises. */
  function FallbackCode(v: Validator, m: Value): (r: Result<Code, string>)
    ensures r.Failure? <==> !Hashable(m)
    ensures r.Success? ==> !r.value.Generated? && (r.value.BisectionTemplate? <==> m == JStr("Bisection"))
    ensures r.Failure? ==> r.error == UnhashableType
  {
    var f := if Truthy(v.shortForm) then v.shortForm else JStr("None");
    var bracket := Bracket(v.domainHint);
    if !Hashable(m) then Failure(UnhashableType)
    else if m == JStr("Bisection") then Success(BisectionTemplate(bracket, f, v.maxiter, v.tol))
    else Success(SecantTemplate(f, v.maxiter, v.tol))
  }

  /** A generated script is kept only when it is non-empty and mentions both `print` and `json`. */
  predicate Usable(code: string) {
    code != "" && Contains(code, "print") && Contains(code, "json")
  }

  /** The code run for method `m`, given the model's answer to the code request. */
  function CodeFor(v: Validator, m: Value, reply: Reply): Result<Code, string> {
    match reply
    case Raised(_) => FallbackCode(v, m)
    case Text(content) =>
      var code := Clean(content);
      if !Usable(code) then FallbackCode(v, m) else Success(Generated(code))
  }

  /** The model's script is run exactly when it is usable once cleaned; otherwise the template is. */
  lemma GeneratedIffUsable(v: Validator, m: Value, reply: Reply)
    ensures reply.Text? && Usable(Clean(reply.content)) ==> CodeFor(v, m, reply) == Success(Generated(Clean(reply.content)))
    ensures !(reply.Text? && Usable(Clean(reply.content))) ==> CodeFor(v, m, reply) == FallbackCode(v, m)
    ensures CodeFor(v, m, reply).Success? && CodeFor(v, m, reply).value.Generated? ==>
      Strip(CodeFor(v, m, reply).value.text) == CodeFor(v, m, reply).value.text
  {
  }

  // ---------------------------------------------------------------------
  // Reading the output
  // ---------------------------------------------------------------------

  /** A stripped line that starts with `{` and ends with `}`. */
  predicate IsJsonLine(line: string) {
    StartsWith(line, "{") && EndsWith(line, "}")
  }

  /** The output's lines, each stripped, as the loop reads them. */
  function StrippedLines(out: string): (ls: seq<string>)
    ensures |ls| == |Lines(out)| && forall k :: 0 <= k < |ls| ==> ls[k] == Strip(Lines(out)[k])
  {
    var lines := Lines(out);
    seq(|lines|, k requires 0 <= k < |lines| => Strip(lines[k]))
  }

  /** The index of the first JSON line from `i` on. */
  function FirstJsonFrom(lines: seq<string>, i: nat): (r: Option<nat>)
    requires i <= |lines|
    ensures r.Some? ==> i <= r.value < |lines| && IsJsonLine(lines[r.value])
    ensures r.Some? ==> forall j :: i <= j < r.value ==> !IsJsonLine(lines[j])
    ensures r.None? <==> forall j :: i <= j < |lines| ==> !IsJsonLine(lines[j])
    decreases |lines| - i
  {
    if i == |lines| then None
    else if IsJsonLine(lines[i]) then Some(i)
    else FirstJsonFrom(lines, i + 1)
  }

  /** Lines after the first JSON line never change which line is read. */
  lemma {:induction false} LaterLinesIgnored(lines: seq<string>, more: seq<string>, i: nat)
    requires i <= |lines| && FirstJsonFrom(lines, i).Some?
    ensures FirstJsonFrom(lines + more, i) == FirstJsonFrom(lines, i)
    decreases |lines| - i
  {
    assert (lines + more)[i] == lines[i];
    if !IsJsonLine(lines[i]) {
      LaterLinesIgnored(lines, more, i + 1);
    }
  }

  /** The first JSON line of the output, stripped. */
  function FirstJson(out: string): (r: Option<string>)
    ensures r.Some? ==> IsJsonLine(r.value)
  {
    var lines := StrippedLines(out);
    match FirstJsonFrom(lines, 0)
    case None => None
    case Some(k) => Some(lines[k])
  }

  /** The record of one method given its output's first JSON line, if any. */
  function Record(m: Value, out: string, firstJson: Option<string>, decode: Decoder): Obj {
    var seed := map["method" := m, "raw_output" := JStr(out)];
    match firstJson
    case None => seed["parse_error" := JStr(NoJsonLine)]
    case Some(line) =>
      match decode(line)
      case Success(obj) => seed + obj
      case Failure(e) => seed["parse_error" := JStr(e)]
  }

  /** The record of one method: its name and raw output, updated with the decoded JSON line or given a `parse_error`. */
  function ParsedOutput(m: Value, out: string, decode: Decoder): Obj {
    Record(m, out, FirstJson(out), decode)
  }

  /** Without a JSON line the record is the name, the output and `parse_error: "no json line"`. */
  lemma NoJsonLineRecorded(m: Value, out: string, decode: Decoder)
    requires forall j :: 0 <= j < |Lines(out)| ==> !IsJsonLine(Strip(Lines(out)[j]))
    ensures ParsedOutput(m, out, decode)
      == map["method" := m, "raw_output" := JStr(out), "parse_error" := JStr(NoJsonLine)]
  {
    assert FirstJsonFrom(StrippedLines(out), 0).None?;
  }

  /** The decoded fields are added, and override the name and the output when they repeat those keys. */
  lemma DecodedFieldsWin(m: Value, out: string, line: string, decode: Decoder, key: string)
    requires FirstJson(out) == Some(line)
    requires decode(line).Success?
    ensures var obj := decode(line).value;
      var r := ParsedOutput(m, out, decode);
      && r.Keys == obj.Keys + {"method", "raw_output"}
      && (key in obj ==> r[key] == obj[key])
      && ("method" !in obj ==> r["method"] == m)
      && ("raw_output" !in obj ==> r["raw_output"] == JStr(out))
  {
    var seed := map["method" := m, "raw_output" := JStr(out)];
    assert ParsedOutput(m, out, decode) == seed + decode(line).value;
  }

  /** A JSON line that does not decode leaves the error text in `parse_error` and nothing else. */
  lemma DecodeErrorRecorded(m: Value, out: string, line: string, decode: Decoder)
    requires FirstJson(out) == Some(line)
    requires decode(line).Failure?
    ensures ParsedOutput(m, out, decode)
      == map["method" := m, "raw_output" := JStr(out), "parse_error" := JStr(decode(line).error)]
  {
    assert ParsedOutput(m, out, decode) == Record(m, out, Some(line), decode);
  }

  /** The record built from the output's first JSON line. */
  method ParseOutput(m: Value, out: string, decode: Decoder) returns (parsed: Obj)
    ensures parsed == ParsedOutput(m, out, decode)
  {
    var firstJson := FindFirstJson(out);
    parsed := map["method" := m, "raw_output" := JStr(out)];
    match firstJson
    case Some(line) =>
      match decode(line) {
        case Success(obj) =>
          parsed := parsed + obj;
        case Failure(e) =>
          parsed := parsed["parse_error" := JStr(e)];
      }
    case None =>
      parsed := parsed["parse_error" := JStr(NoJsonLine)];
    assert parsed == Record(m, out, firstJson, decode);
  }

  /** The loop over the output's lines that stops at the first JSON line. */
  method FindFirstJson(out: string) returns (firstJson: Option<string>)
    ensures firstJson == FirstJson(out)
  {
    var lines := Lines(out);
    ghost var stripped := StrippedLines(out);
    firstJson := None;
    var i := 0;
    while i < |lines|
      invariant 0 <= i <= |lines|
      invariant firstJson == None && FirstJsonFrom(stripped, 0) == FirstJsonFrom(stripped, i)
    {
      var line := Strip(lines[i]);
      assert line == stripped[i];
      if IsJsonLine(line) {
        assert FirstJsonFrom(stripped, i) == Some(i);
        firstJson := Some(line);
        return;
      }
      i := i + 1;
    }
    assert FirstJsonFrom(stripped, i) == None;
  }

  // ---------------------------------------------------------------------
  // validate_methods
  // ---------------------------------------------------------------------

  /**
   * `methods[:6]` on whatever `methods` holds: a list, a string (its
   * characters), or a `TypeError`. A dict takes the slice as a key, and a
   * slice is unhashable; any other value is not subscriptable.
   */
  function FirstSix(methods: Value): (r: Result<seq<Value>, string>)
    ensures r.Success? <==> methods.JArr? || methods.JStr?
    ensures r.Success? ==> |r.value| <= MaxMethods
    ensures methods.JArr? ==> r.value == AlgorithmMap.Take(methods.items, MaxMethods)
    ensures methods.JObj? ==> r == Failure(UnhashableType)
    ensures r.Failure? && !methods.JObj? ==> r == Failure(NotSubscriptable)
  {
    match methods
    case JArr(items) => Success(AlgorithmMap.Take(items, MaxMethods))
    case JStr(s) =>
      var n := if |s| < MaxMethods then |s| else MaxMethods;
      Success(seq(n, i requires 0 <= i < n => JStr([s[i]])))
    case JObj(_) => Failure(UnhashableType)
    case _ => Failure(NotSubscriptable)
  }

  /** `(candidate_methods or self.candidate_methods or self._ask_methods())[:6]`. */
  function ChosenMethods(v: Validator, arg: Value, askReply: Reply): Result<seq<Value>, string> {
    if Truthy(arg) then FirstSix(arg)
    else if Truthy(v.candidateMethods) then FirstSix(v.candidateMethods)
    else
      match AskedMethods(askReply)
      case Failure(e) => Failure(e)
      case Success(names) => FirstSix(StringList(names))
  }

  /** The record of method `m`: its code run with the default number of install attempts, and the output read. */
  function OutcomeFor(v: Validator, m: Value, codeReply: Value -> Reply, env: SandboxEnv<Code>, decode: Decoder): Result<Obj, string> {
    match CodeFor(v, m, codeReply(m))
    case Failure(e) => Failure(e)
    case Success(code) => Success(ParsedOutput(m, ExecutionTrace(env, code, DefaultMaxInstallAttempts).output, decode))
  }

  /** `OutcomeFor` for each method of one call. */
  function Outcomes(v: Validator, codeReply: Value -> Reply, env: SandboxEnv<Code>, decode: Decoder): Value -> Result<Obj, string> {
    (m: Value) => OutcomeFor(v, m, codeReply, env, decode)
  }

  /** The records of the methods in order, or the first exception raised. */
  function ResultsFor(methods: seq<Value>, outcome: Value -> Result<Obj, string>): (r: Result<seq<Obj>, string>)
    ensures r.Success? <==> forall k :: 0 <= k < |methods| ==> outcome(methods[k]).Success?
    ensures r.Success? ==>
      |r.value| == |methods| && forall k :: 0 <= k < |methods| ==> r.value[k] == outcome(methods[k]).value
    decreases |methods|
  {
    if methods == [] then Success([])
    else
      var init := methods[..|methods| - 1];
      var m := methods[|methods| - 1];
      assert forall k :: 0 <= k < |init| ==> methods[k] == init[k];
      match ResultsFor(init, outcome)
      case Failure(e) => Failure(e)
      case Success(done) =>
        match outcome(m)
        case Failure(e) => Failure(e)
        case Success(record) => Success(done + [record])
  }

  /** One more method: its record is appended, or its exception becomes the result. */
  lemma ResultsStep(methods: seq<Value>, i: nat, outcome: Value -> Result<Obj, string>, results: seq<Obj>)
    requires i < |methods| && ResultsFor(methods[..i], outcome) == Success(results)
    ensures outcome(methods[i]).Success? ==>
      ResultsFor(methods[..i + 1], outcome) == Success(results + [outcome(methods[i]).value])
    ensures outcome(methods[i]).Failure? ==>
      ResultsFor(methods, outcome) == Failure(outcome(methods[i]).error)
  {
    assert methods[..i + 1][..i] == methods[..i];
    if outcome(methods[i]).Failure? {
      FailurePersists(methods, i + 1, |methods|, outcome);
      assert methods[..|methods|] == methods;
    }
  }

  /** Once a method raises, the whole list raises with the same error. */
  lemma {:induction false} FailurePersists(methods: seq<Value>, i: nat, j: nat, outcome: Value -> Result<Obj, string>)
    requires i <= j <= |methods|
    requires ResultsFor(methods[..i], outcome).Failure?
    ensures ResultsFor(methods[..j], outcome) == ResultsFor(methods[..i], outcome)
    decreases j - i
  {
    if i < j {
      FailurePersists(methods, i, j - 1, outcome);
      assert methods[..j][..j - 1] == methods[..j - 1];
    }
  }

  /** `validate_methods`, as a whole: the methods chosen, then one record per method. */
  function Validated(v: Validator, arg: Value, askReply: Reply, codeReply: Value -> Reply, env: SandboxEnv<Code>, decode: Decoder)
    : (r: Result<seq<Obj>, string>)
    ensures ChosenMethods(v, arg, askReply).Failure? ==> r == Failure(ChosenMethods(v, arg, askReply).error)
    ensures r.Success? ==>
      ChosenMethods(v, arg, askReply).Success? && |r.value| == |ChosenMethods(v, arg, askReply).value| <= MaxMethods
  {
    match ChosenMethods(v, arg, askReply)
    case Failure(e) => Failure(e)
    case Success(methods) => ResultsFor(methods, Outcomes(v, codeReply, env, decode))
  }

  /** `methods = candidate_methods or self.candidate_methods or self._ask_methods()` and `methods[:6]`. */
  method ChooseMethods(v: Validator, arg: Value, askReply: Reply) returns (r: Result<seq<Value>, string>)
    ensures r == ChosenMethods(v, arg, askReply)
  {
    if Truthy(arg) {
      r := FirstSix(arg);
    } else if Truthy(v.candidateMethods) {
      r := FirstSix(v.candidateMethods);
    } else {
      var asked := AskMethods(askReply);
      if asked.Failure? {
        return Failure(asked.error);
      }
      r := FirstSix(StringList(asked.value));
    }
  }

  /** One pass of the loop: the code for `m`, its run in a fresh sandbox, and the record read from the output. */
  method ValidateOne(v: Validator, m: Value, codeReply: Value -> Reply, env: SandboxEnv<Code>, decode: Decoder)
    returns (r: Result<Obj, string>)
    ensures r == Outcomes(v, codeReply, env, decode)(m)
  {
    var code := CodeFor(v, m, codeReply(m));
    if code.Failure? {
      return Failure(code.error);
    }
    var out: string;
    ghost var runs: nat, installs: seq<string>;
    out, runs, installs := ExecutePythonRaw(code.value, DefaultMaxInstallAttempts, env);
    var parsed := ParseOutput(m, out, decode);
    return Success(parsed);
  }

  /** The loop of `validate_methods`: one record per method, in order, until a method raises. */
  method ValidateAll(v: Validator, methods: seq<Value>, codeReply: Value -> Reply, env: SandboxEnv<Code>, decode: Decoder)
    returns (r: Result<seq<Obj>, string>)
    ensures r == ResultsFor(methods, Outcomes(v, codeReply, env, decode))
  {
    ghost var outcome := Outcomes(v, codeReply, env, decode);
    var results: seq<Obj> := [];
    for i := 0 to |methods|
      invariant ResultsFor(methods[..i], outcome) == Success(results)
    {
      var record := ValidateOne(v, methods[i], codeReply, env, decode);
      ResultsStep(methods, i, outcome, results);
      if record.Failure? {
        return Failure(record.error);
      }
      results := results + [record.value];
    }
    assert methods[..|methods|] == methods;
    return Success(results);
  }

  /** `validate_methods`. */
  method ValidateMethods(v: Validator, arg: Value, askReply: Reply, codeReply: Value -> Reply, env: SandboxEnv<Code>, decode: Decoder)
    returns (r: Result<seq<Obj>, string>)
    ensures r == Validated(v, arg, askReply, codeReply, env, decode)
  {
    var chosen := ChooseMethods(v, arg, askReply);
    if chosen.Failure? {
      return Failure(chosen.error);
    }
    r := ValidateAll(v, chosen.value, codeReply, env, decode);
  }

  /** The list passed in wins over the stored one, which wins over asking the model; at most six are validated. */
  lemma MethodsChosenInOrder(v: Validator, arg: Value, askReply: Reply)
    ensures Truthy(arg) ==> ChosenMethods(v, arg, askReply) == FirstSix(arg)
    ensures !Truthy(arg) && Truthy(v.candidateMethods) ==> ChosenMethods(v, arg, askReply) == FirstSix(v.candidateMethods)
    ensures ChosenMethods(v, arg, askReply).Success? ==> |ChosenMethods(v, arg, askReply).value| <= MaxMethods
    ensures !Truthy(arg) && !Truthy(v.candidateMethods) && AskedMethods(askReply).Success? ==>
      ChosenMethods(v, arg, askReply).Success?
      && |ChosenMethods(v, arg, askReply).value| == |AskedMethods(askReply).value|
  {
  }

  // ---------------------------------------------------------------------
  // pick_best
  // ---------------------------------------------------------------------

  /** A ranking key: a float, `inf` included (`nan` is not modelled). */
  datatype Key = Finite(x: real) | Infinity

  /** `a < b` on floats. */
  predicate Below(a: Key, b: Key) {
    a.Finite? && (b.Infinity? || a.x < b.x)
  }

  function Abs(x: real): (r: real)
    ensures r >= 0.0 && (r == x || r == -x)
  {
    if x < 0.0 then -x else x
  }

  /** A record whose `success` is truthy. */
  predicate Succeeded(r: Obj) {
    Truthy(Get(r, "success"))
  }

  /** `iterations` if it is a number (a bool counts as 0 or 1), else 1000. */
  function Iterations(r: Obj): real {
    match Get(r, "iterations")
    case JNum(n) => n
    case JBool(b) => if b then 1.0 else 0.0
    case _ => 1000.0
  }

  /** `score(r)`: `inf` for a failed run, else iterations plus `abs(residual or 0.0)`. */
  function Score(r: Obj): (k: Result<Key, string>)
    ensures !Succeeded(r) ==> k == Success(Infinity)
    ensures Succeeded(r) && k.Success? ==> k.value.Finite? && k.value.x >= Iterations(r)
    ensures k.Failure? <==> Succeeded(r) && Truthy(Get(r, "residual")) && !Get(r, "residual").JNum? && !Get(r, "residual").JBool?
  {
    if !Succeeded(r) then Success(Infinity)
    else
      var res := if Truthy(Get(r, "residual")) then Get(r, "residual") else JNum(0.0);
      match res
      case JNum(n) => Success(Finite(Iterations(r) + Abs(n)))
      case JBool(b) => Success(Finite(Iterations(r) + (if b then 1.0 else 0.0)))
      case _ => Failure(BadAbsOperand)
  }

  /** `resid_key(r)`: `abs(float(residual or result or 1e9))`, and `inf` when `float` raises. */
  function ResidualKey(r: Obj, parseFloat: string -> Option<real>): Key {
    var v := if Truthy(Get(r, "residual")) then Get(r, "residual")
             else if Truthy(Get(r, "result")) then Get(r, "result")
             else JNum(1000000000.0);
    match v
    case JNum(n) => Finite(Abs(n))
    case JBool(b) => Finite(if b then 1.0 else 0.0)
    case JStr(s) => (match parseFloat(s) case Some(x) => Finite(Abs(x)) case None => Infinity)
    case _ => Infinity
  }

  /** A residual of exactly zero is falsy, so the record is ranked by `|result|` instead. */
  lemma ZeroResidualFallsThrough(r: Obj, x: real, parseFloat: string -> Option<real>)
    requires Get(r, "residual") == JNum(0.0) && Get(r, "result") == JNum(x) && x != 0.0
    ensures ResidualKey(r, parseFloat) == Finite(Abs(x))
  {
  }

  /** `[r for r in results if r.get("success")]`. */
  function Successes(results: seq<Obj>): (s: seq<Obj>)
    ensures |s| <= |results|
    decreases |results|
  {
    if results == [] then []
    else (if Succeeded(results[0]) then [results[0]] else []) + Successes(results[1..])
  }

  /** The successes are the successful records of `results` and nothing else; there are none only when no record succeeded. */
  lemma {:induction false} SuccessesMembers(results: seq<Obj>)
    ensures var s := Successes(results);
      && (forall k :: 0 <= k < |s| ==> Succeeded(s[k]))
      && (forall r :: r in results && Succeeded(r) ==> r in s)
      && (forall r :: r in s ==> r in results)
      && (s == [] <==> forall k :: 0 <= k < |results| ==> !Succeeded(results[k]))
    decreases |results|
  {
    if results != [] {
      var rest := results[1..];
      SuccessesMembers(rest);
      assert forall r :: r in results ==> r == results[0] || r in rest;
      assert forall k :: 1 <= k < |results| ==> results[k] == rest[k - 1];
    }
  }

  /** The filter distributes over concatenation, so the successful records keep their order and their repetitions. */
  lemma {:induction false} SuccessesAppend(a: seq<Obj>, b: seq<Obj>)
    ensures Successes(a + b) == Successes(a) + Successes(b)
    decreases |a|
  {
    if a == [] {
      assert a + b == b;
    } else {
      var head := if Succeeded(a[0]) then [a[0]] else [];
      assert (a + b)[0] == a[0] && (a + b)[1..] == a[1..] + b;
      SuccessesAppend(a[1..], b);
      calc {
        Successes(a + b);
        head + Successes(a[1..] + b);
        head + (Successes(a[1..]) + Successes(b));
        (head + Successes(a[1..])) + Successes(b);
        Successes(a) + Successes(b);
      }
    }
  }

  /** A successful record before position `i` is counted among the successes before `i`. */
  lemma EarlierSuccessCounted(results: seq<Obj>, j: nat, i: nat)
    requires j < i <= |results| && Succeeded(results[j])
    ensures |Successes(results[..j])| < |Successes(results[..i])|
  {
    var between := results[j..i];
    assert results[..i] == results[..j] + between;
    SuccessesAppend(results[..j], between);
    assert between[0] == results[j];
    assert Successes(between) == [results[j]] + Successes(between[1..]);
  }

  /** A successful record at position `i` comes right after the successes before it. */
  lemma SuccessAt(results: seq<Obj>, i: nat)
    requires i < |results| && Succeeded(results[i])
    ensures |Successes(results[..i])| < |Successes(results)|
    ensures Successes(results)[|Successes(results[..i])|] == results[i]
  {
    var tail := [results[i]] + results[i + 1..];
    assert results == results[..i] + tail;
    SuccessesAppend(results[..i], tail);
    assert tail[0] == results[i] && tail[1..] == results[i + 1..];
  }

  /** Each successful record `Successes` keeps stands at some position of `results`, after exactly the successes before it. */
  lemma {:induction false} SuccessPosition(results: seq<Obj>, p: nat)
    requires p < |Successes(results)|
    ensures exists i ::
      && 0 <= i < |results| && results[i] == Successes(results)[p]
      && Succeeded(results[i]) && |Successes(results[..i])| == p
    decreases |results|
  {
    var first := results[0];
    var rest := results[1..];
    assert Successes(results) == (if Succeeded(first) then [first] else []) + Successes(rest);
    if Succeeded(first) && p == 0 {
      assert results[..0] == [];
    } else {
      var q := if Succeeded(first) then p - 1 else p;
      SuccessPosition(rest, q);
      var j :| 0 <= j < |rest| && rest[j] == Successes(rest)[q] && Succeeded(rest[j]) && |Successes(rest[..j])| == q;
      var prefix := results[..j + 1];
      assert prefix[0] == first && prefix[1..] == rest[..j];
      assert Successes(prefix) == (if Succeeded(first) then [first] else []) + Successes(rest[..j]);
      assert results[j + 1] == rest[j];
    }
  }

  /** The keys `min` computes, in order; the first that raises ends it. */
  function Scores(rs: seq<Obj>): (keys: Result<seq<Key>, string>)
    ensures keys.Success? <==> forall k :: 0 <= k < |rs| ==> Score(rs[k]).Success?
    ensures keys.Success? ==> |keys.value| == |rs| && forall k :: 0 <= k < |rs| ==> keys.value[k] == Score(rs[k]).value
    decreases |rs|
  {
    if rs == [] then Success([])
    else
      match Score(rs[0])
      case Failure(e) => Failure(e)
      case Success(first) =>
        match Scores(rs[1..])
        case Failure(e) => Failure(e)
        case Success(rest) => Success([first] + rest)
  }

  /** The keys of the fallback ranking. */
  function ResidualKeys(rs: seq<Obj>, parseFloat: string -> Option<real>): (keys: seq<Key>)
    ensures |keys| == |rs| && forall k :: 0 <= k < |rs| ==> keys[k] == ResidualKey(rs[k], parseFloat)
  {
    seq(|rs|, k requires 0 <= k < |rs| => ResidualKey(rs[k], parseFloat))
  }

  /** Where `min` stops: a least key, and the first of the least ones. */
  function ArgMin(keys: seq<Key>): (i: nat)
    requires keys != []
    ensures i < |keys|
    ensures forall j :: 0 <= j < |keys| ==> !Below(keys[j], keys[i])
    ensures forall j :: 0 <= j < i ==> Below(keys[i], keys[j])
    decreases |keys|
  {
    if |keys| == 1 then 0
    else
      var init := keys[..|keys| - 1];
      var i := ArgMin(init);
      assert forall j :: 0 <= j < |init| ==> keys[j] == init[j];
      if Below(keys[|keys| - 1], keys[i]) then |keys| - 1 else i
  }

  /** `pick_best`: the best-scoring successful record, else the record with the smallest residual. */
  function PickBest(results: seq<Obj>, parseFloat: string -> Option<real>): (r: Result<Obj, string>)
    ensures r.Success? ==> r.value in results
    ensures results == [] ==> r == Failure(EmptyMin)
  {
    SuccessesMembers(results);
    var succ := Successes(results);
    if succ != [] then
      match Scores(succ)
      case Failure(e) => Failure(e)
      case Success(keys) => Success(succ[ArgMin(keys)])
    else if results == [] then Failure(EmptyMin)
    else Success(results[ArgMin(ResidualKeys(results, parseFloat))])
  }

  /** A successful record is always preferred, and the chosen one scores no worse than any successful record. */
  lemma BestIsSuccessfulAndLeast(results: seq<Obj>, parseFloat: string -> Option<real>)
    requires exists k :: 0 <= k < |results| && Succeeded(results[k])
    requires PickBest(results, parseFloat).Success?
    ensures var best := PickBest(results, parseFloat).value;
      && best in results && Succeeded(best) && Score(best).Success?
      && forall r :: r in results && Succeeded(r) ==> Score(r).Success? && !Below(Score(r).value, Score(best).value)
  {
    SuccessesMembers(results);
    var succ := Successes(results);
    var keys := Scores(succ).value;
    var i := ArgMin(keys);
    forall r | r in results && Succeeded(r)
      ensures Score(r).Success? && !Below(Score(r).value, Score(succ[i]).value)
    {
      assert r in succ;
      var j :| 0 <= j < |succ| && succ[j] == r;
      assert keys[j] == Score(r).value;
    }
  }

  /** The key `min` compares for the record at `k`. */
  lemma ScoredAt(rs: seq<Obj>, k: nat)
    requires Scores(rs).Success? && k < |rs|
    ensures Score(rs[k]).Success? && Scores(rs).value[k] == Score(rs[k]).value
  {
  }

  /** Scoring strictly better than every successful record before position `i`. */
  predicate BeatsEarlierSuccesses(results: seq<Obj>, i: nat)
    requires i < |results|
  {
    && Score(results[i]).Success?
    && forall j :: 0 <= j < i && Succeeded(results[j]) ==>
         Score(results[j]).Success? && Below(Score(results[i]).value, Score(results[j]).value)
  }

  /** The success `min` stops at beats a successful record at an earlier position. */
  lemma LeastBeatsEarlier(results: seq<Obj>, i: nat, j: nat)
    requires Successes(results) != [] && Scores(Successes(results)).Success?
    requires i < |results| && Succeeded(results[i])
    requires |Successes(results[..i])| == ArgMin(Scores(Successes(results)).value)
    requires results[i] == Successes(results)[|Successes(results[..i])|]
    requires j < i && Succeeded(results[j])
    ensures Score(results[i]).Success? && Score(results[j]).Success?
    ensures Below(Score(results[i]).value, Score(results[j]).value)
  {
    var succ := Successes(results);
    var keys := Scores(succ).value;
    var p := |Successes(results[..i])|;
    SuccessAt(results, j);
    EarlierSuccessCounted(results, j, i);
    var q := |Successes(results[..j])|;
    assert succ[q] == results[j] && q < p;
    assert keys[q] == Score(results[j]).value && keys[p] == Score(results[i]).value;
  }

  /**
   * Among equally good successful records, the earliest in `results` wins:
   * the pick is the successful record at some position `i`, and it scores
   * strictly better than every successful record before `i`.
   */
  lemma EarliestAmongEqual(results: seq<Obj>, parseFloat: string -> Option<real>) returns (i: nat)
    requires Successes(results) != [] && Scores(Successes(results)).Success?
    ensures i < |results| && PickBest(results, parseFloat) == Success(results[i])
    ensures Succeeded(results[i]) && BeatsEarlierSuccesses(results, i)
  {
    var succ := Successes(results);
    var p := ArgMin(Scores(succ).value);
    assert PickBest(results, parseFloat) == Success(succ[p]);
    SuccessPosition(results, p);
    i :| 0 <= i < |results| && results[i] == succ[p] && Succeeded(results[i]) && |Successes(results[..i])| == p;
    ScoredAt(succ, p);
    forall j | 0 <= j < i && Succeeded(results[j])
      ensures Score(results[j]).Success? && Below(Score(results[i]).value, Score(results[j]).value)
    {
      LeastBeatsEarlier(results, i, j);
    }
    assert BeatsEarlierSuccesses(results, i);
    assert PickBest(results, parseFloat) == Success(results[i]);
  }


  /** Without any successful record, the one with the least residual key is chosen; no records at all raise. */
  lemma FallbackRanksByResidual(results: seq<Obj>, parseFloat: string -> Option<real>)
    requires forall k :: 0 <= k < |results| ==> !Succeeded(results[k])
    ensures results == [] <==> PickBest(results, parseFloat) == Failure(EmptyMin)
    ensures results != [] ==>
      PickBest(results, parseFloat).Success? && forall r :: r in results ==> !Below(ResidualKey(r, parseFloat), ResidualKey(PickBest(results, parseFloat).value, parseFloat))
    ensures results != [] ==> exists i ::
      && 0 <= i < |results| && PickBest(results, parseFloat) == Success(results[i])
      && forall j :: 0 <= j < i ==> Below(ResidualKey(results[i], parseFloat), ResidualKey(results[j], parseFloat))
  {
    SuccessesMembers(results);
    if results != [] {
      var keys := ResidualKeys(results, parseFloat);
      var i := ArgMin(keys);
      assert PickBest(results, parseFloat) == Success(results[i]);
      forall r | r in results
        ensures !Below(ResidualKey(r, parseFloat), ResidualKey(results[i], parseFloat))
      {
        var j :| 0 <= j < |results| && results[j] == r;
        assert keys[j] == ResidualKey(r, parseFloat);
      }
    }
  }

  /** `pick_best` raises only on no records at all, or on a successful record whose residual is not a number. */
  lemma PickBestRaises(results: seq<Obj>, parseFloat: string -> Option<real>)
    ensures PickBest(results, parseFloat).Failure? <==>
      results == [] || exists r :: r in results && Succeeded(r) && Score(r).Failure?
  {
    SuccessesMembers(results);
    var succ := Successes(results);
    if succ != [] && Scores(succ).Failure? {
      var k :| 0 <= k < |succ| && Score(succ[k]).Failure?;
      assert succ[k] in results;
    }
    if exists r :: r in results && Succeeded(r) && Score(r).Failure? {
      var r :| r in results && Succeeded(r) && Score(r).Failure?;
      assert r in succ;
    }
  }
}
