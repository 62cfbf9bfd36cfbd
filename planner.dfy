/**
 * `make_plan`: turning the model's reply into a `Plan`. The reply is an
 * input (the text the model returned for the planning prompt); decoding is
 * the `Decoder` parameter.
 */
module Planner {
  import opened Wrappers
  import opened Strings
  import opened Json
  import AlgorithmMap

  /** An ordered list of natural-language steps. */
  datatype Plan = Plan(steps: seq<string>)

  /** The line-split fallback keeps at most this many steps. */
  const MaxFallbackSteps: nat := 10

  /** `[l.strip() for l in lines if l.strip()]`. */
  function NonBlankLines(lines: seq<string>): (r: seq<string>)
    ensures |r| <= |lines|
    ensures forall k :: 0 <= k < |r| ==> r[k] != [] && Strip(r[k]) == r[k]
    decreases |lines|
  {
    if lines == [] then []
    else
      var head := Strip(lines[0]);
      StripIdempotent(lines[0]);
      (if head != [] then [head] else []) + NonBlankLines(lines[1..])
  }

  /** Every kept entry is some line, stripped. */
  lemma {:induction false} NonBlankLinesSound(lines: seq<string>, x: string)
    requires x in NonBlankLines(lines)
    ensures exists l :: l in lines && x == Strip(l)
    decreases |lines|
  {
    var head := Strip(lines[0]);
    if head != [] && x == head {
      assert lines[0] in lines;
    } else {
      assert x in NonBlankLines(lines[1..]);
      NonBlankLinesSound(lines[1..], x);
      var l :| l in lines[1..] && x == Strip(l);
      assert l in lines;
    }
  }

  /** No non-blank line is dropped by the comprehension. */
  lemma {:induction false} NonBlankLinesComplete(lines: seq<string>, l: string)
    requires l in lines && Strip(l) != []
    ensures Strip(l) in NonBlankLines(lines)
    decreases |lines|
  {
    if lines[0] != l {
      NonBlankLinesComplete(lines[1..], l);
    }
  }

  /** pydantic's check of `steps: list[str]`: a list whose items are all strings. */
  function StringItems(items: seq<Value>): (r: Option<seq<string>>)
    ensures r.Some? <==> forall k :: 0 <= k < |items| ==> items[k].JStr?
    ensures r.Some? ==> |r.value| == |items| && forall k :: 0 <= k < |items| ==> r.value[k] == items[k].s
  {
    if items == [] then Some([])
    else if !items[0].JStr? then None
    else
      match StringItems(items[1..])
      case None => None
      case Some(rest) => Some([items[0].s] + rest)
  }

  /** The steps of a decoded object: `obj.get("steps", [])`, if it validates as `list[str]`. */
  function DecodedSteps(obj: Obj): Option<seq<string>> {
    if "steps" !in obj then Some([])
    else
      match obj["steps"]
      case JArr(items) => StringItems(items)
      case _ => None
  }

  /** The fallback: the first ten non-blank lines of the reply, stripped. */
  function FallbackPlan(content: string): (p: Plan)
    ensures |p.steps| <= MaxFallbackSteps
    ensures var lines := NonBlankLines(Lines(content));
      |p.steps| <= |lines| && p.steps == lines[..|p.steps|]
      && (|lines| <= MaxFallbackSteps ==> p.steps == lines)
  {
    var lines := NonBlankLines(Lines(content));
    var kept := AlgorithmMap.Take(lines, MaxFallbackSteps);
    assert kept == lines[..|kept|];
    Plan(kept)
  }

  /** The steps of the reply's `{`…`}` block, when there is one, it decodes and its `steps` validate. */
  function JsonSteps(content: string, decode: Decoder): Option<seq<string>> {
    match BraceBlock(content)
    case None => None
    case Some(block) =>
      match decode(block)
      case Failure(_) => None
      case Success(obj) => DecodedSteps(obj)
  }

  /**
   * `make_plan` on the model's reply: the steps of the JSON block when that
   * path succeeds, otherwise the line fallback; only the JSON path can give
   * more than ten steps.
   */
  function MakePlan(reply: string, decode: Decoder): (p: Plan)
    ensures JsonSteps(Strip(reply), decode).Some? ==> p.steps == JsonSteps(Strip(reply), decode).value
    ensures JsonSteps(Strip(reply), decode).None? ==> p == FallbackPlan(Strip(reply))
    ensures |p.steps| > MaxFallbackSteps ==> JsonSteps(Strip(reply), decode).Some?
  {
    var content := Strip(reply);
    match BraceBlock(content)
    case None => FallbackPlan(content)
    case Some(block) =>
      match decode(block)
      case Failure(_) => FallbackPlan(content)
      case Success(obj) =>
        match DecodedSteps(obj)
        case Some(steps) => Plan(steps)
        case None => FallbackPlan(content)
  }

  /** A decoded object without a `steps` key gives the empty plan. */
  lemma MissingStepsGiveEmptyPlan(reply: string, decode: Decoder)
    requires BraceBlock(Strip(reply)).Some?
    requires decode(BraceBlock(Strip(reply)).value).Success?
    requires "steps" !in decode(BraceBlock(Strip(reply)).value).value
    ensures MakePlan(reply, decode).steps == []
  {
  }

  /** A reply without any `{`…`}` block is split into lines: every non-blank line among the first ten kept ones is a step. */
  lemma FallbackKeepsFirstLines(reply: string, decode: Decoder, l: string)
    requires BraceBlock(Strip(reply)).None?
    requires |NonBlankLines(Lines(Strip(reply)))| <= MaxFallbackSteps
    requires l in Lines(Strip(reply)) && Strip(l) != []
    ensures Strip(l) in MakePlan(reply, decode).steps
  {
    var content := Strip(reply);
    NonBlankLinesComplete(Lines(content), l);
    assert MakePlan(reply, decode) == FallbackPlan(content);
    assert FallbackPlan(content).steps == NonBlankLines(Lines(content));
  }
}
