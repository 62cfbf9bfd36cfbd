/**
 * `research_and_propose`: the model's proposal of candidate methods, kept
 * only if it names some, otherwise the catalogue's methods for the hinted
 * category. The model's reply is an input and decoding is the `Decoder`
 * parameter; the hint is whatever the classification holds under
 * `category`, so it is a JSON value.
 */
module AlgorithmResearcher {
  import opened Wrappers
  import opened Strings
  import opened Json
  import AlgorithmMap

  /** `ALGORITHM_MAP.get(cat, [])[:6]` with `cat = category_hint or "root_finding"`. */
  function FallbackMethods(hint: Value): (r: Result<seq<string>, string>)
    ensures r.Failure? <==> Truthy(hint) && !Hashable(hint)
    ensures r.Success? ==> |r.value| <= AlgorithmMap.MaxCandidates
    ensures r.Success? && hint.JStr? && AlgorithmMap.Lookup(hint.s).Some? ==>
      r.value == AlgorithmMap.Take(AlgorithmMap.Lookup(hint.s).value, AlgorithmMap.MaxCandidates)
  {
    var cat := if Truthy(hint) then hint else JStr("root_finding");
    if !Hashable(cat) then Failure(UnhashableType)
    else
      var methods := match cat
        case JStr(key) => (match AlgorithmMap.Lookup(key) case Some(ms) => ms case None => [])
        case _ => [];
      Success(AlgorithmMap.Take(methods, AlgorithmMap.MaxCandidates))
  }

  /** The fallback result, with empty reasoning and research actions. */
  function FallbackProposal(methods: seq<string>): Obj {
    map["candidate_methods" := StringList(methods), "reasoning" := JStr(""), "research_actions" := JStr("")]
  }

  /** The catalogue fallback, or the `TypeError` of an unhashable hint. */
  function Fallback(hint: Value): Result<Obj, string> {
    match FallbackMethods(hint)
    case Failure(e) => Failure(e)
    case Success(methods) => Success(FallbackProposal(methods))
  }

  /**
   * `research_and_propose` on the model's reply; a `TypeError` from the lookup
   * propagates. Only an unhashable hint can fail, and every proposal it
   * returns has `candidate_methods`.
   */
  function ResearchAndPropose(hint: Value, reply: string, decode: Decoder): (r: Result<Obj, string>)
    ensures r.Failure? ==> r == Failure(UnhashableType) && Truthy(hint) && !Hashable(hint)
    ensures !Truthy(hint) || Hashable(hint) ==> r.Success?
    ensures r.Success? ==> "candidate_methods" in r.value
  {
    var content := Strip(reply);
    var decoded := match BraceBlock(content) case Some(block) => decode(block) case None => Failure("");
    if decoded.Success? && Truthy(Get(decoded.value, "candidate_methods")) then Success(decoded.value)
    else Fallback(hint)
  }

  /** The decoded object is returned as it is when its `candidate_methods` is truthy, and the fallback replaces it otherwise. */
  lemma DecodedAcceptedIffCandidates(hint: Value, reply: string, decode: Decoder)
    requires BraceBlock(Strip(reply)).Some? && decode(BraceBlock(Strip(reply)).value).Success?
    ensures var out := decode(BraceBlock(Strip(reply)).value).value;
      && (Truthy(Get(out, "candidate_methods")) ==> ResearchAndPropose(hint, reply, decode) == Success(out))
      && (!Truthy(Get(out, "candidate_methods")) ==>
            ResearchAndPropose(hint, reply, decode) == Fallback(hint))
  {
  }

  /** Without a usable reply, every proposal is at most six methods, in catalogue order, with empty texts. */
  lemma FallbackShape(hint: Value, reply: string, decode: Decoder)
    requires BraceBlock(Strip(reply)).None?
    requires ResearchAndPropose(hint, reply, decode).Success?
    ensures var out := ResearchAndPropose(hint, reply, decode).value;
      && out.Keys == {"candidate_methods", "reasoning", "research_actions"}
      && out["reasoning"] == JStr("") && out["research_actions"] == JStr("")
      && |out["candidate_methods"].items| <= AlgorithmMap.MaxCandidates
  {
  }

  /** With a falsy hint (none, empty, zero) the fallback proposes the first six root-finding methods. */
  lemma NoHintProposesRootFinding(hint: Value, reply: string, decode: Decoder)
    requires !Truthy(hint)
    requires BraceBlock(Strip(reply)).None?
    ensures ResearchAndPropose(hint, reply, decode)
         == Success(FallbackProposal(["Bisection", "Regula Falsi", "Secant", "Newton-Raphson", "Brentq", "Fixed-point"]))
  {
    AlgorithmMap.FirstIsRootFinding();
    var methods := AlgorithmMap.Take(AlgorithmMap.FirstMethods(), AlgorithmMap.MaxCandidates);
    assert FallbackMethods(hint) == Success(methods);
    assert ResearchAndPropose(hint, reply, decode) == Success(FallbackProposal(methods));
  }

  /** A hint that is not a catalogue category (such as `other`) yields no methods. */
  lemma UnknownCategoryProposesNothing(key: string, reply: string, decode: Decoder)
    requires key != [] && AlgorithmMap.Lookup(key).None?
    requires BraceBlock(Strip(reply)).None?
    ensures ResearchAndPropose(JStr(key), reply, decode) == Success(FallbackProposal([]))
  {
  }
}
