/**
 * `main.py`: the graph's state and nodes, and the loop its edges make:
 * classify, research, validate and plan once each, then `run` for the first
 * step and again while `_should_continue` says so, then `final`.
 *
 * The state is a `PlanState` object whose fields the nodes update. What the
 * model, the execution agent and the sandbox answer is an `Oracles` input,
 * and so is `json.loads`.
 */
module Pipeline {
  import opened Wrappers
  import opened Strings
  import opened Json
  import opened Tools
  import AlgorithmMap
  import AlgorithmResearcher
  import ProblemClassifier
  import Planner
  import Validation

  /** The `IndexError` of `plan.steps[idx]` past the last step, and of `[0]` on an empty list. */
  const IndexOutOfRange: string := "list index out of range"

  /** The `IndexError` of `[0]` on an empty string. */
  const StringIndexOutOfRange: string := "string index out of range"

  /** The `KeyError` of `state["research"]["candidate_methods"]` when the key is missing. */
  const MissingCandidates: string := "'candidate_methods'"

  /** The `KeyError` of `[0]` on a dict, whose keys are strings. */
  const MissingZero: string := "0"

  /** Everything outside the graph: the replies of the model, of the agent and of the sandbox. */
  datatype Oracles = Oracles(
    decode: Decoder,
    classifyReply: string,
    researchReply: string,
    askReply: Reply,
    codeReply: Value -> Reply,
    env: SandboxEnv<Validation.Code>,
    parseFloat: string -> Option<real>,
    planReply: Value -> string,
    agent: string -> string,
    finalReply: string -> string)

  // ---------------------------------------------------------------------
  // get_full_plan
  // ---------------------------------------------------------------------

  /** The first line of a step's block: `# {i+1}. {step}`. */
  function Header(i: nat, step: string): string {
    "# " + NatToString(i + 1) + ". " + step + "\n"
  }

  /** A step's block: its header, and its result once the step has run. */
  function Block(i: nat, step: string, past: seq<string>): string {
    Header(i, step) + (if i < |past| then "Result: " + past[i] + "\n" else "")
  }

  /** The `out` list of `get_full_plan`: one block per plan step, in plan order. */
  function Blocks(steps: seq<string>, past: seq<string>): (r: seq<string>)
    ensures |r| == |steps|
  {
    seq(|steps|, i requires 0 <= i < |steps| => Block(i, steps[i], past))
  }

  /** `get_full_plan`: the blocks joined by newlines; empty without steps, else opening with the first step's header. */
  function FullPlan(steps: seq<string>, past: seq<string>): (r: string)
    ensures steps == [] ==> r == ""
    ensures steps != [] ==> StartsWith(r, Header(0, steps[0]))
  {
    var blocks := Blocks(steps, past);
    if steps == [] then Join(blocks, "\n")
    else
      JoinStartsWithFirst(blocks, "\n");
      BlockShowsResultIffRun(0, steps[0], past);
      StartsWithTrans(Join(blocks, "\n"), blocks[0], Header(0, steps[0]));
      Join(blocks, "\n")
  }

  /** A prefix of a prefix is a prefix. */
  lemma StartsWithTrans(s: string, t: string, u: string)
    requires StartsWith(s, t) && StartsWith(t, u)
    ensures StartsWith(s, u)
  {
    assert s[..|u|] == s[..|t|][..|u|];
  }

  /** `get_full_plan`, with its loop over the steps. */
  method GetFullPlan(steps: seq<string>, past: seq<string>) returns (text: string)
    ensures text == FullPlan(steps, past)
  {
    var out: seq<string> := [];
    for i := 0 to |steps|
      invariant |out| == i
      invariant forall k :: 0 <= k < i ==> out[k] == Block(k, steps[k], past)
    {
      var txt := "# " + NatToString(i + 1) + ". " + steps[i] + "\n";
      if i < |past| {
        txt := txt + "Result: " + past[i] + "\n";
      }
      out := out + [txt];
    }
    assert out == Blocks(steps, past);
    text := Join(out, "\n");
  }

  /** A block carries more than its header exactly when its step has run, and then it is that step's result. */
  lemma BlockShowsResultIffRun(i: nat, step: string, past: seq<string>)
    ensures StartsWith(Block(i, step, past), Header(i, step))
    ensures |Block(i, step, past)| > |Header(i, step)| <==> i < |past|
    ensures i < |past| ==> Block(i, step, past)[|Header(i, step)|..] == "Result: " + past[i] + "\n"
  {
    var h := Header(i, step);
    var b := Block(i, step, past);
    assert b[..|h|] == h;
  }

  /** In `get_full_plan`, exactly the first `|past|` blocks show a result. */
  lemma BlocksShowRunSteps(steps: seq<string>, past: seq<string>)
    ensures forall i :: 0 <= i < |steps| ==>
      (|Blocks(steps, past)[i]| > |Header(i, steps[i])| <==> i < |past|)
  {
    forall i | 0 <= i < |steps| ensures |Blocks(steps, past)[i]| > |Header(i, steps[i])| <==> i < |past| {
      BlockShowsResultIffRun(i, steps[i], past);
    }
  }

  /** Recording the result of the next step changes that step's block and no other. */
  lemma RecordingChangesOneBlock(steps: seq<string>, past: seq<string>, x: string)
    requires |past| < |steps|
    ensures var before, after := Blocks(steps, past), Blocks(steps, past + [x]);
      && (forall k :: 0 <= k < |steps| && k != |past| ==> after[k] == before[k])
      && after[|past|] == before[|past|] + "Result: " + x + "\n"
  {
    var after := Blocks(steps, past + [x]);
    forall k | 0 <= k < |steps| && k != |past| ensures after[k] == Blocks(steps, past)[k] {
      if k < |past| {
        assert (past + [x])[k] == past[k];
      }
    }
    assert (past + [x])[|past|] == x;
  }

  // ---------------------------------------------------------------------
  // _run_step and the run loop
  // ---------------------------------------------------------------------

  /** `step_template` filled with the task, the plan so far and the step to run. */
  function StepPrompt(task: string, plan: string, step: string): string {
    "TASK:\n" + task + "\n\nPLAN:\n" + plan + "\n\nSTEP TO EXECUTE:\n" + step + "\n"
  }

  /** `final_prompt` filled with the task and the plan with its results. */
  function FinalPrompt(task: string, plan: string): string {
    "TASK:\n" + task + "\n\nPLAN+RESULTS:\n" + plan + "\n\nFINAL ANSWER:\n"
  }

  /** `past_steps` after the first `n` runs: each step is run with the results of the steps before it. */
  function Executed(task: string, steps: seq<string>, agent: string -> string, n: nat): (past: seq<string>)
    requires n <= |steps|
    ensures |past| == n
    decreases n
  {
    if n == 0 then []
    else
      var before := Executed(task, steps, agent, n - 1);
      before + [agent(StepPrompt(task, FullPlan(steps, before), steps[n - 1]))]
  }

  /** Later runs only append: the first `m` results stay as they were. */
  lemma {:induction false} ExecutedPrefix(task: string, steps: seq<string>, agent: string -> string, m: nat, n: nat)
    requires m <= n <= |steps|
    ensures Executed(task, steps, agent, m) == Executed(task, steps, agent, n)[..m]
    decreases n - m
  {
    if m < n {
      ExecutedPrefix(task, steps, agent, m, n - 1);
      var before := Executed(task, steps, agent, n - 1);
      assert Executed(task, steps, agent, n)[..n - 1] == before;
      assert Executed(task, steps, agent, n)[..m] == before[..m];
    } else {
      assert Executed(task, steps, agent, n)[..n] == Executed(task, steps, agent, n);
    }
  }

  /** Steps run strictly in plan order: result `i` is the agent's answer for step `i` given results `0..i-1`. */
  lemma ExecutedInOrder(task: string, steps: seq<string>, agent: string -> string, n: nat, i: nat)
    requires i < n <= |steps|
    ensures var past := Executed(task, steps, agent, n);
      past[i] == agent(StepPrompt(task, FullPlan(steps, past[..i]), steps[i]))
  {
    ExecutedPrefix(task, steps, agent, i + 1, n);
    ExecutedPrefix(task, steps, agent, i, i + 1);
    var past := Executed(task, steps, agent, n);
    assert past[..i + 1][i] == past[i];
    assert past[..i + 1][..i] == past[..i];
  }

  // ---------------------------------------------------------------------
  // _research
  // ---------------------------------------------------------------------

  /** `ALGORITHM_MAP.get(category, list(ALGORITHM_MAP.values())[0])[:6]`; a list or dict as key raises. */
  function CatalogueDefault(category: Value): (r: Result<seq<string>, string>)
    ensures r.Failure? <==> !Hashable(category)
    ensures r.Success? ==> 3 <= |r.value| <= AlgorithmMap.MaxCandidates
    ensures r.Success? && category.JStr? && AlgorithmMap.Lookup(category.s).Some? ==>
      r.value == AlgorithmMap.Take(AlgorithmMap.Lookup(category.s).value, AlgorithmMap.MaxCandidates)
    ensures r.Success? && !(category.JStr? && AlgorithmMap.Lookup(category.s).Some?) ==>
      r.value == AlgorithmMap.Take(AlgorithmMap.FirstMethods(), AlgorithmMap.MaxCandidates)
  {
    if !Hashable(category) then Failure(UnhashableType)
    else
      AlgorithmMap.MethodCounts(AlgorithmMap.FirstCategory);
      var methods := match category
        case JStr(key) => (match AlgorithmMap.Lookup(key) case Some(ms) => ms case None => AlgorithmMap.FirstMethods())
        case _ => AlgorithmMap.FirstMethods();
      Success(AlgorithmMap.Take(methods, AlgorithmMap.MaxCandidates))
  }

  /** The proposal with its candidates filled from the catalogue when it has none. */
  function WithCandidates(ar: Obj, category: Value): (r: Result<Obj, string>)
    ensures Truthy(Get(ar, "candidate_methods")) ==> r == Success(ar)
    ensures r.Failure? <==> !Truthy(Get(ar, "candidate_methods")) && !Hashable(category)
    ensures r.Success? ==> "candidate_methods" in r.value && Truthy(r.value["candidate_methods"])
    ensures r.Success? ==> r.value.Keys == ar.Keys + {"candidate_methods"}
  {
    if Truthy(Get(ar, "candidate_methods")) then Success(ar)
    else
      match CatalogueDefault(category)
      case Failure(e) => Failure(e)
      case Success(methods) => Success(ar["candidate_methods" := StringList(methods)])
  }

  /**
   * `_research`: the researcher's proposal, completed with catalogue
   * candidates. After it the state always holds a truthy candidate list or
   * text; only an unhashable category raises.
   */
  function ResearchUpdate(cls: Obj, reply: string, decode: Decoder): (r: Result<Obj, string>)
    ensures r.Success? ==> "candidate_methods" in r.value && Truthy(r.value["candidate_methods"])
    ensures r.Failure? ==> r == Failure(UnhashableType) && !Hashable(Get(cls, "category"))
    ensures Hashable(Get(cls, "category")) ==> r.Success?
  {
    var category := Get(cls, "category");
    match AlgorithmResearcher.ResearchAndPropose(category, reply, decode)
    case Failure(e) => Failure(e)
    case Success(ar) => WithCandidates(ar, category)
  }

  /**
   * A category outside the catalogue, such as `other`, makes the researcher
   * propose nothing, and the pipeline then takes the first six root-finding methods.
   */
  lemma UnknownCategoryTakesRootFinding(cls: Obj, reply: string, decode: Decoder)
    requires "category" in cls && cls["category"].JStr? && cls["category"].s != []
    requires AlgorithmMap.Lookup(cls["category"].s).None?
    requires BraceBlock(Strip(reply)).None?
    ensures ResearchUpdate(cls, reply, decode).Success?
    ensures ResearchUpdate(cls, reply, decode).value["candidate_methods"]
      == StringList(["Bisection", "Regula Falsi", "Secant", "Newton-Raphson", "Brentq", "Fixed-point"])
  {
    var category := cls["category"];
    AlgorithmResearcher.UnknownCategoryProposesNothing(category.s, reply, decode);
    AlgorithmMap.FirstIsRootFinding();
    var ar := AlgorithmResearcher.FallbackProposal([]);
    assert !Truthy(Get(ar, "candidate_methods"));
    assert ResearchUpdate(cls, reply, decode) == WithCandidates(ar, category);
  }

  // ---------------------------------------------------------------------
  // _plan
  // ---------------------------------------------------------------------

  /** `candidates[0]`: the first item of a list, the first character of a string. */
  function FirstCandidate(candidates: Value): (r: Result<Value, string>)
    ensures r.Success? <==> Truthy(candidates) && (candidates.JArr? || candidates.JStr?)
    ensures r.Success? && candidates.JArr? ==> r.value in candidates.items
    ensures r.Success? && candidates.JStr? ==> r.value.JStr? && StartsWith(candidates.s, r.value.s) && |r.value.s| == 1
  {
    match candidates
    case JArr(items) => if items == [] then Failure(IndexOutOfRange) else Success(items[0])
    case JStr(s) => if s == [] then Failure(StringIndexOutOfRange) else Success(JStr([s[0]]))
    case JObj(_) => Failure(MissingZero)
    case _ => Failure(Validation.NotSubscriptable)
  }

  /** `best.get("method") or research["candidate_methods"][0]`. */
  function PlanName(best: Obj, research: Obj): (r: Result<Value, string>)
    ensures Truthy(Get(best, "method")) ==> r == Success(Get(best, "method"))
    ensures !Truthy(Get(best, "method")) && "candidate_methods" !in research ==> r == Failure(MissingCandidates)
  {
    var named := Get(best, "method");
    if Truthy(named) then Success(named)
    else if "candidate_methods" !in research then Failure(MissingCandidates)
    else FirstCandidate(research["candidate_methods"])
  }

  /** Without a named best method, the plan is made for the first catalogue method the research fell back to. */
  lemma CatalogueNamesThePlan(best: Obj, ar: Obj, category: Value)
    requires !Truthy(Get(best, "method"))
    requires !Truthy(Get(ar, "candidate_methods")) && Hashable(category)
    ensures WithCandidates(ar, category).Success?
    ensures PlanName(best, WithCandidates(ar, category).value) == Success(JStr(CatalogueDefault(category).value[0]))
  {
    var methods := CatalogueDefault(category).value;
    var list := StringList(methods);
    assert WithCandidates(ar, category) == Success(ar["candidate_methods" := list]);
    assert list.items[0] == JStr(methods[0]);
  }

  // ---------------------------------------------------------------------
  // _validate and the nodes before the first run
  // ---------------------------------------------------------------------

  /** `_validate`'s update: the validator's records over the candidates and the best of them, one of those records. */
  function ValidationUpdate(task: string, cls: Obj, research: Obj, o: Oracles): (r: Result<(seq<Obj>, Obj), string>)
    ensures r.Success? ==> 1 <= |r.value.0| <= Validation.MaxMethods && r.value.1 in r.value.0
  {
    var candidates := Get(research, "candidate_methods");
    var v := Validation.Validator(task, Get(cls, "short_form"), Get(cls, "domain_hint"),
                                  candidates, Validation.DefaultTol, Validation.DefaultMaxIter);
    match Validation.Validated(v, candidates, o.askReply, o.codeReply, o.env, o.decode)
    case Failure(e) => Failure(e)
    case Success(results) =>
      match Validation.PickBest(results, o.parseFloat)
      case Failure(e) => Failure(e)
      case Success(best) => Success((results, best))
  }

  /** `_plan`'s update: the plan the model's reply gives for the chosen method name. */
  function PlanUpdate(best: Obj, research: Obj, o: Oracles): Result<Planner.Plan, string> {
    match PlanName(best, research)
    case Failure(e) => Failure(e)
    case Success(name) => Success(Planner.MakePlan(o.planReply(name), o.decode))
  }

  /** The state the nodes `classify`, `research`, `validate` and `plan` leave behind. */
  datatype Prepared = Prepared(
    classification: Obj,
    research: Obj,
    validationResults: seq<Obj>,
    bestAlgorithm: Obj,
    plan: Planner.Plan)

  /** The nodes `validate` and `plan` on the research, stopping at the first that raises. */
  function AfterResearch(task: string, cls: Obj, research: Obj, o: Oracles): Result<Prepared, string> {
    match ValidationUpdate(task, cls, research, o)
    case Failure(e) => Failure(e)
    case Success(validated) =>
      match PlanUpdate(validated.1, research, o)
      case Failure(e) => Failure(e)
      case Success(plan) => Success(Prepared(cls, research, validated.0, validated.1, plan))
  }

  /**
   * The nodes after `classify` and before the first run, as updates on the
   * task and its classification: the research holds truthy candidates, the
   * best record is one of at most six validation records, and the plan is
   * made for the chosen method name.
   */
  function Preparation(task: string, cls: Obj, o: Oracles): (r: Result<Prepared, string>)
    ensures r.Success? ==> r.value.classification == cls
    ensures r.Success? ==> "candidate_methods" in r.value.research && Truthy(r.value.research["candidate_methods"])
    ensures r.Success? ==>
      && 1 <= |r.value.validationResults| <= Validation.MaxMethods
      && r.value.bestAlgorithm in r.value.validationResults
    ensures r.Success? ==>
      && PlanName(r.value.bestAlgorithm, r.value.research).Success?
      && r.value.plan == Planner.MakePlan(o.planReply(PlanName(r.value.bestAlgorithm, r.value.research).value), o.decode)
  {
    match ResearchUpdate(cls, o.researchReply, o.decode)
    case Failure(e) => Failure(e)
    case Success(research) => AfterResearch(task, cls, research, o)
  }

  // ---------------------------------------------------------------------
  // The graph's state and nodes
  // ---------------------------------------------------------------------

  /**
   * `PlanState`; the nodes' returned updates are written into its fields.
   * A node's contract reads the fields it takes as input with `old`: they
   * are fields the node does not change, named in the state before it ran.
   */
  class PlanState {
    var task: string
    var classification: Obj
    var research: Obj
    var validationResults: seq<Obj>
    var bestAlgorithm: Obj
    var plan: Planner.Plan
    var pastSteps: seq<string>
    var finalResponse: string

    /** The input `{"task": task_text}`: nothing has run yet. */
    constructor (taskText: string)
      ensures task == taskText && pastSteps == [] && plan.steps == []
    {
      task := taskText;
      classification := map[];
      research := map[];
      validationResults := [];
      bestAlgorithm := map[];
      plan := Planner.Plan([]);
      pastSteps := [];
      finalResponse := "";
    }

    /** `get_current_step`: the number of steps that have run, which are the steps whose blocks show a result. */
    function CurrentStep(): (n: nat)
      reads this
      ensures forall i :: 0 <= i < |plan.steps| ==>
        (|Blocks(plan.steps, pastSteps)[i]| > |Header(i, plan.steps[i])| <==> i < n)
    {
      BlocksShowRunSteps(plan.steps, pastSteps);
      |pastSteps|
    }

    /**
     * `_should_continue`: `run` while a step is left, `final` after the last.
     * It says `run` with the next step's block still a bare header, and
     * `final` once every block shows a result.
     */
    function ShouldContinue(): (run: bool)
      reads this
      ensures plan.steps == [] ==> !run
      ensures plan.steps != [] ==>
        var last := |plan.steps| - 1;
        (run <==> Blocks(plan.steps, pastSteps)[last] == Header(last, plan.steps[last]))
      ensures !run ==> forall i :: 0 <= i < |plan.steps| ==> |Blocks(plan.steps, pastSteps)[i]| > |Header(i, plan.steps[i])|
    {
      BlocksShowRunSteps(plan.steps, pastSteps);
      CurrentStep() < |plan.steps|
    }

    /** `_classify`. */
    method Classify(o: Oracles)
      modifies this`classification
      ensures classification == ProblemClassifier.ClassifyTask(task, o.classifyReply, o.decode)
    {
      classification := ProblemClassifier.ClassifyTask(task, o.classifyReply, o.decode);
    }

    /** `_research`: the proposal, with catalogue candidates when it has none; a `TypeError` is returned. */
    method Research(o: Oracles) returns (err: Option<string>)
      modifies this`research
      ensures var u := ResearchUpdate(old(classification), o.researchReply, o.decode);
        && (u.Success? ==> err == None && research == u.value)
        && (u.Failure? ==> err == Some(u.error) && research == old(research))
    {
      var u := ResearchUpdate(classification, o.researchReply, o.decode);
      if u.Failure? {
        return Some(u.error);
      }
      research := u.value;
      return None;
    }

    /** `_validate`: a validator over the classification and the candidates, its records and the best one; a raise changes nothing. */
    method Validate(o: Oracles) returns (err: Option<string>)
      modifies this`validationResults, this`bestAlgorithm
      ensures var u := ValidationUpdate(old(task), old(classification), old(research), o);
        && (u.Success? ==> err == None && validationResults == u.value.0 && bestAlgorithm == u.value.1)
        && (u.Failure? ==>
              err == Some(u.error) && validationResults == old(validationResults) && bestAlgorithm == old(bestAlgorithm))
    {
      ghost var u := ValidationUpdate(task, classification, research, o);
      var candidates := Get(research, "candidate_methods");
      var v := Validation.Validator(task, Get(classification, "short_form"), Get(classification, "domain_hint"),
                                    candidates, Validation.DefaultTol, Validation.DefaultMaxIter);
      var results := Validation.ValidateMethods(v, candidates, o.askReply, o.codeReply, o.env, o.decode);
      if results.Failure? {
        assert u == Failure(results.error);
        return Some(results.error);
      }
      var best := Validation.PickBest(results.value, o.parseFloat);
      if best.Failure? {
        assert u == Failure(best.error);
        return Some(best.error);
      }
      assert u == Success((results.value, best.value));
      validationResults := results.value;
      bestAlgorithm := best.value;
      return None;
    }

    /** `_plan`: the plan the model's reply gives for the chosen method name. */
    method MakePlan(o: Oracles) returns (err: Option<string>)
      modifies this`plan
      ensures var name := PlanName(old(bestAlgorithm), old(research));
        && (name.Failure? ==> err == Some(name.error) && plan == old(plan))
        && (name.Success? ==> err == None && plan == Planner.MakePlan(o.planReply(name.value), o.decode))
    {
      var name := PlanName(bestAlgorithm, research);
      if name.Failure? {
        return Some(name.error);
      }
      plan := Planner.MakePlan(o.planReply(name.value), o.decode);
      return None;
    }

    /** `_run_step`: the agent runs the current step and its answer is appended; past the last step it raises. */
    method RunStep(o: Oracles) returns (err: Option<string>)
      modifies this`pastSteps
      ensures old(CurrentStep()) < |plan.steps| ==>
        err == None
        && pastSteps == old(pastSteps) + [o.agent(StepPrompt(task, FullPlan(plan.steps, old(pastSteps)), plan.steps[old(CurrentStep())]))]
      ensures old(CurrentStep()) >= |plan.steps| ==> err == Some(IndexOutOfRange) && pastSteps == old(pastSteps)
    {
      var idx := CurrentStep();
      if idx >= |plan.steps| {
        return Some(IndexOutOfRange);
      }
      var stepText := plan.steps[idx];
      var fullPlan := GetFullPlan(plan.steps, pastSteps);
      var content := o.agent(StepPrompt(task, fullPlan, stepText));
      pastSteps := pastSteps + [content];
      return None;
    }

    /**
     * The edges `plan -> run` (unconditional) and `run -> run | final`: one
     * run, then runs while `_should_continue` says `run`. An empty plan
     * fails at its first run; otherwise every step runs once, in order.
     */
    method RunSteps(o: Oracles) returns (err: Option<string>)
      requires pastSteps == []
      modifies this`pastSteps
      ensures plan.steps == [] ==> err == Some(IndexOutOfRange) && pastSteps == []
      ensures plan.steps != [] ==> err == None && pastSteps == Executed(task, plan.steps, o.agent, |plan.steps|)
    {
      err := RunStep(o);
      if err.Some? {
        return;
      }
      assert pastSteps == Executed(task, plan.steps, o.agent, 1);
      while ShouldContinue()
        invariant |pastSteps| <= |plan.steps|
        invariant pastSteps == Executed(task, plan.steps, o.agent, |pastSteps|)
        decreases |plan.steps| - |pastSteps|
      {
        err := RunStep(o);
      }
      err := None;
    }

    /** `_final`: the model's answer to the task and the plan with all results. */
    method Final(o: Oracles)
      modifies this`finalResponse
      ensures finalResponse == o.finalReply(FinalPrompt(task, FullPlan(plan.steps, pastSteps)))
    {
      var fullPlan := GetFullPlan(plan.steps, pastSteps);
      finalResponse := o.finalReply(FinalPrompt(task, fullPlan));
    }

    /**
     * The edges from `plan` to `END`: the runs, then `final`. An empty plan
     * raises at its first run; otherwise every step runs once, in order, and
     * the final answer is the model's reply to the plan with all results.
     */
    method RunAndFinish(o: Oracles) returns (r: Result<string, string>)
      requires pastSteps == []
      modifies this`pastSteps, this`finalResponse
      ensures plan.steps == [] ==> r == Failure(IndexOutOfRange) && pastSteps == []
      ensures plan.steps != [] ==>
        && pastSteps == Executed(task, plan.steps, o.agent, |plan.steps|)
        && r == Success(finalResponse)
        && finalResponse == o.finalReply(FinalPrompt(task, FullPlan(plan.steps, pastSteps)))
    {
      var err := RunSteps(o);
      if err.Some? {
        return Failure(err.value);
      }
      Final(o);
      return Success(finalResponse);
    }

    /** The edge `validate -> plan`: the state is that of `AfterResearch`, or a node raised and no plan was made. */
    method ValidateAndPlan(o: Oracles) returns (err: Option<string>)
      modifies this`validationResults, this`bestAlgorithm, this`plan
      ensures err.Some? ==> AfterResearch(old(task), old(classification), old(research), o) == Failure(err.value) && plan == old(plan)
      ensures err.None? ==>
        AfterResearch(old(task), old(classification), old(research), o)
          == Success(Prepared(old(classification), old(research), validationResults, bestAlgorithm, plan))
    {
      err := Validate(o);
      if err.Some? {
        return;
      }
      err := MakePlan(o);
    }

    /**
     * The graph after `classify`: the nodes before the first run, then the
     * runs and `final`. A raise before the first run ends it with that
     * exception; otherwise the plan is the prepared one, an empty plan
     * raises at its first run, and any other plan has every step run once,
     * in order, before the final answer.
     */
    method Run(o: Oracles) returns (r: Result<string, string>)
      requires pastSteps == []
      modifies this`research, this`validationResults, this`bestAlgorithm, this`plan, this`pastSteps, this`finalResponse
      ensures var p := Preparation(old(task), old(classification), o);
        && (p.Failure? ==> r == Failure(p.error))
        && (p.Success? ==> plan == p.value.plan)
        && (r.Success? ==> finalResponse == r.value && pastSteps == Executed(task, plan.steps, o.agent, |plan.steps|))
        && (p.Success? && p.value.plan.steps == [] ==> r == Failure(IndexOutOfRange))
        && (p.Success? && p.value.plan.steps != [] ==>
              r == Success(o.finalReply(FinalPrompt(task, FullPlan(p.value.plan.steps, Executed(task, p.value.plan.steps, o.agent, |p.value.plan.steps|))))))
    {
      var err := Prepare(o);
      if err.Some? {
        return Failure(err.value);
      }
      r := RunAndFinish(o);
    }

    /**
     * The nodes after `classify` and before the first run, in the order of
     * the edges `research -> validate -> plan`: the state is that of
     * `Preparation`, or a node raised and no plan was made.
     */
    method Prepare(o: Oracles) returns (err: Option<string>)
      modifies this`research, this`validationResults, this`bestAlgorithm, this`plan
      ensures err.Some? ==> Preparation(old(task), old(classification), o) == Failure(err.value) && plan == old(plan)
      ensures err.None? ==>
        Preparation(old(task), old(classification), o)
          == Success(Prepared(old(classification), research, validationResults, bestAlgorithm, plan))
    {
      err := Research(o);
      if err.Some? {
        return;
      }
      err := ValidateAndPlan(o);
    }
  }

  /**
   * `run_task`: the graph from `START` to `END` on one task, with the final
   * response, or the exception a node raised.
   */
  method RunTask(taskText: string, o: Oracles) returns (st: PlanState, r: Result<string, string>)
    ensures st.task == taskText
    ensures st.classification == ProblemClassifier.ClassifyTask(taskText, o.classifyReply, o.decode)
    ensures var p := Preparation(taskText, st.classification, o);
      && (p.Failure? ==> r == Failure(p.error))
      && (p.Success? ==> st.plan == p.value.plan)
      && (r.Success? ==> st.finalResponse == r.value && st.pastSteps == Executed(taskText, st.plan.steps, o.agent, |st.plan.steps|))
      && (p.Success? && p.value.plan.steps == [] ==> r == Failure(IndexOutOfRange))
      && (p.Success? && p.value.plan.steps != [] ==>
            r == Success(o.finalReply(FinalPrompt(taskText, FullPlan(p.value.plan.steps, Executed(taskText, p.value.plan.steps, o.agent, |p.value.plan.steps|))))))
  {
    st := new PlanState(taskText);
    st.Classify(o);
    r := st.Run(o);
  }
}
