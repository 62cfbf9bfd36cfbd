# A verified model of the numerical-methods agent pipeline

The modelled system answers a numerical-analysis task written in natural
language. Its pipeline has these stages:

1. It classifies the task into a category and extracts a short formula and
   a domain.
2. It proposes candidate numerical methods, from the model or from a static
   catalogue.
3. For each candidate it generates Python code, runs it in a sandbox (which
   installs missing modules and retries), and reads the first JSON line of
   the output.
4. It picks the best method.
5. It asks for a step-by-step plan.
6. It runs the plan one step at a time with an execution agent, and then
   asks for a final answer.

This Dafny project models that pipeline's control logic and text handling.
Every call to the language model, to the execution agent, to the sandbox
and to `json.loads` is a parameter: a reply string, a function from prompt
to reply, or a `Decoder`. The model fixes what the code does with those
answers, whatever they are.

The project has one module per source file:

- `Wrappers`: `Option` and `Result`.
- `Strings`: the parts of Python's `str` the code uses.
  - `isspace` and `strip`, with the exact Unicode whitespace set.
  - `splitlines`, `split` and `join`.
  - Substring `in`, ASCII `lower`, and decimal rendering with its read-back.
- `Json`: decoded JSON values, Python truthiness, `dict.get`, and the greedy
  `\{.*\}` block search used by three files.
- `AlgorithmMap` (`algorithm_map.py`): the catalogue as a `Category`
  datatype with its keys and method lists.
- `Planner` (`planner.py`): `make_plan`. The plan comes from the JSON block,
  or else from the first ten non-blank lines.
- `ProblemClassifier` (`problem_classifier.py`): `classify_task`.
  - The JSON path applies the `setdefault` defaults.
  - The fallback path is the keyword cascade plus the two regex extractions,
    written as string scans.
- `AlgorithmResearcher` (`algorithm_researcher.py`): `research_and_propose`.
- `Tools` (`tools.py`):
  - `extract_missing_module` and `get_install_command`.
  - `execute_python_raw`, as a `Sandbox` class that records runs and
    installs, and a retry loop.
  - The loop is proved against `RunFrom`, a function over any sequence of
    run results.
- `Validation` (`validator.py`):
  - `_clean`, `_ask_methods`, `_fallback` and the code choice.
  - The first-JSON-line loop and the `validate_methods` loop, each proved
    against a specification function.
  - `pick_best` with its two rankings.
- `Pipeline` (`main.py`):
  - A `PlanState` class whose node methods update its fields.
  - The `get_full_plan` loop.
  - The run loop that the graph edges `plan -> run -> run | final` form.

## Model

| member | source | states |
|---|---|---|
| AlgorithmMap.Take | algorithm_map.py:2-15 | `xs[:n]` is the first `min(|xs|, n)` items of `xs` |
| AlgorithmMap.CategoryOf | algorithm_map.py:2-15 | a key found in the dictionary is that category's key |
| AlgorithmMap.Lookup | algorithm_map.py:2-15 | `ALGORITHM_MAP.get(key)`: every list found has 3 to 8 methods |
| AlgorithmMap.MethodCounts | algorithm_map.py:3-14 | every category lists 3 to 8 methods; only root finding and linear systems have more than six |
| AlgorithmMap.KeyFindsCategory | algorithm_map.py:2-15 | each category is found under its own key, so no two categories share a key |
| AlgorithmMap.FirstIsRootFinding | algorithm_map.py:2-3 | the first entry is `root_finding`; its first six methods are Bisection to Fixed-point |
| AlgorithmMap.OnlyTwoListsTruncated | algorithm_map.py:3-4 | a found list loses methods to the six-method cap iff its key is `root_finding` or `linear_system` |
| AlgorithmMap.OtherIsNotACategory | algorithm_map.py:2-15 | the classifier's catch-all `other` is not a key |
| Json.BraceBlock | planner.py:19 | the match starts with `{` and ends with `}` |
| Json.BraceBlockBounds | planner.py:19 | the match runs from the first `{` of the text to its last `}` (greedy, across lines) |
| Json.BraceBlockAbsent | planner.py:19 | there is no match only when no `}` follows any `{` |
| Planner.NonBlankLines | planner.py:27 | the comprehension keeps stripped, non-empty lines only, never more than it reads |
| Planner.NonBlankLinesSound | planner.py:27 | every kept entry is some line of the reply, stripped |
| Planner.NonBlankLinesComplete | planner.py:27 | no line that is non-blank after stripping is dropped |
| Planner.StringItems | planner.py:6-7 | the `list[str]` check accepts exactly the lists of strings and keeps them item for item |
| Planner.FallbackPlan | planner.py:27-28 | the fallback plan is a prefix of the non-blank lines, at most ten long, and all of them when there are at most ten |
| Planner.MakePlan | planner.py:17-28 | the steps are the JSON block's when it decodes and its `steps` validate, otherwise the line fallback's; only the JSON path can give more than ten steps |
| Planner.MissingStepsGiveEmptyPlan | planner.py:23 | a decoded object without `steps` gives the empty plan |
| Planner.FallbackKeepsFirstLines | planner.py:19-28 | without a block, and with at most ten non-blank lines, every non-blank line of the reply is a step |
| ProblemClassifier.WithDefaults | problem_classifier.py:28-33 | decoded values are kept; the four missing defaults are added; `original_task` is the decoded one if truthy, else the task |
| ProblemClassifier.Category | problem_classifier.py:37-51 | the cascade yields one of the seven category names |
| ProblemClassifier.CategoryInCatalogue | problem_classifier.py:37-51 | every heuristic category except `other` is a catalogue key, and `other` is not |
| ProblemClassifier.IntegralComesFirst | problem_classifier.py:38-39 | a mention of `integral` gives `integration` whatever else the text says |
| ProblemClassifier.DomainAt | problem_classifier.py:54 | a pair match starts at `(` and captures two non-empty runs of digits, dots and minus signs |
| ProblemClassifier.FindDomain | problem_classifier.py:54 | the search returns the leftmost position where the pair pattern matches, or no position when none does |
| ProblemClassifier.DomainHint | problem_classifier.py:54-55 | the hint is `(a,b)`: parenthesised, with a comma, at least five characters |
| ProblemClassifier.LazyEnd | problem_classifier.py:56 | the lazy `.+?` ends at the first `=\s*0` and does not cross a newline |
| ProblemClassifier.ShortAt | problem_classifier.py:56 | the capture is non-empty, newline-free, and followed by the first `=\s*0` |
| ProblemClassifier.FindShort | problem_classifier.py:56 | the search returns the leftmost start where `(.+?)=\s*0` matches |
| ProblemClassifier.ShortForm | problem_classifier.py:56-58 | there is no short form iff `(.+?)=\s*0` matches nowhere; a short form has no `^` left |
| Strings.ReplaceCharOne | problem_classifier.py:58 | `replace` on one character: `c` becomes the replacement, any other character stays |
| Strings.ReplaceCharAppend | problem_classifier.py:58 | `replace` distributes over concatenation, so every occurrence is replaced and nothing else changes |
| ProblemClassifier.Fallback | problem_classifier.py:36-59 | the fallback has exactly the five keys, `notes == "fallback"` and the task as `original_task` |
| ProblemClassifier.ClassifyTask | problem_classifier.py:21-59 | every classification has the five keys, and `original_task` is the task or a truthy decoded value |
| ProblemClassifier.DecodedValuesKept | problem_classifier.py:23-33 | every decoded key keeps its value, except a falsy `original_task` |
| AlgorithmResearcher.FallbackMethods | algorithm_researcher.py:31-33 | raises iff the hint is truthy and unhashable; at most six methods; a catalogue hint gives the first six of its list |
| Json.StringList | algorithm_researcher.py:33-34 | the list holds the names in order |
| AlgorithmResearcher.DecodedAcceptedIffCandidates | algorithm_researcher.py:23-30 | the decoded object is returned unchanged iff its `candidate_methods` is truthy; otherwise the fallback applies |
| AlgorithmResearcher.FallbackShape | algorithm_researcher.py:31-34 | the fallback has the three keys, empty texts and at most six candidates |
| AlgorithmResearcher.NoHintProposesRootFinding | algorithm_researcher.py:31-34 | with a falsy hint (`None`, `""`, `0`, `[]`, `{}`) the fallback proposes the first six root-finding methods |
| AlgorithmResearcher.ResearchAndPropose | algorithm_researcher.py:21-34 | raises only `unhashable type`, and only for a truthy unhashable hint; every result holds `candidate_methods` |
| AlgorithmResearcher.UnknownCategoryProposesNothing | algorithm_researcher.py:32-34 | a hint that is not a catalogue key proposes no method |
| Tools.ModuleNameAt | tools.py:12-13 | a match at `i` is `No module named '<name>'` with a non-empty, quote-free name |
| Tools.FindModuleName | tools.py:13 | the search returns the leftmost match position, or none when there is no match |
| Tools.ExtractMissingModule | tools.py:10-14 | a name is returned iff the pattern occurs, and it is quoted after the prefix in the message |
| Tools.NamedModuleIsFound | tools.py:10-14 | any occurrence of the pattern makes the extraction succeed |
| Tools.InstallCommand | tools.py:16-30 | the command always starts with `pip install`; it is the model's stripped reply or `pip install <module>` |
| Tools.InstallCommandFallback | tools.py:26-30 | a reply that is not a pip install, or a raised call, gives exactly `pip install <module>` |
| Tools.SuccessOutput | tools.py:43-51 | non-empty stdout wins, stripped; else a non-empty `text`, stripped; else `No output`; an empty output needs a non-empty source |
| Tools.SuccessOutputIsStripped | tools.py:43-51 | a clean run's output has no surrounding whitespace, and list stdout reads as its concatenation |
| Tools.ErrorText | tools.py:64-67 | every error text is `Error: ` followed by the detail |
| Tools.ExhaustedMessage | tools.py:65-67 | the message after the loop is an error text |
| Tools.StepAfter | tools.py:41-64 | a run is retried iff its traceback names a missing module, with a pip command; any other error is returned as `Error: <traceback>` |
| Tools.Sandbox.constructor | tools.py:39 | a fresh sandbox has made no run and been given no command |
| Tools.Sandbox.RunCode | tools.py:41 | one run more; the answer is the scripted one for that run |
| Tools.Sandbox.Install | tools.py:57-60 | the command is recorded; a failing install changes nothing else |
| Tools.Attempt | tools.py:41-64 | one loop pass: one run, and one install exactly when it retries |
| Tools.StepsAt | tools.py:41-56 | the decision for the run after `i` earlier runs reads that run's result |
| Tools.ReturnEnds | tools.py:43-51 | a returning run ends the loop with its output and no install |
| Tools.RetryContinues | tools.py:55-62 | a retried run adds one run and its command before the rest of the loop |
| Tools.ExecutePythonRaw | tools.py:32-67 | the output, run count and installs are those `RunFrom` prescribes for the sandbox's answers |
| Tools.RunsBounded | tools.py:40 | never more runs than attempts allowed, and at least one when any is allowed |
| Tools.InstallBeforeEveryRetry | tools.py:55-62 | every run except the last is followed by exactly one install |
| Tools.InstallsAreRetriedCommands | tools.py:55-62 | the installed commands are those of the retried runs, in order |
| Tools.OutputFromLastRun | tools.py:40-65 | the output is what the last run returned, or the error once attempts ran out |
| Tools.ReturnAfterRetries | tools.py:40-62 | `k` retries and then a return: that output after `k + 1` runs and `k` installs |
| Tools.RetriesUseEveryAttempt | tools.py:40-62 | only retries: every allowed attempt is run and installed |
| Tools.RetriesQuoteLastError | tools.py:65 | only retries: the message quotes the last run's traceback |
| Tools.InstallsArePipCommands | tools.py:26-27 | every command issued in the sandbox starts with `pip install` |
| Tools.OutputIsSuccessOrError | tools.py:43-67 | the output is a clean run's output or starts with `Error: ` |
| Tools.RecoversAfterInstalls | tools.py:40-62 | `k` missing modules then a clean run, within the limit: the clean output after `k` installs |
| Tools.OtherErrorReturnedAtOnce | tools.py:63-64 | another error is returned after one run, with no install |
| Tools.ExhaustedAfterMaxAttempts | tools.py:65 | missing modules until the limit: all attempts used, and the message quotes the last traceback |
| Tools.NoAttemptsNoRun | tools.py:40-65 | with no attempt allowed nothing runs and the `UnboundLocalError` text is returned |
| Validation.DropOpeningFence | validator.py:24 | only a leading ```` ``` ```` fence, bare or tagged `python` in any case, and its newline are removed |
| Validation.DropClosingFence | validator.py:25 | only a closing fence at the end, or before a final newline, is removed |
| Validation.Clean | validator.py:22-26 | the cleaned code has no surrounding whitespace |
| Validation.FencedBlockUnwrapped | validator.py:22-26 | a fenced block cleans to its stripped body |
| Validation.FencesDropped | validator.py:24-25 | both fences of a block come off, leaving the body |
| Validation.UnfencedIsStripped | validator.py:22-26 | a text without fences is only stripped |
| Validation.NoFenceToDrop | validator.py:24-25 | neither substitution changes a text without fences |
| Validation.NoOpeningFence | validator.py:24 | a text not starting with a fence is unchanged |
| Validation.NoClosingFence | validator.py:25 | a text not ending with a fence is unchanged |
| Validation.DropNumbering | validator.py:37 | the result is a suffix of the entry and keeps it trimmed |
| Validation.NumberingDropped | validator.py:37 | `N.` and the spaces after it are removed from the front of a name |
| Validation.NoSeparatorSlice | validator.py:32 | a slice of a separator-free part has no separator |
| Validation.PartEntry | validator.py:35-37 | a part gives at most one entry, trimmed |
| Validation.EntryKeepsNoSeparator | validator.py:35-37 | an entry holds no separator |
| Validation.MethodEntries | validator.py:33-37 | at most one trimmed entry per part |
| Validation.EntriesKeepNoSeparator | validator.py:32-37 | entries from separator-free parts hold no separator |
| Validation.EntriesStep | validator.py:34-37 | one more part appends that part's entry |
| Validation.AskedMethodsShape | validator.py:28-38 | at most six methods, each trimmed and separator-free |
| Validation.AskMethods | validator.py:28-38 | the loop returns exactly what `AskedMethods` prescribes |
| Validation.BracketOf | validator.py:60 | bounds found are `a=…` lines ending in a newline |
| Validation.Bracket | validator.py:57-62 | bounds come only from a string hint |
| Validation.PairBracket | validator.py:60 | `(a,b)` with comma-free parts gives `a=a\nb=b\n` |
| Validation.BracketNeedsComma | validator.py:59-62 | a hint without a comma gives no bounds |
| Validation.FallbackCode | validator.py:54-67 | bisection iff the name is `Bisection`, secant for every other hashable name, and a `TypeError` otherwise |
| Validation.GeneratedIffUsable | validator.py:74-80 | the model's code runs iff it is non-empty and mentions `print` and `json` once cleaned; otherwise the template runs |
| Validation.StrippedLines | validator.py:84-85 | the loop reads each output line stripped |
| Validation.FirstJsonFrom | validator.py:84-87 | the first line from `i` on that starts with `{` and ends with `}` |
| Validation.LaterLinesIgnored | validator.py:87 | lines after the first JSON line never change the choice |
| Validation.FirstJson | validator.py:83-87 | the line found is a JSON line |
| Validation.NoJsonLineRecorded | validator.py:94-95 | no JSON line: the record is name, output and `no json line` |
| Validation.DecodedFieldsWin | validator.py:88-91 | decoded fields are added and override the name and the output |
| Validation.DecodeErrorRecorded | validator.py:92-93 | an undecodable line leaves its error in `parse_error` |
| Validation.ParseOutput | validator.py:82-95 | the record is the one `ParsedOutput` prescribes |
| Validation.FindFirstJson | validator.py:83-87 | the loop stops at the line `FirstJson` names |
| Validation.FirstSix | validator.py:71 | `[:6]` works on lists and strings only and keeps at most six items; a dict raises `unhashable type` (the slice as a key), anything else `object is not subscriptable` |
| Validation.ResultsFor | validator.py:72-97 | one record per method in order, or the first exception raised |
| Validation.ResultsStep | validator.py:73-96 | one more method appends its record, or its exception ends the call |
| Validation.FailurePersists | validator.py:73-97 | once a method raises, the call raises that error |
| Validation.ChooseMethods | validator.py:70-71 | the method choice is the one `ChosenMethods` prescribes |
| Validation.ValidateOne | validator.py:74-96 | one loop pass gives the record `OutcomeFor` prescribes |
| Validation.ValidateAll | validator.py:72-97 | the loop gives `ResultsFor` of the methods |
| Validation.Validated | validator.py:69-97 | a failed method choice raises its error; otherwise one record per chosen method, at most six |
| Validation.ValidateMethods | validator.py:69-97 | the call gives what `Validated` prescribes |
| Validation.MethodsChosenInOrder | validator.py:70-71 | the argument wins over the stored list, which wins over asking; at most six |
| Validation.Abs | validator.py:103 | `abs` is non-negative and equals `x` or `-x` |
| Validation.Score | validator.py:100-104 | a failed record scores `inf`; a success scores at least its iterations; raises iff a truthy residual is not a number |
| Validation.ZeroResidualFallsThrough | validator.py:110 | a zero residual is falsy, so `result` ranks the record |
| Validation.Successes | validator.py:105 | the filter never lengthens the list |
| Validation.SuccessesMembers | validator.py:105 | every kept record succeeded, every successful record is kept, nothing else is; the list is empty iff no record succeeded |
| Validation.SuccessesAppend | validator.py:105 | the filter distributes over concatenation, so order and repetitions are kept |
| Validation.Scores | validator.py:107 | all keys or the first failure |
| Validation.ResidualKeys | validator.py:113 | the residual key of each record |
| Validation.ArgMin | validator.py:107-113 | a least key, and the first of the least ones |
| Validation.BestIsSuccessfulAndLeast | validator.py:105-107 | a successful record is preferred and scores no worse than any other success |
| Validation.EarliestAmongEqual | validator.py:105-107 | the pick is the successful record at some position `i`, strictly better than every successful record before `i`, so ties go to the earliest |
| Validation.FallbackRanksByResidual | validator.py:108-113 | without successes: no records raise `min() arg is an empty sequence`; otherwise no record has a smaller residual key than the pick, which beats every record before it |
| Validation.PickBest | validator.py:99-113 | the best record is one of the records; no records raise |
| Validation.PickBestRaises | validator.py:99-113 | raises iff there are no records, or a success has a non-numeric residual |
| Pipeline.Blocks | main.py:45-51 | one block per plan step |
| Pipeline.GetFullPlan | main.py:45-51 | the loop's text is `FullPlan` of the steps and results |
| Pipeline.BlockShowsResultIffRun | main.py:48-49 | a block starts with `# i+1. step`, and it has a `Result:` line iff step `i` has run |
| Pipeline.BlocksShowRunSteps | main.py:45-51 | over the whole plan, exactly the blocks of the steps that have run show a result |
| Pipeline.FullPlan | main.py:45-51 | an empty plan gives the empty text; otherwise the text starts with the first step's header |
| Strings.JoinStartsWithFirst | main.py:51 | a joined list starts with its first part |
| Pipeline.RecordingChangesOneBlock | main.py:45-51 | recording the next result changes only that step's block, by adding its `Result:` line |
| Pipeline.Executed | main.py:81-101 | after `n` runs there are `n` results |
| Pipeline.ExecutedPrefix | main.py:39 | later runs only append |
| Pipeline.ExecutedInOrder | main.py:82-101 | result `i` is the agent's answer for step `i`, given results `0..i-1` |
| Pipeline.CatalogueDefault | main.py:64 | raises iff the category is unhashable; otherwise 3 to 6 methods, from the category's list or the first list |
| Pipeline.WithCandidates | main.py:63-64 | a truthy candidate list is kept; otherwise it is filled; afterwards the candidates are truthy |
| Pipeline.ResearchUpdate | main.py:60-65 | after research the candidates are present and truthy; it raises only `unhashable type`, and only for an unhashable category |
| Pipeline.UnknownCategoryTakesRootFinding | main.py:62-64 | an unknown category such as `other` ends with the first six root-finding methods |
| Pipeline.FirstCandidate | main.py:76 | `[0]` works iff the candidates are a non-empty list or string, and gives a member of the list |
| Pipeline.PlanName | main.py:76 | a truthy `best["method"]` names the plan; a missing candidate list raises `KeyError` |
| Pipeline.CatalogueNamesThePlan | main.py:63-76 | without a named best method, the plan is named after the first catalogue candidate |
| Pipeline.ValidationUpdate | main.py:67-73 | the validator gives one to six records, and the best record is one of them |
| Pipeline.Preparation | main.py:56-79 | after `research`, `validate` and `plan`: the classification is kept, the candidates are truthy, the best of at most six records is one of them, and the plan is `make_plan`'s for the name `_plan` chooses |
| Pipeline.PlanState.constructor | main.py:128-132 | the graph starts with the task and no step run |
| Pipeline.PlanState.Classify | main.py:56-58 | the classification is `classify_task`'s |
| Pipeline.PlanState.Research | main.py:60-65 | the research is `ResearchUpdate`'s, or its exception |
| Pipeline.PlanState.Validate | main.py:67-73 | the records and the best record are `ValidationUpdate`'s for the classification and candidates; a raise leaves both fields unchanged |
| Pipeline.PlanState.MakePlan | main.py:75-79 | the plan is `make_plan`'s for the chosen name, or the naming exception |
| Pipeline.PlanState.RunStep | main.py:81-101 | runs the current step and appends one result; raises `IndexError` past the last step |
| Pipeline.PlanState.CurrentStep | main.py:42-43 | step `i`'s block shows a result iff `i` is below the current step |
| Pipeline.PlanState.ShouldContinue | main.py:107-108 | an empty plan goes to `final`; otherwise `run` iff the last step's block is still a bare header; `final` means every block shows its result |
| Pipeline.PlanState.RunSteps | main.py:107-123 | an empty plan raises at its first run; otherwise every step runs once, in order |
| Pipeline.PlanState.Final | main.py:103-105 | the final response is the model's answer to the task and the full plan |
| Pipeline.PlanState.RunAndFinish | main.py:122-125 | an empty plan raises `IndexError`; otherwise every step runs once, in order, and the answer is the final reply |
| Pipeline.PlanState.ValidateAndPlan | main.py:120-122 | the state is what `validate` then `plan` compute, or the first exception with the plan unchanged |
| Pipeline.PlanState.Prepare | main.py:119-122 | the state is `Preparation`'s after `research`, `validate` and `plan`, or the first exception with the plan unchanged |
| Pipeline.PlanState.Run | main.py:119-125 | a raise before the first run is the result; otherwise the plan is `Preparation`'s, and the result is `IndexError` iff that plan is empty, else the final reply after every step ran once |
| Pipeline.RunTask | main.py:128-155 | the classification is `classify_task`'s; then the result is the first exception, or `IndexError` iff the prepared plan is empty, or the final reply to the full plan after every step ran once |

## Left out

- Calls to the language model, to the ReAct execution agent and to the web search, arXiv and Wikipedia tools are function or string parameters. `settings.py` is not part of this model.
- The E2B sandbox is a scripted function from the code and the run number to a result. Sandbox creation can fail, with its message as a parameter. The `StructuredTool` wrapper is not modelled.
- LangGraph wiring, async/await, event streaming and the printing in `run_task` are left out. The graph's order is written as the `RunTask` method.
- The graph's recursion limit is left out. The run loop is bounded by the plan length.
- The numeric content of the Bisection and Secant templates is left out. The model keeps only which template is chosen and what it is filled with.
- Floating point: scores and residuals are `real`. `nan` is not modelled, and `inf` is a separate key.
- `str.lower()` and `\d` are modelled on ASCII only.
- `TypeError` messages are shortened to their fixed part, such as `unhashable type`.
- The `UnboundLocalError` text follows Python 3.11 and later.
- A `run_code` call that raises inside an open sandbox is not modelled.
- An exception from the model in `classify_task`, `research_and_propose` or `make_plan` is not modelled: it would escape those functions unhandled.
- Prompts render non-string values with `str()`. The model does not spell that rendering out; the reply oracles receive the method name as a JSON value.
- The model's replies and the sandbox's answers are functions of their inputs (the method name, the code and the run number). So two validations of the same method name in one call get the same record; the real model and sandbox need not. No contract relies on this.
- `final_response` is the model's message object. The model keeps only its text.
- An empty plan: the code's `plan -> run` edge is unconditional, so `_run_step` raises `IndexError` at `plan.steps[0]`. `_should_continue` (main.py:107-108) would send an empty plan to `final`, but it is only consulted after `run`, so the exception comes first. The model follows the code (`Pipeline.PlanState.RunSteps`).
- Validation.DropNumbering: an entry that is only `1.` becomes the empty string and is kept.
- AlgorithmMap.FirstMethods: of the dictionary's insertion order, only the first entry is modelled.
