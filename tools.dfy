/**
 * `execute_python_raw` and its two helpers: running code in a sandbox and
 * healing "No module named '…'" failures by installing the module and
 * running again, a bounded number of times.
 *
 * The sandbox is a class whose state is what the source changes in place:
 * how many times code has been run in it and which install commands it has
 * been given. What a run answers is scripted by `respond`, a function of
 * the code and of the number of earlier runs in the same sandbox (installed
 * packages persist, so a later run may answer differently). The model
 * asked for an install command is the `installReply` parameter.
 */
module Tools {
  import opened Wrappers
  import opened Strings

  /** A language-model call: the text of its answer, or the message of the exception it raised. */
  datatype Reply = Text(content: string) | Raised(message: string)

  /** What `logs.stdout` holds: a string, or the list of chunks the runtime printed. */
  datatype Stdout = StdoutText(text: string) | StdoutChunks(chunks: seq<string>)

  /** One `run_code` result: the traceback of its error if any, its stdout and its `text`. */
  datatype Execution = Execution(error: Option<string>, stdout: Stdout, text: Option<string>)

  /** Everything outside the loop: whether a sandbox can be created, what runs answer, what the model answers. */
  datatype SandboxEnv<-C> = SandboxEnv(
    createError: Option<string>,
    respond: (C, nat) -> Execution,
    installReply: string -> Reply)

  const MissingModulePrefix: string := "No module named '"
  const InstallPrefix: string := "pip install"
  const ErrorPrefix: string := "Error: "

  /** The default of `max_install_attempts`, used by every call through the sandbox tool. */
  const DefaultMaxInstallAttempts: int := 5

  /** `str(e)` of the `UnboundLocalError` raised when no run happened before the final message. */
  const UnboundExecution: string := "cannot access local variable 'execution' where it is not associated with a value"

  predicate NotQuote(c: char) {
    c != '\''
  }

  // ---------------------------------------------------------------------
  // extract_missing_module
  // ---------------------------------------------------------------------

  /** The module name `No module named '([^']+)'` captures when a match starts at `i`. */
  function ModuleNameAt(s: string, i: nat): (r: Option<string>)
    ensures r.Some? ==> r.value != [] && forall k :: 0 <= k < |r.value| ==> NotQuote(r.value[k])
    ensures r.Some? ==> OccursAt(s, MissingModulePrefix + r.value + "'", i)
  {
    if !OccursAt(s, MissingModulePrefix, i) then None
    else
      var start := i + |MissingModulePrefix|;
      var e := RunEnd(s, start, NotQuote);
      if e == start || e == |s| then None
      else
        var name := s[start..e];
        assert s[i..e + 1] == MissingModulePrefix + name + "'";
        Some(name)
  }

  /** `re.search`: the leftmost position from `i` on where the pattern matches. */
  function FindModuleName(s: string, i: nat): (r: Option<nat>)
    requires i <= |s|
    ensures r.Some? ==> i <= r.value < |s| && ModuleNameAt(s, r.value).Some?
    ensures r.Some? ==> forall j :: i <= j < r.value ==> ModuleNameAt(s, j).None?
    ensures r.None? ==> forall j :: i <= j ==> ModuleNameAt(s, j).None?
  {
    var p := (j: nat) => ModuleNameAt(s, j).Some?;
    assert forall j: nat :: p(j) <==> ModuleNameAt(s, j).Some?;
    FirstFrom(|s|, i, p)
  }

  /** `extract_missing_module`: the name in the leftmost `No module named '…'`, or `None`. */
  function ExtractMissingModule(s: string): (r: Option<string>)
    ensures r.Some? ==> r.value != [] && forall k :: 0 <= k < |r.value| ==> NotQuote(r.value[k])
    ensures r.Some? ==> exists i :: OccursAt(s, MissingModulePrefix + r.value + "'", i)
    ensures r.None? <==> forall i :: ModuleNameAt(s, i).None?
  {
    match FindModuleName(s, 0)
    case None => None
    case Some(p) => ModuleNameAt(s, p)
  }

  /** Any quoted, non-empty, quote-free name after the prefix is found (perhaps an earlier one). */
  lemma NamedModuleIsFound(s: string, name: string, i: nat)
    requires name != [] && forall k :: 0 <= k < |name| ==> NotQuote(name[k])
    requires OccursAt(s, MissingModulePrefix + name + "'", i)
    ensures ExtractMissingModule(s).Some?
  {
    var start := i + |MissingModulePrefix|;
    var whole := MissingModulePrefix + name + "'";
    assert s[i..i + |whole|] == whole;
    assert s[i..start] == MissingModulePrefix by {
      assert s[i..start] == whole[..|MissingModulePrefix|];
    }
    forall k | start <= k < start + |name| ensures NotQuote(s[k]) {
      assert s[k] == whole[k - i];
    }
    assert s[start + |name|] == whole[|whole| - 1];
    assert RunEnd(s, start, NotQuote) == start + |name|;
    assert ModuleNameAt(s, i).Some?;
  }

  // ---------------------------------------------------------------------
  // get_install_command
  // ---------------------------------------------------------------------

  /** `get_install_command`: the model's command if it is a pip install, else the conventional one. */
  function InstallCommand(moduleName: string, reply: Reply): (cmd: string)
    ensures StartsWith(cmd, InstallPrefix)
    ensures cmd == "pip install " + moduleName || (reply.Text? && cmd == Strip(reply.content))
  {
    match reply
    case Raised(_) => "pip install " + moduleName
    case Text(content) =>
      var command := Strip(content);
      if StartsWith(command, InstallPrefix) then command else "pip install " + moduleName
  }

  /** A reply that is not recognisably a pip install, or an exception, gives exactly `pip install <module>`. */
  lemma InstallCommandFallback(moduleName: string, reply: Reply)
    requires reply.Raised? || !StartsWith(Strip(reply.content), InstallPrefix)
    ensures InstallCommand(moduleName, reply) == "pip install " + moduleName
  {
  }

  // ---------------------------------------------------------------------
  // execute_python_raw
  // ---------------------------------------------------------------------

  /**
   * The successful run's output: stripped stdout if non-empty, else stripped
   * `text` if non-empty, else `No output`. Stdout wins whenever it is
   * non-empty, and an empty output needs some non-empty source.
   */
  function SuccessOutput(e: Execution): (r: string)
    ensures StdoutString(e.stdout) != "" ==> r == Strip(StdoutString(e.stdout))
    ensures StdoutString(e.stdout) == "" && e.text.Some? && e.text.value != "" ==> r == Strip(e.text.value)
    ensures StdoutString(e.stdout) == "" && (e.text.None? || e.text.value == "") ==> r == "No output"
    ensures r == "" ==> StdoutString(e.stdout) != "" || (e.text.Some? && e.text.value != "")
  {
    var stdout := StdoutString(e.stdout);
    if stdout != "" then Strip(stdout)
    else if e.text.Some? && e.text.value != "" then Strip(e.text.value)
    else "No output"
  }

  /** A clean run's output never carries whitespace at either end, and list-form stdout reads as its concatenation. */
  lemma SuccessOutputIsStripped(e: Execution)
    ensures Strip(SuccessOutput(e)) == SuccessOutput(e)
    ensures e.stdout.StdoutChunks? ==>
      SuccessOutput(e) == SuccessOutput(Execution(e.error, StdoutText(Concat(e.stdout.chunks)), e.text))
  {
    var stdout := StdoutString(e.stdout);
    if stdout != "" {
      StripIdempotent(stdout);
    } else if e.text.Some? && e.text.value != "" {
      StripIdempotent(e.text.value);
    } else {
      StripOfStripped("No output");
    }
  }

  /** Stdout as one string (a list of chunks is concatenated first). */
  function StdoutString(s: Stdout): string {
    match s
    case StdoutText(t) => t
    case StdoutChunks(chunks) => Concat(chunks)
  }

  /** `execution.error.traceback`, empty for a clean run. */
  function Traceback(e: Execution): string {
    if e.error.Some? then e.error.value else ""
  }

  /** The run failed because a module is missing. */
  predicate MissingModuleError(e: Execution) {
    e.error.Some? && ExtractMissingModule(e.error.value).Some?
  }

  /** What one call returns, how many runs it made and which install commands it issued. */
  datatype Trace = Trace(output: string, runs: nat, installs: seq<string>)

  /** `f"Error: {detail}"`: every failure the tool reports. */
  function ErrorText(detail: string): (r: string)
    ensures StartsWith(r, ErrorPrefix) && r[|ErrorPrefix|..] == detail
  {
    ErrorPrefix + detail
  }

  /** The detail of the message after the last allowed attempt. */
  function MaxAttemptsDetail(maxAttempts: int, lastError: string): string {
    "Max install attempts (" + IntToString(maxAttempts) + ") reached. Last error: " + lastError
  }

  /** The message when the loop ends without returning. */
  function ExhaustedMessage(attempt: nat, maxAttempts: int, lastError: string): (r: string)
    ensures StartsWith(r, ErrorPrefix)
  {
    if attempt == 0 then ErrorText(UnboundExecution)
    else ErrorText(MaxAttemptsDetail(maxAttempts, lastError))
  }

  /** What the loop does after one run: return an output, or install a command and run again. */
  datatype Step = Return(output: string) | Retry(command: string, traceback: string)

  /** The step a run's result calls for; the install command comes from the model's reply. */
  function StepAfter(e: Execution, installReply: string -> Reply): (s: Step)
    ensures s.Retry? <==> MissingModuleError(e)
    ensures s.Retry? ==> StartsWith(s.command, InstallPrefix) && s.traceback == e.error.value
    ensures e.error.Some? && s.Return? ==> s.output == ErrorText(e.error.value)
  {
    match e.error
    case None => Return(SuccessOutput(e))
    case Some(tb) =>
      match ExtractMissingModule(tb)
      case None => Return(ErrorText(tb))
      case Some(moduleName) => Retry(InstallCommand(moduleName, installReply(moduleName)), tb)
  }

  /** The step each run calls for, by the number of earlier runs. */
  function Steps<C>(env: SandboxEnv<C>, code: C): nat -> Step {
    (i: nat) => StepAfter(env.respond(code, i), env.installReply)
  }

  /**
   * The loop from attempt `attempt` on, `lastError` being the traceback of
   * the previous run; `stepAt(i)` is what the run after `i` earlier runs
   * calls for.
   */
  function RunFrom(stepAt: nat -> Step, attempt: nat, maxAttempts: int, lastError: string): (t: Trace)
    decreases if attempt < maxAttempts then maxAttempts - attempt else 0
  {
    if attempt >= maxAttempts then Trace(ExhaustedMessage(attempt, maxAttempts, lastError), 0, [])
    else
      match stepAt(attempt)
      case Return(output) => Trace(output, 1, [])
      case Retry(command, tb) =>
        var rest := RunFrom(stepAt, attempt + 1, maxAttempts, tb);
        Trace(rest.output, rest.runs + 1, [command] + rest.installs)
  }

  /** A whole call of `execute_python_raw`. */
  function ExecutionTrace<C>(env: SandboxEnv<C>, code: C, maxAttempts: int): Trace {
    match env.createError
    case Some(e) => Trace(ErrorText(e), 0, [])
    case None => RunFrom(Steps(env, code), 0, maxAttempts, "")
  }

  /** A sandbox: the runs made in it so far and the install commands it was given. */
  class Sandbox<C> {
    const respond: (C, nat) -> Execution
    var runs: nat
    var commands: seq<string>

    constructor (respond: (C, nat) -> Execution)
      ensures this.respond == respond && runs == 0 && commands == []
    {
      this.respond := respond;
      runs := 0;
      commands := [];
    }

    /** `run_code`: the scripted answer for this code and this many earlier runs. */
    method RunCode(code: C) returns (e: Execution)
      modifies this
      ensures e == respond(code, old(runs))
      ensures runs == old(runs) + 1 && commands == old(commands)
    {
      e := respond(code, runs);
      runs := runs + 1;
    }

    /** `commands.run`: the command is issued; a failure of it is swallowed and leaves no other trace. */
    method Install(command: string)
      modifies this
      ensures commands == old(commands) + [command] && runs == old(runs)
    {
      commands := commands + [command];
    }
  }

  /**
   * One pass of the loop body: run the code; return its output if it ran
   * cleanly, its error if that is not a missing module, and otherwise issue
   * an install command and ask for another run.
   */
  method Attempt<C>(sandbox: Sandbox<C>, code: C, installReply: string -> Reply) returns (step: Step)
    modifies sandbox
    ensures step == StepAfter(sandbox.respond(code, old(sandbox.runs)), installReply)
    ensures sandbox.runs == old(sandbox.runs) + 1
    ensures sandbox.commands == old(sandbox.commands) + (if step.Retry? then [step.command] else [])
  {
    var execution := sandbox.RunCode(code);
    if execution.error.None? {
      return Return(SuccessOutput(execution));
    }
    var errorMsg := execution.error.value;
    var missingModule := ExtractMissingModule(errorMsg);
    if missingModule.None? {
      return Return(ErrorText(errorMsg));
    }
    var installCommand := InstallCommand(missingModule.value, installReply(missingModule.value));
    sandbox.Install(installCommand);
    return Retry(installCommand, errorMsg);
  }

  /** The step of the run after `i` earlier runs. */
  lemma StepsAt<C>(env: SandboxEnv<C>, code: C, i: nat)
    ensures Steps(env, code)(i) == StepAfter(env.respond(code, i), env.installReply)
  {
  }

  /** A run that calls for a return ends the loop with that output and no install. */
  lemma ReturnEnds(stepAt: nat -> Step, attempt: nat, maxAttempts: int, lastError: string)
    requires attempt < maxAttempts && stepAt(attempt).Return?
    ensures RunFrom(stepAt, attempt, maxAttempts, lastError) == Trace(stepAt(attempt).output, 1, [])
  {
  }

  /** A run that calls for a retry adds one run and its install command before the rest of the loop. */
  lemma RetryContinues(stepAt: nat -> Step, attempt: nat, maxAttempts: int, lastError: string, issued: seq<string>)
    requires attempt < maxAttempts && stepAt(attempt).Retry?
    ensures var rest := RunFrom(stepAt, attempt, maxAttempts, lastError);
      var next := RunFrom(stepAt, attempt + 1, maxAttempts, stepAt(attempt).traceback);
      && rest.output == next.output
      && attempt + rest.runs == (attempt + 1) + next.runs
      && issued + rest.installs == (issued + [stepAt(attempt).command]) + next.installs
  {
    var next := RunFrom(stepAt, attempt + 1, maxAttempts, stepAt(attempt).traceback);
    assert issued + ([stepAt(attempt).command] + next.installs) == (issued + [stepAt(attempt).command]) + next.installs;
  }

  /** `execute_python_raw`. The ghost results are the sandbox's run count and install commands at the end. */
  method ExecutePythonRaw<C>(code: C, maxAttempts: int, env: SandboxEnv<C>)
    returns (out: string, ghost runs: nat, ghost installs: seq<string>)
    ensures out == ExecutionTrace(env, code, maxAttempts).output
    ensures ExecutionTrace(env, code, maxAttempts) == Trace(out, runs, installs)
  {
    if env.createError.Some? {
      return ErrorText(env.createError.value), 0, [];
    }
    var sandbox := new Sandbox(env.respond);
    var attempt: nat := 0;
    var lastError := "";
    ghost var stepAt := Steps(env, code);
    ghost var whole := RunFrom(stepAt, 0, maxAttempts, "");
    while attempt < maxAttempts
      invariant sandbox.respond == env.respond && sandbox.runs == attempt
      invariant whole.output == RunFrom(stepAt, attempt, maxAttempts, lastError).output
      invariant whole.runs == attempt + RunFrom(stepAt, attempt, maxAttempts, lastError).runs
      invariant whole.installs == sandbox.commands + RunFrom(stepAt, attempt, maxAttempts, lastError).installs
      decreases maxAttempts - attempt
    {
      ghost var issued := sandbox.commands;
      var step := Attempt(sandbox, code, env.installReply);
      StepsAt(env, code, attempt);
      if step.Return? {
        ReturnEnds(stepAt, attempt, maxAttempts, lastError);
        return step.output, sandbox.runs, sandbox.commands;
      }
      RetryContinues(stepAt, attempt, maxAttempts, lastError, issued);
      attempt := attempt + 1;
      lastError := step.traceback;
    }
    return ExhaustedMessage(attempt, maxAttempts, lastError), sandbox.runs, sandbox.commands;
  }

  // ---------------------------------------------------------------------
  // Properties of the retry loop, for any sequence of run results
  // ---------------------------------------------------------------------

  /** Never more runs than attempts allowed, and none once the ceiling is reached. */
  lemma {:induction false} RunsBounded(stepAt: nat -> Step, attempt: nat, maxAttempts: int, lastError: string)
    ensures var t := RunFrom(stepAt, attempt, maxAttempts, lastError);
      if attempt < maxAttempts then 1 <= t.runs <= maxAttempts - attempt else t.runs == 0
    decreases if attempt < maxAttempts then maxAttempts - attempt else 0
  {
    if attempt < maxAttempts && stepAt(attempt).Retry? {
      RunsBounded(stepAt, attempt + 1, maxAttempts, stepAt(attempt).traceback);
    }
  }

  /** Every run but the last is followed by exactly one install. */
  lemma {:induction false} InstallBeforeEveryRetry(stepAt: nat -> Step, attempt: nat, maxAttempts: int, lastError: string)
    ensures var t := RunFrom(stepAt, attempt, maxAttempts, lastError);
      t.runs == |t.installs| || t.runs == |t.installs| + 1
    decreases if attempt < maxAttempts then maxAttempts - attempt else 0
  {
    if attempt < maxAttempts && stepAt(attempt).Retry? {
      InstallBeforeEveryRetry(stepAt, attempt + 1, maxAttempts, stepAt(attempt).traceback);
    }
  }

  /** The commands of `t` are those of the runs from `attempt` on, in order, and those runs were retried. */
  predicate InstallsOfRetries(stepAt: nat -> Step, attempt: nat, t: Trace) {
    forall j :: attempt <= j < attempt + |t.installs| ==> stepAt(j).Retry? && t.installs[j - attempt] == stepAt(j).command
  }

  /** The commands installed are the retried runs' commands, in order. */
  lemma {:induction false} InstallsAreRetriedCommands(stepAt: nat -> Step, attempt: nat, maxAttempts: int, lastError: string)
    ensures InstallsOfRetries(stepAt, attempt, RunFrom(stepAt, attempt, maxAttempts, lastError))
    decreases if attempt < maxAttempts then maxAttempts - attempt else 0
  {
    if attempt < maxAttempts && stepAt(attempt).Retry? {
      InstallsAreRetriedCommands(stepAt, attempt + 1, maxAttempts, stepAt(attempt).traceback);
      var t := RunFrom(stepAt, attempt, maxAttempts, lastError);
      var rest := RunFrom(stepAt, attempt + 1, maxAttempts, stepAt(attempt).traceback);
      assert t.installs == [stepAt(attempt).command] + rest.installs;
      forall j | attempt < j < attempt + |t.installs|
        ensures stepAt(j).Retry? && t.installs[j - attempt] == stepAt(j).command
      {
        assert t.installs[j - attempt] == rest.installs[j - (attempt + 1)];
      }
    }
  }

  /** The output of `t` is what its last run returned. */
  predicate ReturnedByLastRun(stepAt: nat -> Step, attempt: nat, t: Trace) {
    t.runs > 0 && stepAt(attempt + t.runs - 1) == Return(t.output)
  }

  /** Every output is what the last run returned, or the message of a loop that ran out of attempts. */
  lemma {:induction false} OutputFromLastRun(stepAt: nat -> Step, attempt: nat, maxAttempts: int, lastError: string)
    ensures var t := RunFrom(stepAt, attempt, maxAttempts, lastError);
      ReturnedByLastRun(stepAt, attempt, t) || (attempt + t.runs >= maxAttempts && StartsWith(t.output, ErrorPrefix))
    decreases if attempt < maxAttempts then maxAttempts - attempt else 0
  {
    if attempt < maxAttempts && stepAt(attempt).Retry? {
      OutputFromLastRun(stepAt, attempt + 1, maxAttempts, stepAt(attempt).traceback);
      var t := RunFrom(stepAt, attempt, maxAttempts, lastError);
      var rest := RunFrom(stepAt, attempt + 1, maxAttempts, stepAt(attempt).traceback);
      assert t.output == rest.output && t.runs == rest.runs + 1;
      assert attempt + 1 + rest.runs - 1 == attempt + t.runs - 1;
    }
  }

  /** `k` retried runs and then one that returns, all within the ceiling: its output is returned after `k` installs. */
  lemma {:induction false} ReturnAfterRetries(stepAt: nat -> Step, attempt: nat, k: nat, maxAttempts: int, lastError: string)
    requires attempt + k < maxAttempts
    requires forall j :: attempt <= j < attempt + k ==> stepAt(j).Retry?
    requires stepAt(attempt + k).Return?
    ensures var t := RunFrom(stepAt, attempt, maxAttempts, lastError);
      t.output == stepAt(attempt + k).output && t.runs == k + 1 && |t.installs| == k
    decreases k
  {
    if k > 0 {
      assert stepAt(attempt).Retry?;
      ReturnAfterRetries(stepAt, attempt + 1, k - 1, maxAttempts, stepAt(attempt).traceback);
    }
  }

  /** Only retries until the ceiling: every allowed attempt is used. */
  lemma {:induction false} RetriesUseEveryAttempt(stepAt: nat -> Step, attempt: nat, maxAttempts: int, lastError: string)
    requires attempt <= maxAttempts
    requires forall j :: attempt <= j < maxAttempts ==> stepAt(j).Retry?
    ensures RunFrom(stepAt, attempt, maxAttempts, lastError).runs == maxAttempts - attempt
    ensures |RunFrom(stepAt, attempt, maxAttempts, lastError).installs| == maxAttempts - attempt
    decreases maxAttempts - attempt
  {
    if attempt < maxAttempts {
      assert stepAt(attempt).Retry?;
      RetriesUseEveryAttempt(stepAt, attempt + 1, maxAttempts, stepAt(attempt).traceback);
    }
  }

  /** Only retries until the ceiling: the message quotes the traceback of the last run. */
  lemma {:induction false} RetriesQuoteLastError(stepAt: nat -> Step, attempt: nat, maxAttempts: int, lastError: string)
    requires 0 < maxAttempts && attempt <= maxAttempts
    requires forall j :: attempt <= j < maxAttempts ==> stepAt(j).Retry?
    ensures RunFrom(stepAt, attempt, maxAttempts, lastError).output
         == ErrorText(MaxAttemptsDetail(maxAttempts,
              if attempt < maxAttempts then stepAt(maxAttempts - 1).traceback else lastError))
    decreases maxAttempts - attempt
  {
    if attempt < maxAttempts {
      assert stepAt(attempt).Retry?;
      RetriesQuoteLastError(stepAt, attempt + 1, maxAttempts, stepAt(attempt).traceback);
    }
  }

  // ---------------------------------------------------------------------
  // Properties of a whole call
  // ---------------------------------------------------------------------

  /** Every command issued in the sandbox is a pip install, one per retried run. */
  lemma InstallsArePipCommands<C>(env: SandboxEnv<C>, code: C, maxAttempts: int)
    ensures var t := ExecutionTrace(env, code, maxAttempts);
      forall c :: c in t.installs ==> StartsWith(c, InstallPrefix)
  {
    if env.createError.None? {
      var stepAt := Steps(env, code);
      InstallsAreRetriedCommands(stepAt, 0, maxAttempts, "");
      var t := RunFrom(stepAt, 0, maxAttempts, "");
      forall c | c in t.installs ensures StartsWith(c, InstallPrefix) {
        var k :| 0 <= k < |t.installs| && t.installs[k] == c;
        assert stepAt(k) == StepAfter(env.respond(code, k), env.installReply);
      }
    }
  }

  /** Every output is a clean run's output, or begins with `Error: `. */
  lemma OutputIsSuccessOrError<C>(env: SandboxEnv<C>, code: C, maxAttempts: int)
    ensures var t := ExecutionTrace(env, code, maxAttempts);
      StartsWith(t.output, ErrorPrefix)
      || (t.runs > 0 && env.respond(code, t.runs - 1).error.None?
          && t.output == SuccessOutput(env.respond(code, t.runs - 1)))
  {
    if env.createError.None? {
      OutputFromLastRun(Steps(env, code), 0, maxAttempts, "");
    }
  }

  /**
   * `k` missing-module failures followed by a clean run within the
   * ceiling: the clean run's output is returned after `k` installs.
   */
  lemma RecoversAfterInstalls<C>(env: SandboxEnv<C>, code: C, k: nat, maxAttempts: int)
    requires env.createError.None? && k < maxAttempts
    requires forall j :: 0 <= j < k ==> MissingModuleError(env.respond(code, j))
    requires env.respond(code, k).error.None?
    ensures var t := ExecutionTrace(env, code, maxAttempts);
      t.output == SuccessOutput(env.respond(code, k)) && t.runs == k + 1 && |t.installs| == k
  {
    var stepAt := Steps(env, code);
    forall j | 0 <= j < k ensures stepAt(j).Retry? {
      assert MissingModuleError(env.respond(code, j));
    }
    ReturnAfterRetries(stepAt, 0, k, maxAttempts, "");
  }

  /** A failure that is not a missing module is returned at once, with no retry. */
  lemma OtherErrorReturnedAtOnce<C>(env: SandboxEnv<C>, code: C, maxAttempts: int)
    requires env.createError.None? && maxAttempts > 0
    requires env.respond(code, 0).error.Some? && !MissingModuleError(env.respond(code, 0))
    ensures ExecutionTrace(env, code, maxAttempts)
         == Trace(ErrorText(env.respond(code, 0).error.value), 1, [])
  {
  }

  /** Only missing modules until the ceiling: every attempt is used and the message quotes the last traceback. */
  lemma ExhaustedAfterMaxAttempts<C>(env: SandboxEnv<C>, code: C, maxAttempts: int)
    requires env.createError.None? && maxAttempts > 0
    requires forall j :: 0 <= j < maxAttempts ==> MissingModuleError(env.respond(code, j))
    ensures var t := ExecutionTrace(env, code, maxAttempts);
      && t.runs == maxAttempts && |t.installs| == maxAttempts
      && t.output == ErrorText(MaxAttemptsDetail(maxAttempts, Traceback(env.respond(code, maxAttempts - 1))))
  {
    var stepAt := Steps(env, code);
    forall j | 0 <= j < maxAttempts ensures stepAt(j).Retry? {
      assert MissingModuleError(env.respond(code, j));
    }
    RetriesUseEveryAttempt(stepAt, 0, maxAttempts, "");
    RetriesQuoteLastError(stepAt, 0, maxAttempts, "");
    assert MissingModuleError(env.respond(code, maxAttempts - 1));
  }

  /** With no attempts allowed nothing runs and the unbound-variable error is returned. */
  lemma NoAttemptsNoRun<C>(env: SandboxEnv<C>, code: C, maxAttempts: int)
    requires env.createError.None? && maxAttempts <= 0
    ensures ExecutionTrace(env, code, maxAttempts) == Trace(ErrorText(UnboundExecution), 0, [])
  {
  }
}
