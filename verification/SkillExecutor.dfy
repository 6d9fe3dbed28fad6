/**
 Skills: steps run in order, each stopping, continuing or retrying on failure, some running other skills.

 Templates, conditions, tools, parameters and the clock are a World of arbitrary answers, asked in turn.
 */
module SkillExecutor {

  import opened Wrappers

  type Params = map<string, string>

  /** `text` stands for the condition and the arguments before rendering. */
  datatype SkillStep = SkillStep(name: string, tool: string, text: string, onError: string, retries: int)
  datatype Skill = Skill(name: string, steps: seq<SkillStep>)

  datatype Error =
    | NotFound(name: string) | BadParameters | Cancelled
    | StepFailed(step: nat, cause: Error) | RetriesFailed(step: nat, retries: int, cause: Error)
    | NoError | BadCondition | BadArgs | UnknownTool | NameMissing | ToolFailed(message: string)

  datatype StepResult = StepResult(stepName: string, tool: string, success: bool, output: string, error: Error)
  datatype SkillResult = SkillResult(skillName: string, success: bool, steps: seq<StepResult>, error: Error)

  /** The executor's two fields. */
  datatype Env = Env(variables: map<string, string>, stepOutputs: map<string, string>)

  datatype Args = Args(text: string, name: Option<string>, params: Params)
  datatype Prepared = ConditionFails | ConditionNotMet | ArgsFail | Ready(args: Args)
  datatype Outcome = Outcome(success: bool, output: string, error: Error)
  datatype Init = Init(ok: bool, variables: map<string, string>)

  datatype World = World(
    cancelled: nat -> bool,
    init: (Skill, Params) -> Init,
    prepare: (nat, SkillStep, Env) -> Prepared,
    run: (nat, SkillStep, Args) -> Outcome)

  /** One call of executeStep: for which step, of a skill running at which rank. */
  datatype Call = Call(rank: nat, step: nat)

  /** `tick` counts the questions put to the world. */
  datatype State = State(env: Env, tick: nat, calls: seq<Call>)

  datatype Setting = Setting(world: World, registry: map<string, Skill>, rank: string -> nat)

  // ---------------------------------------------------------------------------
  // Nesting has a rank: a skill only runs skills of lower rank.
  // ---------------------------------------------------------------------------

  ghost predicate StepBelow(c: Setting, step: SkillStep, r: nat) {
    step.tool == "skill" ==>
      forall tick, env ::
        var p := c.world.prepare(tick, step, env);
        p.Ready? && p.args.name.Some? && p.args.name.value in c.registry ==> c.rank(p.args.name.value) < r
  }

  ghost predicate SkillBelow(c: Setting, skill: Skill, r: nat) {
    forall step <- skill.steps :: StepBelow(c, step, r)
  }

  ghost predicate Ranked(c: Setting) {
    forall n <- c.registry.Keys :: SkillBelow(c, c.registry[n], c.rank(n))
  }

  // ---------------------------------------------------------------------------
  // What a run computes.
  // ---------------------------------------------------------------------------

  datatype Run = Run(result: SkillResult, error: Option<Error>, st: State)
  datatype StepRun = StepRun(result: StepResult, st: State)
  datatype StepsRun = StepsRun(results: seq<StepResult>, error: Option<Error>, st: State)

  function Ask(st: State): State {
    st.(tick := st.tick + 1)
  }

  function Joined(results: seq<StepResult>): string {
    if results == [] then ""
    else
      var front, last := Joined(results[..|results| - 1]), results[|results| - 1].output;
      if last == "" then front else if front == "" then last else front + "\n" + last
  }

  predicate IsToolName(tool: string) {
    tool == "local_shell" || tool == "remote_shell" || tool == "docker"
  }

  ghost function NestedEffect(c: Setting, args: Args, r: nat, st: State): (StepResult, State)
    requires Ranked(c)
    requires args.name.Some? && args.name.value in c.registry ==> c.rank(args.name.value) < r
    decreases r, 0, 0
  {
    match args.name
    case None => (StepResult("", "", false, "", NameMissing), st)
    case Some(n) =>
      if n !in c.registry then (StepResult("", "", false, "", NotFound(n)), st)
      else
        var run := SkillEffect(c, c.registry[n], args.params, c.rank(n), st);
        match run.error
        case Some(e) => (StepResult("", "", false, "", e), run.st)
        case None => (StepResult("", "", true, Joined(run.result.steps), NoError), run.st)
  }

  ghost function StepEffect(c: Setting, step: SkillStep, i: nat, r: nat, st: State): StepRun
    requires Ranked(c) && StepBelow(c, step, r)
    decreases r, 1, 0
  {
    var prepared := c.world.prepare(st.tick, step, st.env);
    var asked := Ask(st).(calls := st.calls + [Call(r, i)]);
    match prepared
    case ConditionFails => StepRun(StepResult(step.name, step.tool, false, "", BadCondition), asked)
    case ConditionNotMet =>
      StepRun(StepResult(step.name, step.tool, true, "skipped: condition not met", NoError), asked)
    case ArgsFail => StepRun(StepResult(step.name, step.tool, false, "", BadArgs), asked)
    case Ready(args) =>
      if step.tool == "skill" then
        var (result, after) := NestedEffect(c, args, r, asked);
        StepRun(result.(stepName := step.name, tool := step.tool), after)
      else if IsToolName(step.tool) then
        var o := c.world.run(asked.tick, step, args);
        StepRun(StepResult(step.name, step.tool, o.success, o.output, o.error), Ask(asked))
      else
        StepRun(StepResult(step.name, step.tool, false, "", UnknownTool), asked)
  }

  /** The result of the first of k further attempts that succeeds. */
  ghost function RetryEffect(c: Setting, step: SkillStep, i: nat, r: nat, k: int, st: State): (Option<StepResult>,
          State)
    requires Ranked(c) && StepBelow(c, step, r)
    decreases r, 2, k
  {
    if k <= 0 then (None, st)
    else
      var again := StepEffect(c, step, i, r, st);
      if again.result.success then (Some(again.result), again.st) else RetryEffect(c, step, i, r, k - 1, again.st)
  }

  function SaveEnv(env: Env, step: SkillStep, output: string): Env {
    if step.name == "" then env else env.(stepOutputs := env.stepOutputs[step.name := output])
  }

  function Save(st: State, step: SkillStep, output: string): State {
    st.(env := SaveEnv(st.env, step, output))
  }

  /** One step with its retries: what is recorded, and whether the skill stops there. */
  ghost function HandledEffect(c: Setting, step: SkillStep, i: nat, r: nat, st: State): (StepRun, Option<Error>)
    requires Ranked(c) && StepBelow(c, step, r)
    decreases r, 3, 0
  {
    var first := StepEffect(c, step, i, r, st);
    var saved := Save(first.st, step, first.result.output);
    if first.result.success || step.onError == "continue" then (StepRun(first.result, saved), None)
    else if step.onError == "retry" then
      var (retried, after) := RetryEffect(c, step, i, r, step.retries, saved);
      match retried
      case Some(result) => (StepRun(result, Save(after, step, result.output)), None)
      case None => (StepRun(first.result, after), Some(RetriesFailed(i + 1, step.retries, first.result.error)))
    else (StepRun(first.result, saved), Some(StepFailed(i + 1, first.result.error)))
  }

  /** The first n steps. */
  ghost function StepsEffect(c: Setting, skill: Skill, n: nat, r: nat, st: State): StepsRun
    requires Ranked(c) && SkillBelow(c, skill, r) && n <= |skill.steps|
    decreases r, 4, n
  {
    if n == 0 then StepsRun([], None, st)
    else
      var before := StepsEffect(c, skill, n - 1, r, st);
      if before.error.Some? then before
      else if c.world.cancelled(before.st.tick) then StepsRun(before.results, Some(Cancelled), Ask(before.st))
      else
        var (step, error) := HandledEffect(c, skill.steps[n - 1], n - 1, r, Ask(before.st));
        StepsRun(before.results + [step.result], error, step.st)
  }

  ghost function SkillEffect(c: Setting, skill: Skill, params: Params, r: nat, st: State): Run
    requires Ranked(c) && SkillBelow(c, skill, r)
    decreases r, 5, 0
  {
    var init := c.world.init(skill, params);
    var start := st.(env := Env(init.variables, map[]));
    if !init.ok then
      Run(SkillResult(skill.name, false, [], BadParameters), Some(BadParameters), start)
    else
      var all := StepsEffect(c, skill, |skill.steps|, r, start);
      match all.error
      case Some(e) => Run(SkillResult(skill.name, false, all.results, e), Some(e), all.st)
      case None => Run(SkillResult(skill.name, true, all.results, NoError), None, all.st)
  }

  // ---------------------------------------------------------------------------
  // What the recorded results say.
  // ---------------------------------------------------------------------------

  predicate Fatal(step: SkillStep, result: StepResult) {
    !result.success && step.onError != "continue"
  }

  predicate NoneFatal(steps: seq<SkillStep>, results: seq<StepResult>, n: nat)
    requires n <= |steps| && n <= |results|
  {
    forall k :: 0 <= k < n ==> !Fatal(steps[k], results[k])
  }

  predicate IsNamedAfter(result: StepResult, step: SkillStep) {
    result.stepName == step.name && result.tool == step.tool
  }

  lemma {:induction false} StepIsNamed(c: Setting, step: SkillStep, i: nat, r: nat, st: State)
    requires Ranked(c) && StepBelow(c, step, r)
    ensures IsNamedAfter(StepEffect(c, step, i, r, st).result, step)
  {
  }

  lemma {:induction false} RetryRecordsSuccess(c: Setting, step: SkillStep, i: nat, r: nat, k: int, st: State)
    requires Ranked(c) && StepBelow(c, step, r)
    ensures var retried := RetryEffect(c, step, i, r, k, st).0;
      retried.Some? ==> retried.value.success && IsNamedAfter(retried.value, step)
    decreases k
  {
    if k <= 0 {
    } else {
      StepIsNamed(c, step, i, r, st);
      RetryRecordsSuccess(c, step, i, r, k - 1, StepEffect(c, step, i, r, st).st);
    }
  }

  function StopError(step: SkillStep, i: nat, result: StepResult): Error {
    if step.onError == "retry" then RetriesFailed(i + 1, step.retries, result.error)
    else StepFailed(i + 1, result.error)
  }

  /**
   A skill stops at a step exactly when the recorded result is fatal for it, and reports that result. A
   recorded failure is that of the first attempt.
   */
  lemma {:induction false} StopsIfFatal(c: Setting, step: SkillStep, i: nat, r: nat, st: State)
    requires Ranked(c) && StepBelow(c, step, r)
    ensures IsNamedAfter(HandledEffect(c, step, i, r, st).0.result, step)
    ensures var recorded := HandledEffect(c, step, i, r, st).0.result;
      !recorded.success ==> recorded == StepEffect(c, step, i, r, st).result
    ensures var handled := HandledEffect(c, step, i, r, st);
      handled.1 == if Fatal(step, handled.0.result) then Some(StopError(step, i, handled.0.result)) else None
  {
    var first := StepEffect(c, step, i, r, st);
    var saved := Save(first.st, step, first.result.output);
    StepIsNamed(c, step, i, r, st);
    RetryRecordsSuccess(c, step, i, r, step.retries, saved);
    var retry := RetryEffect(c, step, i, r, step.retries, saved);
    if !first.result.success && step.onError == "retry" && retry.0.Some? {
      assert HandledEffect(c, step, i, r, st).0.result == retry.0.value;
    }
  }

  /** How n steps ended: all recorded and none fatal, cancelled in between, or stopped at a fatal one. */
  predicate Explained(steps: seq<SkillStep>, n: nat, results: seq<StepResult>, error: Option<Error>)
    requires n <= |steps|
  {
    var m := |results|;
    && m <= n
    && (forall k :: 0 <= k < m ==> IsNamedAfter(results[k], steps[k]))
    && match error
       case None => m == n && NoneFatal(steps, results, m)
       case Some(Cancelled) => m < n && NoneFatal(steps, results, m)
       case Some(e) => m > 0 && NoneFatal(steps, results, m - 1) && Fatal(steps[m - 1], results[m - 1])
                       && e == StopError(steps[m - 1], m - 1, results[m - 1])
  }

  lemma {:induction false} ExplainStep(steps: seq<SkillStep>, n: nat, results: seq<StepResult>, result: StepResult,
          error: Option<Error>)
    requires n < |steps| && Explained(steps, n, results, None) && IsNamedAfter(result, steps[n])
    requires error == if Fatal(steps[n], result) then Some(StopError(steps[n], n, result)) else None
    ensures Explained(steps, n + 1, results + [result], error)
  {
  }

  lemma {:induction false} ResultsMeaning(c: Setting, skill: Skill, n: nat, r: nat, st: State)
    requires Ranked(c) && SkillBelow(c, skill, r) && n <= |skill.steps|
    ensures Explained(skill.steps, n, StepsEffect(c, skill, n, r, st).results, StepsEffect(c, skill, n, r, st).error)
  {
    if n == 0 {
    } else {
      ResultsMeaning(c, skill, n - 1, r, st);
      var before := StepsEffect(c, skill, n - 1, r, st);
      if before.error.None? && !c.world.cancelled(before.st.tick) {
        var step := skill.steps[n - 1];
        var handled := HandledEffect(c, step, n - 1, r, Ask(before.st));
        StopsIfFatal(c, step, n - 1, r, Ask(before.st));
        ExplainStep(skill.steps, n - 1, before.results, handled.0.result, handled.1);
      }
    }
  }

  /**
   A run succeeds exactly when its parameters are accepted and every step has a recorded result that
   succeeded or may be ignored. A failing run records the steps up to the first fatal one, if there is one.
   */
  lemma {:induction false} SucceedsIffNoneFatal(c: Setting, skill: Skill, params: Params, r: nat, st: State)
    requires Ranked(c) && SkillBelow(c, skill, r)
    ensures var run := SkillEffect(c, skill, params, r, st);
      var m := |run.result.steps|;
      && m <= |skill.steps|
      && (run.result.success <==> run.error == None)
      && (run.result.success <==>
            c.world.init(skill, params).ok && m == |skill.steps| && NoneFatal(skill.steps, run.result.steps, m))
      && (m > 0 ==> NoneFatal(skill.steps, run.result.steps, m - 1))
      && (!run.result.success && m > 0 && !Fatal(skill.steps[m - 1], run.result.steps[m - 1]) ==>
            run.error == Some(Cancelled))
  {
    var init := c.world.init(skill, params);
    ResultsMeaning(c, skill, |skill.steps|, r, st.(env := Env(init.variables, map[])));
  }

  // ---------------------------------------------------------------------------
  // How often a step runs.
  // ---------------------------------------------------------------------------

  function Times(st: State, x: Call): nat {
    multiset(st.calls)[x]
  }

  lemma {:induction false} TimesAfterCall(st: State, y: Call, x: Call)
    ensures Times(Ask(st).(calls := st.calls + [y]), x) == Times(st, x) + if x == y then 1 else 0
  {
  }

  lemma {:induction false} NestedCalls(c: Setting, args: Args, r: nat, st: State, x: Call)
    requires Ranked(c) && x.rank >= r
    requires args.name.Some? && args.name.value in c.registry ==> c.rank(args.name.value) < r
    ensures Times(NestedEffect(c, args, r, st).1, x) == Times(st, x)
    decreases r, 0, 0
  {
    if args.name.Some? && args.name.value in c.registry {
      var n := args.name.value;
      SkillCalls(c, c.registry[n], args.params, c.rank(n), st, x);
    }
  }

  /** One call of executeStep is one call, whatever the step runs below its own rank. */
  lemma {:induction false} StepCalls(c: Setting, step: SkillStep, i: nat, r: nat, st: State, x: Call)
    requires Ranked(c) && StepBelow(c, step, r) && x.rank >= r
    ensures Times(StepEffect(c, step, i, r, st).st, x) == Times(st, x) + if x == Call(r, i) then 1 else 0
    decreases r, 1, 0
  {
    var prepared := c.world.prepare(st.tick, step, st.env);
    TimesAfterCall(st, Call(r, i), x);
    if prepared.Ready? && step.tool == "skill" {
      NestedCalls(c, prepared.args, r, Ask(st).(calls := st.calls + [Call(r, i)]), x);
    }
  }

  lemma {:induction false} RetryCalls(c: Setting, step: SkillStep, i: nat, r: nat, k: int, st: State, x: Call)
    requires Ranked(c) && StepBelow(c, step, r) && x.rank >= r
    ensures var after := RetryEffect(c, step, i, r, k, st).1;
      && (x != Call(r, i) ==> Times(after, x) == Times(st, x))
      && Times(st, x) <= Times(after, x) <= Times(st, x) + if k < 0 then 0 else k
    decreases r, 2, k
  {
    if k <= 0 {
    } else {
      StepCalls(c, step, i, r, st, x);
      RetryCalls(c, step, i, r, k - 1, StepEffect(c, step, i, r, st).st, x);
    }
  }

  function MaxRuns(step: SkillStep): nat {
    if step.onError == "retry" && step.retries > 0 then 1 + step.retries else 1
  }

  lemma {:induction false} HandleCalls(c: Setting, step: SkillStep, i: nat, r: nat, st: State, x: Call)
    requires Ranked(c) && StepBelow(c, step, r) && x.rank >= r
    ensures var after := HandledEffect(c, step, i, r, st).0.st;
      && (x != Call(r, i) ==> Times(after, x) == Times(st, x))
      && (x == Call(r, i) ==> Times(st, x) + 1 <= Times(after, x) <= Times(st, x) + MaxRuns(step))
    decreases r, 3, 0
  {
    var first := StepEffect(c, step, i, r, st);
    StepCalls(c, step, i, r, st, x);
    RetryCalls(c, step, i, r, step.retries, Save(first.st, step, first.result.output), x);
  }

  lemma {:induction false} HigherCalls(c: Setting, skill: Skill, n: nat, r: nat, st: State, x: Call)
    requires Ranked(c) && SkillBelow(c, skill, r) && n <= |skill.steps| && x.rank >= r
    requires x.rank == r ==> x.step >= n
    ensures Times(StepsEffect(c, skill, n, r, st).st, x) == Times(st, x)
    decreases r, 4, n
  {
    if n == 0 {
    } else {
      HigherCalls(c, skill, n - 1, r, st, x);
      var before := StepsEffect(c, skill, n - 1, r, st);
      HandleCalls(c, skill.steps[n - 1], n - 1, r, Ask(before.st), x);
    }
  }

  lemma {:induction false} SkillCalls(c: Setting, skill: Skill, params: Params, r: nat, st: State, x: Call)
    requires Ranked(c) && SkillBelow(c, skill, r) && x.rank > r
    ensures Times(SkillEffect(c, skill, params, r, st).st, x) == Times(st, x)
    decreases r, 5, 0
  {
    var init := c.world.init(skill, params);
    HigherCalls(c, skill, |skill.steps|, r, st.(env := Env(init.variables, map[])), x);
  }

  predicate RanAsRecorded(skill: Skill, j: nat, recorded: nat, before: nat, after: nat)
    requires j < |skill.steps|
  {
    if j < recorded then before + 1 <= after <= before + MaxRuns(skill.steps[j]) else after == before
  }

  /** A recorded step ran once, or more often only under retry and at most 1+Retries times; no other step ran. */
  lemma {:induction false} RunsPerStep(c: Setting, skill: Skill, n: nat, r: nat, st: State, j: nat)
    requires Ranked(c) && SkillBelow(c, skill, r) && j < n <= |skill.steps|
    ensures var run := StepsEffect(c, skill, n, r, st);
      RanAsRecorded(skill, j, |run.results|, Times(st, Call(r, j)), Times(run.st, Call(r, j)))
  {
    var before, x := StepsEffect(c, skill, n - 1, r, st), Call(r, j);
    ResultsMeaning(c, skill, n - 1, r, st);
    if j < n - 1 {
      RunsPerStep(c, skill, n - 1, r, st, j);
    } else {
      HigherCalls(c, skill, n - 1, r, st, x);
    }
    if before.error.None? && !c.world.cancelled(before.st.tick) {
      HandleCalls(c, skill.steps[n - 1], n - 1, r, Ask(before.st), x);
      AddRuns(skill, j, |before.results|, Times(st, x), Times(before.st, x),
              Times(HandledEffect(c, skill.steps[n - 1], n - 1, r, Ask(before.st)).0.st, x));
    }
  }

  lemma {:induction false} AddRuns(skill: Skill, j: nat, recorded: nat, before: nat, middle: nat, after: nat)
    requires recorded < |skill.steps| && j <= recorded
    requires RanAsRecorded(skill, j, recorded, before, middle)
    requires RanAsRecorded(skill, j, if j == recorded then recorded + 1 else 0, middle, after)
    ensures RanAsRecorded(skill, j, recorded + 1, before, after)
  {
  }

  // ---------------------------------------------------------------------------
  // What later steps can read.
  // ---------------------------------------------------------------------------

  /** For each name, the output of the last result so named, or else what was there before. */
  function Overlaid(before: map<string, string>, results: seq<StepResult>): map<string, string> {
    if results == [] then before
    else
      var front, last := Overlaid(before, results[..|results| - 1]), results[|results| - 1];
      if last.stepName == "" then front else front[last.stepName := last.output]
  }

  function LatestOutputs(results: seq<StepResult>): map<string, string> {
    Overlaid(map[], results)
  }

  predicate IsLastNamed(results: seq<StepResult>, name: string, k: int) {
    && 0 <= k < |results| && results[k].stepName == name
    && forall j :: k < j < |results| ==> results[j].stepName != name
  }

  lemma {:induction false} LatestOutputsIsLast(results: seq<StepResult>, name: string, k: int)
    requires name != "" && IsLastNamed(results, name, k)
    ensures name in LatestOutputs(results) && LatestOutputs(results)[name] == results[k].output
  {
    var front := results[..|results| - 1];
    if k < |front| {
      assert forall j :: 0 <= j < |front| ==> front[j] == results[j];
      assert results[|front|].stepName != name;
      LatestOutputsIsLast(front, name, k);
    }
  }

  lemma {:induction false} RetryKeepsEnv(c: Setting, step: SkillStep, i: nat, r: nat, k: int, st: State)
    requires Ranked(c) && StepBelow(c, step, r) && step.tool != "skill"
    ensures RetryEffect(c, step, i, r, k, st).1.env == st.env
    decreases k
  {
    if k <= 0 {
    } else {
      RetryKeepsEnv(c, step, i, r, k - 1, StepEffect(c, step, i, r, st).st);
    }
  }

  lemma {:induction false} HandleSaves(c: Setting, step: SkillStep, i: nat, r: nat, st: State)
    requires Ranked(c) && StepBelow(c, step, r) && step.tool != "skill"
    ensures var run := HandledEffect(c, step, i, r, st).0;
      run.st.env == Save(st, step, run.result.output).env
  {
    var first := StepEffect(c, step, i, r, st);
    RetryKeepsEnv(c, step, i, r, step.retries, Save(first.st, step, first.result.output));
  }

  predicate RunsNoSkill(skill: Skill) {
    forall step <- skill.steps :: step.tool != "skill"
  }

  lemma {:induction false} OutputsAreLatest(c: Setting, skill: Skill, n: nat, r: nat, st: State)
    requires Ranked(c) && SkillBelow(c, skill, r) && n <= |skill.steps|
    requires RunsNoSkill(skill) && st.env.stepOutputs == map[]
    ensures var run := StepsEffect(c, skill, n, r, st);
      run.st.env == Env(st.env.variables, LatestOutputs(run.results))
  {
    if n == 0 {
    } else {
      OutputsAreLatest(c, skill, n - 1, r, st);
      var before := StepsEffect(c, skill, n - 1, r, st);
      if before.error.None? && !c.world.cancelled(before.st.tick) {
        var step := skill.steps[n - 1];
        StopsIfFatal(c, step, n - 1, r, Ask(before.st));
        HandleSaves(c, step, n - 1, r, Ask(before.st));
        var result := HandledEffect(c, step, n - 1, r, Ask(before.st)).0.result;
        assert (before.results + [result])[..|before.results|] == before.results;
      }
    }
  }

  /** Without nested skills, variables stay as initialised and outputs are the latest recorded under each name. */
  lemma {:induction false} EnvAfterRun(c: Setting, skill: Skill, params: Params, r: nat, st: State)
    requires Ranked(c) && SkillBelow(c, skill, r) && RunsNoSkill(skill)
    ensures var run := SkillEffect(c, skill, params, r, st);
      run.st.env == Env(c.world.init(skill, params).variables, LatestOutputs(run.result.steps))
  {
    var init := c.world.init(skill, params);
    OutputsAreLatest(c, skill, |skill.steps|, r, st.(env := Env(init.variables, map[])));
  }

  /** A run starts from nothing: what the executor held before makes no difference. */
  lemma {:induction false} RunIgnoresEnv(c: Setting, skill: Skill, params: Params, r: nat, st: State, other: Env)
    requires Ranked(c) && SkillBelow(c, skill, r)
    ensures SkillEffect(c, skill, params, r, st) == SkillEffect(c, skill, params, r, st.(env := other))
  {
  }

  // ---------------------------------------------------------------------------
  // With nested skills, at any depth.
  // ---------------------------------------------------------------------------

  /** This attempt at the step enters a registered skill. */
  predicate Enters(c: Setting, step: SkillStep, st: State) {
    var p := c.world.prepare(st.tick, step, st.env);
    step.tool == "skill" && p.Ready? && p.args.name.Some? && p.args.name.value in c.registry
  }

  /** What the nested run leaves, started with no regard to what the executor held. */
  ghost function NestedEnv(c: Setting, step: SkillStep, i: nat, r: nat, st: State): Env
    requires Ranked(c) && StepBelow(c, step, r) && Enters(c, step, st)
  {
    var args := c.world.prepare(st.tick, step, st.env).args;
    var n := args.name.value;
    var asked := State(Env(map[], map[]), st.tick + 1, st.calls + [Call(r, i)]);
    SkillEffect(c, c.registry[n], args.params, c.rank(n), asked).st.env
  }

  /**
   A step that enters a skill leaves that skill's variables and outputs in place of its own skill's, whatever
   those were; any other step leaves both as they are.
   */
  lemma {:induction false} NestedReplacesEnv(c: Setting, step: SkillStep, i: nat, r: nat, st: State)
    requires Ranked(c) && StepBelow(c, step, r)
    ensures StepEffect(c, step, i, r, st).st.env == if Enters(c, step, st) then NestedEnv(c, step, i, r, st) else st.env
  {
    if Enters(c, step, st) {
      var args := c.world.prepare(st.tick, step, st.env).args;
      var n, asked := args.name.value, Ask(st).(calls := st.calls + [Call(r, i)]);
      RunIgnoresEnv(c, c.registry[n], args.params, c.rank(n), asked, Env(map[], map[]));
      assert asked.(env := Env(map[], map[])) == State(Env(map[], map[]), st.tick + 1, st.calls + [Call(r, i)]);
    }
  }

  /** At depth one: only names of the nested skill's steps are left. */
  lemma {:induction false} NestedOutputs(c: Setting, step: SkillStep, i: nat, r: nat, st: State, args: Args)
    requires Ranked(c) && StepBelow(c, step, r) && step.tool == "skill"
    requires c.world.prepare(st.tick, step, st.env) == Ready(args)
    requires args.name.Some? && args.name.value in c.registry && RunsNoSkill(c.registry[args.name.value])
    ensures var nested := c.registry[args.name.value];
      var env := StepEffect(c, step, i, r, st).st.env;
      && env.variables == c.world.init(nested, args.params).variables
      && forall name <- env.stepOutputs :: exists s <- nested.steps :: s.name == name
  {
    var n := args.name.value;
    var nested, asked := c.registry[n], Ask(st).(calls := st.calls + [Call(r, i)]);
    EnvAfterRun(c, nested, args.params, c.rank(n), asked);
    var results := SkillEffect(c, nested, args.params, c.rank(n), asked).result.steps;
    var init := c.world.init(nested, args.params);
    ResultsMeaning(c, nested, |nested.steps|, c.rank(n), asked.(env := Env(init.variables, map[])));
    forall name <- LatestOutputs(results)
      ensures exists s <- nested.steps :: s.name == name
    {
      OutputHasStep(results, name);
      var k :| 0 <= k < |results| && results[k].stepName == name;
      assert nested.steps[k] in nested.steps;
    }
  }

  lemma {:induction false} OutputHasStep(results: seq<StepResult>, name: string)
    requires name in LatestOutputs(results)
    ensures exists k :: 0 <= k < |results| && results[k].stepName == name
  {
    var front, last := results[..|results| - 1], results[|results| - 1];
    if last.stepName != name {
      OutputHasStep(front, name);
      var k :| 0 <= k < |front| && front[k].stepName == name;
      assert results[k].stepName == name;
    } else {
      assert results[|results| - 1].stepName == name;
    }
  }

  /** What the last attempt that entered a skill left, or else `left`. */
  ghost function RetryLeft(c: Setting, step: SkillStep, i: nat, r: nat, k: int, st: State, left: Env): Env
    requires Ranked(c) && StepBelow(c, step, r)
    decreases k
  {
    if k <= 0 then left
    else
      var again := StepEffect(c, step, i, r, st);
      var now := if Enters(c, step, st) then NestedEnv(c, step, i, r, st) else left;
      if again.result.success then now else RetryLeft(c, step, i, r, k - 1, again.st, now)
  }

  predicate Failing(step: SkillStep, result: StepResult) {
    !result.success && step.onError == "retry"
  }

  /** The same for a step with all its attempts. */
  ghost function StepLeft(c: Setting, step: SkillStep, i: nat, r: nat, st: State): Env
    requires Ranked(c) && StepBelow(c, step, r)
  {
    var first := StepEffect(c, step, i, r, st);
    var left := if Enters(c, step, st) then NestedEnv(c, step, i, r, st) else st.env;
    if Failing(step, first.result)
    then RetryLeft(c, step, i, r, step.retries, Save(first.st, step, first.result.output), left) else left
  }

  lemma {:induction false} SaveTwice(env: Env, step: SkillStep, first: string, second: string)
    ensures SaveEnv(SaveEnv(env, step, first), step, second) == SaveEnv(env, step, second)
  {
    var m := env.stepOutputs;
    assert m[step.name := first][step.name := second] == m[step.name := second];
  }

  /** The executor holds `left`, perhaps with an output of the step saved over it. */
  ghost predicate HoldsOver(env: Env, left: Env, step: SkillStep) {
    env == left || exists output :: env == SaveEnv(left, step, output)
  }

  lemma {:induction false} SaveOver(env: Env, left: Env, step: SkillStep, output: string)
    requires HoldsOver(env, left, step)
    ensures SaveEnv(env, step, output) == SaveEnv(left, step, output)
  {
    if env != left {
      var earlier :| env == SaveEnv(left, step, earlier);
      SaveTwice(left, step, earlier, output);
    }
  }

  lemma {:induction false} RetryHolds(c: Setting, step: SkillStep, i: nat, r: nat, k: int, st: State, left: Env)
    requires Ranked(c) && StepBelow(c, step, r) && HoldsOver(st.env, left, step)
    ensures HoldsOver(RetryEffect(c, step, i, r, k, st).1.env, RetryLeft(c, step, i, r, k, st, left), step)
    decreases k
  {
    if k <= 0 {
    } else {
      var again := StepEffect(c, step, i, r, st);
      var now := if Enters(c, step, st) then NestedEnv(c, step, i, r, st) else left;
      NestedReplacesEnv(c, step, i, r, st);
      if !again.result.success {
        RetryHolds(c, step, i, r, k - 1, again.st, now);
      }
    }
  }

  /** Whether some attempt of a step entered a skill. */
  ghost predicate RetryEnters(c: Setting, step: SkillStep, i: nat, r: nat, k: int, st: State)
    requires Ranked(c) && StepBelow(c, step, r)
    decreases k
  {
    k > 0 &&
    var again := StepEffect(c, step, i, r, st);
    (Enters(c, step, st) || (!again.result.success && RetryEnters(c, step, i, r, k - 1, again.st)))
  }

  ghost predicate StepEnters(c: Setting, step: SkillStep, i: nat, r: nat, st: State)
    requires Ranked(c) && StepBelow(c, step, r)
  {
    var first := StepEffect(c, step, i, r, st);
    || Enters(c, step, st)
    || (Failing(step, first.result)
        && RetryEnters(c, step, i, r, step.retries, Save(first.st, step, first.result.output)))
  }

  lemma {:induction false} RetryKeepsLeft(c: Setting, step: SkillStep, i: nat, r: nat, k: int, st: State, left: Env)
    requires Ranked(c) && StepBelow(c, step, r) && !RetryEnters(c, step, i, r, k, st)
    ensures RetryLeft(c, step, i, r, k, st, left) == left
    decreases k
  {
    if k > 0 && !StepEffect(c, step, i, r, st).result.success {
      RetryKeepsLeft(c, step, i, r, k - 1, StepEffect(c, step, i, r, st).st, left);
    }
  }

  lemma {:induction false} NothingEntered(c: Setting, step: SkillStep, i: nat, r: nat, st: State)
    requires Ranked(c) && StepBelow(c, step, r) && !StepEnters(c, step, i, r, st)
    ensures StepLeft(c, step, i, r, st) == st.env
  {
    var first := StepEffect(c, step, i, r, st);
    if Failing(step, first.result) {
      RetryKeepsLeft(c, step, i, r, step.retries, Save(first.st, step, first.result.output), st.env);
    }
  }

  /** If no further attempt succeeds, what the last one to enter a skill left stays as it is. */
  lemma {:induction false} RetriesLeave(c: Setting, step: SkillStep, i: nat, r: nat, k: int, st: State, left: Env)
    requires Ranked(c) && StepBelow(c, step, r) && RetryEffect(c, step, i, r, k, st).0.None?
    ensures RetryEffect(c, step, i, r, k, st).1.env
         == if RetryEnters(c, step, i, r, k, st) then RetryLeft(c, step, i, r, k, st, left) else st.env
    decreases k
  {
    if k <= 0 {
    } else {
      var again := StepEffect(c, step, i, r, st);
      var now := if Enters(c, step, st) then NestedEnv(c, step, i, r, st) else left;
      NestedReplacesEnv(c, step, i, r, st);
      RetriesLeave(c, step, i, r, k - 1, again.st, now);
      if !RetryEnters(c, step, i, r, k - 1, again.st) {
        RetryKeepsLeft(c, step, i, r, k - 1, again.st, now);
      }
    }
  }

  /** The retries were used up, and one of them entered a skill: nothing is saved after that. */
  ghost predicate EndsUnsaved(c: Setting, step: SkillStep, i: nat, r: nat, st: State)
    requires Ranked(c) && StepBelow(c, step, r)
  {
    var first := StepEffect(c, step, i, r, st);
    var saved := Save(first.st, step, first.result.output);
    && Failing(step, first.result) && RetryEffect(c, step, i, r, step.retries, saved).0.None?
    && RetryEnters(c, step, i, r, step.retries, saved)
  }

  lemma {:induction false} HandledHolds(c: Setting, step: SkillStep, i: nat, r: nat, st: State)
    requires Ranked(c) && StepBelow(c, step, r)
    ensures var run, left := HandledEffect(c, step, i, r, st).0, StepLeft(c, step, i, r, st);
      run.st.env == if EndsUnsaved(c, step, i, r, st) then left else SaveEnv(left, step, run.result.output)
  {
    var first := StepEffect(c, step, i, r, st);
    NestedReplacesEnv(c, step, i, r, st);
    if Failing(step, first.result) {
      var saved := Save(first.st, step, first.result.output);
      var retry := RetryEffect(c, step, i, r, step.retries, saved);
      var left := if Enters(c, step, st) then NestedEnv(c, step, i, r, st) else st.env;
      if retry.0.Some? {
        RetryHolds(c, step, i, r, step.retries, saved, left);
        SaveOver(retry.1.env, StepLeft(c, step, i, r, st), step, retry.0.value.output);
      } else {
        RetriesLeave(c, step, i, r, step.retries, saved, left);
        if !RetryEnters(c, step, i, r, step.retries, saved) {
          RetryKeepsLeft(c, step, i, r, step.retries, saved, left);
        }
      }
    }
  }

  ghost predicate EntersAt(c: Setting, skill: Skill, j: nat, r: nat, st: State)
    requires Ranked(c) && SkillBelow(c, skill, r) && j < |skill.steps|
  {
    var before := StepsEffect(c, skill, j, r, st);
    before.error.None? && !c.world.cancelled(before.st.tick)
    && StepEnters(c, skill.steps[j], j, r, Ask(before.st))
  }

  /** The last of the first n steps to enter a skill, counted from 1; 0 if none does. */
  ghost function LastEntering(c: Setting, skill: Skill, n: nat, r: nat, st: State): (m: nat)
    requires Ranked(c) && SkillBelow(c, skill, r) && n <= |skill.steps|
    ensures m <= n
  {
    if n == 0 then 0 else if EntersAt(c, skill, n - 1, r, st) then n else LastEntering(c, skill, n - 1, r, st)
  }

  ghost function LeftAt(c: Setting, skill: Skill, j: nat, r: nat, st: State): Env
    requires Ranked(c) && SkillBelow(c, skill, r) && j < |skill.steps|
  {
    StepLeft(c, skill.steps[j], j, r, Ask(StepsEffect(c, skill, j, r, st).st))
  }

  /** What that step left, or the initial state. */
  ghost function Base(c: Setting, skill: Skill, n: nat, r: nat, st: State): Env
    requires Ranked(c) && SkillBelow(c, skill, r) && n <= |skill.steps|
  {
    if n == 0 then st.env
    else if EntersAt(c, skill, n - 1, r, st) then LeftAt(c, skill, n - 1, r, st)
    else Base(c, skill, n - 1, r, st)
  }

  lemma {:induction false} BaseIsLeftByLast(c: Setting, skill: Skill, n: nat, r: nat, st: State)
    requires Ranked(c) && SkillBelow(c, skill, r) && n <= |skill.steps|
    ensures var m := LastEntering(c, skill, n, r, st);
      Base(c, skill, n, r, st) == if m == 0 then st.env else LeftAt(c, skill, m - 1, r, st)
  {
    if n == 0 {
    } else if !EntersAt(c, skill, n - 1, r, st) {
      BaseIsLeftByLast(c, skill, n - 1, r, st);
    }
  }

  /** Of the first n steps, LastEntering enters a skill and no step j from there on does. */
  lemma {:induction false} LastEnteringIsLast(c: Setting, skill: Skill, n: nat, r: nat, st: State, j: nat)
    requires Ranked(c) && SkillBelow(c, skill, r) && j < n <= |skill.steps|
    ensures var m := LastEntering(c, skill, n, r, st);
      && (m > 0 ==> EntersAt(c, skill, m - 1, r, st))
      && (m <= j ==> !EntersAt(c, skill, j, r, st))
  {
    if !EntersAt(c, skill, n - 1, r, st) && n > 1 {
      LastEnteringIsLast(c, skill, n - 1, r, st, if j < n - 1 then j else 0);
    }
  }

  /** The results recorded from the last entering step on. */
  function FromOn(results: seq<StepResult>, m: nat): seq<StepResult> {
    var from := if m == 0 then 0 else m - 1;
    if from <= |results| then results[from..] else []
  }

  function Over(base: Env, results: seq<StepResult>): Env {
    Env(base.variables, Overlaid(base.stepOutputs, results))
  }

  lemma {:induction false} OverAppend(base: Env, results: seq<StepResult>, step: SkillStep, result: StepResult)
    requires result.stepName == step.name
    ensures Over(base, results + [result]) == SaveEnv(Over(base, results), step, result.output)
  {
    assert (results + [result])[..|results|] == results;
  }

  lemma {:induction false} FromOnAppend(results: seq<StepResult>, result: StepResult, m: nat)
    ensures m <= |results| ==> FromOn(results + [result], m) == FromOn(results, m) + [result]
    ensures FromOn(results + [result], |results| + 1) == [result]
  {
  }

  lemma {:induction false} PassingStep(base: Env, results: seq<StepResult>, m: nat, step: SkillStep, result: StepResult)
    requires m <= |results| && result.stepName == step.name
    ensures Over(base, FromOn(results + [result], m)) == SaveEnv(Over(base, FromOn(results, m)), step, result.output)
  {
    FromOnAppend(results, result, m);
    OverAppend(base, FromOn(results, m), step, result);
  }

  lemma {:induction false} EnteringStep(left: Env, results: seq<StepResult>, step: SkillStep, result: StepResult)
    requires result.stepName == step.name
    ensures Over(left, FromOn(results + [result], |results| + 1)) == SaveEnv(left, step, result.output)
  {
    FromOnAppend(results, result, 0);
    OverAppend(left, [], step, result);
    assert [] + [result] == [result];
  }

  /** The n-th step was reached, and this is what it added. */
  lemma {:induction false} StepTaken(c: Setting, skill: Skill, n: nat, r: nat, st: State) returns (result: StepResult)
    requires Ranked(c) && SkillBelow(c, skill, r) && 0 < n <= |skill.steps|
    requires var before := StepsEffect(c, skill, n - 1, r, st);
      before.error.None? && !c.world.cancelled(before.st.tick)
    ensures var before, step := StepsEffect(c, skill, n - 1, r, st), skill.steps[n - 1];
      var run, left := StepsEffect(c, skill, n, r, st), StepLeft(c, step, n - 1, r, Ask(before.st));
      && result.stepName == step.name && run.results == before.results + [result]
      && run.st.env
         == if EndsUnsaved(c, step, n - 1, r, Ask(before.st)) then left else SaveEnv(left, step, result.output)
  {
    var before, step := StepsEffect(c, skill, n - 1, r, st), skill.steps[n - 1];
    result := HandledEffect(c, step, n - 1, r, Ask(before.st)).0.result;
    HandledHolds(c, step, n - 1, r, Ask(before.st));
    StopsIfFatal(c, step, n - 1, r, Ask(before.st));
  }

  /** The run stopped at a step that used up its retries, one of which entered a skill. */
  ghost predicate StoppedUnsaved(c: Setting, skill: Skill, n: nat, r: nat, st: State)
    requires Ranked(c) && SkillBelow(c, skill, r) && n <= |skill.steps|
  {
    n > 0 &&
    var before := StepsEffect(c, skill, n - 1, r, st);
    if before.error.Some? then StoppedUnsaved(c, skill, n - 1, r, st)
    else !c.world.cancelled(before.st.tick) && EndsUnsaved(c, skill.steps[n - 1], n - 1, r, Ask(before.st))
  }

  /** What the last step that entered a skill left, overlaid with the outputs recorded from that step on. */
  ghost function LeftAndSaved(c: Setting, skill: Skill, n: nat, r: nat, st: State): Env
    requires Ranked(c) && SkillBelow(c, skill, r) && n <= |skill.steps|
  {
    Over(Base(c, skill, n, r, st), FromOn(StepsEffect(c, skill, n, r, st).results, LastEntering(c, skill, n, r, st)))
  }

  lemma {:induction false} StoppedStays(c: Setting, skill: Skill, n: nat, r: nat, st: State)
    requires Ranked(c) && SkillBelow(c, skill, r) && 0 < n <= |skill.steps|
    requires var before := StepsEffect(c, skill, n - 1, r, st);
      before.error.Some? || c.world.cancelled(before.st.tick)
    ensures StepsEffect(c, skill, n, r, st).st.env == StepsEffect(c, skill, n - 1, r, st).st.env
    ensures Base(c, skill, n, r, st) == Base(c, skill, n - 1, r, st)
    ensures LeftAndSaved(c, skill, n, r, st) == LeftAndSaved(c, skill, n - 1, r, st)
  {
  }

  lemma {:induction false} RunningSaved(c: Setting, skill: Skill, n: nat, r: nat, st: State)
    requires Ranked(c) && SkillBelow(c, skill, r) && n <= |skill.steps| && StoppedUnsaved(c, skill, n, r, st)
    ensures StepsEffect(c, skill, n, r, st).error.Some?
  {
    if StepsEffect(c, skill, n - 1, r, st).error.Some? {
      RunningSaved(c, skill, n - 1, r, st);
    }
  }

  /**
   Variables and outputs after n steps, with nested skills at any depth: what the last step that entered a
   skill left, overlaid with the outputs recorded from that step on; but not overlaid if the run stopped at
   that very step, its retries used up and one of them having entered a skill.
   */
  lemma {:induction false} EnvAfterSteps(c: Setting, skill: Skill, n: nat, r: nat, st: State)
    requires Ranked(c) && SkillBelow(c, skill, r) && n <= |skill.steps|
    ensures StepsEffect(c, skill, n, r, st).st.env
         == if StoppedUnsaved(c, skill, n, r, st) then Base(c, skill, n, r, st) else LeftAndSaved(c, skill, n, r, st)
  {
    if n == 0 {
    } else {
      EnvAfterSteps(c, skill, n - 1, r, st);
      ResultsMeaning(c, skill, n - 1, r, st);
      var before := StepsEffect(c, skill, n - 1, r, st);
      if StoppedUnsaved(c, skill, n - 1, r, st) {
        RunningSaved(c, skill, n - 1, r, st);
      }
      if before.error.None? && !c.world.cancelled(before.st.tick) {
        EnvAfterStep(c, skill, n, r, st);
      } else {
        StoppedStays(c, skill, n, r, st);
      }
    }
  }

  lemma {:induction false} PassedKeepsEnv(c: Setting, skill: Skill, n: nat, r: nat, st: State)
    requires Ranked(c) && SkillBelow(c, skill, r) && 0 < n <= |skill.steps| && !EntersAt(c, skill, n - 1, r, st)
    requires var before := StepsEffect(c, skill, n - 1, r, st);
      before.error.None? && !c.world.cancelled(before.st.tick)
    ensures var before := StepsEffect(c, skill, n - 1, r, st);
      && StepLeft(c, skill.steps[n - 1], n - 1, r, Ask(before.st)) == before.st.env
      && !EndsUnsaved(c, skill.steps[n - 1], n - 1, r, Ask(before.st))
  {
    NothingEntered(c, skill.steps[n - 1], n - 1, r, Ask(StepsEffect(c, skill, n - 1, r, st).st));
  }

  lemma {:induction false} EnvAfterStep(c: Setting, skill: Skill, n: nat, r: nat, st: State)
    requires Ranked(c) && SkillBelow(c, skill, r) && 0 < n <= |skill.steps|
    requires var before := StepsEffect(c, skill, n - 1, r, st);
      && before.error.None? && !c.world.cancelled(before.st.tick) && |before.results| == n - 1
      && before.st.env == LeftAndSaved(c, skill, n - 1, r, st)
    ensures StepsEffect(c, skill, n, r, st).st.env
         == if StoppedUnsaved(c, skill, n, r, st) then Base(c, skill, n, r, st) else LeftAndSaved(c, skill, n, r, st)
  {
    var results, step := StepsEffect(c, skill, n - 1, r, st).results, skill.steps[n - 1];
    var result := StepTaken(c, skill, n, r, st);
    if EntersAt(c, skill, n - 1, r, st) {
      EnteringStep(Base(c, skill, n, r, st), results, step, result);
    } else {
      PassedKeepsEnv(c, skill, n, r, st);
      PassingStep(Base(c, skill, n, r, st), results, LastEntering(c, skill, n, r, st), step, result);
    }
  }

  lemma {:induction false} RetryLeftByNested(c: Setting, step: SkillStep, i: nat, r: nat, k: int, st: State, left: Env)
    returns (at: State)
    requires Ranked(c) && StepBelow(c, step, r) && RetryEnters(c, step, i, r, k, st)
    ensures Enters(c, step, at) && RetryLeft(c, step, i, r, k, st, left) == NestedEnv(c, step, i, r, at)
    decreases k
  {
    var again := StepEffect(c, step, i, r, st);
    var now := if Enters(c, step, st) then NestedEnv(c, step, i, r, st) else left;
    if !again.result.success && RetryEnters(c, step, i, r, k - 1, again.st) {
      at := RetryLeftByNested(c, step, i, r, k - 1, again.st, now);
    } else {
      at := st;
      if !again.result.success {
        RetryKeepsLeft(c, step, i, r, k - 1, again.st, now);
      }
    }
  }

  /** What an entering step leaves is what one of its attempts' nested runs left. */
  lemma {:induction false} LeftByNestedRun(c: Setting, step: SkillStep, i: nat, r: nat, st: State) returns (at: State)
    requires Ranked(c) && StepBelow(c, step, r) && StepEnters(c, step, i, r, st)
    ensures Enters(c, step, at) && StepLeft(c, step, i, r, st) == NestedEnv(c, step, i, r, at)
  {
    var first := StepEffect(c, step, i, r, st);
    var left := if Enters(c, step, st) then NestedEnv(c, step, i, r, st) else st.env;
    var saved := Save(first.st, step, first.result.output);
    at := st;
    if Failing(step, first.result) {
      if RetryEnters(c, step, i, r, step.retries, saved) {
        at := RetryLeftByNested(c, step, i, r, step.retries, saved, left);
      } else {
        RetryKeepsLeft(c, step, i, r, step.retries, saved, left);
      }
    }
  }

  // ---------------------------------------------------------------------------
  // The executor object.
  // ---------------------------------------------------------------------------

  lemma {:induction false} ErrorSticks(c: Setting, skill: Skill, m: nat, n: nat, r: nat, st: State)
    requires Ranked(c) && SkillBelow(c, skill, r) && m <= n <= |skill.steps|
    requires StepsEffect(c, skill, m, r, st).error.Some?
    ensures StepsEffect(c, skill, n, r, st) == StepsEffect(c, skill, m, r, st)
  {
    if m < n {
      ErrorSticks(c, skill, m, n - 1, r, st);
    }
  }

  class Executor {
    const c: Setting
    var variables: map<string, string>
    var stepOutputs: map<string, string>
    var tick: nat
    ghost var calls: seq<Call>

    constructor (c: Setting)
      ensures this.c == c && St() == State(Env(map[], map[]), 0, [])
    {
      this.c := c;
      variables, stepOutputs, tick, calls := map[], map[], 0, [];
    }

    ghost function St(): State
      reads this
    {
      State(Env(variables, stepOutputs), tick, calls)
    }

    method Execute(name: string, params: Params) returns (result: Option<SkillResult>, err: Option<Error>)
      requires Ranked(c)
      modifies this
      ensures name !in c.registry ==> result == None && err == Some(NotFound(name)) && St() == old(St())
      ensures name in c.registry ==>
        result.Some?
        && Run(result.value, err, St()) == SkillEffect(c, c.registry[name], params, c.rank(name), old(St()))
      decreases c.rank(name), 6
    {
      if name !in c.registry {
        return None, Some(NotFound(name));
      }
      var r, e := ExecuteSkill(c.registry[name], params, c.rank(name));
      return Some(r), e;
    }

    method ExecuteSkill(skill: Skill, params: Params, ghost r: nat) returns (result: SkillResult, err: Option<Error>)
      requires Ranked(c) && SkillBelow(c, skill, r)
      modifies this
      ensures Run(result, err, St()) == SkillEffect(c, skill, params, r, old(St()))
      decreases r, 5
    {
      var init := c.world.init(skill, params);
      variables, stepOutputs := init.variables, map[];
      if !init.ok {
        return SkillResult(skill.name, false, [], BadParameters), Some(BadParameters);
      }
      ghost var start := St();
      var steps := [];
      for i := 0 to |skill.steps|
        invariant StepsRun(steps, None, St()) == StepsEffect(c, skill, i, r, start)
      {
        tick := tick + 1;
        var stop: Option<Error>;
        if c.world.cancelled(tick - 1) {
          stop := Some(Cancelled);
        } else {
          var recorded;
          recorded, stop := HandleStep(skill.steps[i], i, r);
          steps := steps + [recorded];
        }
        if stop.Some? {
          assert StepsRun(steps, stop, St()) == StepsEffect(c, skill, i + 1, r, start);
          ErrorSticks(c, skill, i + 1, |skill.steps|, r, start);
          return SkillResult(skill.name, false, steps, stop.value), stop;
        }
      }
      return SkillResult(skill.name, true, steps, NoError), None;
    }

    /** One turn of the step loop: run, save the output, retry if configured, and decide whether to stop. */
    method HandleStep(step: SkillStep, i: nat, ghost r: nat) returns (recorded: StepResult, stop: Option<Error>)
      requires Ranked(c) && StepBelow(c, step, r)
      modifies this
      ensures (StepRun(recorded, St()), stop) == HandledEffect(c, step, i, r, old(St()))
      decreases r, 3
    {
      recorded := ExecuteStep(step, i, r);
      if step.name != "" {
        stepOutputs := stepOutputs[step.name := recorded.output];
      }
      stop := None;
      if !recorded.success && step.onError != "continue" {
        if step.onError == "retry" {
          var retried := RetryStep(step, i, r);
          match retried {
            case Some(result) =>
              recorded := result;
              if step.name != "" {
                stepOutputs := stepOutputs[step.name := result.output];
              }
            case None =>
              stop := Some(RetriesFailed(i + 1, step.retries, recorded.error));
          }
        } else {
          stop := Some(StepFailed(i + 1, recorded.error));
        }
      }
    }

    method RetryStep(step: SkillStep, i: nat, ghost r: nat) returns (retried: Option<StepResult>)
      requires Ranked(c) && StepBelow(c, step, r)
      modifies this
      ensures (retried, St()) == RetryEffect(c, step, i, r, step.retries, old(St()))
      decreases r, 2
    {
      var left := step.retries;
      while left > 0
        invariant RetryEffect(c, step, i, r, left, St()) == RetryEffect(c, step, i, r, step.retries, old(St()))
      {
        var again := ExecuteStep(step, i, r);
        if again.success {
          return Some(again);
        }
        left := left - 1;
      }
      return None;
    }

    method ExecuteStep(step: SkillStep, i: nat, ghost r: nat) returns (result: StepResult)
      requires Ranked(c) && StepBelow(c, step, r)
      modifies this
      ensures StepRun(result, St()) == StepEffect(c, step, i, r, old(St()))
      decreases r, 1
    {
      var prepared := c.world.prepare(tick, step, Env(variables, stepOutputs));
      tick, calls := tick + 1, calls + [Call(r, i)];
      match prepared {
        case ConditionFails => return StepResult(step.name, step.tool, false, "", BadCondition);
        case ConditionNotMet => return StepResult(step.name, step.tool, true, "skipped: condition not met", NoError);
        case ArgsFail => return StepResult(step.name, step.tool, false, "", BadArgs);
        case Ready(args) =>
          if step.tool == "skill" {
            result := ExecuteNestedSkill(args, r);
            result := result.(stepName := step.name, tool := step.tool);
          } else if IsToolName(step.tool) {
            var o := c.world.run(tick, step, args);
            tick := tick + 1;
            result := StepResult(step.name, step.tool, o.success, o.output, o.error);
          } else {
            result := StepResult(step.name, step.tool, false, "", UnknownTool);
          }
      }
    }

    method ExecuteNestedSkill(args: Args, ghost r: nat) returns (result: StepResult)
      requires Ranked(c)
      requires args.name.Some? && args.name.value in c.registry ==> c.rank(args.name.value) < r
      modifies this
      ensures (result, St()) == NestedEffect(c, args, r, old(St()))
      decreases r, 0
    {
      if args.name.None? {
        return StepResult("", "", false, "", NameMissing);
      }
      var name := args.name.value;
      if name !in c.registry {
        return StepResult("", "", false, "", NotFound(name));
      }
      var run, err := Execute(name, args.params);
      if err.Some? {
        return StepResult("", "", false, "", err.value);
      }
      var steps := run.value.steps;
      var output := "";
      for i := 0 to |steps|
        invariant output == Joined(steps[..i])
      {
        assert steps[..i + 1][..i] == steps[..i];
        if steps[i].output != "" {
          output := if output == "" then steps[i].output else output + "\n" + steps[i].output;
        }
      }
      assert steps[..|steps|] == steps;
      return StepResult("", "", true, output, NoError);
    }
  }
}
