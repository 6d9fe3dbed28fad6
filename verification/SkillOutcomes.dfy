/**
 Skills in terms of what the world answered: when an attempt at a step succeeds, what it records, and, for skills
 that run no other skill, when the whole run succeeds.
 */
module SkillOutcomes {

  import opened Wrappers
  import opened SkillExecutor

  // ---------------------------------------------------------------------------
  // One attempt.
  // ---------------------------------------------------------------------------

  predicate Shell(tool: string) {
    tool in ["local_shell", "remote_shell", "docker"]
  }

  /** The registered skill an attempt with these arguments runs, as it then ends. */
  ghost function NestedRun(c: Setting, args: Args, i: nat, r: nat, st: State): Run
    requires Ranked(c) && args.name.Some? && args.name.value in c.registry
  {
    var n := args.name.value;
    SkillEffect(c, c.registry[n], args.params, c.rank(n), State(st.env, st.tick + 1, st.calls + [Call(r, i)]))
  }

  /** The attempt runs a registered skill to its end. */
  ghost predicate NestedSucceeds(c: Setting, args: Args, i: nat, r: nat, st: State)
    requires Ranked(c)
  {
    args.name.Some? && args.name.value in c.registry && NestedRun(c, args, i, r, st).error.None?
  }

  /**
   An attempt succeeds exactly if its condition is not met, or its arguments are ready and the tool is a shell or
   docker and succeeded, or it is "skill" and the named skill ran to its end.
   */
  lemma {:induction false} AttemptSucceedsIff(c: Setting, step: SkillStep, i: nat, r: nat, st: State)
    requires Ranked(c) && StepBelow(c, step, r)
    ensures var p, result := c.world.prepare(st.tick, step, st.env), StepEffect(c, step, i, r, st).result;
      && result.stepName == step.name && result.tool == step.tool
      && (result.success <==>
            || p.ConditionNotMet?
            || (p.Ready? && Shell(step.tool) && c.world.run(st.tick + 1, step, p.args).success)
            || (p.Ready? && step.tool == "skill" && NestedSucceeds(c, p.args, i, r, st)))
  {
    assert !Shell("skill") by {
      assert |"skill"| == 5 && |"docker"| == 6;
    }
  }

  /** What an attempt records: the tool's output and error, the nested run's, or why it came to neither. */
  lemma {:induction false} AttemptRecords(c: Setting, step: SkillStep, i: nat, r: nat, st: State)
    requires Ranked(c) && StepBelow(c, step, r)
    ensures var p, result := c.world.prepare(st.tick, step, st.env), StepEffect(c, step, i, r, st).result;
      && (p.ConditionFails? ==> result.output == "" && result.error == BadCondition)
      && (p.ConditionNotMet? ==> result.output == "skipped: condition not met" && result.error == NoError)
      && (p.ArgsFail? ==> result.output == "" && result.error == BadArgs)
      && (p.Ready? && Shell(step.tool) ==>
            var o := c.world.run(st.tick + 1, step, p.args); result.output == o.output && result.error == o.error)
      && (p.Ready? && step.tool == "skill" ==>
            && (p.args.name.None? ==> result.output == "" && result.error == NameMissing)
            && (p.args.name.Some? && p.args.name.value !in c.registry ==>
                  result.output == "" && result.error == NotFound(p.args.name.value))
            && (p.args.name.Some? && p.args.name.value in c.registry ==>
                  var run := NestedRun(c, p.args, i, r, st);
                  && (run.error.Some? ==> result.output == "" && result.error == run.error.value)
                  && (run.error.None? ==> result.output == Joined(run.result.steps) && result.error == NoError)))
      && (p.Ready? && step.tool != "skill" && !Shell(step.tool) ==> result.output == "" && result.error == UnknownTool)
  {
    assert !Shell("skill") by {
      assert |"skill"| == 5 && |"docker"| == 6;
    }
  }

  /**
   What a run reports: the skill's name, an error of its own for refused parameters, and else, if it stopped, that it
   was cancelled or the number of the step, counted from one, with the recorded cause and the retries spent.
   */
  lemma {:induction false} RunReports(c: Setting, skill: Skill, params: Params, r: nat, st: State)
    requires Ranked(c) && SkillBelow(c, skill, r)
    ensures var run := SkillEffect(c, skill, params, r, st);
      var m := |run.result.steps|;
      && run.result.skillName == skill.name
      && run.result.error == (if run.error.Some? then run.error.value else NoError)
      && (!c.world.init(skill, params).ok ==> run.error == Some(BadParameters) && m == 0)
      && (c.world.init(skill, params).ok && run.error.Some? && run.error.value != Cancelled ==>
            && 0 < m <= |skill.steps|
            && var step, recorded := skill.steps[m - 1], run.result.steps[m - 1];
              && !recorded.success && step.onError != "continue"
              && run.error.value == (if step.onError == "retry" then RetriesFailed(m, step.retries, recorded.error)
                                     else StepFailed(m, recorded.error)))
  {
    var init := c.world.init(skill, params);
    ResultsMeaning(c, skill, |skill.steps|, r, State(Env(init.variables, map[]), st.tick, st.calls));
  }

  /** The outputs that are not empty, in order. */
  function Outputs(results: seq<StepResult>): seq<string> {
    if results == [] then []
    else
      var before, last := Outputs(results[..|results| - 1]), results[|results| - 1].output;
      if last == "" then before else before + [last]
  }

  function JoinLines(lines: seq<string>): string {
    if lines == [] then ""
    else if |lines| == 1 then lines[0]
    else JoinLines(lines[..|lines| - 1]) + "\n" + lines[|lines| - 1]
  }

  lemma {:induction false} OutputsNotEmpty(results: seq<StepResult>)
    ensures forall o :: o in Outputs(results) ==> o != ""
  {
    if results == [] {
    } else {
      OutputsNotEmpty(results[..|results| - 1]);
    }
  }

  lemma {:induction false} JoinNotEmpty(lines: seq<string>)
    requires lines != [] && forall o :: o in lines ==> o != ""
    ensures JoinLines(lines) != ""
  {
    assert lines[0] in lines;
  }

  /** A nested skill's output: its steps' outputs that are not empty, one to a line. */
  lemma {:induction false} JoinedAreLines(results: seq<StepResult>)
    ensures Joined(results) == JoinLines(Outputs(results))
  {
    if results == [] {
    } else {
      var front, last := results[..|results| - 1], results[|results| - 1].output;
      JoinedAreLines(front);
      var before := Outputs(front);
      OutputsNotEmpty(front);
      if before != [] {
        JoinNotEmpty(before);
      }
      if last != "" {
        assert (before + [last])[..|before|] == before;
      }
    }
  }

  // ---------------------------------------------------------------------------
  // Skills that run no other skill: the run in terms of the world alone.
  // ---------------------------------------------------------------------------

  datatype At = At(tick: nat, env: Env)

  predicate WorldSucceeds(world: World, step: SkillStep, tick: nat, env: Env) {
    var p := world.prepare(tick, step, env);
    p.ConditionNotMet? || (p.Ready? && Shell(step.tool) && world.run(tick + 1, step, p.args).success)
  }

  function WorldOutput(world: World, step: SkillStep, tick: nat, env: Env): string {
    var p := world.prepare(tick, step, env);
    if p.ConditionNotMet? then "skipped: condition not met"
    else if p.Ready? && Shell(step.tool) then world.run(tick + 1, step, p.args).output
    else ""
  }

  /** The number of questions after an attempt: the arguments, and the tool if it came to that. */
  function Asked(world: World, step: SkillStep, tick: nat, env: Env): nat {
    if world.prepare(tick, step, env).Ready? && Shell(step.tool) then tick + 2 else tick + 1
  }

  /** The first of k further attempts that succeeds: its tick, or where they leave off. */
  function Retried(world: World, step: SkillStep, k: int, tick: nat, env: Env): (bool, nat) {
    if k <= 0 then (false, tick)
    else if WorldSucceeds(world, step, tick, env) then (true, tick)
    else Retried(world, step, k - 1, Asked(world, step, tick, env), env)
  }

  /** What the first attempt leaves: one more output, if the step has a name. */
  function Attempted(world: World, step: SkillStep, tick: nat, env: Env): At {
    At(Asked(world, step, tick, env), SaveEnv(env, step, WorldOutput(world, step, tick, env)))
  }

  /** The run goes on after the step: it succeeded, or is to be continued, or a retry succeeded. */
  predicate GoesOn(world: World, step: SkillStep, tick: nat, env: Env) {
    || WorldSucceeds(world, step, tick, env)
    || step.onError == "continue"
    || (step.onError == "retry"
        && var first := Attempted(world, step, tick, env); Retried(world, step, step.retries, first.tick, first.env).0)
  }

  function Onwards(world: World, step: SkillStep, tick: nat, env: Env): At {
    var first := Attempted(world, step, tick, env);
    if WorldSucceeds(world, step, tick, env) || step.onError != "retry" then first
    else Attempted(world, step, Retried(world, step, step.retries, first.tick, first.env).1, first.env)
  }

  /** Where the k-th step begins, if all before it go on; a question about cancellation precedes each step. */
  function Reached(world: World, skill: Skill, k: nat, from: At): At
    requires k <= |skill.steps|
  {
    if k == 0 then from
    else
      var before := Reached(world, skill, k - 1, from);
      Onwards(world, skill.steps[k - 1], before.tick + 1, before.env)
  }

  predicate StepGoesOn(world: World, skill: Skill, k: nat, from: At)
    requires k < |skill.steps|
  {
    var before := Reached(world, skill, k, from);
    !world.cancelled(before.tick) && GoesOn(world, skill.steps[k], before.tick + 1, before.env)
  }

  predicate RunsNoOther(skill: Skill) {
    forall step <- skill.steps :: step.tool != "skill"
  }

  lemma {:induction false} PlainAttempt(c: Setting, step: SkillStep, i: nat, r: nat, st: State)
    requires Ranked(c) && StepBelow(c, step, r) && step.tool != "skill"
    ensures var run := StepEffect(c, step, i, r, st);
      && (run.result.success <==> WorldSucceeds(c.world, step, st.tick, st.env))
      && run.result.output == WorldOutput(c.world, step, st.tick, st.env)
      && run.st.tick == Asked(c.world, step, st.tick, st.env) && run.st.env == st.env
  {
  }

  lemma {:induction false} PlainRetries(c: Setting, step: SkillStep, i: nat, r: nat, k: int, st: State)
    requires Ranked(c) && StepBelow(c, step, r) && step.tool != "skill"
    ensures var (retried, after) := RetryEffect(c, step, i, r, k, st);
      var (ok, tick) := Retried(c.world, step, k, st.tick, st.env);
      && (retried.Some? <==> ok) && after.env == st.env
      && (ok ==>
            && retried.value.success && retried.value.output == WorldOutput(c.world, step, tick, st.env)
            && after.tick == Asked(c.world, step, tick, st.env))
    decreases k
  {
    if k <= 0 {
    } else {
      PlainAttempt(c, step, i, r, st);
      var again := StepEffect(c, step, i, r, st);
      if !again.result.success {
        PlainRetries(c, step, i, r, k - 1, again.st);
      }
    }
  }

  lemma {:induction false} PlainStep(c: Setting, step: SkillStep, i: nat, r: nat, st: State)
    requires Ranked(c) && StepBelow(c, step, r) && step.tool != "skill"
    ensures var (run, error) := HandledEffect(c, step, i, r, st);
      && (error.None? <==> GoesOn(c.world, step, st.tick, st.env))
      && (error.None? ==> At(run.st.tick, run.st.env) == Onwards(c.world, step, st.tick, st.env))
  {
    PlainAttempt(c, step, i, r, st);
    var first := StepEffect(c, step, i, r, st);
    var saved := Save(first.st, step, first.result.output);
    assert Attempted(c.world, step, st.tick, st.env) == At(saved.tick, saved.env);
    if first.result.success || step.onError == "continue" {
    } else if step.onError == "retry" {
      PlainRetries(c, step, i, r, step.retries, saved);
      var retry := RetryEffect(c, step, i, r, step.retries, saved);
      assert retry.0.Some? <==> Retried(c.world, step, step.retries, saved.tick, saved.env).0;
    }
  }

  predicate AllGoOn(world: World, skill: Skill, n: nat, from: At)
    requires n <= |skill.steps|
  {
    n == 0 || (AllGoOn(world, skill, n - 1, from) && StepGoesOn(world, skill, n - 1, from))
  }

  lemma {:induction false} AllGivesEach(world: World, skill: Skill, n: nat, from: At, k: nat)
    requires k < n <= |skill.steps| && AllGoOn(world, skill, n, from)
    ensures StepGoesOn(world, skill, k, from)
  {
    if k < n - 1 {
      AllGivesEach(world, skill, n - 1, from, k);
    }
  }

  lemma {:induction false} SomeStops(world: World, skill: Skill, n: nat, from: At) returns (k: nat)
    requires n <= |skill.steps| && !AllGoOn(world, skill, n, from)
    ensures k < n && !StepGoesOn(world, skill, k, from)
  {
    if AllGoOn(world, skill, n - 1, from) {
      k := n - 1;
    } else {
      k := SomeStops(world, skill, n - 1, from);
    }
  }

  lemma {:induction false} AllMeansEach(world: World, skill: Skill, n: nat, from: At)
    requires n <= |skill.steps|
    ensures AllGoOn(world, skill, n, from) <==> forall k :: 0 <= k < n ==> StepGoesOn(world, skill, k, from)
  {
    if AllGoOn(world, skill, n, from) {
      forall k | 0 <= k < n
        ensures StepGoesOn(world, skill, k, from)
      {
        AllGivesEach(world, skill, n, from, k);
      }
    } else {
      var k := SomeStops(world, skill, n, from);
    }
  }

  lemma {:induction false} StepFrom(c: Setting, skill: Skill, n: nat, r: nat, st: State, before: At)
    requires Ranked(c) && SkillBelow(c, skill, r) && RunsNoOther(skill) && 0 < n <= |skill.steps|
    requires var run := StepsEffect(c, skill, n - 1, r, st);
      run.error.None? && before == At(run.st.tick, run.st.env) && !c.world.cancelled(before.tick)
    ensures var run, step := StepsEffect(c, skill, n, r, st), skill.steps[n - 1];
      && (run.error.None? <==> GoesOn(c.world, step, before.tick + 1, before.env))
      && (run.error.None? ==> At(run.st.tick, run.st.env) == Onwards(c.world, step, before.tick + 1, before.env))
  {
    var run, step := StepsEffect(c, skill, n - 1, r, st), skill.steps[n - 1];
    assert step in skill.steps;
    PlainStep(c, step, n - 1, r, State(run.st.env, run.st.tick + 1, run.st.calls));
  }

  lemma {:induction false} CancelledStops(c: Setting, skill: Skill, n: nat, r: nat, st: State)
    requires Ranked(c) && SkillBelow(c, skill, r) && 0 < n <= |skill.steps|
    requires var run := StepsEffect(c, skill, n - 1, r, st); run.error.None? && c.world.cancelled(run.st.tick)
    ensures StepsEffect(c, skill, n, r, st).error.Some?
  {
  }

  /** The n-th step from where the ones before it lead. */
  lemma {:induction false} NextStep(c: Setting, skill: Skill, n: nat, r: nat, st: State, from: At)
    requires Ranked(c) && SkillBelow(c, skill, r) && RunsNoOther(skill) && 0 < n <= |skill.steps|
    requires var run := StepsEffect(c, skill, n - 1, r, st);
      run.error.None? && Reached(c.world, skill, n - 1, from) == At(run.st.tick, run.st.env)
    ensures var run := StepsEffect(c, skill, n, r, st);
      && (run.error.None? <==> StepGoesOn(c.world, skill, n - 1, from))
      && (run.error.None? ==> At(run.st.tick, run.st.env) == Reached(c.world, skill, n, from))
  {
    var before := Reached(c.world, skill, n - 1, from);
    if c.world.cancelled(before.tick) {
      CancelledStops(c, skill, n, r, st);
    } else {
      StepFrom(c, skill, n, r, st, before);
    }
  }

  lemma {:induction false} StoppedStepsStay(c: Setting, skill: Skill, n: nat, r: nat, st: State)
    requires Ranked(c) && SkillBelow(c, skill, r) && 0 < n <= |skill.steps|
    requires StepsEffect(c, skill, n - 1, r, st).error.Some?
    ensures StepsEffect(c, skill, n, r, st).error.Some?
  {
  }

  lemma {:induction false} PlainSteps(c: Setting, skill: Skill, n: nat, r: nat, st: State, from: At)
    requires Ranked(c) && SkillBelow(c, skill, r) && RunsNoOther(skill) && n <= |skill.steps|
    requires from == At(st.tick, st.env)
    ensures var run := StepsEffect(c, skill, n, r, st);
      && (run.error.None? <==> AllGoOn(c.world, skill, n, from))
      && (run.error.None? ==> At(run.st.tick, run.st.env) == Reached(c.world, skill, n, from))
  {
    if n == 0 {
    } else {
      PlainSteps(c, skill, n - 1, r, st, from);
      if AllGoOn(c.world, skill, n - 1, from) {
        NextStep(c, skill, n, r, st, from);
      } else {
        StoppedStepsStay(c, skill, n, r, st);
      }
    }
  }

  /**
   A run of a skill that runs no other succeeds if and only if its parameters are accepted and at every step, as
   far as the world's own answers lead, nothing cancels it and the step succeeds, or is to be continued, or
   succeeds on one of its retries.
   */
  lemma {:induction false} RunSucceedsIff(c: Setting, skill: Skill, params: Params, r: nat, st: State)
    requires Ranked(c) && SkillBelow(c, skill, r) && RunsNoOther(skill)
    ensures var run, init := SkillEffect(c, skill, params, r, st), c.world.init(skill, params);
      && (run.error.None? <==> run.result.success)
      && (run.result.success <==>
            && init.ok
            && forall k :: 0 <= k < |skill.steps| ==>
                 StepGoesOn(c.world, skill, k, At(st.tick, Env(init.variables, map[]))))
  {
    var init := c.world.init(skill, params);
    PlainSteps(c, skill, |skill.steps|, r, State(Env(init.variables, map[]), st.tick, st.calls),
               At(st.tick, Env(init.variables, map[])));
    AllMeansEach(c.world, skill, |skill.steps|, At(st.tick, Env(init.variables, map[])));
  }

  /** Nothing cancels the step, and if the world fails it, it is to be continued. */
  predicate FailsOnlyToContinue(world: World, skill: Skill, k: nat, from: At)
    requires k < |skill.steps|
  {
    var before := Reached(world, skill, k, from);
    && !world.cancelled(before.tick)
    && (!WorldSucceeds(world, skill.steps[k], before.tick + 1, before.env) ==> skill.steps[k].onError == "continue")
  }

  /** Without retries: every step the world failed is one to be continued. */
  lemma {:induction false} RunSucceedsWithoutRetriesIff(c: Setting, skill: Skill, params: Params, r: nat, st: State)
    requires Ranked(c) && SkillBelow(c, skill, r) && RunsNoOther(skill)
    requires forall step <- skill.steps :: step.onError != "retry"
    ensures var init := c.world.init(skill, params);
      SkillEffect(c, skill, params, r, st).result.success <==>
      && init.ok
      && forall k :: 0 <= k < |skill.steps| ==>
           FailsOnlyToContinue(c.world, skill, k, At(st.tick, Env(init.variables, map[])))
  {
    var init := c.world.init(skill, params);
    RunSucceedsIff(c, skill, params, r, st);
    forall k | 0 <= k < |skill.steps|
      ensures StepGoesOn(c.world, skill, k, At(st.tick, Env(init.variables, map[])))
         <==> FailsOnlyToContinue(c.world, skill, k, At(st.tick, Env(init.variables, map[])))
    {
      assert skill.steps[k] in skill.steps;
    }
  }
}
