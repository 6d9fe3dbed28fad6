/** Workflows: steps run in list order, each naming the steps it depends on. */
module Workflow {

  import opened Wrappers

  datatype WorkflowStep = WorkflowStep(id: string, dependsOn: seq<string>, onError: string)
  datatype Workflow = Workflow(id: string, steps: seq<WorkflowStep>, onError: string)

  /** What TaskExecutor makes of a step. */
  datatype Outcome = Outcome(success: bool, output: string, error: string)

  datatype StepResult = StepResult(stepID: string, success: bool, output: string, error: string, skipped: bool)
  datatype Error = Incomplete(step: string, dependency: string) | StepFailed(step: string, message: string)
  datatype WorkflowResult = WorkflowResult(success: bool, steps: seq<StepResult>, error: Option<Error>)

  // ---------------------------------------------------------------------------
  // What a run computes.
  // ---------------------------------------------------------------------------

  /** `last` holds the success of the last result of each completed step. */
  datatype Progress = Progress(results: seq<StepResult>, last: map<string, bool>, stop: Option<Error>)

  function SkipEntry(step: WorkflowStep): StepResult {
    StepResult(step.id, false, "", "", true)
  }

  function RanEntry(step: WorkflowStep, o: Outcome): StepResult {
    StepResult(step.id, o.success, o.output, o.error, false)
  }

  /** Going through the first k dependencies: a failed one adds an entry, a missing one ends the run. */
  function Checked(step: WorkflowStep, p: Progress, k: nat): Progress
    requires k <= |step.dependsOn|
  {
    if k == 0 then p
    else
      var before := Checked(step, p, k - 1);
      var dep := step.dependsOn[k - 1];
      if before.stop.Some? then before
      else if dep !in p.last then before.(stop := Some(Incomplete(step.id, dep)))
      else if !p.last[dep] then before.(results := before.results + [SkipEntry(step)])
      else before
  }

  predicate Stops(wf: Workflow, step: WorkflowStep, o: Outcome) {
    !o.success && (step.onError == "stop" || (step.onError == "" && wf.onError == "stop"))
  }

  function Ran(wf: Workflow, step: WorkflowStep, p: Progress, o: Outcome): Progress {
    Progress(p.results + [RanEntry(step, o)], p.last[step.id := o.success],
             if Stops(wf, step, o) then Some(StepFailed(step.id, o.error)) else None)
  }

  /** The first n steps; outcomes[i] is what step i would give. */
  function After(wf: Workflow, outcomes: seq<Outcome>, n: nat): Progress
    requires n <= |wf.steps| <= |outcomes|
  {
    if n == 0 then Progress([], map[], None)
    else
      var p, step := After(wf, outcomes, n - 1), wf.steps[n - 1];
      if p.stop.Some? then p
      else
        var checked := Checked(step, p, |step.dependsOn|);
        if checked.stop.Some? then checked else Ran(wf, step, checked, outcomes[n - 1])
  }

  function ResultOf(p: Progress): WorkflowResult {
    WorkflowResult(p.stop.None?, p.results, p.stop)
  }

  // ---------------------------------------------------------------------------
  // Success.
  // ---------------------------------------------------------------------------

  function IDs(steps: seq<WorkflowStep>): seq<string> {
    if steps == [] then [] else IDs(steps[..|steps| - 1]) + [steps[|steps| - 1].id]
  }

  /** Every dependency of the step is among these ids. */
  predicate Complete(step: WorkflowStep, ids: seq<string>) {
    forall dep <- step.dependsOn :: dep in ids
  }

  /** Every dependency names an earlier step. */
  predicate InOrder(steps: seq<WorkflowStep>) {
    steps == [] ||
    var front, step := steps[..|steps| - 1], steps[|steps| - 1];
    InOrder(front) && Complete(step, IDs(front))
  }

  predicate NoneStops(wf: Workflow, outcomes: seq<Outcome>, n: nat)
    requires n <= |wf.steps| <= |outcomes|
  {
    forall i :: 0 <= i < n ==> !Stops(wf, wf.steps[i], outcomes[i])
  }

  lemma {:induction false} CheckedKeeps(step: WorkflowStep, p: Progress, k: nat)
    requires k <= |step.dependsOn| && p.stop.None?
    ensures Checked(step, p, k).last == p.last
    ensures Checked(step, p, k).stop.None? <==> forall j :: 0 <= j < k ==> step.dependsOn[j] in p.last
    ensures Checked(step, p, k).stop.Some? ==> Checked(step, p, k).stop.value.Incomplete?
  {
    if k == 0 {
    } else {
      CheckedKeeps(step, p, k - 1);
    }
  }

  lemma {:induction false} LastHoldsCompleted(wf: Workflow, outcomes: seq<Outcome>, n: nat)
    requires n <= |wf.steps| <= |outcomes| && After(wf, outcomes, n).stop.None?
    ensures forall id :: id in After(wf, outcomes, n).last <==> id in IDs(wf.steps[..n])
  {
    if n == 0 {
    } else {
      var p, step := After(wf, outcomes, n - 1), wf.steps[n - 1];
      LastHoldsCompleted(wf, outcomes, n - 1);
      CheckedKeeps(step, p, |step.dependsOn|);
      assert wf.steps[..n][..n - 1] == wf.steps[..n - 1];
    }
  }

  lemma {:induction false} GoesOnIff(wf: Workflow, outcomes: seq<Outcome>, n: nat)
    requires n <= |wf.steps| <= |outcomes|
    ensures After(wf, outcomes, n).stop.None? <==> InOrder(wf.steps[..n]) && NoneStops(wf, outcomes, n)
  {
    if n == 0 {
    } else {
      var p, step := After(wf, outcomes, n - 1), wf.steps[n - 1];
      GoesOnIff(wf, outcomes, n - 1);
      assert wf.steps[..n][..n - 1] == wf.steps[..n - 1];
      if p.stop.None? {
        LastHoldsCompleted(wf, outcomes, n - 1);
        CheckedKeeps(step, p, |step.dependsOn|);
      }
    }
  }

  /**
   A run succeeds exactly when every dependency names an earlier step and no step fails under "stop".
   Steps failing otherwise leave it a success.
   */
  lemma {:induction false} SucceedsIff(wf: Workflow, outcomes: seq<Outcome>)
    requires |wf.steps| <= |outcomes|
    ensures ResultOf(After(wf, outcomes, |wf.steps|)).success <==>
      InOrder(wf.steps) && NoneStops(wf, outcomes, |wf.steps|)
  {
    GoesOnIff(wf, outcomes, |wf.steps|);
    assert wf.steps[..|wf.steps|] == wf.steps;
  }

  // ---------------------------------------------------------------------------
  // Which steps run.
  // ---------------------------------------------------------------------------

  /** The ids of the entries that are not skips. */
  function RanIDs(results: seq<StepResult>): seq<string> {
    if results == [] then []
    else
      var front, last := RanIDs(results[..|results| - 1]), results[|results| - 1];
      if last.skipped then front else front + [last.stepID]
  }

  function Skips(results: seq<StepResult>, id: string): nat {
    if results == [] then 0
    else
      var last := results[|results| - 1];
      Skips(results[..|results| - 1], id) + if last.skipped && last.stepID == id then 1 else 0
  }

  lemma {:induction false} EntryAppended(results: seq<StepResult>, e: StepResult, id: string)
    ensures RanIDs(results + [e]) == if e.skipped then RanIDs(results) else RanIDs(results) + [e.stepID]
    ensures Skips(results + [e], id) == Skips(results, id) + if e.skipped && e.stepID == id then 1 else 0
  {
    assert (results + [e])[..|results|] == results;
  }

  lemma {:induction false} CheckingRunsNothing(step: WorkflowStep, p: Progress, k: nat)
    requires k <= |step.dependsOn|
    ensures RanIDs(Checked(step, p, k).results) == RanIDs(p.results)
  {
    if k == 0 {
    } else {
      CheckingRunsNothing(step, p, k - 1);
      EntryAppended(Checked(step, p, k - 1).results, SkipEntry(step), step.id);
    }
  }

  lemma {:induction false} PrefixIDs(steps: seq<WorkflowStep>, n: nat)
    requires n < |steps|
    ensures IDs(steps[..n + 1]) == IDs(steps[..n]) + [steps[n].id]
    ensures InOrder(steps[..n + 1]) <==> InOrder(steps[..n]) && Complete(steps[n], IDs(steps[..n]))
  {
    assert steps[..n + 1][..n] == steps[..n];
  }

  /** A step runs exactly when its dependencies are complete, whether they succeeded or not. */
  lemma {:induction false} StepRunsIffComplete(wf: Workflow, outcomes: seq<Outcome>, n: nat)
    requires n < |wf.steps| <= |outcomes| && After(wf, outcomes, n).stop.None?
    ensures var p, q, step := After(wf, outcomes, n), After(wf, outcomes, n + 1), wf.steps[n];
      if Complete(step, IDs(wf.steps[..n])) then RanIDs(q.results) == RanIDs(p.results) + [step.id]
      else RanIDs(q.results) == RanIDs(p.results) && q.stop.Some?
  {
    var p, step := After(wf, outcomes, n), wf.steps[n];
    LastHoldsCompleted(wf, outcomes, n);
    CheckedKeeps(step, p, |step.dependsOn|);
    CheckingRunsNothing(step, p, |step.dependsOn|);
    EntryAppended(Checked(step, p, |step.dependsOn|).results, RanEntry(step, outcomes[n]), step.id);
  }

  /**
   The steps that run are a prefix of the list, each once and in order: all of them unless the run stops,
   and a skip entry keeps no step from running.
   */
  lemma {:induction false} RunsPrefix(wf: Workflow, outcomes: seq<Outcome>, n: nat) returns (m: nat)
    requires n <= |wf.steps| <= |outcomes|
    ensures m <= n && RanIDs(After(wf, outcomes, n).results) == IDs(wf.steps[..m]) && InOrder(wf.steps[..m])
    ensures After(wf, outcomes, n).stop.None? ==> m == n
  {
    m := 0;
    if n == 0 {
    } else {
      m := RunsPrefix(wf, outcomes, n - 1);
      if After(wf, outcomes, n - 1).stop.None? {
        StepRunsIffComplete(wf, outcomes, n - 1);
        PrefixIDs(wf.steps, n - 1);
        if Complete(wf.steps[n - 1], IDs(wf.steps[..n - 1])) {
          m := n;
        }
      }
    }
  }

  /** The dependencies, with repetition, whose last result is a failure. */
  function FailedDeps(step: WorkflowStep, last: map<string, bool>, k: nat): nat
    requires k <= |step.dependsOn|
  {
    if k == 0 then 0
    else
      var dep := step.dependsOn[k - 1];
      FailedDeps(step, last, k - 1) + if dep in last && !last[dep] then 1 else 0
  }

  lemma {:induction false} CheckingCountsFailures(step: WorkflowStep, p: Progress, k: nat)
    requires k <= |step.dependsOn| && Checked(step, p, k).stop.None?
    ensures Skips(Checked(step, p, k).results, step.id) == Skips(p.results, step.id) + FailedDeps(step, p.last, k)
  {
    if k == 0 {
    } else {
      CheckingCountsFailures(step, p, k - 1);
      EntryAppended(Checked(step, p, k - 1).results, SkipEntry(step), step.id);
    }
  }

  /** A step whose dependencies are all complete runs, with one skip entry before it for each failed one. */
  lemma {:induction false} FailedDependencySkipsNothing(wf: Workflow, outcomes: seq<Outcome>, n: nat)
    requires n < |wf.steps| <= |outcomes| && After(wf, outcomes, n).stop.None?
    requires Complete(wf.steps[n], IDs(wf.steps[..n]))
    ensures var p, q, step := After(wf, outcomes, n), After(wf, outcomes, n + 1), wf.steps[n];
      && RanIDs(q.results) == RanIDs(p.results) + [step.id]
      && q.results[|q.results| - 1] == RanEntry(step, outcomes[n])
      && Skips(q.results, step.id) == Skips(p.results, step.id) + FailedDeps(step, p.last, |step.dependsOn|)
  {
    var p, step := After(wf, outcomes, n), wf.steps[n];
    LastHoldsCompleted(wf, outcomes, n);
    CheckedKeeps(step, p, |step.dependsOn|);
    CheckingRunsNothing(step, p, |step.dependsOn|);
    CheckingCountsFailures(step, p, |step.dependsOn|);
    EntryAppended(Checked(step, p, |step.dependsOn|).results, RanEntry(step, outcomes[n]), step.id);
  }

  // ---------------------------------------------------------------------------
  // What the entries, the remembered results and the error say.
  // ---------------------------------------------------------------------------

  /** Step i is the last of the first n with that id. */
  predicate LatestWith(wf: Workflow, n: nat, id: string, i: nat)
    requires n <= |wf.steps|
  {
    i < n && wf.steps[i].id == id && forall j :: i < j < n ==> wf.steps[j].id != id
  }

  /** What is remembered under an id is whether the last earlier step with that id succeeded. */
  lemma {:induction false} LastIsLatest(wf: Workflow, outcomes: seq<Outcome>, n: nat, id: string, i: nat)
    requires n <= |wf.steps| <= |outcomes| && After(wf, outcomes, n).stop.None? && LatestWith(wf, n, id, i)
    ensures id in After(wf, outcomes, n).last && After(wf, outcomes, n).last[id] == outcomes[i].success
  {
    CheckedKeeps(wf.steps[n - 1], After(wf, outcomes, n - 1), |wf.steps[n - 1].dependsOn|);
    if i < n - 1 {
      LastIsLatest(wf, outcomes, n - 1, id, i);
    }
  }

  function SkipEntries(id: string, k: nat): seq<StepResult> {
    if k == 0 then [] else SkipEntries(id, k - 1) + [StepResult(id, false, "", "", true)]
  }

  lemma {:induction false} CheckingAdds(step: WorkflowStep, p: Progress, k: nat)
    requires k <= |step.dependsOn| && Checked(step, p, k).stop.None?
    ensures Checked(step, p, k).results == p.results + SkipEntries(step.id, FailedDeps(step, p.last, k))
  {
    if k == 0 {
    } else {
      CheckingAdds(step, p, k - 1);
      CheckedKeepsLast(step, p, k - 1);
    }
  }

  lemma {:induction false} CheckedKeepsLast(step: WorkflowStep, p: Progress, k: nat)
    requires k <= |step.dependsOn|
    ensures Checked(step, p, k).last == p.last
  {
    if k == 0 {
    } else {
      CheckedKeepsLast(step, p, k - 1);
    }
  }

  /**
   What a step whose dependencies are complete adds: one empty skip entry for each dependency whose latest run
   failed, then its own outcome; and an error, naming it and its message, exactly if it failed under stop.
   */
  lemma {:induction false} StepAdds(wf: Workflow, outcomes: seq<Outcome>, n: nat)
    requires n < |wf.steps| <= |outcomes| && After(wf, outcomes, n).stop.None?
    requires Complete(wf.steps[n], IDs(wf.steps[..n]))
    ensures var p, q, step, o := After(wf, outcomes, n), After(wf, outcomes, n + 1), wf.steps[n], outcomes[n];
      && q.results == p.results + SkipEntries(step.id, FailedDeps(step, p.last, |step.dependsOn|))
                      + [StepResult(step.id, o.success, o.output, o.error, false)]
      && q.stop == (if !o.success && (step.onError == "stop" || (step.onError == "" && wf.onError == "stop"))
                    then Some(StepFailed(step.id, o.error)) else None)
  {
    var p, step := After(wf, outcomes, n), wf.steps[n];
    LastHoldsCompleted(wf, outcomes, n);
    CheckedKeeps(step, p, |step.dependsOn|);
    CheckingAdds(step, p, |step.dependsOn|);
  }

  /** Otherwise the run ends, naming the step and its first dependency that is not complete. */
  lemma {:induction false} StepMisses(wf: Workflow, outcomes: seq<Outcome>, n: nat, k: nat)
    requires n < |wf.steps| <= |outcomes| && After(wf, outcomes, n).stop.None?
    requires k < |wf.steps[n].dependsOn| && wf.steps[n].dependsOn[k] !in IDs(wf.steps[..n])
    requires forall j :: 0 <= j < k ==> wf.steps[n].dependsOn[j] in IDs(wf.steps[..n])
    ensures After(wf, outcomes, n + 1).stop == Some(Incomplete(wf.steps[n].id, wf.steps[n].dependsOn[k]))
  {
    var p, step := After(wf, outcomes, n), wf.steps[n];
    LastHoldsCompleted(wf, outcomes, n);
    CheckedKeeps(step, p, k);
    MissingSticks(step, p, k + 1, |step.dependsOn|);
  }

  lemma {:induction false} IDsAre(steps: seq<WorkflowStep>, id: string)
    ensures id in IDs(steps) <==> exists i :: 0 <= i < |steps| && steps[i].id == id
  {
    if steps == [] {
    } else {
      var front := steps[..|steps| - 1];
      IDsAre(front, id);
      assert forall i :: 0 <= i < |front| ==> front[i] == steps[i];
    }
  }

  /** Dependency d of step n names an earlier step. */
  predicate NamesEarlier(steps: seq<WorkflowStep>, n: nat, d: string)
    requires n <= |steps|
  {
    exists i :: 0 <= i < n && steps[i].id == d
  }

  lemma {:induction false} InOrderMeans(steps: seq<WorkflowStep>)
    ensures InOrder(steps) <==>
      forall n, d :: 0 <= n < |steps| && d in steps[n].dependsOn ==> NamesEarlier(steps, n, d)
  {
    if steps == [] {
    } else {
      var front, last := steps[..|steps| - 1], |steps| - 1;
      InOrderMeans(front);
      forall n, d | 0 <= n < |front| && d in steps[n].dependsOn
        ensures NamesEarlier(front, n, d) <==> NamesEarlier(steps, n, d)
      {
        assert forall i :: 0 <= i < n ==> front[i] == steps[i];
      }
      forall d | d in steps[last].dependsOn
        ensures d in IDs(front) <==> NamesEarlier(steps, last, d)
      {
        IDsAre(front, d);
        assert forall i :: 0 <= i < last ==> front[i] == steps[i];
      }
    }
  }

  /** Success, in words: every dependency names an earlier step, and no step fails that is to stop the run. */
  lemma {:induction false} SucceedsMeans(wf: Workflow, outcomes: seq<Outcome>)
    requires |wf.steps| <= |outcomes|
    ensures ResultOf(After(wf, outcomes, |wf.steps|)).success <==>
      && (forall n, d :: 0 <= n < |wf.steps| && d in wf.steps[n].dependsOn ==> NamesEarlier(wf.steps, n, d))
      && (forall n :: 0 <= n < |wf.steps| && !outcomes[n].success ==>
            wf.steps[n].onError != "stop" && (wf.steps[n].onError == "" ==> wf.onError != "stop"))
  {
    SucceedsIff(wf, outcomes);
    InOrderMeans(wf.steps);
    forall n | 0 <= n < |wf.steps|
      ensures Stops(wf, wf.steps[n], outcomes[n]) <==>
        !outcomes[n].success
        && !(wf.steps[n].onError != "stop" && (wf.steps[n].onError == "" ==> wf.onError != "stop"))
    {
    }
  }

  // ---------------------------------------------------------------------------
  // The engine.
  // ---------------------------------------------------------------------------

  lemma {:induction false} StopSticks(wf: Workflow, outcomes: seq<Outcome>, m: nat, n: nat)
    requires m <= n <= |wf.steps| <= |outcomes| && After(wf, outcomes, m).stop.Some?
    ensures After(wf, outcomes, n) == After(wf, outcomes, m)
  {
    if m < n {
      StopSticks(wf, outcomes, m, n - 1);
    }
  }

  lemma {:induction false} MissingSticks(step: WorkflowStep, p: Progress, j: nat, k: nat)
    requires j <= k <= |step.dependsOn| && Checked(step, p, j).stop.Some?
    ensures Checked(step, p, k) == Checked(step, p, j)
  {
    if j < k {
      MissingSticks(step, p, j, k - 1);
    }
  }

  class WorkflowEngine {
    var workflows: map<string, Workflow>

    constructor ()
      ensures workflows == map[]
    {
      workflows := map[];
    }

    method Register(wf: Workflow)
      modifies this
      ensures workflows == old(workflows)[wf.id := wf]
    {
      workflows := workflows[wf.id := wf];
    }

    /** None stands for a workflow that is not registered. */
    method Execute(id: string, outcomes: seq<Outcome>) returns (result: Option<WorkflowResult>)
      requires id in workflows ==> |workflows[id].steps| <= |outcomes|
      ensures id !in workflows ==> result == None
      ensures id in workflows ==>
        result == Some(ResultOf(After(workflows[id], outcomes, |workflows[id].steps|)))
    {
      if id !in workflows {
        return None;
      }
      var wf := workflows[id];
      var results: seq<StepResult> := [];
      var completed: set<string> := {};
      var last: map<string, bool> := map[];
      for i := 0 to |wf.steps|
        invariant Progress(results, last, None) == After(wf, outcomes, i) && completed == last.Keys
      {
        var step, o := wf.steps[i], outcomes[i];
        var missing;
        results, missing := CheckDependencies(step, results, completed, last);
        if missing.Some? {
          StopSticks(wf, outcomes, i + 1, |wf.steps|);
          return Some(WorkflowResult(false, results, missing));
        }
        results := results + [RanEntry(step, o)];
        last := last[step.id := o.success];
        completed := completed + {step.id};
        if !o.success && (step.onError == "stop" || (step.onError == "" && wf.onError == "stop")) {
          StopSticks(wf, outcomes, i + 1, |wf.steps|);
          return Some(WorkflowResult(false, results, Some(StepFailed(step.id, o.error))));
        }
      }
      return Some(WorkflowResult(true, results, None));
    }

    /** The loop over the dependencies; moving on to the next one is all a failed dependency does. */
    method CheckDependencies(step: WorkflowStep, before: seq<StepResult>, completed: set<string>,
            last: map<string, bool>)
      returns (results: seq<StepResult>, missing: Option<Error>)
      requires completed == last.Keys
      ensures Progress(results, last, missing) == Checked(step, Progress(before, last, None), |step.dependsOn|)
    {
      results, missing := before, None;
      ghost var p := Progress(before, last, None);
      for k := 0 to |step.dependsOn|
        invariant Progress(results, last, None) == Checked(step, p, k)
      {
        var dep := step.dependsOn[k];
        if dep !in completed {
          missing := Some(Incomplete(step.id, dep));
          MissingSticks(step, p, k + 1, |step.dependsOn|);
          return;
        }
        if dep in last && !last[dep] {
          results := results + [SkipEntry(step)];
          continue;
        }
      }
      return;
    }
  }
}
