/** Which rules fire, over one evaluation and over runs, and what is queued about it. */
module RuleFirings {

  import opened Wrappers
  import opened RuleEngine

  /** Enabled, its condition holds, and its cooldown, if any, is over. */
  predicate Ready(rule: Rule, v: Visit) {
    && rule.enabled && v.holds
    && (rule.cooldown <= 0 || rule.lastTriggered.None? || v.start >= rule.lastTriggered.value + rule.cooldown)
  }

  function TriggerOf(snapshot: seq<Rule>, visits: seq<Visit>, k: nat): Trigger
    requires k < |snapshot| && k < |visits|
  {
    Trigger(k, snapshot[k].id, visits[k].start, visits[k].end)
  }

  /** An evaluation only adds to the log. */
  lemma {:induction false} LogGrows(s: State, snapshot: seq<Rule>, visits: seq<Visit>, n: nat)
    requires n <= |snapshot| && n <= |visits|
    ensures s.log <= Evaluated(s, snapshot, visits, n).log
  {
    if n == 0 {
    } else {
      LogGrows(s, snapshot, visits, n - 1);
    }
  }

  /** What an evaluation adds are triggers of rules that were ready, in the order of the rules, each once. */
  lemma {:induction false} FiredWasReady(s: State, snapshot: seq<Rule>, visits: seq<Visit>, n: nat, p: nat)
    requires n <= |snapshot| && n <= |visits| && |s.log| <= p < |Evaluated(s, snapshot, visits, n).log|
    ensures var log := Evaluated(s, snapshot, visits, n).log;
      && log[p].rule < n && log[p] == TriggerOf(snapshot, visits, log[p].rule)
      && Ready(snapshot[log[p].rule], visits[log[p].rule])
      && (p > |s.log| ==> log[p - 1].rule < log[p].rule)
  {
    if n == 0 {
    } else {
      var before := Evaluated(s, snapshot, visits, n - 1).log;
      LogGrows(s, snapshot, visits, n - 1);
      if p < |before| {
        FiredWasReady(s, snapshot, visits, n - 1, p);
      } else if p > |s.log| {
        FiredWasReady(s, snapshot, visits, n - 1, p - 1);
      }
    }
  }

  lemma {:induction false} ReadyFires(s: State, snapshot: seq<Rule>, visits: seq<Visit>, n: nat, k: nat)
    returns (p: nat)
    requires k < n <= |snapshot| && n <= |visits| && Ready(snapshot[k], visits[k])
    ensures var log := Evaluated(s, snapshot, visits, n).log;
      |s.log| <= p < |log| && log[p] == TriggerOf(snapshot, visits, k)
  {
    LogGrows(s, snapshot, visits, n - 1);
    if k == n - 1 {
      p := |Evaluated(s, snapshot, visits, n - 1).log|;
    } else {
      p := ReadyFires(s, snapshot, visits, n - 1, k);
    }
  }

  /** In one evaluation a rule fires if and only if it is ready at its visit. */
  lemma {:induction false} FiresIffReady(s: State, snapshot: seq<Rule>, visits: seq<Visit>, k: nat)
    requires k < |snapshot| == |visits|
    ensures var log := Evaluated(s, snapshot, visits, |visits|).log;
      (exists p :: |s.log| <= p < |log| && log[p] == TriggerOf(snapshot, visits, k)) <==> Ready(snapshot[k], visits[k])
  {
    var log := Evaluated(s, snapshot, visits, |visits|).log;
    if Ready(snapshot[k], visits[k]) {
      var p := ReadyFires(s, snapshot, visits, |visits|, k);
    }
    if p :| |s.log| <= p < |log| && log[p] == TriggerOf(snapshot, visits, k) {
      FiredWasReady(s, snapshot, visits, |visits|, p);
    }
  }

  /** Firing t is of an enabled rule, at a visit of some round at which its condition held. */
  predicate Held(rules: seq<Rule>, rounds: seq<Round>, t: Trigger) {
    && t.rule < |rules| && rules[t.rule].enabled && t.id == rules[t.rule].id
    && exists m :: 0 <= m < |rounds| && t.rule < |rounds[m].visits| && VisitOf(rounds[m].visits[t.rule], t)
  }

  predicate VisitOf(v: Visit, t: Trigger) {
    v.holds && v.start == t.start && v.end == t.end
  }

  /** Over every run, whatever fires is an enabled rule whose condition held at that visit. */
  lemma {:induction false} FiringsHeld(rules: seq<Rule>, rounds: seq<Round>, p: nat)
    requires Fits(rounds, |rules|) && p < |After(rules, rounds).log|
    ensures Held(rules, rounds, After(rules, rounds).log[p])
  {
    if rounds == [] {
    } else {
      var front, r := rounds[..|rounds| - 1], rounds[|rounds| - 1];
      var s := After(rules, front);
      var t := After(rules, rounds).log[p];
      LogGrows(Drain(s, r.drained), s.rules, r.visits, |s.rules|);
      if p < |s.log| {
        FiringsHeld(rules, front, p);
        var m :| 0 <= m < |front| && t.rule < |front[m].visits| && VisitOf(front[m].visits[t.rule], t);
        assert rounds[m] == front[m];
      } else {
        FiredWasReady(Drain(s, r.drained), s.rules, r.visits, |s.rules|, p);
        RunRecords(rules, front);
        RecordedAt(rules, s.log, |rules|, t.rule);
        assert VisitOf(rounds[|rounds| - 1].visits[t.rule], t);
      }
    }
  }

  // ---------------------------------------------------------------------------
  // The queued events.
  // ---------------------------------------------------------------------------

  /** One event for each of the first n actions. */
  function Said(rule: Rule, v: Visit, n: nat): (events: seq<Event>)
    requires n <= |rule.actions|
    ensures |events| == n
  {
    if n == 0 then [] else Said(rule, v, n - 1) + [EventOf(rule.id, rule.actions[n - 1], ResultAt(v, n - 1))]
  }

  /** Each says which rule and action, whether the action succeeded, and its output or its error. */
  lemma {:induction false} EventSays(rule: Rule, v: Visit, n: nat, i: nat)
    requires i < n <= |rule.actions| && n <= |v.results|
    ensures var e := Said(rule, v, n)[i];
      && e.ruleID == rule.id && e.action == rule.actions[i]
      && (e.success <==> v.results[i].Produced?)
      && (v.results[i].Produced? ==> e.output == v.results[i].output && e.error == "")
      && (v.results[i].Broke? ==> e.output == "" && e.error == v.results[i].error)
  {
    if i < n - 1 {
      EventSays(rule, v, n - 1, i);
    }
  }

  /** A firing queues its events in order, as far as there is room for 100; what was queued stays. */
  lemma {:induction false} EventsQueued(events: seq<Event>, rule: Rule, v: Visit, n: nat)
    requires n <= |rule.actions|
    ensures var all := events + Said(rule, v, n);
      Offered(events, rule, v, n) == if |all| <= 100 then all else if |events| >= 100 then events else all[..100]
  {
    if n == 0 {
    } else {
      EventsQueued(events, rule, v, n - 1);
      var before, all := events + Said(rule, v, n - 1), events + Said(rule, v, n);
      assert all == before + [EventOf(rule.id, rule.actions[n - 1], ResultAt(v, n - 1))];
      if |before| >= 100 && |events| < 100 {
        assert all[..100] == before[..100];
      }
    }
  }
}
