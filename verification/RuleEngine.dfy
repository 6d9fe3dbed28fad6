/** Autonomous rules: when one fires, what is recorded about it, and its cooldown over whole runs. */
module RuleEngine {

  import opened Wrappers

  const CAPACITY: nat := 100

  /** `lastTriggered` is None for a rule that never fired; that zero time lies before any cooldown. */
  datatype Rule = Rule(
    id: string, enabled: bool, cooldown: int, actions: seq<string>, lastTriggered: Option<int>, triggerCount: nat)

  datatype ActionResult = Produced(output: string) | Broke(error: string)

  datatype Event = Event(ruleID: string, action: string, success: bool, output: string, error: string)

  /** The world's part in one look at a rule: clock at the cooldown test, condition, results of actions, later clock. */
  datatype Visit = Visit(start: int, holds: bool, results: seq<ActionResult>, end: int)

  /** A firing of the rule at a position in the list. */
  datatype Trigger = Trigger(rule: nat, id: string, start: int, end: int)

  /** `log` lists every firing; `events` is the content of the event channel. */
  datatype State = State(rules: seq<Rule>, log: seq<Trigger>, events: seq<Event>)

  // ---------------------------------------------------------------------------
  // One evaluation.
  // ---------------------------------------------------------------------------

  predicate Cooling(rule: Rule, now: int) {
    rule.cooldown > 0 && rule.lastTriggered.Some? && now - rule.lastTriggered.value < rule.cooldown
  }

  predicate Fires(rule: Rule, v: Visit) {
    rule.enabled && !Cooling(rule, v.start) && v.holds
  }

  /** The first position with that id, or the length of the list. */
  function FirstWith(rules: seq<Rule>, id: string): (k: nat)
    ensures k <= |rules|
    ensures k < |rules| ==> rules[k].id == id
    ensures forall j :: 0 <= j < k ==> rules[j].id != id
  {
    if rules == [] then 0
    else
      var front, last := rules[..|rules| - 1], rules[|rules| - 1];
      var k := FirstWith(front, id);
      if k < |front| || last.id == id then k else |rules|
  }

  function Bumped(rules: seq<Rule>, id: string, now: int): seq<Rule> {
    var k := FirstWith(rules, id);
    if k < |rules| then rules[k := rules[k].(lastTriggered := Some(now), triggerCount := rules[k].triggerCount + 1)]
    else rules
  }

  /** A full channel drops the new event. */
  function Offer(events: seq<Event>, e: Event): seq<Event> {
    if |events| < CAPACITY then events + [e] else events
  }

  function ResultAt(v: Visit, i: nat): ActionResult {
    if i < |v.results| then v.results[i] else Broke("")
  }

  function EventOf(ruleID: string, action: string, result: ActionResult): Event {
    match result
    case Produced(output) => Event(ruleID, action, true, output, "")
    case Broke(error) => Event(ruleID, action, false, "", error)
  }

  /** The events of the rule's first n actions, offered in turn. */
  function Offered(events: seq<Event>, rule: Rule, v: Visit, n: nat): seq<Event>
    requires n <= |rule.actions|
  {
    if n == 0 then events
    else
      Offer(Offered(events, rule, v, n - 1), EventOf(rule.id, rule.actions[n - 1], ResultAt(v, n - 1)))
  }

  function Visited(s: State, k: nat, rule: Rule, v: Visit): State {
    if Fires(rule, v) then
      State(Bumped(s.rules, rule.id, v.end), s.log + [Trigger(k, rule.id, v.start, v.end)],
            Offered(s.events, rule, v, |rule.actions|))
    else s
  }

  /** After the first n rules of the snapshot. */
  function Evaluated(s: State, snapshot: seq<Rule>, visits: seq<Visit>, n: nat): State
    requires n <= |snapshot| && n <= |visits|
  {
    if n == 0 then s else Visited(Evaluated(s, snapshot, visits, n - 1), n - 1, snapshot[n - 1], visits[n - 1])
  }

  /** One evaluation after another, the collector taking some events before each. */
  datatype Round = Round(drained: nat, visits: seq<Visit>)

  predicate Fits(rounds: seq<Round>, n: nat) {
    forall r <- rounds :: |r.visits| == n
  }

  function Drain(s: State, n: nat): State {
    s.(events := if n < |s.events| then s.events[n..] else [])
  }

  function After(rules: seq<Rule>, rounds: seq<Round>): (s: State)
    requires Fits(rounds, |rules|)
    ensures |s.rules| == |rules|
  {
    if rounds == [] then State(rules, [], [])
    else
      var s, r := After(rules, rounds[..|rounds| - 1]), rounds[|rounds| - 1];
      EvaluatedLength(Drain(s, r.drained), s.rules, r.visits, |s.rules|);
      Evaluated(Drain(s, r.drained), s.rules, r.visits, |s.rules|)
  }

  lemma {:induction false} EvaluatedLength(s: State, snapshot: seq<Rule>, visits: seq<Visit>, n: nat)
    requires n <= |snapshot| && n <= |visits|
    ensures |Evaluated(s, snapshot, visits, n).rules| == |s.rules|
  {
    if n == 0 {
    } else {
      EvaluatedLength(s, snapshot, visits, n - 1);
    }
  }

  // ---------------------------------------------------------------------------
  // What is recorded.
  // ---------------------------------------------------------------------------

  /** The end of the last firing under the rule's id, or what the rule said at first. */
  function LastEnd(log: seq<Trigger>, rule: Rule): Option<int> {
    if log == [] then rule.lastTriggered
    else if log[|log| - 1].id == rule.id then Some(log[|log| - 1].end)
    else LastEnd(log[..|log| - 1], rule)
  }

  function Count(log: seq<Trigger>, id: string): nat {
    if log == [] then 0 else Count(log[..|log| - 1], id) + if log[|log| - 1].id == id then 1 else 0
  }

  /** The first rule of an id records the firings under that id; a later one stays as it was. */
  function Recorded(initial: seq<Rule>, log: seq<Trigger>, k: nat): Rule
    requires k < |initial|
  {
    var rule := initial[k];
    if FirstWith(initial, rule.id) != k then rule
    else rule.(lastTriggered := LastEnd(log, rule), triggerCount := rule.triggerCount + Count(log, rule.id))
  }

  function AllRecorded(initial: seq<Rule>, log: seq<Trigger>, n: nat): (rules: seq<Rule>)
    requires n <= |initial|
    ensures |rules| == n
  {
    if n == 0 then [] else AllRecorded(initial, log, n - 1) + [Recorded(initial, log, n - 1)]
  }

  predicate Records(initial: seq<Rule>, s: State) {
    s.rules == AllRecorded(initial, s.log, |initial|)
  }

  lemma {:induction false} RecordedAt(initial: seq<Rule>, log: seq<Trigger>, n: nat, k: nat)
    requires k < n <= |initial|
    ensures AllRecorded(initial, log, n)[k] == Recorded(initial, log, k)
  {
    if k < n - 1 {
      RecordedAt(initial, log, n - 1, k);
    }
  }

  lemma {:induction false} RecordedFirst(initial: seq<Rule>, log: seq<Trigger>, id: string)
    ensures FirstWith(AllRecorded(initial, log, |initial|), id) == FirstWith(initial, id)
  {
    forall k | 0 <= k < |initial|
      ensures AllRecorded(initial, log, |initial|)[k].id == initial[k].id
    {
      RecordedAt(initial, log, |initial|, k);
    }
    SameFirst(AllRecorded(initial, log, |initial|), initial, id);
  }

  lemma {:induction false} SameFirst(a: seq<Rule>, b: seq<Rule>, id: string)
    requires |a| == |b| && forall k :: 0 <= k < |a| ==> a[k].id == b[k].id
    ensures FirstWith(a, id) == FirstWith(b, id)
  {
    if a == [] {
    } else {
      SameFirst(a[..|a| - 1], b[..|b| - 1], id);
    }
  }

  lemma {:induction false} LogAppend(log: seq<Trigger>, t: Trigger, rule: Rule)
    ensures LastEnd(log + [t], rule) == if t.id == rule.id then Some(t.end) else LastEnd(log, rule)
    ensures Count(log + [t], rule.id) == Count(log, rule.id) + if t.id == rule.id then 1 else 0
  {
    assert (log + [t])[..|log|] == log;
  }

  /** One firing changes what rule j records only if j is the first rule of that id. */
  lemma {:induction false} RecordedAfter(initial: seq<Rule>, log: seq<Trigger>, t: Trigger, j: nat)
    requires j < |initial|
    ensures var rule := Recorded(initial, log, j);
      Recorded(initial, log + [t], j)
      == if FirstWith(initial, t.id) == j
         then rule.(lastTriggered := Some(t.end), triggerCount := rule.triggerCount + 1) else rule
  {
    LogAppend(log, t, initial[j]);
  }

  lemma {:induction false} VisitRecords(initial: seq<Rule>, s: State, k: nat, v: Visit)
    requires Records(initial, s) && k < |initial|
    ensures Records(initial, Visited(s, k, s.rules[k], v))
  {
    var rule := s.rules[k];
    if Fires(rule, v) {
      var t := Trigger(k, rule.id, v.start, v.end);
      BumpRecords(initial, s.log, t);
    }
  }

  lemma {:induction false} BumpRecords(initial: seq<Rule>, log: seq<Trigger>, t: Trigger)
    ensures Bumped(AllRecorded(initial, log, |initial|), t.id, t.end) == AllRecorded(initial, log + [t], |initial|)
  {
    var before, after := AllRecorded(initial, log, |initial|), AllRecorded(initial, log + [t], |initial|);
    var bumped := Bumped(before, t.id, t.end);
    RecordedFirst(initial, log, t.id);
    forall j | 0 <= j < |initial|
      ensures bumped[j] == after[j]
    {
      RecordedAt(initial, log, |initial|, j);
      RecordedAt(initial, log + [t], |initial|, j);
      RecordedAfter(initial, log, t, j);
    }
  }

  /** Until its own visit, a rule is what the snapshot says. */
  lemma {:induction false} SnapshotIsCurrent(s: State, visits: seq<Visit>, n: nat, k: nat)
    requires n <= k < |s.rules| && n <= |visits|
    ensures var t := Evaluated(s, s.rules, visits, n);
      && |t.rules| == |s.rules| && t.rules[k] == s.rules[k]
      && forall j :: 0 <= j < |s.rules| ==> t.rules[j].id == s.rules[j].id
  {
    if n == 0 {
    } else {
      SnapshotIsCurrent(s, visits, n - 1, k);
      var before, rule := Evaluated(s, s.rules, visits, n - 1), s.rules[n - 1];
      assert before.rules[n - 1].id == rule.id;
      assert FirstWith(before.rules, rule.id) <= n - 1;
    }
  }

  /** The same evaluation, looking at each rule as it is when its turn comes. */
  function Live(s: State, visits: seq<Visit>, n: nat): (t: State)
    requires n <= |s.rules| && n <= |visits|
    ensures |t.rules| == |s.rules|
  {
    if n == 0 then s
    else
      var before := Live(s, visits, n - 1);
      Visited(before, n - 1, before.rules[n - 1], visits[n - 1])
  }

  /** Copying the rules before the loop makes no difference. */
  lemma {:induction false} EvaluatedIsLive(s: State, visits: seq<Visit>, n: nat)
    requires n <= |s.rules| && n <= |visits|
    ensures Evaluated(s, s.rules, visits, n) == Live(s, visits, n)
  {
    if n == 0 {
    } else {
      EvaluatedIsLive(s, visits, n - 1);
      SnapshotIsCurrent(s, visits, n - 1, n - 1);
    }
  }

  lemma {:induction false} LiveRecords(initial: seq<Rule>, s: State, visits: seq<Visit>, n: nat)
    requires Records(initial, s) && n <= |s.rules| && n <= |visits|
    ensures Records(initial, Live(s, visits, n))
  {
    if n == 0 {
    } else {
      LiveRecords(initial, s, visits, n - 1);
      var before := Live(s, visits, n - 1);
      VisitRecords(initial, before, n - 1, visits[n - 1]);
    }
  }

  lemma {:induction false} EvaluationRecords(initial: seq<Rule>, s: State, visits: seq<Visit>, n: nat)
    requires Records(initial, s) && n <= |s.rules| && n <= |visits|
    ensures Records(initial, Evaluated(s, s.rules, visits, n))
  {
    LiveRecords(initial, s, visits, n);
    EvaluatedIsLive(s, visits, n);
  }

  lemma {:induction false} NothingRecorded(rules: seq<Rule>, n: nat)
    requires n <= |rules|
    ensures AllRecorded(rules, [], n) == rules[..n]
    ensures AllRecorded(rules, [], |rules|) == rules || n < |rules|
  {
    if n == 0 {
    } else {
      NothingRecorded(rules, n - 1);
      assert rules[..n] == rules[..n - 1] + [rules[n - 1]];
    }
    assert rules[..|rules|] == rules;
  }

  /** Over every run without SetRules, each rule records what Recorded says. */
  lemma {:induction false} RunRecords(rules: seq<Rule>, rounds: seq<Round>)
    requires Fits(rounds, |rules|)
    ensures Records(rules, After(rules, rounds))
  {
    if rounds != [] {
      var front, r := rounds[..|rounds| - 1], rounds[|rounds| - 1];
      RunRecords(rules, front);
      EvaluationRecords(rules, Drain(After(rules, front), r.drained), r.visits, |rules|);
    } else {
      NothingRecorded(rules, |rules|);
    }
  }

  // ---------------------------------------------------------------------------
  // The cooldown.
  // ---------------------------------------------------------------------------

  /** Each firing of rule k starts at least its cooldown after the last recorded end under its id. */
  predicate Spaced(initial: seq<Rule>, log: seq<Trigger>, k: nat)
    requires k < |initial|
  {
    log == [] ||
    var front, t, rule := log[..|log| - 1], log[|log| - 1], initial[k];
    && Spaced(initial, front, k)
    && (t.rule == k && rule.cooldown > 0 && LastEnd(front, rule).Some? ==>
          t.start >= LastEnd(front, rule).value + rule.cooldown)
  }

  lemma {:induction false} VisitSpaced(initial: seq<Rule>, s: State, n: nat, v: Visit, k: nat)
    requires Records(initial, s) && n < |initial| && k < |initial|
    requires FirstWith(initial, initial[k].id) == k && Spaced(initial, s.log, k)
    ensures Spaced(initial, Visited(s, n, s.rules[n], v).log, k)
  {
    var t := Trigger(n, s.rules[n].id, v.start, v.end);
    assert (s.log + [t])[..|s.log|] == s.log;
    RecordedAt(initial, s.log, |initial|, k);
  }

  lemma {:induction false} LiveSpaced(initial: seq<Rule>, s: State, visits: seq<Visit>, n: nat, k: nat)
    requires Records(initial, s) && n <= |s.rules| && n <= |visits| && k < |initial|
    requires FirstWith(initial, initial[k].id) == k && Spaced(initial, s.log, k)
    ensures Spaced(initial, Live(s, visits, n).log, k)
  {
    if n == 0 {
    } else {
      LiveSpaced(initial, s, visits, n - 1, k);
      LiveRecords(initial, s, visits, n - 1);
      VisitSpaced(initial, Live(s, visits, n - 1), n - 1, visits[n - 1], k);
    }
  }

  lemma {:induction false} EvaluationSpaced(initial: seq<Rule>, s: State, visits: seq<Visit>, n: nat, k: nat)
    requires Records(initial, s) && n <= |s.rules| && n <= |visits| && k < |initial|
    requires FirstWith(initial, initial[k].id) == k && Spaced(initial, s.log, k)
    ensures Spaced(initial, Evaluated(s, s.rules, visits, n).log, k)
  {
    LiveSpaced(initial, s, visits, n, k);
    EvaluatedIsLive(s, visits, n);
  }

  lemma {:induction false} RunSpaced(rules: seq<Rule>, rounds: seq<Round>, k: nat)
    requires Fits(rounds, |rules|) && k < |rules| && FirstWith(rules, rules[k].id) == k
    ensures Spaced(rules, After(rules, rounds).log, k)
  {
    if rounds == [] {
    } else {
      var front, r := rounds[..|rounds| - 1], rounds[|rounds| - 1];
      RunSpaced(rules, front, k);
      RunRecords(rules, front);
      EvaluationSpaced(rules, Drain(After(rules, front), r.drained), r.visits, |rules|, k);
    }
  }

  lemma {:induction false} LastEndAt(log: seq<Trigger>, rule: Rule, p: nat)
    requires p < |log| && log[p].id == rule.id && forall m :: p < m < |log| ==> log[m].id != rule.id
    ensures LastEnd(log, rule) == Some(log[p].end)
  {
    if p < |log| - 1 {
      LastEndAt(log[..|log| - 1], rule, p);
    }
  }

  lemma {:induction false} SpacedPrefix(initial: seq<Rule>, log: seq<Trigger>, k: nat, q: nat)
    requires k < |initial| && Spaced(initial, log, k) && q <= |log|
    ensures Spaced(initial, log[..q], k)
  {
    if q < |log| {
      SpacedPrefix(initial, log[..|log| - 1], k, q);
      assert log[..|log| - 1][..q] == log[..q];
    } else {
      assert log[..q] == log;
    }
  }

  /** With one rule to an id, a firing starts at least the cooldown after the previous firing of the rule ended. */
  lemma {:induction false} CooldownKept(rules: seq<Rule>, rounds: seq<Round>, k: nat, p: nat, q: nat)
    requires Fits(rounds, |rules|) && k < |rules| && FirstWith(rules, rules[k].id) == k && rules[k].cooldown > 0
    requires p < q < |After(rules, rounds).log|
    requires var log := After(rules, rounds).log;
      log[q].rule == k && log[p].id == rules[k].id && forall m :: p < m < q ==> log[m].id != rules[k].id
    ensures var log := After(rules, rounds).log;
      log[q].start >= log[p].end + rules[k].cooldown
  {
    var log := After(rules, rounds).log;
    RunSpaced(rules, rounds, k);
    SpacedPrefix(rules, log, k, q + 1);
    assert log[..q + 1][..q] == log[..q];
    LastEndAt(log[..q], rules[k], p);
  }

  /** GetRuleStats: of rules with the same id the last one counts. */
  function RuleStats(rules: seq<Rule>): map<string, nat> {
    if rules == [] then map[]
    else RuleStats(rules[..|rules| - 1])[rules[|rules| - 1].id := rules[|rules| - 1].triggerCount]
  }

  lemma {:induction false} StatsAreLast(rules: seq<Rule>, k: nat)
    requires k < |rules| && forall j :: k < j < |rules| ==> rules[j].id != rules[k].id
    ensures rules[k].id in RuleStats(rules) && RuleStats(rules)[rules[k].id] == rules[k].triggerCount
  {
    if k < |rules| - 1 {
      StatsAreLast(rules[..|rules| - 1], k);
    }
  }

  lemma {:induction false} StatsSeeIds(rules: seq<Rule>, log: seq<Trigger>, k: nat)
    requires k < |rules| && forall j :: k < j < |rules| ==> rules[j].id != rules[k].id
    ensures var all := AllRecorded(rules, log, |rules|);
      all[k].id == rules[k].id && forall j :: k < j < |rules| ==> all[j].id != all[k].id
  {
    RecordedAt(rules, log, |rules|, k);
    forall j | k < j < |rules|
      ensures AllRecorded(rules, log, |rules|)[j].id != rules[k].id
    {
      RecordedAt(rules, log, |rules|, j);
    }
  }

  /**
   The count reported for an id is the number of its firings since the start, if only one rule has the id;
   otherwise it is stuck at what the last rule of that id started with.
   */
  lemma {:induction false} StatsCountFirings(rules: seq<Rule>, rounds: seq<Round>, k: nat)
    requires Fits(rounds, |rules|) && k < |rules| && forall j :: k < j < |rules| ==> rules[j].id != rules[k].id
    ensures var s, id := After(rules, rounds), rules[k].id;
      && id in RuleStats(s.rules)
      && RuleStats(s.rules)[id]
         == rules[k].triggerCount + if FirstWith(rules, id) == k then Count(s.log, id) else 0
  {
    RunRecords(rules, rounds);
    RecordedAt(rules, After(rules, rounds).log, |rules|, k);
    StatsSeeIds(rules, After(rules, rounds).log, k);
    StatsAreLast(After(rules, rounds).rules, k);
  }

  // ---------------------------------------------------------------------------
  // A second rule with the same id has no cooldown.
  // ---------------------------------------------------------------------------

  /** Only rule k's condition holds, at the same instant. */
  function OnlyAt(n: nat, k: nat, now: int): (visits: seq<Visit>)
    ensures |visits| == n && forall j :: 0 <= j < n ==> visits[j] == Visit(now, j == k, [], now)
  {
    if n == 0 then [] else OnlyAt(n - 1, k, now) + [Visit(now, n - 1 == k, [], now)]
  }

  lemma {:induction false} OnlyOneFires(s: State, k: nat, now: int, n: nat)
    requires k < |s.rules| && n <= |s.rules| && s.rules[k].enabled && !Cooling(s.rules[k], now)
    ensures Evaluated(s, s.rules, OnlyAt(|s.rules|, k, now), n).log
         == s.log + if n <= k then [] else [Trigger(k, s.rules[k].id, now, now)]
  {
    if n == 0 {
    } else {
      OnlyOneFires(s, k, now, n - 1);
    }
  }

  /** An enabled rule behind another of its id that may fire once can fire twice at once, whatever its cooldown. */
  lemma {:induction false} DuplicateIdHasNoCooldown(rules: seq<Rule>, k: nat, now: int)
    requires k < |rules| && FirstWith(rules, rules[k].id) < k && rules[k].enabled && !Cooling(rules[k], now)
    ensures var rounds := [Round(0, OnlyAt(|rules|, k, now)), Round(0, OnlyAt(|rules|, k, now))];
      var t := Trigger(k, rules[k].id, now, now);
      Fits(rounds, |rules|) && After(rules, rounds).log == [t, t]
  {
    var r, none := Round(0, OnlyAt(|rules|, k, now)), State(rules, [], []);
    OneMoreRound(rules, [], r);
    OnlyOneFires(none, k, now, |rules|);
    assert [] + [r] == [r] && Drain(After(rules, []), 0) == none;
    var s := After(rules, [r]);
    assert s.log == [Trigger(k, rules[k].id, now, now)];
    RunRecords(rules, [r]);
    RecordedAt(rules, s.log, |rules|, k);
    assert s.rules[k] == rules[k];
    OnlyOneFires(Drain(s, 0), k, now, |rules|);
    OneMoreRound(rules, [r], r);
    assert [r] + [r] == [r, r];
  }

  lemma {:induction false} OneMoreRound(rules: seq<Rule>, rounds: seq<Round>, r: Round)
    requires Fits(rounds, |rules|) && |r.visits| == |rules|
    ensures Fits(rounds + [r], |rules|)
    ensures var s := After(rules, rounds);
      After(rules, rounds + [r]) == Evaluated(Drain(s, r.drained), s.rules, r.visits, |s.rules|)
  {
    assert (rounds + [r])[..|rounds|] == rounds;
  }

  // ---------------------------------------------------------------------------
  // The engine.
  // ---------------------------------------------------------------------------

  class RuleEngine {
    var rules: seq<Rule>
    var eventChan: seq<Event>
    ghost var log: seq<Trigger>

    constructor ()
      ensures St() == State([], [], [])
    {
      rules, eventChan, log := [], [], [];
    }

    ghost function St(): State
      reads this
    {
      State(rules, log, eventChan)
    }

    /** Replacing the rules forgets what was recorded, so the log starts anew. */
    method SetRules(rules: seq<Rule>)
      modifies this
      ensures St() == State(rules, [], old(eventChan))
    {
      this.rules := rules;
      log := [];
    }

    method Evaluate(visits: seq<Visit>)
      requires |visits| == |rules|
      modifies this
      ensures St() == Evaluated(old(St()), old(rules), visits, |visits|)
    {
      var snapshot := rules;
      for i := 0 to |snapshot|
        invariant St() == Evaluated(old(St()), snapshot, visits, i)
      {
        var rule, v := snapshot[i], visits[i];
        if !rule.enabled {
          continue;
        }
        if rule.cooldown > 0 && rule.lastTriggered.Some? && v.start - rule.lastTriggered.value < rule.cooldown {
          continue;
        }
        if !v.holds {
          continue;
        }
        RunActions(rule, v);
        RecordTrigger(rule.id, v.end);
        log := log + [Trigger(i, rule.id, v.start, v.end)];
      }
    }

    method RunActions(rule: Rule, v: Visit)
      modifies this`eventChan
      ensures eventChan == Offered(old(eventChan), rule, v, |rule.actions|)
    {
      for i := 0 to |rule.actions|
        invariant eventChan == Offered(old(eventChan), rule, v, i)
      {
        var event := Event(rule.id, rule.actions[i], false, "", "");
        match ResultAt(v, i) {
          case Produced(output) => event := event.(success := true, output := output);
          case Broke(error) => event := event.(error := error);
        }
        if |eventChan| < CAPACITY {
          eventChan := eventChan + [event];
        }
      }
    }

    method RecordTrigger(id: string, now: int)
      modifies this`rules
      ensures rules == Bumped(old(rules), id, now)
    {
      for j := 0 to |rules|
        invariant rules == old(rules)
        invariant forall m :: 0 <= m < j ==> rules[m].id != id
      {
        if rules[j].id == id {
          rules := rules[j := rules[j].(lastTriggered := Some(now), triggerCount := rules[j].triggerCount + 1)];
          return;
        }
      }
    }

    method GetRuleStats() returns (stats: map<string, nat>)
      ensures stats == RuleStats(rules)
    {
      stats := map[];
      for i := 0 to |rules|
        invariant stats == RuleStats(rules[..i])
      {
        assert rules[..i + 1][..i] == rules[..i];
        stats := stats[rules[i].id := rules[i].triggerCount];
      }
      assert rules[..|rules|] == rules;
    }
  }
}
