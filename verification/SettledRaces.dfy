/**
 What becomes of a row once a status is stored, while answers are handled at the same time: who can still
 replace it, and when that happens.
 */
module SettledRaces {

  import opened Wrappers
  import opened PendingActions
  import opened ConfirmProtocol
  import opened ConfirmRaces

  // ---------------------------------------------------------------------------
  // Only an answer that looked earlier replaces a stored status.
  // ---------------------------------------------------------------------------

  lemma {:induction false} WritingKeepsOthers(w: Shared, k: nat, j: nat, accepted: bool, id: string)
    requires RaceInv(w) && k < |w.plans| && !WritesIn(w.plans[k].decision, id)
    ensures Find(Writing(w, k, j, accepted).rows, id) == Find(w.rows, id)
  {
    FindAfterStore(w.rows, w.plans[k].decision.writes, j, accepted, id);
  }

  /** After the first stored status of a row, only answers that looked it up before that change it. */
  lemma {:induction false} OnlyEarlierLookupsChange(w: Shared, s: Step, id: string)
    requires RaceInv(w) && Enabled(w, s) && id in w.written
    ensures Find(Next(w, s).rows, id) != Find(w.rows, id) ==>
      s.Advance? && WritesIn(w.plans[s.plan].decision, id) && w.plans[s.plan].lookedAt < w.written[id]
  {
    assert PendingUntilWritten(w.rows, w.written, id);
    match s
    case Advance(k) =>
      if !WritesIn(w.plans[k].decision, id) {
        WritingKeepsOthers(w, k, 0, w.plans[k].env.firstWrite, id);
        WritingKeepsOthers(w, k, 1, w.plans[k].env.secondWrite, id);
      }
    case Insert(q, _, _) => FindAfterAppend(w.rows, w.questions[q].action, id);
    case _ =>
  }

  /** Every answer that writes to the row is over. */
  predicate WritersOver(w: Shared, id: string) {
    forall k :: 0 <= k < |w.plans| && WritesIn(w.plans[k].decision, id) ==> w.plans[k].stage == 3
  }

  lemma {:induction false} StepKeepsSettled(w: Shared, s: Step, id: string)
    requires RaceInv(w) && Enabled(w, s) && id in w.written && WritersOver(w, id)
    ensures id in Next(w, s).written && WritersOver(Next(w, s), id)
    ensures Find(Next(w, s).rows, id) == Find(w.rows, id)
  {
    OnlyEarlierLookupsChange(w, s, id);
    if s.Lookup? {
      DecidesIffUnwritten(w, id, s.reply, s.at);
    }
  }

  /**
   So a row is settled for good, whatever follows and whoever answers meanwhile, once a status is stored and
   every answer that writes to it is over.
   */
  lemma {:induction false} SettledOnceWritersAreOver(steps: seq<Step>, n: nat, id: string)
    requires Runs(steps) && n <= |steps|
    requires id in After(steps[..n]).written && WritersOver(After(steps[..n]), id)
    ensures id in After(steps).written && WritersOver(After(steps), id)
    ensures Find(After(steps).rows, id) == Find(After(steps[..n]).rows, id)
  {
    if n == |steps| {
      assert steps[..n] == steps;
    } else {
      var front := steps[..|steps| - 1];
      assert front[..n] == steps[..n];
      SettledOnceWritersAreOver(front, n, id);
      ConfirmRaces.RunKeepsInv(front);
      StepKeepsSettled(After(front), steps[|steps| - 1], id);
    }
  }

  // ---------------------------------------------------------------------------
  // The log of stored writes.
  // ---------------------------------------------------------------------------

  function LastFor(stored: seq<StoredWrite>, id: string): Option<Write> {
    if stored == [] then None
    else if stored[|stored| - 1].write.id == id then Some(stored[|stored| - 1].write)
    else LastFor(stored[..|stored| - 1], id)
  }

  predicate HoldsLast(w: Shared, id: string) {
    match LastFor(w.stored, id)
    case None => id !in w.written
    case Some(last) =>
      && id in w.written && Find(w.rows, id).Some?
      && Find(w.rows, id).value.status == last.status && Find(w.rows, id).value.errorMsg == last.errorMsg
  }

  lemma {:induction false} WritingHoldsLast(w: Shared, k: nat, j: nat, accepted: bool, id: string)
    requires k < |w.plans| && HoldsLast(w, id)
    ensures HoldsLast(Writing(w, k, j, accepted), id)
  {
    var writes := w.plans[k].decision.writes;
    FindAfterStore(w.rows, writes, j, accepted, id);
    if Stores(w.rows, writes, j, accepted) {
      assert (w.stored + [StoredWrite(k, writes[j])])[..|w.stored|] == w.stored;
    }
  }

  lemma {:induction false} StepHoldsLast(w: Shared, s: Step, id: string)
    requires Enabled(w, s) && HoldsLast(w, id)
    ensures HoldsLast(Next(w, s), id)
  {
    match s
    case Advance(k) =>
      var p := w.plans[k];
      if p.stage == 0 {
        WritingHoldsLast(w, k, 0, p.env.firstWrite, id);
      } else if p.stage == 2 {
        WritingHoldsLast(w, k, 1, p.env.secondWrite, id);
      }
    case Insert(q, _, _) => FindAfterAppend(w.rows, w.questions[q].action, id);
    case _ =>
  }

  /** At every moment a row shows the last stored write of its status and message, and is pending without one. */
  lemma {:induction false} RowHoldsLastStored(steps: seq<Step>, id: string)
    ensures HoldsLast(After(steps), id)
  {
    if steps == [] {
    } else {
      var front, s := steps[..|steps| - 1], steps[|steps| - 1];
      RowHoldsLastStored(front, id);
      if Enabled(After(front), s) {
        StepHoldsLast(After(front), s, id);
      }
    }
  }

  // ---------------------------------------------------------------------------
  // Which answers have stored something.
  // ---------------------------------------------------------------------------

  predicate HasStored(stored: seq<StoredWrite>, k: nat) {
    exists i :: 0 <= i < |stored| && stored[i].plan == k
  }

  predicate StoredSoFar(p: Plan) {
    || (p.stage >= 1 && p.env.firstWrite && |p.decision.writes| >= 1)
    || (p.stage >= 3 && p.env.secondWrite && |p.decision.writes| >= 2)
  }

  /** At least one write of the answer is accepted. */
  predicate Storing(d: Decision, env: Surroundings) {
    (env.firstWrite && |d.writes| >= 1) || (env.secondWrite && |d.writes| >= 2)
  }

  predicate FromPlan(plans: seq<Plan>, e: StoredWrite) {
    e.plan < |plans| && WritesIn(plans[e.plan].decision, e.write.id)
  }

  ghost predicate LogInv(w: Shared) {
    && (forall i :: 0 <= i < |w.stored| ==> FromPlan(w.plans, w.stored[i]))
    && (forall k :: 0 <= k < |w.plans| ==> (HasStored(w.stored, k) <==> StoredSoFar(w.plans[k])))
  }

  lemma {:induction false} HasStoredAfter(stored: seq<StoredWrite>, e: StoredWrite, k: nat)
    ensures HasStored(stored + [e], k) <==> HasStored(stored, k) || e.plan == k
  {
    assert (stored + [e])[|stored|] == e;
    forall i | 0 <= i < |stored|
      ensures (stored + [e])[i] == stored[i]
    {
    }
  }

  lemma {:induction false} WritingLogs(w: Shared, k: nat, j: nat, accepted: bool)
    requires RaceInv(w) && LogInv(w) && k < |w.plans|
    requires (j == 0 && w.plans[k].stage == 0 && accepted == w.plans[k].env.firstWrite)
          || (j == 1 && w.plans[k].stage == 2 && accepted == w.plans[k].env.secondWrite)
    ensures LogInv(Writing(w, k, j, accepted))
  {
    var writes := w.plans[k].decision.writes;
    assert PlanFits(w, w.plans[k]);
    if Stores(w.rows, writes, j, accepted) {
      forall m | 0 <= m < |w.plans|
        ensures HasStored(w.stored + [StoredWrite(k, writes[j])], m) <==> HasStored(w.stored, m) || m == k
      {
        HasStoredAfter(w.stored, StoredWrite(k, writes[j]), m);
      }
    }
  }

  lemma {:induction false} NothingStoredYet(w: Shared)
    requires LogInv(w)
    ensures !HasStored(w.stored, |w.plans|)
  {
    forall i | 0 <= i < |w.stored|
      ensures w.stored[i].plan != |w.plans|
    {
      assert FromPlan(w.plans, w.stored[i]);
    }
  }

  lemma {:induction false} StepKeepsLog(w: Shared, s: Step)
    requires RaceInv(w) && LogInv(w) && Enabled(w, s)
    ensures LogInv(Next(w, s))
  {
    match s
    case Lookup(_, _) => NothingStoredYet(w);
    case Advance(k) =>
      var p := w.plans[k];
      if p.stage == 0 {
        WritingLogs(w, k, 0, p.env.firstWrite);
      } else if p.stage == 2 {
        WritingLogs(w, k, 1, p.env.secondWrite);
      }
    case _ =>
  }

  lemma {:induction false} RunKeepsLog(steps: seq<Step>)
    ensures LogInv(After(steps))
  {
    if steps == [] {
    } else {
      var front, s := steps[..|steps| - 1], steps[|steps| - 1];
      RunKeepsLog(front);
      ConfirmRaces.RunKeepsInv(front);
      if Enabled(After(front), s) {
        StepKeepsLog(After(front), s);
      }
    }
  }

  // ---------------------------------------------------------------------------
  // When one answer replaces what another stored.
  // ---------------------------------------------------------------------------

  /** Two answers stored a status of the row, so the later one replaced the earlier one's. */
  predicate Replaced(stored: seq<StoredWrite>, id: string) {
    exists i, j :: 0 <= i < j < |stored| && stored[i].write.id == id && stored[j].write.id == id
                   && stored[i].plan != stored[j].plan
  }

  predicate StoresFor(p: Plan, id: string) {
    WritesIn(p.decision, id) && Storing(p.decision, p.env)
  }

  predicate TwoStoreFor(plans: seq<Plan>, id: string) {
    exists j, k :: 0 <= j < k < |plans| && StoresFor(plans[j], id) && StoresFor(plans[k], id)
  }

  lemma {:induction false} LoggedStores(w: Shared, i: nat)
    requires LogInv(w) && AllOver(w) && i < |w.stored|
    ensures w.stored[i].plan < |w.plans| && StoresFor(w.plans[w.stored[i].plan], w.stored[i].write.id)
  {
    assert FromPlan(w.plans, w.stored[i]);
    assert HasStored(w.stored, w.stored[i].plan);
  }

  lemma {:induction false} StoringIsLogged(w: Shared, k: nat, id: string) returns (i: nat)
    requires LogInv(w) && AllOver(w) && k < |w.plans| && StoresFor(w.plans[k], id)
    ensures i < |w.stored| && w.stored[i].plan == k && w.stored[i].write.id == id
  {
    assert HasStored(w.stored, k);
    i :| 0 <= i < |w.stored| && w.stored[i].plan == k;
    assert FromPlan(w.plans, w.stored[i]);
  }

  lemma {:induction false} ReplacedIffTwoStore(w: Shared, id: string)
    requires LogInv(w) && AllOver(w)
    ensures Replaced(w.stored, id) <==> TwoStoreFor(w.plans, id)
  {
    if i, j :| 0 <= i < j < |w.stored| && w.stored[i].write.id == id && w.stored[j].write.id == id
               && w.stored[i].plan != w.stored[j].plan {
      LoggedStores(w, i);
      LoggedStores(w, j);
    }
    if j, k :| 0 <= j < k < |w.plans| && StoresFor(w.plans[j], id) && StoresFor(w.plans[k], id) {
      var a := StoringIsLogged(w, j, id);
      var b := StoringIsLogged(w, k, id);
      assert a < b || b < a;
    }
  }

  /** Step m looks the row up first, and its answer gets a status stored. */
  predicate StoresFirst(steps: seq<Step>, m: nat, id: string)
    requires m < |steps|
  {
    && LooksFirst(steps, m, id)
    && var w := After(steps[..m]);
      var reply := w.replies[steps[m].reply];
      Storing(DecidedBy(w.rows, reply, steps[m].at), reply.env)
  }

  predicate TwoStoreFirst(steps: seq<Step>, id: string) {
    exists m, n :: 0 <= m < n < |steps| && StoresFirst(steps, m, id) && StoresFirst(steps, n, id)
  }

  lemma {:induction false} StoresForIffFirst(steps: seq<Step>, k: nat, id: string)
    requires Runs(steps) && k < |After(steps).plans|
    ensures After(steps).plans[k].lookedAt < |steps|
    ensures StoresFor(After(steps).plans[k], id) <==> StoresFirst(steps, After(steps).plans[k].lookedAt, id)
  {
    PlanHasLookup(steps, k);
    DecidesIffLooksFirst(steps, k, id);
  }

  lemma {:induction false} StoreMeansLook(steps: seq<Step>, id: string)
    requires Runs(steps) && TwoStoreFor(After(steps).plans, id)
    ensures TwoStoreFirst(steps, id)
  {
    var plans := After(steps).plans;
    var j, k :| 0 <= j < k < |plans| && StoresFor(plans[j], id) && StoresFor(plans[k], id);
    LooksAscend(steps, j, k);
    StoresForIffFirst(steps, j, id);
    StoresForIffFirst(steps, k, id);
  }

  lemma {:induction false} StoringPlan(steps: seq<Step>, m: nat, id: string) returns (k: nat)
    requires Runs(steps) && m < |steps| && StoresFirst(steps, m, id)
    ensures k < |After(steps).plans| && After(steps).plans[k].lookedAt == m && StoresFor(After(steps).plans[k], id)
  {
    k := LookupHasPlan(steps, m);
    StoresForIffFirst(steps, k, id);
  }

  lemma {:induction false} LookMeansStore(steps: seq<Step>, m: nat, n: nat, id: string)
    requires Runs(steps) && m < n < |steps| && StoresFirst(steps, m, id) && StoresFirst(steps, n, id)
    ensures TwoStoreFor(After(steps).plans, id)
  {
    var j := StoringPlan(steps, m, id);
    var k := StoringPlan(steps, n, id);
    PlansInOrder(steps, j, k);
  }

  /**
   Over every interleaving in which all answers are over: a status stored by one answer was replaced by
   another's if and only if two answers that get a status stored looked the row up before the first one was.
   */
  lemma {:induction false} ReplacedIffTwoLookFirst(steps: seq<Step>, id: string)
    requires Runs(steps) && AllOver(After(steps))
    ensures Replaced(After(steps).stored, id) <==> TwoStoreFirst(steps, id)
  {
    RunKeepsLog(steps);
    ReplacedIffTwoStore(After(steps), id);
    if TwoStoreFor(After(steps).plans, id) {
      StoreMeansLook(steps, id);
    }
    if m, n :| 0 <= m < n < |steps| && StoresFirst(steps, m, id) && StoresFirst(steps, n, id) {
      LookMeansStore(steps, m, n, id);
    }
  }
}
