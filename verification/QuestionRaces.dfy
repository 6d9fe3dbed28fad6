/**
 Two questions at the same time: when more than one action waits for the same session and user.
 */
module QuestionRaces {

  import opened Wrappers
  import opened PendingActions
  import opened Clock
  import opened ConfirmProtocol
  import opened ConfirmRaces

  /** At most one row per session and user is waiting. */
  ghost predicate OneLive(rows: Table, now: Instant) {
    forall i, j, s, u :: 0 <= i < |rows| && 0 <= j < |rows| && IsLive(rows[i], s, u, now) && IsLive(rows[j], s, u, now)
      ==> i == j
  }

  /** Inserting a new action keeps that if and only if nothing waits for its session and user at the insert. */
  lemma {:induction false} InsertKeepsOneLiveIff(rows: Table, action: PendingAction, now: Instant)
    requires OneLive(rows, now) && IsLive(action, action.sessionID, action.userID, now)
    ensures OneLive(rows + [action], now) <==> Latest(rows, action.sessionID, action.userID, now).None?
  {
    var s, u, all := action.sessionID, action.userID, rows + [action];
    LatestIsNewestLive(rows, s, u, now);
    assert all[|rows|] == action;
    if i :| 0 <= i < |rows| && IsLive(rows[i], s, u, now) {
      assert IsLive(all[i], s, u, now) && IsLive(all[|rows|], s, u, now);
    } else {
      forall i, j, s', u' | 0 <= i < |all| && 0 <= j < |all|
        && IsLive(all[i], s', u', now) && IsLive(all[j], s', u', now)
        ensures i == j
      {
        if i < |rows| && j < |rows| {
          assert IsLive(rows[i], s', u', now) && IsLive(rows[j], s', u', now);
        }
      }
    }
  }

  /** Rows stay, but for status and message, and none becomes pending again. */
  predicate Evolved(before: Table, after: Table) {
    && |before| <= |after|
    && forall i :: 0 <= i < |before| ==>
         && after[i].(status := before[i].status, errorMsg := before[i].errorMsg) == before[i]
         && (after[i].status == Pending ==> before[i].status == Pending)
  }

  lemma {:induction false} StoreEvolves(rows: Table, writes: seq<Write>, k: nat, accepted: bool)
    requires WritesFit(rows, writes)
    ensures Evolved(rows, Store(rows, writes, k, accepted))
  {
  }

  lemma {:induction false} StepEvolves(w: Shared, s: Step)
    requires RaceInv(w) && Enabled(w, s)
    ensures Evolved(w.rows, Next(w, s).rows)
  {
    if s.Advance? {
      assert PlanFits(w, w.plans[s.plan]);
      StoreEvolves(w.rows, w.plans[s.plan].decision.writes, 0, w.plans[s.plan].env.firstWrite);
      StoreEvolves(w.rows, w.plans[s.plan].decision.writes, 1, w.plans[s.plan].env.secondWrite);
    }
  }

  lemma {:induction false} RunEvolves(steps: seq<Step>, n: nat)
    requires n <= |steps|
    ensures Evolved(After(steps[..n]).rows, After(steps).rows)
  {
    if n == |steps| {
      assert steps[..n] == steps;
    } else {
      var front, s := steps[..|steps| - 1], steps[|steps| - 1];
      assert front[..n] == steps[..n];
      RunEvolves(front, n);
      ConfirmRaces.RunKeepsInv(front);
      if Enabled(After(front), s) {
        StepEvolves(After(front), s);
      }
    }
  }

  lemma {:induction false} LiveBefore(before: Table, after: Table, j: nat, sessionID: string, userID: string,
          looked: Instant, now: Instant)
    requires Evolved(before, after) && j < |before| && looked <= now && IsLive(after[j], sessionID, userID, now)
    ensures IsLive(before[j], sessionID, userID, looked)
  {
  }

  /**
   So beside failed reads a second waiting action takes two racing questions: if nothing waited when a
   question looked, a row found waiting when it inserts was itself inserted in between.
   */
  lemma {:induction false} WaitingSinceLookup(steps: seq<Step>, n: nat, j: nat, sessionID: string, userID: string,
          looked: Instant, now: Instant)
    requires n <= |steps| && looked <= now && Latest(After(steps[..n]).rows, sessionID, userID, looked).None?
    requires j < |After(steps).rows| && IsLive(After(steps).rows[j], sessionID, userID, now)
    ensures j >= |After(steps[..n]).rows|
  {
    RunEvolves(steps, n);
    var before, after := After(steps[..n]).rows, After(steps).rows;
    if j < |before| {
      LiveBefore(before, after, j, sessionID, userID, looked, now);
    }
    LatestIsNewestLive(before, sessionID, userID, looked);
  }

  // ---------------------------------------------------------------------------
  // One waiting action at every moment of a run.
  // ---------------------------------------------------------------------------

  /** One clock: no step is earlier than the one before. */
  predicate InTime(w: Shared, s: Step) {
    s.Advance? || w.clock <= s.at
  }

  predicate OneClock(steps: seq<Step>) {
    steps == [] ||
    (OneClock(steps[..|steps| - 1]) && InTime(After(steps[..|steps| - 1]), steps[|steps| - 1]))
  }

  /** The step inserts an action, not yet expired, beside one that waits for the same session and user. */
  predicate InsertsBeside(w: Shared, s: Step) {
    && s.Insert? && s.question < |w.questions| && Inserts(w, s.question, s.accepted)
    && var action := w.questions[s.question].action;
      && IsLive(action, action.sessionID, action.userID, s.at)
      && Latest(w.rows, action.sessionID, action.userID, s.at).Some?
  }

  lemma {:induction false} OneLiveLater(before: Table, after: Table, earlier: Instant, now: Instant)
    requires Evolved(before, after) && |after| == |before| && earlier <= now && OneLive(before, earlier)
    ensures OneLive(after, now)
  {
    forall i, j, s, u | 0 <= i < |after| && 0 <= j < |after|
      && IsLive(after[i], s, u, now) && IsLive(after[j], s, u, now)
      ensures i == j
    {
      LiveBefore(before, after, i, s, u, earlier, now);
      LiveBefore(before, after, j, s, u, earlier, now);
    }
  }

  lemma {:induction false} DeadInsertKeepsOneLive(rows: Table, action: PendingAction, now: Instant)
    requires OneLive(rows, now) && !IsLive(action, action.sessionID, action.userID, now)
    ensures OneLive(rows + [action], now)
  {
    var all := rows + [action];
    forall i, j, s, u | 0 <= i < |all| && 0 <= j < |all| && IsLive(all[i], s, u, now) && IsLive(all[j], s, u, now)
      ensures i == j
    {
      assert i < |rows| && j < |rows|;
      assert IsLive(rows[i], s, u, now) && IsLive(rows[j], s, u, now);
    }
  }

  lemma {:induction false} InsertStep(w: Shared, q: nat, at: Instant, accepted: bool)
    requires Enabled(w, Insert(q, at, accepted)) && w.clock <= at && OneLive(w.rows, w.clock)
    ensures OneLive(Next(w, Insert(q, at, accepted)).rows, at) <==> !InsertsBeside(w, Insert(q, at, accepted))
  {
    var action := w.questions[q].action;
    OneLiveLater(w.rows, w.rows, w.clock, at);
    if Inserts(w, q, accepted) {
      if IsLive(action, action.sessionID, action.userID, at) {
        InsertKeepsOneLiveIff(w.rows, action, at);
      } else {
        DeadInsertKeepsOneLive(w.rows, action, at);
      }
    }
  }

  lemma {:induction false} StepKeepsOneLiveIff(w: Shared, s: Step)
    requires RaceInv(w) && Enabled(w, s) && InTime(w, s) && OneLive(w.rows, w.clock)
    ensures OneLive(Next(w, s).rows, Next(w, s).clock) <==> !InsertsBeside(w, s)
  {
    if s.Insert? {
      InsertStep(w, s.question, s.at, s.accepted);
    } else {
      StepEvolves(w, s);
      OneLiveLater(w.rows, Next(w, s).rows, w.clock, Next(w, s).clock);
    }
  }

  /** After every step at most one action per session and user waits. */
  ghost predicate OneLiveThroughout(steps: seq<Step>) {
    && OneLive(After(steps).rows, After(steps).clock)
    && (steps != [] ==> OneLiveThroughout(steps[..|steps| - 1]))
  }

  predicate NoneBeside(steps: seq<Step>) {
    steps == [] ||
    (NoneBeside(steps[..|steps| - 1]) && !InsertsBeside(After(steps[..|steps| - 1]), steps[|steps| - 1]))
  }

  /**
   Over every interleaving on one clock: at every moment at most one action per session and user waits, if and
   only if no question inserted its action beside a waiting one.
   */
  lemma {:induction false} OneLiveIffNoneBeside(steps: seq<Step>)
    requires Runs(steps) && OneClock(steps)
    ensures OneLiveThroughout(steps) <==> NoneBeside(steps)
  {
    if steps == [] {
    } else {
      var front := steps[..|steps| - 1];
      OneLiveIffNoneBeside(front);
      ConfirmRaces.RunKeepsInv(front);
      if OneLiveThroughout(front) {
        StepKeepsOneLiveIff(After(front), steps[|steps| - 1]);
      }
    }
  }
}
