/** Scoring episodes and deleting the ones not worth keeping. Scores are reals, instants nanoseconds. */
module ForgetGate {

  const DAY: int := 24 * 3600 * 1_000_000_000
  const BASE_IMPORTANCE := 0.5
  const MAX_TIME_DECAY := -0.3
  const MAX_ACCESS_BOOST := 0.2
  const SUCCESS_BONUS := 0.1
  const FAILED_PENALTY := -0.05
  const ALERT_TRIGGER_BONUS := 0.15
  const COMPLEX_STEPS_BONUS := 0.1
  const COMPLEX_STEPS_THRESHOLD := 3

  datatype Episode = Episode(
    id: string, pinned: bool, createdAt: int, accessCount: nat, outcome: string, triggerType: string, steps: nat,
    importance: real)

  /** A tenth less for each 30 days, which are 2592 * 10^12 nanoseconds. */
  function TimeFactor(age: int): real {
    var factor := -0.1 * (age as real / 2592000000000000.0);
    if factor < MAX_TIME_DECAY then MAX_TIME_DECAY else factor
  }

  function AccessFactor(accessCount: nat): real {
    var factor := accessCount as real * 0.05;
    if factor > MAX_ACCESS_BOOST then MAX_ACCESS_BOOST else factor
  }

  function OutcomeFactor(outcome: string): real {
    if outcome == "success" then SUCCESS_BONUS else if outcome == "failed" then FAILED_PENALTY else 0.0
  }

  function Clamped(score: real): real {
    if score < 0.0 then 0.0 else if score > 1.0 then 1.0 else score
  }

  function Importance(ep: Episode, now: int): real {
    Clamped(BASE_IMPORTANCE + TimeFactor(now - ep.createdAt) + AccessFactor(ep.accessCount) + OutcomeFactor(ep.outcome)
            + (if ep.triggerType == "alert" then ALERT_TRIGGER_BONUS else 0.0)
            + (if ep.steps > COMPLEX_STEPS_THRESHOLD then COMPLEX_STEPS_BONUS else 0.0))
  }

  method CalculateImportance(ep: Episode, now: int) returns (score: real)
    ensures score == Importance(ep, now)
  {
    score := BASE_IMPORTANCE;
    var months := (now - ep.createdAt) as real / 2592000000000000.0;
    var timeFactor := -0.1 * months;
    if timeFactor < MAX_TIME_DECAY {
      timeFactor := MAX_TIME_DECAY;
    }
    score := score + timeFactor;
    var accessFactor := ep.accessCount as real * 0.05;
    if accessFactor > MAX_ACCESS_BOOST {
      accessFactor := MAX_ACCESS_BOOST;
    }
    score := score + accessFactor;
    match ep.outcome {
      case "success" => score := score + SUCCESS_BONUS;
      case "failed" => score := score + FAILED_PENALTY;
      case _ =>
    }
    if ep.triggerType == "alert" {
      score := score + ALERT_TRIGGER_BONUS;
    }
    if ep.steps > COMPLEX_STEPS_THRESHOLD {
      score := score + COMPLEX_STEPS_BONUS;
    }
    if score < 0.0 {
      score := 0.0;
    }
    if score > 1.0 {
      score := 1.0;
    }
  }

  // ---------------------------------------------------------------------------
  // What the score means.
  // ---------------------------------------------------------------------------

  lemma {:induction false} TimeFactorSteps(age: int)
    ensures TimeFactor(age) < -0.2 <==> age > 60 * DAY
    ensures TimeFactor(age) < -0.25 <==> age > 75 * DAY
    ensures TimeFactor(age) >= -0.3
    ensures age >= 0 ==> TimeFactor(age) <= 0.0
  {
  }

  lemma {:induction false} AccessFactorSteps(accessCount: nat)
    ensures accessCount == 0 ==> AccessFactor(accessCount) == 0.0
    ensures accessCount == 1 ==> AccessFactor(accessCount) == 0.05
    ensures accessCount >= 2 ==> 0.1 <= AccessFactor(accessCount) <= 0.2
  {
  }

  /** Below a quarter: old enough, hardly read, not a success, not from an alert, and short. */
  predicate Forgettable(ep: Episode, now: int) {
    var age := now - ep.createdAt;
    && ep.triggerType != "alert" && ep.steps <= 3
    && if ep.outcome == "failed" then (ep.accessCount == 0 && age > 60 * DAY) || (ep.accessCount == 1 && age > 75 * DAY)
       else ep.outcome != "success" && ep.accessCount == 0 && age > 75 * DAY
  }

  lemma {:induction false} BelowQuarterIffForgettable(ep: Episode, now: int)
    ensures Importance(ep, now) < 0.25 <==> Forgettable(ep, now)
  {
    TimeFactorSteps(now - ep.createdAt);
    AccessFactorSteps(ep.accessCount);
  }

  predicate Unclamped(score: real) {
    0.0 < score < 1.0
  }

  /** What the outcome is worth, where the score is not cut off at its ends. */
  lemma {:induction false} OutcomeIsWorth(ep: Episode, now: int, other: string)
    requires other != "success" && other != "failed"
    ensures var good, bad := Importance(ep.(outcome := "success"), now), Importance(ep.(outcome := "failed"), now);
      var plain := Importance(ep.(outcome := other), now);
      && (Unclamped(good) && Unclamped(plain) ==> good - plain == 0.1)
      && (Unclamped(bad) && Unclamped(plain) ==> bad - plain == -0.05)
  {
    assert |"success"| == 7 && |"failed"| == 6;
  }

  /** What an alert and more than three steps are worth. */
  lemma {:induction false} BonusesAre(ep: Episode, now: int, trigger: string, short: nat, long: nat)
    requires trigger != "alert" && short <= 3 < long
    ensures var alert := Importance(ep.(triggerType := "alert"), now);
      var plain := Importance(ep.(triggerType := trigger), now);
      Unclamped(alert) && Unclamped(plain) ==> alert - plain == 0.15
    ensures var complex, plain := Importance(ep.(steps := long), now), Importance(ep.(steps := short), now);
      Unclamped(complex) && Unclamped(plain) ==> complex - plain == 0.1
  {
  }

  /** What reading and ageing are worth: 0.05 a time up to four times, a tenth less each 30 days up to 90. */
  lemma {:induction false} UseAndAgeAre(ep: Episode, now: int, k: nat, days: int)
    requires 0 <= days <= 90 && 0 <= now - ep.createdAt
    ensures var read, unread := Importance(ep.(accessCount := k), now), Importance(ep.(accessCount := 0), now);
      Unclamped(read) && Unclamped(unread) ==> read - unread == if k >= 4 then 0.2 else 0.05 * k as real
    ensures var aged, young := Importance(ep, ep.createdAt + days * DAY), Importance(ep, ep.createdAt);
      Unclamped(aged) && Unclamped(young) ==> aged - young == -0.1 * (days as real / 30.0)
    ensures Importance(ep, ep.createdAt + 90 * DAY) == Importance(ep, ep.createdAt + (90 + days) * DAY)
  {
    AgeInDays(days);
    AgeInDays(90);
    AgeInDays(90 + days);
    assert TimeFactor(0) == 0.0;
  }

  lemma {:induction false} AgeInDays(days: int)
    requires days >= 0
    ensures TimeFactor(days * DAY) == if days <= 90 then -0.1 * (days as real / 30.0) else -0.3
  {
    assert (days * DAY) as real == days as real * 86400000000000.0;
    assert (days * DAY) as real / 2592000000000000.0 == days as real / 30.0;
  }

  /** With nothing for or against it, an episode scores a half. */
  lemma {:induction false} FreshScore(id: string, now: int)
    ensures Importance(Episode(id, false, now, 0, "", "", 0, 0.0), now) == 0.5
  {
  }

  /** The score of an episode lies in [0.15, 1], and both ends are taken. */
  lemma {:induction false} ImportanceRange(ep: Episode, now: int)
    requires now >= ep.createdAt
    ensures 0.15 <= Importance(ep, now) <= 1.0
    ensures Importance(Episode("", false, 0, 0, "failed", "", 0, 0.0), 90 * DAY) == 0.15
    ensures Importance(Episode("", false, 0, 4, "success", "alert", 4, 0.0), 0) == 1.0
  {
    TimeFactorSteps(now - ep.createdAt);
    AccessFactorSteps(ep.accessCount);
    AccessFactorSteps(0);
  }

  /** Time never raises a score, and reading an episode never lowers it. */
  lemma {:induction false} ImportanceMonotone(ep: Episode, accessCount: nat, now: int, later: int)
    requires now <= later && ep.accessCount <= accessCount
    ensures Importance(ep, later) <= Importance(ep, now)
    ensures Importance(ep, now) <= Importance(ep.(accessCount := accessCount), now)
  {
  }

  // ---------------------------------------------------------------------------
  // The statements of a cleanup, on the rows of the episodes table.
  // ---------------------------------------------------------------------------

  /** Row i is scored by the clock reading clock[i]. */
  function Scored(rows: seq<Episode>, clock: seq<int>): seq<Episode>
    requires |rows| <= |clock|
  {
    if rows == [] then []
    else
      var n := |rows| - 1;
      var ep := rows[n];
      Scored(rows[..n], clock) + [if ep.pinned then ep else ep.(importance := Importance(ep, clock[n]))]
  }

  predicate Eligible(ep: Episode, minTime: int) {
    !ep.pinned && ep.createdAt < minTime
  }

  function CountEligible(rows: seq<Episode>, minTime: int): nat {
    if rows == [] then 0
    else CountEligible(rows[..|rows| - 1], minTime) + if Eligible(rows[|rows| - 1], minTime) then 1 else 0
  }

  /** DELETE ... WHERE importance < threshold, of eligible rows. */
  function AtLeast(rows: seq<Episode>, minTime: int, threshold: real): seq<Episode> {
    if rows == [] then []
    else
      var ep := rows[|rows| - 1];
      AtLeast(rows[..|rows| - 1], minTime, threshold)
        + if Eligible(ep, minTime) && ep.importance < threshold then [] else [ep]
  }

  function Min(a: int, b: int): int {
    if a < b then a else b
  }

  /** DELETE ... ORDER BY importance ASC LIMIT limit, of eligible rows; among equal scores any may go. */
  predicate LowestRemoved(rows: seq<Episode>, minTime: int, limit: nat, rest: seq<Episode>, gone: seq<Episode>) {
    && multiset(rows) == multiset(rest) + multiset(gone)
    && |gone| == Min(limit, CountEligible(rows, minTime))
    && (forall g <- gone :: Eligible(g, minTime))
    && (forall g <- gone, ep <- rest :: Eligible(ep, minTime) ==> g.importance <= ep.importance)
  }

  // ---------------------------------------------------------------------------
  // Facts about the statements.
  // ---------------------------------------------------------------------------

  lemma {:induction false} EligibleSplit(a: seq<Episode>, b: seq<Episode>, minTime: int)
    ensures CountEligible(a + b, minTime) == CountEligible(a, minTime) + CountEligible(b, minTime)
  {
    if b == [] {
      assert a + b == a;
    } else {
      assert (a + b)[..|a + b| - 1] == a + b[..|b| - 1];
      EligibleSplit(a, b[..|b| - 1], minTime);
    }
  }

  lemma {:induction false} EligibleWithout(rows: seq<Episode>, j: nat, minTime: int)
    requires j < |rows|
    ensures var rest := rows[..j] + rows[j + 1..];
      && multiset(rows) == multiset(rest) + multiset{rows[j]}
      && CountEligible(rows, minTime) == CountEligible(rest, minTime) + if Eligible(rows[j], minTime) then 1 else 0
  {
    var a, x, b := rows[..j], [rows[j]], rows[j + 1..];
    assert rows == a + (x + b);
    assert multiset(rows) == multiset(a) + (multiset(x) + multiset(b));
    assert multiset(a + b) == multiset(a) + multiset(b);
    EligibleSplit(a, x + b, minTime);
    EligibleSplit(x, b, minTime);
    EligibleSplit(a, b, minTime);
    assert x[..0] == [];
  }

  lemma {:induction false} SomeEligible(rows: seq<Episode>, minTime: int)
    ensures CountEligible(rows, minTime) > 0 <==> exists ep <- rows :: Eligible(ep, minTime)
    ensures CountEligible(rows, minTime) <= |rows|
  {
    if rows == [] {
    } else {
      var front, last := rows[..|rows| - 1], rows[|rows| - 1];
      SomeEligible(front, minTime);
      assert rows == front + [last];
    }
  }

  lemma {:induction false} AtLeastKeeps(rows: seq<Episode>, minTime: int, threshold: real, ep: Episode)
    ensures var kept := AtLeast(rows, minTime, threshold);
      multiset(kept)[ep] == if Eligible(ep, minTime) && ep.importance < threshold then 0 else multiset(rows)[ep]
    ensures |AtLeast(rows, minTime, threshold)| <= |rows|
  {
    if rows == [] {
    } else {
      AtLeastKeeps(rows[..|rows| - 1], minTime, threshold, ep);
      assert rows == rows[..|rows| - 1] + [rows[|rows| - 1]];
    }
  }

  lemma {:induction false} ScoredRows(rows: seq<Episode>, clock: seq<int>)
    requires |rows| <= |clock|
    ensures |Scored(rows, clock)| == |rows|
    ensures forall i :: 0 <= i < |rows| ==>
      Scored(rows, clock)[i]
      == if rows[i].pinned then rows[i] else rows[i].(importance := Importance(rows[i], clock[i]))
  {
    if rows == [] {
    } else {
      ScoredRows(rows[..|rows| - 1], clock);
    }
  }

  // ---------------------------------------------------------------------------
  // What a cleanup leaves.
  // ---------------------------------------------------------------------------

  /** From the scored rows to the remaining ones, `gone` being evicted for excess. */
  predicate CleanedUp(scored: seq<Episode>, minTime: int, threshold: real, maxEpisodes: int,
                      rest: seq<Episode>, gone: seq<Episode>) {
    var kept := AtLeast(scored, minTime, threshold);
    if |kept| > maxEpisodes then LowestRemoved(kept, minTime, |kept| - maxEpisodes, rest, gone)
    else rest == kept && gone == []
  }

  function Reported(scored: seq<Episode>, minTime: int, threshold: real, maxEpisodes: int): int {
    var kept := |AtLeast(scored, minTime, threshold)|;
    |scored| - kept + if kept > maxEpisodes then kept - maxEpisodes else 0
  }

  /** Pinned and recent episodes survive, with their multiplicity; nothing else appears. */
  lemma {:induction false} ProtectedSurvive(scored: seq<Episode>, minTime: int, threshold: real, maxEpisodes: int,
          rest: seq<Episode>, gone: seq<Episode>, ep: Episode)
    requires CleanedUp(scored, minTime, threshold, maxEpisodes, rest, gone)
    ensures ep.pinned || ep.createdAt >= minTime ==> multiset(rest)[ep] == multiset(scored)[ep]
    ensures multiset(rest)[ep] <= multiset(scored)[ep]
  {
    AtLeastKeeps(scored, minTime, threshold, ep);
    assert !Eligible(ep, minTime) ==> ep !in gone;
  }

  /** What survives although eligible scores at least the threshold, and at least every row evicted for excess. */
  lemma {:induction false} SurvivorsScoreHigher(scored: seq<Episode>, minTime: int, threshold: real,
          maxEpisodes: int, rest: seq<Episode>, gone: seq<Episode>, ep: Episode)
    requires CleanedUp(scored, minTime, threshold, maxEpisodes, rest, gone)
    requires ep in rest && !ep.pinned && ep.createdAt < minTime
    ensures ep.importance >= threshold
    ensures forall g <- gone :: g.importance <= ep.importance
  {
    AtLeastKeeps(scored, minTime, threshold, ep);
    assert multiset(rest)[ep] > 0;
  }

  lemma {:induction false} SizeOfRest(rows: seq<Episode>, rest: seq<Episode>, gone: seq<Episode>)
    requires multiset(rows) == multiset(rest) + multiset(gone)
    ensures |rows| == |rest| + |gone|
  {
    assert |multiset(rows)| == |multiset(rest)| + |multiset(gone)|;
  }

  /**
   Afterwards the table is within its limit, or holds no eligible row. The reported number is never less
   than the number removed, and equals it exactly when there were enough eligible rows to evict.
   */
  lemma {:induction false} WithinLimitOrNothingLeft(scored: seq<Episode>, minTime: int, threshold: real,
          maxEpisodes: int, rest: seq<Episode>, gone: seq<Episode>)
    requires CleanedUp(scored, minTime, threshold, maxEpisodes, rest, gone)
    ensures |rest| <= maxEpisodes || forall ep <- rest :: ep.pinned || ep.createdAt >= minTime
    ensures Reported(scored, minTime, threshold, maxEpisodes) >= |scored| - |rest|
    ensures var kept := AtLeast(scored, minTime, threshold);
      Reported(scored, minTime, threshold, maxEpisodes) == |scored| - |rest| <==>
      |kept| <= maxEpisodes || CountEligible(kept, minTime) >= |kept| - maxEpisodes
  {
    var kept := AtLeast(scored, minTime, threshold);
    if |kept| > maxEpisodes {
      SizeOfRest(kept, rest, gone);
      if CountEligible(kept, minTime) < |kept| - maxEpisodes {
        AllEligibleGone(kept, minTime, rest, gone);
      }
    }
  }

  lemma {:induction false} EligibleOfMultiset(a: seq<Episode>, b: seq<Episode>, minTime: int)
    requires multiset(a) == multiset(b)
    ensures CountEligible(a, minTime) == CountEligible(b, minTime)
  {
    if a == [] {
      assert |multiset(b)| == 0;
    } else {
      var front, x := a[..|a| - 1], a[|a| - 1];
      assert a == front + [x];
      assert x in multiset(b);
      var j :| 0 <= j < |b| && b[j] == x;
      EligibleWithout(b, j, minTime);
      assert multiset(front) == multiset(a) - multiset{x};
      EligibleOfMultiset(front, b[..j] + b[j + 1..], minTime);
    }
  }

  lemma {:induction false} CountAll(gone: seq<Episode>, minTime: int)
    requires forall g <- gone :: Eligible(g, minTime)
    ensures CountEligible(gone, minTime) == |gone|
  {
    if gone == [] {
    } else {
      CountAll(gone[..|gone| - 1], minTime);
    }
  }

  lemma {:induction false} AllEligibleGone(rows: seq<Episode>, minTime: int, rest: seq<Episode>, gone: seq<Episode>)
    requires multiset(rows) == multiset(rest) + multiset(gone) && |gone| == CountEligible(rows, minTime)
    requires forall g <- gone :: Eligible(g, minTime)
    ensures forall ep <- rest :: !Eligible(ep, minTime)
  {
    assert multiset(rest + gone) == multiset(rows);
    EligibleOfMultiset(rest + gone, rows, minTime);
    EligibleSplit(rest, gone, minTime);
    CountAll(gone, minTime);
    SomeEligible(rest, minTime);
  }

  /** At the default threshold, only a forgettable episode is deleted by score. */
  lemma {:induction false} DeletedByScoreIsForgettable(rows: seq<Episode>, clock: seq<int>, i: nat, minTime: int)
    requires i < |rows| <= |clock|
    ensures |Scored(rows, clock)| == |rows|
    ensures var ep := Scored(rows, clock)[i];
      Eligible(ep, minTime) && ep.importance < 0.25 <==>
      !rows[i].pinned && rows[i].createdAt < minTime && Forgettable(rows[i], clock[i])
  {
    ScoredRows(rows, clock);
    BelowQuarterIffForgettable(rows[i], clock[i]);
  }

  /** Scoring touches the score of unpinned rows and nothing else; deletion by score takes what it should. */
  lemma {:induction false} ScoringAndDeleting(rows: seq<Episode>, clock: seq<int>, i: nat, minTime: int,
          threshold: real, ep: Episode)
    requires i < |rows| <= |clock|
    ensures |Scored(rows, clock)| == |rows|
    ensures Scored(rows, clock)[i].(importance := rows[i].importance) == rows[i]
    ensures Scored(rows, clock)[i].importance
         == if rows[i].pinned then rows[i].importance else Importance(rows[i], clock[i])
    ensures var kept := multiset(AtLeast(rows, minTime, threshold));
      kept[ep] == if !ep.pinned && ep.createdAt < minTime && ep.importance < threshold then 0 else multiset(rows)[ep]
  {
    ScoredRows(rows, clock);
    AtLeastKeeps(rows, minTime, threshold, ep);
  }

  lemma {:induction false} Evicting(scored: seq<Episode>, minTime: int, threshold: real, maxEpisodes: int,
          kept: seq<Episode>, rest: seq<Episode>, gone: seq<Episode>)
    requires kept == AtLeast(scored, minTime, threshold) && |kept| > maxEpisodes
    requires LowestRemoved(kept, minTime, |kept| - maxEpisodes, rest, gone)
    ensures CleanedUp(scored, minTime, threshold, maxEpisodes, rest, gone)
    ensures Reported(scored, minTime, threshold, maxEpisodes) == |scored| - |kept| + (|kept| - maxEpisodes)
  {
  }

  // ---------------------------------------------------------------------------
  // The gate.
  // ---------------------------------------------------------------------------

  class ForgetGate {
    var episodes: seq<Episode>
    const threshold: real
    const maxEpisodes: int
    const minAge: int

    /** A setting of zero means the default. */
    constructor (threshold: real, maxEpisodes: int, minAge: int)
      ensures episodes == []
      ensures this.threshold == if threshold == 0.0 then 0.25 else threshold
      ensures this.maxEpisodes == if maxEpisodes == 0 then 10000 else maxEpisodes
      ensures this.minAge == if minAge == 0 then 7 * DAY else minAge
    {
      episodes := [];
      this.threshold := if threshold == 0.0 then 0.25 else threshold;
      this.maxEpisodes := if maxEpisodes == 0 then 10000 else maxEpisodes;
      this.minAge := if minAge == 0 then 7 * DAY else minAge;
    }

    method UpdateAllImportance(clock: seq<int>)
      requires |episodes| <= |clock|
      modifies this
      ensures episodes == Scored(old(episodes), clock)
    {
      var scored := [];
      for i := 0 to |episodes|
        invariant episodes == old(episodes)
        invariant scored == Scored(episodes[..i], clock)
      {
        assert episodes[..i + 1][..i] == episodes[..i];
        var ep := episodes[i];
        if !ep.pinned {
          var importance := CalculateImportance(ep, clock[i]);
          ep := ep.(importance := importance);
        }
        scored := scored + [ep];
      }
      assert episodes[..|episodes|] == episodes;
      episodes := scored;
    }

    method DeleteBelow(minTime: int) returns (affected: nat)
      modifies this
      ensures episodes == AtLeast(old(episodes), minTime, threshold)
      ensures affected == |old(episodes)| - |episodes|
    {
      var kept := [];
      affected := 0;
      for i := 0 to |episodes|
        invariant episodes == old(episodes)
        invariant kept == AtLeast(episodes[..i], minTime, threshold) && affected == i - |kept|
      {
        assert episodes[..i + 1][..i] == episodes[..i];
        if Eligible(episodes[i], minTime) && episodes[i].importance < threshold {
          affected := affected + 1;
        } else {
          kept := kept + [episodes[i]];
        }
      }
      assert episodes[..|episodes|] == episodes;
      episodes := kept;
    }

    method DeleteLowest(minTime: int, limit: nat) returns (ghost gone: seq<Episode>)
      modifies this
      ensures LowestRemoved(old(episodes), minTime, limit, episodes, gone)
    {
      gone := [];
      var left := limit;
      while left > 0
        invariant 0 <= left <= limit
        invariant multiset(old(episodes)) == multiset(episodes) + multiset(gone)
        invariant |gone| == limit - left
        invariant CountEligible(old(episodes), minTime) == CountEligible(episodes, minTime) + |gone|
        invariant forall g <- gone :: Eligible(g, minTime)
        invariant forall g <- gone, ep <- episodes :: Eligible(ep, minTime) ==> g.importance <= ep.importance
      {
        var lowest := FindLowest(minTime);
        if lowest < 0 {
          SomeEligible(episodes, minTime);
          break;
        }
        EligibleWithout(episodes, lowest, minTime);
        var rest := episodes[..lowest] + episodes[lowest + 1..];
        assert forall ep :: ep in rest ==> ep in episodes;
        gone := gone + [episodes[lowest]];
        episodes := rest;
        left := left - 1;
      }
    }

    /** An eligible row with the lowest score, or -1. */
    method FindLowest(minTime: int) returns (lowest: int)
      ensures lowest < 0 ==> forall ep <- episodes :: !Eligible(ep, minTime)
      ensures lowest >= 0 ==> lowest < |episodes| && Eligible(episodes[lowest], minTime)
      ensures lowest >= 0 ==>
        forall ep <- episodes :: Eligible(ep, minTime) ==> episodes[lowest].importance <= ep.importance
    {
      lowest := -1;
      for i := 0 to |episodes|
        invariant lowest < i
        invariant lowest < 0 ==> forall k :: 0 <= k < i ==> !Eligible(episodes[k], minTime)
        invariant lowest >= 0 ==> Eligible(episodes[lowest], minTime)
        invariant lowest >= 0 ==>
          forall k :: 0 <= k < i && Eligible(episodes[k], minTime) ==>
            episodes[lowest].importance <= episodes[k].importance
      {
        if Eligible(episodes[i], minTime) && (lowest < 0 || episodes[i].importance < episodes[lowest].importance) {
          lowest := i;
        }
      }
    }

    /** `now` is the clock reading after scoring. */
    method Cleanup(clock: seq<int>, now: int)
      returns (deleted: int, ghost scored: seq<Episode>, ghost gone: seq<Episode>)
      requires |episodes| <= |clock|
      modifies this
      ensures scored == Scored(old(episodes), clock)
      ensures CleanedUp(scored, now - minAge, threshold, maxEpisodes, episodes, gone)
      ensures deleted == Reported(scored, now - minAge, threshold, maxEpisodes)
    {
      UpdateAllImportance(clock);
      scored := episodes;
      deleted, gone := DeleteUnwanted(now - minAge);
    }

    /** The two deletions, on rows already scored. */
    method DeleteUnwanted(minTime: int) returns (deleted: int, ghost gone: seq<Episode>)
      modifies this
      ensures CleanedUp(old(episodes), minTime, threshold, maxEpisodes, episodes, gone)
      ensures deleted == Reported(old(episodes), minTime, threshold, maxEpisodes)
    {
      ghost var scored := episodes;
      var affected := DeleteBelow(minTime);
      ghost var kept := episodes;
      deleted := affected;
      gone := [];
      var count := |episodes|;
      if count > maxEpisodes {
        var excess := count - maxEpisodes;
        gone := DeleteLowest(minTime, excess);
        deleted := deleted + excess;
        Evicting(scored, minTime, threshold, maxEpisodes, kept, episodes, gone);
      }
    }
  }
}
