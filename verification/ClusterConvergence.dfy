/**
 n masters on one clock, pulling agent listings from each other over a network that may delay,
 reorder or lose the replies. A listing is served at one instant and merged at a later one.
 */
module ClusterConvergence {
  import opened Wrappers
  import opened AgentRegistry
  import opened Clock

  /** A listing on its way from the master that served it to the master that asked. */
  datatype Reply = Reply(to: nat, from: nat, records: seq<AgentRecord>)

  datatype World = World(clock: Instant, masters: seq<Agents>, inFlight: map<nat, Reply>, served: nat)

  datatype Step =
    | Tick(elapsed: nat)
    | AgentHeartbeat(at: nat, id: string, report: Report)
    | AgentEnvironmentReport(at: nat, id: string, env: AgentEnvironment)
    | AgentSocketHeartbeat(at: nat, id: string, status: string)
    | AgentSocketMetrics(at: nat, id: string, metrics: AgentMetrics)
    | AgentSocketOpened(at: nat, id: string)
    | AgentSocketClosed(at: nat, id: string)
    | HealthCheck(at: nat)
    | RemoveOfflineAgents(at: nat)
    | ServeListing(to: nat, from: nat, records: seq<AgentRecord>)
    | MergeListing(reply: nat)
    | LoseListing(reply: nat)

  ghost predicate Enabled(w: World, s: Step) {
    match s
    case Tick(_) => true
    case ServeListing(to, from, records) =>
      to < |w.masters| && from < |w.masters| && IsListing(w.masters[from], records)
    case MergeListing(k) => k in w.inFlight && w.inFlight[k].to < |w.masters|
    case LoseListing(k) => k in w.inFlight
    case _ => s.at < |w.masters|
  }

  /** What a step that touches one master does to that master's records. */
  function Local(agents: Agents, s: Step, now: Instant): Agents {
    match s
    case AgentHeartbeat(_, id, report) => Heartbeat(agents, id, report, now)
    case AgentEnvironmentReport(_, id, env) => SetEnvironment(agents, id, env, now)
    case AgentSocketHeartbeat(_, id, status) => SocketHeartbeat(agents, id, status, now)
    case AgentSocketMetrics(_, id, metrics) => SocketMetrics(agents, id, metrics, now)
    case AgentSocketOpened(_, id) => SocketOpened(agents, id)
    case AgentSocketClosed(_, id) => SocketClosed(agents, id)
    case HealthCheck(_) => CheckHealth(agents, now)
    case RemoveOfflineAgents(_) => RemoveOffline(agents)
    case _ => agents
  }

  ghost function Next(w: World, s: Step): World
    requires Enabled(w, s)
  {
    match s
    case Tick(elapsed) => w.(clock := w.clock + elapsed)
    case ServeListing(to, from, records) =>
      w.(inFlight := w.inFlight[w.served := Reply(to, from, records)], served := w.served + 1)
    case MergeListing(k) =>
      var r := w.inFlight[k];
      w.(masters := w.masters[r.to := Merge(w.masters[r.to], r.records)], inFlight := w.inFlight - {k})
    case LoseListing(k) => w.(inFlight := w.inFlight - {k})
    case _ => w.(masters := w.masters[s.at := Local(w.masters[s.at], s, w.clock)])
  }

  ghost predicate ValidRun(w: World, steps: seq<Step>)
    decreases |steps|
  {
    steps == [] || (Enabled(w, steps[0]) && ValidRun(Next(w, steps[0]), steps[1..]))
  }

  ghost function Run(w: World, steps: seq<Step>): World
    requires ValidRun(w, steps)
    decreases |steps|
  {
    if steps == [] then w else Run(Next(w, steps[0]), steps[1..])
  }

  // ---------------------------------------------------------------------------
  // Invariant: no heartbeat lies in the future.
  // ---------------------------------------------------------------------------

  ghost predicate NotAhead(agents: Agents, now: Instant) {
    Keyed(agents) && forall id :: id in agents ==> agents[id].lastHeartbeat <= now
  }

  ghost predicate ListedNotAhead(records: seq<AgentRecord>, now: Instant) {
    forall k :: 0 <= k < |records| ==> records[k].lastHeartbeat <= now
  }

  ghost predicate Inv(w: World) {
    && ZERO_TIME <= w.clock
    && (forall m :: 0 <= m < |w.masters| ==> NotAhead(w.masters[m], w.clock))
    && (forall k :: k in w.inFlight ==>
          && k < w.served
          && w.inFlight[k].to < |w.masters| && w.inFlight[k].from < |w.masters|
          && ListedNotAhead(w.inFlight[k].records, w.clock))
  }

  lemma {:induction false} LocalNotAhead(agents: Agents, s: Step, now: Instant)
    requires NotAhead(agents, now) && ZERO_TIME <= now
    ensures NotAhead(Local(agents, s, now), now)
  {
  }

  lemma {:induction false} MergeNotAhead(agents: Agents, records: seq<AgentRecord>, now: Instant)
    requires NotAhead(agents, now) && ListedNotAhead(records, now)
    ensures NotAhead(Merge(agents, records), now)
  {
    MergeKeyed(agents, records);
    forall id | id in Merge(agents, records)
      ensures Merge(agents, records)[id].lastHeartbeat <= now
    {
      MergeStoresWhole(agents, records, id);
    }
  }

  lemma {:induction false} StepKeepsInv(w: World, s: Step)
    requires Inv(w) && Enabled(w, s)
    ensures Inv(Next(w, s)) && |Next(w, s).masters| == |w.masters|
    ensures w.clock <= Next(w, s).clock && w.served <= Next(w, s).served
  {
    match s {
      case Tick(_) =>
      case ServeListing(to, from, records) =>
      case MergeListing(k) =>
        var r := w.inFlight[k];
        MergeNotAhead(w.masters[r.to], r.records, w.clock);
      case LoseListing(k) =>
      case _ =>
        LocalNotAhead(w.masters[s.at], s, w.clock);
    }
  }

  // ---------------------------------------------------------------------------
  // Monotonicity: only a removal lowers a stored heartbeat.
  // ---------------------------------------------------------------------------

  /** A removal lowers a heartbeat exactly when the record was offline; no other local step lowers any. */
  lemma {:induction false} LocalMonotone(agents: Agents, s: Step, now: Instant, id: string)
    requires NotAhead(agents, now) && ZERO_TIME <= now
    ensures AtLeast(BeatOf(Local(agents, s, now), id), BeatOf(agents, id)) <==>
      !(s.RemoveOfflineAgents? && id in agents && agents[id].status == "offline")
  {
  }

  lemma {:induction false} StepMonotone(w: World, s: Step, m: nat, id: string)
    requires Inv(w) && Enabled(w, s) && m < |w.masters|
    ensures m < |Next(w, s).masters|
    ensures AtLeast(BeatOf(Next(w, s).masters[m], id), BeatOf(w.masters[m], id)) <==>
      !(s.RemoveOfflineAgents? && s.at == m && id in w.masters[m] && w.masters[m][id].status == "offline")
  {
    match s {
      case Tick(_) =>
      case ServeListing(to, from, records) =>
      case MergeListing(k) =>
        MergeTakesNewest(w.masters[w.inFlight[k].to], w.inFlight[k].records, id);
      case LoseListing(k) =>
      case _ =>
        LocalMonotone(w.masters[s.at], s, w.clock, id);
    }
  }

  ghost predicate NeverRemoves(steps: seq<Step>) {
    forall k :: 0 <= k < |steps| ==> !steps[k].RemoveOfflineAgents?
  }

  /** Over every run without removals, no master ever forgets an agent or steps back to an older heartbeat. */
  lemma {:induction false} RunMonotone(w: World, steps: seq<Step>, m: nat, id: string)
    requires Inv(w) && ValidRun(w, steps) && NeverRemoves(steps) && m < |w.masters|
    ensures Inv(Run(w, steps)) && |Run(w, steps).masters| == |w.masters| && w.served <= Run(w, steps).served
    ensures AtLeast(BeatOf(Run(w, steps).masters[m], id), BeatOf(w.masters[m], id))
    decreases |steps|
  {
    if steps == [] {
    } else {
      StepKeepsInv(w, steps[0]);
      StepMonotone(w, steps[0], m, id);
      RunMonotone(Next(w, steps[0]), steps[1..], m, id);
    }
  }

  // ---------------------------------------------------------------------------
  // The newest heartbeat the cluster holds.
  // ---------------------------------------------------------------------------

  function Newest(masters: seq<Agents>, id: string): Beat {
    if masters == [] then None
    else Newer(Newest(masters[..|masters| - 1], id), BeatOf(masters[|masters| - 1], id))
  }

  lemma {:induction false} NewestBounds(masters: seq<Agents>, m: nat, id: string)
    requires m < |masters|
    ensures AtLeast(Newest(masters, id), BeatOf(masters[m], id))
  {
    if m < |masters| - 1 {
      NewestBounds(masters[..|masters| - 1], m, id);
    }
  }

  lemma {:induction false} NewestLeast(masters: seq<Agents>, id: string, bound: Beat)
    requires forall m :: 0 <= m < |masters| ==> AtLeast(bound, BeatOf(masters[m], id))
    ensures AtLeast(bound, Newest(masters, id))
  {
    if masters == [] {
    } else {
      NewestLeast(masters[..|masters| - 1], id, bound);
    }
  }

  lemma {:induction false} NewestMonotone(old_: seq<Agents>, new_: seq<Agents>, id: string)
    requires |old_| == |new_|
    requires forall m :: 0 <= m < |old_| ==> AtLeast(BeatOf(new_[m], id), BeatOf(old_[m], id))
    ensures AtLeast(Newest(new_, id), Newest(old_, id))
  {
    forall m | 0 <= m < |old_|
      ensures AtLeast(Newest(new_, id), BeatOf(old_[m], id))
    {
      NewestBounds(new_, m, id);
    }
    NewestLeast(old_, id, Newest(new_, id));
  }

  /** Nothing in flight is newer than what some master already holds. */
  ghost predicate NothingRevives(w: World) {
    forall k, i :: k in w.inFlight && 0 <= i < |w.inFlight[k].records| ==>
      AtLeast(Newest(w.masters, w.inFlight[k].records[i].id), Some(w.inFlight[k].records[i].lastHeartbeat))
  }

  lemma {:induction false} StepNewestMonotone(w: World, s: Step, id: string)
    requires Inv(w) && Enabled(w, s) && !s.RemoveOfflineAgents?
    ensures AtLeast(Newest(Next(w, s).masters, id), Newest(w.masters, id))
  {
    StepKeepsInv(w, s);
    forall m | 0 <= m < |w.masters|
      ensures AtLeast(BeatOf(Next(w, s).masters[m], id), BeatOf(w.masters[m], id))
    {
      StepMonotone(w, s, m, id);
    }
    NewestMonotone(w.masters, Next(w, s).masters, id);
  }

  lemma {:induction false} ServedListingIsHeld(w: World, from: nat, records: seq<AgentRecord>, i: nat)
    requires from < |w.masters| && IsListing(w.masters[from], records) && i < |records|
    ensures AtLeast(Newest(w.masters, records[i].id), Some(records[i].lastHeartbeat))
  {
    NewestBounds(w.masters, from, records[i].id);
  }

  lemma {:induction false} StepKeepsNothingRevives(w: World, s: Step)
    requires Inv(w) && Enabled(w, s) && !s.RemoveOfflineAgents? && NothingRevives(w)
    ensures NothingRevives(Next(w, s))
  {
    var w' := Next(w, s);
    forall k, i | k in w'.inFlight && 0 <= i < |w'.inFlight[k].records|
      ensures AtLeast(Newest(w'.masters, w'.inFlight[k].records[i].id), Some(w'.inFlight[k].records[i].lastHeartbeat))
    {
      var r := w'.inFlight[k].records[i];
      StepNewestMonotone(w, s, r.id);
      if s.ServeListing? && k == w.served {
        ServedListingIsHeld(w, s.from, s.records, i);
      } else {
        assert k in w.inFlight && w.inFlight[k] == w'.inFlight[k];
      }
    }
  }

  /** From a cluster with no traffic, runs without removals never put anything in flight that could revive a record. */
  lemma {:induction false} RunKeepsNothingRevives(w: World, steps: seq<Step>)
    requires Inv(w) && ValidRun(w, steps) && NeverRemoves(steps) && NothingRevives(w)
    ensures Inv(Run(w, steps)) && NothingRevives(Run(w, steps))
    decreases |steps|
  {
    if steps == [] {
    } else {
      StepKeepsInv(w, steps[0]);
      StepKeepsNothingRevives(w, steps[0]);
      RunKeepsNothingRevives(Next(w, steps[0]), steps[1..]);
    }
  }

  lemma {:induction false} NewestAfterUpdate(masters: seq<Agents>, m: nat, agents: Agents, id: string, news: Beat)
    requires m < |masters| && BeatOf(agents, id) == Newer(BeatOf(masters[m], id), news)
    ensures Newest(masters[m := agents], id) == Newer(Newest(masters, id), news)
  {
    var front := masters[..|masters| - 1];
    if m < |masters| - 1 {
      NewestAfterUpdate(front, m, agents, id, news);
      assert masters[m := agents][..|masters| - 1] == front[m := agents];
    } else {
      assert masters[m := agents][..|masters| - 1] == front;
    }
  }

  /**
   In every world, after whatever history, a merge brings the cluster-wide newest heartbeat to the newer of
   itself and what is listed. So it stays exactly if the listing is not ahead of what all masters hold.
   */
  lemma {:induction false} MergeAndNewest(w: World, k: nat, id: string)
    requires Enabled(w, MergeListing(k))
    ensures var before, listed := Newest(w.masters, id), NewestListed(w.inFlight[k].records, id);
      var after := Newest(Next(w, MergeListing(k)).masters, id);
      && after == Newer(before, listed)
      && (after == before <==> AtLeast(before, listed))
  {
    var r := w.inFlight[k];
    MergeTakesNewest(w.masters[r.to], r.records, id);
    NewestAfterUpdate(w.masters, r.to, Merge(w.masters[r.to], r.records), id, NewestListed(r.records, id));
  }

  /** Steps that bring no news from agents: pulls, their loss, health checks, sockets opening and closing, and time. */
  predicate Quiet(s: Step) {
    || s.Tick? || s.HealthCheck? || s.AgentSocketOpened? || s.AgentSocketClosed?
    || s.ServeListing? || s.MergeListing? || s.LoseListing?
  }

  lemma {:induction false} InFlightNotAhead(w: World, k: nat, id: string)
    requires NothingRevives(w) && k in w.inFlight
    ensures AtLeast(Newest(w.masters, id), NewestListed(w.inFlight[k].records, id))
  {
    var records := w.inFlight[k].records;
    ListedWitness(records, id);
    if NewestListed(records, id).Some? {
      var i :| 0 <= i < |records| && records[i].id == id
               && NewestListed(records, id) == Some(records[i].lastHeartbeat);
      assert AtLeast(Newest(w.masters, w.inFlight[k].records[i].id), Some(records[i].lastHeartbeat));
    }
  }

  lemma {:induction false} QuietBound(w: World, s: Step, m: nat, id: string)
    requires Inv(w) && Enabled(w, s) && Quiet(s) && NothingRevives(w) && m < |w.masters|
    ensures m < |Next(w, s).masters| && AtLeast(Newest(w.masters, id), BeatOf(Next(w, s).masters[m], id))
  {
    NewestBounds(w.masters, m, id);
    if s.MergeListing? {
      var reply := w.inFlight[s.reply];
      if reply.to == m {
        MergeTakesNewest(w.masters[m], reply.records, id);
        InFlightNotAhead(w, s.reply, id);
      }
    } else if s.HealthCheck? || s.AgentSocketOpened? || s.AgentSocketClosed? {
      assert BeatOf(Local(w.masters[s.at], s, w.clock), id) == BeatOf(w.masters[s.at], id);
    }
  }

  /** Merging even a stale listing never changes the newest heartbeat the cluster holds. */
  lemma {:induction false} QuietStepKeepsNewest(w: World, s: Step, id: string)
    requires Inv(w) && Enabled(w, s) && Quiet(s) && NothingRevives(w)
    ensures Newest(Next(w, s).masters, id) == Newest(w.masters, id)
  {
    StepKeepsInv(w, s);
    forall m | 0 <= m < |w.masters|
      ensures AtLeast(Newest(w.masters, id), BeatOf(Next(w, s).masters[m], id))
    {
      QuietBound(w, s, m, id);
    }
    NewestLeast(Next(w, s).masters, id, Newest(w.masters, id));
    StepNewestMonotone(w, s, id);
  }

  // ---------------------------------------------------------------------------
  // Convergence of one quiet all-pairs round, under every interleaving.
  // ---------------------------------------------------------------------------

  ghost predicate QuietRun(steps: seq<Step>) {
    forall k :: 0 <= k < |steps| ==> Quiet(steps[k])
  }

  /** The (puller, served) pairs whose listing was both served and merged during the run. */
  ghost function Pulled(w: World, steps: seq<Step>, since: nat): set<(nat, nat)>
    requires ValidRun(w, steps)
    decreases |steps|
  {
    if steps == [] then {}
    else
      (if steps[0].MergeListing? && steps[0].reply >= since
       then {(w.inFlight[steps[0].reply].to, w.inFlight[steps[0].reply].from)} else {})
      + Pulled(Next(w, steps[0]), steps[1..], since)
  }

  /** Every master pulled from every other. */
  ghost predicate AllPairsPulled(w: World, steps: seq<Step>)
    requires ValidRun(w, steps)
  {
    forall i, j :: 0 <= i < |w.masters| && 0 <= j < |w.masters| && i != j ==> (i, j) in Pulled(w, steps, w.served)
  }

  // ---------------------------------------------------------------------------
  // What has reached a master, through any number of intermediaries.
  // ---------------------------------------------------------------------------

  /** What a world starts from: the records of a master, or a listing already on its way. */
  datatype Source = Master(m: nat) | Listing(k: nat)

  /** The sources that have reached each master, and those each reply on its way passes on. */
  datatype Reach = Reach(masters: seq<set<Source>>, replies: map<nat, set<Source>>)

  function OwnOnly(n: nat): seq<set<Source>> {
    if n == 0 then [] else OwnOnly(n - 1) + [{Master(n - 1)}]
  }

  function StartReach(w: World): Reach {
    Reach(OwnOnly(|w.masters|), map k | k in w.inFlight :: {Listing(k)})
  }

  /** A reply passes on what had reached its server when it was served, to whoever merges it. */
  ghost function Spread(w: World, reach: Reach, s: Step): Reach {
    match s
    case ServeListing(_, from, _) =>
      if from < |reach.masters| then reach.(replies := reach.replies[w.served := reach.masters[from]]) else reach
    case MergeListing(k) =>
      if k in w.inFlight && k in reach.replies && w.inFlight[k].to < |reach.masters| then
        var to := w.inFlight[k].to;
        reach.(masters := reach.masters[to := reach.masters[to] + reach.replies[k]])
      else reach
    case _ => reach
  }

  /** What has reached whom after a run: exactly along chains of pulls, each served after the one before was merged. */
  ghost function Reached(w: World, reach: Reach, steps: seq<Step>): Reach
    requires ValidRun(w, steps)
    decreases |steps|
  {
    if steps == [] then reach else Reached(Next(w, steps[0]), Spread(w, reach, steps[0]), steps[1..])
  }

  function SourceBeat(base: World, source: Source, id: string): Beat {
    match source
    case Master(m) => if m < |base.masters| then BeatOf(base.masters[m], id) else None
    case Listing(k) => if k in base.inFlight then NewestListed(base.inFlight[k].records, id) else None
  }

  /** `beat` is the newest heartbeat of these sources. */
  ghost predicate IsNewestOf(base: World, sources: set<Source>, id: string, beat: Beat) {
    && (forall source <- sources :: AtLeast(beat, SourceBeat(base, source, id)))
    && (beat.Some? ==> exists source <- sources :: SourceBeat(base, source, id) == beat)
  }

  lemma {:induction false} NewestOfBoth(base: World, a: set<Source>, b: set<Source>, id: string, x: Beat, y: Beat)
    requires IsNewestOf(base, a, id, x) && IsNewestOf(base, b, id, y)
    ensures IsNewestOf(base, a + b, id, Newer(x, y))
  {
    if AtLeast(x, y) {
      if x.Some? {
        var source :| source in a && SourceBeat(base, source, id) == x;
        assert source in a + b;
      }
    } else {
      var source :| source in b && SourceBeat(base, source, id) == y;
      assert source in a + b;
    }
  }

  ghost predicate ReachInv(base: World, w: World, reach: Reach) {
    && |reach.masters| == |w.masters| && w.inFlight.Keys <= reach.replies.Keys
    && (forall m, id :: 0 <= m < |w.masters| ==> IsNewestOf(base, reach.masters[m], id, BeatOf(w.masters[m], id)))
    && (forall k, id :: k in w.inFlight ==>
          IsNewestOf(base, reach.replies[k], id, NewestListed(w.inFlight[k].records, id)))
  }

  lemma {:induction false} OwnOnlyAt(n: nat, m: nat)
    requires m < n
    ensures |OwnOnly(n)| == n && OwnOnly(n)[m] == {Master(m)}
  {
    if n > 1 {
      OwnOnlyAt(n - 1, if m < n - 1 then m else 0);
    }
  }

  lemma {:induction false} OneSource(base: World, source: Source, id: string)
    ensures IsNewestOf(base, {source}, id, SourceBeat(base, source, id))
  {
    assert source in {source};
  }

  lemma {:induction false} StartReachInv(w: World)
    ensures ReachInv(w, w, StartReach(w))
  {
    if |w.masters| > 0 {
      OwnOnlyAt(|w.masters|, 0);
    }
    forall m, id | 0 <= m < |w.masters|
      ensures IsNewestOf(w, StartReach(w).masters[m], id, BeatOf(w.masters[m], id))
    {
      OwnOnlyAt(|w.masters|, m);
      OneSource(w, Master(m), id);
    }
    forall k, id | k in w.inFlight
      ensures IsNewestOf(w, StartReach(w).replies[k], id, NewestListed(w.inFlight[k].records, id))
    {
      OneSource(w, Listing(k), id);
    }
  }

  lemma {:induction false} MergeSpreads(base: World, w: World, reach: Reach, k: nat)
    requires ReachInv(base, w, reach) && Enabled(w, MergeListing(k))
    ensures ReachInv(base, Next(w, MergeListing(k)), Spread(w, reach, MergeListing(k)))
  {
    var r := w.inFlight[k];
    forall id
      ensures IsNewestOf(base, reach.masters[r.to] + reach.replies[k], id,
                         BeatOf(Merge(w.masters[r.to], r.records), id))
    {
      MergeTakesNewest(w.masters[r.to], r.records, id);
      NewestOfBoth(base, reach.masters[r.to], reach.replies[k], id, BeatOf(w.masters[r.to], id),
                   NewestListed(r.records, id));
    }
  }

  lemma {:induction false} ServeSpreads(base: World, w: World, reach: Reach, s: Step)
    requires ReachInv(base, w, reach) && Enabled(w, s) && s.ServeListing?
    ensures ReachInv(base, Next(w, s), Spread(w, reach, s))
  {
    forall id
      ensures NewestListed(s.records, id) == BeatOf(w.masters[s.from], id)
    {
      ListingBeats(w.masters[s.from], s.records, id);
    }
  }

  lemma {:induction false} QuietStepSpreads(base: World, w: World, reach: Reach, s: Step)
    requires ReachInv(base, w, reach) && Enabled(w, s) && Quiet(s)
    ensures ReachInv(base, Next(w, s), Spread(w, reach, s))
  {
    if s.ServeListing? {
      ServeSpreads(base, w, reach, s);
    } else if s.MergeListing? {
      MergeSpreads(base, w, reach, s.reply);
    } else if s.HealthCheck? || s.AgentSocketOpened? || s.AgentSocketClosed? {
      forall id
        ensures BeatOf(Local(w.masters[s.at], s, w.clock), id) == BeatOf(w.masters[s.at], id)
      {
      }
    }
  }

  lemma {:induction false} RunSpreads(base: World, w: World, reach: Reach, steps: seq<Step>)
    requires ReachInv(base, w, reach) && ValidRun(w, steps) && QuietRun(steps)
    ensures ReachInv(base, Run(w, steps), Reached(w, reach, steps))
    ensures |Run(w, steps).masters| == |w.masters|
    decreases |steps|
  {
    if steps == [] {
    } else {
      QuietStepSpreads(base, w, reach, steps[0]);
      RunSpreads(base, Next(w, steps[0]), Spread(w, reach, steps[0]), steps[1..]);
    }
  }

  /**
   After any quiet run from any world, whatever was delayed, reordered or lost, each master holds for every
   agent exactly the newest heartbeat of the masters and listings a chain of pulls leads from to it.
   */
  lemma {:induction false} EndsWithNewestReached(w: World, steps: seq<Step>, m: nat, id: string)
    requires ValidRun(w, steps) && QuietRun(steps) && m < |w.masters|
    ensures |Run(w, steps).masters| == |w.masters| == |Reached(w, StartReach(w), steps).masters|
    ensures IsNewestOf(w, Reached(w, StartReach(w), steps).masters[m], id, BeatOf(Run(w, steps).masters[m], id))
  {
    StartReachInv(w);
    RunSpreads(w, w, StartReach(w), steps);
  }

  // ---------------------------------------------------------------------------
  // Convergence: a direct pull is such a chain.
  // ---------------------------------------------------------------------------

  /** Each master has reached itself, and travels in what it served since. */
  ghost predicate OwnReach(base: World, w: World, reach: Reach) {
    && |reach.masters| == |w.masters| && base.served <= w.served
    && (forall m :: 0 <= m < |w.masters| ==> Master(m) in reach.masters[m])
    && (forall k :: k in w.inFlight && k >= base.served ==>
          k in reach.replies && Master(w.inFlight[k].from) in reach.replies[k])
  }

  lemma {:induction false} StepKeepsOwnReach(base: World, w: World, reach: Reach, s: Step)
    requires OwnReach(base, w, reach) && Enabled(w, s) && Inv(w)
    ensures OwnReach(base, Next(w, s), Spread(w, reach, s))
    ensures forall m :: 0 <= m < |w.masters| ==> reach.masters[m] <= Spread(w, reach, s).masters[m]
  {
  }

  lemma {:induction false} ReachGrows(base: World, w: World, reach: Reach, steps: seq<Step>, m: nat, source: Source)
    requires OwnReach(base, w, reach) && Inv(w) && ValidRun(w, steps) && m < |w.masters|
    requires source in reach.masters[m]
    ensures m < |Reached(w, reach, steps).masters| && source in Reached(w, reach, steps).masters[m]
    decreases |steps|
  {
    if steps == [] {
    } else {
      StepKeepsInv(w, steps[0]);
      StepKeepsOwnReach(base, w, reach, steps[0]);
      ReachGrows(base, Next(w, steps[0]), Spread(w, reach, steps[0]), steps[1..], m, source);
    }
  }

  /** Whoever pulled from a master during the run was reached by it. */
  lemma {:induction false} PulledIsReached(base: World, w: World, reach: Reach, steps: seq<Step>, to: nat, from: nat)
    requires OwnReach(base, w, reach) && Inv(w) && ValidRun(w, steps) && (to, from) in Pulled(w, steps, base.served)
    ensures to < |Reached(w, reach, steps).masters| && Master(from) in Reached(w, reach, steps).masters[to]
    decreases |steps|
  {
    var s, w' := steps[0], Next(w, steps[0]);
    StepKeepsInv(w, s);
    StepKeepsOwnReach(base, w, reach, s);
    if (to, from) in Pulled(w', steps[1..], base.served) {
      PulledIsReached(base, w', Spread(w, reach, s), steps[1..], to, from);
    } else {
      ReachGrows(base, w', Spread(w, reach, s), steps[1..], to, Master(from));
    }
  }

  lemma {:induction false} EveryMasterReaches(w: World, steps: seq<Step>, m: nat, j: nat)
    requires Inv(w) && ValidRun(w, steps) && AllPairsPulled(w, steps) && m < |w.masters| && j < |w.masters|
    ensures var reach := Reached(w, StartReach(w), steps);
      m < |reach.masters| && Master(j) in reach.masters[m]
  {
    forall i | 0 <= i < |w.masters|
      ensures |OwnOnly(|w.masters|)| == |w.masters| && OwnOnly(|w.masters|)[i] == {Master(i)}
    {
      OwnOnlyAt(|w.masters|, i);
    }
    assert OwnReach(w, w, StartReach(w));
    if m == j {
      ReachGrows(w, w, StartReach(w), steps, m, Master(m));
    } else {
      PulledIsReached(w, w, StartReach(w), steps, m, j);
    }
  }

  lemma {:induction false} SourceNotAhead(w: World, source: Source, id: string)
    requires NothingRevives(w)
    ensures AtLeast(Newest(w.masters, id), SourceBeat(w, source, id))
  {
    match source
    case Master(m) =>
      if m < |w.masters| {
        NewestBounds(w.masters, m, id);
      }
    case Listing(k) =>
      if k in w.inFlight {
        InFlightNotAhead(w, k, id);
      }
  }

  /**
   Convergence: after any quiet run in which every master served and merged a listing of every other,
   whatever the order, delays and losses, all masters hold the same agents with the same heartbeats,
   namely the newest any of them held when the round began.
   */
  lemma {:induction false} MastersConverge(w: World, steps: seq<Step>, m: nat, id: string)
    requires Inv(w) && NothingRevives(w) && ValidRun(w, steps) && QuietRun(steps)
    requires AllPairsPulled(w, steps)
    requires m < |w.masters|
    ensures |Run(w, steps).masters| == |w.masters|
    ensures BeatOf(Run(w, steps).masters[m], id) == Newest(w.masters, id)
  {
    EndsWithNewestReached(w, steps, m, id);
    var sources, beat := Reached(w, StartReach(w), steps).masters[m], BeatOf(Run(w, steps).masters[m], id);
    forall j | 0 <= j < |w.masters|
      ensures AtLeast(beat, BeatOf(w.masters[j], id))
    {
      EveryMasterReaches(w, steps, m, j);
      assert AtLeast(beat, SourceBeat(w, Master(j), id));
    }
    NewestLeast(w.masters, id, beat);
    if beat.Some? {
      var source :| source in sources && SourceBeat(w, source, id) == beat;
      SourceNotAhead(w, source, id);
    }
  }

  /** The same, said of two masters: equal key sets and equal heartbeats. */
  lemma {:induction false} MastersAgree(w: World, steps: seq<Step>, m: nat, n: nat)
    requires Inv(w) && NothingRevives(w) && ValidRun(w, steps) && QuietRun(steps)
    requires AllPairsPulled(w, steps)
    requires m < |w.masters| && n < |w.masters|
    ensures |Run(w, steps).masters| == |w.masters|
    ensures var a, b := Run(w, steps).masters[m], Run(w, steps).masters[n];
      a.Keys == b.Keys && forall id :: id in a ==> a[id].lastHeartbeat == b[id].lastHeartbeat
  {
    MastersConverge(w, steps, m, "");
    var a, b := Run(w, steps).masters[m], Run(w, steps).masters[n];
    forall id
      ensures BeatOf(a, id) == BeatOf(b, id)
    {
      MastersConverge(w, steps, m, id);
      MastersConverge(w, steps, n, id);
    }
    forall id
      ensures id in a <==> id in b
      ensures id in a ==> a[id].lastHeartbeat == b[id].lastHeartbeat
    {
      assert BeatOf(a, id) == BeatOf(b, id);
    }
  }

  /** A cluster that has not exchanged anything yet. */
  function Start(clock: Instant, masters: seq<Agents>): World {
    World(clock, masters, map[], 0)
  }

  /**
   End to end: whatever agents and masters did before, as long as nobody removed offline agents,
   one quiet all-pairs round makes all masters agree.
   */
  lemma {:induction false} ConvergenceAfterAnyHistory(start: World, history: seq<Step>, round: seq<Step>, m: nat,
          n: nat)
    requires start == Start(start.clock, start.masters) && Inv(start)
    requires ValidRun(start, history) && NeverRemoves(history)
    requires var w := Run(start, history);
      && ValidRun(w, round) && QuietRun(round)
      && AllPairsPulled(w, round)
    requires m < |Run(start, history).masters| && n < |Run(start, history).masters|
    ensures var w' := Run(Run(start, history), round);
      && m < |w'.masters| && n < |w'.masters|
      && w'.masters[m].Keys == w'.masters[n].Keys
      && forall id :: id in w'.masters[m] ==> w'.masters[m][id].lastHeartbeat == w'.masters[n][id].lastHeartbeat
  {
    RunKeepsNothingRevives(start, history);
    MastersAgree(Run(start, history), round, m, n);
  }

  // ---------------------------------------------------------------------------
  // Such rounds exist, from every world.
  // ---------------------------------------------------------------------------

  predicate Lists(records: seq<AgentRecord>, id: string) {
    exists k :: 0 <= k < |records| && records[k].id == id
  }

  lemma {:induction false} ListsAppend(records: seq<AgentRecord>, r: AgentRecord, id: string)
    ensures Lists(records + [r], id) <==> Lists(records, id) || r.id == id
  {
    if Lists(records, id) {
      var k :| 0 <= k < |records| && records[k].id == id;
      assert (records + [r])[k].id == id;
    }
    assert (records + [r])[|records|] == r;
  }

  lemma {:induction false} ListingOf(agents: Agents, ids: set<string>) returns (records: seq<AgentRecord>)
    requires Keyed(agents) && ids <= agents.Keys
    ensures forall k :: 0 <= k < |records| ==> records[k].id in ids && agents[records[k].id] == records[k]
    ensures forall id <- ids :: Lists(records, id)
    ensures forall j, k :: 0 <= j < k < |records| ==> records[j].id != records[k].id
    decreases |ids|
  {
    if ids == {} {
      records := [];
    } else {
      var id :| id in ids;
      var rest := ListingOf(agents, ids - {id});
      records := rest + [agents[id]];
      forall i <- ids
        ensures Lists(records, i)
      {
        ListsAppend(rest, agents[id], i);
        assert i == id || i in ids - {id};
      }
    }
  }

  lemma {:induction false} SomeListing(agents: Agents) returns (records: seq<AgentRecord>)
    requires Keyed(agents)
    ensures IsListing(agents, records)
  {
    records := ListingOf(agents, agents.Keys);
    forall id | id in agents
      ensures exists k :: 0 <= k < |records| && records[k].id == id
    {
      assert Lists(records, id);
    }
  }

  /** One pull: serve and merge. */
  lemma {:induction false} OnePull(w: World, to: nat, from: nat) returns (serve: Step, merge: Step)
    requires Inv(w) && to < |w.masters| && from < |w.masters|
    ensures Enabled(w, serve) && Enabled(Next(w, serve), merge) && Quiet(serve) && Quiet(merge)
    ensures !serve.MergeListing? && merge == MergeListing(w.served)
    ensures Next(w, serve).inFlight[w.served].to == to && Next(w, serve).inFlight[w.served].from == from
    ensures var w2 := Next(Next(w, serve), merge);
      Inv(w2) && |w2.masters| == |w.masters| && w2.served == w.served + 1
  {
    var records := SomeListing(w.masters[from]);
    serve, merge := ServeListing(to, from, records), MergeListing(w.served);
    StepKeepsInv(w, serve);
    StepKeepsInv(Next(w, serve), merge);
  }

  predicate PairsBelow(pairs: seq<(nat, nat)>, n: nat) {
    forall p <- pairs :: p.0 < n && p.1 < n
  }

  lemma {:induction false} RoundOver(w: World, pairs: seq<(nat, nat)>, since: nat) returns (steps: seq<Step>)
    requires Inv(w) && since <= w.served && PairsBelow(pairs, |w.masters|)
    ensures ValidRun(w, steps) && QuietRun(steps)
    ensures forall p <- pairs :: p in Pulled(w, steps, since)
    decreases |pairs|
  {
    if pairs == [] {
      steps := [];
    } else {
      var serve, merge := OnePull(w, pairs[0].0, pairs[0].1);
      var w1 := Next(w, serve);
      var rest := RoundOver(Next(w1, merge), pairs[1..], since);
      var tail := [merge] + rest;
      steps := [serve] + tail;
      assert tail[1..] == rest && steps[1..] == tail;
      assert ValidRun(w1, tail);
      assert Pulled(w1, tail, since) == {pairs[0]} + Pulled(Next(w1, merge), rest, since);
      assert Pulled(w, steps, since) == {} + Pulled(w1, tail, since);
      assert forall p <- pairs :: p == pairs[0] || p in pairs[1..];
    }
  }

  lemma {:induction false} AllPairs(n: nat, rows: nat, columns: nat) returns (pairs: seq<(nat, nat)>)
    requires rows <= n && columns <= n
    ensures PairsBelow(pairs, n)
    ensures forall i, j :: 0 <= i < n && 0 <= j < n && (i < rows || (i == rows && j < columns)) ==> (i, j) in pairs
    decreases rows, columns
  {
    if columns > 0 && rows < n {
      var rest := AllPairs(n, rows, columns - 1);
      pairs := rest + [(rows, columns - 1)];
    } else if rows > 0 {
      pairs := AllPairs(n, rows - 1, n);
    } else {
      pairs := [];
    }
  }

  /** From every reachable world there is a quiet run in which every master pulls from every other. */
  lemma {:induction false} RoundExists(w: World) returns (steps: seq<Step>)
    requires Inv(w)
    ensures ValidRun(w, steps) && QuietRun(steps)
    ensures AllPairsPulled(w, steps)
  {
    var n := |w.masters|;
    var pairs := AllPairs(n, n, 0);
    steps := RoundOver(w, pairs, w.served);
  }

  /**
   Why removals are excluded: a listing served before the removal and merged after it brings the
   removed agent back to a cluster in which no master held it any more.
   */
  lemma {:induction false} StaleListingRevivesRemovedAgent(w: World, to: nat, from: nat, records: seq<AgentRecord>,
          id: string)
    requires Inv(w) && to < |w.masters| && from < |w.masters| && IsListing(w.masters[from], records)
    requires id in w.masters[from] && w.masters[from][id].status == "offline"
    requires forall m :: 0 <= m < |w.masters| && m != from ==> id !in w.masters[m]
    ensures var steps := [ServeListing(to, from, records), RemoveOfflineAgents(from)];
      && ValidRun(w, steps)
      && Newest(Run(w, steps).masters, id) == None
      && ValidRun(Run(w, steps), [MergeListing(w.served)])
      && Newest(Run(Run(w, steps), [MergeListing(w.served)]).masters, id) == BeatOf(w.masters[from], id)
  {
    var serve, remove, merge := ServeListing(to, from, records), RemoveOfflineAgents(from), MergeListing(w.served);
    var w1 := Next(w, serve);
    var w2 := Next(w1, remove);
    TwoSteps(w, serve, remove);
    NewestLeast(w2.masters, id, None);
    OneStep(w2, merge);
    MergeAndNewest(w2, w.served, id);
    ListingBeats(w.masters[from], records, id);
  }

  lemma {:induction false} OneStep(w: World, s: Step)
    requires Enabled(w, s)
    ensures ValidRun(w, [s]) && Run(w, [s]) == Next(w, s)
  {
    assert [s][1..] == [];
    assert ValidRun(Next(w, s), []) && Run(Next(w, s), []) == Next(w, s);
  }

  lemma {:induction false} TwoSteps(w: World, s: Step, t: Step)
    requires Enabled(w, s) && Enabled(Next(w, s), t)
    ensures ValidRun(w, [s, t]) && Run(w, [s, t]) == Next(Next(w, s), t)
  {
    assert [s, t][1..] == [t];
    OneStep(Next(w, s), t);
  }
}
