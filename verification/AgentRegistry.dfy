/**
 The agent records one master keeps, and every way the code rewrites them.

 The Go zero time is ZERO_TIME.
 */
module AgentRegistry {
  import opened Wrappers
  import opened Clock

  const ZERO_TIME: Instant := 0
  const HEALTH_TIMEOUT: int := 60 * SECOND

  datatype AgentMetrics = AgentMetrics(
    cpuUsage: real, memoryUsage: real, diskUsage: real, loadAvg1: real, uptime: int, timestamp: Instant)

  datatype AgentEnvironment = AgentEnvironment(updatedAt: string, hostname: string, ip: string, details: string)

  datatype AgentRecord = AgentRecord(
    id: string, name: string, hostname: string, ip: string,
    tags: seq<string>, labels: map<string, string>,
    status: string, version: string,
    lastHeartbeat: Instant, lastMetrics: Option<AgentMetrics>,
    environment: Option<AgentEnvironment>, registeredAt: Instant)

  type Agents = map<string, AgentRecord>

  /** What an agent sends with each heartbeat. */
  datatype Report = Report(
    hostname: string, ip: string, tags: seq<string>, labels: map<string, string>,
    status: string, metrics: Option<AgentMetrics>)

  function NewRecord(id: string, hostname: string, ip: string, status: string, now: Instant): AgentRecord {
    AgentRecord(id, "", hostname, ip, [], map[], status, "", ZERO_TIME, None, None, now)
  }

  function Heartbeat(agents: Agents, id: string, report: Report, now: Instant): Agents {
    var agent := if id in agents then agents[id] else NewRecord(id, "", "", "", now);
    agents[id := agent.(hostname := report.hostname, ip := report.ip, tags := report.tags,
                        labels := report.labels, status := report.status, lastHeartbeat := now,
                        lastMetrics := if report.metrics.Some? then report.metrics else agent.lastMetrics)]
  }

  function SetEnvironment(agents: Agents, id: string, env: AgentEnvironment, now: Instant): Agents {
    var agent := if id in agents then agents[id] else NewRecord(id, env.hostname, env.ip, "online", now);
    agents[id := agent.(environment := Some(env))]
  }

  function SocketHeartbeat(agents: Agents, id: string, status: string, now: Instant): Agents {
    if id in agents then agents[id := agents[id].(lastHeartbeat := now, status := status)] else agents
  }

  function SocketMetrics(agents: Agents, id: string, metrics: AgentMetrics, now: Instant): Agents {
    if id in agents then agents[id := agents[id].(lastHeartbeat := now, lastMetrics := Some(metrics))] else agents
  }

  function SocketOpened(agents: Agents, id: string): Agents {
    if id in agents then agents[id := agents[id].(status := "online")] else agents
  }

  function SocketClosed(agents: Agents, id: string): Agents {
    if id in agents then agents[id := agents[id].(status := "offline")] else agents
  }

  predicate Overdue(agent: AgentRecord, now: Instant) {
    agent.status == "online" && now - agent.lastHeartbeat > HEALTH_TIMEOUT
  }

  function Examined(agent: AgentRecord, now: Instant): AgentRecord {
    if Overdue(agent, now) then agent.(status := "offline") else agent
  }

  function CheckHealth(agents: Agents, now: Instant): Agents {
    map id | id in agents :: Examined(agents[id], now)
  }

  function RemoveOffline(agents: Agents): Agents {
    map id | id in agents && agents[id].status != "offline" :: agents[id]
  }

  function MergeOne(agents: Agents, remote: AgentRecord): Agents {
    if remote.id !in agents || remote.lastHeartbeat > agents[remote.id].lastHeartbeat
    then agents[remote.id := remote]
    else agents
  }

  function Merge(agents: Agents, remote: seq<AgentRecord>): Agents {
    if remote == [] then agents
    else MergeOne(Merge(agents, remote[..|remote| - 1]), remote[|remote| - 1])
  }

  // ---------------------------------------------------------------------------
  // Heartbeat instants: the part of a record that masters agree on.
  // ---------------------------------------------------------------------------

  type Beat = Option<Instant>

  /** `a` is at least as new as `b`; an absent record is older than every present one. */
  predicate AtLeast(a: Beat, b: Beat) {
    b.None? || (a.Some? && b.value <= a.value)
  }

  function Newer(a: Beat, b: Beat): Beat {
    if AtLeast(a, b) then a else b
  }

  function BeatOf(agents: Agents, id: string): Beat {
    if id in agents then Some(agents[id].lastHeartbeat) else None
  }

  /** The newest heartbeat a listing carries for one agent. */
  function NewestListed(records: seq<AgentRecord>, id: string): Beat {
    if records == [] then None
    else
      var last := records[|records| - 1];
      var rest := NewestListed(records[..|records| - 1], id);
      if last.id == id then Newer(rest, Some(last.lastHeartbeat)) else rest
  }

  /** Every record is filed under its own id. */
  predicate Keyed(agents: Agents) {
    forall id :: id in agents ==> agents[id].id == id
  }

  /** The listing a peer serves: each of its records once, in any order. */
  ghost predicate IsListing(agents: Agents, records: seq<AgentRecord>) {
    && (forall k :: 0 <= k < |records| ==> records[k].id in agents && agents[records[k].id] == records[k])
    && (forall id :: id in agents ==> exists k :: 0 <= k < |records| && records[k].id == id)
    && (forall j, k :: 0 <= j < k < |records| ==> records[j].id != records[k].id)
  }

  /** A merge keeps, per agent, the newer of what was known and what was listed. */
  lemma {:induction false} MergeTakesNewest(agents: Agents, remote: seq<AgentRecord>, id: string)
    ensures BeatOf(Merge(agents, remote), id) == Newer(BeatOf(agents, id), NewestListed(remote, id))
  {
    if remote == [] {
    } else {
      MergeTakesNewest(agents, remote[..|remote| - 1], id);
    }
  }

  /** A merge never invents a record: what it stores was already here or was listed. */
  lemma {:induction false} MergeStoresWhole(agents: Agents, remote: seq<AgentRecord>, id: string)
    requires id in Merge(agents, remote)
    ensures (id in agents && Merge(agents, remote)[id] == agents[id])
         || (exists k :: 0 <= k < |remote| && remote[k].id == id && Merge(agents, remote)[id] == remote[k])
  {
    if remote == [] {
    } else {
      var front := remote[..|remote| - 1];
      var before := Merge(agents, front);
      var last := remote[|remote| - 1];
      if last.id == id && (id !in before || last.lastHeartbeat > before[id].lastHeartbeat) {
        assert remote[|remote| - 1].id == id;
      } else {
        MergeStoresWhole(agents, front, id);
        if !(id in agents && before[id] == agents[id]) {
          var k :| 0 <= k < |front| && front[k].id == id && before[id] == front[k];
          assert remote[k] == front[k];
        }
      }
    }
  }

  lemma {:induction false} MergeKeyed(agents: Agents, remote: seq<AgentRecord>)
    requires Keyed(agents)
    ensures Keyed(Merge(agents, remote))
  {
    if remote == [] {
    } else {
      MergeKeyed(agents, remote[..|remote| - 1]);
    }
  }

  lemma {:induction false} ListedMember(records: seq<AgentRecord>, k: nat)
    requires k < |records|
    ensures AtLeast(NewestListed(records, records[k].id), Some(records[k].lastHeartbeat))
  {
    if k < |records| - 1 {
      ListedMember(records[..|records| - 1], k);
    }
  }

  /** The newest listed heartbeat is carried by some listed record. */
  lemma {:induction false} ListedWitness(records: seq<AgentRecord>, id: string)
    ensures NewestListed(records, id).Some? ==>
      exists k :: 0 <= k < |records| && records[k].id == id
                  && NewestListed(records, id) == Some(records[k].lastHeartbeat)
  {
    if records == [] {
    } else {
      var front := records[..|records| - 1];
      ListedWitness(front, id);
      var last := records[|records| - 1];
      if NewestListed(records, id).Some? && !(last.id == id && NewestListed(records, id) == Some(last.lastHeartbeat)) {
        var k :| 0 <= k < |front| && front[k].id == id && NewestListed(front, id) == Some(front[k].lastHeartbeat);
        assert records[k] == front[k];
      }
    }
  }

  /** A peer's listing carries exactly the peer's own heartbeats. */
  lemma {:induction false} ListingBeats(agents: Agents, records: seq<AgentRecord>, id: string)
    requires IsListing(agents, records)
    ensures NewestListed(records, id) == BeatOf(agents, id)
  {
    ListedWitness(records, id);
    if id in agents {
      var k :| 0 <= k < |records| && records[k].id == id;
      ListedMember(records, k);
    }
  }

  /** After pulling a peer's current listing a master holds the pointwise newer of both. */
  lemma {:induction false} PullTakesNewest(mine: Agents, peer: Agents, records: seq<AgentRecord>, id: string)
    requires IsListing(peer, records)
    ensures BeatOf(Merge(mine, records), id) == Newer(BeatOf(mine, id), BeatOf(peer, id))
  {
    MergeTakesNewest(mine, records, id);
    ListingBeats(peer, records, id);
  }

  /**
   A merge replaces a record exactly if a newer one is listed, and then by one with the newest listed heartbeat;
   on a tie the master keeps its own.
   */
  lemma {:induction false} MergeReplacesIffNewer(agents: Agents, remote: seq<AgentRecord>, id: string)
    requires id in agents
    ensures id in Merge(agents, remote)
    ensures AtLeast(Some(agents[id].lastHeartbeat), NewestListed(remote, id)) ==>
      Merge(agents, remote)[id] == agents[id]
    ensures !AtLeast(Some(agents[id].lastHeartbeat), NewestListed(remote, id)) ==>
      exists k :: 0 <= k < |remote| && remote[k].id == id && Merge(agents, remote)[id] == remote[k]
                  && NewestListed(remote, id) == Some(remote[k].lastHeartbeat)
  {
    if remote == [] {
    } else {
      var front, last := remote[..|remote| - 1], remote[|remote| - 1];
      MergeReplacesIffNewer(agents, front, id);
      MergeTakesNewest(agents, front, id);
      MergeTakesNewest(agents, remote, id);
      if Merge(agents, remote)[id] == Merge(agents, front)[id] {
        if !AtLeast(Some(agents[id].lastHeartbeat), NewestListed(front, id)) {
          var k :| 0 <= k < |front| && front[k].id == id && Merge(agents, front)[id] == front[k]
                   && NewestListed(front, id) == Some(front[k].lastHeartbeat);
          assert remote[k] == front[k];
        }
      } else {
        assert last.id == id && Merge(agents, remote)[id] == remote[|remote| - 1];
      }
    }
  }

  // ---------------------------------------------------------------------------
  // What a record says after each report, field by field.
  // ---------------------------------------------------------------------------

  /** Every other agent's record is as before, and no other agent appears or goes. */
  ghost predicate OthersKept(before: Agents, after: Agents, id: string) {
    forall other :: other != id ==>
      && (other in after <==> other in before)
      && (other in before && other in after ==> after[other] == before[other])
  }

  /** The parts of a record an agent does not report. */
  predicate IdentityKept(before: AgentRecord, after: AgentRecord) {
    && after.id == before.id && after.name == before.name && after.version == before.version
    && after.registeredAt == before.registeredAt
  }

  predicate ReportHeld(r: AgentRecord, report: Report) {
    && r.status == report.status && r.hostname == report.hostname && r.ip == report.ip
    && r.tags == report.tags && r.labels == report.labels
  }

  /**
   After a heartbeat: the reported status, host, address, tags and labels, the current instant, the metrics if any
   were sent; the rest as it was, or as for an agent never seen.
   */
  lemma {:induction false} HeartbeatStores(agents: Agents, id: string, report: Report, now: Instant)
    ensures var after := Heartbeat(agents, id, report, now);
      && OthersKept(agents, after, id) && id in after
      && ReportHeld(after[id], report) && after[id].lastHeartbeat == now
      && (report.metrics.Some? ==> after[id].lastMetrics == report.metrics)
      && (id in agents ==>
            && IdentityKept(agents[id], after[id]) && after[id].environment == agents[id].environment
            && (report.metrics.None? ==> after[id].lastMetrics == agents[id].lastMetrics))
      && (id !in agents ==>
            && after[id].id == id && after[id].name == "" && after[id].version == ""
            && after[id].environment == None && after[id].registeredAt == now
            && (report.metrics.None? ==> after[id].lastMetrics == None))
  {
  }

  /** So an agent survives the removal of offline agents exactly if it did not report itself offline. */
  lemma {:induction false} HeartbeatSurvivesRemovalIff(agents: Agents, id: string, report: Report, now: Instant)
    ensures id in RemoveOffline(Heartbeat(agents, id, report, now)) <==> report.status != "offline"
  {
    HeartbeatStores(agents, id, report, now);
  }

  /** An environment report changes the environment only; for an unknown agent it makes an online record. */
  lemma {:induction false} EnvironmentStores(agents: Agents, id: string, env: AgentEnvironment, now: Instant)
    ensures var after := SetEnvironment(agents, id, env, now);
      && OthersKept(agents, after, id) && id in after && after[id].environment == Some(env)
      && (id in agents ==> after[id].(environment := agents[id].environment) == agents[id])
      && (id !in agents ==>
            && after[id].id == id && after[id].name == "" && after[id].version == ""
            && after[id].hostname == env.hostname && after[id].ip == env.ip && after[id].status == "online"
            && after[id].tags == [] && after[id].labels == map[] && after[id].lastMetrics == None
            && after[id].lastHeartbeat == 0 && after[id].registeredAt == now)
  {
  }

  /** Socket messages touch known agents only: status and instant, metrics and instant, or the status alone. */
  lemma {:induction false} SocketStores(agents: Agents, id: string, status: string, metrics: AgentMetrics, now: Instant)
    requires id in agents
    ensures var beat := SocketHeartbeat(agents, id, status, now);
      && OthersKept(agents, beat, id) && id in beat
      && beat[id].status == status && beat[id].lastHeartbeat == now
      && beat[id].(status := agents[id].status, lastHeartbeat := agents[id].lastHeartbeat) == agents[id]
    ensures var sent := SocketMetrics(agents, id, metrics, now);
      && OthersKept(agents, sent, id) && id in sent
      && sent[id].lastMetrics == Some(metrics) && sent[id].lastHeartbeat == now
      && sent[id].(lastMetrics := agents[id].lastMetrics, lastHeartbeat := agents[id].lastHeartbeat) == agents[id]
    ensures var up, down := SocketOpened(agents, id), SocketClosed(agents, id);
      && OthersKept(agents, up, id) && id in up && up[id].status == "online"
      && up[id].(status := agents[id].status) == agents[id]
      && OthersKept(agents, down, id) && id in down && down[id].status == "offline"
      && down[id].(status := agents[id].status) == agents[id]
  {
  }

  lemma {:induction false} SocketIgnoresUnknown(agents: Agents, id: string, status: string, metrics: AgentMetrics,
          now: Instant)
    requires id !in agents
    ensures SocketHeartbeat(agents, id, status, now) == SocketMetrics(agents, id, metrics, now) == agents
    ensures SocketOpened(agents, id) == SocketClosed(agents, id) == agents
  {
  }

  /** Health checks touch the status and nothing else, and only turn overdue online agents offline. */
  lemma {:induction false} HealthCheckMarksOverdue(agents: Agents, now: Instant, id: string)
    requires id in agents
    ensures CheckHealth(agents, now).Keys == agents.Keys
    ensures CheckHealth(agents, now)[id].(status := agents[id].status) == agents[id]
    ensures CheckHealth(agents, now)[id].status ==
      if agents[id].status == "online" && now - agents[id].lastHeartbeat > 60_000_000_000 then "offline"
      else agents[id].status
    ensures CheckHealth(CheckHealth(agents, now), now) == CheckHealth(agents, now)
  {
    forall i | i in agents
      ensures Examined(Examined(agents[i], now), now) == Examined(agents[i], now)
    {
      OfflineIsNotOnline();
    }
  }

  lemma {:induction false} OfflineIsNotOnline()
    ensures "offline" != "online"
  {
    assert |"offline"| == 7 && |"online"| == 6;
  }

  /** Removal takes exactly the agents whose status is "offline", and leaves the others' records alone. */
  lemma {:induction false} RemovalTakesOffline(agents: Agents, id: string)
    ensures id in RemoveOffline(agents) <==> id in agents && agents[id].status != "offline"
    ensures id in RemoveOffline(agents) ==> RemoveOffline(agents)[id] == agents[id]
  {
  }

  /**
   Removing offline agents is local: the next pull brings a removed agent back
   exactly when the peer still lists it.
   */
  lemma {:induction false} RemovalIsUndoneByAPull(mine: Agents, peer: Agents, records: seq<AgentRecord>, id: string)
    requires id in mine && mine[id].status == "offline"
    requires IsListing(peer, records)
    ensures id !in RemoveOffline(mine)
    ensures id in Merge(RemoveOffline(mine), records) <==> id in peer
  {
    PullTakesNewest(RemoveOffline(mine), peer, records, id);
  }
}
