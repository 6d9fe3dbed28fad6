/** One master: its maps, and the methods that rewrite them. */
module MasterCluster {
  import opened Wrappers
  import opened AgentRegistry
  import opened Clock
  import opened CommandQueue

  const RESULT_RETENTION: int := 3600 * SECOND
  const MAX_EVENTS: nat := 10000

  datatype CommandResult = CommandResult(
    commandID: string, agentID: string, success: bool, output: string, error: string, exitCode: int, timestamp: Instant)

  datatype AgentEvent = AgentEvent(agentID: string, ruleID: string, action: string, success: bool, output: string)

  function Fresh(results: map<string, CommandResult>, now: Instant): map<string, CommandResult> {
    map id | id in results && now - results[id].timestamp <= RESULT_RETENTION :: results[id]
  }

  function Addressed(agent: string, events: seq<AgentEvent>): seq<AgentEvent> {
    seq(|events|, i requires 0 <= i < |events| => events[i].(agentID := agent))
  }

  function Latest(events: seq<AgentEvent>): seq<AgentEvent> {
    if |events| > MAX_EVENTS then events[|events| - MAX_EVENTS..] else events
  }

  /** The newest 10000 of all events are kept, in order; the incoming ones are last and carry the agent's id. */
  lemma {:induction false} EventsKept(events: seq<AgentEvent>, agent: string, incoming: seq<AgentEvent>)
    ensures var all, kept := events + Addressed(agent, incoming), Latest(events + Addressed(agent, incoming));
      && |all| == |events| + |incoming|
      && |kept| == (if |all| > 10000 then 10000 else |all|) && kept == all[|all| - |kept|..]
      && forall i :: 0 <= i < |incoming| ==>
           && all[|events| + i].agentID == agent
           && all[|events| + i].(agentID := incoming[i].agentID) == incoming[i]
  {
  }

  /** A result is kept exactly for an hour. */
  lemma {:induction false} ResultsKept(results: map<string, CommandResult>, now: Instant, id: string)
    ensures id in Fresh(results, now) <==> id in results && now - results[id].timestamp <= 3_600_000_000_000
    ensures id in Fresh(results, now) ==> Fresh(results, now)[id] == results[id]
  {
  }

  class MasterCluster {
    var agents: Agents
    var pendingCommands: Queues
    var commandResults: map<string, CommandResult>
    var events: seq<AgentEvent>

    constructor ()
      ensures agents == map[] && pendingCommands == map[] && commandResults == map[] && events == []
    {
      agents, pendingCommands, commandResults, events := map[], map[], map[], [];
    }

    method HandleHeartbeat(id: string, report: Report, now: Instant) returns (commands: seq<PendingCommand>)
      modifies this`agents, this`pendingCommands
      ensures agents == Heartbeat(old(agents), id, report, now)
      ensures commands == QueueOf(old(pendingCommands), id)
      ensures pendingCommands == Drained(old(pendingCommands), id)
    {
      if id !in agents {
        agents := agents[id := NewRecord(id, report.hostname, report.ip, "", now)];
      }
      var agent := agents[id];
      agent := agent.(hostname := report.hostname, ip := report.ip, tags := report.tags, labels := report.labels);
      agent := agent.(status := report.status, lastHeartbeat := now);
      if report.metrics.Some? {
        agent := agent.(lastMetrics := report.metrics);
      }
      agents := agents[id := agent];
      commands := QueueOf(pendingCommands, id);
      pendingCommands := pendingCommands[id := []];
    }

    method HandleAgentEnvironment(id: string, env: AgentEnvironment, now: Instant)
      modifies this`agents
      ensures agents == SetEnvironment(old(agents), id, env, now)
    {
      if id !in agents {
        agents := agents[id := NewRecord(id, env.hostname, env.ip, "online", now)];
      }
      agents := agents[id := agents[id].(environment := Some(env))];
    }

    method HandleCommandResult(result: CommandResult)
      modifies this`commandResults
      ensures commandResults == old(commandResults)[result.commandID := result]
    {
      commandResults := commandResults[result.commandID := result];
    }

    /** Files the events under the agent and keeps the newest MAX_EVENTS overall. */
    method HandleAgentEvents(agent: string, incoming: seq<AgentEvent>)
      modifies this`events
      ensures events == Latest(old(events) + Addressed(agent, incoming))
    {
      for i := 0 to |incoming|
        invariant events == old(events) + Addressed(agent, incoming)[..i]
      {
        events := events + [incoming[i].(agentID := agent)];
      }
      assert Addressed(agent, incoming)[..|incoming|] == Addressed(agent, incoming);
      if |events| > MAX_EVENTS {
        events := events[|events| - MAX_EVENTS..];
      }
    }

    /** Queues a command for a known agent; an unknown agent is refused and nothing changes. */
    method SendCommand(id: string, agent: string, kind: string, payload: string, timeout: int, now: Instant)
      returns (sent: Option<string>)
      modifies this`pendingCommands
      ensures agent !in agents ==> sent == None && pendingCommands == old(pendingCommands)
      ensures agent in agents ==>
        && sent == Some(id)
        && pendingCommands == Append(old(pendingCommands), agent,
                                     [PendingCommand(id, agent, kind, payload, timeout, now, now + 300_000_000_000)])
    {
      if agent !in agents {
        return None;
      }
      var command := PendingCommand(id, agent, kind, payload, timeout, now, now + COMMAND_TTL);
      pendingCommands := pendingCommands[agent := QueueOf(pendingCommands, agent) + [command]];
      return Some(id);
    }

    /** Removes exactly the offline records and reports how many there were. */
    method RemoveOfflineAgents() returns (count: nat)
      modifies this`agents
      ensures agents == RemoveOffline(old(agents))
      ensures count == |old(agents)| - |agents|
    {
      count := 0;
      var todo := agents.Keys;
      ghost var before := agents;
      while todo != {}
        invariant todo <= agents.Keys <= before.Keys
        invariant forall id :: id in agents ==> agents[id] == before[id]
        invariant forall id :: id in before && id !in todo ==> (id in agents <==> before[id].status != "offline")
        invariant count == |before| - |agents|
        decreases todo
      {
        var id :| id in todo;
        if agents[id].status == "offline" {
          RemovalShrinks(agents, id);
          agents := agents - {id};
          count := count + 1;
        }
        todo := todo - {id};
      }
    }

    method CheckAgentHealth(now: Instant)
      modifies this`agents
      ensures agents == CheckHealth(old(agents), now)
    {
      var todo := agents.Keys;
      while todo != {}
        invariant todo <= agents.Keys == old(agents).Keys
        invariant forall id :: id in agents ==>
          agents[id] == if id in todo then old(agents)[id] else Examined(old(agents)[id], now)
        decreases todo
      {
        var id :| id in todo;
        if agents[id].status == "online" && now - agents[id].lastHeartbeat > HEALTH_TIMEOUT {
          agents := agents[id := agents[id].(status := "offline")];
        }
        todo := todo - {id};
      }
    }

    /** The merge half of syncAgentsFromPeer: `remote` is the decoded listing of the peer. */
    method MergeAgentsFromPeer(remote: seq<AgentRecord>)
      modifies this`agents
      ensures agents == Merge(old(agents), remote)
    {
      for i := 0 to |remote|
        invariant agents == Merge(old(agents), remote[..i])
      {
        var r := remote[i];
        assert remote[..i + 1][..i] == remote[..i];
        if r.id !in agents || r.lastHeartbeat > agents[r.id].lastHeartbeat {
          agents := agents[r.id := r];
        }
      }
      assert remote[..|remote|] == remote;
    }

    method FilterLive(commands: seq<PendingCommand>, now: Instant) returns (valid: seq<PendingCommand>)
      ensures valid == Live(commands, now)
    {
      valid := [];
      for i := 0 to |commands|
        invariant valid == Live(commands[..i], now)
      {
        assert commands[..i + 1][..i] == commands[..i];
        if commands[i].expiresAt > now {
          valid := valid + [commands[i]];
        }
      }
      assert commands[..|commands|] == commands;
    }

    method CleanupExpiredCommands(now: Instant)
      modifies this`pendingCommands, this`commandResults
      ensures pendingCommands == Cleaned(old(pendingCommands), now)
      ensures commandResults == Fresh(old(commandResults), now)
    {
      var todo := pendingCommands.Keys;
      while todo != {}
        invariant todo <= pendingCommands.Keys == old(pendingCommands).Keys
        invariant forall a :: a in pendingCommands ==>
          pendingCommands[a] == if a in todo then old(pendingCommands)[a] else Live(old(pendingCommands)[a], now)
        invariant commandResults == old(commandResults)
        decreases todo
      {
        var a :| a in todo;
        var valid := FilterLive(pendingCommands[a], now);
        pendingCommands := pendingCommands[a := valid];
        todo := todo - {a};
      }
      var results := commandResults.Keys;
      while results != {}
        invariant results <= commandResults.Keys <= old(commandResults).Keys
        invariant forall id :: id in commandResults ==> commandResults[id] == old(commandResults)[id]
        invariant forall id :: id in old(commandResults) && id !in results ==>
          (id in commandResults <==> now - old(commandResults)[id].timestamp <= RESULT_RETENTION)
        invariant pendingCommands == Cleaned(old(pendingCommands), now)
        decreases results
      {
        var id :| id in results;
        if now - commandResults[id].timestamp > RESULT_RETENTION {
          commandResults := commandResults - {id};
        }
        results := results - {id};
      }
    }
  }

  lemma {:induction false} RemovalShrinks<K, V>(m: map<K, V>, k: K)
    requires k in m
    ensures |m - {k}| == |m| - 1
  {
    assert (m - {k}).Keys == m.Keys - {k};
    assert |m.Keys - {k}| == |m.Keys| - 1;
  }
}
