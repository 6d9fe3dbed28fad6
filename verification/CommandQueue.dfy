/**
 The per-agent command queues of a master: commands are appended when accepted,
 handed over by the agent's next heartbeat, and dropped once expired.
 */
module CommandQueue {
  import opened Wrappers
  import opened Sequences
  import opened AgentRegistry
  import opened Clock

  const COMMAND_TTL: int := 300 * SECOND

  datatype PendingCommand = PendingCommand(
    id: string, agentID: string, kind: string, payload: string, timeout: int, createdAt: Instant, expiresAt: Instant)

  type Queues = map<string, seq<PendingCommand>>

  function QueueOf(queues: Queues, agent: string): seq<PendingCommand> {
    if agent in queues then queues[agent] else []
  }

  function Append(queues: Queues, agent: string, commands: seq<PendingCommand>): Queues {
    queues[agent := QueueOf(queues, agent) + commands]
  }

  /** The commands of a queue that have not expired, in order. */
  function Live(commands: seq<PendingCommand>, now: Instant): seq<PendingCommand> {
    if commands == [] then []
    else
      var last := commands[|commands| - 1];
      Live(commands[..|commands| - 1], now) + if last.expiresAt > now then [last] else []
  }

  /** The commands of a queue that have expired, in order. */
  function Lapsed(commands: seq<PendingCommand>, now: Instant): seq<PendingCommand> {
    if commands == [] then []
    else
      var last := commands[|commands| - 1];
      Lapsed(commands[..|commands| - 1], now) + if last.expiresAt > now then [] else [last]
  }

  function Cleaned(queues: Queues, now: Instant): Queues {
    map agent | agent in queues :: Live(queues[agent], now)
  }

  function Drained(queues: Queues, agent: string): Queues {
    queues[agent := []]
  }

  // ---------------------------------------------------------------------------
  // Runs, with the history a bookkeeper would write down.
  // ---------------------------------------------------------------------------

  datatype Event =
    | Accept(command: PendingCommand, at: Instant)
    | Drain(agent: string, at: Instant)
    | Cleanup(at: Instant)

  datatype Ledger = Ledger(queues: Queues, sent: Queues, delivered: Queues, expired: Queues)

  function Step(l: Ledger, e: Event): Ledger {
    match e
    case Accept(c, _) =>
      l.(queues := Append(l.queues, c.agentID, [c]), sent := Append(l.sent, c.agentID, [c]))
    case Drain(a, _) =>
      l.(queues := Drained(l.queues, a), delivered := Append(l.delivered, a, QueueOf(l.queues, a)))
    case Cleanup(now) =>
      l.(queues := Cleaned(l.queues, now),
         expired := map a | a in l.expired.Keys + l.queues.Keys
                      :: QueueOf(l.expired, a) + Lapsed(QueueOf(l.queues, a), now))
  }

  function Run(events: seq<Event>): Ledger {
    if events == [] then Ledger(map[], map[], map[], map[])
    else Step(Run(events[..|events| - 1]), events[|events| - 1])
  }

  /** Live and lapsed split a queue: nothing is lost. */
  lemma {:induction false} SplitKeepsAll(commands: seq<PendingCommand>, now: Instant)
    ensures multiset(Live(commands, now)) + multiset(Lapsed(commands, now)) == multiset(commands)
  {
    if commands == [] {
    } else {
      var front := commands[..|commands| - 1];
      SplitKeepsAll(front, now);
      assert commands == front + [commands[|commands| - 1]];
    }
  }

  /** The live part keeps its order. */
  lemma {:induction false} LiveKeepsOrder(commands: seq<PendingCommand>, now: Instant)
    ensures Subsequence(Live(commands, now), commands)
  {
    if commands == [] {
    } else {
      var front := commands[..|commands| - 1];
      var last := commands[|commands| - 1];
      LiveKeepsOrder(front, now);
      SubsequenceExtend(Live(front, now), front, last);
      assert commands == front + [last];
      assert Live(commands, now) == if last.expiresAt > now then Live(front, now) + [last] else Live(front, now);
    }
  }

  lemma {:induction false} SplitMembers(commands: seq<PendingCommand>, now: Instant)
    ensures forall c :: c in Live(commands, now) ==> c in commands && c.expiresAt > now
    ensures forall c :: c in Lapsed(commands, now) ==> c in commands && c.expiresAt <= now
  {
    if commands == [] {
    } else {
      SplitMembers(commands[..|commands| - 1], now);
    }
  }

  /** One agent's books: nothing lost, nothing twice, nothing reordered, nothing misaddressed. */
  ghost predicate Balanced(sent: seq<PendingCommand>, delivered: seq<PendingCommand>, queued: seq<PendingCommand>,
          expired: seq<PendingCommand>, agent: string)
  {
    && multiset(sent) == multiset(delivered) + multiset(queued) + multiset(expired)
    && Subsequence(delivered + queued, sent)
    && (forall c :: c in sent ==> c.agentID == agent)
  }

  ghost predicate Conserved(l: Ledger, agent: string) {
    Balanced(QueueOf(l.sent, agent), QueueOf(l.delivered, agent), QueueOf(l.queues, agent),
             QueueOf(l.expired, agent), agent)
  }

  lemma {:induction false} AcceptBalances(sent: seq<PendingCommand>, delivered: seq<PendingCommand>,
          queued: seq<PendingCommand>, expired: seq<PendingCommand>, agent: string, c: PendingCommand)
    requires Balanced(sent, delivered, queued, expired, agent) && c.agentID == agent
    ensures Balanced(sent + [c], delivered, queued + [c], expired, agent)
  {
    SubsequenceExtend(delivered + queued, sent, c);
    assert delivered + (queued + [c]) == (delivered + queued) + [c];
  }

  lemma {:induction false} DrainBalances(sent: seq<PendingCommand>, delivered: seq<PendingCommand>,
          queued: seq<PendingCommand>, expired: seq<PendingCommand>, agent: string)
    requires Balanced(sent, delivered, queued, expired, agent)
    ensures Balanced(sent, delivered + queued, [], expired, agent)
  {
    assert (delivered + queued) + [] == delivered + queued;
  }

  lemma {:induction false} CleanupBalances(sent: seq<PendingCommand>, delivered: seq<PendingCommand>,
          queued: seq<PendingCommand>, expired: seq<PendingCommand>, agent: string, now: Instant)
    requires Balanced(sent, delivered, queued, expired, agent)
    ensures Balanced(sent, delivered, Live(queued, now), expired + Lapsed(queued, now), agent)
  {
    SplitKeepsAll(queued, now);
    LiveKeepsOrder(queued, now);
    SubsequencePrefix(delivered, Live(queued, now), queued);
    SubsequenceTransitive(delivered + Live(queued, now), delivered + queued, sent);
  }

  lemma {:induction false} AcceptConserves(l: Ledger, c: PendingCommand, at: Instant, agent: string)
    requires Conserved(l, agent)
    ensures Conserved(Step(l, Accept(c, at)), agent)
  {
    if c.agentID == agent {
      AcceptBalances(QueueOf(l.sent, agent), QueueOf(l.delivered, agent), QueueOf(l.queues, agent),
                     QueueOf(l.expired, agent), agent, c);
    }
  }

  lemma {:induction false} DrainConserves(l: Ledger, a: string, at: Instant, agent: string)
    requires Conserved(l, agent)
    ensures Conserved(Step(l, Drain(a, at)), agent)
  {
    if a == agent {
      DrainBalances(QueueOf(l.sent, agent), QueueOf(l.delivered, agent), QueueOf(l.queues, agent),
                    QueueOf(l.expired, agent), agent);
    }
  }

  lemma {:induction false} CleanupConserves(l: Ledger, now: Instant, agent: string)
    requires Conserved(l, agent)
    ensures Conserved(Step(l, Cleanup(now)), agent)
  {
    var queued, expired := QueueOf(l.queues, agent), QueueOf(l.expired, agent);
    CleanupBalances(QueueOf(l.sent, agent), QueueOf(l.delivered, agent), queued, expired, agent, now);
    assert QueueOf(Step(l, Cleanup(now)).expired, agent) == expired + Lapsed(queued, now);
    CleanedQueue(l.queues, now, agent);
  }

  lemma {:induction false} StepConserves(l: Ledger, e: Event, agent: string)
    requires Conserved(l, agent)
    ensures Conserved(Step(l, e), agent)
  {
    match e
    case Accept(c, at) => AcceptConserves(l, c, at, agent);
    case Drain(a, at) => DrainConserves(l, a, at, agent);
    case Cleanup(now) => CleanupConserves(l, now, agent);
  }

  /**
   Over every run, with sends racing each other and clocks misbehaving: what was accepted for an agent
   is what was delivered, is queued, or expired; and delivery never reorders.
   */
  lemma {:induction false} RunConserves(events: seq<Event>, agent: string)
    ensures Conserved(Run(events), agent)
  {
    if events == [] {
    } else {
      RunConserves(events[..|events| - 1], agent);
      StepConserves(Run(events[..|events| - 1]), events[|events| - 1], agent);
    }
  }

  /** A command accepted once is, at every moment, in exactly one place, and only for its own agent. */
  lemma {:induction false} ExactlyOnePlace(events: seq<Event>, command: PendingCommand, agent: string)
    requires multiset(QueueOf(Run(events).sent, command.agentID))[command] == 1
    ensures var l := Run(events);
      multiset(QueueOf(l.delivered, agent))[command] + multiset(QueueOf(l.queues, agent))[command]
        + multiset(QueueOf(l.expired, agent))[command] == if agent == command.agentID then 1 else 0
  {
    RunConserves(events, agent);
    var l := Run(events);
    if agent != command.agentID {
      assert command !in QueueOf(l.sent, agent);
      assert multiset(QueueOf(l.sent, agent))[command] == 0;
    }
  }

  // ---------------------------------------------------------------------------
  // Atomic sends on one non-decreasing clock.
  // ---------------------------------------------------------------------------

  /** Events happen in clock order, and each command is stamped when it is appended. */
  ghost predicate Timed(events: seq<Event>) {
    && (forall i, j :: 0 <= i < j < |events| ==> events[i].at <= events[j].at)
    && (forall i :: 0 <= i < |events| && events[i].Accept? ==>
          events[i].command.createdAt == events[i].at && events[i].command.expiresAt == events[i].at + COMMAND_TTL)
  }

  ghost predicate SortedByExpiry(commands: seq<PendingCommand>) {
    forall i, j :: 0 <= i < j < |commands| ==> commands[i].expiresAt <= commands[j].expiresAt
  }

  /** On a queue in expiry order, expiry removes exactly a prefix. */
  lemma {:induction false} ExpiryRemovesPrefix(commands: seq<PendingCommand>, now: Instant)
    requires SortedByExpiry(commands)
    ensures commands == Lapsed(commands, now) + Live(commands, now)
  {
    if commands == [] {
    } else {
      var front := commands[..|commands| - 1];
      var last := commands[|commands| - 1];
      ExpiryRemovesPrefix(front, now);
      assert commands == front + [last];
      if last.expiresAt <= now {
        NothingLive(front, now, last.expiresAt);
        assert Live(commands, now) == [];
        assert Lapsed(commands, now) == Lapsed(front, now) + [last];
      } else {
        assert Live(commands, now) == Live(front, now) + [last];
        assert Lapsed(commands, now) == Lapsed(front, now);
      }
    }
  }

  lemma {:induction false} NothingLive(commands: seq<PendingCommand>, now: Instant, bound: Instant)
    requires bound <= now
    requires forall i :: 0 <= i < |commands| ==> commands[i].expiresAt <= bound
    ensures Live(commands, now) == []
  {
    if commands == [] {
    } else {
      NothingLive(commands[..|commands| - 1], now, bound);
    }
  }

  lemma {:induction false} LiveStaysSorted(commands: seq<PendingCommand>, now: Instant)
    requires SortedByExpiry(commands)
    ensures SortedByExpiry(Live(commands, now))
  {
    ExpiryRemovesPrefix(commands, now);
    var k := |Lapsed(commands, now)|;
    assert Live(commands, now) == commands[k..];
  }

  /** The instant of the last cleanup of a run, if there was one. */
  function LastCleanup(events: seq<Event>): Option<Instant> {
    if events == [] then None
    else if events[|events| - 1].Cleanup? then Some(events[|events| - 1].at)
    else LastCleanup(events[..|events| - 1])
  }

  lemma {:induction false} LastCleanupBefore(events: seq<Event>)
    requires Timed(events)
    ensures LastCleanup(events).Some? ==> events != [] && LastCleanup(events).value <= events[|events| - 1].at
  {
    if events != [] && !events[|events| - 1].Cleanup? {
      LastCleanupBefore(events[..|events| - 1]);
    }
  }

  /** In expiry order, expiring after the last cleanup and at most a full term from now. */
  ghost predicate Tidy(queue: seq<PendingCommand>, last: Option<Instant>, now: Instant) {
    && SortedByExpiry(queue)
    && forall c <- queue :: c.expiresAt <= now + COMMAND_TTL && (last.Some? ==> c.expiresAt > last.value)
  }

  lemma {:induction false} TidyLater(queue: seq<PendingCommand>, last: Option<Instant>, now: Instant, later: Instant)
    requires Tidy(queue, last, now) && now <= later
    ensures Tidy(queue, last, later)
  {
  }

  lemma {:induction false} TidyAccept(queue: seq<PendingCommand>, last: Option<Instant>, now: Instant,
          c: PendingCommand)
    requires Tidy(queue, last, now) && c.expiresAt == now + COMMAND_TTL && (last.Some? ==> last.value <= now)
    ensures Tidy(queue + [c], last, now)
  {
  }

  lemma {:induction false} TidyCleanup(queue: seq<PendingCommand>, last: Option<Instant>, now: Instant)
    requires Tidy(queue, last, now)
    ensures Tidy(Live(queue, now), Some(now), now)
  {
    LiveStaysSorted(queue, now);
    SplitMembers(queue, now);
  }

  lemma {:induction false} TimedFront(events: seq<Event>)
    requires Timed(events) && events != []
    ensures Timed(events[..|events| - 1])
    ensures |events| > 1 ==> events[|events| - 2].at <= events[|events| - 1].at
  {
  }

  lemma {:induction false} TimedStep(queue: seq<PendingCommand>, l: Ledger, last: Option<Instant>, e: Event,
          agent: string)
    requires queue == QueueOf(l.queues, agent) && Tidy(queue, last, e.at) && (last.Some? ==> last.value <= e.at)
    requires e.Accept? ==> e.command.expiresAt == e.at + COMMAND_TTL
    ensures Tidy(QueueOf(Step(l, e).queues, agent), if e.Cleanup? then Some(e.at) else last, e.at)
  {
    match e
    case Accept(c, at) => TidyAccept(queue, last, at, c);
    case Drain(_, _) =>
    case Cleanup(now) =>
      TidyCleanup(queue, last, now);
      CleanedQueue(l.queues, now, agent);
  }

  lemma {:induction false} TimedIsTidy(events: seq<Event>, agent: string)
    requires Timed(events) && events != []
    ensures Tidy(QueueOf(Run(events).queues, agent), LastCleanup(events), events[|events| - 1].at)
  {
    var front, e := events[..|events| - 1], events[|events| - 1];
    TimedFront(events);
    LastCleanupBefore(front);
    if front != [] {
      TimedIsTidy(front, agent);
      TidyLater(QueueOf(Run(front).queues, agent), LastCleanup(front), front[|front| - 1].at, e.at);
    }
    TimedStep(QueueOf(Run(front).queues, agent), Run(front), LastCleanup(front), e, agent);
  }

  /** Timed runs keep every queue in expiry order, and free of anything the last cleanup should have dropped. */
  lemma {:induction false} TimedQueue(events: seq<Event>, agent: string)
    requires Timed(events)
    ensures SortedByExpiry(QueueOf(Run(events).queues, agent))
    ensures forall c :: c in QueueOf(Run(events).queues, agent) ==>
      && events != [] && c.expiresAt <= events[|events| - 1].at + COMMAND_TTL
      && (LastCleanup(events).Some? ==> c.expiresAt > LastCleanup(events).value)
  {
    if events == [] {
    } else {
      TimedIsTidy(events, agent);
    }
  }

  /** In a timed run every cleanup drops exactly a prefix of every queue. */
  lemma {:induction false} CleanupDropsPrefix(events: seq<Event>, now: Instant, agent: string)
    requires Timed(events)
    ensures var before := QueueOf(Run(events).queues, agent);
      var after := QueueOf(Step(Run(events), Cleanup(now)).queues, agent);
      && |after| <= |before| && after == before[|before| - |after|..]
      && (forall i :: 0 <= i < |before| - |after| ==> before[i].expiresAt <= now)
      && (forall c :: c in after ==> c.expiresAt > now)
  {
    var before := QueueOf(Run(events).queues, agent);
    assert SortedByExpiry(before) by {
      TimedQueue(events, agent);
    }
    CleaningSortedQueue(before, now);
    CleanedQueue(Run(events).queues, now, agent);
  }

  lemma {:induction false} CleanedQueue(queues: Queues, now: Instant, agent: string)
    ensures QueueOf(Cleaned(queues, now), agent) == Live(QueueOf(queues, agent), now)
  {
  }

  lemma {:induction false} CleaningSortedQueue(before: seq<PendingCommand>, now: Instant)
    requires SortedByExpiry(before)
    ensures var after := Live(before, now);
      && |after| <= |before| && after == before[|before| - |after|..]
      && (forall i :: 0 <= i < |before| - |after| ==> before[i].expiresAt <= now)
      && (forall c :: c in after ==> c.expiresAt > now)
  {
    ExpiryRemovesPrefix(before, now);
    SplitMembers(before, now);
    PrefixSplit(before, Lapsed(before, now), Live(before, now));
  }

  lemma {:induction false} PrefixSplit<T>(whole: seq<T>, head: seq<T>, tail: seq<T>)
    requires whole == head + tail
    ensures tail == whole[|whole| - |tail|..]
    ensures forall i :: 0 <= i < |whole| - |tail| ==> whole[i] in head
  {
    forall i | 0 <= i < |whole| - |tail|
      ensures whole[i] in head
    {
      assert whole[i] == head[i];
    }
  }

  /**
   The drain hands over whatever is queued without looking at expiry, so a delivered command may be
   overdue, but never by as much as the time since the last cleanup.
   */
  lemma {:induction false} DeliveredOverdueLessThanCleanupGap(events: seq<Event>, agent: string, now: Instant,
          c: PendingCommand)
    requires Timed(events + [Drain(agent, now)])
    requires c in QueueOf(Run(events).queues, agent)
    ensures c in QueueOf(Run(events + [Drain(agent, now)]).delivered, agent)
    ensures LastCleanup(events).Some? ==> now - c.expiresAt < now - LastCleanup(events).value
    ensures LastCleanup(events) == Some(now) ==> c.expiresAt > now
  {
    var all := events + [Drain(agent, now)];
    assert all[..|all| - 1] == events;
    assert forall i :: 0 <= i < |events| ==> all[i] == events[i];
    TimedQueue(events, agent);
  }

  lemma {:induction false} DrainDelivers(events: seq<Event>, agent: string, now: Instant)
    ensures QueueOf(Run(events + [Drain(agent, now)]).delivered, agent)
         == QueueOf(Run(events).delivered, agent) + QueueOf(Run(events).queues, agent)
  {
    assert (events + [Drain(agent, now)])[..|events|] == events;
  }

  /** In a timed run, a heartbeat receives no expired command exactly if the head of the queue has not expired. */
  lemma {:induction false} NoneExpiredIffHeadLive(events: seq<Event>, agent: string, now: Instant)
    requires Timed(events)
    ensures var queue := QueueOf(Run(events).queues, agent);
      && QueueOf(Run(events + [Drain(agent, now)]).delivered, agent) == QueueOf(Run(events).delivered, agent) + queue
      && ((forall c :: c in queue ==> c.expiresAt > now) <==> queue == [] || queue[0].expiresAt > now)
  {
    var queue := QueueOf(Run(events).queues, agent);
    DrainDelivers(events, agent, now);
    TimedQueue(events, agent);
    if queue != [] {
      assert queue[0] in queue;
    }
  }

  /** Without a cleanup in between, an expired command is still delivered. */
  lemma {:induction false} ExpiredCommandCanBeDelivered()
    ensures var c := PendingCommand("cmd-1", "a", "shell", "uptime", 30, 0, COMMAND_TTL);
      var events := [Accept(c, 0), Drain("a", COMMAND_TTL + 1)];
      && Timed(events)
      && QueueOf(Run(events).delivered, "a") == [c]
      && c.expiresAt < events[1].at
  {
    var c := PendingCommand("cmd-1", "a", "shell", "uptime", 30, 0, COMMAND_TTL);
    var events := [Accept(c, 0), Drain("a", COMMAND_TTL + 1)];
    assert events[..1] == [Accept(c, 0)];
    assert [Accept(c, 0)][..0] == [];
    assert Run([Accept(c, 0)]) == Step(Run([]), Accept(c, 0));
    assert Run(events) == Step(Run(events[..1]), events[1]);
  }

  lemma {:induction false} PartMember<T>(whole: seq<T>, head: seq<T>, tail: seq<T>, k: nat)
    requires whole == head + tail && k < |whole|
    ensures if k < |head| then whole[k] in head else whole[k] in tail
  {
    assert k < |head| ==> whole[k] == head[k];
    assert k >= |head| ==> whole[k] == tail[k - |head|];
  }

  /** A cleanup at that instant removes exactly a prefix of the queue. */
  predicate RemovesPrefix(queue: seq<PendingCommand>, now: Instant) {
    queue == Lapsed(queue, now) + Live(queue, now)
  }

  /** Where the cleanup at a command's own expiry removes a prefix, no earlier command expires later. */
  lemma {:induction false} PrefixMeansNotLater(queue: seq<PendingCommand>, i: nat, j: nat)
    requires i < j < |queue|
    requires RemovesPrefix(queue, queue[j].expiresAt)
    ensures queue[i].expiresAt <= queue[j].expiresAt
  {
    var now := queue[j].expiresAt;
    SplitMembers(queue, now);
    PartMember(queue, Lapsed(queue, now), Live(queue, now), j);
    PartMember(queue, Lapsed(queue, now), Live(queue, now), i);
  }

  /** Cleanups at every instant remove exactly a prefix if and only if the queue is in expiry order. */
  lemma {:induction false} PrefixIffSorted(queue: seq<PendingCommand>)
    ensures (forall now: Instant :: RemovesPrefix(queue, now)) <==> SortedByExpiry(queue)
  {
    if SortedByExpiry(queue) {
      forall now: Instant
        ensures RemovesPrefix(queue, now)
      {
        ExpiryRemovesPrefix(queue, now);
      }
    }
    if forall now: Instant :: RemovesPrefix(queue, now) {
      forall i, j | 0 <= i < j < |queue|
        ensures queue[i].expiresAt <= queue[j].expiresAt
      {
        PrefixMeansNotLater(queue, i, j);
      }
    }
  }

  /**
   Two racing senders may append in the opposite order of their stamps, which leaves the queue out of expiry
   order; a cleanup between the two expiries then removes a command from behind a live one.
   */
  lemma {:induction false} RacingSendsBreakThePrefix(late: PendingCommand, early: PendingCommand, first: Instant,
          second: Instant)
    requires late.agentID == early.agentID && early.expiresAt < late.expiresAt
    ensures var queue := QueueOf(Run([Accept(late, first), Accept(early, second)]).queues, late.agentID);
      var left := Live(queue, early.expiresAt);
      queue == [late, early] && !SortedByExpiry(queue) && left == [late] && left != queue[|queue| - |left|..]
  {
    var one, two := [Accept(late, first)], [Accept(late, first), Accept(early, second)];
    assert one[..0] == [] && two[..1] == one;
    assert Run(one) == Step(Run([]), Accept(late, first));
    assert Run(two) == Step(Run(one), Accept(early, second));
    var queue := [late, early];
    assert queue[0].expiresAt > queue[1].expiresAt;
    assert queue[..1] == [late] && [late][..0] == [];
    assert Live([late], early.expiresAt) == [late];
  }
}
