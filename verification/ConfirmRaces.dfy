/**
 Questions and answers handled at the same time. Nothing locks the store between the two reads of an answer,
 its status writes and its handler, nor between the lookup of a question and its insert, so here each of these
 is a step of its own.
 */
module ConfirmRaces {

  import opened Wrappers
  import opened PendingActions
  import opened Clock
  import opened ConfirmProtocol
  import ConfirmText

  /** A message understood as an answer about action `id`; `open` until it looks that row up. */
  datatype Reply = Reply(userID: string, sessionID: string, command: ConfirmText.Command, id: string,
          env: Surroundings, open: bool)

  /** An answer after its lookup: first write (stage 0), handler (stage 1), second write (stage 2), over (stage 3). */
  datatype Plan = Plan(decision: Decision, env: Surroundings, stage: nat, lookedAt: nat)

  /** A question whose lookup gave no waiting action. */
  datatype Question = Question(action: PendingAction, open: bool)

  /** A status write that was stored, and the plan it belongs to. */
  datatype StoredWrite = StoredWrite(plan: nat, write: Write)

  /**
   `stored` are the stored status writes in order; `written` maps an action to the step that stored its first;
   `taken` counts the steps, and `clock` is the instant of the last one that has any.
   */
  datatype Shared = Shared(
    rows: Table, replies: seq<Reply>, plans: seq<Plan>, questions: seq<Question>, runs: seq<HandlerRun>,
    stored: seq<StoredWrite>, written: map<string, nat>, taken: nat, clock: Instant)

  datatype Step =
    | Receive(userID: string, sessionID: string, text: string, at: Instant, env: Surroundings)
    | Lookup(reply: nat, at: Instant)
    | Advance(plan: nat)
    | AskLookup(request: Request, id: string, at: Instant, read: bool)
    | Insert(question: nat, at: Instant, accepted: bool)

  predicate Enabled(w: Shared, s: Step) {
    match s
    case Lookup(r, _) => r < |w.replies| && w.replies[r].open
    case Advance(k) => k < |w.plans| && w.plans[k].stage < 3
    case Insert(q, _, _) => q < |w.questions| && w.questions[q].open
    case _ => true
  }

  /** The action a message is about: the one it names, or the newest one waiting. */
  function Understood(rows: Table, userID: string, sessionID: string, text: string, at: Instant, env: Surroundings)
    : Option<Reply>
  {
    match ConfirmText.Parse(text)
    case NotACommand => None
    case Parsed(command, id) =>
      var waiting := Latest(rows, sessionID, userID, at);
      if id != "" then Some(Reply(userID, sessionID, command, id, env, true))
      else if env.latestRead && waiting.Some? then
        Some(Reply(userID, sessionID, command, waiting.value.id, env, true))
      else None
  }

  function DecidedBy(rows: Table, r: Reply, at: Instant): Decision {
    DecideFor(rows, r.userID, r.sessionID, r.command, r.id, at, r.env)
  }

  predicate Stores(rows: Table, writes: seq<Write>, k: nat, accepted: bool) {
    k < |writes| && accepted && Find(rows, writes[k].id).Some?
  }

  function Marked(w: Shared, writes: seq<Write>, k: nat, accepted: bool): map<string, nat> {
    if Stores(w.rows, writes, k, accepted) && writes[k].id !in w.written then w.written[writes[k].id := w.taken]
    else w.written
  }

  function Logged(w: Shared, plan: nat, writes: seq<Write>, k: nat, accepted: bool): seq<StoredWrite> {
    if Stores(w.rows, writes, k, accepted) then w.stored + [StoredWrite(plan, writes[k])] else w.stored
  }

  /** Plan p attempts its j-th write and moves on. */
  function Writing(w: Shared, p: nat, j: nat, accepted: bool): Shared
    requires p < |w.plans|
  {
    var plan := w.plans[p];
    var writes := plan.decision.writes;
    w.(plans := w.plans[p := plan.(stage := plan.stage + 1)], rows := Store(w.rows, writes, j, accepted),
       stored := Logged(w, p, writes, j, accepted), written := Marked(w, writes, j, accepted))
  }

  function Handling(w: Shared, p: nat): Shared
    requires p < |w.plans|
  {
    var plan := w.plans[p];
    w.(plans := w.plans[p := plan.(stage := plan.stage + 1)],
       runs := w.runs + if plan.decision.ran.Some? then [plan.decision.ran.value] else [])
  }

  function Advanced(w: Shared, k: nat): Shared
    requires k < |w.plans|
  {
    var p := w.plans[k];
    if p.stage == 0 then Writing(w, k, 0, p.env.firstWrite)
    else if p.stage == 1 then Handling(w, k)
    else Writing(w, k, 1, p.env.secondWrite)
  }

  /** The insert of question q goes through. */
  predicate Inserts(w: Shared, q: nat, accepted: bool)
    requires q < |w.questions|
  {
    accepted && Find(w.rows, w.questions[q].action.id).None?
  }

  function Acted(w: Shared, s: Step): Shared
    requires Enabled(w, s)
  {
    match s
    case Receive(userID, sessionID, text, at, env) =>
      var reply := Understood(w.rows, userID, sessionID, text, at, env);
      w.(replies := w.replies + if reply.Some? then [reply.value] else [], clock := at)
    case Lookup(r, at) =>
      var reply := w.replies[r];
      w.(replies := w.replies[r := reply.(open := false)],
         plans := w.plans + [Plan(DecidedBy(w.rows, reply, at), reply.env, 0, w.taken)], clock := at)
    case Advance(k) => Advanced(w, k)
    case AskLookup(request, id, at, read) =>
      var action := NewAction(request, id, at);
      var found := read && Latest(w.rows, action.sessionID, action.userID, at).Some?;
      w.(questions := w.questions + if found then [] else [Question(action, true)], clock := at)
    case Insert(q, at, accepted) =>
      var action := w.questions[q].action;
      w.(questions := w.questions[q := Question(action, false)],
         rows := if Inserts(w, q, accepted) then w.rows + [action] else w.rows, clock := at)
  }

  function Next(w: Shared, s: Step): Shared
    requires Enabled(w, s)
  {
    Acted(w, s).(taken := w.taken + 1)
  }

  predicate Runs(steps: seq<Step>) {
    steps == [] ||
    (Runs(steps[..|steps| - 1]) && Enabled(After(steps[..|steps| - 1]), steps[|steps| - 1]))
  }

  function After(steps: seq<Step>): Shared {
    if steps == [] then Shared([], [], [], [], [], [], map[], 0, 0)
    else
      var w, s := After(steps[..|steps| - 1]), steps[|steps| - 1];
      if Enabled(w, s) then Next(w, s) else w
  }

  // ---------------------------------------------------------------------------
  // Looking up after a write.
  // ---------------------------------------------------------------------------

  lemma {:induction false} FindAfterSet(rows: Table, id: string, status: Status, errorMsg: string, x: string)
    ensures Find(SetStatus(rows, id, status, errorMsg), x)
         == if x == id && Find(rows, x).Some?
            then Some(Find(rows, x).value.(status := status, errorMsg := errorMsg)) else Find(rows, x)
  {
    if rows == [] {
    } else {
      var after := SetStatus(rows, id, status, errorMsg);
      assert after[1..] == SetStatus(rows[1..], id, status, errorMsg);
      FindAfterSet(rows[1..], id, status, errorMsg, x);
    }
  }

  lemma {:induction false} FindAfterStore(rows: Table, writes: seq<Write>, k: nat, accepted: bool, x: string)
    ensures Find(Store(rows, writes, k, accepted), x)
         == if Stores(rows, writes, k, accepted) && x == writes[k].id
            then Some(Find(rows, x).value.(status := writes[k].status, errorMsg := writes[k].errorMsg))
            else Find(rows, x)
  {
    if k < |writes| && accepted {
      FindAfterSet(rows, writes[k].id, writes[k].status, writes[k].errorMsg, x);
    }
  }

  // ---------------------------------------------------------------------------
  // The invariant: a row is pending until its first stored status write.
  // ---------------------------------------------------------------------------

  predicate PendingUntilWritten(rows: Table, written: map<string, nat>, id: string) {
    && (Find(rows, id).Some? ==> (Find(rows, id).value.status == Pending <==> id !in written))
    && (id in written ==> Find(rows, id).Some?)
  }

  predicate WritesFit(rows: Table, writes: seq<Write>) {
    forall j :: 0 <= j < |writes| ==> writes[j].status != Pending && Find(rows, writes[j].id).Some?
  }

  /** A plan that writes a status looked before the first stored one of that action. */
  predicate LookedFirst(p: Plan, written: map<string, nat>) {
    forall j :: 0 <= j < |p.decision.writes| && p.decision.writes[j].id in written ==>
      p.lookedAt < written[p.decision.writes[j].id]
  }

  /** All writes and the handler run of a decision are about one action. */
  predicate OneAction(d: Decision) {
    && |d.writes| <= 2
    && (|d.writes| == 2 ==> d.writes[1].id == d.writes[0].id)
    && (d.ran.Some? ==> d.writes != [] && d.writes[0].id == d.ran.value.id)
  }

  predicate PlanFits(w: Shared, p: Plan) {
    && WritesFit(w.rows, p.decision.writes) && OneAction(p.decision)
    && LookedFirst(p, w.written) && p.lookedAt < w.taken
  }

  ghost predicate RaceInv(w: Shared) {
    && (forall id :: PendingUntilWritten(w.rows, w.written, id))
    && (forall k :: 0 <= k < |w.plans| ==> PlanFits(w, w.plans[k]))
    && (forall q :: 0 <= q < |w.questions| ==> w.questions[q].action.status == Pending)
  }

  lemma {:induction false} StoreKeepsPending(w: Shared, writes: seq<Write>, k: nat, accepted: bool, id: string)
    requires PendingUntilWritten(w.rows, w.written, id) && WritesFit(w.rows, writes)
    ensures PendingUntilWritten(Store(w.rows, writes, k, accepted), Marked(w, writes, k, accepted), id)
  {
    FindAfterStore(w.rows, writes, k, accepted, id);
  }

  lemma {:induction false} StoreKeepsFit(rows: Table, writes: seq<Write>, k: nat, accepted: bool, others: seq<Write>)
    requires WritesFit(rows, others)
    ensures WritesFit(Store(rows, writes, k, accepted), others)
  {
    forall j | 0 <= j < |others|
      ensures Find(Store(rows, writes, k, accepted), others[j].id).Some?
    {
      FindAfterStore(rows, writes, k, accepted, others[j].id);
    }
  }

  lemma {:induction false} MarkKeepsLookedFirst(w: Shared, writes: seq<Write>, k: nat, accepted: bool, p: Plan)
    requires LookedFirst(p, w.written) && p.lookedAt < w.taken
    ensures LookedFirst(p, Marked(w, writes, k, accepted))
  {
  }

  /** A decision is about one row, which was found pending if the decision writes. */
  lemma {:induction false} DecisionFits(rows: Table, r: Reply, at: Instant)
    ensures var d := DecidedBy(rows, r, at);
      && WritesFit(rows, d.writes) && OneAction(d)
      && (d.writes != [] ==> d.writes[0].id == r.id && Find(rows, r.id).value.status == Pending)
  {
  }

  lemma {:induction false} WritingKeepsInv(w: Shared, k: nat, j: nat, accepted: bool)
    requires RaceInv(w) && k < |w.plans|
    ensures RaceInv(Writing(w, k, j, accepted))
  {
    var writes := w.plans[k].decision.writes;
    forall id
      ensures PendingUntilWritten(Store(w.rows, writes, j, accepted), Marked(w, writes, j, accepted), id)
    {
      StoreKeepsPending(w, writes, j, accepted, id);
    }
    forall m | 0 <= m < |w.plans|
      ensures PlanFits(Writing(w, k, j, accepted), w.plans[m])
    {
      StoreKeepsFit(w.rows, writes, j, accepted, w.plans[m].decision.writes);
      MarkKeepsLookedFirst(w, writes, j, accepted, w.plans[m]);
    }
  }

  lemma {:induction false} InsertingKeepsInv(w: Shared, q: nat)
    requires RaceInv(w) && q < |w.questions| && Find(w.rows, w.questions[q].action.id).None?
    ensures RaceInv(w.(rows := w.rows + [w.questions[q].action]))
  {
    var action := w.questions[q].action;
    var rows := w.rows + [action];
    forall id
      ensures PendingUntilWritten(rows, w.written, id)
    {
      assert PendingUntilWritten(w.rows, w.written, id);
      FindAfterAppend(w.rows, action, id);
    }
    forall m | 0 <= m < |w.plans|
      ensures WritesFit(rows, w.plans[m].decision.writes)
    {
      FitsAfterAppend(w.rows, action, w.plans[m].decision.writes);
    }
  }

  lemma {:induction false} FitsAfterAppend(rows: Table, action: PendingAction, writes: seq<Write>)
    requires WritesFit(rows, writes)
    ensures WritesFit(rows + [action], writes)
  {
    forall j | 0 <= j < |writes|
      ensures Find(rows + [action], writes[j].id).Some?
    {
      FindAfterAppend(rows, action, writes[j].id);
    }
  }

  lemma {:induction false} LookingKeepsInv(w: Shared, r: nat, at: Instant)
    requires RaceInv(w) && Enabled(w, Lookup(r, at))
    ensures RaceInv(Next(w, Lookup(r, at)))
  {
    var d := DecidedBy(w.rows, w.replies[r], at);
    DecisionFits(w.rows, w.replies[r], at);
    assert PendingUntilWritten(w.rows, w.written, w.replies[r].id);
    assert LookedFirst(Plan(d, w.replies[r].env, 0, w.taken), w.written);
  }

  lemma {:induction false} AdvancingKeepsInv(w: Shared, k: nat)
    requires RaceInv(w) && Enabled(w, Advance(k))
    ensures RaceInv(Next(w, Advance(k)))
  {
    var p := w.plans[k];
    if p.stage == 0 {
      WritingKeepsInv(w, k, 0, p.env.firstWrite);
    } else if p.stage == 2 {
      WritingKeepsInv(w, k, 1, p.env.secondWrite);
    }
  }

  /** A row is pending until its first stored status write, and whoever writes one looked before that. */
  lemma {:induction false} StepKeepsInv(w: Shared, s: Step)
    requires RaceInv(w) && Enabled(w, s)
    ensures RaceInv(Next(w, s))
  {
    match s
    case Receive(_, _, _, _, _) =>
    case Lookup(r, at) => LookingKeepsInv(w, r, at);
    case Advance(k) => AdvancingKeepsInv(w, k);
    case AskLookup(_, _, _, _) =>
    case Insert(q, _, accepted) =>
      if Inserts(w, q, accepted) {
        InsertingKeepsInv(w, q);
      }
  }

  lemma {:induction false} RunKeepsInv(steps: seq<Step>)
    ensures RaceInv(After(steps))
  {
    if steps == [] {
    } else {
      RunKeepsInv(steps[..|steps| - 1]);
      if Enabled(After(steps[..|steps| - 1]), steps[|steps| - 1]) {
        StepKeepsInv(After(steps[..|steps| - 1]), steps[|steps| - 1]);
      }
    }
  }

  // ---------------------------------------------------------------------------
  // When a handler runs more than once.
  // ---------------------------------------------------------------------------

  predicate RunsFor(p: Plan, id: string) {
    p.decision.ran.Some? && p.decision.ran.value.id == id
  }

  function CountRuns(runs: seq<HandlerRun>, id: string): nat {
    if runs == [] then 0 else CountRuns(runs[..|runs| - 1], id) + if runs[|runs| - 1].id == id then 1 else 0
  }

  /** The plans for an action whose handler step is behind them. */
  function CountRan(plans: seq<Plan>, id: string): nat {
    if plans == [] then 0
    else
      var last := plans[|plans| - 1];
      CountRan(plans[..|plans| - 1], id) + if RunsFor(last, id) && last.stage >= 2 then 1 else 0
  }

  lemma {:induction false} CountAfterUpdate(plans: seq<Plan>, k: nat, p: Plan, id: string)
    requires k < |plans|
    ensures CountRan(plans[k := p], id) + (if RunsFor(plans[k], id) && plans[k].stage >= 2 then 1 else 0)
         == CountRan(plans, id) + if RunsFor(p, id) && p.stage >= 2 then 1 else 0
  {
    var front := plans[..|plans| - 1];
    if k < |front| {
      CountAfterUpdate(front, k, p, id);
      assert plans[k := p][..|front|] == front[k := p];
    } else {
      assert plans[k := p][..|front|] == front;
    }
  }

  lemma {:induction false} AdvanceCounts(w: Shared, k: nat, id: string)
    requires Enabled(w, Advance(k)) && CountRuns(w.runs, id) == CountRan(w.plans, id)
    ensures CountRuns(Advanced(w, k).runs, id) == CountRan(Advanced(w, k).plans, id)
  {
    var p := w.plans[k];
    CountAfterUpdate(w.plans, k, p.(stage := p.stage + 1), id);
    if p.stage == 1 {
      if p.decision.ran.Some? {
        assert (w.runs + [p.decision.ran.value])[..|w.runs|] == w.runs;
      } else {
        assert w.runs + [] == w.runs;
      }
    }
  }

  lemma {:induction false} StepCounts(w: Shared, s: Step, id: string)
    requires Enabled(w, s) && CountRuns(w.runs, id) == CountRan(w.plans, id)
    ensures CountRuns(Next(w, s).runs, id) == CountRan(Next(w, s).plans, id)
  {
    match s
    case Lookup(_, _) =>
      assert Next(w, s).plans[..|w.plans|] == w.plans;
    case Advance(k) => AdvanceCounts(w, k, id);
    case _ =>
  }

  /** Every handler run is the handler step of one answer that decided on it at its lookup. */
  lemma {:induction false} RunsAreDecided(steps: seq<Step>, id: string)
    ensures CountRuns(After(steps).runs, id) == CountRan(After(steps).plans, id)
  {
    if steps == [] {
    } else {
      RunsAreDecided(steps[..|steps| - 1], id);
      if Enabled(After(steps[..|steps| - 1]), steps[|steps| - 1]) {
        StepCounts(After(steps[..|steps| - 1]), steps[|steps| - 1], id);
      }
    }
  }

  /** Whom the answer is about: a row of the answering session and user, which can be read. */
  predicate Concerns(w: Shared, id: string, s: Step) {
    && s.Lookup? && s.reply < |w.replies|
    && var reply := w.replies[s.reply];
      && reply.id == id && reply.env.idRead && Find(w.rows, id).Some?
      && Find(w.rows, id).value.userID == reply.userID && Find(w.rows, id).value.sessionID == reply.sessionID
  }

  /** A confirmation of the action by its owner, in time, with a working read, intact arguments and a known tool. */
  predicate Confirms(w: Shared, id: string, s: Step) {
    && Concerns(w, id, s)
    && var reply, row := w.replies[s.reply], Find(w.rows, id).value;
      && reply.command == ConfirmText.Confirm && reply.env.argsDecode && row.toolName in reply.env.tools
      && (row.expiresAt.Some? ==> s.at <= row.expiresAt.value)
  }

  predicate RunsIn(d: Decision, id: string) {
    d.ran.Some? && d.ran.value.id == id
  }

  predicate WritesIn(d: Decision, id: string) {
    d.writes != [] && d.writes[0].id == id
  }

  /**
   An answer decides to write if and only if its row is the answering user's and no status write has been stored
   yet; it decides to run the handler if and only if it also confirms.
   */
  lemma {:induction false} DecidesIffUnwritten(w: Shared, id: string, r: nat, at: Instant)
    requires RaceInv(w) && r < |w.replies|
    ensures var d := DecidedBy(w.rows, w.replies[r], at);
      && (WritesIn(d, id) <==> Concerns(w, id, Lookup(r, at)) && id !in w.written)
      && (RunsIn(d, id) <==> Confirms(w, id, Lookup(r, at)) && id !in w.written)
  {
    assert PendingUntilWritten(w.rows, w.written, id);
  }

  // ---------------------------------------------------------------------------
  // Plans and the steps that made them.
  // ---------------------------------------------------------------------------

  lemma {:induction false} TakenIsLength(steps: seq<Step>)
    requires Runs(steps)
    ensures After(steps).taken == |steps|
  {
    if steps == [] {
    } else {
      TakenIsLength(steps[..|steps| - 1]);
    }
  }

  /** Plan p was made by a step of the run, numbered by its lookup. */
  predicate MadeBy(steps: seq<Step>, p: Plan) {
    p.lookedAt < |steps| && Made(After(steps[..p.lookedAt]), steps[p.lookedAt], p)
  }

  predicate Made(w: Shared, s: Step, p: Plan) {
    && s.Lookup? && s.reply < |w.replies|
    && p.decision == DecidedBy(w.rows, w.replies[s.reply], s.at) && p.env == w.replies[s.reply].env
  }

  lemma {:induction false} StepKeepsPlans(w: Shared, s: Step, k: nat)
    requires Enabled(w, s) && k < |w.plans|
    ensures k < |Next(w, s).plans|
    ensures Next(w, s).plans[k].lookedAt == w.plans[k].lookedAt
    ensures Next(w, s).plans[k].decision == w.plans[k].decision && Next(w, s).plans[k].env == w.plans[k].env
  {
  }

  lemma {:induction false} PlanHasLookup(steps: seq<Step>, k: nat)
    requires Runs(steps) && k < |After(steps).plans|
    ensures MadeBy(steps, After(steps).plans[k])
  {
    if steps == [] {
    } else {
      var front, s := steps[..|steps| - 1], steps[|steps| - 1];
      if k < |After(front).plans| {
        PlanHasLookup(front, k);
        StepKeepsPlans(After(front), s, k);
        var m := After(front).plans[k].lookedAt;
        assert front[..m] == steps[..m];
      } else {
        TakenIsLength(front);
        assert s.Lookup? && steps[..|front|] == front;
      }
    }
  }

  lemma {:induction false} LooksAscend(steps: seq<Step>, j: nat, k: nat)
    requires Runs(steps) && j < k < |After(steps).plans|
    ensures After(steps).plans[j].lookedAt < After(steps).plans[k].lookedAt
  {
    if steps == [] {
    } else {
      var front, s := steps[..|steps| - 1], steps[|steps| - 1];
      StepKeepsPlans(After(front), s, j);
      if k < |After(front).plans| {
        LooksAscend(front, j, k);
        StepKeepsPlans(After(front), s, k);
      } else {
        TakenIsLength(front);
        PlanHasLookup(front, j);
      }
    }
  }

  lemma {:induction false} LookupHasPlan(steps: seq<Step>, m: nat) returns (k: nat)
    requires Runs(steps) && m < |steps| && steps[m].Lookup?
    ensures k < |After(steps).plans| && After(steps).plans[k].lookedAt == m
  {
    var front := steps[..|steps| - 1];
    if m == |front| {
      TakenIsLength(front);
      k := |After(front).plans|;
    } else {
      k := LookupHasPlan(front, m);
    }
  }

  lemma {:induction false} PlansInOrder(steps: seq<Step>, j: nat, k: nat)
    requires Runs(steps) && j < |After(steps).plans| && k < |After(steps).plans|
    requires After(steps).plans[j].lookedAt < After(steps).plans[k].lookedAt
    ensures j < k
  {
    if k < j {
      LooksAscend(steps, k, j);
    }
  }

  /** Step m looks up an action of its user's before any of that action's status writes is stored. */
  predicate LooksFirst(steps: seq<Step>, m: nat, id: string)
    requires m < |steps|
  {
    Concerns(After(steps[..m]), id, steps[m]) && id !in After(steps[..m]).written
  }

  /** The same, to confirm it. */
  predicate ConfirmsFirst(steps: seq<Step>, m: nat, id: string)
    requires m < |steps|
  {
    Confirms(After(steps[..m]), id, steps[m]) && id !in After(steps[..m]).written
  }

  lemma {:induction false} DecidesIffLooksFirst(steps: seq<Step>, k: nat, id: string)
    requires Runs(steps) && k < |After(steps).plans|
    ensures After(steps).plans[k].lookedAt < |steps|
    ensures WritesIn(After(steps).plans[k].decision, id) <==> LooksFirst(steps, After(steps).plans[k].lookedAt, id)
    ensures RunsIn(After(steps).plans[k].decision, id) <==> ConfirmsFirst(steps, After(steps).plans[k].lookedAt, id)
  {
    PlanHasLookup(steps, k);
    var m := After(steps).plans[k].lookedAt;
    RunKeepsInv(steps[..m]);
    DecidesIffUnwritten(After(steps[..m]), id, steps[m].reply, steps[m].at);
  }

  /** All answers are over. */
  predicate AllOver(w: Shared) {
    forall k :: 0 <= k < |w.plans| ==> w.plans[k].stage == 3
  }

  // ---------------------------------------------------------------------------
  // Once, and more than once.
  // ---------------------------------------------------------------------------

  predicate OneRunFor(plans: seq<Plan>, id: string) {
    exists k :: 0 <= k < |plans| && RunsFor(plans[k], id)
  }

  predicate TwoRunFor(plans: seq<Plan>, id: string) {
    exists j, k :: 0 <= j < k < |plans| && RunsFor(plans[j], id) && RunsFor(plans[k], id)
  }

  lemma {:induction false} CountTwo(plans: seq<Plan>, id: string)
    ensures CountRan(plans, id) >= 1 <==> exists k :: 0 <= k < |plans| && RunsFor(plans[k], id) && plans[k].stage >= 2
    ensures CountRan(plans, id) >= 2 <==>
      exists j, k :: 0 <= j < k < |plans| && RunsFor(plans[j], id) && RunsFor(plans[k], id)
                     && plans[j].stage >= 2 && plans[k].stage >= 2
  {
    if plans == [] {
    } else {
      var front, last := plans[..|plans| - 1], plans[|plans| - 1];
      CountTwo(front, id);
      assert forall k :: 0 <= k < |front| ==> front[k] == plans[k];
    }
  }

  predicate OneConfirmsFirst(steps: seq<Step>, id: string) {
    exists m :: 0 <= m < |steps| && ConfirmsFirst(steps, m, id)
  }

  predicate TwoConfirmFirst(steps: seq<Step>, id: string) {
    exists m, n :: 0 <= m < n < |steps| && ConfirmsFirst(steps, m, id) && ConfirmsFirst(steps, n, id)
  }

  lemma {:induction false} RunForMeansLook(steps: seq<Step>, id: string)
    requires Runs(steps)
    ensures OneRunFor(After(steps).plans, id) ==> OneConfirmsFirst(steps, id)
    ensures TwoRunFor(After(steps).plans, id) ==> TwoConfirmFirst(steps, id)
  {
    var plans := After(steps).plans;
    if k :| 0 <= k < |plans| && RunsFor(plans[k], id) {
      DecidesIffLooksFirst(steps, k, id);
    }
    if j, k :| 0 <= j < k < |plans| && RunsFor(plans[j], id) && RunsFor(plans[k], id) {
      LooksAscend(steps, j, k);
      DecidesIffLooksFirst(steps, j, id);
      DecidesIffLooksFirst(steps, k, id);
    }
  }

  lemma {:induction false} ConfirmingPlan(steps: seq<Step>, m: nat, id: string) returns (k: nat)
    requires Runs(steps) && m < |steps| && ConfirmsFirst(steps, m, id)
    ensures k < |After(steps).plans| && After(steps).plans[k].lookedAt == m && RunsFor(After(steps).plans[k], id)
  {
    k := LookupHasPlan(steps, m);
    DecidesIffLooksFirst(steps, k, id);
  }

  lemma {:induction false} TwoConfirmingPlans(steps: seq<Step>, m: nat, n: nat, id: string)
    requires Runs(steps) && m < n < |steps| && ConfirmsFirst(steps, m, id) && ConfirmsFirst(steps, n, id)
    ensures TwoRunFor(After(steps).plans, id)
  {
    var j := ConfirmingPlan(steps, m, id);
    var k := ConfirmingPlan(steps, n, id);
    PlansInOrder(steps, j, k);
  }

  /**
   Over every interleaving in which all answers are over: the handler of an action has run, whatever else was
   answered and stored, if and only if a confirmation of it looked it up before the first of its status writes
   was stored.
   */
  lemma {:induction false} RunsIffOneLooksFirst(steps: seq<Step>, id: string)
    requires Runs(steps) && AllOver(After(steps))
    ensures CountRuns(After(steps).runs, id) >= 1 <==> OneConfirmsFirst(steps, id)
  {
    RunsAreDecided(steps, id);
    CountTwo(After(steps).plans, id);
    RunForMeansLook(steps, id);
    if m :| 0 <= m < |steps| && ConfirmsFirst(steps, m, id) {
      var k := ConfirmingPlan(steps, m, id);
    }
  }

  /** Likewise it has run twice or more if and only if two confirmations did. */
  lemma {:induction false} RunsTwiceIffTwoLookFirst(steps: seq<Step>, id: string)
    requires Runs(steps) && AllOver(After(steps))
    ensures CountRuns(After(steps).runs, id) >= 2 <==> TwoConfirmFirst(steps, id)
  {
    RunsAreDecided(steps, id);
    CountTwo(After(steps).plans, id);
    RunForMeansLook(steps, id);
    if m, n :| 0 <= m < n < |steps| && ConfirmsFirst(steps, m, id) && ConfirmsFirst(steps, n, id) {
      TwoConfirmingPlans(steps, m, n, id);
    }
  }

  /** Two confirmations of a waiting row, handled at once, both decide to run its handler. */
  lemma {:induction false} BothRun(w: Shared, id: string, s: Step, t: Step)
    requires RaceInv(w) && id !in w.written && Confirms(w, id, s) && Confirms(w, id, t)
    requires Enabled(w, s) && Enabled(w, t) && s.reply != t.reply
    ensures var k := |w.plans|;
      var w2 := Next(Next(w, s), t);
      && RunsFor(w2.plans[k], id) && RunsFor(w2.plans[k + 1], id)
      && w2.plans[k].stage == 0 && w2.plans[k + 1].stage == 0 && w2.rows == w.rows
  {
    DecidesIffUnwritten(w, id, s.reply, s.at);
    DecidesIffUnwritten(w, id, t.reply, t.at);
  }

  // ---------------------------------------------------------------------------
  // One answer at a time.
  // ---------------------------------------------------------------------------

  lemma {:induction false} UnderstoodDecides(rows: Table, userID: string, sessionID: string, text: string,
          at: Instant, env: Surroundings)
    ensures var reply, d := Understood(rows, userID, sessionID, text, at, env),
                            Decide(rows, userID, sessionID, text, at, env);
      if reply.Some? then d == DecidedBy(rows, reply.value, at) && reply.value.env == env && reply.value.open
      else d.writes == [] && d.ran.None?
  {
  }

  /** What an answer asks for is what its text says. */
  lemma {:induction false} UnderstoodAsSaid(rows: Table, userID: string, sessionID: string, text: string,
          at: Instant, env: Surroundings)
    requires Understood(rows, userID, sessionID, text, at, env).Some?
    ensures var reply, t := Understood(rows, userID, sessionID, text, at, env).value, ConfirmText.TrimSpace(text);
      if reply.command == ConfirmText.Confirm then ConfirmText.SaysYes(t) && !ConfirmText.SaysNo(t)
      else ConfirmText.SaysNo(t) && !ConfirmText.SaysYes(t)
  {
    ConfirmText.CommandMeans(text);
  }

  /** The three steps after the lookup, taken at once. */
  lemma {:induction false} PlanAlone(w: Shared, k: nat)
    requires k < |w.plans| && w.plans[k].stage == 0
    ensures var p, w1 := w.plans[k], Next(w, Advance(k));
      && Enabled(w1, Advance(k)) && Enabled(Next(w1, Advance(k)), Advance(k))
      && var w3 := Next(Next(w1, Advance(k)), Advance(k));
        && w3.plans == w.plans[k := p.(stage := 3)]
        && w3.rows == Stored(w.rows, p.decision.writes, p.env)
        && w3.runs == w.runs + if p.decision.ran.Some? then [p.decision.ran.value] else []
  {
  }

  /** An answer nothing interrupts does to the store and the handlers what the protocol's one step does. */
  lemma {:induction false} AloneIsOneStep(w: Shared, s: Step)
    requires s.Receive?
    ensures var r, k, d := |w.replies|, |w.plans|, Decide(w.rows, s.userID, s.sessionID, s.text, s.at, s.env);
      var w1 := Next(w, s);
      if |w1.replies| == r then w1.rows == Stored(w.rows, d.writes, s.env) == w.rows && d.ran.None?
      else
        && Enabled(w1, Lookup(r, s.at)) && Enabled(Next(w1, Lookup(r, s.at)), Advance(k))
        && var w2 := Next(Next(w1, Lookup(r, s.at)), Advance(k));
          && Enabled(w2, Advance(k)) && Enabled(Next(w2, Advance(k)), Advance(k))
          && var w4 := Next(Next(w2, Advance(k)), Advance(k));
            && w4.plans[k].stage == 3
            && w4.rows == Stored(w.rows, d.writes, s.env)
            && w4.runs == w.runs + if d.ran.Some? then [d.ran.value] else []
  {
    UnderstoodDecides(w.rows, s.userID, s.sessionID, s.text, s.at, s.env);
    var w1 := Next(w, s);
    if |w1.replies| > |w.replies| {
      PlanAlone(Next(w1, Lookup(|w.replies|, s.at)), |w.plans|);
    }
  }
}
