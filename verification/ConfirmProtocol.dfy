/**
 Asking the user to confirm a tool call, and acting on the answer.

 A tool handler is foreign code: its outcome is an input. So is whether each read of the store succeeds and
 whether it takes each of the two status writes of an answer, because the code ignores write errors.
 */
module ConfirmProtocol {
  import opened Wrappers
  import opened PendingActions
  import opened Clock
  import ConfirmText

  const CONFIRM_TTL: int := 600 * SECOND
  const DEFAULT_SESSION: string := "default-session"
  const DEFAULT_USER: string := "default-user"

  // ---------------------------------------------------------------------------
  // Asking.
  // ---------------------------------------------------------------------------

  datatype Request = Request(sessionID: string, userID: string, userInput: string, toolName: string,
          argsJSON: string, prompt: string)

  /** What the user is told: a new action, the one already waiting, or that the action could not be stored. */
  datatype AskOutcome = Asked(id: string) | AlreadyWaiting(id: string) | NotStored

  function OrDefault(s: string, default: string): string {
    if s == "" then default else s
  }

  function NewAction(request: Request, id: string, now: Instant): PendingAction {
    PendingAction(id, OrDefault(request.userID, DEFAULT_USER), OrDefault(request.sessionID, DEFAULT_SESSION),
                  request.userInput, request.toolName, request.argsJSON, request.prompt,
                  Pending, "", now, Some(now + CONFIRM_TTL))
  }

  /** A failed lookup counts as nothing waiting. */
  function Ask(rows: Table, request: Request, id: string, now: Instant, read: bool, accepted: bool)
    : (Table, AskOutcome)
  {
    var action := NewAction(request, id, now);
    var waiting := if read then Latest(rows, action.sessionID, action.userID, now) else None;
    if waiting.Some? then (rows, AlreadyWaiting(waiting.value.id))
    else if accepted && Find(rows, id).None? then (rows + [action], Asked(id))
    else (rows, NotStored)
  }

  // ---------------------------------------------------------------------------
  // Answering.
  // ---------------------------------------------------------------------------

  datatype HandlerResult = Done(output: string) | Broke(message: string)

  /** `handler` is None when the process dies inside the handler. */
  datatype Surroundings = Surroundings(
    argsDecode: bool, tools: set<string>, handler: Option<HandlerResult>, firstWrite: bool, secondWrite: bool,
    latestRead: bool, idRead: bool)

  datatype Write = Write(id: string, status: Status, errorMsg: string)

  datatype HandlerRun = HandlerRun(id: string, sessionID: string, userID: string, at: Instant)

  datatype Answer =
    | NotForMe | ReadFailed | NothingWaiting | NotFound | NotYours | AlreadyHandled(status: Status) | TooLate
    | Dropped | BadArguments | NoSuchTool | Ran

  /** What one message does: the answer, the status writes it attempts, and the handler run, if any. */
  datatype Decision = Decision(answer: Answer, writes: seq<Write>, ran: Option<HandlerRun>)

  function Decide(rows: Table, userID: string, sessionID: string, text: string, now: Instant,
          env: Surroundings): Decision {
    match ConfirmText.Parse(text)
    case NotACommand => Decision(NotForMe, [], None)
    case Parsed(command, id) =>
      var waiting := Latest(rows, sessionID, userID, now);
      if id == "" && !env.latestRead then Decision(ReadFailed, [], None)
      else if id == "" && waiting.None? then Decision(NothingWaiting, [], None)
      else DecideFor(rows, userID, sessionID, command, if id == "" then waiting.value.id else id, now, env)
  }

  function DecideFor(rows: Table, userID: string, sessionID: string, command: ConfirmText.Command, id: string,
                     now: Instant, env: Surroundings): Decision
  {
    var row := Find(rows, id);
    if !env.idRead then Decision(ReadFailed, [], None)
    else if row.None? then Decision(NotFound, [], None)
    else if row.value.sessionID != sessionID || row.value.userID != userID then Decision(NotYours, [], None)
    else if row.value.status != Pending then Decision(AlreadyHandled(row.value.status), [], None)
    else if row.value.expiresAt.Some? && now > row.value.expiresAt.value then
      Decision(TooLate, [Write(id, Expired, "")], None)
    else if command == ConfirmText.Cancel then Decision(Dropped, [Write(id, Cancelled, "")], None)
    else Confirmation(id, sessionID, userID, row.value.toolName, now, env)
  }

  /** A confirmation of an action found pending and in time. */
  function Confirmation(id: string, sessionID: string, userID: string, toolName: string, now: Instant,
          env: Surroundings): Decision
  {
    if !env.argsDecode then
      Decision(BadArguments, [Write(id, Confirmed, ""), Write(id, Failed, "invalid args json")], None)
    else if toolName !in env.tools then
      Decision(NoSuchTool, [Write(id, Confirmed, ""), Write(id, Failed, "tool not found")], None)
    else
      Decision(Ran,
               [Write(id, Confirmed, "")] +
               (match env.handler
                case None => []
                case Some(Done(_)) => [Write(id, Executed, "")]
                case Some(Broke(message)) => [Write(id, Failed, message)]),
               Some(HandlerRun(id, sessionID, userID, now)))
  }

  function Store(rows: Table, writes: seq<Write>, k: nat, accepted: bool): Table {
    if k < |writes| && accepted then SetStatus(rows, writes[k].id, writes[k].status, writes[k].errorMsg) else rows
  }

  function Stored(rows: Table, writes: seq<Write>, env: Surroundings): Table {
    Store(Store(rows, writes, 0, env.firstWrite), writes, 1, env.secondWrite)
  }

  // ---------------------------------------------------------------------------
  // The executor's two methods.
  // ---------------------------------------------------------------------------

  class ConfirmExecutor {
    const memory: MemoryManager
    const tools: set<string>
    ghost var runs: seq<HandlerRun>

    constructor (memory: MemoryManager, tools: set<string>)
      ensures this.memory == memory && this.tools == tools && runs == []
    {
      this.memory := memory;
      this.tools := tools;
      runs := [];
    }

    method CreatePendingAndReply(request: Request, id: string, now: Instant, read: bool, accepted: bool)
      returns (outcome: AskOutcome)
      modifies memory
      ensures (memory.rows, outcome) == Ask(old(memory.rows), request, id, now, read, accepted)
    {
      var sessionID, userID := request.sessionID, request.userID;
      if sessionID == "" {
        sessionID := DEFAULT_SESSION;
      }
      if userID == "" {
        userID := DEFAULT_USER;
      }
      if read {
        var existing := memory.GetLatestPendingAction(sessionID, userID, now);
        if existing.Some? {
          return AlreadyWaiting(existing.value.id);
        }
      }
      var action := PendingAction(id, userID, sessionID, request.userInput, request.toolName, request.argsJSON,
                                  request.prompt, Pending, "", now, Some(now + CONFIRM_TTL));
      var ok := memory.CreatePendingAction(action, accepted);
      if !ok {
        return NotStored;
      }
      return Asked(id);
    }

    /** If the process dies inside the handler, nothing follows and nobody receives the answer. */
    method TryHandleConfirmCancel(userID: string, sessionID: string, text: string, now: Instant, env: Surroundings)
      returns (answer: Answer)
      requires env.tools == tools
      modifies memory, this`runs
      ensures var d := Decide(old(memory.rows), userID, sessionID, text, now, env);
        && answer == d.answer
        && memory.rows == Stored(old(memory.rows), d.writes, env)
        && runs == old(runs) + if d.ran.Some? then [d.ran.value] else []
    {
      var parsed := ConfirmText.ParseConfirmCancel(text);
      if parsed.NotACommand? {
        return NotForMe;
      }
      var id := parsed.id;
      if id == "" {
        if !env.latestRead {
          return ReadFailed;
        }
        var latest := memory.GetLatestPendingAction(sessionID, userID, now);
        if latest.None? {
          return NothingWaiting;
        }
        id := latest.value.id;
      }
      answer := HandleByID(userID, sessionID, parsed.command, id, now, env);
    }

    /** The part of TryHandleConfirmCancel that follows once the id is known. */
    method HandleByID(userID: string, sessionID: string, command: ConfirmText.Command, id: string, now: Instant,
            env: Surroundings)
      returns (answer: Answer)
      requires env.tools == tools
      modifies memory, this`runs
      ensures var d := DecideFor(old(memory.rows), userID, sessionID, command, id, now, env);
        && answer == d.answer
        && memory.rows == Stored(old(memory.rows), d.writes, env)
        && runs == old(runs) + if d.ran.Some? then [d.ran.value] else []
    {
      if !env.idRead {
        return ReadFailed;
      }
      var found := memory.GetPendingAction(id);
      if found.None? {
        return NotFound;
      }
      var pa := found.value;
      if pa.sessionID != sessionID || pa.userID != userID {
        return NotYours;
      }
      if pa.status != Pending {
        return AlreadyHandled(pa.status);
      }
      if pa.expiresAt.Some? && now > pa.expiresAt.value {
        memory.UpdatePendingActionStatus(id, Expired, "", env.firstWrite);
        return TooLate;
      }
      if command == ConfirmText.Cancel {
        memory.UpdatePendingActionStatus(id, Cancelled, "", env.firstWrite);
        return Dropped;
      }
      answer := Confirm(id, sessionID, userID, pa.toolName, now, env);
    }

    /** The rest of a confirmation of an action that was found pending. */
    method Confirm(id: string, sessionID: string, userID: string, toolName: string, now: Instant,
            env: Surroundings)
      returns (answer: Answer)
      requires env.tools == tools
      modifies memory, this`runs
      ensures var d := Confirmation(id, sessionID, userID, toolName, now, env);
        && answer == d.answer
        && memory.rows == Stored(old(memory.rows), d.writes, env)
        && runs == old(runs) + if d.ran.Some? then [d.ran.value] else []
    {
      memory.UpdatePendingActionStatus(id, Confirmed, "", env.firstWrite);
      if !env.argsDecode {
        memory.UpdatePendingActionStatus(id, Failed, "invalid args json", env.secondWrite);
        return BadArguments;
      }
      if toolName !in tools {
        memory.UpdatePendingActionStatus(id, Failed, "tool not found", env.secondWrite);
        return NoSuchTool;
      }
      runs := runs + [HandlerRun(id, sessionID, userID, now)];
      match env.handler {
        case None =>
        case Some(Done(_)) => memory.UpdatePendingActionStatus(id, Executed, "", env.secondWrite);
        case Some(Broke(message)) => memory.UpdatePendingActionStatus(id, Failed, message, env.secondWrite);
      }
      return Ran;
    }
  }

  // ---------------------------------------------------------------------------
  // One answer.
  // ---------------------------------------------------------------------------

  predicate Edge(from: Status, to: Status) {
    match from
    case Pending => to in {Confirmed, Cancelled, Expired}
    case Confirmed => to in {Executed, Failed}
    case _ => false
  }

  /**
   Write by write, statuses only move pending to confirmed to executed or failed, or pending to cancelled or
   expired.
   */
  lemma {:induction false} WritesFollowEdges(rows: Table, userID: string, sessionID: string, text: string,
          now: Instant, env: Surroundings)
    ensures var d := Decide(rows, userID, sessionID, text, now, env);
      && |d.writes| <= 2
      && (d.writes != [] ==>
            && Find(rows, d.writes[0].id).Some?
            && Edge(Find(rows, d.writes[0].id).value.status, d.writes[0].status))
      && (|d.writes| == 2 ==> d.writes[1].id == d.writes[0].id && Edge(d.writes[0].status, d.writes[1].status))
  {
  }

  /** The handler runs only on a confirmation by the owner, of an action that is pending and not past its time. */
  lemma {:induction false} RanOnlyIfAllowed(rows: Table, userID: string, sessionID: string, text: string,
          now: Instant, env: Surroundings)
    requires Decide(rows, userID, sessionID, text, now, env).ran.Some?
    ensures ConfirmText.SaysYes(ConfirmText.TrimSpace(text)) && !ConfirmText.SaysNo(ConfirmText.TrimSpace(text))
    ensures var run := Decide(rows, userID, sessionID, text, now, env).ran.value;
      && run.sessionID == sessionID && run.userID == userID && run.at == now
      && exists i :: 0 <= i < |rows| && rows[i].id == run.id && rows[i].status == Pending
           && rows[i].sessionID == sessionID && rows[i].userID == userID
           && (rows[i].expiresAt.Some? ==> now <= rows[i].expiresAt.value)
  {
    var run := Decide(rows, userID, sessionID, text, now, env).ran.value;
    FindGives(rows, run.id);
    ConfirmText.CommandMeans(text);
  }

  /** An action is dropped only for a text that says no, and a text that says neither yes nor no does nothing at all. */
  lemma {:induction false} DroppedOnlyIfSaid(rows: Table, userID: string, sessionID: string, text: string,
          now: Instant, env: Surroundings)
    ensures var d, t := Decide(rows, userID, sessionID, text, now, env), ConfirmText.TrimSpace(text);
      && (d.answer == Dropped ==> ConfirmText.SaysNo(t) && !ConfirmText.SaysYes(t))
      && (d.answer == NotForMe <==> !ConfirmText.SaysYes(t) && !ConfirmText.SaysNo(t))
      && (d.answer == NotForMe ==> d.writes == [] && d.ran.None?)
  {
    ConfirmText.CommandMeans(text);
  }

  predicate Late(row: PendingAction, now: Instant) {
    row.expiresAt.Some? && now > row.expiresAt.value
  }

  /** The owner's answer reaches a handler: confirmed in time, arguments intact, tool known. */
  predicate Reaches(row: PendingAction, command: ConfirmText.Command, now: Instant, env: Surroundings) {
    && row.status == Pending && !Late(row, now) && command == ConfirmText.Confirm
    && env.argsDecode && row.toolName in env.tools
  }

  /**
   How an answer by its owner leaves an action, if it can be read and both status writes are stored: untouched if
   it was not pending; else expired, cancelled, executed if and only if the handler succeeded, failed with the
   handler's message, or with the reason why no handler could run.
   */
  lemma {:induction false} ActionEndsAs(rows: Table, i: nat, command: ConfirmText.Command, now: Instant,
          env: Surroundings)
    requires UniqueIDs(rows) && i < |rows| && env.idRead && env.firstWrite && env.secondWrite
    ensures var row := rows[i];
      var d := DecideFor(rows, row.userID, row.sessionID, command, row.id, now, env);
      |Stored(rows, d.writes, env)| == |rows| && (d.ran.Some? <==> Reaches(row, command, now, env))
    ensures var row := rows[i];
      var after := Stored(rows, DecideFor(rows, row.userID, row.sessionID, command, row.id, now, env).writes, env)[i];
      && after.(status := row.status, errorMsg := row.errorMsg) == row
      && (row.status != Pending ==> after == row)
      && (row.status == Pending ==>
            && after.status != Pending
            && (after.status == Expired <==> Late(row, now))
            && (after.status == Cancelled <==> !Late(row, now) && command == ConfirmText.Cancel)
            && (after.status == Executed <==>
                  Reaches(row, command, now, env) && env.handler.Some? && env.handler.value.Done?)
            && (after.status == Confirmed <==> Reaches(row, command, now, env) && env.handler.None?)
            && (after.status == Failed <==>
                  && !Late(row, now) && command == ConfirmText.Confirm
                  && (Reaches(row, command, now, env) ==> env.handler.Some? && env.handler.value.Broke?))
            && (after.status == Failed && Reaches(row, command, now, env) ==>
                  after.errorMsg == env.handler.value.message)
            && (after.status != Failed ==> after.errorMsg == ""))
  {
    var row := rows[i];
    var d := DecideFor(rows, row.userID, row.sessionID, command, row.id, now, env);
    FindUnique(rows, i);
    StoredAt(rows, d.writes, env, i);
  }

  /** What the user is told about an action, by its id: the first thing that is in the way, or what was done. */
  lemma {:induction false} AnswerMeans(rows: Table, userID: string, sessionID: string, command: ConfirmText.Command,
          id: string, now: Instant, env: Surroundings)
    ensures var answer, row := DecideFor(rows, userID, sessionID, command, id, now, env).answer, Find(rows, id);
      && (answer == ReadFailed <==> !env.idRead)
      && (answer == NotFound <==> env.idRead && row.None?)
      && (env.idRead && row.Some? ==>
            var own, late := row.value.sessionID == sessionID && row.value.userID == userID, Late(row.value, now);
            && (answer == NotYours <==> !own)
            && (answer == AlreadyHandled(row.value.status) <==> own && row.value.status != Pending)
            && (answer == TooLate <==> own && row.value.status == Pending && late)
            && (answer == Dropped <==>
                  own && row.value.status == Pending && !late && command == ConfirmText.Cancel)
            && (answer == Ran <==> own && Reaches(row.value, command, now, env)))
      && answer != NotForMe && answer != NothingWaiting
  {
  }

  /** A question files what was asked under the asker's names, or the default ones, with ten minutes to answer. */
  lemma {:induction false} QuestionStores(rows: Table, request: Request, id: string, now: Instant, read: bool,
          accepted: bool)
    ensures var outcome := Ask(rows, request, id, now, read, accepted).1;
      var waiting := Latest(rows, OrDefault(request.sessionID, "default-session"),
                            OrDefault(request.userID, "default-user"), now);
      && (outcome.AlreadyWaiting? <==> read && waiting.Some?)
      && (outcome.AlreadyWaiting? ==> outcome.id == waiting.value.id)
      && (outcome.Asked? <==> !(read && waiting.Some?) && accepted && Find(rows, id).None?)
    ensures var (after, outcome) := Ask(rows, request, id, now, read, accepted);
      && rows <= after && (|after| == |rows| + 1 <==> outcome == Asked(id)) && |after| <= |rows| + 1
      && (outcome == Asked(id) ==>
            && var row := after[|rows|];
              && row.id == id && row.status == Pending && row.errorMsg == ""
              && row.sessionID == (if request.sessionID == "" then "default-session" else request.sessionID)
              && row.userID == (if request.userID == "" then "default-user" else request.userID)
              && row.userInput == request.userInput && row.toolName == request.toolName
              && row.argsJSON == request.argsJSON && row.prompt == request.prompt
              && row.createdAt == now && row.expiresAt == Some(now + 600_000_000_000))
  {
  }


  // ---------------------------------------------------------------------------
  // Whole runs.
  // ---------------------------------------------------------------------------

  datatype Event =
    | Asking(request: Request, id: string, at: Instant, read: bool, accepted: bool)
    | Message(userID: string, sessionID: string, text: string, at: Instant, env: Surroundings)

  datatype World = World(rows: Table, runs: seq<HandlerRun>, clock: Instant)

  function Step(w: World, e: Event): World {
    match e
    case Asking(request, id, at, read, accepted) =>
      w.(rows := Ask(w.rows, request, id, at, read, accepted).0, clock := at)
    case Message(userID, sessionID, text, at, env) =>
      var d := Decide(w.rows, userID, sessionID, text, at, env);
      w.(rows := Stored(w.rows, d.writes, env), runs := w.runs + (if d.ran.Some? then [d.ran.value] else []),
         clock := at)
  }

  function Run(events: seq<Event>): World {
    if events == [] then World([], [], 0) else Step(Run(events[..|events| - 1]), events[|events| - 1])
  }

  /** New ids are eight digits, as newPendingID prints them. */
  predicate PrintedID(id: string) {
    |id| == 8 && ConfirmText.AllDigits(id)
  }

  /** One clock, and never both status writes of an answer lost. */
  predicate Orderly(w: World, e: Event) {
    && w.clock <= e.at
    && (e.Asking? ==> PrintedID(e.id))
    && (e.Message? ==> e.env.firstWrite || (e.env.secondWrite && e.env.handler.Some?))
  }

  ghost predicate OrderlyRun(events: seq<Event>) {
    forall k :: 0 <= k < |events| ==> Orderly(Run(events[..k]), events[k])
  }

  ghost predicate WellStored(row: PendingAction, clock: Instant) {
    && PrintedID(row.id) && row.sessionID != "" && row.userID != ""
    && row.createdAt <= clock && row.expiresAt == Some(row.createdAt + CONFIRM_TTL)
  }

  /** The row a handler run belongs to. */
  ghost predicate RunOf(run: HandlerRun, row: PendingAction) {
    && run.id == row.id && run.sessionID == row.sessionID && run.userID == row.userID
    && row.expiresAt.Some? && run.at <= row.expiresAt.value
    && row.status in {Confirmed, Executed, Failed}
  }

  ghost predicate HasRow(run: HandlerRun, rows: Table) {
    exists i :: 0 <= i < |rows| && RunOf(run, rows[i])
  }

  ghost predicate RowsInv(w: World) {
    && UniqueIDs(w.rows)
    && (forall i :: 0 <= i < |w.rows| ==> WellStored(w.rows[i], w.clock))
  }

  ghost predicate RunsInv(w: World) {
    && (forall i, j :: 0 <= i < j < |w.runs| ==> w.runs[i].id != w.runs[j].id)
    && (forall k :: 0 <= k < |w.runs| ==> HasRow(w.runs[k], w.rows))
  }

  /** At most one row per session and user is pending with time left. */
  ghost predicate OneWaiting(w: World) {
    forall i, j, s, u :: 0 <= i < |w.rows| && 0 <= j < |w.rows|
                        && IsLive(w.rows[i], s, u, w.clock) && IsLive(w.rows[j], s, u, w.clock)
      ==> i == j
  }

  ghost predicate Inv(w: World) {
    RowsInv(w) && RunsInv(w)
  }

  /** A row only ever changes its status and message, and only away from pending. */
  predicate RowMoves(before: PendingAction, after: PendingAction) {
    && after.(status := before.status, errorMsg := before.errorMsg) == before
    && (before.status in {Cancelled, Expired, Executed, Failed} ==> after == before)
    && (before.status == Confirmed ==> after.status in {Confirmed, Executed, Failed})
  }

  ghost predicate OnlyStatusMoves(before: Table, after: Table) {
    |before| <= |after| && forall i :: 0 <= i < |before| ==> RowMoves(before[i], after[i])
  }

  function WriteRow(row: PendingAction, writes: seq<Write>, k: nat, accepted: bool): PendingAction {
    if k < |writes| && accepted && row.id == writes[k].id
    then row.(status := writes[k].status, errorMsg := writes[k].errorMsg) else row
  }

  /** What the writes of an answer do to one row. */
  function RowAfter(row: PendingAction, writes: seq<Write>, env: Surroundings): PendingAction {
    WriteRow(WriteRow(row, writes, 0, env.firstWrite), writes, 1, env.secondWrite)
  }

  lemma {:induction false} StoreAt(rows: Table, writes: seq<Write>, k: nat, accepted: bool, i: nat)
    requires i < |rows|
    ensures |Store(rows, writes, k, accepted)| == |rows|
    ensures Store(rows, writes, k, accepted)[i] == WriteRow(rows[i], writes, k, accepted)
  {
  }

  lemma {:induction false} StoredAt(rows: Table, writes: seq<Write>, env: Surroundings, i: nat)
    requires i < |rows|
    ensures |Stored(rows, writes, env)| == |rows|
    ensures Stored(rows, writes, env)[i] == RowAfter(rows[i], writes, env)
  {
    StoreAt(rows, writes, 0, env.firstWrite, i);
    StoreAt(Store(rows, writes, 0, env.firstWrite), writes, 1, env.secondWrite, i);
  }

  lemma {:induction false} AnsweredRow(rows: Table, d: Decision, userID: string, sessionID: string, text: string,
          now: Instant, env: Surroundings, i: nat)
    requires UniqueIDs(rows) && d == Decide(rows, userID, sessionID, text, now, env) && i < |rows|
    ensures RowMoves(rows[i], RowAfter(rows[i], d.writes, env))
    ensures rows[i].status != Pending || d.writes == [] || rows[i].id != d.writes[0].id ==>
      RowAfter(rows[i], d.writes, env) == rows[i]
  {
    WritesFollowEdges(rows, userID, sessionID, text, now, env);
    if d.writes != [] && rows[i].id == d.writes[0].id {
      FindUnique(rows, i);
    }
  }

  lemma {:induction false} StoredMoves(rows: Table, d: Decision, userID: string, sessionID: string, text: string,
          now: Instant, env: Surroundings)
    requires UniqueIDs(rows) && d == Decide(rows, userID, sessionID, text, now, env)
    ensures |Stored(rows, d.writes, env)| == |rows|
    ensures OnlyStatusMoves(rows, Stored(rows, d.writes, env))
    ensures forall i :: 0 <= i < |rows| && rows[i].status != Pending ==> Stored(rows, d.writes, env)[i] == rows[i]
  {
    forall i | 0 <= i < |rows|
      ensures RowMoves(rows[i], Stored(rows, d.writes, env)[i])
      ensures rows[i].status != Pending ==> Stored(rows, d.writes, env)[i] == rows[i]
    {
      StoredAt(rows, d.writes, env, i);
      AnsweredRow(rows, d, userID, sessionID, text, now, env, i);
    }
  }

  lemma {:induction false} MessageKeepsRows(w: World, e: Event)
    requires RowsInv(w) && Orderly(w, e) && e.Message?
    ensures RowsInv(Step(w, e))
  {
    var d := Decide(w.rows, e.userID, e.sessionID, e.text, e.at, e.env);
    StoredMoves(w.rows, d, e.userID, e.sessionID, e.text, e.at, e.env);
  }

  lemma {:induction false} MessageKeepsOneWaiting(w: World, e: Event)
    requires RowsInv(w) && OneWaiting(w) && Orderly(w, e) && e.Message?
    ensures OneWaiting(Step(w, e))
  {
    var d := Decide(w.rows, e.userID, e.sessionID, e.text, e.at, e.env);
    StoredMoves(w.rows, d, e.userID, e.sessionID, e.text, e.at, e.env);
    var w' := Step(w, e);
    forall i, j, s, u | 0 <= i < |w'.rows| && 0 <= j < |w'.rows|
      && IsLive(w'.rows[i], s, u, w'.clock) && IsLive(w'.rows[j], s, u, w'.clock)
      ensures i == j
    {
      assert IsLive(w.rows[i], s, u, w.clock) && IsLive(w.rows[j], s, u, w.clock);
    }
  }

  /** The row whose handler just ran was pending before, and is not pending after. */
  lemma {:induction false} RanRow(rows: Table, userID: string, sessionID: string, text: string, now: Instant,
          env: Surroundings, i: nat)
    requires UniqueIDs(rows) && i < |rows|
    requires env.firstWrite || (env.secondWrite && env.handler.Some?)
    requires var d := Decide(rows, userID, sessionID, text, now, env);
      d.ran.Some? && rows[i].id == d.ran.value.id
    ensures rows[i].status == Pending && rows[i].sessionID == sessionID && rows[i].userID == userID
    ensures rows[i].expiresAt.Some? ==> now <= rows[i].expiresAt.value
    ensures var d := Decide(rows, userID, sessionID, text, now, env);
      Stored(rows, d.writes, env)[i].status in {Confirmed, Executed, Failed}
  {
    FindUnique(rows, i);
    StoredAt(rows, Decide(rows, userID, sessionID, text, now, env).writes, env, i);
  }

  lemma {:induction false} OldRunKeepsRow(w: World, e: Event, k: nat)
    requires Inv(w) && Orderly(w, e) && e.Message? && k < |w.runs|
    ensures HasRow(w.runs[k], Step(w, e).rows)
    ensures var d := Decide(w.rows, e.userID, e.sessionID, e.text, e.at, e.env);
      d.ran.Some? ==> w.runs[k].id != d.ran.value.id
  {
    var d := Decide(w.rows, e.userID, e.sessionID, e.text, e.at, e.env);
    assert HasRow(w.runs[k], w.rows);
    var i :| 0 <= i < |w.rows| && RunOf(w.runs[k], w.rows[i]);
    StoredMoves(w.rows, d, e.userID, e.sessionID, e.text, e.at, e.env);
    assert RunOf(w.runs[k], Step(w, e).rows[i]);
    if d.ran.Some? && w.rows[i].id == d.ran.value.id {
      RanRow(w.rows, e.userID, e.sessionID, e.text, e.at, e.env, i);
    }
  }

  lemma {:induction false} MessageKeepsRuns(w: World, e: Event)
    requires Inv(w) && Orderly(w, e) && e.Message?
    ensures RunsInv(Step(w, e))
  {
    var ran := Decide(w.rows, e.userID, e.sessionID, e.text, e.at, e.env).ran;
    var w' := Step(w, e);
    assert w'.runs == w.runs + if ran.Some? then [ran.value] else [];
    forall k | 0 <= k < |w'.runs|
      ensures HasRow(w'.runs[k], w'.rows)
      ensures k < |w.runs| && ran.Some? ==> w.runs[k].id != ran.value.id
    {
      if k < |w.runs| {
        OldRunKeepsRow(w, e, k);
      } else {
        NewRunHasRow(w, e);
      }
    }
  }

  lemma {:induction false} NewRunHasRow(w: World, e: Event)
    requires Inv(w) && Orderly(w, e) && e.Message?
    requires Decide(w.rows, e.userID, e.sessionID, e.text, e.at, e.env).ran.Some?
    ensures var run := Decide(w.rows, e.userID, e.sessionID, e.text, e.at, e.env).ran.value;
      HasRow(run, Step(w, e).rows)
  {
    var d := Decide(w.rows, e.userID, e.sessionID, e.text, e.at, e.env);
    var w' := Step(w, e);
    StoredMoves(w.rows, d, e.userID, e.sessionID, e.text, e.at, e.env);
    RanOnlyIfAllowed(w.rows, e.userID, e.sessionID, e.text, e.at, e.env);
    var i :| 0 <= i < |w.rows| && w.rows[i].id == d.ran.value.id;
    RanRow(w.rows, e.userID, e.sessionID, e.text, e.at, e.env, i);
    assert WellStored(w.rows[i], w.clock);
    assert RunOf(d.ran.value, w'.rows[i]);
  }

  lemma {:induction false} AskingAppends(w: World, e: Event)
    requires RowsInv(w) && Orderly(w, e) && e.Asking?
    ensures w.rows <= Step(w, e).rows && Step(w, e).runs == w.runs && w.clock <= Step(w, e).clock
    ensures RowsInv(Step(w, e)) && OnlyStatusMoves(w.rows, Step(w, e).rows)
  {
    FindGives(w.rows, e.id);
  }

  lemma {:induction false} AskingKeepsRuns(w: World, w': World)
    requires RunsInv(w) && w.rows <= w'.rows && w'.runs == w.runs
    ensures RunsInv(w')
  {
    forall k | 0 <= k < |w'.runs|
      ensures HasRow(w'.runs[k], w'.rows)
    {
      assert HasRow(w.runs[k], w.rows);
      var i :| 0 <= i < |w.rows| && RunOf(w.runs[k], w.rows[i]);
      assert RunOf(w'.runs[k], w'.rows[i]);
    }
  }

  /** The question inserts its action without having seen the one that waits. */
  predicate InsertsBeside(w: World, e: Event)
    requires e.Asking?
  {
    var action := NewAction(e.request, e.id, e.at);
    !e.read && e.accepted && Find(w.rows, e.id).None? && Latest(w.rows, action.sessionID, action.userID, e.at).Some?
  }

  lemma {:induction false} BesideMakesTwo(w: World, e: Event)
    requires e.Asking? && InsertsBeside(w, e)
    ensures !OneWaiting(Step(w, e))
  {
    var action := NewAction(e.request, e.id, e.at);
    var s, u := action.sessionID, action.userID;
    LatestIsNewestLive(w.rows, s, u, e.at);
    var i :| 0 <= i < |w.rows| && IsLive(w.rows[i], s, u, e.at);
    var w' := Step(w, e);
    assert w'.rows[i] == w.rows[i] && w'.rows[|w.rows|] == action;
    assert IsLive(w'.rows[i], s, u, w'.clock) && IsLive(w'.rows[|w.rows|], s, u, w'.clock);
  }

  lemma {:induction false} NotBesideKeepsOne(w: World, e: Event)
    requires OneWaiting(w) && Orderly(w, e) && e.Asking? && !InsertsBeside(w, e)
    ensures OneWaiting(Step(w, e))
  {
    var w' := Step(w, e);
    var action := NewAction(e.request, e.id, e.at);
    LatestIsNewestLive(w.rows, action.sessionID, action.userID, e.at);
    forall i, j, s, u | 0 <= i < |w'.rows| && 0 <= j < |w'.rows|
      && IsLive(w'.rows[i], s, u, w'.clock) && IsLive(w'.rows[j], s, u, w'.clock)
      ensures i == j
    {
      if i < |w.rows| && j < |w.rows| {
        assert IsLive(w.rows[i], s, u, w.clock) && IsLive(w.rows[j], s, u, w.clock);
      }
    }
  }

  /** A question keeps one action waiting unless its lookup failed and it was stored beside a waiting one. */
  lemma {:induction false} AskingKeepsOneWaitingIff(w: World, e: Event)
    requires OneWaiting(w) && Orderly(w, e) && e.Asking?
    ensures OneWaiting(Step(w, e)) <==> !InsertsBeside(w, e)
  {
    if InsertsBeside(w, e) {
      BesideMakesTwo(w, e);
    } else {
      NotBesideKeepsOne(w, e);
    }
  }

  lemma {:induction false} StepKeepsInv(w: World, e: Event)
    requires Inv(w) && Orderly(w, e)
    ensures Inv(Step(w, e)) && OnlyStatusMoves(w.rows, Step(w, e).rows)
  {
    if e.Asking? {
      AskingAppends(w, e);
      AskingKeepsRuns(w, Step(w, e));
    } else {
      MessageKeepsRows(w, e);
      MessageKeepsRuns(w, e);
      var d := Decide(w.rows, e.userID, e.sessionID, e.text, e.at, e.env);
      StoredMoves(w.rows, d, e.userID, e.sessionID, e.text, e.at, e.env);
    }
  }

  lemma {:induction false} OrderlyFront(events: seq<Event>)
    requires OrderlyRun(events) && events != []
    ensures OrderlyRun(events[..|events| - 1])
    ensures Orderly(Run(events[..|events| - 1]), events[|events| - 1])
  {
    var front := events[..|events| - 1];
    forall k | 0 <= k < |front|
      ensures Orderly(Run(front[..k]), front[k])
    {
      assert front[..k] == events[..k];
      assert Orderly(Run(events[..k]), events[k]);
    }
    assert Orderly(Run(events[..|front|]), events[|front|]);
  }

  lemma {:induction false} RunKeepsInv(events: seq<Event>)
    requires OrderlyRun(events)
    ensures Inv(Run(events))
  {
    if events == [] {
    } else {
      var front := events[..|events| - 1];
      OrderlyFront(events);
      RunKeepsInv(front);
      StepKeepsInv(Run(front), events[|events| - 1]);
    }
  }

  /** No question is stored beside a waiting action. */
  ghost predicate NoneBeside(events: seq<Event>) {
    forall k :: 0 <= k < |events| && events[k].Asking? ==> !InsertsBeside(Run(events[..k]), events[k])
  }

  lemma {:induction false} RunKeepsOneWaiting(events: seq<Event>)
    requires OrderlyRun(events) && NoneBeside(events)
    ensures OneWaiting(Run(events))
  {
    if events == [] {
    } else {
      var front, e := events[..|events| - 1], events[|events| - 1];
      OrderlyFront(events);
      forall k | 0 <= k < |front| && front[k].Asking?
        ensures !InsertsBeside(Run(front[..k]), front[k])
      {
        assert front[..k] == events[..k];
      }
      assert events[..|front|] == front;
      RunKeepsOneWaiting(front);
      RunKeepsInv(front);
      if e.Asking? {
        AskingKeepsOneWaitingIff(Run(front), e);
      } else {
        MessageKeepsOneWaiting(Run(front), e);
      }
    }
  }

  /**
   Safety over every run: no action's handler runs twice; it runs only for the action's own session and
   user and not past its expiry; a cancelled or expired action never ran and never will have run; and at
   most one action per session and user is waiting, unless a failed lookup let a question in beside one.
   */
  lemma {:induction false} ConfirmSafety(events: seq<Event>)
    requires OrderlyRun(events)
    ensures var w := Run(events);
      && (forall i, j :: 0 <= i < j < |w.runs| ==> w.runs[i].id != w.runs[j].id)
      && (forall k, i :: 0 <= k < |w.runs| && 0 <= i < |w.rows| && w.rows[i].id == w.runs[k].id ==>
            && w.runs[k].sessionID == w.rows[i].sessionID && w.runs[k].userID == w.rows[i].userID
            && w.rows[i].expiresAt.Some? && w.runs[k].at <= w.rows[i].expiresAt.value
            && w.rows[i].status !in {Pending, Cancelled, Expired})
      && (NoneBeside(events) ==> OneWaiting(w))
  {
    RunKeepsInv(events);
    if NoneBeside(events) {
      RunKeepsOneWaiting(events);
    }
    var w := Run(events);
    forall k, i | 0 <= k < |w.runs| && 0 <= i < |w.rows| && w.rows[i].id == w.runs[k].id
      ensures RunOf(w.runs[k], w.rows[i])
    {
      assert HasRow(w.runs[k], w.rows);
      var j :| 0 <= j < |w.rows| && RunOf(w.runs[k], w.rows[j]);
      assert i == j;
    }
  }

  /** Once an action is cancelled, expired, executed or failed, no later history touches it. */
  lemma {:induction false} SettledForever(events: seq<Event>, n: nat, i: nat)
    requires OrderlyRun(events) && n <= |events| && i < |Run(events[..n]).rows|
    ensures i < |Run(events).rows| && Run(events).rows[i].id == Run(events[..n]).rows[i].id
    ensures Run(events[..n]).rows[i].status in {Cancelled, Expired, Executed, Failed} ==>
      Run(events).rows[i] == Run(events[..n]).rows[i]
    decreases |events|
  {
    if n == |events| {
      assert events[..n] == events;
    } else {
      var front := events[..|events| - 1];
      assert front[..n] == events[..n];
      OrderlyFront(events);
      SettledForever(front, n, i);
      RunKeepsInv(front);
      StepKeepsInv(Run(front), events[|events| - 1]);
      assert RowMoves(Run(front).rows[i], Run(events).rows[i]);
    }
  }

  // ---------------------------------------------------------------------------
  // The bare word and the printed reply.
  // ---------------------------------------------------------------------------

  /**
   For the newest waiting action, the bare word, the printed "word id" reply and the same without the space
   do exactly the same thing.
   */
  lemma {:induction false} BareWordMeansPrintedReply(events: seq<Event>, i: nat, command: ConfirmText.Command,
          now: Instant, env: Surroundings)
    requires OrderlyRun(events) && i < |Run(events).rows| && env.latestRead
    requires var rows := Run(events).rows; Latest(rows, rows[i].sessionID, rows[i].userID, now) == Some(rows[i])
    ensures var rows := Run(events).rows;
      var row := rows[i];
      var word := ConfirmText.Word(command);
      var bare := Decide(rows, row.userID, row.sessionID, word, now, env);
      && bare == DecideFor(rows, row.userID, row.sessionID, command, row.id, now, env)
      && bare == Decide(rows, row.userID, row.sessionID, word + " " + row.id, now, env)
      && bare == Decide(rows, row.userID, row.sessionID, word + row.id, now, env)
  {
    var w := Run(events);
    var row := w.rows[i];
    RunKeepsInv(events);
    assert WellStored(row, w.clock);
    BareWordParses(command);
    PrintedReplyParses(command, row.id);
  }

  /** What an answer to a waiting row by its id does. */
  lemma {:induction false} LiveAnswerWrites(rows: Table, j: nat, command: ConfirmText.Command, now: Instant,
          env: Surroundings)
    requires UniqueIDs(rows) && j < |rows| && IsLive(rows[j], rows[j].sessionID, rows[j].userID, now) && env.idRead
    ensures var d := DecideFor(rows, rows[j].userID, rows[j].sessionID, command, rows[j].id, now, env);
      d.writes != [] && d.writes[0].id == rows[j].id
  {
    FindUnique(rows, j);
  }

  lemma {:induction false} OtherAnswerWrites(rows: Table, i: nat, command: ConfirmText.Command, now: Instant,
          env: Surroundings)
    requires UniqueIDs(rows) && i < |rows| && env.idRead
    ensures var d := DecideFor(rows, rows[i].userID, rows[i].sessionID, command, rows[i].id, now, env);
      !d.answer.NothingWaiting? && !d.answer.ReadFailed? && (d.writes == [] || d.writes[0].id == rows[i].id)
  {
    FindUnique(rows, i);
  }

  /** The bare word, whatever waits, does not do what the id of a row does that is not the newest waiting one. */
  lemma {:induction false} BareWordDiffers(rows: Table, i: nat, command: ConfirmText.Command, now: Instant,
          env: Surroundings)
    requires UniqueIDs(rows) && i < |rows| && env.idRead
    requires !env.latestRead || Latest(rows, rows[i].sessionID, rows[i].userID, now) != Some(rows[i])
    ensures Decide(rows, rows[i].userID, rows[i].sessionID, ConfirmText.Word(command), now, env)
         != DecideFor(rows, rows[i].userID, rows[i].sessionID, command, rows[i].id, now, env)
  {
    var s, u := rows[i].sessionID, rows[i].userID;
    BareWordParses(command);
    OtherAnswerWrites(rows, i, command, now, env);
    LatestIsNewestLive(rows, s, u, now);
    var waiting := Latest(rows, s, u, now);
    if env.latestRead && waiting.Some? {
      var j :| 0 <= j < |rows| && rows[j] == waiting.value;
      LiveAnswerWrites(rows, j, command, now, env);
      assert rows[j].id != rows[i].id;
    }
  }

  /**
   For every row of every reachable table: the bare word does what the row's id does if and only if the row
   is the newest waiting one and was read, or both answers fail to read the store.
   */
  lemma {:induction false} BareWordMeansIdIffNewest(events: seq<Event>, i: nat, command: ConfirmText.Command,
          now: Instant, env: Surroundings)
    requires OrderlyRun(events) && i < |Run(events).rows|
    ensures var rows := Run(events).rows;
      var row := rows[i];
      var waiting := Latest(rows, row.sessionID, row.userID, now);
      Decide(rows, row.userID, row.sessionID, ConfirmText.Word(command), now, env)
      == DecideFor(rows, row.userID, row.sessionID, command, row.id, now, env)
      <==>
      if env.idRead then env.latestRead && waiting == Some(row) else !env.latestRead || waiting.Some?
  {
    var rows := Run(events).rows;
    BareWordParses(command);
    if env.idRead && !(env.latestRead && Latest(rows, rows[i].sessionID, rows[i].userID, now) == Some(rows[i])) {
      RunKeepsInv(events);
      BareWordDiffers(rows, i, command, now, env);
    }
  }

  /** So with the reads in order and no question stored beside another, it does if and only if the row is waiting. */
  lemma {:induction false} BareWordMeansIdIffLive(events: seq<Event>, i: nat, command: ConfirmText.Command,
          now: Instant, env: Surroundings)
    requires OrderlyRun(events) && NoneBeside(events) && Run(events).clock <= now && i < |Run(events).rows|
    requires env.latestRead && env.idRead
    ensures var rows := Run(events).rows;
      var row := rows[i];
      Decide(rows, row.userID, row.sessionID, ConfirmText.Word(command), now, env)
      == DecideFor(rows, row.userID, row.sessionID, command, row.id, now, env)
      <==> IsLive(row, row.sessionID, row.userID, now)
  {
    var rows := Run(events).rows;
    var row := rows[i];
    BareWordMeansIdIffNewest(events, i, command, now, env);
    if IsLive(row, row.sessionID, row.userID, now) {
      RunKeepsOneWaiting(events);
      TheOneWaiting(Run(events), i, now);
    } else {
      LatestIsNewestLive(rows, row.sessionID, row.userID, now);
    }
  }

  lemma {:induction false} TheOneWaiting(w: World, i: nat, now: Instant)
    requires OneWaiting(w) && w.clock <= now && i < |w.rows|
    requires IsLive(w.rows[i], w.rows[i].sessionID, w.rows[i].userID, now)
    ensures Latest(w.rows, w.rows[i].sessionID, w.rows[i].userID, now) == Some(w.rows[i])
  {
    var s, u := w.rows[i].sessionID, w.rows[i].userID;
    LatestIsNewestLive(w.rows, s, u, now);
    var r := Latest(w.rows, s, u, now).value;
    var j :| 0 <= j < |w.rows| && w.rows[j] == r;
    assert IsLive(w.rows[i], s, u, w.clock) && IsLive(w.rows[j], s, u, w.clock);
  }

  lemma {:induction false} BareWordParses(command: ConfirmText.Command)
    ensures ConfirmText.Parse(ConfirmText.Word(command)) == ConfirmText.Parsed(command, "")
  {
    var word := ConfirmText.Word(command);
    ConfirmText.WordShape(command);
    ConfirmText.TrimAround("", word, "");
    assert "" + word + "" == word && ConfirmText.TrimRight("") == "";
    assert ConfirmText.TrimSpace(word) == word + "" == word;
    if command == ConfirmText.Cancel {
      assert ConfirmText.ToLower(word)[0] == '取';
      assert !ConfirmText.ShortConfirm(word) by {
        assert |"好"| == 1;
        assert ConfirmText.CONFIRM_WORD[0] == '确';
      }
    }
  }

  lemma {:induction false} PlainParts(id: string)
    requires PrintedID(id)
    ensures ConfirmText.AllSpace("") && ConfirmText.AllSpace(" ") && ConfirmText.SetOff("") && ConfirmText.NoDigit("")
    ensures ConfirmText.Decorated(id, "", id, "") && ConfirmText.Fits(id)
  {
    ConfirmText.EightDigitsFit(id);
    assert "" + id + "" == id;
  }

  lemma {:induction false} Unpadded(word: string, space: string, id: string)
    ensures "" + word + space + id + "" == word + space + id
  {
  }

  lemma {:induction false} ReplyParses(command: ConfirmText.Command, space: string, id: string)
    requires PrintedID(id) && ConfirmText.AllSpace(space)
    ensures ConfirmText.Parse(ConfirmText.Word(command) + space + id) == ConfirmText.Parsed(command, id)
  {
    PlainParts(id);
    ConfirmText.ReplyRoundTrip(command, "", space, id, "", id, "", "");
    Unpadded(ConfirmText.Word(command), space, id);
  }

  lemma {:induction false} PrintedReplyParses(command: ConfirmText.Command, id: string)
    requires PrintedID(id)
    ensures ConfirmText.Parse(ConfirmText.Word(command) + " " + id) == ConfirmText.Parsed(command, id)
    ensures ConfirmText.Parse(ConfirmText.Word(command) + id) == ConfirmText.Parsed(command, id)
  {
    PlainParts(id);
    ReplyParses(command, " ", id);
    ReplyParses(command, "", id);
    assert ConfirmText.Word(command) + "" == ConfirmText.Word(command);
  }

  // ---------------------------------------------------------------------------
  // Where the code falls short, exactly.
  // ---------------------------------------------------------------------------

  lemma {:induction false} StoredIDs(rows: Table, writes: seq<Write>, env: Surroundings)
    requires UniqueIDs(rows)
    ensures |Stored(rows, writes, env)| == |rows| && UniqueIDs(Stored(rows, writes, env))
  {
    forall i | 0 <= i < |rows|
      ensures Stored(rows, writes, env)[i].id == rows[i].id
    {
      StoredAt(rows, writes, env, i);
    }
  }

  lemma {:induction false} ConfirmRunsIffPending(rows: Table, i: nat, text: string, now: Instant, env: Surroundings)
    requires UniqueIDs(rows) && i < |rows| && rows[i].id != ""
    requires ConfirmText.Parse(text) == ConfirmText.Parsed(ConfirmText.Confirm, rows[i].id)
    requires env.idRead && env.argsDecode && rows[i].toolName in env.tools
    requires rows[i].expiresAt.Some? ==> now <= rows[i].expiresAt.value
    ensures Decide(rows, rows[i].userID, rows[i].sessionID, text, now, env).ran.Some? <==> rows[i].status == Pending
  {
    FindUnique(rows, i);
  }

  /** After its handler ran, a row is still pending if and only if no write of the answer was stored. */
  lemma {:induction false} RanRowStaysPendingIff(rows: Table, userID: string, sessionID: string, text: string,
          now: Instant, env: Surroundings, i: nat)
    requires UniqueIDs(rows) && i < |rows| && rows[i].id != ""
    requires ConfirmText.Parse(text) == ConfirmText.Parsed(ConfirmText.Confirm, rows[i].id)
    requires Decide(rows, userID, sessionID, text, now, env).ran.Some?
    ensures rows[i].sessionID == sessionID && rows[i].userID == userID && rows[i].toolName in env.tools
    ensures var after := RowAfter(rows[i], Decide(rows, userID, sessionID, text, now, env).writes, env);
      after.status == Pending <==> !env.firstWrite && (env.handler.None? || !env.secondWrite)
  {
    FindUnique(rows, i);
  }

  /**
   The code ignores failed status writes. After an answer that ran the handler, repeating the answer in
   time runs it again exactly when the first write was lost, and the second one too or never tried, the
   process having died inside the handler.
   */
  lemma {:induction false} RerunIffBothWritesLost(rows: Table, userID: string, sessionID: string, text: string,
          id: string, now: Instant, later: Instant, env: Surroundings, env': Surroundings)
    requires UniqueIDs(rows) && ConfirmText.Parse(text) == ConfirmText.Parsed(ConfirmText.Confirm, id) && id != ""
    requires Decide(rows, userID, sessionID, text, now, env).ran.Some?
    requires env'.idRead && env'.argsDecode && env'.tools == env.tools
    requires Find(rows, id).Some?
    requires Find(rows, id).value.expiresAt.Some? ==> later <= Find(rows, id).value.expiresAt.value
    ensures var rows' := Stored(rows, Decide(rows, userID, sessionID, text, now, env).writes, env);
      Decide(rows', userID, sessionID, text, later, env').ran.Some?
      <==> !env.firstWrite && (env.handler.None? || !env.secondWrite)
  {
    FindGives(rows, id);
    var i :| 0 <= i < |rows| && rows[i] == Find(rows, id).value;
    var writes := Decide(rows, userID, sessionID, text, now, env).writes;
    StoredIDs(rows, writes, env);
    StoredAt(rows, writes, env, i);
    RanRowStaysPendingIff(rows, userID, sessionID, text, now, env, i);
    ConfirmRunsIffPending(Stored(rows, writes, env), i, text, later, env');
  }

  /** The user is told the action was dropped either way; it can still run exactly when that write was lost. */
  lemma {:induction false} CancelHoldsIffStored(rows: Table, userID: string, sessionID: string, cancel: string,
          confirm: string, id: string, now: Instant, later: Instant, env: Surroundings, env': Surroundings)
    requires UniqueIDs(rows) && id != ""
    requires ConfirmText.Parse(cancel) == ConfirmText.Parsed(ConfirmText.Cancel, id)
    requires ConfirmText.Parse(confirm) == ConfirmText.Parsed(ConfirmText.Confirm, id)
    requires Decide(rows, userID, sessionID, cancel, now, env).answer == Dropped
    requires Find(rows, id).Some? && Find(rows, id).value.toolName in env'.tools && env'.argsDecode && env'.idRead
    requires Find(rows, id).value.expiresAt.Some? ==> later <= Find(rows, id).value.expiresAt.value
    ensures var rows' := Stored(rows, Decide(rows, userID, sessionID, cancel, now, env).writes, env);
      Decide(rows', userID, sessionID, confirm, later, env').ran.Some? <==> !env.firstWrite
  {
    FindGives(rows, id);
    var i :| 0 <= i < |rows| && rows[i] == Find(rows, id).value;
    var d := Decide(rows, userID, sessionID, cancel, now, env);
    FindUnique(rows, i);
    assert d.writes == [Write(id, Cancelled, "")];
    StoredIDs(rows, d.writes, env);
    StoredAt(rows, d.writes, env, i);
    ConfirmRunsIffPending(Stored(rows, d.writes, env), i, confirm, later, env');
  }

  /**
   Actions asked for without a session or user are filed under the defaults, but answers are not:
   a message with an empty session or user never reaches any action.
   */
  lemma {:induction false} EmptySessionNeverAnswers(events: seq<Event>, userID: string, sessionID: string,
          text: string, now: Instant, env: Surroundings)
    requires OrderlyRun(events) && (userID == "" || sessionID == "")
    ensures var d := Decide(Run(events).rows, userID, sessionID, text, now, env);
      d.writes == [] && d.ran.None?
  {
    var rows := Run(events).rows;
    RunKeepsInv(events);
    var parsed := ConfirmText.Parse(text);
    LatestIsNewestLive(rows, sessionID, userID, now);
    if parsed.Parsed? {
      FindGives(rows, parsed.id);
    }
  }

  /**
   And that is exactly when the asker cannot answer: an answer in time under the names the question was asked
   with reaches the action if and only if neither was empty.
   */
  lemma {:induction false} AskerReachesIffNamed(rows: Table, request: Request, id: string, now: Instant, read: bool,
          accepted: bool, command: ConfirmText.Command, later: Instant, env: Surroundings)
    requires Ask(rows, request, id, now, read, accepted).1 == Asked(id)
    requires env.idRead && later <= now + CONFIRM_TTL
    ensures var rows' := Ask(rows, request, id, now, read, accepted).0;
      DecideFor(rows', request.userID, request.sessionID, command, id, later, env).writes != []
      <==> request.userID != "" && request.sessionID != ""
  {
    FindAfterAppend(rows, NewAction(request, id, now), id);
  }

  /**
   The two expiry tests disagree at the very instant of expiry: the bare word no longer finds the action,
   while its explicit id still does.
   */
  lemma {:induction false} ExpiryInstant(rows: Table, i: nat, now: Instant, env: Surroundings)
    requires UniqueIDs(rows) && i < |rows| && rows[i].status == Pending && rows[i].expiresAt == Some(now)
    requires PrintedID(rows[i].id) && rows[i].toolName in env.tools && env.argsDecode && env.idRead
    ensures var row := rows[i];
      && Latest(rows, row.sessionID, row.userID, now) != Some(row)
      && Decide(rows, row.userID, row.sessionID, ConfirmText.CONFIRM_WORD + " " + row.id, now, env).ran
           == Some(HandlerRun(row.id, row.sessionID, row.userID, now))
  {
    var row := rows[i];
    LatestIsNewestLive(rows, row.sessionID, row.userID, now);
    FindUnique(rows, i);
    PrintedReplyParses(ConfirmText.Confirm, row.id);
  }
}
