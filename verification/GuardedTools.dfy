/**
 Tool calls of the loop and messages of the users, one after the other on one store: a tool that needs
 confirmation is only ever run by a confirmation.
 */
module GuardedTools {

  import opened Wrappers
  import opened PendingActions
  import opened Clock
  import opened ConfirmProtocol
  import ConfirmText
  import ReActLoop

  /**
   A tool call of some loop, with the question it would put to the user; or a message. A handler that wants
   confirmation names the tool itself, so the question's tool is an input there.
   */
  datatype Act =
    | Call(call: ReActLoop.ToolCall, request: Request, id: string, at: Instant, read: bool, accepted: bool)
    | Say(userID: string, sessionID: string, text: string, at: Instant, env: Surroundings)

  /** Who ran a handler: a loop, or message `said` for the action asked for by call `asked`. */
  datatype HandlerEntry =
    | Direct(tool: string, needConfirm: bool)
    | Approved(tool: string, id: string, asked: nat, said: nat)

  /** `asked` maps an action to the act that created it. */
  datatype State = State(world: World, asked: map<string, nat>, log: seq<HandlerEntry>)

  /** The question of a call: about its own tool, if that needs confirmation. */
  function QuestionOf(a: Act): Request
    requires a.Call?
  {
    if a.call.lookup.Found? && a.call.lookup.needConfirm then a.request.(toolName := a.call.name) else a.request
  }

  predicate AsksUser(call: ReActLoop.ToolCall) {
    call.lookup.Found? && call.argsError.None? && (call.lookup.needConfirm || call.handler.WantsConfirmation?)
  }

  function Asked(s: State, a: Act, n: nat): State
    requires a.Call?
  {
    var e := Asking(QuestionOf(a), a.id, a.at, a.read, a.accepted);
    var outcome := Ask(s.world.rows, QuestionOf(a), a.id, a.at, a.read, a.accepted).1;
    s.(world := Step(s.world, e), asked := if outcome.Asked? then s.asked[a.id := n] else s.asked)
  }

  function Told(s: State, a: Act, n: nat): State
    requires a.Say?
  {
    var ran := Decide(s.world.rows, a.userID, a.sessionID, a.text, a.at, a.env).ran;
    var after := s.(world := Step(s.world, Message(a.userID, a.sessionID, a.text, a.at, a.env)));
    if ran.None? || Find(s.world.rows, ran.value.id).None? then after
    else
      var id := ran.value.id;
      after.(log := s.log + [Approved(Find(s.world.rows, id).value.toolName, id,
                                      if id in s.asked then s.asked[id] else 0, n)])
  }

  function Do(s: State, a: Act, n: nat): State {
    match a
    case Call(call, _, _, _, _, _) =>
      var ran := if call.RunsHandler() then s.(log := s.log + [Direct(call.name, call.lookup.needConfirm)]) else s;
      if AsksUser(call) then Asked(ran, a, n) else ran
    case Say(_, _, _, _, _) => Told(s, a, n)
  }

  function After(acts: seq<Act>): State {
    if acts == [] then State(World([], [], 0), map[], [])
    else Do(After(acts[..|acts| - 1]), acts[|acts| - 1], |acts| - 1)
  }

  // ---------------------------------------------------------------------------
  // Every row goes back to a question.
  // ---------------------------------------------------------------------------

  /** The row is what the act asked for, but for status and message. */
  predicate Origin(row: PendingAction, a: Act) {
    a.Call? && AsksUser(a.call) && row.(status := Pending, errorMsg := "") == NewAction(QuestionOf(a), a.id, a.at)
  }

  predicate HasOrigin(row: PendingAction, asked: map<string, nat>, acts: seq<Act>) {
    row.id in asked && asked[row.id] < |acts| && Origin(row, acts[asked[row.id]])
  }

  ghost predicate RowsHaveOrigins(s: State, acts: seq<Act>) {
    forall i :: 0 <= i < |s.world.rows| ==> HasOrigin(s.world.rows[i], s.asked, acts)
  }

  /** A handler run by a message: asked for earlier about that tool, and confirmed by the owner in time. */
  predicate Confirmed(e: HandlerEntry, acts: seq<Act>)
    requires e.Approved?
  {
    && e.asked < e.said < |acts|
    && acts[e.asked].Call? && acts[e.said].Say?
    && var question, answer := acts[e.asked], acts[e.said];
      && AsksUser(question.call) && QuestionOf(question).toolName == e.tool && question.id == e.id
      && OrDefault(question.request.sessionID, DEFAULT_SESSION) == answer.sessionID
      && OrDefault(question.request.userID, DEFAULT_USER) == answer.userID
      && answer.at <= question.at + CONFIRM_TTL
      && ConfirmText.SaysYes(ConfirmText.TrimSpace(answer.text))
  }

  predicate Accounted(e: HandlerEntry, acts: seq<Act>) {
    match e
    case Direct(_, needConfirm) => !needConfirm
    case Approved(_, _, _, _) => Confirmed(e, acts)
  }

  ghost predicate LogAccounted(s: State, acts: seq<Act>) {
    forall p :: 0 <= p < |s.log| ==> Accounted(s.log[p], acts)
  }

  lemma {:induction false} OriginLasts(row: PendingAction, asked: map<string, nat>, acts: seq<Act>, a: Act)
    requires HasOrigin(row, asked, acts)
    ensures HasOrigin(row, asked, acts + [a])
  {
  }

  lemma {:induction false} AccountLasts(e: HandlerEntry, acts: seq<Act>, a: Act)
    requires Accounted(e, acts)
    ensures Accounted(e, acts + [a])
  {
  }

  lemma {:induction false} AskedKeepsOrigins(s: State, acts: seq<Act>, a: Act)
    requires RowsHaveOrigins(s, acts) && a.Call? && AsksUser(a.call)
    ensures RowsHaveOrigins(Asked(s, a, |acts|), acts + [a])
  {
    var t := Asked(s, a, |acts|);
    FindGives(s.world.rows, a.id);
    forall i | 0 <= i < |t.world.rows|
      ensures HasOrigin(t.world.rows[i], t.asked, acts + [a])
    {
      if i < |s.world.rows| {
        OriginLasts(s.world.rows[i], s.asked, acts, a);
      } else {
        assert (acts + [a])[|acts|] == a;
      }
    }
  }

  lemma {:induction false} WritesKeepRest(rows: Table, writes: seq<Write>, env: Surroundings, i: nat)
    requires i < |rows|
    ensures |Stored(rows, writes, env)| == |rows|
    ensures Stored(rows, writes, env)[i].(status := Pending, errorMsg := "")
         == rows[i].(status := Pending, errorMsg := "")
  {
    StoredAt(rows, writes, env, i);
  }

  lemma {:induction false} ToldKeepsOrigins(s: State, acts: seq<Act>, a: Act)
    requires RowsHaveOrigins(s, acts) && a.Say?
    ensures RowsHaveOrigins(Told(s, a, |acts|), acts + [a])
  {
    var t := Told(s, a, |acts|);
    var d := Decide(s.world.rows, a.userID, a.sessionID, a.text, a.at, a.env);
    assert t.world.rows == Stored(s.world.rows, d.writes, a.env) && t.asked == s.asked;
    forall i | 0 <= i < |t.world.rows|
      ensures HasOrigin(t.world.rows[i], t.asked, acts + [a])
    {
      if s.world.rows != [] {
        WritesKeepRest(s.world.rows, d.writes, a.env, 0);
      }
      WritesKeepRest(s.world.rows, d.writes, a.env, i);
      OriginLasts(s.world.rows[i], s.asked, acts, a);
    }
  }

  lemma {:induction false} ToldIsConfirmed(s: State, acts: seq<Act>, a: Act)
    requires RowsHaveOrigins(s, acts) && a.Say?
    requires var ran := Decide(s.world.rows, a.userID, a.sessionID, a.text, a.at, a.env).ran;
      ran.Some? && Find(s.world.rows, ran.value.id).Some?
    ensures var t := Told(s, a, |acts|);
      && |t.log| == |s.log| + 1 && t.log[..|s.log|] == s.log
      && t.log[|s.log|].Approved? && Confirmed(t.log[|s.log|], acts + [a])
  {
    var rows := s.world.rows;
    var ran := Decide(rows, a.userID, a.sessionID, a.text, a.at, a.env).ran.value;
    FindGives(rows, ran.id);
    var row := Find(rows, ran.id).value;
    var i :| 0 <= i < |rows| && rows[i] == row;
    assert HasOrigin(rows[i], s.asked, acts);
    AnswerFits(rows, a);
    assert (acts + [a])[s.asked[ran.id]] == acts[s.asked[ran.id]] && (acts + [a])[|acts|] == a;
  }

  lemma {:induction false} AnswerFits(rows: Table, a: Act)
    requires a.Say? && Decide(rows, a.userID, a.sessionID, a.text, a.at, a.env).ran.Some?
    ensures var ran := Decide(rows, a.userID, a.sessionID, a.text, a.at, a.env).ran.value;
      && Find(rows, ran.id).Some?
      && var row := Find(rows, ran.id).value;
        && row.sessionID == a.sessionID && row.userID == a.userID
        && (row.expiresAt.Some? ==> a.at <= row.expiresAt.value)
    ensures ConfirmText.SaysYes(ConfirmText.TrimSpace(a.text))
  {
    ConfirmText.CommandMeans(a.text);
  }

  lemma {:induction false} DoKeepsBoth(s: State, acts: seq<Act>, a: Act)
    requires RowsHaveOrigins(s, acts) && LogAccounted(s, acts)
    ensures RowsHaveOrigins(Do(s, a, |acts|), acts + [a]) && LogAccounted(Do(s, a, |acts|), acts + [a])
  {
    forall p | 0 <= p < |s.log|
      ensures Accounted(s.log[p], acts + [a])
    {
      AccountLasts(s.log[p], acts, a);
    }
    forall i | 0 <= i < |s.world.rows|
      ensures HasOrigin(s.world.rows[i], s.asked, acts + [a])
    {
      OriginLasts(s.world.rows[i], s.asked, acts, a);
    }
    match a
    case Call(call, _, _, _, _, _) =>
      var ran := if call.RunsHandler() then s.(log := s.log + [Direct(call.name, call.lookup.needConfirm)]) else s;
      if AsksUser(call) {
        AskedKeepsOrigins(ran, acts, a);
      }
    case Say(_, _, _, _, _) =>
      var d := Decide(s.world.rows, a.userID, a.sessionID, a.text, a.at, a.env);
      ToldKeepsOrigins(s, acts, a);
      if d.ran.Some? {
        AnswerFits(s.world.rows, a);
        ToldIsConfirmed(s, acts, a);
      }
  }

  lemma {:induction false} AllAccounted(acts: seq<Act>)
    ensures RowsHaveOrigins(After(acts), acts) && LogAccounted(After(acts), acts)
  {
    if acts == [] {
    } else {
      var front, a := acts[..|acts| - 1], acts[|acts| - 1];
      AllAccounted(front);
      DoKeepsBoth(After(front), front, a);
      assert acts == front + [a];
    }
  }

  /**
   Over every sequence of tool calls and messages: a loop runs only handlers of tools that need no
   confirmation; every other handler run was asked for by an earlier call, about that very tool, and confirmed
   by a later message of the same session and user before the expiry.
   */
  lemma {:induction false} GuardedToolsNeedConfirmation(acts: seq<Act>, p: nat)
    requires p < |After(acts).log|
    ensures var e := After(acts).log[p];
      if e.Direct? then !e.needConfirm else Confirmed(e, acts)
  {
    AllAccounted(acts);
    assert Accounted(After(acts).log[p], acts);
  }
}
