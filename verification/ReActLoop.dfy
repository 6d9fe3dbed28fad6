/**
 The agent's ReAct loop: ask the model, run the tools it asks for, feed the results back.

 The model and the tool handlers are foreign. `llm[i]` is the model's i-th response, and each tool call
 carries what the foreign parts would make of it.
 */
module ReActLoop {
  import opened Wrappers
  import ConfirmText

  datatype CallEffect =
    | UnknownTool(error: string)
    | BadArguments(error: string)
    | AsksUser(reply: string)
    | CannotAsk(error: string)
    | Succeeded(output: string)
    | HandlerFailed(error: string)

  datatype Lookup = Found(needConfirm: bool) | Missing(error: string)
  datatype HandlerOutcome = Returns(output: string) | Fails(error: string) | WantsConfirmation
  datatype AskReply = Replied(reply: string) | Refused(error: string)

  /**
   A call with what the registry, the decoder, the handler and a question to the user would each make of it;
   which of them are reached, and what comes of the call, is its effect.
   */
  datatype ToolCall = ToolCall(
    id: string, name: string, lookup: Lookup, argsError: Option<string>, handler: HandlerOutcome, ask: AskReply)
  {
    function Asked(): CallEffect {
      match ask
      case Replied(reply) => AsksUser(reply)
      case Refused(error) => CannotAsk(error)
    }

    function Effect(): CallEffect {
      if lookup.Missing? then UnknownTool(lookup.error)
      else if argsError.Some? then BadArguments(argsError.value)
      else if lookup.needConfirm || handler.WantsConfirmation? then Asked()
      else match handler
        case Returns(output) => Succeeded(output)
        case Fails(error) => HandlerFailed(error)
    }

    /** Whether the loop itself runs the handler. */
    predicate RunsHandler() {
      lookup.Found? && argsError.None? && !lookup.needConfirm
    }
  }

  datatype Response =
    | Unavailable(error: string)
    | Stop(content: string)
    | ToolCalls(calls: seq<ToolCall>)
    | OtherFinish(reason: string)

  datatype Message =
    | System(content: string)
    | User(content: string)
    | Assistant(content: string)
    | AssistantCalls(ids: seq<string>)
    | ToolReply(callID: string, content: string)

  datatype Outcome =
    | Answered(content: string)
    | LLMFailed(error: string)
    | BadFinish(reason: string)
    | WaitingForUser(reply: string)
    | GaveUp(failures: nat, lastError: string)
    | OutOfIterations

  /** What executeTool hands back. */
  datatype ToolResult = Output(text: string) | Error(text: string) | Interrupt(reply: string)

  datatype EpisodeOutcome = Success | Partial | Failed

  const ERROR_PREFIX: string := "❌ 工具执行失败: "

  function IsError(effect: CallEffect): bool {
    effect.UnknownTool? || effect.BadArguments? || effect.CannotAsk? || effect.HandlerFailed?
  }

  /** The content of the tool message a call leaves in the transcript, cut short by `cut`. */
  function ReplyText(effect: CallEffect, cut: string -> string): string {
    match effect
    case Succeeded(output) => cut(output)
    case AsksUser(_) => ""
    case _ => cut(ERROR_PREFIX + effect.error)
  }

  // ---------------------------------------------------------------------------
  // The specification: transcript, failure count, executed calls.
  // ---------------------------------------------------------------------------

  /** The running failure count: only handler outcomes move it. */
  function Failures(log: seq<CallEffect>): nat {
    if log == [] then 0
    else
      var before := Failures(log[..|log| - 1]);
      match log[|log| - 1]
      case Succeeded(_) => 0
      case HandlerFailed(_) => before + 1
      case _ => before
  }

  function CountFailed(log: seq<CallEffect>): nat {
    if log == [] then 0
    else CountFailed(log[..|log| - 1]) + if log[|log| - 1].HandlerFailed? then 1 else 0
  }

  /** The count is the number of handler failures since the last handler success. */
  lemma {:induction false} FailuresSinceLastSuccess(log: seq<CallEffect>) returns (k: nat)
    ensures k <= |log|
    ensures k > 0 ==> log[k - 1].Succeeded?
    ensures forall i :: k <= i < |log| ==> !log[i].Succeeded?
    ensures Failures(log) == CountFailed(log[k..])
  {
    if log == [] {
      return 0;
    }
    if log[|log| - 1].Succeeded? {
      assert log[|log|..] == [];
      return |log|;
    }
    k := FailuresSinceLastSuccess(log[..|log| - 1]);
    assert log[k..][..|log| - k - 1] == log[..|log| - 1][k..];
  }

  function IDs(calls: seq<ToolCall>): seq<string> {
    if calls == [] then [] else IDs(calls[..|calls| - 1]) + [calls[|calls| - 1].id]
  }

  function Effects(calls: seq<ToolCall>): seq<CallEffect> {
    if calls == [] then [] else Effects(calls[..|calls| - 1]) + [calls[|calls| - 1].Effect()]
  }

  function ReplyTo(call: ToolCall, cut: string -> string): Message {
    ToolReply(call.id, ReplyText(call.Effect(), cut))
  }

  function Replies(calls: seq<ToolCall>, cut: string -> string): seq<Message> {
    if calls == [] then [] else Replies(calls[..|calls| - 1], cut) + [ReplyTo(calls[|calls| - 1], cut)]
  }

  lemma {:induction false} OneReplyEach(calls: seq<ToolCall>, cut: string -> string)
    ensures |IDs(calls)| == |Replies(calls, cut)| == |calls|
  {
    if calls == [] {
    } else {
      OneReplyEach(calls[..|calls| - 1], cut);
    }
  }

  /** Ids and replies line up with the calls they belong to. */
  lemma {:induction false} ReplyAt(calls: seq<ToolCall>, k: nat, cut: string -> string)
    requires k < |calls|
    ensures |IDs(calls)| == |Replies(calls, cut)| == |calls|
    ensures IDs(calls)[k] == calls[k].id && Replies(calls, cut)[k] == ReplyTo(calls[k], cut)
  {
    OneReplyEach(calls[..|calls| - 1], cut);
    if k < |calls| - 1 {
      ReplyAt(calls[..|calls| - 1], k, cut);
    }
  }

  function CallsOf(r: Response): seq<ToolCall> {
    if r.ToolCalls? then r.calls else []
  }

  /** What the first n responses and their tool results add to the conversation. */
  function Transcript(llm: seq<Response>, n: nat, cut: string -> string): seq<Message>
    requires n <= |llm|
  {
    if n == 0 then []
    else Transcript(llm, n - 1, cut) + [AssistantCalls(IDs(CallsOf(llm[n - 1])))] + Replies(CallsOf(llm[n - 1]), cut)
  }

  /** The effects of all calls of the first n responses, in order. */
  function AllEffects(llm: seq<Response>, n: nat): seq<CallEffect>
    requires n <= |llm|
  {
    if n == 0 then [] else AllEffects(llm, n - 1) + Effects(CallsOf(llm[n - 1]))
  }

  /** Each assistant message with tool calls is followed by exactly its tool replies, same ids, same order. */
  ghost predicate Paired(messages: seq<Message>)
    decreases |messages|
  {
    if messages == [] then true
    else match messages[0]
      case ToolReply(_, _) => false
      case AssistantCalls(ids) =>
        && |messages| > |ids|
        && (forall k :: 1 <= k <= |ids| ==> messages[k].ToolReply? && messages[k].callID == ids[k - 1])
        && Paired(messages[|ids| + 1..])
      case _ => Paired(messages[1..])
  }

  lemma {:induction false} PairedConcat(a: seq<Message>, b: seq<Message>)
    requires Paired(a) && Paired(b)
    ensures Paired(a + b)
    decreases |a|
  {
    if a == [] {
      assert a + b == b;
    } else {
      var n := if a[0].AssistantCalls? then |a[0].ids| + 1 else 1;
      PairedConcat(a[n..], b);
      assert (a + b)[n..] == a[n..] + b;
      if a[0].AssistantCalls? {
        assert forall k :: 1 <= k <= |a[0].ids| ==> (a + b)[k] == a[k];
      }
    }
  }

  lemma {:induction false} BlockPaired(calls: seq<ToolCall>, cut: string -> string)
    ensures Paired([AssistantCalls(IDs(calls))] + Replies(calls, cut))
  {
    OneReplyEach(calls, cut);
    var block := [AssistantCalls(IDs(calls))] + Replies(calls, cut);
    assert block[|calls| + 1..] == [];
    forall k | 1 <= k <= |calls|
      ensures block[k].ToolReply? && block[k].callID == IDs(calls)[k - 1]
    {
      ReplyAt(calls, k - 1, cut);
      assert block[k] == Replies(calls, cut)[k - 1];
    }
  }

  lemma {:induction false} TranscriptPaired(llm: seq<Response>, n: nat, cut: string -> string)
    requires n <= |llm|
    ensures Paired(Transcript(llm, n, cut))
  {
    if n == 0 {
    } else {
      var calls := CallsOf(llm[n - 1]);
      TranscriptPaired(llm, n - 1, cut);
      BlockPaired(calls, cut);
      PairedConcat(Transcript(llm, n - 1, cut), [AssistantCalls(IDs(calls))] + Replies(calls, cut));
      assert Transcript(llm, n, cut)
          == Transcript(llm, n - 1, cut) + ([AssistantCalls(IDs(calls))] + Replies(calls, cut));
    }
  }

  // ---------------------------------------------------------------------------
  // The opening: system prompt, plan, history, and the user's input.
  // ---------------------------------------------------------------------------

  datatype ChatMessage = ChatMessage(fromUser: bool, content: string)

  predicate KeepInHistory(m: ChatMessage, input: string) {
    m.fromUser ==> m.content != input && !ConfirmText.IsConfirmCancelOnly(m.content)
  }

  function AsMessage(m: ChatMessage, compress: string -> string): Message {
    if m.fromUser then User(m.content) else Assistant(compress(m.content))
  }

  function History(chat: seq<ChatMessage>, input: string, compress: string -> string): seq<Message> {
    if chat == [] then []
    else
      var last := chat[|chat| - 1];
      History(chat[..|chat| - 1], input, compress)
        + if KeepInHistory(last, input) then [AsMessage(last, compress)] else []
  }

  function Opening(system: string, plan: string, chat: seq<ChatMessage>, input: string,
          compress: string -> string): seq<Message> {
    [System(system)] + (if plan == "" then [] else [System(plan)]) + History(chat, input, compress) + [User(input)]
  }

  method BuildOpening(system: string, plan: string, chat: seq<ChatMessage>, input: string, compress: string -> string)
    returns (messages: seq<Message>)
    ensures messages == Opening(system, plan, chat, input, compress)
  {
    var history := [];
    for i := 0 to |chat|
      invariant history == History(chat[..i], input, compress)
    {
      assert chat[..i + 1][..i] == chat[..i];
      var msg := chat[i];
      if msg.fromUser && msg.content == input {
        continue;
      }
      if msg.fromUser && ConfirmText.IsConfirmCancelOnly(msg.content) {
        continue;
      }
      var content := msg.content;
      if !msg.fromUser {
        content := compress(content);
      }
      history := history + [if msg.fromUser then User(content) else Assistant(content)];
    }
    assert chat[..|chat|] == chat;
    messages := [System(system)];
    if plan != "" {
      messages := messages + [System(plan)];
    }
    messages := messages + history;
    messages := messages + [User(input)];
  }

  lemma {:induction false} HistoryIsPlain(chat: seq<ChatMessage>, input: string, compress: string -> string)
    ensures forall m :: m in History(chat, input, compress) ==>
      && (m.User? || m.Assistant?)
      && (m.User? ==> m.content != input && !ConfirmText.IsConfirmCancelOnly(m.content))
  {
    if chat == [] {
    } else {
      HistoryIsPlain(chat[..|chat| - 1], input, compress);
    }
  }

  lemma {:induction false} PlainIsPaired(messages: seq<Message>)
    requires forall m :: m in messages ==> m.System? || m.User? || m.Assistant?
    ensures Paired(messages)
  {
    if messages == [] {
    } else {
      assert messages[0] in messages;
      PlainIsPaired(messages[1..]);
    }
  }

  /** The opening ends with the input, which appears nowhere else, and carries no bare confirm or cancel word. */
  lemma {:induction false} OpeningShape(system: string, plan: string, chat: seq<ChatMessage>, input: string,
          compress: string -> string)
    ensures var opening := Opening(system, plan, chat, input, compress);
      && Paired(opening)
      && opening[|opening| - 1] == User(input)
      && forall i :: 0 <= i < |opening| - 1 && opening[i].User? ==>
           opening[i].content != input && !ConfirmText.IsConfirmCancelOnly(opening[i].content)
  {
    var opening := Opening(system, plan, chat, input, compress);
    var history := History(chat, input, compress);
    HistoryIsPlain(chat, input, compress);
    PlainIsPaired(opening);
    forall i | 0 <= i < |opening| - 1 && opening[i].User?
      ensures opening[i] in history
    {
      var offset := if plan == "" then 1 else 2;
      assert opening[i] == history[i - offset];
    }
  }

  /** How many messages of the chat stay: all but the user's own input and the user's bare confirm and cancel words. */
  function StayCount(chat: seq<ChatMessage>, input: string): nat {
    if chat == [] then 0
    else
      var last := chat[|chat| - 1];
      StayCount(chat[..|chat| - 1], input)
        + if last.fromUser && (last.content == input || ConfirmText.IsConfirmCancelOnly(last.content)) then 0 else 1
  }

  predicate Stays(m: ChatMessage, input: string) {
    !m.fromUser || (m.content != input && !ConfirmText.IsConfirmCancelOnly(m.content))
  }

  lemma {:induction false} HistoryHolds(chat: seq<ChatMessage>, input: string, compress: string -> string, i: nat)
    requires i < |chat| && Stays(chat[i], input)
    ensures |History(chat, input, compress)| == StayCount(chat, input) > StayCount(chat[..i], input)
    ensures History(chat, input, compress)[StayCount(chat[..i], input)]
         == if chat[i].fromUser then User(chat[i].content) else Assistant(compress(chat[i].content))
  {
    var front := chat[..|chat| - 1];
    HistoryLength(front, input, compress);
    if i == |front| {
      assert chat[..i] == front;
    } else {
      assert front[..i] == chat[..i];
      HistoryHolds(front, input, compress, i);
    }
  }

  lemma {:induction false} HistoryLength(chat: seq<ChatMessage>, input: string, compress: string -> string)
    ensures |History(chat, input, compress)| == StayCount(chat, input)
  {
    if chat == [] {
    } else {
      HistoryLength(chat[..|chat| - 1], input, compress);
    }
  }

  /** The opening, message by message: the two prompts, then what stays of the chat, in order, then the input. */
  lemma {:induction false} OpeningHolds(system: string, plan: string, chat: seq<ChatMessage>, input: string,
          compress: string -> string, i: nat)
    requires i < |chat| && Stays(chat[i], input)
    ensures var opening := Opening(system, plan, chat, input, compress);
      var skip := if plan == "" then 1 else 2;
      && |opening| == skip + StayCount(chat, input) + 1
      && opening[0] == System(system) && (plan != "" ==> opening[1] == System(plan))
      && opening[|opening| - 1] == User(input)
      && StayCount(chat[..i], input) < StayCount(chat, input)
      && opening[skip + StayCount(chat[..i], input)]
         == if chat[i].fromUser then User(chat[i].content) else Assistant(compress(chat[i].content))
  {
    HistoryHolds(chat, input, compress, i);
  }

  // ---------------------------------------------------------------------------
  // The loop.
  // ---------------------------------------------------------------------------

  class AgentExecutor {
    const maxIterations: nat
    const maxConsecutiveFail: nat
    const cut: string -> string

    constructor (cut: string -> string)
      ensures maxIterations == 10 && maxConsecutiveFail == 3 && this.cut == cut
    {
      this.cut := cut;
      maxIterations := 10;
      maxConsecutiveFail := 3;
    }

    /** Runs one call. Only the handler's own success or failure moves the failure count. */
    method ExecuteTool(call: ToolCall, failures: nat) returns (result: ToolResult, failures': nat)
      ensures failures' ==
        if call.Effect().Succeeded? then 0 else if call.Effect().HandlerFailed? then failures + 1 else failures
      ensures result ==
        if call.Effect().Succeeded? then Output(call.Effect().output)
        else if call.Effect().AsksUser? then Interrupt(call.Effect().reply)
        else Error(call.Effect().error)
    {
      failures' := failures;
      if call.lookup.Missing? {
        return Error(call.lookup.error), failures;
      }
      if call.argsError.Some? {
        return Error(call.argsError.value), failures;
      }
      if call.lookup.needConfirm {
        result := AskUser(call);
        return result, failures;
      }
      match call.handler {
        case WantsConfirmation =>
          result := AskUser(call);
        case Fails(error) =>
          failures' := failures + 1;
          result := Error(error);
        case Returns(output) =>
          failures' := 0;
          result := Output(output);
      }
    }

    method AskUser(call: ToolCall) returns (result: ToolResult)
      ensures result == if call.ask.Replied? then Interrupt(call.ask.reply) else Error(call.ask.error)
    {
      match call.ask {
        case Replied(reply) => return Interrupt(reply);
        case Refused(error) => return Error(error);
      }
    }

    /**
     The calls of one response, in order, until all are run, the user must be asked, or the budget is used
     up; `n` is the number of calls run.
     */
    method RunCalls(calls: seq<ToolCall>, messages: seq<Message>, failures: nat, log: seq<CallEffect>)
      returns (ending: CallsEnding, messages': seq<Message>, failures': nat, log': seq<CallEffect>, ghost n: nat)
      requires WithinBudget(log, maxConsecutiveFail) && failures == Failures(log) < maxConsecutiveFail
      ensures n <= |calls| && log' == log + Effects(calls[..n]) && failures' == Failures(log')
      ensures ending.AllRun? ==> n == |calls| && messages' == messages + Replies(calls, cut)
      ensures ending.AllRun? ==> WithinBudget(log', maxConsecutiveFail) && failures' < maxConsecutiveFail
      ensures !ending.AllRun? ==> n > 0 && WithinBudget(log + Effects(calls[..n - 1]), maxConsecutiveFail)
      ensures ending.MustAsk? ==> calls[n - 1].Effect() == AsksUser(ending.reply) && failures' < maxConsecutiveFail
      ensures ending.BudgetUsed? ==>
        calls[n - 1].Effect() == HandlerFailed(ending.error) && failures' == maxConsecutiveFail
    {
      messages', failures', log' := messages, failures, log;
      n := 0;
      assert messages + Replies([], cut) == messages && log + Effects([]) == log;
      for j := 0 to |calls|
        invariant n == j
        invariant messages' == messages + Replies(calls[..j], cut)
        invariant log' == log + Effects(calls[..j])
        invariant failures' == Failures(log') < maxConsecutiveFail
        invariant WithinBudget(log', maxConsecutiveFail)
      {
        var result, f := ExecuteTool(calls[j], failures');
        CallLogged(log, calls, j);
        OneMoreCall(log', calls[j].Effect(), maxConsecutiveFail);
        log' := log' + [calls[j].Effect()];
        failures' := f;
        n := j + 1;
        if result.Interrupt? {
          return MustAsk(result.reply), messages', failures', log', n;
        }
        if result.Error? && failures' >= maxConsecutiveFail {
          return BudgetUsed(result.text), messages', failures', log', n;
        }
        var content := if result.Error? then ERROR_PREFIX + result.text else result.text;
        messages' := messages' + [ToolReply(calls[j].id, cut(content))];
        RepliesGrow(messages, calls, j, cut);
      }
      assert calls[..|calls|] == calls;
      return AllRun, messages', failures', log', n;
    }

    /** One iteration: ask the model, then act on its response; `outcome` is None when the loop goes on. */
    method Iterate(ghost opening: seq<Message>, llm: seq<Response>, i: nat, messages: seq<Message>, failures: nat,
            ghost sent: seq<seq<Message>>, log: seq<CallEffect>)
      returns (outcome: Option<Outcome>, messages': seq<Message>, failures': nat, log': seq<CallEffect>)
      requires i < |llm| && i < maxIterations
      requires messages == opening + Transcript(llm, i, cut)
      requires failures == Failures(log) < maxConsecutiveFail
      requires Underway(opening, llm, i, sent, log, maxConsecutiveFail, cut)
      ensures outcome.None? ==>
        && messages' == opening + Transcript(llm, i + 1, cut)
        && failures' == Failures(log') < maxConsecutiveFail
        && Underway(opening, llm, i + 1, sent + [messages], log', maxConsecutiveFail, cut)
      ensures sent + [messages] == Prompts(opening, llm, i + 1, cut) && AskedForTools(llm, i)
      ensures outcome.Some? ==> RunsInOrder(llm, i + 1, log') && BudgetKept(log', maxConsecutiveFail)
      ensures outcome.Some? ==> Meaning(outcome.value, llm, i + 1, log', maxIterations, maxConsecutiveFail)
    {
      messages', failures', log' := messages, failures, log;
      match llm[i] {
        case Unavailable(error) =>
          ReportAtOnce(opening, llm, i, sent, log, LLMFailed(error), maxIterations, maxConsecutiveFail, cut);
          outcome := Some(LLMFailed(error));
        case Stop(content) =>
          ReportAtOnce(opening, llm, i, sent, log, Answered(content), maxIterations, maxConsecutiveFail, cut);
          outcome := Some(Answered(content));
        case OtherFinish(reason) =>
          ReportAtOnce(opening, llm, i, sent, log, BadFinish(reason), maxIterations, maxConsecutiveFail, cut);
          outcome := Some(BadFinish(reason));
        case ToolCalls(calls) =>
          var ending;
          messages' := messages' + [AssistantCalls(IDs(calls))];
          ghost var n;
          ending, messages', failures', log', n := RunCalls(calls, messages', failures, log);
          match ending {
            case MustAsk(reply) =>
              ReportMidway(llm, i, log, n, log', WaitingForUser(reply), maxIterations, maxConsecutiveFail);
              outcome := Some(WaitingForUser(reply));
            case BudgetUsed(error) =>
              ReportMidway(llm, i, log, n, log', GaveUp(failures', error), maxIterations, maxConsecutiveFail);
              outcome := Some(GaveUp(failures', error));
            case AllRun =>
              assert calls[..n] == calls;
              UnderwayStep(opening, llm, i, sent, log, maxConsecutiveFail, cut);
              TranscriptStep(opening, llm, i, cut);
              outcome := None;
          }
      }
    }

    /**
     `llm` are the responses the model would give, at least as many as it can be asked for; `sent` are the
     message lists of the model calls, `log` the effects of the tool calls run, `episode` the record kept.
     */
    method Execute(opening: seq<Message>, llm: seq<Response>)
      returns (outcome: Outcome, sent: seq<seq<Message>>, log: seq<CallEffect>, episode: Option<EpisodeOutcome>)
      requires maxConsecutiveFail > 0 && |llm| >= maxIterations
      ensures |sent| <= maxIterations
      ensures sent == Prompts(opening, llm, |sent|, cut)
      ensures AskedForTools(llm, |sent| - 1)
      ensures RunsInOrder(llm, |sent|, log)
      ensures BudgetKept(log, maxConsecutiveFail)
      ensures Meaning(outcome, llm, |sent|, log, maxIterations, maxConsecutiveFail)
      ensures episode == EpisodeOf(outcome, log)
    {
      var messages := opening;
      var failures := 0;
      sent, log := [], [];
      for i := 0 to maxIterations
        invariant |sent| == i
        invariant messages == opening + Transcript(llm, i, cut)
        invariant failures == Failures(log) < maxConsecutiveFail
        invariant Underway(opening, llm, i, sent, log, maxConsecutiveFail, cut)
      {
        var ended, messages', failures', log' := Iterate(opening, llm, i, messages, failures, sent, log);
        sent := sent + [messages];
        messages, failures, log := messages', failures', log';
        if ended.Some? {
          return ended.value, sent, log, EpisodeOf(ended.value, log);
        }
      }
      ReportAtEnd(opening, llm, maxIterations, sent, log, maxConsecutiveFail, cut);
      return OutOfIterations, sent, log, None;
    }
  }

  /** The first n prompts: each time the opening and the whole transcript so far. */
  ghost function Prompts(opening: seq<Message>, llm: seq<Response>, n: nat, cut: string -> string): seq<seq<Message>>
    requires n <= |llm|
  {
    if n == 0 then [] else Prompts(opening, llm, n - 1, cut) + [opening + Transcript(llm, n - 1, cut)]
  }

  ghost predicate AskedForTools(llm: seq<Response>, n: int)
    requires n <= |llm|
  {
    forall k :: 0 <= k < n ==> llm[k].ToolCalls?
  }

  /** Every call of every earlier response was run, once and in order; of the last response, a prefix. */
  ghost predicate RunsInOrder(llm: seq<Response>, n: nat, log: seq<CallEffect>)
    requires n <= |llm|
  {
    if n == 0 then log == [] else AllEffects(llm, n - 1) <= log <= AllEffects(llm, n)
  }

  /** Before each call the failure budget was not used up and the user need not be asked. */
  ghost predicate BudgetKept(log: seq<CallEffect>, maxFail: nat) {
    WithinBudget(if log == [] then [] else log[..|log| - 1], maxFail)
  }

  /** After i responses, all asking for tools: what was sent and run so far. */
  ghost predicate Underway(opening: seq<Message>, llm: seq<Response>, i: nat, sent: seq<seq<Message>>,
          log: seq<CallEffect>, maxFail: nat, cut: string -> string)
    requires i <= |llm|
  {
    && sent == Prompts(opening, llm, i, cut) && |sent| == i
    && log == AllEffects(llm, i)
    && WithinBudget(log, maxFail)
    && AskedForTools(llm, i)
  }

  datatype CallsEnding = AllRun | MustAsk(reply: string) | BudgetUsed(error: string)

  /** Every call of the log was followed by another step: it neither asked the user nor used up the budget. */
  ghost predicate WithinBudget(log: seq<CallEffect>, max: nat) {
    log == [] || (WithinBudget(log[..|log| - 1], max) && !log[|log| - 1].AsksUser? && Failures(log) < max)
  }

  /** In terms of moments: after each of the calls the failure count was below the limit. */
  lemma {:induction false} WithinBudgetAtEveryMoment(log: seq<CallEffect>, max: nat, p: nat)
    requires WithinBudget(log, max) && p < |log|
    ensures !log[p].AsksUser? && Failures(log[..p + 1]) < max
  {
    if p == |log| - 1 {
      assert log[..p + 1] == log;
    } else {
      WithinBudgetAtEveryMoment(log[..|log| - 1], max, p);
      assert log[..|log| - 1][..p + 1] == log[..p + 1];
    }
  }

  predicate AnyError(log: seq<CallEffect>) {
    exists p :: 0 <= p < |log| && IsError(log[p])
  }

  function EpisodeOf(outcome: Outcome, log: seq<CallEffect>): Option<EpisodeOutcome> {
    match outcome
    case GaveUp(_, _) => Some(Failed)
    case Answered(_) => if log == [] then None else Some(if AnyError(log) then Partial else Success)
    case _ => None
  }

  /** When an episode is kept, and as what. */
  lemma {:induction false} EpisodeMeans(outcome: Outcome, log: seq<CallEffect>)
    ensures EpisodeOf(outcome, log) == Some(Failed) <==> outcome.GaveUp?
    ensures EpisodeOf(outcome, log) == Some(Success) <==>
      && outcome.Answered? && log != []
      && forall p :: 0 <= p < |log| ==> log[p].Succeeded? || log[p].AsksUser?
    ensures EpisodeOf(outcome, log) == Some(Partial) <==>
      outcome.Answered? && exists p :: 0 <= p < |log| && !log[p].Succeeded? && !log[p].AsksUser?
  {
    if p :| 0 <= p < |log| && !log[p].Succeeded? && !log[p].AsksUser? {
      assert IsError(log[p]);
    }
  }

  /** What each outcome says about the last model response and the last tool call. */
  ghost predicate Meaning(outcome: Outcome, llm: seq<Response>, n: nat, log: seq<CallEffect>, maxIterations: nat,
          maxFail: nat)
    requires n <= |llm|
  {
    match outcome
    case Answered(content) => n > 0 && llm[n - 1] == Stop(content) && log == AllEffects(llm, n - 1)
    case LLMFailed(error) => n > 0 && llm[n - 1] == Unavailable(error) && log == AllEffects(llm, n - 1)
    case BadFinish(reason) => n > 0 && llm[n - 1] == OtherFinish(reason) && log == AllEffects(llm, n - 1)
    case WaitingForUser(reply) =>
      n > 0 && llm[n - 1].ToolCalls? && log != [] && log[|log| - 1] == AsksUser(reply) && Failures(log) < maxFail
    case GaveUp(k, error) =>
      && n > 0 && llm[n - 1].ToolCalls? && log != [] && log[|log| - 1] == HandlerFailed(error)
      && k == Failures(log) == maxFail
    case OutOfIterations =>
      n == maxIterations && log == AllEffects(llm, n) && Failures(log) < maxFail && AskedForTools(llm, n)
  }

  lemma {:induction false} ReportAtOnce(opening: seq<Message>, llm: seq<Response>, i: nat, sent: seq<seq<Message>>,
          log: seq<CallEffect>, outcome: Outcome, maxIterations: nat, maxFail: nat, cut: string -> string)
    requires i < maxIterations && i < |llm| && Underway(opening, llm, i, sent, log, maxFail, cut)
    requires match llm[i]
      case Unavailable(error) => outcome == LLMFailed(error)
      case Stop(content) => outcome == Answered(content)
      case OtherFinish(reason) => outcome == BadFinish(reason)
      case ToolCalls(_) => false
    ensures RunsInOrder(llm, i + 1, log)
    ensures BudgetKept(log, maxFail)
    ensures Meaning(outcome, llm, i + 1, log, maxIterations, maxFail)
  {
  }

  /** The log after the n-th call of a response ends with that call. */
  lemma {:induction false} LogMidway(before: seq<CallEffect>, calls: seq<ToolCall>, n: nat, log: seq<CallEffect>)
    requires 0 < n <= |calls| && log == before + Effects(calls[..n])
    ensures log != [] && log[|log| - 1] == calls[n - 1].Effect()
    ensures log[..|log| - 1] == before + Effects(calls[..n - 1])
  {
    CallLogged(before, calls, n - 1);
  }

  lemma {:induction false} BudgetMidway(before: seq<CallEffect>, calls: seq<ToolCall>, n: nat, log: seq<CallEffect>,
          maxFail: nat)
    requires 0 < n <= |calls| && log == before + Effects(calls[..n])
    requires WithinBudget(before + Effects(calls[..n - 1]), maxFail)
    ensures BudgetKept(log, maxFail)
  {
    LogMidway(before, calls, n, log);
  }

  lemma {:induction false} OrderMidway(llm: seq<Response>, i: nat, before: seq<CallEffect>, n: nat)
    requires i < |llm| && before == AllEffects(llm, i) && llm[i].ToolCalls? && n <= |llm[i].calls|
    ensures RunsInOrder(llm, i + 1, before + Effects(llm[i].calls[..n]))
  {
    EffectsPrefix(llm[i].calls, n);
    PrefixUnder(before, Effects(llm[i].calls[..n]), Effects(llm[i].calls));
  }

  lemma {:induction false} MeaningMidway(outcome: Outcome, llm: seq<Response>, i: nat, log: seq<CallEffect>,
          maxIterations: nat, maxFail: nat)
    requires i < |llm| && llm[i].ToolCalls? && log != []
    requires match outcome
      case WaitingForUser(reply) => log[|log| - 1] == AsksUser(reply) && Failures(log) < maxFail
      case GaveUp(k, error) => log[|log| - 1] == HandlerFailed(error) && k == Failures(log) == maxFail
      case _ => false
    ensures Meaning(outcome, llm, i + 1, log, maxIterations, maxFail)
  {
  }

  lemma {:induction false} ReportMidway(llm: seq<Response>, i: nat, before: seq<CallEffect>, n: nat,
          log: seq<CallEffect>, outcome: Outcome, maxIterations: nat, maxFail: nat)
    requires i < |llm| && llm[i].ToolCalls? && 0 < n <= |llm[i].calls| && before == AllEffects(llm, i)
    requires log == before + Effects(llm[i].calls[..n])
    requires WithinBudget(before + Effects(llm[i].calls[..n - 1]), maxFail)
    requires match outcome
      case WaitingForUser(reply) => llm[i].calls[n - 1].Effect() == AsksUser(reply) && Failures(log) < maxFail
      case GaveUp(k, error) => llm[i].calls[n - 1].Effect() == HandlerFailed(error) && k == Failures(log) == maxFail
      case _ => false
    ensures RunsInOrder(llm, i + 1, log) && BudgetKept(log, maxFail)
    ensures Meaning(outcome, llm, i + 1, log, maxIterations, maxFail)
  {
    LogMidway(before, llm[i].calls, n, log);
    BudgetMidway(before, llm[i].calls, n, log, maxFail);
    OrderMidway(llm, i, before, n);
    MeaningMidway(outcome, llm, i, log, maxIterations, maxFail);
  }

  lemma {:induction false} PrefixUnder<T>(a: seq<T>, b: seq<T>, c: seq<T>)
    requires b <= c
    ensures a <= a + b <= a + c
  {
  }

  lemma {:induction false} Regroup<T>(a: seq<T>, b: seq<T>, x: T, c: seq<T>)
    ensures a + (b + [x] + c) == a + b + [x] + c
  {
  }

  lemma {:induction false} TranscriptStep(opening: seq<Message>, llm: seq<Response>, i: nat, cut: string -> string)
    requires i < |llm| && llm[i].ToolCalls?
    ensures opening + Transcript(llm, i + 1, cut)
         == opening + Transcript(llm, i, cut) + [AssistantCalls(IDs(llm[i].calls))] + Replies(llm[i].calls, cut)
  {
    Regroup(opening, Transcript(llm, i, cut), AssistantCalls(IDs(llm[i].calls)), Replies(llm[i].calls, cut));
  }

  lemma {:induction false} UnderwayStep(opening: seq<Message>, llm: seq<Response>, i: nat, sent: seq<seq<Message>>,
          log: seq<CallEffect>, maxFail: nat, cut: string -> string)
    requires i < |llm| && Underway(opening, llm, i, sent, log, maxFail, cut) && llm[i].ToolCalls?
    requires WithinBudget(log + Effects(llm[i].calls), maxFail)
    ensures Underway(opening, llm, i + 1, sent + [opening + Transcript(llm, i, cut)], log + Effects(llm[i].calls),
                     maxFail, cut)
  {
  }

  lemma {:induction false} ReportAtEnd(opening: seq<Message>, llm: seq<Response>, n: nat, sent: seq<seq<Message>>,
          log: seq<CallEffect>, maxFail: nat, cut: string -> string)
    requires n <= |llm| && Underway(opening, llm, n, sent, log, maxFail, cut) && Failures(log) < maxFail
    ensures RunsInOrder(llm, n, log)
    ensures BudgetKept(log, maxFail)
    ensures Meaning(OutOfIterations, llm, n, log, n, maxFail)
  {
    if n > 0 {
      assert AllEffects(llm, n) == AllEffects(llm, n - 1) + Effects(CallsOf(llm[n - 1]));
    }
  }

  lemma {:induction false} CallLogged(log: seq<CallEffect>, calls: seq<ToolCall>, j: nat)
    requires j < |calls|
    ensures log + Effects(calls[..j + 1]) == log + Effects(calls[..j]) + [calls[j].Effect()]
  {
    assert calls[..j + 1][..j] == calls[..j];
  }

  lemma {:induction false} RepliesGrow(messages: seq<Message>, calls: seq<ToolCall>, j: nat, cut: string -> string)
    requires j < |calls|
    ensures messages + Replies(calls[..j + 1], cut) == messages + Replies(calls[..j], cut) + [ReplyTo(calls[j], cut)]
  {
    assert calls[..j + 1][..j] == calls[..j];
  }

  lemma {:induction false} OneMoreCall(log: seq<CallEffect>, effect: CallEffect, max: nat)
    requires WithinBudget(log, max)
    ensures Failures(log + [effect]) ==
      if effect.Succeeded? then 0 else if effect.HandlerFailed? then Failures(log) + 1 else Failures(log)
    ensures WithinBudget(log + [effect], max) <==> !effect.AsksUser? && Failures(log + [effect]) < max
  {
    assert (log + [effect])[..|log|] == log;
  }

  lemma {:induction false} EffectsPrefix(calls: seq<ToolCall>, j: nat)
    requires j <= |calls|
    ensures Effects(calls[..j]) <= Effects(calls)
    decreases |calls|
  {
    if j == |calls| {
      assert calls[..j] == calls;
    } else {
      assert calls[..|calls| - 1][..j] == calls[..j];
      EffectsPrefix(calls[..|calls| - 1], j);
    }
  }

  lemma {:induction false} PromptAt(opening: seq<Message>, llm: seq<Response>, n: nat, m: nat, cut: string -> string)
    requires m < n <= |llm|
    ensures |Prompts(opening, llm, n, cut)| == n
    ensures Prompts(opening, llm, n, cut)[m] == opening + Transcript(llm, m, cut)
  {
    if n > 1 {
      PromptAt(opening, llm, n - 1, if m < n - 1 then m else 0, cut);
    }
  }

  /** At every model call, each assistant message with tool calls is followed by exactly its replies. */
  lemma {:induction false} EveryPromptIsPaired(opening: seq<Message>, llm: seq<Response>, n: nat, k: nat,
          cut: string -> string)
    requires k < n <= |llm| && Paired(opening)
    ensures |Prompts(opening, llm, n, cut)| == n && Paired(Prompts(opening, llm, n, cut)[k])
  {
    PromptAt(opening, llm, n, k, cut);
    TranscriptPaired(llm, k, cut);
    PairedConcat(opening, Transcript(llm, k, cut));
  }

  /**
   A call moves the count exactly by the handler the loop itself runs: back to zero if it succeeds, up by one if
   it fails, and not at all if it asks for confirmation or was never reached.
   */
  lemma {:induction false} OnlyHandlersCount(log: seq<CallEffect>, call: ToolCall)
    ensures Failures(log + [call.Effect()]) ==
      if call.RunsHandler() && call.handler.Returns? then 0
      else if call.RunsHandler() && call.handler.Fails? then Failures(log) + 1
      else Failures(log)
  {
    assert (log + [call.Effect()])[..|log|] == log;
  }

  // ---------------------------------------------------------------------------
  // What a call comes to, and what the model is told about it.
  // ---------------------------------------------------------------------------

  /** A known tool whose arguments decode. */
  predicate Understood(call: ToolCall) {
    call.lookup.Found? && call.argsError.None?
  }

  /** The user is to be asked first: the tool says so, or its handler does. */
  predicate WantsUser(call: ToolCall) {
    Understood(call) && (call.lookup.needConfirm || call.handler.WantsConfirmation?)
  }

  /** Each effect, by what the registry, the decoder, the handler and the question made of the call. */
  lemma {:induction false} EffectMeans(call: ToolCall)
    ensures call.Effect().UnknownTool? <==> call.lookup.Missing?
    ensures call.lookup.Missing? ==> call.Effect().error == call.lookup.error
    ensures call.Effect().BadArguments? <==> call.lookup.Found? && call.argsError.Some?
    ensures call.Effect().BadArguments? ==> call.Effect().error == call.argsError.value
    ensures call.Effect().AsksUser? <==> WantsUser(call) && call.ask.Replied?
    ensures call.Effect().AsksUser? ==> call.Effect().reply == call.ask.reply
    ensures call.Effect().CannotAsk? <==> WantsUser(call) && call.ask.Refused?
    ensures call.Effect().CannotAsk? ==> call.Effect().error == call.ask.error
    ensures call.Effect().Succeeded? <==> Understood(call) && !call.lookup.needConfirm && call.handler.Returns?
    ensures call.Effect().Succeeded? ==> call.Effect().output == call.handler.output
    ensures call.Effect().HandlerFailed? <==> Understood(call) && !call.lookup.needConfirm && call.handler.Fails?
    ensures call.Effect().HandlerFailed? ==> call.Effect().error == call.handler.error
  {
  }

  /** The error of the first stage of a call that failed, if any did. */
  function FirstError(call: ToolCall): Option<string> {
    if call.lookup.Missing? then Some(call.lookup.error)
    else if call.argsError.Some? then call.argsError
    else if call.lookup.needConfirm || call.handler.WantsConfirmation? then
      if call.ask.Refused? then Some(call.ask.error) else None
    else if call.handler.Fails? then Some(call.handler.error)
    else None
  }

  lemma {:induction false} ReplySays(call: ToolCall, cut: string -> string)
    ensures Understood(call) && !call.lookup.needConfirm && call.handler.Returns? ==>
      FirstError(call).None? && ReplyTo(call, cut) == ToolReply(call.id, cut(call.handler.output))
    ensures FirstError(call).Some? ==>
      ReplyTo(call, cut) == ToolReply(call.id, cut("❌ 工具执行失败: " + FirstError(call).value))
  {
  }

  lemma {:induction false} BlockAt(before: seq<Message>, after: seq<Message>, calls: seq<ToolCall>, k: nat,
          cut: string -> string)
    requires k < |calls| && after == before + [AssistantCalls(IDs(calls))] + Replies(calls, cut)
    ensures |before| + 1 + k < |after| && after[|before|] == AssistantCalls(IDs(calls))
    ensures after[|before| + 1 + k] == ReplyTo(calls[k], cut)
  {
    ReplyAt(calls, k, cut);
  }

  lemma {:induction false} BlockIn(before: seq<Message>, after: seq<Message>, whole: seq<Message>,
          calls: seq<ToolCall>, k: nat, cut: string -> string)
    requires k < |calls| && after == before + [AssistantCalls(IDs(calls))] + Replies(calls, cut) && after <= whole
    ensures |before| + 1 + k < |whole| && whole[|before|] == AssistantCalls(IDs(calls))
    ensures whole[|before| + 1 + k] == ReplyTo(calls[k], cut)
  {
    BlockAt(before, after, calls, k, cut);
  }

  lemma {:induction false} Extends<T>(a: seq<T>, b: seq<T>, c: seq<T>)
    ensures a <= a + b + c
  {
  }

  lemma {:induction false} TranscriptPrefix(llm: seq<Response>, r: nat, n: nat, cut: string -> string)
    requires r <= n <= |llm|
    ensures Transcript(llm, r, cut) <= Transcript(llm, n, cut)
    decreases n
  {
    if r == n {
    } else {
      TranscriptPrefix(llm, r, n - 1, cut);
      var calls := CallsOf(llm[n - 1]);
      Extends(Transcript(llm, n - 1, cut), [AssistantCalls(IDs(calls))], Replies(calls, cut));
    }
  }

  /** Where the k-th reply to the r-th response stands. */
  lemma {:induction false} TranscriptHolds(llm: seq<Response>, n: nat, r: nat, k: nat, cut: string -> string)
    requires r < n <= |llm| && k < |CallsOf(llm[r])|
    ensures var start := |Transcript(llm, r, cut)|;
      && start + 1 + k < |Transcript(llm, n, cut)|
      && Transcript(llm, n, cut)[start] == AssistantCalls(IDs(CallsOf(llm[r])))
      && Transcript(llm, n, cut)[start + 1 + k] == ReplyTo(CallsOf(llm[r])[k], cut)
  {
    TranscriptPrefix(llm, r + 1, n, cut);
    BlockIn(Transcript(llm, r, cut), Transcript(llm, r + 1, cut), Transcript(llm, n, cut), CallsOf(llm[r]), k, cut);
  }

  /**
   What the model is told: in every later prompt, after its r-th response, the reply to the k-th call is the
   handler's output if the tool was found, its arguments decoded, no confirmation was needed and the handler
   returned; and otherwise the first error, marked as one. Either is cut short.
   */
  lemma {:induction false} PromptTells(opening: seq<Message>, llm: seq<Response>, n: nat, m: nat, r: nat, k: nat,
          cut: string -> string)
    requires r < m < n <= |llm| && k < |CallsOf(llm[r])|
    ensures var prompts, call := Prompts(opening, llm, n, cut), CallsOf(llm[r])[k];
      var at := |opening| + |Transcript(llm, r, cut)| + 1 + k;
      && m < |prompts| && at < |prompts[m]|
      && (Understood(call) && !call.lookup.needConfirm && call.handler.Returns? ==>
            prompts[m][at] == ToolReply(call.id, cut(call.handler.output)))
      && (FirstError(call).Some? ==>
            prompts[m][at] == ToolReply(call.id, cut("❌ 工具执行失败: " + FirstError(call).value)))
  {
    PromptAt(opening, llm, n, m, cut);
    TranscriptHolds(llm, m, r, k, cut);
    ReplySays(CallsOf(llm[r])[k], cut);
  }

  /** A model that only ever names unknown tools or sends bad arguments is never stopped early. */
  lemma {:induction false} NonHandlerErrorsNeverCount(log: seq<CallEffect>)
    requires forall p :: 0 <= p < |log| ==> log[p].UnknownTool? || log[p].BadArguments? || log[p].CannotAsk?
    ensures Failures(log) == 0
  {
    if log == [] {
    } else {
      NonHandlerErrorsNeverCount(log[..|log| - 1]);
    }
  }
}
