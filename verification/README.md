# ServerOwl: a verified model of its stateful kernels

ServerOwl runs operations work through a cluster of masters and edge agents and an LLM-driven assistant.
These Dafny files model the parts of it that keep state, and prove what that state guarantees over whole
runs. `dafny verify dfyconfig.toml` checks everything.

| file | subject |
|---|---|
| `AgentRegistry.dfy`, `MasterCluster.dfy`, `ClusterConvergence.dfy` | agent records of one master; its methods; n masters merging each other's possibly stale listings |
| `CommandQueue.dfy` | per-agent command queues: accepted, delivered, expired |
| `ConfirmText.dfy`, `PendingActions.dfy`, `ConfirmProtocol.dfy` | reading "confirm/cancel" texts, the pending_actions table, asking and answering |
| `ConfirmRaces.dfy`, `SettledRaces.dfy`, `QuestionRaces.dfy` | questions and answers handled at the same time, read by read and write by write: which handlers run, which statuses stay, how many actions wait |
| `ReActLoop.dfy`, `GuardedTools.dfy` | the loop of model calls and tool calls, its transcript and its failure budget; tools that need confirmation |
| `Statistics.dfy`, `TimeWindows.dfy`, `AnomalyDetector.dfy`, `AnomalyReports.dfy`, `Percentile.dfy` | window counts, mean and deviation, the detections, what they report, percentiles |
| `WSHub.dfy` | the registry of agent connections |
| `SkillExecutor.dfy`, `SkillOutcomes.dfy` | the skill interpreter with retries and nested skills; its outcomes in terms of the world's answers |
| `ForgetGate.dfy` | scoring and evicting episodes |
| `EventBuffer.dfy`, `RuleEngine.dfy`, `RuleFirings.dfy` | the edge agent's event buffer, its rules, their cooldowns and firings |
| `WecomFrame.dfy` | the plaintext frame of WeCom messages and padding (section 6.3 of RFC 5652) |
| `Workflow.dfy` | workflow steps and their dependencies |
| `Clock.dfy`, `Sequences.dfy`, `Wrappers.dfy` | instants; subsequences; `Option` |

Each module has the same shape. Specification functions on values say what an operation computes; a class
with the source's fields, or a method with the source's loops, is proved to compute exactly that; and lemmas
prove properties of the specification, for all inputs and all runs. For each operation some lemma says what
it does without the functions that compute it, field by field and word by word. What lies outside (clocks,
the model, tools, databases refusing writes, map iteration order) is an arbitrary input.

Concurrency is modelled by interleaving: runs are arbitrary sequences of steps. Where the source holds a lock,
a step is one critical section, and classes model the state between two of them. Questions and answers hold
none: `ConfirmProtocol` takes each as one step, handled one after the other, and `ConfirmRaces` splits them
into their reads, writes and handler runs.

Every lemma carries `{:induction false}`: each proof is written out, none relies on guessed induction.

## Where the code departs from its own words

- A full rule-event channel drops the new event, although the comment at `internal/agent-node/rule_engine.go:120` says the old one.
- The hub reports a disconnect also for a connection that was replaced (`internal/cluster/ws_hub.go:81-83`): `DisconnectReportedWhileConnected` says exactly when that is wrong.
- `continue` at `internal/scheduler/workflow.go:97` moves on to the next dependency only: a step with a failed dependency gets a skip entry and runs.
- A nested skill resets the variables and outputs it shares with the skill that runs it (`internal/skills/executor.go:57-58`).
- `Cleanup` reports the excess even if fewer rows could be evicted (`internal/memory/forget.go:206`).
- Errors of the status writes of an answer are ignored (`internal/agent/executor.go:513-545`): `RerunIffBothWritesLost` and `CancelHoldsIffStored` say exactly what that costs. `ConfirmSafety` therefore asks that one of the writes of each answer is stored.
- The two expiry tests differ by the instant of expiry itself (`internal/memory/manager.go:263` and `internal/agent/executor.go:512`): `ExpiryInstant`; when the bare word and the id agree is `BareWordMeansIdIffNewest`.
- A batch of events is lost, not put back, if the request cannot be built (`internal/agent-node/agent.go:520-523`).
- Some texts are kept in the history as ordinary text and still acted upon, since the parser (`internal/agent/executor.go:573-638`) and the filter (`internal/agent/executor.go:645-662`) list different words: `ActedUponYetKeptIff` says exactly which.
- Answering and asking hold no lock between the lookup, the status writes, the handler and the insert (`internal/agent/executor.go:401-546`), and messages are handled concurrently: a handler runs twice exactly if two confirmations look first (`RunsTwiceIffTwoLookFirst`), a stored status is replaced exactly if two answers that store one look first (`ReplacedIffTwoLookFirst`), and a second action waits for one session and user exactly if a question inserts while another waits (`OneLiveIffNoneBeside`).
- A lookup that fails counts as nothing waiting when a question is asked (`internal/agent/executor.go:413`): `AskingKeepsOneWaitingIff`.

## Model

| member | source | states |
|---|---|---|
| AgentRegistry.MergeTakesNewest | internal/cluster/master_cluster.go:698-707 | after merging any listing, stale or repeated, a master holds for each agent the newer of its own heartbeat and the newest one listed |
| AgentRegistry.MergeStoresWhole | internal/cluster/master_cluster.go:702-706 | a stored record is one the master already had or one that was listed, never a mixture |
| AgentRegistry.MergeReplacesIffNewer | internal/cluster/master_cluster.go:698-707 | a stored record is replaced if and only if a newer one is listed, and then by one with the newest listed heartbeat; on a tie the master keeps its own |
| AgentRegistry.ListingBeats | internal/cluster/master_cluster.go:491-501 | the listing a master serves carries exactly its own agents and heartbeats |
| AgentRegistry.PullTakesNewest | internal/cluster/master_cluster.go:680-708 | pulling a peer's listing gives the pointwise newer of both masters' heartbeats |
| AgentRegistry.HealthCheckMarksOverdue | internal/cluster/master_cluster.go:603-617 | a health check changes the status only, to offline exactly for online agents silent for over 60 s, and repeating it changes nothing |
| AgentRegistry.HeartbeatStores | internal/cluster/master_cluster.go:231-265 | after a heartbeat the record holds, field by field, the reported status, host, address, tags and labels, the current instant, the metrics if sent; identity, environment and registration are kept, or those of a fresh record; every other record is untouched |
| AgentRegistry.HeartbeatSurvivesRemovalIff | internal/cluster/master_cluster.go:257-257 | an agent that just reported survives the removal of offline agents if and only if it did not report itself offline |
| AgentRegistry.EnvironmentStores | internal/cluster/master_cluster.go:307-325 | an environment report changes the environment only, or makes an online record with host and address and no heartbeat |
| AgentRegistry.SocketStores | internal/cluster/ws_server.go:50-281 | a socket heartbeat sets status and instant, socket metrics set metrics and instant, opening and closing set the status alone |
| AgentRegistry.SocketIgnoresUnknown | internal/cluster/ws_server.go:50-281 | socket messages of an unknown agent change nothing |
| AgentRegistry.RemovalTakesOffline | internal/cluster/master_cluster.go:529-541 | removal takes exactly the records whose status is offline |
| AgentRegistry.RemovalIsUndoneByAPull | internal/cluster/master_cluster.go:529-541 | removing offline agents is local: the next pull brings one back exactly when the peer still lists it |
| MasterCluster.MasterCluster.HandleHeartbeat | internal/cluster/master_cluster.go:231-276 | the record gets the reported fields and the current instant, metrics only if sent; the whole queue of that agent is handed over and emptied, other queues are untouched |
| MasterCluster.MasterCluster.HandleAgentEnvironment | internal/cluster/master_cluster.go:307-325 | stores the environment, creating an online record without a heartbeat for an unknown agent |
| MasterCluster.MasterCluster.HandleAgentEvents | internal/cluster/master_cluster.go:286-304 | appends the events under the agent's id and keeps the newest 10000 overall |
| MasterCluster.EventsKept | internal/cluster/master_cluster.go:286-304 | what is kept is the newest 10000 of all events in order, the incoming ones last and under the agent's id |
| MasterCluster.ResultsKept | internal/cluster/master_cluster.go:745-751 | a command result is kept exactly for an hour |
| MasterCluster.MasterCluster.SendCommand | internal/cluster/master_cluster.go:354-380 | an unknown agent is refused and nothing changes; otherwise the command is appended with a five-minute expiry |
| MasterCluster.MasterCluster.RemoveOfflineAgents | internal/cluster/master_cluster.go:529-541 | removes exactly the offline records and reports how many went |
| MasterCluster.MasterCluster.CheckAgentHealth | internal/cluster/master_cluster.go:603-617 | the loop over the map in any order computes the health check |
| MasterCluster.MasterCluster.MergeAgentsFromPeer | internal/cluster/master_cluster.go:698-707 | the loop over the listing computes the merge |
| MasterCluster.MasterCluster.FilterLive | internal/cluster/master_cluster.go:736-741 | keeps exactly the commands expiring later than now, in order |
| MasterCluster.MasterCluster.CleanupExpiredCommands | internal/cluster/master_cluster.go:728-751 | every queue keeps its live commands; exactly the results older than an hour are dropped |
| ClusterConvergence.StepKeepsInv | internal/cluster/master_cluster.go:231-325 | no stored or travelling heartbeat lies in the future, after any step |
| ClusterConvergence.StepMonotone | internal/cluster/master_cluster.go:529-541 | a step lowers or forgets a stored heartbeat if and only if it is RemoveOfflineAgents at that master and the record is offline |
| ClusterConvergence.RunMonotone | internal/cluster/master_cluster.go:698-707 | over every run without removals no master forgets an agent or steps back to an older heartbeat |
| ClusterConvergence.RunKeepsNothingRevives | internal/cluster/master_cluster.go:680-708 | without removals, no listing on its way is newer than what some master holds |
| ClusterConvergence.QuietStepKeepsNewest | internal/cluster/master_cluster.go:698-707 | merging even a stale listing leaves the cluster-wide newest heartbeat unchanged |
| ClusterConvergence.EndsWithNewestReached | internal/cluster/master_cluster.go:637-708 | after any quiet run from any world, whatever was delayed, reordered or lost, each master holds for every agent exactly the newest heartbeat of the masters and listings from which a chain of pulls, each served after the one before was merged, leads to it |
| ClusterConvergence.PulledIsReached | internal/cluster/master_cluster.go:637-708 | a direct pull, served and merged in the run, is such a chain |
| ClusterConvergence.MastersConverge | internal/cluster/master_cluster.go:637-708 | so after any quiet run in which every pair exchanged a listing, in any order and with any delays and losses, each master holds for every agent the newest heartbeat any master held at the start |
| ClusterConvergence.MastersAgree | internal/cluster/master_cluster.go:637-708 | after such a run all masters have the same agent ids and heartbeats |
| ClusterConvergence.ConvergenceAfterAnyHistory | internal/cluster/master_cluster.go:637-708 | the same after any earlier history without removals |
| ClusterConvergence.MergeAndNewest | internal/cluster/master_cluster.go:698-707 | in every world, after whatever history, a merge brings the cluster-wide newest heartbeat to the newer of itself and the listed one; so it is unchanged if and only if the listing is not ahead of all masters |
| ClusterConvergence.RoundExists | internal/cluster/master_cluster.go:637-708 | from every reachable world there is a quiet run in which every master pulls from every other, for any number of masters |
| ClusterConvergence.StaleListingRevivesRemovedAgent | internal/cluster/master_cluster.go:698-707 | why removals are excluded: with any number of masters, a listing served before a removal revives an agent no master holds any more |
| CommandQueue.RunConserves | internal/cluster/master_cluster.go:354-380 | over every run, accepted commands are as multisets the delivered, queued and expired ones, delivered followed by queued is an in-order subsequence of what was sent, and all are addressed to the agent |
| CommandQueue.ExactlyOnePlace | internal/cluster/master_cluster.go:269-275 | a command accepted once is at every moment in exactly one place, of its own agent only |
| CommandQueue.ExpiryRemovesPrefix | internal/cluster/master_cluster.go:734-743 | on a queue in expiry order the expired commands are a prefix and the live ones the rest |
| CommandQueue.TimedQueue | internal/cluster/master_cluster.go:363-377 | with atomic sends on one clock each queue is in expiry order and free of what the last cleanup had to drop |
| CommandQueue.CleanupDropsPrefix | internal/cluster/master_cluster.go:734-743 | in such a run each cleanup removes exactly a prefix of each queue: the expired commands and no others |
| CommandQueue.DeliveredOverdueLessThanCleanupGap | internal/cluster/master_cluster.go:269-275 | a delivered command may be overdue, but by less than the time since the last cleanup |
| CommandQueue.NoneExpiredIffHeadLive | internal/cluster/master_cluster.go:269-275 | in a timed run a heartbeat receives no expired command if and only if the queue is empty or its head has not expired |
| CommandQueue.ExpiredCommandCanBeDelivered | internal/cluster/master_cluster.go:269-275 | the other case occurs: a timed run in which an expired command is delivered |
| CommandQueue.PrefixIffSorted | internal/cluster/master_cluster.go:734-743 | cleanups at every instant remove exactly a prefix of a queue if and only if it is in expiry order |
| CommandQueue.RacingSendsBreakThePrefix | internal/cluster/master_cluster.go:363-377 | any two commands appended in the opposite order of their expiries make a run whose queue is out of order, and a cleanup removes the one behind the live one |
| ConfirmText.ParseConfirmCancel | internal/agent/executor.go:573-638 | the parser, building the id digit by digit, computes Parse, whose meaning the next rows state |
| ConfirmText.CommandMeans | internal/agent/executor.go:573-614 | a text confirms if and only if, trimmed, it is y, yes or ok in any case or one of four characters, or its first word is one of four, or it begins with the printed word for confirming; it cancels if and only if it is n or no in any case or one of two characters, or its first word is one of four, or it begins with the printed word for cancelling; never both |
| ConfirmText.ReplyRoundTrip | internal/agent/executor.go:448-448 | the printed reply, with or without the space, with noise around the id, white space around it and words after it, is read as that command and id |
| ConfirmText.EightDigitsFit | internal/agent/executor.go:452-460 | printed ids pass the integer check |
| ConfirmText.OnlyMeansParsed | internal/agent/executor.go:645-662 | every text IsConfirmCancelOnly accepts is accepted by the parser |
| ConfirmText.ActedUponYetKeptIff | internal/agent/executor.go:573-662 | a text is acted upon and still kept in the history as ordinary text if and only if, trimmed, it is one of three one-character words, or begins with one of the two command words and is longer than 24 characters, or is no short word, begins with neither and has one of eight other command words as its first |
| ConfirmText.LongSentenceIsStillACommand | internal/agent/executor.go:625-660 | a sentence of more than 24 characters that begins with one of the two command words is read as a command, and as the bare command if it has no digit |
| ConfirmText.TrimIdempotent | internal/agent/executor.go:575-578 | trimming twice is trimming once, so the caller's own trim changes nothing |
| PendingActions.LatestIsNewestLive | internal/memory/manager.go:257-275 | the latest pending action is a live row of that session and user, none newer; there is none exactly if nothing is live |
| PendingActions.LatestIsPending | internal/memory/manager.go:257-275 | that row is pending, of that session and user, and its expiry lies after now; there is none exactly if no row is such |
| PendingActions.FindUnique | internal/memory/manager.go:240-255 | with unique ids, looking up a row's id finds that row |
| PendingActions.MemoryManager.CreatePendingAction | internal/memory/manager.go:232-238 | inserts the row; a clash of ids or a refused write changes nothing |
| PendingActions.MemoryManager.GetPendingAction | internal/memory/manager.go:240-255 | the row with that id, or none |
| PendingActions.MemoryManager.GetLatestPendingAction | internal/memory/manager.go:257-275 | the scan finds the newest live row |
| PendingActions.MemoryManager.UpdatePendingActionStatus | internal/memory/manager.go:277-282 | changes status and message of the row with that id and nothing else; a refused write changes nothing |
| ConfirmProtocol.ConfirmExecutor.CreatePendingAndReply | internal/agent/executor.go:401-450 | one new row with a ten-minute expiry unless one is found waiting for that session and user, which is then named instead; a failed lookup counts as none |
| ConfirmProtocol.ConfirmExecutor.TryHandleConfirmCancel | internal/agent/executor.go:463-545 | answer, status writes and handler run are those of Decide on the stored rows, failed reads and a process dying in the handler included |
| ConfirmProtocol.ConfirmExecutor.HandleByID | internal/agent/executor.go:495-522 | the part after the id is known |
| ConfirmProtocol.ConfirmExecutor.Confirm | internal/agent/executor.go:523-546 | the part after the action was found pending and in time |
| ConfirmProtocol.WritesFollowEdges | internal/agent/executor.go:509-546 | statuses only move pending to confirmed to executed or failed, or pending to cancelled or expired |
| ConfirmProtocol.RanOnlyIfAllowed | internal/agent/executor.go:506-539 | a handler runs only for a text that says yes and not no, by the row's own session and user, while pending and not past its expiry |
| ConfirmProtocol.DroppedOnlyIfSaid | internal/agent/executor.go:473-520 | an action is dropped only for a text that says no; a text that says neither does nothing at all, exactly then |
| ConfirmProtocol.AnswerMeans | internal/agent/executor.go:495-520 | what the user is told about an action: the first of unreadable, unknown, not theirs, already handled, expired that applies, and else what was done |
| ConfirmProtocol.ActionEndsAs | internal/agent/executor.go:509-546 | with its writes stored, an answer leaves a pending action expired, cancelled, executed if and only if the handler succeeded, failed with the handler's message if and only if it broke, or failed because no handler could run; one that was not pending stays as it was |
| ConfirmProtocol.QuestionStores | internal/agent/executor.go:401-450 | a stored question holds what was asked, the asker's names or the default ones, and expires after 600 seconds; it is stored if and only if none was found waiting and the insert succeeds |
| ConfirmProtocol.StepKeepsInv | internal/agent/executor.go:401-545 | each question and each answer keeps: unique well-formed rows, and every handler run tied to one row past pending |
| ConfirmProtocol.AskingKeepsOneWaitingIff | internal/agent/executor.go:412-416 | a question keeps at most one action waiting per session and user if and only if it is not stored, after a failed lookup, beside a waiting one |
| ConfirmProtocol.ConfirmSafety | internal/agent/executor.go:401-546 | over every orderly run of questions and answers handled one after the other: no action's handler runs twice, only for its own session and user, never past expiry, never for a row cancelled or expired; and at most one row per session and user is pending with time left, unless a failed lookup let a question in beside it |
| ConfirmProtocol.SettledForever | internal/agent/executor.go:509-511 | a cancelled, expired, executed or failed row is never changed again by any later history |
| ConfirmProtocol.BareWordMeansPrintedReply | internal/agent/executor.go:480-493 | for the newest waiting action, the bare word and both printed replies decide exactly the same |
| ConfirmProtocol.BareWordMeansIdIffNewest | internal/agent/executor.go:480-515 | for every row of every reachable table, the bare word does what the row's id does if and only if the row is the newest waiting one and was read, or both answers fail on a read |
| ConfirmProtocol.BareWordMeansIdIffLive | internal/agent/executor.go:480-515 | with working reads and no question stored beside another: if and only if the row is waiting |
| ConfirmProtocol.PrintedReplyParses | internal/agent/executor.go:448-448 | the two printed forms are read back as command and id |
| ConfirmProtocol.RerunIffBothWritesLost | internal/agent/executor.go:523-546 | write errors are ignored: repeating a confirmation runs the handler again if and only if the first status write was lost and the second was lost too, or never tried because the process died inside the handler |
| ConfirmProtocol.CancelHoldsIffStored | internal/agent/executor.go:517-520 | a cancelled action can still be confirmed if and only if the cancelling write was lost |
| ConfirmProtocol.EmptySessionNeverAnswers | internal/agent/executor.go:405-410 | actions are filed under default names, but a message with an empty session or user never reaches any action |
| ConfirmProtocol.AskerReachesIffNamed | internal/agent/executor.go:405-508 | an answer in time under the names the question was asked with reaches the action if and only if neither name was empty |
| ConfirmProtocol.ExpiryInstant | internal/agent/executor.go:512-515 | at the very instant of expiry the explicit id still runs the action although the bare word no longer finds it |
| ConfirmRaces.StepKeepsInv | internal/agent/executor.go:401-546 | with each of the two reads of an answer, each status write, handler run, lookup and insert a step of its own, in any interleaving: a row is pending exactly until the first stored status write, and whoever decided to write one looked before that |
| ConfirmRaces.RunsAreDecided | internal/agent/executor.go:523-539 | in every interleaving, every handler run is that of one answer that decided on it at its lookup |
| ConfirmRaces.DecidesIffUnwritten | internal/agent/executor.go:495-539 | an answer decides to write a status if and only if the row it looked up is its own user's and no status write of it has been stored yet, and to run the handler if and only if it is moreover an intact confirmation in time |
| ConfirmRaces.RunsIffOneLooksFirst | internal/agent/executor.go:463-546 | once all answers of an interleaving are over, a handler has run, whatever else was answered, a stored cancel included, if and only if a confirmation looked the row up before the first of its status writes was stored |
| ConfirmRaces.RunsTwiceIffTwoLookFirst | internal/agent/executor.go:463-546 | likewise it has run twice or more if and only if two confirmations did |
| ConfirmRaces.BothRun | internal/agent/executor.go:496-539 | any two confirmations of a waiting row handled at once both decide to run its handler |
| ConfirmRaces.AloneIsOneStep | internal/agent/executor.go:463-546 | an answer nothing interrupts does what the one step of ConfirmProtocol does |
| ConfirmRaces.UnderstoodAsSaid | internal/agent/executor.go:473-493 | what an interleaved answer asks for is what its text says |
| SettledRaces.OnlyEarlierLookupsChange | internal/agent/executor.go:496-546 | in every interleaving, after the first stored status of a row only answers that looked it up before that change it |
| SettledRaces.SettledOnceWritersAreOver | internal/agent/executor.go:496-546 | so a row is settled for good, whatever follows, once a status is stored and every answer that writes to it is over |
| SettledRaces.RowHoldsLastStored | internal/memory/manager.go:277-282 | at every moment a row shows the last stored write of its status, and is pending exactly if there is none |
| SettledRaces.ReplacedIffTwoLookFirst | internal/agent/executor.go:496-546 | once all answers are over, a status stored by one answer was replaced by another's if and only if two answers that get a status stored looked the row up before the first one was |
| QuestionRaces.InsertKeepsOneLiveIff | internal/agent/executor.go:412-444 | an insert keeps one waiting row per session and user if and only if none waits at the insert |
| QuestionRaces.OneLiveIffNoneBeside | internal/agent/executor.go:412-444 | over every interleaving on one clock, at every moment at most one row per session and user waits if and only if no question inserted its action beside a waiting one |
| QuestionRaces.WaitingSinceLookup | internal/agent/executor.go:412-444 | a row found waiting at the insert though none waited at the lookup was inserted by another question in between |
| GuardedTools.GuardedToolsNeedConfirmation | internal/agent/executor.go:331-539 | over every sequence of tool calls and messages, a loop runs only handlers of tools that need no confirmation; every other handler run was asked for by an earlier call about that tool and confirmed by a later message of the same session and user before the expiry |
| ReActLoop.FailuresSinceLastSuccess | internal/agent/executor.go:360-381 | the failure count is the number of handler failures since the last handler success |
| ReActLoop.NonHandlerErrorsNeverCount | internal/agent/executor.go:331-341 | unknown tools, bad arguments and failed confirmations never count |
| ReActLoop.OnlyHandlersCount | internal/agent/executor.go:331-381 | a call sets the count to zero, or raises it by one, exactly if the loop itself ran its handler and that succeeded, or failed without asking for confirmation; otherwise the count stays |
| ReActLoop.AgentExecutor.ExecuteTool | internal/agent/executor.go:331-399 | registry lookup, argument decoding, the confirmation flag and the handler in this order; a handler success resets the count, a handler failure adds one, everything else leaves it |
| ReActLoop.AgentExecutor.RunCalls | internal/agent/executor.go:269-321 | the calls run in order, one reply each, cut short, until all are run, the user must be asked, or the budget is used up |
| ReActLoop.AgentExecutor.Iterate | internal/agent/executor.go:235-327 | one model call and what follows from its response |
| ReActLoop.AgentExecutor.Execute | internal/agent/executor.go:167-329 | at most maxIterations model calls, each given the opening and the whole transcript so far; every requested call is run once and in order up to the end; before each call the failure count is below the limit; the outcome says which case ended the run, and the kept episode follows from it |
| ReActLoop.WithinBudgetAtEveryMoment | internal/agent/executor.go:304-309 | within budget means: after each call the count was below the limit and the user need not be asked |
| ReActLoop.TranscriptPaired | internal/agent/executor.go:262-321 | each assistant message with tool calls is followed by exactly its replies, same ids, same order |
| ReActLoop.EveryPromptIsPaired | internal/agent/executor.go:235-321 | this holds of the messages of every model call |
| ReActLoop.BuildOpening | internal/agent/executor.go:183-232 | the opening is system prompt, plan, filtered history and the input |
| ReActLoop.OpeningShape | internal/agent/executor.go:191-232 | the input stands last and nowhere else among user messages, and no bare confirm or cancel word is left |
| ReActLoop.OpeningHolds | internal/agent/executor.go:191-232 | message by message: the prompts, then all of the chat that is neither the input nor a bare confirm or cancel word of the user's, in order and under its role, then the input |
| ReActLoop.EffectMeans | internal/agent/executor.go:331-381 | what a call comes to: the first of unknown tool, bad arguments, a question asked or refused, the handler's output or error |
| ReActLoop.PromptTells | internal/agent/executor.go:280-318 | what the model is told: in every later prompt the reply to a call is the handler's output if the tool was found, its arguments decoded, it needed no confirmation and it returned; and else the error of the first stage that failed, marked as an error |
| ReActLoop.EpisodeMeans | internal/agent/executor.go:249-309 | an episode is kept as failed exactly when the budget is used up, as success exactly for an answer after calls without an error, as partial exactly for an answer after some error |
| Statistics.CalculateMean | internal/analyzer/anomaly_detector.go:348-357 | the summing loop computes the mean, zero for no values |
| Statistics.CalculateVariance | internal/analyzer/anomaly_detector.go:360-369 | the loop computes the sample variance, zero for fewer than two values |
| Statistics.Cauchy | internal/analyzer/anomaly_detector.go:364-368 | square of the sum is at most n times the sum of squares |
| Statistics.Samuelson | internal/analyzer/anomaly_detector.go:364-368 | for distances summing to zero, n*y*y is at most (n-1) times the sum of squares |
| Statistics.DeviationBound | internal/analyzer/anomaly_detector.go:60-64 | every deviation d of n values satisfies d*d*n <= (n-1)*(n-1) |
| Statistics.ChebyshevBound | internal/analyzer/anomaly_detector.go:240-298 | the k values more than t deviations out, if any, satisfy t*t*k < n-1 |
| Statistics.SamplesNeeded | internal/analyzer/anomaly_detector.go:374-383 | a deviation beyond 2, 3 or 4 takes at least 6, 11 or 18 values |
| Statistics.SpikeAttainsBound | internal/analyzer/anomaly_detector.go:60-64 | the deviation bound is attained for every n, so these limits cannot be raised |
| TimeWindows.CountByTimeWindow | internal/analyzer/anomaly_detector.go:305-319 | the counting loop computes the counts per truncated instant |
| TimeWindows.GetEntriesInWindow | internal/analyzer/anomaly_detector.go:322-333 | the entries from the window's start up to but not including its end, in order |
| TimeWindows.EntriesAreWithin | internal/analyzer/anomaly_detector.go:322-333 | each entry is listed as often as it was logged, if it lies at or after the start and before the end, and else not at all |
| TimeWindows.GetSortedWindows | internal/analyzer/anomaly_detector.go:336-345 | the windows in ascending order, each once |
| TimeWindows.SortedKeysSorted | internal/analyzer/anomaly_detector.go:336-345 | that order lists every key exactly once, strictly ascending |
| TimeWindows.CountsCount | internal/analyzer/anomaly_detector.go:309-316 | a window's count is the number of passing entries truncating to it, and it is listed exactly if there is one |
| TimeWindows.CountsPartition | internal/analyzer/anomaly_detector.go:305-319 | the counts of all windows sum to the number of entries passing the filter |
| TimeWindows.WindowIsTruncation | internal/analyzer/anomaly_detector.go:314-328 | an aligned window holds exactly the instants truncating to its start |
| TimeWindows.WindowsDisjoint | internal/analyzer/anomaly_detector.go:314-314 | two windows that share an instant are the same |
| TimeWindows.CountAndEntries | internal/analyzer/anomaly_detector.go:305-333 | a count never exceeds the entries of its window, and equals them exactly if all of them pass |
| TimeWindows.CountMatchesEntriesIffWide | internal/analyzer/anomaly_detector.go:126-146 | counting everything, count and listed entries agree if and only if the configured width is positive |
| AnomalyDetector.CalculateStdDev | internal/analyzer/anomaly_detector.go:360-371 | the square root of the sample variance |
| AnomalyDetector.ComputeBaseline | internal/analyzer/anomaly_detector.go:48-54 | count, mean and deviation of the windows, whatever order the map is visited in |
| AnomalyDetector.BaselineDescribes | internal/analyzer/anomaly_detector.go:48-54 | that mean and deviation are the sample mean and deviation the bounds speak of |
| AnomalyDetector.StdDevIsStdDev | internal/analyzer/anomaly_detector.go:360-371 | that root is a standard deviation in the sense of the bounds |
| AnomalyDetector.StatisticsIgnoreOrder | internal/analyzer/anomaly_detector.go:48-54 | mean and deviation do not depend on the map's iteration order |
| AnomalyDetector.DetectErrorSpike | internal/analyzer/anomaly_detector.go:33-89 | the spiking windows' reports, or none for too few entries or windows |
| AnomalyReports.ErrorSpikesExactly | internal/analyzer/anomaly_detector.go:60-86 | a window is reported if and only if its count exceeds the mean by more than the threshold times the deviation; reports ascend, one to a window, with start and end, count, mean, deviation, samples and entries; critical, high and medium mean more than 4, 3 and 2 deviations |
| AnomalyReports.ErrorReports | internal/analyzer/anomaly_detector.go:33-89 | the same of the detection's result for all logs: enough entries, three windows, and entries of level ERROR, FATAL or CRITICAL are counted |
| AnomalyDetector.ErrorSpikeBound | internal/analyzer/anomaly_detector.go:60-86 | of n windows the k reported spikes satisfy t*t*k < n-1 at threshold t |
| AnomalyDetector.ErrorSpikeTakesWindows | internal/analyzer/anomaly_detector.go:374-383 | at a threshold of 2 or more a spike takes 6 windows and is at least medium; a high one takes 11, a critical one 18 |
| AnomalyDetector.DetectTrafficAnomaly | internal/analyzer/anomaly_detector.go:226-302 | the spikes and drops among the windows, in order |
| AnomalyReports.TrafficExactly | internal/analyzer/anomaly_detector.go:251-298 | a medium spike starts at a window if and only if its count exceeds the mean by more than the threshold times the deviation, a high drop if and only if it falls short by more than that; each report has start and end, count, mean, deviation and samples; with a threshold of zero or more they ascend, one to a window |
| AnomalyReports.TrafficReports | internal/analyzer/anomaly_detector.go:226-302 | the same of the detection's result for all logs |
| AnomalyDetector.TrafficCount | internal/analyzer/anomaly_detector.go:251-298 | the number of reports is the number of windows beyond the threshold on either side |
| AnomalyDetector.TrafficBound | internal/analyzer/anomaly_detector.go:251-298 | spikes and drops together satisfy t*t*k < n-1 |
| AnomalyDetector.TrafficTakesWindows | internal/analyzer/anomaly_detector.go:256-280 | at a threshold of 2 or more any spike or drop takes 6 windows |
| AnomalyDetector.DefaultsReportFew | internal/analyzer/anomaly_detector.go:22-29 | with the default settings k spikes and drops, or k error spikes, satisfy 4k < n-1 and take at least 6 windows, for every log |
| AnomalyDetector.DetectSlowRequests | internal/analyzer/anomaly_detector.go:93-155 | the windows with at least three slow requests, visited in the map's arbitrary order |
| AnomalyDetector.SlowSpellListsItsRequests | internal/analyzer/anomaly_detector.go:130-149 | each report's current value is the number of its related entries, at least three |
| AnomalyReports.SlowExactly | internal/analyzer/anomaly_detector.go:130-149 | a window is reported as slow if and only if it counts three or more slow requests, with start and end, count, mean and deviation of the response times, and the requests |
| AnomalyReports.TimesTaken | internal/analyzer/anomaly_detector.go:98-124 | the mean is taken over the positive response times, and the slow requests are those above the threshold |
| Percentile.PercentileIgnoresOrder | internal/analyzer/anomaly_detector.go:429-431 | the percentile does not depend on the order of the samples |
| Percentile.PercentileExistsIff | internal/analyzer/anomaly_detector.go:433-443 | there is a value, and no index error, exactly for at most one sample or a percentage from 0 to 100 |
| Percentile.PercentileMonotone | internal/analyzer/anomaly_detector.go:433-443 | a larger percentage never gives a smaller value, across segments |
| Percentile.PercentileEnds | internal/analyzer/anomaly_detector.go:433-443 | 0 gives the minimum, 100 the maximum, everything else lies between |
| Percentile.PercentileAtStep | internal/analyzer/anomaly_detector.go:437-439 | the k-th of the n-1 equal steps gives the k-th smallest sample |
| Percentile.PercentileIsLinear | internal/analyzer/anomaly_detector.go:433-443 | between two neighbouring samples the value is linear in the percentage |
| WSHub.ListedIsCurrent | internal/cluster/ws_hub.go:60-79 | after every interleaving, the listed connection of an agent is the last one registered, and is absent exactly if it was unregistered after that registration |
| WSHub.ClosedExactly | internal/cluster/ws_hub.go:63-78 | if each connection registers once, a connection is closed exactly if its write loop closed it or it was registered and is not the listed one |
| WSHub.ClosesOnce | internal/cluster/ws_hub.go:200-211 | no send channel is closed twice, and the closed channels are the closed connections |
| WSHub.ClosedStays | internal/cluster/ws_hub.go:204-207 | a closed connection stays closed |
| WSHub.DisconnectReportedWhileConnected | internal/cluster/ws_hub.go:81-83 | unregistering always reports a disconnect; the agent is still connected at that point if and only if another connection is its current one |
| WSHub.NoticesAreAnnounced | internal/cluster/ws_hub.go:60-83 | the notices are one for each registration and unregistration, in order, each under its agent |
| WSHub.UnregisterFirstLeavesItListed | internal/cluster/ws_hub.go:73-79 | an unregistration handled before the registration of the same connection leaves it listed |
| WSHub.RegisteringTwiceClosesIt | internal/cluster/ws_hub.go:63-66 | registering the same connection twice leaves it listed but closed |
| WSHub.WSClientConn.Close | internal/cluster/ws_hub.go:200-211 | closes the channel exactly once, however often it is called |
| WSHub.WSHub.HandleRegister | internal/cluster/ws_hub.go:60-67 | the replaced connection is closed, the new one listed, and every other connection untouched |
| WSHub.WSHub.HandleUnregister | internal/cluster/ws_hub.go:73-83 | only the listed connection is removed and closed; the notice goes out in any case |
| WSHub.WSHub.CloseAndLog | internal/cluster/ws_server.go:182-185 | the write loop's closing of its own connection |
| SkillExecutor.StopsIfFatal | internal/skills/executor.go:87-117 | a skill stops at a step exactly when the recorded result failed and is not to be ignored, and reports it; a recorded failure is that of the first attempt |
| SkillExecutor.ResultsMeaning | internal/skills/executor.go:69-119 | n steps end with all recorded and none fatal, or cancelled in between, or stopped at the first fatal one, which is recorded last |
| SkillExecutor.SucceedsIffNoneFatal | internal/skills/executor.go:42-124 | a run succeeds if and only if its parameters are accepted and every step has a recorded, non-fatal result |
| SkillOutcomes.AttemptSucceedsIff | internal/skills/executor.go:190-242 | an attempt succeeds if and only if its condition is not met, or its arguments are ready and the tool is one of the three shells and succeeded, or it is skill, the name is given and registered, and that run ended without error |
| SkillOutcomes.AttemptRecords | internal/skills/executor.go:190-242 | its output and error are the tool's, the nested run's joined outputs or its error, or those of the stage that failed |
| SkillOutcomes.JoinedAreLines | internal/skills/executor.go:574-582 | a nested skill's output is its steps' outputs that are not empty, one to a line |
| SkillOutcomes.RunReports | internal/skills/executor.go:42-124 | a run reports the skill's name and, if it stopped, that it was cancelled or the number of the step counted from one, its recorded error and the retries spent |
| SkillOutcomes.RunSucceedsIff | internal/skills/executor.go:42-124 | a run of a skill that runs no other succeeds if and only if, in terms of the world's answers alone, its parameters are accepted and at every step nothing cancels it and the step succeeds, is to be continued, or succeeds on a retry |
| SkillOutcomes.RunSucceedsWithoutRetriesIff | internal/skills/executor.go:42-124 | without retries: if and only if every attempt the world failed belongs to a step to be continued |
| SkillExecutor.RunsPerStep | internal/skills/executor.go:79-105 | a recorded step ran once, or more often only under retry and at most 1+Retries times; a step not recorded never ran, whatever nested skills do |
| SkillExecutor.EnvAfterRun | internal/skills/executor.go:56-84 | without nested skills the variables stay as initialised and each name holds the output of the latest result recorded under it |
| SkillExecutor.LatestOutputsIsLast | internal/skills/executor.go:82-100 | that output is the one of the last result so named |
| SkillExecutor.RunIgnoresEnv | internal/skills/executor.go:56-58 | a run of any skill, at any nesting depth, does not depend on the variables and outputs held before it |
| SkillExecutor.NestedReplacesEnv | internal/skills/executor.go:548-570 | a step that enters a registered skill, at any nesting depth, leaves that skill's variables and outputs whatever there was before; every other step leaves them alone |
| SkillExecutor.NestedOutputs | internal/skills/executor.go:548-570 | if the nested skill runs no further skill, only its own step names are left among the outputs |
| SkillExecutor.EnvAfterSteps | internal/skills/executor.go:56-118 | with nested skills at any depth, variables and outputs after n steps, however they ended, are those left by the last step that entered a skill, overlaid with the outputs recorded from that step on; not overlaid exactly if the run stopped at that step with its retries used up and one of the retries having entered a skill |
| SkillExecutor.BaseIsLeftByLast | internal/skills/executor.go:56-118 | what that base is: the last entering step's, or the initial one if no step entered a skill |
| SkillExecutor.LastEnteringIsLast | internal/skills/executor.go:56-118 | the last entering step enters a skill, and no later one does |
| SkillExecutor.LeftByNestedRun | internal/skills/executor.go:87-105 | what an entering step leaves is what one of its attempts' nested runs left |
| SkillExecutor.Executor.Execute | internal/skills/executor.go:32-39 | an unregistered skill is an error and changes nothing; otherwise the skill runs; it terminates whenever nesting has a rank |
| SkillExecutor.Executor.ExecuteSkill | internal/skills/executor.go:42-124 | the step loop computes SkillEffect, terminating by rank, phase and steps left |
| SkillExecutor.Executor.HandleStep | internal/skills/executor.go:79-118 | one turn of that loop |
| SkillExecutor.Executor.RetryStep | internal/skills/executor.go:93-105 | the first success among at most Retries further attempts |
| SkillExecutor.Executor.ExecuteStep | internal/skills/executor.go:190-242 | condition, arguments, tool: each early return and the dispatch |
| SkillExecutor.Executor.ExecuteNestedSkill | internal/skills/executor.go:548-587 | the nested run's error, or its non-empty outputs joined by newlines |
| ForgetGate.CalculateImportance | internal/memory/forget.go:63-109 | the running score computes Importance |
| ForgetGate.BelowQuarterIffForgettable | internal/memory/forget.go:13-109 | the score is below 0.25 if and only if: not from an alert, at most 3 steps, and failed with no access after 60 days or one access after 75, or neither success nor failed with no access after 75 days |
| ForgetGate.ImportanceRange | internal/memory/forget.go:100-108 | scores of episodes not from the future lie in [0.15, 1], and both ends are taken |
| ForgetGate.ImportanceMonotone | internal/memory/forget.go:66-80 | time never raises a score and accesses never lower it |
| ForgetGate.OutcomeIsWorth | internal/memory/forget.go:82-88 | success adds 0.1 and failure takes 0.05, where the score is not cut off |
| ForgetGate.BonusesAre | internal/memory/forget.go:90-98 | an alert adds 0.15 and more than three steps add 0.1 |
| ForgetGate.UseAndAgeAre | internal/memory/forget.go:66-80 | each access up to the fourth adds 0.05, and each 30 days up to 90 take a tenth |
| ForgetGate.FreshScore | internal/memory/forget.go:63-64 | with nothing for or against it an episode scores a half |
| ForgetGate.ScoringAndDeleting | internal/memory/forget.go:112-184 | scoring changes the score of unpinned rows only; the delete by score removes exactly the unpinned rows old enough and below the threshold |
| ForgetGate.ProtectedSurvive | internal/memory/forget.go:174-202 | pinned episodes and those younger than the minimum age survive a cleanup, and nothing new appears |
| ForgetGate.SurvivorsScoreHigher | internal/memory/forget.go:174-202 | an eligible survivor scores at least the threshold and at least as much as every row evicted for excess |
| ForgetGate.WithinLimitOrNothingLeft | internal/memory/forget.go:186-213 | afterwards the table is within its limit or holds no eligible row; the returned count is at least the number removed, and equal exactly if there were enough eligible rows |
| ForgetGate.DeletedByScoreIsForgettable | internal/memory/forget.go:111-177 | at the default threshold a row is deleted by score if and only if it is eligible and forgettable |
| ForgetGate.ForgetGate.UpdateAllImportance | internal/memory/forget.go:112-162 | unpinned rows are scored, pinned rows keep what they had |
| ForgetGate.ForgetGate.DeleteBelow | internal/memory/forget.go:174-184 | the delete by score and its row count |
| ForgetGate.ForgetGate.DeleteLowest | internal/memory/forget.go:194-202 | removes min(limit, eligible) rows, all eligible, none scoring above an eligible one left |
| ForgetGate.ForgetGate.FindLowest | internal/memory/forget.go:195-201 | an eligible row of lowest score, if there is one |
| ForgetGate.ForgetGate.Cleanup | internal/memory/forget.go:165-214 | new table and returned number, in terms of the two deletions on the scored rows |
| EventBuffer.RunConserves | internal/agent-node/agent.go:477-535 | for every interleaving of the collector and any number of reporters, collected events are as multisets those pending, in flight, reported and lost |
| EventBuffer.CollectKeepsLimit | internal/agent-node/agent.go:480-484 | after a collect at most 1000 events are pending, the new one last, and what was cut off are the oldest |
| EventBuffer.KeepsOrderIffInTurn | internal/agent-node/agent.go:499-535 | with distinct events, a step keeps reported, in-flight and pending events together an in-order subsequence of the collected ones if and only if it is in turn: deliveries take the oldest batch in flight, put-backs the youngest, everything else is free |
| EventBuffer.OrderedIffTurnsKept | internal/agent-node/agent.go:477-535 | over every run with any number of reporters at once, that order holds at every moment if and only if the turns were kept; keeping them suffices even for repeated events |
| EventBuffer.TwoReportersReorder | internal/agent-node/agent.go:486-487 | reporters are started without waiting for each other: a run in which the second batch arrives first |
| EventBuffer.PutBackWithinLimitIff | internal/agent-node/agent.go:529-531 | a batch put back leaves at most 1000 events pending if and only if it fits beside what came since |
| EventBuffer.NoBoundOnPending | internal/agent-node/agent.go:477-535 | no bound holds over runs: for every k there is a run that leaves 1000 times k events pending |
| EventBuffer.Agent.CollectEvent | internal/agent-node/agent.go:478-485 | one turn of the collector |
| EventBuffer.Agent.TakeBatch | internal/agent-node/agent.go:499-506 | takes everything pending, or nothing |
| EventBuffer.Agent.PutBackBatch | internal/agent-node/agent.go:529-531 | puts the batch in front of what came since |
| EventBuffer.Agent.ReportEvents | internal/agent-node/agent.go:493-536 | without a master or events nothing changes; a batch is put back if encoding or sending fails, lost if no request can be made, and reported on any answer |
| RuleEngine.RunRecords | internal/agent-node/rule_engine.go:69-135 | over every run without SetRules the first rule of an id records the end and the number of all firings under that id; a later rule of the same id never changes |
| RuleEngine.EvaluatedIsLive | internal/agent-node/rule_engine.go:70-74 | copying the rules before the loop makes no difference to a single evaluator |
| RuleFirings.FiresIffReady | internal/agent-node/rule_engine.go:76-132 | in an evaluation a rule fires if and only if it is enabled, its condition holds, and it has no cooldown, never fired, or its cooldown is over |
| RuleFirings.FiredWasReady | internal/agent-node/rule_engine.go:76-132 | what an evaluation logs are such firings only, in the order of the rules, each once |
| RuleFirings.FiringsHeld | internal/agent-node/rule_engine.go:69-135 | over every run each firing is of an enabled rule at a visit at which its condition held |
| RuleFirings.EventSays | internal/agent-node/rule_engine.go:96-114 | each queued event names rule and action, and says whether the action succeeded with its output, or failed with its error |
| RuleFirings.EventsQueued | internal/agent-node/rule_engine.go:96-122 | a firing queues its events in order, as far as there is room for 100 |
| RuleEngine.CooldownKept | internal/agent-node/rule_engine.go:82-132 | a firing of the first rule of an id starts at least its cooldown after the recorded end of the previous firing |
| RuleEngine.DuplicateIdHasNoCooldown | internal/agent-node/rule_engine.go:125-132 | an enabled rule behind another of the same id that is not cooling can fire twice at one instant, whatever its cooldown |
| RuleEngine.StatsCountFirings | internal/agent-node/rule_engine.go:275-284 | the reported count is the number of firings since the start if one rule has the id, else stuck at what the last rule of that id started with |
| RuleEngine.RuleEngine.SetRules | internal/agent-node/rule_engine.go:50-54 | replaces the rules and what they recorded |
| RuleEngine.RuleEngine.Evaluate | internal/agent-node/rule_engine.go:69-135 | which rules fire, what is recorded and which events are queued |
| RuleEngine.RuleEngine.RunActions | internal/agent-node/rule_engine.go:96-122 | one event per action; a full channel drops the new one, not the old one as the comment says |
| RuleEngine.RuleEngine.RecordTrigger | internal/agent-node/rule_engine.go:125-133 | only the first rule with the id is updated |
| RuleEngine.RuleEngine.GetRuleStats | internal/agent-node/rule_engine.go:275-284 | the map of counts, the last rule of an id winning |
| WecomFrame.FrameAccepted | internal/wecom/crypto.go:78-105 | a frame whose last byte tells the length of its tail gives back its message |
| WecomFrame.PaddedFrameAccepted | internal/wecom/crypto.go:78-105 | round trip for n padding bytes of value n, for every n from 1 to 255 |
| WecomFrame.AcceptedIsFrame | internal/wecom/crypto.go:78-105 | whatever is accepted is such a frame: 16 bytes, big-endian length, message, corp ID, tail |
| WecomFrame.Uint32RoundTrip | internal/wecom/crypto.go:83-83 | the four length bytes read back as the length |
| WecomFrame.Pkcs7Unpad | internal/wecom/crypto.go:108-122 | the checking loop computes Unpad |
| WecomFrame.UnpadIff | internal/wecom/crypto.go:108-122 | a body is given back if and only if the input is a whole number of blocks ending in n bytes of value n, 1 <= n <= block size |
| WecomFrame.StrictIsAccepted | internal/wecom/crypto.go:78-122 | a frame accepted after strict unpadding with block size 32 is accepted with the same message |
| WecomFrame.StrictIffPadded | internal/wecom/crypto.go:78-122 | of the accepted frames, the strict reading accepts exactly the properly padded ones |
| WecomFrame.LooseFrameAccepted | internal/wecom/crypto.go:91-97 | a frame with a wrong padding byte is accepted all the same |
| Workflow.SucceedsIff | internal/scheduler/workflow.go:66-118 | a run succeeds if and only if every dependency names an earlier step and no step fails under stop; other failures leave it a success |
| Workflow.SucceedsMeans | internal/scheduler/workflow.go:66-118 | the same without the functions that compute it: each dependency names an earlier step, and whoever fails is not to stop the run, itself or by default |
| Workflow.LastIsLatest | internal/scheduler/workflow.go:90-105 | what is remembered under an id is whether the last earlier step with that id succeeded |
| Workflow.StepAdds | internal/scheduler/workflow.go:83-114 | a step adds an empty skip entry for each dependency whose latest run failed, then its own outcome, field by field; the run ends with the step's id and message exactly if it failed under stop |
| Workflow.StepMisses | internal/scheduler/workflow.go:83-89 | otherwise the run ends naming the step and its first incomplete dependency |
| Workflow.StepRunsIffComplete | internal/scheduler/workflow.go:83-105 | a step runs exactly if all its dependencies are complete, failed or not |
| Workflow.RunsPrefix | internal/scheduler/workflow.go:81-114 | the steps that run are a prefix of the list, in order, each once |
| Workflow.FailedDependencySkipsNothing | internal/scheduler/workflow.go:90-105 | a failed dependency adds one skip entry and the step runs nevertheless |
| Workflow.WorkflowEngine.Execute | internal/scheduler/workflow.go:66-118 | the step loop computes After; an unknown workflow gives no result |
| Workflow.WorkflowEngine.CheckDependencies | internal/scheduler/workflow.go:83-99 | the dependency loop: a missing one ends the run, a failed one only adds an entry |

## Left out

- Aliasing of agent records: callers of GetAgent write to shared records without the lock (`internal/cluster/ws_server.go:248-251`); each such write is an atomic step here, and all fields of a record are values.
- Status in the convergence result: health checks and socket callbacks change it without a new heartbeat, so masters agree on ids and heartbeats only.
- Forwarding commands to peers and polling for their results, callbacks and their goroutines, the queries over agents: foreign effects or single reads.
- Command ids, pending ids and timestamps: ids are inputs; a clash of pending ids is a refused insert.
- ConfirmProtocol.ConfirmExecutor.TryHandleConfirmCancel: handled without interruption, and without the follow-up model run after the handler; `ConfirmRaces` has the interleavings.
- ConfirmProtocol.ConfirmExecutor.HandleByID: the same.
- ConfirmProtocol.ConfirmExecutor.CreatePendingAndReply: lookup and insert without interruption; `ConfirmRaces` has the interleavings.
- EventBuffer.Agent.ReportEvents: a report during which no other critical section runs; the runs of `EventBuffer` have the interleavings.
- PendingActions.LatestIsNewestLive: among rows of equal creation instants the query may return any; the model returns the one inserted last.
- One clock: the application's and the database's clock are the same one in the confirm protocol.
- The action log and the panic on a JSON "null" argument list (`internal/agent/executor.go:529`, `internal/agent/executor.go:343`).
- AgentExecutor: truncation and compression of tool output are arbitrary functions; not modelled are planning, the texts shown to the user, and a response without choices.
- Floating-point rounding: numbers are reals, and the square root is any function with the square root's two properties.
- DetectStatusCodeSpike: left out. It has the scan of DetectErrorSpike, but takes an entry's status from the first log with the same raw line (`internal/analyzer/anomaly_detector.go:168-175`), its severity from the status code, and lists no related entries.
- The library sort: GetSortedWindows selects minima in the source's stead, and Sorted in the percentiles is insertion, a function; both orders are proved unique.
- WSHub: broadcasts, sends racing with a channel close, the last-seen stamp and the client side. Register and Unregister are modelled when the loop handles them.
- SkillExecutor: template rendering, condition texts, parameter conversion, sleeping between retries and the tools themselves are answers of an arbitrary World; a cancelled context is one of them.
- SkillExecutor.Executor.Execute: termination is proved for registries whose nesting has a rank; a skill that reaches itself runs until its context is cancelled.
- ForgetGate: rows that fail to scan, SQL nulls and other writers between the statements. Among equal scores the database may evict any; the contract of DeleteLowest allows every choice.
- EventBuffer: encoding of events and the choice of a master.
- RuleEngine: evaluation of conditions, actions and metrics (a Visit carries the outcome), the rule name, condition text and timestamp in an event, several evaluators at once, and SetRules during an evaluation. The collector takes events between evaluations.
- WecomFrame: base64, AES, signatures and key checks. Split starts from the plaintext.
- Workflow: the outcome of each step is an input; timeouts and conditions of steps are not read by the code.
- HTTP, SSH, Docker and shell execution, configuration, metrics collection, built-in skills, short-term memory, MCP dispatch and the web front end.
