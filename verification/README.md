# Saker: schedulers, protocols and history transformations

This project models the parts of Saker that keep state over whole runs, and proves what they keep.

* **Canvas scheduler** (`CanvasGraph.dfy`, `CanvasExecutor.dfy`): the topological order of a canvas document, the
  executor that grows the document while it walks that order, and the saver that coalesces its writes.
* **Sessions** (`SessionGate.dfy`, `HistoryStore.dfy`): the per-session gate as a protocol of atomic steps under any
  interleaving, and the bounded history store.
* **Agent loop and pairing** (`Messages.dfy`, `AgentLoop.dfy`): a grammar of well-paired histories (ordinary messages,
  or an assistant message with calls followed by exactly its answers), and the loop that establishes it.
* **Consumers of that grammar** (`SessionMemory.dfy`, `Conversation.dfy`): the suffix a memory compaction keeps, and
  the first-in-first-out recovery of call ids when a history is persisted.
* **Context compaction** (`ToolOutputs.dfy`, `Compaction.dfy`): clearing and collapsing tool results, the partition
  that full compaction makes, its retries and its circuit breaker.
* **Pipelines** (`Pipeline.dfy`): interrupted and resumed execution against straight execution.
* **Tool-call stream** (`Utf8Json.dfy`, `PromptStream.dfy`, `CallIds.dfy`, `ToolBlocks.dfy`): the mapper that turns
  events into updates, the ids it gives out, cutting a call into events, and when the text survives the trip.
* **Apps** (`RateLimiter.dfy`, `AppStore.dfy`): the sliding-window limiter and the published version of an app.

`Base.dfy` holds strings, sorting and options. `dafny verify dfyconfig.toml` covers all files.

How the source is rendered: objects with fields are classes, loops are loops, and each such method is tied to a
function or predicate about which the lemmas speak. Clocks, the model, tools, hooks, file-system failures and fresh ids
are parameters; new ids are required to be new. A byte string is a sequence of characters, one per byte, wherever bytes
matter (tool results, JSON, UTF-8). White space and letter case are ASCII. A nil node or edge is one with empty ids.
References to tool calls in the prompt mapper are positions in a pool, so that the same call can be reached by id and by
index.

A contract written `true == P(..)` says `P(..)` and nothing else. The comparison makes the verifier carry the predicate
over as a whole instead of taking it apart and proving its parts again.

Properties that the code does not have are stated with the exact condition under which it has them:

* Full compaction keeps calls and results paired if and only if neither cut lands on a tool message
  (`Compaction.CompactPairing`, with `Compaction.SplitByCutExample`). Compaction from session memory does if and only
  if the chosen start is the start of a group or some result behind it has an id without a call there
  (`SessionMemory.AdjustedExactly`); a call with an empty id is separated from its result
  (`SessionMemory.EmptyIdSplitsPair`).
* Collapsing tool outputs twice does the same as once, for every history, if and only if the summary limit is at most
  eight or at least two below the output limit (`ToolOutputs.CollapseIdempotentExactlyWhen`).
* The collapse step inside `maybeCompact` never has an effect: the comparison that guards it looks at roles and
  contents only (`Compaction.CollapseIsInvisible`).
* A prompt-too-long retry that ends without error and without a final response makes `completeSummary` return neither
  a response nor an error; its caller then dereferences nil and the breaker does not count the failure. There is a
  model with which every such exchange ends so (`Compaction.NothingIsReachable`).
* Running and resuming a pipeline makes the same leaf calls as a straight run if and only if no leaf follows a nested
  batch that stops (`Pipeline.ResumeExactlyWhen`), and ends in the same result if and only if no leaf comes before or in
  a checkpoint that another one follows, and none stands beside a nested batch that stops
  (`Pipeline.ResultExactlyWhen`).
* The raw input a client receives equals the marshalled arguments if and only if no byte at a multiple of ten
  continues a UTF-8 character (`ToolBlocks.ReassembledExactlyWhen`, with `ToolBlocks.SplitCharacterExample`).
* A tool-call id is started twice if and only if a call came under a generated id before that was made
  (`CallIds.StartedOnceExactlyWhen`, with `CallIds.GeneratedIdTaken`).
* Positional id recovery is right on a well-paired tail if and only if no call without an id precedes one with an id
  in its group (`Conversation.FifoExact`). Behind calls that a run left open it is right if and only if no tool message
  follows (`Conversation.OpenCallsMispair`, with `Conversation.MispairedExample`).
* Passes that persist a growing history store no event twice if and only if no pass that stopped inside a message is
  followed by one that stores something (`Conversation.OnceExactlyWhen`, with `Conversation.StoredTwiceExample`).
* The agent leaves the history well paired if and only if no turn that it reaches gets an answer with calls and then
  meets a failing middleware, a spent token or cost budget or a missing tool executor (`AgentLoop.Agent.Run`, with
  `AgentLoop.LeavesOpenExample`).
* The number of tokens an agent has spent never goes down between two model calls, as long as published usages are not
  negative, unless a total is published for the first time after tokens were counted without one and is smaller
  (`AgentLoop.TokensDropExactlyWhen`, with `AgentLoop.HeadlineDropsExample`).
* The history store gives up the least recently requested session for sure if and only if it alone has the least use
  time (`HistoryStore.LeastRecentGoesExactlyWhen`); with equal readings of the clock even the session just requested
  may go (`HistoryStore.TieExample`).

## Model

| member | source | states |
|---|---|---|
| CanvasGraph.IndexNodes | pkg/canvas/graph.go:28-33 | ids map to the last node that carries them; nodes without id are skipped |
| CanvasGraph.NewGraph | pkg/canvas/graph.go:21-48 | each adjacency list holds, in document order, exactly the edges whose two ends exist |
| CanvasGraph.CountInDegrees | pkg/canvas/graph.go:103-120 | in-degrees count execution edges between present nodes, parallel edges each time |
| CanvasGraph.EdgesThatOrder | pkg/canvas/graph.go:81-120 | an edge between two nodes orders them exactly when it is a flow, a reference or of no kind; any other changes nothing |
| CanvasGraph.Relax | pkg/canvas/graph.go:137-145 | listing a node and paying its edges keeps the tally of unlisted predecessors; ready is then exactly the nodes with none left |
| CanvasGraph.Drain | pkg/canvas/graph.go:130-146 | the list it leaves takes the least available node at every position and nothing is available at the end |
| CanvasGraph.GreedyTakesSmaller | pkg/canvas/graph.go:122-134 | of the nodes available at a position the list has the one that ends first or has the smaller character at the first difference |
| CanvasGraph.WalkBackFindsCycle | pkg/canvas/graph.go:148-157 | pigeonhole: in a finite set where every node has a predecessor, every node is behind a real cycle |
| CanvasGraph.ExhaustedGreedy | pkg/canvas/graph.go:148-157 | when nothing is available, what is not listed is exactly what lies behind a cycle |
| CanvasGraph.GreedyIsTopological | pkg/canvas/graph.go:130-146 | a greedy list of all nodes is duplicate-free and has every arc pointing forwards |
| CanvasGraph.GreedyIsLeast | pkg/canvas/graph.go:122-146 | the greedy list is lexicographically least among all topological orders |
| CanvasGraph.StuckIds | pkg/canvas/graph.go:148-157 | the reported ids are sorted, without repetition, and exactly those with a positive in-degree left |
| Base.LessMeaning | pkg/canvas/graph.go:122-134 | the order by which ties are broken is dictionary order: at the first difference the smaller character or the end |
| CanvasGraph.TopoOrder | pkg/canvas/graph.go:102-159 | succeeds exactly on acyclic execution arcs, then with the least topological order, in which of two nodes available together the one with the smaller character at the first difference comes first; otherwise names exactly the nodes behind a cycle |
| CanvasGraph.TwoNodesExample | pkg/canvas/graph.go:122-134 | nodes a and b without edges come in the order a, b |
| CanvasGraph.OrderIsCanonical | pkg/canvas/graph.go:98-102 | two least orders of the same ids and arcs are equal: map iteration and edge order do not matter |
| CanvasExecutor.SelectNodes | pkg/canvas/executor.go:414-438 | the selection is a sub-list of the order; an id is in it exactly when it is in the order, is requested or nothing is, and its node is of one of the four kinds that can be run |
| CanvasExecutor.SelectionRespectsArcs | pkg/canvas/executor.go:414-438 | no node is selected twice or before a selected node it depends on; an id is selected exactly when it is in the order, is requested or nothing is, and its node can be run |
| CanvasExecutor.OutsideUntouched | pkg/canvas/executor.go:146-290 | with a request, no node outside it is reported and none of the original nodes outside it is changed |
| CanvasExecutor.GrowKeepsOrder | pkg/canvas/writeback.go:126-196 | a fresh node and a flow edge into it extend any topological order at its end |
| CanvasExecutor.TouchedKeepsOrder | pkg/canvas/executor.go:182-271 | whatever processing a node does to the document, the order with the new node appended stays topological |
| CanvasExecutor.DataAfterMeaning | pkg/canvas/writeback.go:69-120 | a processed node is never left running, shows an error exactly when it failed and then that one, with the parameters to retry with, and has its attempt in front of the newest nineteen of its earlier ones |
| CanvasExecutor.ResultNodeMeaning | pkg/canvas/writeback.go:13-196 | the node a result is shown as is done and has the address, or, when that is no address, has failed and has none |
| CanvasExecutor.DoneExactlyWhen | pkg/canvas/executor.go:175-287 | a run reports done if and only if no context was dead at any selected node, no node failed and the flush worked; cancelled if and only if the first dead context was cancelled |
| CanvasExecutor.LandedSpaced | pkg/canvas/executor.go:478-493 | for any attempts, the interval passes between the end of one intermediate save and the test that admits the next |
| CanvasExecutor.SavedMeansCurrent | pkg/canvas/executor.go:478-507 | unless the last attempt failed or came too early, the disk holds the document in memory |
| CanvasExecutor.RunningMeaning | pkg/canvas/writeback.go:69-85 | what is saved while a node runs: running, begun now, without the error of an earlier attempt |
| CanvasExecutor.CanvasRun.RequestSave | pkg/canvas/executor.go:478-493 | a save happens exactly when due and the write works; disk, time of the last save and dirty flag are those all attempts since loading call for |
| CanvasExecutor.CanvasRun.Flush | pkg/canvas/executor.go:495-507 | no error means the stored document equals the one in memory; an error exactly when dirty and the write fails |
| CanvasExecutor.CanvasRun.ProcessNode | pkg/canvas/executor.go:182-271 | a finished node is skipped and nothing changes; any other gets exactly its data, at most one new node and one edge, the verdict of the outcome, and two attempts to save |
| CanvasExecutor.CanvasRun.Walk | pkg/canvas/executor.go:175-272 | reports the selection up to the first dead context, counters add up, each node carries the matching status; the document is what its nodes' outcomes make of it one after the other; the attempts to save are those of the reported nodes |
| CanvasExecutor.CanvasRun.Plan | pkg/canvas/executor.go:153-160 | order, index and selection before the loop, with the order valid for the whole document |
| CanvasExecutor.CanvasRun.Finish | pkg/canvas/executor.go:274-287 | done exactly when nothing failed, nothing was cancelled and the flush worked; the flush fails exactly when the last attempt did not land and the write fails; the disk in either case |
| CanvasExecutor.CanvasRun.WalkAndFlush | pkg/canvas/executor.go:172-290 | the walk and the final flush together, from a plan |
| CanvasExecutor.CanvasRun.RunInternal | pkg/canvas/executor.go:146-290 | all of the above for a whole run: which nodes were selected, reported and how, that nothing outside a request was touched, the document they leave, which attempts to save were made, that those that landed are spaced, what is on disk with and without a successful flush, and that the initial order stays valid |
| SessionGate.StepKeepsInv | pkg/api/runtime_helpers_session.go:174-208 | every atomic step of every goroutine keeps ownership, liveness of channels and the waiters' guarantee |
| SessionGate.RunKeepsInv | pkg/api/runtime_helpers_session.go:174-208 | the invariant holds in every state of every interleaving |
| SessionGate.MutualExclusion | pkg/api/runtime_helpers_session.go:174-197 | two goroutines never hold the same session at once |
| SessionGate.AcquireHolds | pkg/api/runtime_helpers_session.go:174-186 | asking for a free session with a live context ends in holding it, under a new entry, and changes nothing else |
| SessionGate.AcquireGivesBack | pkg/api/runtime_helpers_session.go:181-186 | with a dead context the session is free again afterwards and the channel that was stored is closed |
| SessionGate.HolderUndisturbed | pkg/api/runtime_helpers_session.go:174-197 | whatever another goroutine does, a holder goes on holding with its entry in place, and one that asks for the session waits on its channel |
| SessionGate.WaysOut | pkg/api/runtime_helpers_session.go:174-208 | holding ends only by a call of release; waiting only by the close of the channel, to try again, or by the end of the context; neither touches the map |
| SessionGate.ReleaseFrees | pkg/api/runtime_helpers_session.go:199-208 | release frees the session and closes its channel once |
| SessionGate.NeverStuck | pkg/api/runtime_helpers_session.go:174-208 | every goroutine has its next step open to it, a waiter that of waking exactly when its channel is closed |
| SessionGate.HoldsExample | pkg/api/runtime_helpers_session.go:174-186 | a run at whose end a goroutine holds a session |
| SessionGate.ClosedAtMostOnce | pkg/api/runtime_helpers_session.go:199-208 | no channel is closed twice; an owner's or closer's channel is still open |
| SessionGate.ReleaseFindsOwnEntry | pkg/api/runtime_helpers_session.go:199-208 | a release takes out its own entry, never nothing and never another's |
| SessionGate.WaiterHasAWaker | pkg/api/runtime_helpers_session.go:174-208 | a waiter that cannot wake has another goroutine that still owes the close of its channel |
| HistoryStore.RecentMeaning | pkg/api/runtime_helpers_session.go:39-72 | in front of an id stand exactly the ids requested after its last request |
| HistoryStore.KeptIff | pkg/api/runtime_helpers_session.go:39-94 | an id is kept exactly when fewer than maxSize other ids were requested since its last request |
| HistoryStore.KeptHit | pkg/api/runtime_helpers_session.go:45-49 | a hit moves the id to the front of what is kept |
| HistoryStore.KeptMiss | pkg/api/runtime_helpers_session.go:50-58 | a miss puts the id in front and cuts at the size |
| HistoryStore.LeastRecentGoesExactlyWhen | pkg/api/runtime_helpers_session.go:74-94 | whatever the iteration order, a given session goes if and only if it alone has the least use time |
| HistoryStore.TieExample | pkg/api/runtime_helpers_session.go:74-94 | two sessions used at the same reading: either may go, the new one included |
| HistoryStore.EvictionKeepsOrder | pkg/api/runtime_helpers_session.go:50-94 | with a later reading than all before, what goes is the least recently requested, never the new one, and the rest are the most recent in order |
| HistoryStore.ServedInOrder | pkg/api/runtime_helpers_session.go:43-59 | one request on a later reading keeps the most recent sessions in order |
| HistoryStore.OwnHistories | pkg/api/runtime_helpers_session.go:50-52 | two sessions in the store never share a history |
| HistoryStore.EffectiveMeaning | pkg/api/runtime_helpers_session.go:39-42 | an id with a character that is not white space is taken as it is, any other stands for the default session |
| HistoryStore.Store.constructor | pkg/api/runtime_helpers_session.go:28-37 | an empty store with the default size for sizes that are not positive |
| HistoryStore.Store.Oldest | pkg/api/runtime_helpers_session.go:78-87 | finds a key of least use time whatever the iteration order |
| HistoryStore.Store.EvictOldest | pkg/api/runtime_helpers_session.go:74-94 | above the size, removes a session of least use time from both maps and nothing else; otherwise nothing |
| HistoryStore.Store.Request | pkg/api/runtime_helpers_session.go:43-59 | for any clock: the session's history or a new one that no other session has, the use time noted, never above the size; evicts exactly when a new id meets a full store, and then one of least use time |
| HistoryStore.Store.Get | pkg/api/runtime_helpers_session.go:39-72 | the same for the effective id; the id is missing afterwards exactly when it was evicted itself; others are untouched; on a reading later than all before the most recent sessions are kept and the least recent goes |
| HistoryStore.Store.GetAll | pkg/api/runtime_helpers_session.go:39-94 | over any run of calls no two sessions are given the same history; when the clock increases the store holds exactly the most recently requested sessions, and a session gets its last history back if and only if fewer than maxSize others were asked for since |
| Messages.PairedConcat | pkg/agent/agent.go:239-273 | behind a well-paired history, a continuation is well paired exactly on its own |
| Messages.PairedAnswered | pkg/agent/agent.go:239-273 | the k-th call of an assistant message is answered under its id and name by the k-th message after it |
| Messages.ToolMessageAnswers | pkg/agent/agent.go:239-273 | every tool message of a well-paired history answers a call of its group's assistant message |
| Messages.OpenIsNotPaired | pkg/agent/agent.go:217-229 | a history that ends in unanswered calls is not well paired |
| AgentLoop.TailRepeatCount | pkg/agent/agent.go:370-385 | the length of the longest suffix equal to the last signature |
| AgentLoop.Agent.Execute | pkg/api/runtime_tools_execute.go:28-230 | every return path appends exactly one tool message with the call's id and name, with the tool's output or error if it was run; no error exactly when permitted and both runs work, or for the diagnosis of empty arguments |
| AgentLoop.Agent.Generate | pkg/api/runtime_model.go:190-433 | succeeds exactly as the environment allows; on success the history gains ordinary messages and then the assistant message with the returned calls, on failure only ordinary messages |
| AgentLoop.Agent.UpdateCumulative | pkg/agent/agent.go:333-353 | input, output and total each grow by what the response published, and not at all without a response; the cost is that of the new total, only with a model name |
| AgentLoop.UsageSums | pkg/agent/agent.go:333-362 | after any number of turns each counter is the caller's plus the sum of the published ones, and the tokens are the total if one was published, else input plus output |
| AgentLoop.HeadlineDropsExactlyWhen | pkg/agent/agent.go:333-362 | with usages that are not negative no counter goes down; the number of tokens does if and only if the first published total is smaller than the input and output counted without one |
| AgentLoop.TokensDropExactlyWhen | pkg/agent/agent.go:333-362 | the same between any two model calls of a run, on the sums of what was published |
| AgentLoop.HeadlineDropsExample | pkg/agent/agent.go:333-362 | ten tokens counted as input and output, then a published total of one, make one token |
| AgentLoop.TokensAddUpExample | pkg/agent/agent.go:207-222 | with a limit of a hundred, two answers of sixty tokens each end the run at the second |
| AgentLoop.Agent.RunTools | pkg/agent/agent.go:239-278 | all calls are answered in order with what the tool gave and reported under their names, failures marked, even if middleware fails; the error returned is the first middleware error |
| AgentLoop.Agent.CheckRepeats | pkg/agent/agent.go:280-300 | aborts exactly at the threshold; warns exactly one call below it, if there is a hook and the call was not warned of before |
| AgentLoop.Agent.Admit | pkg/agent/agent.go:174-189 | context before cap before middleware, with the error and the stop reason each leaves on the last output |
| AgentLoop.Agent.Judge | pkg/agent/agent.go:207-237 | goes on exactly with calls to make, no middleware error and token and cost budgets unspent; the usage is counted; result, error and stop reason of every other exit |
| AgentLoop.Agent.Turn | pkg/agent/agent.go:173-304 | goes on, leaves calls open and calls the model exactly when the guards say so; what it returns, with which error and reason, follows from options, prompt, usage and environment; only adds to the history; what it adds records exactly the answer's calls |
| AgentLoop.Agent.Run | pkg/agent/agent.go:123-305 | its result, error and exit are those of the first turn whose guards end the run; each model call sees a well-paired history that extends the one before and, after the first, ends in the last answer and in what each of its calls came to, tokens that are the caller's plus the sum of all published ones, and the signatures of all calls recorded since the start; at the end the history is well paired if and only if no turn left calls open |
| AgentLoop.TurnEndMeans | pkg/agent/agent.go:173-304 | a turn goes on exactly as its guards say; otherwise an output carries the reason of the exit, and there is no error exactly on completion and when tokens or cost are spent |
| AgentLoop.RunEndMeans | pkg/agent/agent.go:123-305 | a run ends for the reason of the first turn that did not go on, after turns that all did |
| AgentLoop.TurnKeeps | pkg/agent/agent.go:173-304 | one turn carries over what a run has observed and decides whether its end is well paired |
| AgentLoop.LimitsHold | pkg/agent/agent.go:160-300 | at every model call of a run the number of calls is within the given cap, or 30 if it is zero, and from the second on tokens, cost and repeats are below their limits |
| AgentLoop.NothingToStopFor | pkg/agent/agent.go:207-237 | without limits, with an executor and no failing middleware after the model, no run leaves calls open |
| AgentLoop.LeavesOpenExample | pkg/agent/agent.go:217-229 | a limit of one token and a first answer that asks for a tool leave a call open |
| AgentLoop.RecordedPlain | pkg/agent/agent.go:207-229 | stopping right after the answer is recorded leaves the history well paired exactly when it asks for no tool |
| AgentLoop.RoundEnds | pkg/agent/agent.go:239-278 | a completed round leaves a history that ends in the answer and, in order, in what its calls came to |
| SessionMemory.AdjustIndexForToolPairs | pkg/api/compact_session_memory.go:84-134 | computes the backward walk over needed ids |
| SessionMemory.AdjustedExactly | pkg/api/compact_session_memory.go:84-134 | the index moves to the start of its group exactly when some result behind it has an id without a call there, and stays otherwise; the suffix is well paired if and only if that is so or it was a group start |
| SessionMemory.AdjustedIsGroupStart | pkg/api/compact_session_memory.go:84-134 | so with ids that are distinct and not empty the suffix is always well paired |
| SessionMemory.EmptyIdSplitsPair | pkg/api/compact_session_memory.go:84-134 | a call with an empty id and its result are separated |
| SessionMemory.TextMeaning | pkg/api/compact_session_memory.go:41-45 | the messages counted as text are those of user or assistant with a character that is not white space |
| SessionMemory.ChooseStart | pkg/api/compact_session_memory.go:26-52 | the shortest suffix with enough tokens and texts, or the longest within the cap |
| SessionMemory.ChosenUnique | pkg/api/compact_session_memory.go:26-52 | that description determines the suffix |
| SessionMemory.ChosenSome | pkg/api/compact_session_memory.go:26-58 | a suffix is chosen exactly when the last message alone is within the cap |
| SessionMemory.SessionMemoryCompact | pkg/api/compact_session_memory.go:14-79 | works exactly when the memory says something and the last message is within the cap; then replaces the history by the memory and the adjusted suffix, otherwise leaves it; the result is well paired if and only if the start is a group start or some result behind it has an id without a call there |
| Conversation.PairToolResultsToCalls | pkg/api/conversation_persist.go:296-316 | computes the queue discipline: calls enqueue their ids, tool messages dequeue one |
| Conversation.AssignFromBoundary | pkg/api/conversation_persist.go:296-316 | from a group start, no id is carried from one group into another |
| Conversation.FifoExact | pkg/api/conversation_persist.go:296-316 | every message gets its own id if and only if no empty id precedes another id in its group |
| Conversation.AssignFromInside | pkg/api/conversation_persist.go:296-316 | from inside a group, its remaining answers get no id and later ones get theirs |
| Conversation.PassStoresOwnIds | pkg/api/conversation_persist.go:53-130 | wherever a pass starts, a tool message is stored under its own id or none, own exactly when its call is in the pass |
| Conversation.OpenCallsMispair | pkg/api/conversation_persist.go:296-316 | behind calls left open, every message of a well-paired continuation gets its own id if and only if the continuation has no tool message |
| Conversation.MispairedExample | pkg/api/conversation_persist.go:296-316 | an answer stored under the id of a call left open before |
| Conversation.PartsMeaning | pkg/api/conversation_persist.go:171-267 | an assistant message has an event besides those of its calls exactly when it says something or has blocks; any other has one |
| Conversation.Cursor.AppendMessageEvents | pkg/api/conversation_persist.go:171-267 | stores the events of one message in order and stops at the first failure |
| Conversation.Cursor.Persist | pkg/api/conversation_persist.go:53-130 | the cursor moves past exactly the messages whose events are all accepted, and exactly the accepted events are stored, in order; ids as above |
| Conversation.Cursor.PersistAll | pkg/api/conversation_persist.go:53-130 | cursor and stored events after any passes over a growing history |
| Conversation.PassMeaning | pkg/api/conversation_persist.go:98-130 | a pass goes through whole messages as far as the accepted events allow and then stores some events of the next |
| Conversation.WholeExactlyWhen | pkg/api/conversation_persist.go:98-130 | a pass stops between messages if and only if everything is accepted or a whole number of messages makes up what is |
| Conversation.OnceExactlyWhen | pkg/api/conversation_persist.go:53-130 | over any passes, no event is stored twice if and only if no pass that stopped inside a message is followed by one that stores something; and then everything up to the cursor is stored once and in order |
| Conversation.StoredTwiceExample | pkg/api/conversation_persist.go:171-267 | an answer with two calls whose first event is stored twice |
| ToolOutputs.AllButLast | pkg/api/microcompact.go:75-84 | dropping the last n collected indices leaves exactly the relevant messages with n relevant ones after them |
| ToolOutputs.Apply | pkg/api/microcompact.go:86-104 | rewrites exactly those messages and reports whether anything changed |
| ToolOutputs.ClearedExactly | pkg/api/microcompact.go:27-149 | a result is cleared exactly when it belongs to one of eight tools, is neither empty nor the marker, and stands in a tool message with at least n that count after it |
| ToolOutputs.ClearTwice | pkg/api/microcompact.go:131-149 | clearing touches results only, and a second time nothing |
| ToolOutputs.MicrocompactIdempotent | pkg/api/microcompact.go:60-149 | a second pass changes nothing, for the default and for any custom marker |
| ToolOutputs.Microcompact | pkg/api/microcompact.go:60-109 | the history becomes the cleared one, or stays when disabled or short; true exactly when it changed |
| ToolOutputs.LinesJoin | pkg/api/context_collapse.go:125 | splitting at line ends and joining again gives the text back |
| ToolOutputs.LinesWhole | pkg/api/context_collapse.go:125 | no line has a line end in it |
| ToolOutputs.NonBlankMeaning | pkg/api/context_collapse.go:160-179 | the lines that say something are the trimmed ones that are not empty, and all of them if all do |
| ToolOutputs.BashShowsTail | pkg/api/context_collapse.go:134-136 | the summary of a bash output tells the number of lines and ends in the last five that say something |
| ToolOutputs.SearchCountsMatches | pkg/api/context_collapse.go:138-144 | the summary of a search tells the number of lines that say something |
| ToolOutputs.OthersCountLines | pkg/api/context_collapse.go:131-151 | any other summary tells the number of all lines, and for a tool it does not know that of the bytes |
| ToolOutputs.Truncated | pkg/api/context_collapse.go:153-157 | a summary has at most two bytes more than its limit and is unchanged within it |
| ToolOutputs.SparedByDefault | pkg/api/context_collapse.go:28-43 | without a number of messages to spare, clearing spares three and collapsing two |
| ToolOutputs.CollapseToolOutputs | pkg/api/context_collapse.go:48-121 | the collapsed list, or the list itself when disabled |
| ToolOutputs.CollapseKeeps | pkg/api/context_collapse.go:48-121 | roles, contents, ids, names and arguments stay, the last n tool messages and all other messages too; a changed result was too long and now fits |
| ToolOutputs.CallsSettleExactlyWhen | pkg/api/context_collapse.go:123-158 | collapsing any call twice does the same as once if and only if the summary limit is at most eight or at least two below the output limit |
| ToolOutputs.CollapseIdempotentExactlyWhen | pkg/api/context_collapse.go:48-158 | the same for histories |
| ToolOutputs.CollapseIdempotent | pkg/api/context_collapse.go:48-158 | under that condition a second collapse changes nothing |
| ToolOutputs.PassesKeepPairing | pkg/api/context_collapse.go:48-121 | neither pass makes or breaks a well-paired history |
| Compaction.PickPartition | pkg/api/compact_compactor.go:285-291 | one flag per position: every message is picked exactly once, preserved or summarised |
| Compaction.NormalisedSensible | pkg/api/compact.go:76-149 | any configuration is made sensible, and a sensible one is left alone |
| Compaction.TextsFromUnique | pkg/api/compact_compactor.go:258-276 | the place where the retained user texts begin is determined by the budget |
| Compaction.CompactPartitions | pkg/api/compact_compactor.go:230-322 | the new history without its summary is the preserved messages in order, the request is the others; lengths and contents add up |
| Compaction.CompactPairing | pkg/api/compact_compactor.go:238-322 | the new history is well paired if and only if neither the initial part nor the kept tail is cut at a tool message |
| Compaction.SplitByCutExample | pkg/api/compact_compactor.go:238-322 | a call and its answer separated by the cut in front of the kept tail |
| Compaction.CompactedShape | pkg/api/compact_compactor.go:230-343 | begins with the initial messages and a system message without calls that ends in the trimmed response, ends in exactly the last preserveCount messages, is never longer than before, pairing as above |
| Compaction.EqualSees | pkg/api/compact_compactor.go:346-356 | the comparison sees a change of a role or a content |
| Compaction.CollapseIsInvisible | pkg/api/compact_compactor.go:346-356 | the comparison finds every collapsed history equal to the original |
| Compaction.RetryShrinks | pkg/api/compact_compactor.go:418-420 | a prompt-too-long retry sends a non-empty, strictly shorter suffix to the same model |
| Compaction.ConductedUnique | pkg/api/compact_compactor.go:369-440 | the model, the request and the cancellations determine the whole exchange and where its prompt-too-long retries begin |
| Compaction.NothingIsReachable | pkg/api/compact_compactor.go:417-439 | with a model that falls silent after a prompt-too-long error, every exchange it conducts ends with neither a response nor an error |
| Compaction.OutcomeMeaning | pkg/api/compact_compactor.go:305-309 | compaction succeeds exactly with a response, fails exactly with an error, and panics without either |
| Compaction.StrippedConcat | pkg/api/compact_compactor.go:296-297 | media are stripped from the messages of the request one by one |
| Compaction.Compactor.CompleteSummary | pkg/api/compact_compactor.go:369-440 | conducts the exchange that the model's own replies call for: which request each attempt sends, when they stop, at most attempts plus two calls, and the answer as a function of it |
| Compaction.Compactor.MarkInitial | pkg/api/compact_compactor.go:244-255 | flags and collects exactly the initial messages |
| Compaction.Compactor.MarkUserText | pkg/api/compact_compactor.go:257-283 | retains the most recent eligible texts, whose cost without the oldest is below the budget, in order |
| Compaction.Compactor.Compact | pkg/api/compact_compactor.go:230-343 | outcome and new history as determined by the exchange conducted with the model; any other outcome leaves the history |
| Compaction.Compactor.CollapseFirst | pkg/api/compact_compactor.go:134-146 | never changes the history and never ends the call |
| Compaction.Compactor.DueExactlyWhen | pkg/api/compact_compactor.go:57-95 | compaction is due exactly when enabled, not tripped, with more messages than are preserved and tokens at the limit less what is reserved and buffered, or at the given share of the limit, compared without division |
| Compaction.Compactor.MaybeCompact | pkg/api/compact_compactor.go:103-170 | which of its ways it takes, by being due, the hook, the memory and its configuration; counts failures, resets on success; no model call when tripped, skipped or served from memory; otherwise outcome and history are those of the exchange, or of the memory and the chosen suffix |
| Compaction.Compactor.ResetCircuitBreaker | pkg/api/compact_compactor.go:358-367 | clears the failure counter |
| Compaction.BreakerBounded | pkg/api/compact_compactor.go:57-64 | over any sequence of calls and resets the counter never exceeds its maximum |
| Compaction.BreakerHolds | pkg/api/compact_compactor.go:57-64 | once at its maximum, neither counter nor number of model calls moves until a reset |
| Pipeline.MergeMonoid | pkg/pipeline/executor.go:266-287 | merging results is associative and the empty result is its unit |
| Pipeline.StraightMeaning | pkg/pipeline/executor.go:44-78 | told from the leaf calls alone: output, summary, artifacts, items, structure and preview are those of the last leaf that has one, lineage that of all; each leaf is given the artifacts of the latest earlier leaf that produced any, else the input's; only the last call may fail |
| Pipeline.ItemsPassOn | pkg/pipeline/executor.go:317-326 | in a batch of leaves each is given exactly the items of the one before it |
| Pipeline.TreeMeaning | pkg/api/pipeline_runtime.go:106-171 | a run up to a checkpoint answers with what its leaf calls so far come to, in the same sense |
| Pipeline.RemainingShrinks | pkg/api/pipeline_runtime.go:118-121 | what an interrupted run leaves to do is strictly smaller than what it was given |
| Pipeline.SameTrace | pkg/api/pipeline_runtime.go:45-171 | a resumable pipeline, run and resumed to its end, makes the same leaf calls with the same inputs as a straight run and fails alike |
| Pipeline.TraceFallsShort | pkg/api/pipeline_runtime.go:136-144 | otherwise every executor that never fails is called too few times |
| Pipeline.ResumeExactlyWhen | pkg/api/pipeline_runtime.go:45-171 | the traces agree for all executors if and only if the pipeline is resumable |
| Pipeline.SameResult | pkg/api/pipeline_runtime.go:59-70 | a lossless pipeline ends in the result of a straight run |
| Pipeline.EdgesLost | pkg/api/pipeline_runtime.go:122-127 | otherwise lineage is missing from the last response |
| Pipeline.ResultExactlyWhen | pkg/api/pipeline_runtime.go:45-171 | the results agree for all executors if and only if the pipeline is lossless |
| Pipeline.LosslessExplained | pkg/api/pipeline_runtime.go:21-75 | so does a lossless pipeline that is run and resumed to its end |
| Pipeline.TopLevelShape | pkg/api/pipeline_runtime.go:107-147 | checkpoints at the top level of one batch: always resumable, lossless with at most one |
| Pipeline.TwoCheckpointsLose | pkg/api/pipeline_runtime.go:122-127 | with two that do something, the result of the first segment is lost |
| Pipeline.Runtime.ExecuteStep | pkg/pipeline/executor.go:44-78 | straight execution: the leaf calls and the merged result |
| Pipeline.Runtime.ExecutePipeline | pkg/pipeline/executor.go:44-78 | straight execution: which leaves are called with what, and the result, told from the leaf calls alone |
| Pipeline.Runtime.ExecuteTree | pkg/api/pipeline_runtime.go:106-171 | execution up to a checkpoint: calls, result and at most one new entry in the store |
| Pipeline.Runtime.Resume | pkg/api/pipeline_runtime.go:45-75 | one link of the chain of resumes: the entry goes only at the end, otherwise less is left under a new id |
| Pipeline.Runtime.RunAll | pkg/api/pipeline_runtime.go:21-75 | running and resuming until nothing interrupts terminates with the chain's calls and result; for a lossless pipeline these are told from the leaf calls alone |
| Utf8Json.SanitizedGrows | pkg/api/progress.go:150-153 | replacing broken bytes leaves valid text alone and makes any other longer |
| Utf8Json.NumberWritten | pkg/api/progress.go:150-153 | every character number of Unicode is written as one character of UTF-8, from which it can be read again |
| Utf8Json.NumberRead | pkg/api/progress.go:150-153 | every character of UTF-8 is what its number is written as, and that is no surrogate |
| Utf8Json.ReadPair | pkg/acp/prompt_updates.go:263-272 | two escaped surrogates stand for one character |
| Utf8Json.ReadLone | pkg/acp/prompt_updates.go:263-272 | a surrogate on its own is replaced |
| Utf8Json.SplitValid | pkg/api/progress.go:185-191 | a cut leaves both parts valid unless it is inside a character |
| Utf8Json.QuoteRoundTrip | pkg/acp/prompt_updates.go:263-272 | marshalling and unmarshalling a byte string gives it back with every broken byte replaced |
| Utf8Json.TrimJsonAround | pkg/acp/prompt_updates.go:263-272 | white space around a value does not matter |
| Utf8Json.PlainQuoted | pkg/api/progress.go:150-153 | plain text is written as it is |
| PromptStream.RunKeeps | pkg/acp/prompt_updates.go:35-246 | for every stream, starts follow the creation of calls one to one and raw inputs the marks on them |
| PromptStream.ChunkMeaning | pkg/acp/prompt_updates.go:263-272 | a chunk that is a JSON string or null is read as one, any other is taken as it is |
| PromptStream.OutputMeaning | pkg/acp/prompt_updates.go:127-150 | output is shown as it is, but text on the error stream after a note |
| PromptStream.TextsComeThrough | pkg/acp/prompt_updates.go:35-42 | for every stream the agent's texts are exactly the texts of the text deltas that have any, in order |
| CallIds.UpdatesFollowStarts | pkg/acp/prompt_updates.go:60-182 | every update of a call comes after a start under the same id |
| CallIds.TracksRun | pkg/acp/prompt_updates.go:184-232 | the mapper's counter, its known ids and its known block indices are those the events call for |
| CallIds.StartedOnceExactlyWhen | pkg/acp/prompt_updates.go:184-232 | ids are started at most once if and only if no call came under the k-th generated id before that was made, which is told from the incoming events alone |
| CallIds.PlainIdsStartOnce | pkg/acp/prompt_updates.go:184-232 | so it is when no incoming id has the generated form |
| CallIds.GeneratedIdTaken | pkg/acp/prompt_updates.go:212-216 | a stream of two events that starts one id twice |
| CallIds.InputAtMostOnce | pkg/acp/prompt_updates.go:93-113 | where ids are started once, raw input is sent at most once per id |
| ToolBlocks.ChunkString | pkg/api/progress.go:180-193 | the pieces of the given size in order |
| ToolBlocks.ChunksJoin | pkg/api/progress.go:180-193 | the pieces put together are the text |
| ToolBlocks.EmitToolBlock | pkg/api/progress.go:143-157 | the start, one delta per marshalled piece, and the stop |
| ToolBlocks.EmitToolBlocks | pkg/api/progress.go:64-67 | the blocks of all calls at consecutive indices |
| ToolBlocks.BlockRun | pkg/acp/prompt_updates.go:60-113 | the block of an unknown call yields its start and the trimmed text of its repaired pieces, and this state of the mapper |
| ToolBlocks.ReassembledExactlyWhen | pkg/api/progress.go:143-193 | the raw input is the marshalled text if and only if no piece begins inside a character |
| ToolBlocks.SplitCharacterExample | pkg/api/progress.go:143-193 | an object with a character across the first cut does not come through |
| ToolBlocks.AsciiReassembled | pkg/api/progress.go:143-193 | ASCII text always comes through |
| ToolBlocks.MessageRoundTrip | pkg/api/progress.go:64-67 | all calls of a message arrive in order, each as its start and its own input |
| PromptStream.PromptStreamMapper.EnsureToolCall | pkg/acp/prompt_updates.go:184-232 | finds a call by id or index, renames it, or makes one |
| PromptStream.PromptStreamMapper.UpdatesForEvent | pkg/acp/prompt_updates.go:35-58 | handles each kind of event as specified and keeps the invariant over the whole log |
| RateLimiter.WindowBound | pkg/apps/auth.go:106-123 | admissions that far apart never exceed the limit in any closed minute |
| RateLimiter.Allow | pkg/apps/auth.go:106-123 | admits exactly when the last minute holds fewer than the limit, and keeps the bucket in step with the history |
| RateLimiter.SweepFits | pkg/apps/auth.go:147-168 | dropping idle buckets keeps the agreement on which every later decision rests |
| RateLimiter.RateLimitManager.Request | pkg/apps/auth.go:192-199 | whatever was swept, the decision depends on the token's admissions only |
| RateLimiter.RateLimitManager.Sweep | pkg/apps/auth.go:147-168 | removes exactly the buckets idle for over half an hour; no history changes |
| RateLimiter.RateLimitManager.RateBound | pkg/apps/auth.go:106-168 | over a whole run no closed minute holds more admissions of a token than its limit |
| AppStore.ListVersions | pkg/apps/store.go:343-375 | all versions, each once; of any two the one with the larger character at the first difference, or the longer, comes first |
| AppStore.RankIsPosition | pkg/apps/store.go:300-303 | a version's position in the list is the number of newer ones |
| AppStore.SurvivorsAre | pkg/apps/store.go:300-313 | removing the tail except the published one leaves the newest and the published |
| AppStore.ValidVersionMeaning | pkg/apps/store.go:463-471 | a version name is accepted exactly when it has a character that is not white space, no path separator and no two dots in a row |
| AppStore.Store.constructor | pkg/apps/store.go:60-62 | a store opened on any safe disk, such as one a crash left |
| AppStore.Store.PruneOldVersions | pkg/apps/store.go:280-315 | succeeds exactly when every removal works, and then exactly the newest and the published remain; with errors they remain too; every disk state on the way is safe and one file operation away from the next |
| AppStore.Store.PublishVersion | pkg/apps/store.go:226-268 | succeeds exactly when the app exists, is ready, the name is valid and both writes work; then the new snapshot is published and survives the prune; on failure the published version is unchanged; every disk state is safe and one file operation away from the next |
| AppStore.Store.SetPublishedVersion | pkg/apps/store.go:477-502 | rolls back exactly to a version on disk when the write works; every disk state is safe and one file operation away from the next |
| AppStore.Store.UpdateMeta | pkg/apps/store.go:184-209 | succeeds exactly when the app exists and the write works; never changes the published version |
| AppStore.Store.RunAll | pkg/apps/store.go:184-315 | over any run of operations with any failures, in every state of the disk, each one file operation away from the one before, the published version is empty or its file exists; every operation does what it says and fails only where a file operation does; what is published at the end is what the last publish or rollback that worked named |

## Left out

- The sweep of the session gate (`sessionGate.cleanupLoop`): it tests an entry and then deletes by key in two steps, so the gate's invariant is stated without it.
- AgentLoop.Agent.Run: the loop is run over any finite prefix of what the environment does; a cap that is not positive leaves termination to the environment. Timeouts and the agent context's values are part of the environment.
- AgentLoop.LimitsHold: says nothing of tokens and cost at the first model call, since the source checks them only after a response; what the first call sees is the usage the caller brings along.
- AgentLoop.Agent.Generate: responses come under the role assistant, as every stream of the one provider does (pkg/model/bifrost_adapter.go:525-541); no compactor; system prompt, image handling, tracing and output schemas are not modelled.
- AgentLoop.Agent.Execute: sandbox and output persistence are not modelled; the texts of refusals, and the object an error is wrapped in, are abbreviated.
- HistoryStore.Store.Get: loading a stored session and the clean-up after an eviction are not modelled.
- Conversation.Cursor.Persist: append-only histories within one runtime; recovering the cursor after a restart or a shrink is not modelled.
- Compaction.Compactor.Compact: restoring files after compaction is switched off; stripping media is any function on messages.
- Compaction.Compactor.MaybeCompact: the threshold is a real number, so floating-point rounding of the ratio is not modelled; notifications and the rollout file are not modelled.
- Pipeline.Runtime.ExecuteTree: the checkpoint store does not fail, session ids of entries are not compared, and fan-out, fan-in, retry, tools, skills and the cache are one function of the leaf and its input.
- PromptStream.PromptStreamMapper.UpdatesForEvent: payload conversion and plan entries are reduced to a text and to whether there is a plan; the parsed form of raw input is its text.
- ToolBlocks.EmitToolBlocks: the text block in front of the calls and the bookkeeping events around a message are not modelled.
- RateLimiter.RateLimitManager.Request: one request at a time, with a limit per token that does not change; the source keeps the limit a bucket was made with until the bucket is swept, and a sweep may race with a request.
- AppStore.Store.RunAll: operations one after the other; deleting an app, which removes its files one by one, and creating one are not modelled.
- Canvas: building tool parameters, media references, the tracker and notifications; loading the document always succeeds.
- Command line, desktop, evaluation, telemetry, personas, sandboxes and tool registration: wiring and text, with nothing over whole runs to prove.
