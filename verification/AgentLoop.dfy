/** The agent loop, the conversation model it calls and the tool executor that records results
    (pkg/agent/agent.go, pkg/api/runtime_model.go, pkg/api/runtime_tools_execute.go). A contract `true == P(..)` says
    P(..); the comparison makes the verifier carry the predicate over whole. */
module AgentLoop {
  import opened Base
  import opened Messages

  const DEFAULT_MAX_ITERATIONS: int := 30
  const DEFAULT_REPEAT_THRESHOLD: int := 5

  /** deadline and canceled are what errors.Is would answer for the two context errors. */
  datatype Error = Error(msg: string, deadline: bool, canceled: bool)

  datatype StopReason =
    | Unset | Completed | MaxIterations | MaxBudget | MaxTokens | RepeatLoop | ContextCancel | ContextDeadline
    | ModelError

  function ClassifyError(e: Error): StopReason {
    if e.deadline then ContextDeadline else if e.canceled then ContextCancel else ModelError
  }

  datatype Usage = Usage(input: int, output: int, total: int)

  function AddUsage(a: Usage, b: Usage): Usage { Usage(a.input + b.input, a.output + b.output, a.total + b.total) }

  function TotalTokens(u: Usage): int { if u.total > 0 then u.total else u.input + u.output }

  datatype Call = Call(id: string, name: string, input: string)

  datatype Output = Output(content: string, calls: seq<Call>, done: bool, stop: StopReason)

  datatype Sig = Sig(name: string, input: string)

  function SigOf(c: Call): Sig { Sig(c.name, c.input) }

  function Annotate(out: Option<Output>, r: StopReason): Option<Output> {
    if out.None? || out.value.stop != Unset then out else Some(out.value.(stop := r))
  }

  // ---- what the loop cannot decide itself ----

  datatype PreHook = PreOk | PreAsks | PreFails(err: Error)
  datatype Resolver = NoResolver | ResolverFails(err: Error) | ResolverAllows | ResolverDenies | ResolverAsks

  datatype ToolEnv = ToolEnv(
    executorNil: bool, allowed: bool, requiresParams: bool, pre: PreHook, yolo: bool, resolver: Resolver,
    output: string, execErr: Option<Error>, postErr: Option<Error>)

  datatype CallEnv = CallEnv(before: Option<Error>, tool: ToolEnv, after: Option<Error>)

  datatype Response = Response(content: string, calls: seq<Call>, usage: Usage)

  /** The question nudge: not tried, tried in vain, or answered with tool calls. */
  datatype Nudge = NoNudge | NudgeInVain(text: string) | NudgeWorks(text: string, retry: Response)

  datatype Stream = StreamFails(err: Error) | NoFinalResponse | Final(resp: Response, nudge: Nudge)

  datatype TurnEnv = TurnEnv(
    ctxErr: Option<Error>, beforeModel: Option<Error>, modelNil: bool, promptHookErr: Option<Error>, stream: Stream,
    afterModel: Option<Error>, afterAgent: Option<Error>, call: nat -> CallEnv)

  datatype Options = Options(
    maxIterations: int, repeatThreshold: int, warningHook: bool, maxTokens: int, maxBudget: real, hasModelName: bool,
    cost: Usage -> real, toolsNil: bool)

  function IterationCap(o: Options): int { if o.maxIterations == 0 then DEFAULT_MAX_ITERATIONS else o.maxIterations }

  function Threshold(o: Options): int { if o.repeatThreshold == 0 then DEFAULT_REPEAT_THRESHOLD else o.repeatThreshold }

  /** How a finite prefix of the environment leaves the run: still going, or returned. */
  datatype RunResult = Running | Returned(out: Option<Output>, err: Option<Error>)

  /** Where Run returned from. */
  datatype Exit =
    | StillRunning | ByContext | ByIterationCap | BeforeModelFailed | GenerateFailed | AfterModelFailed
    | ByTokens | ByBudget | ByCompletion | AfterAgentFailed | NoTools | MiddlewareFailed | ByRepeat

  /** The stop reason each exit must leave on the output it returns. */
  function ExitReason(x: Exit, err: Option<Error>): StopReason {
    match x
    case StillRunning => Unset
    case ByContext => if err.Some? && err.value.deadline then ContextDeadline else ContextCancel
    case ByIterationCap => MaxIterations
    case BeforeModelFailed | GenerateFailed | AfterModelFailed | MiddlewareFailed =>
      if err.Some? && err.value.deadline then ContextDeadline
      else if err.Some? && err.value.canceled then ContextCancel
      else ModelError
    case ByTokens => MaxTokens
    case ByBudget => MaxBudget
    case ByCompletion | AfterAgentFailed => Completed
    case NoTools => ModelError
    case ByRepeat => RepeatLoop
  }

  /** The exits that can leave tool calls unanswered. */
  predicate LeavesCallsOpen(x: Exit) { x.AfterModelFailed? || x.ByTokens? || x.ByBudget? || x.NoTools? }

  // ---- tailRepeatCount ----

  /** n is the length of the longest suffix of calls that repeats the last entry. */
  ghost predicate IsTailRepeat(calls: seq<Sig>, n: nat) {
    && n <= |calls| && (calls != [] ==> n >= 1)
    && (forall i :: |calls| - n <= i < |calls| ==> calls[i] == calls[|calls| - 1])
    && (n < |calls| ==> calls[|calls| - n - 1] != calls[|calls| - 1])
  }

  method TailRepeatCount(calls: seq<Sig>) returns (count: nat)
    ensures IsTailRepeat(calls, count)
  {
    var n := |calls|;
    count := 0;
    if n == 0 { return; }
    var last := calls[n - 1];
    var i := n - 1;
    while i >= 0
      invariant -1 <= i < n && count == n - 1 - i
      invariant forall k :: i < k < n ==> calls[k] == last
    {
      if calls[i] != last { break; }
      count := count + 1;
      i := i - 1;
    }
  }

  /** One call short of the threshold the hook is told of the repeated call, unless it was told before. */
  function WarningsDue(o: Options, sigs: seq<Sig>, n: nat, warned: set<Sig>): seq<Sig> {
    if sigs != [] && Threshold(o) > 0 && n == Threshold(o) - 1 && o.warningHook && sigs[|sigs| - 1] !in warned
    then [sigs[|sigs| - 1]] else []
  }

  // ---- messages the runtime writes ----

  function RecordedCall(c: Call): ToolCall { ToolCall(c.id, c.name, c.input, "") }

  function RecordedCalls(cs: seq<Call>): (r: seq<ToolCall>)
    ensures |r| == |cs| && forall i :: 0 <= i < |cs| ==> r[i] == RecordedCall(cs[i])
  {
    seq(|cs|, i requires 0 <= i < |cs| => RecordedCall(cs[i]))
  }

  function AssistantMessage(r: Response): Message
  {
    Message(ASSISTANT, TrimSpace(r.content), RecordedCalls(r.calls), "")
  }

  function Text(role: Role, content: string): Message { Message(role, content, [], "") }

  function ToolMessage(c: Call, content: string): Message
  {
    Message(TOOL, "", [ToolCall(c.id, c.name, "", content)], "")
  }

  const NUDGE_HINT := "[System] You asked questions in plain text."

  lemma {:induction false} WrittenMessagesOrdinary(content: string)
    ensures Ordinary(Text(USER, content)) && Ordinary(Text(ASSISTANT, content))
    ensures !HasCalls(Text(USER, content)) && !HasCalls(Text(ASSISTANT, content))
  {
  }

  // ---- runtimeToolExecutor.Execute ----

  /** Whether PreToolUse, with yolo mode and the permission resolver, lets the call through. */
  predicate PreAllows(e: ToolEnv) {
    e.pre.PreOk? || (e.pre.PreAsks? && (e.yolo || e.resolver.ResolverAllows?))
  }

  predicate Diagnosed(c: Call, e: ToolEnv) { !e.executorNil && e.allowed && c.input == "" && e.requiresParams }

  /** Execute reports no error exactly here. */
  predicate Succeeds(c: Call, e: ToolEnv) {
    !e.executorNil && e.allowed && (Diagnosed(c, e) || (PreAllows(e) && e.execErr.None? && e.postErr.None?))
  }

  /** The tool is run. */
  predicate Made(c: Call, e: ToolEnv) {
    !e.executorNil && e.allowed && !(c.input == "" && e.requiresParams) && PreAllows(e)
  }

  /** What the model is told of a call: under its id and name, and of a tool that was run the output or the error. */
  predicate Tells(m: Message, c: Call, e: ToolEnv) {
    && Answers(m, RecordedCall(c)) && m.content == ""
    && (Made(c, e) ==> m.toolCalls[0].result == if e.execErr.Some? then e.execErr.value.msg else e.output)
  }

  datatype ToolResult = ToolResult(name: string, output: string, isError: bool)

  /** The result the loop keeps of a call: under the tool's name, and a failure is marked and says something. */
  predicate Reported(c: Call, e: ToolEnv, res: ToolResult) {
    res.name == c.name && (!Succeeds(c, e) ==> res.isError && res.output != "")
  }

  const APPROVAL_NEEDED := Error("tool use requires approval", false, false)
  const DENIED := Error("tool use denied", false, false)

  // ---- how one turn goes, as a function of what it meets ----

  /** The response Generate answers with: the retry when the nudge produced calls, the first one otherwise. */
  function Answering(s: Stream): Response
    requires s.Final?
  {
    if s.resp.calls == [] && s.nudge.NudgeWorks? && s.nudge.retry.calls != [] then s.nudge.retry else s.resp
  }

  function CallsIn(e: TurnEnv): seq<Call> { if e.stream.Final? then Answering(e.stream).calls else [] }

  function UsageIn(e: TurnEnv): Usage { if e.stream.Final? then Answering(e.stream).usage else Usage(0, 0, 0) }

  /** As many model calls as allowed have been made: 30 if no number is given; a negative one means no limit. */
  predicate Capped(o: Options, iteration: nat) {
    0 < o.maxIterations <= iteration || (o.maxIterations == 0 && iteration >= 30)
  }

  /** The model is called. */
  predicate Admits(o: Options, e: TurnEnv, iteration: nat) {
    e.ctxErr.None? && !Capped(o, iteration) && e.beforeModel.None?
  }

  /** The model call yields an output. */
  predicate Generates(e: TurnEnv, prompt: string) {
    !e.modelNil && (TrimSpace(prompt) == "" || e.promptHookErr.None?) && e.stream.Final?
  }

  predicate OverBudget(o: Options, u: Usage) {
    (o.maxTokens > 0 && TotalTokens(u) >= o.maxTokens)
    || (o.maxBudget > 0.0 && o.hasModelName && o.cost(u) >= o.maxBudget)
  }

  /** The turn ends between recording the calls and executing them. */
  predicate Abandons(o: Options, e: TurnEnv, u: Usage) { e.afterModel.Some? || OverBudget(o, u) || o.toolsNil }

  /** The first middleware error of the first n calls. */
  function FirstError(env: nat -> CallEnv, n: nat): Option<Error> {
    if n == 0 then None
    else if FirstError(env, n - 1).Some? then FirstError(env, n - 1)
    else if env(n - 1).before.Some? then env(n - 1).before else env(n - 1).after
  }

  /** With cumulative usage u and signatures sigs before it, the turn leaves calls open. */
  predicate StopsOpen(o: Options, e: TurnEnv, prompt: string, u: Usage, iteration: nat) {
    Admits(o, e, iteration) && Generates(e, prompt) && CallsIn(e) != [] && Abandons(o, e, AddUsage(u, UsageIn(e)))
  }

  /** ...or the loop goes round again. */
  ghost predicate GoesOn(o: Options, e: TurnEnv, prompt: string, u: Usage, sigs: seq<Sig>, iteration: nat) {
    Admits(o, e, iteration) && Generates(e, prompt)
    && Proceeds(o, e, CallsIn(e), AddUsage(u, UsageIn(e)), sigs + Sigs(CallsIn(e)))
  }

  /** After an answer with these calls, with usage and signatures up to and including it. */
  ghost predicate Proceeds(o: Options, e: TurnEnv, calls: seq<Call>, total: Usage, sigs: seq<Sig>) {
    calls != [] && !Abandons(o, e, total) && FirstError(e.call, |calls|).None? && RepeatsBelow(sigs, Threshold(o))
  }

  // ---- how a turn ends ----

  const CAP_REACHED := Error("max iterations reached", false, false)
  const MODEL_NIL := Error("model is nil", false, false)
  const NO_RESPONSE := Error("model returned no final response", false, false)
  const TOOLS_NIL := Error("tool executor is nil", false, false)
  const REPEATED := Error("repeated tool call loop", false, false)

  /** What Run returns and where it returns from. */
  datatype Ending = Ending(result: RunResult, exit: Exit)

  const GOING := Ending(Running, StillRunning)

  function Stopped(out: Option<Output>, exit: Exit, err: Option<Error>): Ending {
    Ending(Returned(Annotate(out, ExitReason(exit, err)), err), exit)
  }

  /** The output of an answered turn. */
  function OutputIn(e: TurnEnv): Output
    requires e.stream.Final?
  {
    var resp := Answering(e.stream);
    Output(TrimSpace(resp.content), resp.calls, resp.calls == [], Unset)
  }

  /** Why a turn that was admitted has no output. */
  function GenerateError(e: TurnEnv, prompt: string): Option<Error> {
    if e.modelNil then Some(MODEL_NIL)
    else if TrimSpace(prompt) != "" && e.promptHookErr.Some? then e.promptHookErr
    else if e.stream.StreamFails? then Some(e.stream.err)
    else Some(NO_RESPONSE)
  }

  /** A turn that never calls the model: a dead context goes before the cap, the cap before the middleware. */
  function AwayEnd(o: Options, e: TurnEnv, iteration: nat, last: Option<Output>): Ending {
    if e.ctxErr.Some? then Stopped(last, ByContext, e.ctxErr)
    else if Capped(o, iteration) then Stopped(last, ByIterationCap, Some(CAP_REACHED))
    else Stopped(last, BeforeModelFailed, e.beforeModel)
  }

  /** Between the answer and its calls: middleware, then tokens, then cost, then completion. */
  function JudgeEnd(o: Options, e: TurnEnv, out: Output, total: Usage): Ending {
    if e.afterModel.Some? then Stopped(Some(out), AfterModelFailed, e.afterModel)
    else if o.maxTokens > 0 && TotalTokens(total) >= o.maxTokens then Stopped(Some(out), ByTokens, None)
    else if o.maxBudget > 0.0 && o.hasModelName && o.cost(total) >= o.maxBudget then Stopped(Some(out), ByBudget, None)
    else if out.calls != [] then GOING
    else if e.afterAgent.Some? then Stopped(Some(out), AfterAgentFailed, e.afterAgent)
    else Stopped(Some(out), ByCompletion, None)
  }

  /** The tool round and after it; sigs include those of this round. */
  ghost function ActEnd(o: Options, e: TurnEnv, out: Output, sigs: seq<Sig>): Ending {
    if o.toolsNil then Stopped(Some(out), NoTools, Some(TOOLS_NIL))
    else if FirstError(e.call, |out.calls|).Some? then
      Stopped(Some(out), MiddlewareFailed, FirstError(e.call, |out.calls|))
    else if !RepeatsBelow(sigs, Threshold(o)) then Stopped(Some(out), ByRepeat, Some(REPEATED))
    else GOING
  }

  ghost function AnswerEnd(o: Options, e: TurnEnv, out: Output, total: Usage, sigs: seq<Sig>): Ending {
    if JudgeEnd(o, e, out, total) != GOING then JudgeEnd(o, e, out, total) else ActEnd(o, e, out, sigs)
  }

  ghost function TurnEnd(o: Options, e: TurnEnv, prompt: string, u: Usage, sigs: seq<Sig>, iteration: nat,
                         last: Option<Output>): Ending
  {
    if !Admits(o, e, iteration) then AwayEnd(o, e, iteration, last)
    else if !Generates(e, prompt) then Stopped(last, GenerateFailed, GenerateError(e, prompt))
    else AnswerEnd(o, e, OutputIn(e), AddUsage(u, UsageIn(e)), sigs + Sigs(CallsIn(e)))
  }

  /** It is over. An output carries the reason of the exit, and there is no error exactly on completion and when tokens
      or cost are spent. */
  predicate ReasonGiven(end: Ending) {
    && end.result.Returned? && !end.exit.StillRunning?
    && (end.result.err.None? <==> end.exit in {ByCompletion, ByTokens, ByBudget})
    && (end.result.out.Some? ==>
          && end.result.out.value.stop == ExitReason(end.exit, end.result.err)
          && end.result.out.value.stop != Unset)
  }

  /** The turn goes on exactly as described above, and otherwise gives its reason. */
  lemma {:induction false} TurnEndMeans(o: Options, e: TurnEnv, prompt: string, u: Usage, sigs: seq<Sig>,
                                        iteration: nat, last: Option<Output>)
    requires last.Some? ==> last.value.stop == Unset
    ensures var end := TurnEnd(o, e, prompt, u, sigs, iteration, last);
            && (end == GOING <==> GoesOn(o, e, prompt, u, sigs, iteration))
            && (end.result.Running? <==> end == GOING) && (end != GOING ==> true == ReasonGiven(end))
  {
    if Admits(o, e, iteration) && Generates(e, prompt) {
      AnswerEndMeans(o, e, OutputIn(e), AddUsage(u, UsageIn(e)), sigs + Sigs(CallsIn(e)));
    }
  }

  lemma {:induction false} AnswerEndMeans(o: Options, e: TurnEnv, out: Output, total: Usage, sigs: seq<Sig>)
    requires out.stop == Unset
    ensures var end := AnswerEnd(o, e, out, total, sigs);
            && (end == GOING <==> Proceeds(o, e, out.calls, total, sigs))
            && (end.result.Running? <==> end == GOING)
            && (end != GOING ==>
                  && true == ReasonGiven(end)
                  && end.result.out == Some(out.(stop := ExitReason(end.exit, end.result.err))))
  {
  }

  // ---- the same for a whole run ----

  /** What the caller brought along plus the first k usages. */
  function UsageAfter(u: Usage, env: seq<TurnEnv>, k: nat): Usage
    requires k <= |env|
  {
    if k == 0 then u else AddUsage(UsageAfter(u, env, k - 1), UsageIn(env[k - 1]))
  }

  function SigsAfter(env: seq<TurnEnv>, k: nat): seq<Sig>
    requires k <= |env|
  {
    if k == 0 then [] else SigsAfter(env, k - 1) + Sigs(CallsIn(env[k - 1]))
  }

  // ---- the same sums, field by field ----

  function InputSpent(env: seq<TurnEnv>, k: nat): int
    requires k <= |env|
  {
    if k == 0 then 0 else InputSpent(env, k - 1) + UsageIn(env[k - 1]).input
  }

  function OutputSpent(env: seq<TurnEnv>, k: nat): int
    requires k <= |env|
  {
    if k == 0 then 0 else OutputSpent(env, k - 1) + UsageIn(env[k - 1]).output
  }

  function TotalSpent(env: seq<TurnEnv>, k: nat): int
    requires k <= |env|
  {
    if k == 0 then 0 else TotalSpent(env, k - 1) + UsageIn(env[k - 1]).total
  }

  /** The tokens before turn k: what the caller brought along plus what the first k turns published; input and output
      where no totals are published. */
  function TokensAt(u: Usage, env: seq<TurnEnv>, k: nat): int
    requires k <= |env|
  {
    if u.total + TotalSpent(env, k) > 0 then u.total + TotalSpent(env, k)
    else (u.input + InputSpent(env, k)) + (u.output + OutputSpent(env, k))
  }

  lemma {:induction false} UsageSums(u: Usage, env: seq<TurnEnv>, k: nat)
    requires k <= |env|
    ensures UsageAfter(u, env, k) ==
              Usage(u.input + InputSpent(env, k), u.output + OutputSpent(env, k), u.total + TotalSpent(env, k))
    ensures TotalTokens(UsageAfter(u, env, k)) == TokensAt(u, env, k)
  {
    if k > 0 { UsageSums(u, env, k - 1); }
  }

  predicate NonNegative(u: Usage) { u.input >= 0 && u.output >= 0 && u.total >= 0 }

  /** With usages that are not negative, the counters never go down, but the headline does, exactly when the first
      published total is smaller than the input and output counted without one. */
  lemma {:induction false} HeadlineDropsExactlyWhen(a: Usage, b: Usage)
    requires NonNegative(a) && NonNegative(b)
    ensures var s := AddUsage(a, b); NonNegative(s) && s.input >= a.input && s.output >= a.output && s.total >= a.total
    ensures TotalTokens(AddUsage(a, b)) < TotalTokens(a) <==>
              a.total == 0 && 0 < b.total < a.input + a.output
  {
  }

  /** So over a run the tokens go down exactly when totals are published only after tokens were counted without one, and
      they are smaller. */
  lemma {:induction false} TokensDropExactlyWhen(u: Usage, env: seq<TurnEnv>, j: nat, k: nat)
    requires j <= k <= |env| && NonNegative(u) && forall i :: 0 <= i < |env| ==> NonNegative(UsageIn(env[i]))
    ensures TokensAt(u, env, k) < TokensAt(u, env, j) <==>
              && u.total + TotalSpent(env, j) == 0
              && 0 < u.total + TotalSpent(env, k) < u.input + InputSpent(env, j) + u.output + OutputSpent(env, j)
  {
    SpentGrows(env, 0, j);
    SpentGrows(env, j, k);
  }

  lemma {:induction false} SpentGrows(env: seq<TurnEnv>, j: nat, k: nat)
    requires j <= k <= |env| && forall i :: 0 <= i < |env| ==> NonNegative(UsageIn(env[i]))
    ensures InputSpent(env, j) <= InputSpent(env, k) && OutputSpent(env, j) <= OutputSpent(env, k)
    ensures TotalSpent(env, j) <= TotalSpent(env, k)
    decreases k
  {
    if k > 0 { SpentGrows(env, if j == k then j - 1 else j, k - 1); }
  }

  /** For instance: ten tokens counted as input and output, then a published total of one. */
  lemma {:induction false} HeadlineDropsExample()
    ensures TotalTokens(AddUsage(Usage(6, 4, 0), Usage(0, 0, 1))) == 1 < TotalTokens(Usage(6, 4, 0)) == 10
  {
  }

  /** The prompt is written before the first model call only. */
  function PromptAt(prompt: string, k: nat): string { if k == 0 then prompt else "" }

  ghost predicate GoesOnAt(o: Options, prompt: string, u: Usage, env: seq<TurnEnv>, k: nat)
    requires k < |env|
  {
    GoesOn(o, env[k], PromptAt(prompt, k), UsageAfter(u, env, k), SigsAfter(env, k), k)
  }

  predicate StopsOpenAt(o: Options, prompt: string, u: Usage, env: seq<TurnEnv>, k: nat)
    requires k < |env|
  {
    StopsOpen(o, env[k], PromptAt(prompt, k), UsageAfter(u, env, k), k)
  }

  /** The output of the turn before turn k. */
  function LastAt(env: seq<TurnEnv>, k: nat): Option<Output>
    requires k <= |env|
  {
    if k > 0 && env[k - 1].stream.Final? then Some(OutputIn(env[k - 1])) else None
  }

  ghost function TurnEndAt(o: Options, prompt: string, u: Usage, env: seq<TurnEnv>, k: nat): Ending
    requires k < |env|
  {
    TurnEnd(o, env[k], PromptAt(prompt, k), UsageAfter(u, env, k), SigsAfter(env, k), k, LastAt(env, k))
  }

  /** How a run ends that has reached turn k: as the first turn that does not go on. */
  ghost function RunEnd(o: Options, prompt: string, u: Usage, env: seq<TurnEnv>, k: nat): Ending
    requires k <= |env|
    decreases |env| - k
  {
    if k == |env| then GOING
    else if TurnEndAt(o, prompt, u, env, k) == GOING then RunEnd(o, prompt, u, env, k + 1)
    else TurnEndAt(o, prompt, u, env, k)
  }

  /** Turn k is reached and leaves calls open. */
  ghost predicate OpensAt(o: Options, prompt: string, u: Usage, env: seq<TurnEnv>, k: nat) {
    && k < |env| && StopsOpenAt(o, prompt, u, env, k)
    && forall j :: 0 <= j < k ==> GoesOnAt(o, prompt, u, env, j)
  }

  /** The run ends with calls that nobody answers. */
  ghost predicate LeavesOpen(o: Options, prompt: string, u: Usage, env: seq<TurnEnv>) {
    exists k: nat :: OpensAt(o, prompt, u, env, k)
  }

  // ---- the calls a history records ----

  function SigsOf(calls: seq<ToolCall>): (r: seq<Sig>)
    ensures |r| == |calls| && forall i :: 0 <= i < |r| ==> r[i] == Sig(calls[i].name, calls[i].arguments)
  {
    seq(|calls|, i requires 0 <= i < |calls| => Sig(calls[i].name, calls[i].arguments))
  }

  /** The signatures of all calls in the assistant messages, in order. */
  function SigsIn(ms: seq<Message>): seq<Sig> {
    if ms == [] then [] else (if HasCalls(ms[0]) then SigsOf(ms[0].toolCalls) else []) + SigsIn(ms[1..])
  }

  lemma {:induction false} SigsInConcat(a: seq<Message>, b: seq<Message>)
    ensures SigsIn(a + b) == SigsIn(a) + SigsIn(b)
  {
    if a == [] {
      assert a + b == b;
    } else {
      assert (a + b)[1..] == a[1..] + b;
      SigsInConcat(a[1..], b);
    }
  }

  predicate NoCalls(ms: seq<Message>) { forall i :: 0 <= i < |ms| ==> !HasCalls(ms[i]) }

  lemma {:induction false} NoCallsNoSigs(ms: seq<Message>)
    requires NoCalls(ms)
    ensures SigsIn(ms) == []
  {
    if ms != [] { NoCallsNoSigs(ms[1..]); }
  }

  /** A turn adds messages without calls, the answer, and then more without calls. */
  lemma {:induction false} SigsOfTurn(before: seq<Message>, m: Message, after: seq<Message>, calls: seq<Call>)
    requires NoCalls(before) && NoCalls(after) && m.role == ASSISTANT && m.toolCalls == RecordedCalls(calls)
    ensures SigsIn(before + [m] + after) == Sigs(calls)
  {
    NoCallsNoSigs(before);
    NoCallsNoSigs(after);
    SigsInConcat(before, [m]);
    SigsInConcat(before + [m], after);
    assert [m][1..] == [] && SigsIn([m]) == SigsOf(m.toolCalls) == Sigs(calls);
  }

  /** The part of an agent that the run contracts speak of. */
  datatype View = View(history: seq<Message>, prompt: string, cumulative: Usage, recent: seq<Sig>,
                       seen: seq<seq<Message>>, tokens: seq<int>, sigs: seq<seq<Sig>>)

  class Agent {
    var history: seq<Message>
    var prompt: string
    var published: Option<Usage>          // state.Values["model.usage"]
    var cumulative: Usage
    var cumulativeCost: real
    var toolResults: seq<ToolResult>
    var recentCalls: seq<Sig>
    var warned: set<Sig>
    var warnings: seq<Sig>                // OnRepeatWarning invocations, in order
    // observations, one entry per model call
    ghost var seen: seq<seq<Message>>     // history when Generate is entered
    ghost var tokensSeen: seq<int>        // cumulative tokens at that point
    ghost var sigsSeen: seq<seq<Sig>>     // all call signatures so far at that point
    const opts: Options

    constructor (o: Options, h: seq<Message>, p: string, u: Usage)
      ensures opts == o && history == h && prompt == p && cumulative == u && Fresh()
    {
      opts, history, prompt, published, cumulative, cumulativeCost := o, h, p, None, u, 0.0;
      toolResults, recentCalls, warned, warnings, seen, tokensSeen, sigsSeen := [], [], {}, [], [], [], [];
    }

    ghost function Now(): View
      reads this
    {
      View(history, prompt, cumulative, recentCalls, seen, tokensSeen, sigsSeen)
    }

    ghost predicate Fresh()
      reads this
    {
      recentCalls == [] && warned == {} && warnings == [] && seen == [] && tokensSeen == [] && sigsSeen == []
    }

    /** Every return path leaves exactly one tool message, for this call, behind. */
    method Execute(c: Call, env: ToolEnv) returns (res: ToolResult, err: Option<Error>)
      modifies `history
      ensures |history| == |old(history)| + 1 && history[..|old(history)|] == old(history)
      ensures Tells(history[|old(history)|], c, env)
      ensures err.None? <==> Succeeds(c, env)
      ensures Made(c, env) ==> res.output == env.output
      ensures res.name == c.name || (res.name == "" && err.Some?)
    {
      if env.executorNil {
        history := history + [ToolMessage(c, "Tool execution failed: tool executor not initialized")];
        return ToolResult("", "", false), Some(Error("tool executor not initialized", false, false));
      }
      if !env.allowed {
        history := history + [ToolMessage(c, "Tool execution failed: tool is not whitelisted")];
        return ToolResult("", "", false), Some(Error("tool is not whitelisted", false, false));
      }
      if c.input == "" && env.requiresParams {
        history := history + [ToolMessage(c, "tool called with empty arguments")];
        return ToolResult(c.name, "tool called with empty arguments", false), None;
      }
      var preErr: Option<Error> := match env.pre
        case PreOk => None
        case PreAsks => Some(APPROVAL_NEEDED)
        case PreFails(e) => Some(e);
      if env.pre.PreAsks? {
        if env.yolo {
          preErr := None;
        } else {
          match env.resolver
          case NoResolver =>
          case ResolverFails(e) => preErr := Some(e);
          case ResolverAllows => preErr := None;
          case ResolverDenies => preErr := Some(DENIED);
          case ResolverAsks => preErr := Some(APPROVAL_NEEDED);
        }
      }
      if preErr.Some? {
        history := history + [ToolMessage(c, preErr.value.msg)];
        return ToolResult(c.name, preErr.value.msg, true), preErr;
      }
      var content := if env.execErr.Some? then env.execErr.value.msg else env.output;
      res := ToolResult(c.name, env.output, env.execErr.Some?);
      history := history + [ToolMessage(c, content)];
      if env.postErr.Some? && env.execErr.None? { return res, env.postErr; }
      return res, env.execErr;
    }

    /** The user prompt, written once, before the first model call of a run. */
    method AdmitPrompt(hookErr: Option<Error>) returns (err: Option<Error>, ghost extra: seq<Message>)
      requires WellPaired(history)
      modifies `history, `prompt
      ensures WellPaired(history) && history == old(history) + extra && Plain(extra)
      ensures err == if TrimSpace(old(prompt)) == "" then None else hookErr
      ensures err.None? ==> TrimSpace(prompt) == ""
    {
      var text := TrimSpace(prompt);
      extra := [];
      if text == "" { return None, []; }
      WrittenMessagesOrdinary(text);
      PairedAppendOrdinary(history, Text(USER, text));
      extra := [Text(USER, text)];
      history := history + [Text(USER, text)];
      if hookErr.Some? { return hookErr, extra; }
      prompt := "";
      err := None;
    }

    /** The question nudge and the recording of the answer. */
    method Respond(stream: Stream) returns (out: Output, ghost extra: seq<Message>)
      requires stream.Final? && WellPaired(history)
      modifies `history, `published
      ensures true == Recorded(history, out) && history == old(history) + extra + [MessageOf(out)] && Plain(extra)
      ensures published == Some(Answering(stream).usage)
      ensures var resp := Answering(stream); out == Output(TrimSpace(resp.content), resp.calls, resp.calls == [], Unset)
    {
      var Final(resp, nudge) := stream;
      extra := [];
      if resp.calls == [] && !nudge.NoNudge? {
        history := Nudged(history, nudge.text);
        if nudge.NudgeWorks? && nudge.retry.calls != [] {
          resp := nudge.retry;
          extra := NudgeMessages(nudge.text);
        } else {
          history := history[..|history| - 2];
        }
      }
      published := Some(resp.usage);
      var message := AssistantMessage(resp);
      assert (history + [message])[..|history|] == history == old(history) + extra;
      history := history + [message];
      out := Output(message.content, resp.calls, resp.calls == [], Unset);
    }

    /** conversationModel.Generate without a compactor. On success the history gains ordinary messages and then one
        assistant message carrying the calls of the returned output; on failure only ordinary messages. */
    method Generate(env: TurnEnv) returns (out: Option<Output>, err: Option<Error>, ghost extra: seq<Message>)
      requires WellPaired(history)
      modifies `history, `prompt, `published
      ensures out.Some? <==> err.None?
      ensures out.Some? <==> Generates(env, old(prompt))
      ensures err.Some? ==> err == GenerateError(env, old(prompt))
      ensures Plain(extra)
      ensures err.Some? ==> WellPaired(history) && published == old(published) && history == old(history) + extra
      ensures out.Some? ==>
                && published == Some(UsageIn(env)) && out.value == OutputIn(env) && out.value.calls == CallsIn(env)
                && true == Recorded(history, out.value)
                && history == old(history) + extra + [MessageOf(out.value)] && TrimSpace(prompt) == ""
    {
      if env.modelNil { return None, Some(MODEL_NIL), []; }
      err, extra := AdmitPrompt(env.promptHookErr);
      if err.Some? { return None, err, extra; }
      match env.stream
      case StreamFails(e) => return None, Some(e), extra;
      case NoFinalResponse => return None, Some(NO_RESPONSE), extra;
      case Final(_, _) =>
        ghost var first := extra;
        var o;
        o, extra := Respond(env.stream);
        assert old(history) + first + extra + [MessageOf(o)] == old(history) + (first + extra) + [MessageOf(o)];
        extra := first + extra;
        out := Some(o);
    }

    /** updateCumulative */
    method UpdateCumulative()
      modifies `cumulative, `cumulativeCost
      ensures cumulative == if published.Some? then AddUsage(old(cumulative), published.value) else old(cumulative)
      ensures published.Some? ==>
                && cumulative.input == old(cumulative).input + published.value.input
                && cumulative.output == old(cumulative).output + published.value.output
                && cumulative.total == old(cumulative).total + published.value.total
      ensures cumulativeCost ==
                if published.Some? && opts.hasModelName then opts.cost(cumulative) else old(cumulativeCost)
    {
      if published.Some? {
        cumulative := AddUsage(cumulative, published.value);
        if opts.hasModelName { cumulativeCost := opts.cost(cumulative); }
      }
    }

    /** One call: Execute, then the error fields the loop fills in itself. */
    method CallTool(c: Call, env: ToolEnv)
      modifies `history, `toolResults
      ensures |history| == |old(history)| + 1 && history[..|old(history)|] == old(history)
      ensures Tells(history[|old(history)|], c, env)
      ensures |toolResults| == |old(toolResults)| + 1 && toolResults[..|old(toolResults)|] == old(toolResults)
      ensures Reported(c, env, toolResults[|old(toolResults)|])
    {
      var res, err := Execute(c, env);
      if err.Some? {
        if res.name == "" { res := res.(name := c.name); }
        if res.output == "" { res := res.(output := "Tool execution failed: " + err.value.msg); }
        res := res.(isError := true);
      }
      toolResults := toolResults + [res];
    }

    /** The tool loop: middleware errors are remembered, never skip a call. */
    method RunTools(out: Output, env: nat -> CallEnv) returns (firstErr: Option<Error>)
      requires true == Recorded(history, out) && out.calls != []
      modifies `history, `toolResults
      ensures true == WellPaired(history) && old(history) <= history && |history| == |old(history)| + |out.calls|
      ensures NoCalls(history[|old(history)|..])
      ensures true == AllAnswered(out.calls, env, |out.calls|, old(history), history)
      ensures true == AllReported(out.calls, env, |out.calls|, old(toolResults), toolResults)
      ensures firstErr == FirstError(env, |out.calls|)
    {
      firstErr := None;
      for i := 0 to |out.calls|
        invariant true == AllAnswered(out.calls, env, i, old(history), history)
        invariant true == AllReported(out.calls, env, i, old(toolResults), toolResults)
        invariant firstErr == FirstError(env, i)
      {
        if env(i).before.Some? && firstErr.None? { firstErr := env(i).before; }
        ghost var h, t := history, toolResults;
        CallTool(out.calls[i], env(i).tool);
        AnsweredNext(out.calls, env, i, old(history), h, history);
        ReportedNext(out.calls, env, i, old(toolResults), t, toolResults);
        if env(i).after.Some? && firstErr.None? { firstErr := env(i).after; }
      }
      AllAnswer(out.calls, env, old(history), history);
      CloseGroup(old(history), out, history);
      AnswersHaveNoCalls(history, |old(history)|, RecordedCalls(out.calls));
    }

    /** Repeat detection after a completed round of calls. */
    method CheckRepeats(calls: seq<Call>) returns (abort: bool)
      requires calls != [] && true == WarnedOnce(warned, warnings)
      modifies `recentCalls, `warned, `warnings
      ensures recentCalls == old(recentCalls) + Sigs(calls)
      ensures true == WarnedOnce(warned, warnings)
      ensures abort <==> !RepeatsBelow(recentCalls, Threshold(opts))
      ensures forall n: nat :: IsTailRepeat(recentCalls, n) ==>
                && (abort <==> Threshold(opts) > 0 && n >= Threshold(opts))
                && warnings == old(warnings) + WarningsDue(opts, recentCalls, n, old(warned))
    {
      recentCalls := recentCalls + Sigs(calls);
      abort := false;
      var threshold := Threshold(opts);
      if threshold > 0 {
        var count := TailRepeatCount(recentCalls);
        TailRepeatUnique(recentCalls, count);
        if count >= threshold { return true; }
        if count == threshold - 1 && opts.warningHook {
          var sig := recentCalls[|recentCalls| - 1];
          if sig !in warned {
            warned, warnings := warned + {sig}, warnings + [sig];
          }
        }
      }
    }

    /** The checks before a model call. */
    method Admit(env: TurnEnv, last: Option<Output>, iteration: nat) returns (r: RunResult, exit: Exit)
      requires last.Some? ==> last.value.stop == Unset
      ensures r.Running? <==> Admits(opts, env, iteration)
      ensures Ending(r, exit) == if Admits(opts, env, iteration) then GOING else AwayEnd(opts, env, iteration, last)
      ensures r.Returned? ==> (r.out.Some? <==> last.Some?) && r.err.Some?
      ensures r.Returned? && r.out.Some? ==>
                r.out.value == last.value.(stop := ExitReason(exit, r.err)) && r.out.value.stop != Unset
    {
      if env.ctxErr.Some? {
        var reason := if env.ctxErr.value.deadline then ContextDeadline else ContextCancel;
        return Returned(Annotate(last, reason), env.ctxErr), ByContext;
      }
      if IterationCap(opts) > 0 && iteration >= IterationCap(opts) {
        return Returned(Annotate(last, MaxIterations), Some(CAP_REACHED)), ByIterationCap;
      }
      if env.beforeModel.Some? {
        return Returned(Annotate(last, ClassifyError(env.beforeModel.value)), env.beforeModel), BeforeModelFailed;
      }
      return Running, StillRunning;
    }

    /** The checks between a model's answer and its tool calls; u is the usage it published. */
    method Judge(env: TurnEnv, out: Output, ghost u: Usage) returns (r: RunResult, exit: Exit)
      requires out.stop == Unset && out.done == (out.calls == []) && published == Some(u)
      modifies `cumulative, `cumulativeCost
      ensures var total := AddUsage(old(cumulative), u);
              && cumulative == (if env.afterModel.None? then total else old(cumulative))
              && Ending(r, exit) == JudgeEnd(opts, env, out, total)
              && (r.Running? <==> out.calls != [] && env.afterModel.None? && !OverBudget(opts, total))
              && (LeavesCallsOpen(exit) <==> env.afterModel.Some? || OverBudget(opts, total))
    {
      if env.afterModel.Some? {
        return Returned(Annotate(Some(out), ClassifyError(env.afterModel.value)), env.afterModel), AfterModelFailed;
      }
      UpdateCumulative();
      if opts.maxTokens > 0 && TotalTokens(cumulative) >= opts.maxTokens {
        return Returned(Some(out.(stop := MaxTokens)), None), ByTokens;
      }
      if opts.maxBudget > 0.0 && opts.hasModelName && cumulativeCost >= opts.maxBudget {
        return Returned(Some(out.(stop := MaxBudget)), None), ByBudget;
      }
      if out.done || out.calls == [] {
        if env.afterAgent.Some? { return Returned(Some(out.(stop := Completed)), env.afterAgent), AfterAgentFailed; }
        return Returned(Some(out.(stop := Completed)), None), ByCompletion;
      }
      return Running, StillRunning;
    }

    /** The tool round and what follows it. */
    method Act(env: TurnEnv, out: Output) returns (r: RunResult, exit: Exit)
      requires true == Recorded(history, out) && out.calls != [] && out.stop == Unset
      requires true == WarnedOnce(warned, warnings)
      modifies `history, `toolResults, `recentCalls, `warned, `warnings
      ensures if opts.toolsNil then history == old(history) else true == WellPaired(history)
      ensures old(history) <= history && NoCalls(history[|old(history)|..])
      ensures true == WarnedOnce(warned, warnings)
      ensures !opts.toolsNil ==> true == AllAnswered(out.calls, env.call, |out.calls|, old(history), history)
      ensures Ending(r, exit) == ActEnd(opts, env, out, old(recentCalls) + Sigs(out.calls))
      ensures r.Running? ==> recentCalls == old(recentCalls) + Sigs(out.calls)
    {
      if opts.toolsNil {
        return Returned(Annotate(Some(out), ModelError), Some(TOOLS_NIL)), NoTools;
      }
      var firstErr := RunTools(out, env.call);
      if firstErr.Some? {
        return Returned(Annotate(Some(out), ClassifyError(firstErr.value)), firstErr), MiddlewareFailed;
      }
      var abort := CheckRepeats(out.calls);
      if abort {
        return Returned(Annotate(Some(out), RepeatLoop), Some(REPEATED)), ByRepeat;
      }
      return Running, StillRunning;
    }

    /** Everything after a successful model call. */
    method Follow(env: TurnEnv, out: Output, ghost u: Usage) returns (r: RunResult, exit: Exit)
      requires true == Recorded(history, out) && out.stop == Unset && true == WarnedOnce(warned, warnings)
               && published == Some(u)
      modifies `cumulative, `cumulativeCost, `history, `toolResults, `recentCalls, `warned, `warnings
      ensures true == WarnedOnce(warned, warnings)
      ensures old(history) <= history && NoCalls(history[|old(history)|..])
      ensures var total := AddUsage(old(cumulative), u);
              && (WellPaired(history) <==> !(out.calls != [] && Abandons(opts, env, total)))
              && Ending(r, exit) == AnswerEnd(opts, env, out, total, old(recentCalls) + Sigs(out.calls))
              && (r.Running? ==> cumulative == total && recentCalls == old(recentCalls) + Sigs(out.calls))
      ensures r.Running? ==> true == AllAnswered(out.calls, env.call, |out.calls|, old(history), history)
    {
      RecordedPlain(history, out);
      r, exit := Judge(env, out, u);
      if r.Running? { r, exit := Act(env, out); }
    }

    /** The rest of a turn that began at a and has called the model. */
    method Pursue(env: TurnEnv, out: Output, ghost iteration: nat, ghost a: View, ghost extra: seq<Message>)
      returns (r: RunResult, exit: Exit)
      requires true == Answered(env, iteration, a, Now(), out, extra)
      requires true == Recorded(history, out) && true == WarnedOnce(warned, warnings) && published == Some(UsageIn(env))
      modifies `cumulative, `cumulativeCost, `history, `toolResults, `recentCalls, `warned, `warnings
      ensures true == WarnedOnce(warned, warnings)
      ensures Ending(r, exit) ==
                AnswerEnd(opts, env, out, AddUsage(a.cumulative, UsageIn(env)), a.recent + Sigs(out.calls))
      ensures true == Turned(opts, env, iteration, a, Now(), r.Running?)
    {
      ghost var answered := history;
      AnswerEndMeans(opts, env, out, AddUsage(a.cumulative, UsageIn(env)), a.recent + Sigs(out.calls));
      r, exit := Follow(env, out, UsageIn(env));
      if r.Running? { RoundEnds(a.history + extra, env, answered, history); }
      TurnSigs(a.history, extra, out, answered, history);
      TurnedOver(opts, env, iteration, a, Now(), r.Running?);
    }

    /** The model has answered the turn that began at a: b is as a but for the call, the prompt and the messages. */
    ghost predicate Answered(e: TurnEnv, iteration: nat, a: View, b: View, out: Output, extra: seq<Message>) {
      && Admits(opts, e, iteration) && Generates(e, a.prompt) && Called(a, b) && TrimSpace(b.prompt) == ""
      && b.cumulative == a.cumulative && b.recent == a.recent
      && b.history == a.history + extra + [MessageOf(out)] && Plain(extra)
      && out == OutputIn(e) && out.calls == CallsIn(e)
    }

    /** One trip round the loop. */
    method Turn(env: TurnEnv, last: Option<Output>, iteration: nat)
      returns (r: RunResult, next: Option<Output>, exit: Exit)
      requires last.Some? ==> last.value.stop == Unset
      requires true == WellPaired(history) && true == WarnedOnce(warned, warnings)
      modifies this
      ensures r.Running? ==> env.stream.Final? && next == Some(OutputIn(env))
      ensures true == WarnedOnce(warned, warnings)
      ensures Ending(r, exit) == TurnEnd(opts, env, old(prompt), old(cumulative), old(recentCalls), iteration, last)
      ensures true == Turned(opts, env, iteration, old(Now()), Now(), r.Running?)
    {
      next := last;
      ghost var a := Now();
      r, exit := Admit(env, last, iteration);
      if r.Returned? {
        TurnedAway(opts, env, iteration, a);
        return;
      }
      NoteModelCall();
      var out, err;
      ghost var extra;
      out, err, extra := Generate(env);
      if err.Some? {
        TurnedInVain(opts, env, iteration, a, Now());
        return Returned(Annotate(last, ClassifyError(err.value)), err), last, GenerateFailed;
      }
      next := out;
      r, exit := Pursue(env, out.value, iteration, a, extra);
    }

    /** Observation only: what the model call is about to see. */
    ghost method NoteModelCall()
      modifies `seen, `tokensSeen, `sigsSeen
      ensures seen == old(seen) + [history] && tokensSeen == old(tokensSeen) + [TotalTokens(cumulative)]
      ensures sigsSeen == old(sigsSeen) + [recentCalls]
    {
      seen, tokensSeen, sigsSeen := seen + [history], tokensSeen + [TotalTokens(cumulative)], sigsSeen + [recentCalls];
    }

    /** Run over any finite prefix of what the environment does. */
    method Run(env: seq<TurnEnv>) returns (r: RunResult, exit: Exit)
      requires WellPaired(history) && Fresh()
      modifies this
      ensures true == WarnedOnce(warned, warnings)
      ensures Ending(r, exit) == RunEnd(opts, old(prompt), old(cumulative), env, 0)
      ensures r.Running? <==> AllGoOn(opts, old(prompt), old(cumulative), env, |env|)
      ensures true == Observed(opts, old(prompt), old(cumulative), env, old(history), Now())
      ensures WellPaired(history) <==> !LeavesOpen(opts, old(prompt), old(cumulative), env)
    {
      var last: Option<Output> := None;
      r, exit := Running, StillRunning;
      ghost var h, p, u := history, prompt, cumulative;
      BeginState(opts, p, u, env, h, Now());
      for iteration := 0 to |env|
        invariant Ending(r, exit) == GOING && last == LastAt(env, iteration)
        invariant RunEnd(opts, p, u, env, 0) == RunEnd(opts, p, u, env, iteration)
        invariant true == WarnedOnce(warned, warnings)
        invariant true == WellPaired(history) && true == RunState(opts, p, u, env, h, iteration, Now())
      {
        ghost var before := Now();
        r, last, exit := Turn(env[iteration], last, iteration);
        TurnKeeps(opts, p, u, env, h, iteration, before, Now(), r.Running?);
        InStepEnd(opts, p, u, env, h, iteration, before);
        if r.Returned? { return; }
      }
      NeverOpens(opts, p, u, env);
    }

    function Nudged(h: seq<Message>, text: string): (r: seq<Message>)
      requires WellPaired(h)
      ensures WellPaired(r) && r == h + NudgeMessages(text) && r[..|r| - 2] == h && Plain(NudgeMessages(text))
    {
      WrittenMessagesOrdinary(text);
      WrittenMessagesOrdinary(NUDGE_HINT);
      PairedAppendOrdinary(h, Text(ASSISTANT, text));
      PairedAppendOrdinary(h + [Text(ASSISTANT, text)], Text(USER, NUDGE_HINT));
      assert h + [Text(ASSISTANT, text)] + [Text(USER, NUDGE_HINT)] == h + NudgeMessages(text);
      h + NudgeMessages(text)
    }
  }

  function NudgeMessages(text: string): seq<Message> { [Text(ASSISTANT, text), Text(USER, NUDGE_HINT)] }

  function MessageOf(out: Output): Message { Message(ASSISTANT, out.content, RecordedCalls(out.calls), "") }

  predicate Plain(ms: seq<Message>) { forall i :: 0 <= i < |ms| ==> Ordinary(ms[i]) }

  /** What a turn adds to the history records exactly its calls. */
  lemma {:induction false} TurnSigs(h: seq<Message>, extra: seq<Message>, out: Output, answered: seq<Message>,
                                    after: seq<Message>)
    requires answered == h + extra + [MessageOf(out)] && Plain(extra) && answered <= after
             && NoCalls(after[|answered|..])
    ensures h <= after && SigsIn(after[|h|..]) == Sigs(out.calls)
  {
    var rest := after[|answered|..];
    assert after == answered + rest;
    assert after[|h|..] == extra + [MessageOf(out)] + rest;
    SigsOfTurn(extra, MessageOf(out), rest, out.calls);
  }

  ghost predicate ToldAt(calls: seq<Call>, env: nat -> CallEnv, k: nat, n: nat, h: seq<Message>)
    requires k < |calls| && n + k < |h|
  {
    Tells(h[n + k], calls[k], env(k).tool)
  }

  /** The first i calls have been answered in the history, in order. */
  ghost predicate AllAnswered(calls: seq<Call>, env: nat -> CallEnv, i: nat, h: seq<Message>, h': seq<Message>) {
    && i <= |calls| && |h'| == |h| + i && h'[..|h|] == h
    && forall k :: 0 <= k < i ==> ToldAt(calls, env, k, |h|, h')
  }

  lemma {:induction false} AnsweredNext(calls: seq<Call>, env: nat -> CallEnv, i: nat, h: seq<Message>,
                                        h1: seq<Message>, h2: seq<Message>)
    requires AllAnswered(calls, env, i, h, h1) && i < |calls|
    requires |h2| == |h1| + 1 && h2[..|h1|] == h1 && Tells(h2[|h1|], calls[i], env(i).tool)
    ensures true == AllAnswered(calls, env, i + 1, h, h2)
  {
    assert h2[..|h|] == h1[..|h|];
    forall k | 0 <= k < i + 1 ensures ToldAt(calls, env, k, |h|, h2) {
      assert k < i ==> ToldAt(calls, env, k, |h|, h1) && h1[|h| + k] == h2[..|h1|][|h| + k];
    }
  }

  lemma {:induction false} AllAnswer(calls: seq<Call>, env: nat -> CallEnv, h: seq<Message>, h': seq<Message>)
    requires AllAnswered(calls, env, |calls|, h, h')
    ensures |h'| == |h| + |calls| && h'[..|h|] == h
    ensures forall k :: 0 <= k < |calls| ==> Answers(h'[|h| + k], RecordedCall(calls[k]))
  {
    forall k | 0 <= k < |calls| ensures Answers(h'[|h| + k], RecordedCall(calls[k])) {
      assert ToldAt(calls, env, k, |h|, h');
    }
  }

  /** A history that ends in the answer of a turn and, in order, in what its calls came to. */
  ghost predicate EndsAnswered(h: seq<Message>, e: TurnEnv) {
    && e.stream.Final? && |CallsIn(e)| < |h|
    && var n := |h| - |CallsIn(e)|;
       h[n - 1] == MessageOf(OutputIn(e)) && forall k :: 0 <= k < |CallsIn(e)| ==> ToldAt(CallsIn(e), e.call, k, n, h)
  }

  lemma {:induction false} RoundEnds(h: seq<Message>, e: TurnEnv, answered: seq<Message>, after: seq<Message>)
    requires e.stream.Final? && answered == h + [MessageOf(OutputIn(e))]
    requires AllAnswered(CallsIn(e), e.call, |CallsIn(e)|, answered, after)
    ensures true == EndsAnswered(after, e)
  {
    assert after[|h|] == after[..|answered|][|h|];
  }

  ghost predicate ReportedAt(calls: seq<Call>, env: nat -> CallEnv, k: nat, n: nat, t: seq<ToolResult>)
    requires k < |calls| && n + k < |t|
  {
    Reported(calls[k], env(k).tool, t[n + k])
  }

  /** The first i calls have been reported, in order. */
  ghost predicate AllReported(calls: seq<Call>, env: nat -> CallEnv, i: nat, t: seq<ToolResult>, t': seq<ToolResult>) {
    && i <= |calls| && |t'| == |t| + i && t'[..|t|] == t
    && forall k :: 0 <= k < i ==> ReportedAt(calls, env, k, |t|, t')
  }

  lemma {:induction false} ReportedNext(calls: seq<Call>, env: nat -> CallEnv, i: nat, t: seq<ToolResult>,
                                        t1: seq<ToolResult>, t2: seq<ToolResult>)
    requires AllReported(calls, env, i, t, t1) && i < |calls|
    requires |t2| == |t1| + 1 && t2[..|t1|] == t1 && Reported(calls[i], env(i).tool, t2[|t1|])
    ensures true == AllReported(calls, env, i + 1, t, t2)
  {
    assert t2[..|t|] == t1[..|t|];
    forall k | 0 <= k < i + 1 ensures ReportedAt(calls, env, k, |t|, t2) {
      assert k < i ==> ReportedAt(calls, env, k, |t|, t1) && t1[|t| + k] == t2[..|t1|][|t| + k];
    }
  }

  // ---- what a run has seen so far ----

  /** One turn: it goes on, leaves calls open and calls the model exactly as described above, only adds to the history,
      and when it goes on has counted the answer's usage and calls. */
  ghost predicate Turned(o: Options, e: TurnEnv, iteration: nat, a: View, b: View, on: bool) {
    && a.history <= b.history
    && (on <==> GoesOn(o, e, a.prompt, a.cumulative, a.recent, iteration))
    && (WellPaired(b.history) <==> !StopsOpen(o, e, a.prompt, a.cumulative, iteration))
    && (if Admits(o, e, iteration) then Called(a, b) else b.seen == a.seen && b.tokens == a.tokens && b.sigs == a.sigs)
    && (on ==> true == HandsOn(e, a, b) && true == EndsAnswered(b.history, e))
  }

  lemma {:induction false} TurnedAway(o: Options, e: TurnEnv, iteration: nat, a: View)
    requires !Admits(o, e, iteration) && WellPaired(a.history)
    ensures true == Turned(o, e, iteration, a, a, false)
  {
  }

  lemma {:induction false} TurnedInVain(o: Options, e: TurnEnv, iteration: nat, a: View, b: View)
    requires Admits(o, e, iteration) && !Generates(e, a.prompt) && WellPaired(b.history) && a.history <= b.history
             && Called(a, b)
    ensures true == Turned(o, e, iteration, a, b, false)
  {
  }

  lemma {:induction false} TurnedOver(o: Options, e: TurnEnv, iteration: nat, a: View, b: View, on: bool)
    requires Admits(o, e, iteration) && Generates(e, a.prompt) && a.history <= b.history && Called(a, b)
    requires var total := AddUsage(a.cumulative, UsageIn(e));
             && (WellPaired(b.history) <==> !(CallsIn(e) != [] && Abandons(o, e, total)))
             && (on <==> Proceeds(o, e, CallsIn(e), total, a.recent + Sigs(CallsIn(e))))
             && (on ==> b.cumulative == total && b.recent == a.recent + Sigs(CallsIn(e)))
    requires SigsIn(b.history[|a.history|..]) == Sigs(CallsIn(e)) && TrimSpace(b.prompt) == ""
    requires on ==> true == EndsAnswered(b.history, e)
    ensures true == Turned(o, e, iteration, a, b, on)
  {
  }

  /** The model has been called with what a shows. */
  predicate Called(a: View, b: View) {
    b.seen == a.seen + [a.history] && b.tokens == a.tokens + [TotalTokens(a.cumulative)]
    && b.sigs == a.sigs + [a.recent]
  }

  lemma {:induction false} CallsKept(a: View, b: View)
    requires Called(a, b)
    ensures a.seen <= b.seen && a.tokens <= b.tokens && a.sigs <= b.sigs
  {
  }

  /** Model call k found a well-paired history that extends the one before by the last answer and what its calls came
      to, whose calls since the start are the signatures counted for repeats, and the caller's usage plus k published
      ones; and the turns before it went on. */
  ghost predicate ObservedAt(o: Options, prompt: string, u: Usage, env: seq<TurnEnv>, h: seq<Message>, v: View, k: nat)
    requires k < |v.seen| == |v.tokens| == |v.sigs| <= |env|
  {
    && WellPaired(v.seen[k]) && h <= v.seen[k]
    && (k > 0 ==> v.seen[k - 1] <= v.seen[k] && true == EndsAnswered(v.seen[k], env[k - 1]))
    && v.tokens[k] == TotalTokens(UsageAfter(u, env, k)) == TokensAt(u, env, k)
    && v.sigs[k] == SigsAfter(env, k) == SigsIn(v.seen[k][|h|..])
    && Admits(o, env[k], k) && (k > 0 ==> GoesOnAt(o, prompt, u, env, k - 1))
  }

  /** All model calls of a run so far, each extending the history before it, and the history extending the last. */
  ghost predicate Observed(o: Options, prompt: string, u: Usage, env: seq<TurnEnv>, h: seq<Message>, v: View) {
    && |v.seen| == |v.tokens| == |v.sigs| <= |env| && h <= v.history
    && (v.seen != [] ==> v.seen[|v.seen| - 1] <= v.history)
    && forall k :: 0 <= k < |v.seen| ==> ObservedAt(o, prompt, u, env, h, v, k)
  }

  /** The loop's own variables agree with the environment met so far. */
  ghost predicate InStep(prompt: string, u: Usage, env: seq<TurnEnv>, h: seq<Message>, k: nat, v: View) {
    && k <= |env| && h <= v.history && v.cumulative == UsageAfter(u, env, k)
    && v.recent == SigsAfter(env, k) == SigsIn(v.history[|h|..])
    && TrimSpace(v.prompt) == TrimSpace(PromptAt(prompt, k)) && (k > 0 ==> true == EndsAnswered(v.history, env[k - 1]))
  }

  ghost predicate AllGoOn(o: Options, prompt: string, u: Usage, env: seq<TurnEnv>, n: nat) {
    n <= |env| && forall k :: 0 <= k < n ==> GoesOnAt(o, prompt, u, env, k)
  }

  /** Before turn k. */
  ghost predicate RunState(o: Options, prompt: string, u: Usage, env: seq<TurnEnv>, h: seq<Message>, k: nat, v: View) {
    && AllGoOn(o, prompt, u, env, k) && Observed(o, prompt, u, env, h, v) && |v.seen| == k
    && InStep(prompt, u, env, h, k, v) && WellPaired(v.history)
  }

  lemma {:induction false} BeginState(o: Options, prompt: string, u: Usage, env: seq<TurnEnv>, h: seq<Message>, v: View)
    requires v == View(h, prompt, u, [], [], [], []) && WellPaired(h)
    ensures true == RunState(o, prompt, u, env, h, 0, v)
  {
    assert h[|h|..] == [];
  }

  /** In step with the environment, the turn's own description is the run's. */
  lemma {:induction false} InStepMeans(o: Options, prompt: string, u: Usage, env: seq<TurnEnv>, h: seq<Message>, k: nat,
                                       v: View)
    requires true == InStep(prompt, u, env, h, k, v) && k < |env|
    ensures GoesOn(o, env[k], v.prompt, v.cumulative, v.recent, k) <==> GoesOnAt(o, prompt, u, env, k)
    ensures StopsOpen(o, env[k], v.prompt, v.cumulative, k) <==> StopsOpenAt(o, prompt, u, env, k)
  {
  }

  /** ...and so is its ending. */
  lemma {:induction false} InStepEnd(o: Options, prompt: string, u: Usage, env: seq<TurnEnv>, h: seq<Message>, k: nat,
                                     v: View)
    requires true == RunState(o, prompt, u, env, h, k, v) && k < |env|
    ensures var end := TurnEnd(o, env[k], v.prompt, v.cumulative, v.recent, k, LastAt(env, k));
            && end == TurnEndAt(o, prompt, u, env, k)
            && RunEnd(o, prompt, u, env, k) == (if end == GOING then RunEnd(o, prompt, u, env, k + 1) else end)
            && (end.result.Running? <==> end == GOING)
  {
    SamePrompt(o, env[k], v.prompt, PromptAt(prompt, k), v.cumulative, v.recent, k, LastAt(env, k));
    TurnEndMeans(o, env[k], v.prompt, v.cumulative, v.recent, k, LastAt(env, k));
  }

  lemma {:induction false} SamePrompt(o: Options, e: TurnEnv, p: string, q: string, u: Usage, sigs: seq<Sig>,
                                      iteration: nat, last: Option<Output>)
    requires TrimSpace(p) == TrimSpace(q)
    ensures TurnEnd(o, e, p, u, sigs, iteration, last) == TurnEnd(o, e, q, u, sigs, iteration, last)
  {
  }

  /** Turns k up to j went on. */
  ghost predicate GoOnFrom(o: Options, prompt: string, u: Usage, env: seq<TurnEnv>, k: nat, j: nat) {
    k <= j <= |env| && forall i :: k <= i < j ==> GoesOnAt(o, prompt, u, env, i)
  }

  lemma {:induction false} GoOnBefore(o: Options, prompt: string, u: Usage, env: seq<TurnEnv>, k: nat, j: nat)
    requires k < |env| && GoesOnAt(o, prompt, u, env, k) && GoOnFrom(o, prompt, u, env, k + 1, j)
    ensures true == GoOnFrom(o, prompt, u, env, k, j)
  {
  }

  /** What the ending of a run says: the turns before turn j went on, and if there is a turn j it did not, and the run
      ends for its reason. */
  lemma {:induction false} RunEndMeans(o: Options, prompt: string, u: Usage, env: seq<TurnEnv>, k: nat) returns (j: nat)
    requires k <= |env|
    ensures true == GoOnFrom(o, prompt, u, env, k, j)
    ensures j == |env| ==> RunEnd(o, prompt, u, env, k) == GOING
    ensures j < |env| ==>
              && !GoesOnAt(o, prompt, u, env, j) && RunEnd(o, prompt, u, env, k) == TurnEndAt(o, prompt, u, env, j)
              && true == ReasonGiven(RunEnd(o, prompt, u, env, k))
    decreases |env| - k
  {
    j := k;
    if k < |env| {
      TurnEndAtMeans(o, prompt, u, env, k);
      if TurnEndAt(o, prompt, u, env, k) == GOING {
        j := RunEndMeans(o, prompt, u, env, k + 1);
        GoOnBefore(o, prompt, u, env, k, j);
      }
    }
  }

  lemma {:induction false} TurnEndAtMeans(o: Options, prompt: string, u: Usage, env: seq<TurnEnv>, k: nat)
    requires k < |env|
    ensures TurnEndAt(o, prompt, u, env, k) == GOING <==> GoesOnAt(o, prompt, u, env, k)
    ensures TurnEndAt(o, prompt, u, env, k) != GOING ==> true == ReasonGiven(TurnEndAt(o, prompt, u, env, k))
  {
    TurnEndMeans(o, env[k], PromptAt(prompt, k), UsageAfter(u, env, k), SigsAfter(env, k), k, LastAt(env, k));
  }

  /** What a turn that goes on hands to the next. */
  predicate HandsOn(e: TurnEnv, a: View, b: View) {
    && a.history <= b.history && b.cumulative == AddUsage(a.cumulative, UsageIn(e))
    && b.recent == a.recent + Sigs(CallsIn(e)) && SigsIn(b.history[|a.history|..]) == Sigs(CallsIn(e))
    && TrimSpace(b.prompt) == ""
  }

  lemma {:induction false} InStepNext(prompt: string, u: Usage, env: seq<TurnEnv>, h: seq<Message>, k: nat, a: View,
                                      b: View)
    requires true == InStep(prompt, u, env, h, k, a) && k < |env| && HandsOn(env[k], a, b)
    requires true == EndsAnswered(b.history, env[k])
    ensures true == InStep(prompt, u, env, h, k + 1, b)
  {
    var front, added := a.history[|h|..], b.history[|a.history|..];
    assert b.history[|h|..] == front + added;
    SigsInConcat(front, added);
  }

  /** The model call of turn k joins the record. */
  lemma {:induction false} ObservedCall(o: Options, prompt: string, u: Usage, env: seq<TurnEnv>, h: seq<Message>,
                                        k: nat, a: View, b: View)
    requires true == RunState(o, prompt, u, env, h, k, a) && k < |env| && Admits(o, env[k], k)
    requires Called(a, b) && a.history <= b.history
    ensures true == Observed(o, prompt, u, env, h, b)
  {
    CallsKept(a, b);
    forall j | 0 <= j < |b.seen| ensures ObservedAt(o, prompt, u, env, h, b, j) {
      if j < k {
        ObservedEarlier(o, prompt, u, env, h, a, b, j);
      } else {
        ObservedLast(o, prompt, u, env, h, k, a, b);
      }
    }
  }

  lemma {:induction false} ObservedEarlier(o: Options, prompt: string, u: Usage, env: seq<TurnEnv>, h: seq<Message>,
                                           a: View, b: View, j: nat)
    requires true == Observed(o, prompt, u, env, h, a) && j < |a.seen| < |env|
    requires a.seen <= b.seen && a.tokens <= b.tokens && a.sigs <= b.sigs
    requires |b.seen| == |b.tokens| == |b.sigs| <= |env|
    ensures true == ObservedAt(o, prompt, u, env, h, b, j)
  {
    assert ObservedAt(o, prompt, u, env, h, a, j);
  }

  lemma {:induction false} ObservedLast(o: Options, prompt: string, u: Usage, env: seq<TurnEnv>, h: seq<Message>,
                                        k: nat, a: View, b: View)
    requires true == RunState(o, prompt, u, env, h, k, a) && k < |env| && Admits(o, env[k], k) && Called(a, b)
    ensures |b.seen| == |b.tokens| == |b.sigs| == k + 1 && ObservedAt(o, prompt, u, env, h, b, k)
  {
    assert k > 0 ==> GoesOnAt(o, prompt, u, env, k - 1);
    UsageSums(u, env, k);
  }

  lemma {:induction false} ObservedGrows(o: Options, prompt: string, u: Usage, env: seq<TurnEnv>, h: seq<Message>,
                                         a: View, b: View)
    requires true == Observed(o, prompt, u, env, h, a) && a.history <= b.history
    requires b.seen == a.seen && b.tokens == a.tokens && b.sigs == a.sigs
    ensures true == Observed(o, prompt, u, env, h, b)
  {
    forall j | 0 <= j < |b.seen|
      ensures ObservedAt(o, prompt, u, env, h, b, j)
    { assert ObservedAt(o, prompt, u, env, h, a, j); }
  }

  /** One turn of a run: either the state before the next, or the end, paired exactly if no calls were left open. */
  lemma {:induction false} TurnKeeps(o: Options, prompt: string, u: Usage, env: seq<TurnEnv>, h: seq<Message>, k: nat,
                                     a: View, b: View, on: bool)
    requires true == RunState(o, prompt, u, env, h, k, a) && k < |env| && true == Turned(o, env[k], k, a, b, on)
    ensures true == Observed(o, prompt, u, env, h, b)
    ensures on ==> true == RunState(o, prompt, u, env, h, k + 1, b) && true == WellPaired(b.history)
    ensures !on ==> !AllGoOn(o, prompt, u, env, |env|) && (WellPaired(b.history) <==> !LeavesOpen(o, prompt, u, env))
  {
    if Admits(o, env[k], k) {
      ObservedCall(o, prompt, u, env, h, k, a, b);
    } else {
      ObservedGrows(o, prompt, u, env, h, a, b);
    }
    if on { TurnGoesOn(o, prompt, u, env, h, k, a, b); } else { TurnEnds(o, prompt, u, env, h, k, a, b); }
  }

  lemma {:induction false} TurnGoesOn(o: Options, prompt: string, u: Usage, env: seq<TurnEnv>, h: seq<Message>, k: nat,
                                      a: View, b: View)
    requires true == RunState(o, prompt, u, env, h, k, a) && k < |env| && true == Turned(o, env[k], k, a, b, true)
    requires true == Observed(o, prompt, u, env, h, b)
    ensures true == RunState(o, prompt, u, env, h, k + 1, b) && true == WellPaired(b.history)
  {
    assert true == AllGoOn(o, prompt, u, env, k + 1) by {
      InStepMeans(o, prompt, u, env, h, k, a);
      GoOnNext(o, prompt, u, env, k);
    }
    assert true == InStep(prompt, u, env, h, k + 1, b) by { InStepNext(prompt, u, env, h, k, a, b); }
    WentOn(o, env[k], k, a, b);
  }

  lemma {:induction false} GoOnNext(o: Options, prompt: string, u: Usage, env: seq<TurnEnv>, k: nat)
    requires AllGoOn(o, prompt, u, env, k) && k < |env| && GoesOnAt(o, prompt, u, env, k)
    ensures true == AllGoOn(o, prompt, u, env, k + 1)
  {
  }

  lemma {:induction false} WentOn(o: Options, e: TurnEnv, k: nat, a: View, b: View)
    requires Turned(o, e, k, a, b, true)
    ensures true == WellPaired(b.history) && |b.seen| == |a.seen| + 1
  {
  }

  lemma {:induction false} TurnEnds(o: Options, prompt: string, u: Usage, env: seq<TurnEnv>, h: seq<Message>, k: nat,
                                    a: View, b: View)
    requires true == RunState(o, prompt, u, env, h, k, a) && k < |env| && true == Turned(o, env[k], k, a, b, false)
    ensures !AllGoOn(o, prompt, u, env, |env|) && (WellPaired(b.history) <==> !LeavesOpen(o, prompt, u, env))
  {
    InStepMeans(o, prompt, u, env, h, k, a);
    OpensOnlyAt(o, prompt, u, env, k);
  }

  /** The limits at every model call of a run: the cap on their number, and from the second on tokens, cost and
      repeats. */
  lemma {:induction false} LimitsHold(o: Options, prompt: string, u: Usage, env: seq<TurnEnv>, h: seq<Message>, v: View,
                                      k: nat)
    requires Observed(o, prompt, u, env, h, v) && k < |v.seen|
    ensures (o.maxIterations > 0 ==> |v.seen| <= o.maxIterations) && (o.maxIterations == 0 ==> |v.seen| <= 30)
    ensures k > 0 ==> (o.maxTokens > 0 ==> v.tokens[k] < o.maxTokens) && RepeatsBelow(v.sigs[k], Threshold(o))
    ensures k > 0 && o.maxBudget > 0.0 && o.hasModelName ==> o.cost(UsageAfter(u, env, k)) < o.maxBudget
  {
    assert ObservedAt(o, prompt, u, env, h, v, k) && ObservedAt(o, prompt, u, env, h, v, |v.seen| - 1);
  }

  lemma {:induction false} OpensOnlyAt(o: Options, prompt: string, u: Usage, env: seq<TurnEnv>, k: nat)
    requires k < |env| && AllGoOn(o, prompt, u, env, k) && !GoesOnAt(o, prompt, u, env, k)
    ensures LeavesOpen(o, prompt, u, env) <==> StopsOpenAt(o, prompt, u, env, k)
  {
    if StopsOpenAt(o, prompt, u, env, k) { assert OpensAt(o, prompt, u, env, k); }
    if LeavesOpen(o, prompt, u, env) {
      var j: nat :| OpensAt(o, prompt, u, env, j);
      assert j < k ==> GoesOnAt(o, prompt, u, env, j);
    }
  }

  lemma {:induction false} NeverOpens(o: Options, prompt: string, u: Usage, env: seq<TurnEnv>)
    requires AllGoOn(o, prompt, u, env, |env|)
    ensures !LeavesOpen(o, prompt, u, env)
  {
    forall k: nat ensures !OpensAt(o, prompt, u, env, k) { assert k < |env| ==> GoesOnAt(o, prompt, u, env, k); }
  }

  /** With no token or cost limit, an executor and no failing middleware after the model, calls are never left open. */
  lemma {:induction false} NothingToStopFor(o: Options, prompt: string, u: Usage, env: seq<TurnEnv>)
    requires o.maxTokens <= 0 && o.maxBudget <= 0.0 && !o.toolsNil
    requires forall k :: 0 <= k < |env| ==> env[k].afterModel.None?
    ensures !LeavesOpen(o, prompt, u, env)
  {
    forall k: nat ensures !OpensAt(o, prompt, u, env, k) {
      if k < |env| { assert !Abandons(o, env[k], AddUsage(UsageAfter(u, env, k), UsageIn(env[k]))); }
    }
  }

  /** For instance: a limit of one token and a first answer that asks for a tool and spends one. */
  lemma {:induction false} LeavesOpenExample(o: Options, c: Call, call: nat -> CallEnv)
    requires o.maxTokens == 1 && o.maxIterations == 0
    ensures var e := TurnEnv(None, None, false, None, Final(Response("", [c], Usage(1, 0, 1)), NoNudge), None, None,
                             call);
            LeavesOpen(o, "", Usage(0, 0, 0), [e])
  {
    var e := TurnEnv(None, None, false, None, Final(Response("", [c], Usage(1, 0, 1)), NoNudge), None, None, call);
    assert OpensAt(o, "", Usage(0, 0, 0), [e], 0);
  }

  /** For instance: with a limit of a hundred tokens, two answers of sixty each end the run at the second. */
  lemma {:induction false} TokensAddUpExample(o: Options, c: Call, call: nat -> CallEnv)
    requires o.maxTokens == 100 && o.maxBudget <= 0.0 && o.maxIterations == 0 && o.repeatThreshold == 0 && !o.toolsNil
    requires call(0).before.None? && call(0).after.None?
    ensures var e := TurnEnv(None, None, false, None, Final(Response("", [c], Usage(40, 20, 60)), NoNudge), None, None,
                             call);
            RunEnd(o, "", Usage(0, 0, 0), [e, e], 0).exit == ByTokens
  {
    var e := TurnEnv(None, None, false, None, Final(Response("", [c], Usage(40, 20, 60)), NoNudge), None, None, call);
    var env, u := [e, e], Usage(0, 0, 0);
    assert UsageAfter(u, env, 0) == u && UsageAfter(u, env, 1) == Usage(40, 20, 60);
    assert SigsAfter(env, 0) + Sigs(CallsIn(e)) == [SigOf(c)];
    OneCallIsNoRepeat(SigOf(c), Threshold(o));
    SpendsSixty(o, e, c, u, [], 0, None);
    SpendsSixty(o, e, c, Usage(40, 20, 60), SigsAfter(env, 1), 1, LastAt(env, 1));
    assert TurnEndAt(o, "", u, env, 0) == GOING && TurnEndAt(o, "", u, env, 1).exit == ByTokens;
  }

  lemma {:induction false} SpendsSixty(o: Options, e: TurnEnv, c: Call, u: Usage, sigs: seq<Sig>, k: nat,
                                       last: Option<Output>)
    requires o.maxTokens == 100 && o.maxBudget <= 0.0 && o.maxIterations == 0 && !o.toolsNil && k < 2
    requires e.stream == Final(Response("", [c], Usage(40, 20, 60)), NoNudge) && !e.modelNil && e.ctxErr.None?
    requires e.beforeModel.None? && e.promptHookErr.None? && e.afterModel.None?
    requires e.call(0).before.None? && e.call(0).after.None?
    ensures u == Usage(0, 0, 0) && RepeatsBelow(sigs + [SigOf(c)], Threshold(o)) ==>
              TurnEnd(o, e, "", u, sigs, k, last) == GOING
    ensures u == Usage(40, 20, 60) ==> TurnEnd(o, e, "", u, sigs, k, last).exit == ByTokens
  {
    assert Sigs(CallsIn(e)) == [SigOf(c)] && FirstError(e.call, 0).None? && FirstError(e.call, 1).None?;
  }

  lemma {:induction false} OneCallIsNoRepeat(s: Sig, threshold: int)
    requires threshold > 1
    ensures RepeatsBelow([s], threshold)
  {
  }

  function Sigs(calls: seq<Call>): (r: seq<Sig>)
    ensures |r| == |calls|
  {
    seq(|calls|, i requires 0 <= i < |calls| => SigOf(calls[i]))
  }

  /** The warning hook has fired for exactly the signatures marked as warned, once each. */
  ghost predicate WarnedOnce(warned: set<Sig>, warnings: seq<Sig>) {
    && (forall i, j :: 0 <= i < j < |warnings| ==> warnings[i] != warnings[j])
    && warned == set w | w in warnings
  }

  ghost predicate RepeatsBelow(sigs: seq<Sig>, threshold: int) {
    threshold > 0 ==> forall n: nat :: IsTailRepeat(sigs, n) ==> n < threshold
  }

  lemma {:induction false} TailRepeatUnique(calls: seq<Sig>, n: nat)
    requires IsTailRepeat(calls, n)
    ensures forall m: nat :: IsTailRepeat(calls, m) ==> m == n
  {
    assert n < |calls| ==> calls[|calls| - n - 1] != calls[|calls| - 1];
  }

  lemma {:induction false} CloseGroup(open: seq<Message>, out: Output, h: seq<Message>)
    requires Recorded(open, out) && out.calls != [] && |h| == |open| + |out.calls| && h[..|open|] == open
    requires forall k :: 0 <= k < |out.calls| ==> Answers(h[|open| + k], RecordedCall(out.calls[k]))
    ensures true == WellPaired(h)
  {
    var n := |open|;
    SplitAtGroup(open, h);
    AnswersFrom(h, n, RecordedCalls(out.calls));
    PairedAppendGroup(open[..n - 1], open[n - 1], h[n..]);
  }

  lemma {:induction false} SplitAtGroup<T>(open: seq<T>, h: seq<T>)
    requires open != [] && |open| <= |h| && h[..|open|] == open
    ensures h == open[..|open| - 1] + [open[|open| - 1]] + h[|open|..]
  {
  }

  lemma {:induction false} AnswersHaveNoCalls(h: seq<Message>, n: nat, calls: seq<ToolCall>)
    requires |h| == n + |calls| && forall k :: 0 <= k < |calls| ==> Answers(h[n + k], calls[k])
    ensures NoCalls(h[n..])
  {
    forall k | 0 <= k < |calls| ensures !HasCalls(h[n..][k]) {
      assert Answers(h[n + k], calls[k]) && h[n..][k] == h[n + k];
    }
  }

  lemma {:induction false} AnswersFrom(h: seq<Message>, n: nat, calls: seq<ToolCall>)
    requires |h| == n + |calls| && forall k :: 0 <= k < |calls| ==> Answers(h[n + k], calls[k])
    ensures AnswersAll(h[n..], calls)
  {
    forall k | 0 <= k < |calls| ensures Answers(h[n..][k], calls[k]) { assert h[n..][k] == h[n + k]; }
  }

  /** The history ends in the assistant message for out, and everything before it is well paired. */
  ghost predicate Recorded(h: seq<Message>, out: Output) {
    && h != [] && WellPaired(h[..|h| - 1])
    && h[|h| - 1] == Message(ASSISTANT, out.content, RecordedCalls(out.calls), "")
    && out.done == (out.calls == [])
  }

  /** Once recorded, an answer leaves the history well paired exactly when it asks for no tool. */
  lemma {:induction false} RecordedPlain(h: seq<Message>, out: Output)
    requires true == Recorded(h, out)
    ensures WellPaired(h) <==> out.calls == []
  {
    var front, m := h[..|h| - 1], h[|h| - 1];
    assert h == front + [m];
    if out.calls == [] { PairedAppendOrdinary(front, m); } else { OpenIsNotPaired(front, m); }
  }
}
