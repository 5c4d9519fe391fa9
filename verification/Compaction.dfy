/** Full compaction: what is kept, what goes to the summary model, the retries and the circuit breaker
    (pkg/api/compact_compactor.go). The model, the hook, the memory store and cancellation are inputs. A contract
    `true == P(..)` says P(..); the comparison makes the verifier carry the predicate over whole. */
module Compaction {
  import opened Base
  import opened Messages
  import ToolOutputs
  import SessionMemory

  const DEFAULT_THRESHOLD := 0.8
  const DEFAULT_PRESERVE := 5
  const DEFAULT_MAX_OUTPUT := 8192
  const DEFAULT_MAX_FAILURES := 3
  const MIN_RESERVED := 20000
  const DEFAULT_MEMORY_MIN := 10000
  const DEFAULT_MEMORY_MAX := 40000
  const DEFAULT_MEMORY_TEXTS := 5
  const PTL_RETRIES: nat := 2
  const PTL_FLOOR: nat := 6
  const EMPTY_SUMMARY := "对话摘要为空"
  const SUMMARY_HEAD := "对话摘要：\n"

  datatype Config = Config(
    enabled: bool, threshold: real, preserveCount: int, bufferTokens: int, maxOutputTokens: int,
    preserveInitial: bool, initialCount: int, preserveUserText: bool, userTextTokens: int,
    maxRetries: int, retryDelay: int, summaryModel: string, fallbackModel: string, maxFailures: int,
    collapse: ToolOutputs.CollapseConfig, useMemory: bool, memory: SessionMemory.Config)

  /** withDefaults, without the fields that only shape the summary request. */
  function Normalised(c: Config): Config {
    c.(threshold := if c.threshold <= 0.0 || c.threshold > 1.0 then DEFAULT_THRESHOLD else c.threshold,
       preserveCount := if c.preserveCount <= 0 then DEFAULT_PRESERVE else c.preserveCount,
       maxOutputTokens := if c.maxOutputTokens <= 0 then DEFAULT_MAX_OUTPUT else c.maxOutputTokens,
       initialCount := if c.initialCount > 0 then c.initialCount else if c.preserveInitial then 1 else 0,
       userTextTokens := if c.userTextTokens < 0 then 0 else c.userTextTokens,
       maxRetries := if c.maxRetries < 0 then 0 else c.maxRetries,
       retryDelay := if c.retryDelay < 0 then 0 else c.retryDelay,
       summaryModel := TrimSpace(c.summaryModel),
       fallbackModel := TrimSpace(c.fallbackModel),
       maxFailures := if c.maxFailures <= 0 then DEFAULT_MAX_FAILURES else c.maxFailures,
       collapse := ToolOutputs.CollapseDefaults(c.collapse),
       memory := SessionMemory.Config(
         if c.memory.minTokens <= 0 then DEFAULT_MEMORY_MIN else c.memory.minTokens,
         if c.memory.maxTokens <= 0 then DEFAULT_MEMORY_MAX else c.memory.maxTokens,
         if c.memory.minText <= 0 then DEFAULT_MEMORY_TEXTS else c.memory.minText))
  }

  /** The values a compactor works with. */
  predicate Sensible(c: Config) {
    && 0.0 < c.threshold <= 1.0 && c.preserveCount > 0 && c.maxOutputTokens > 0
    && (if c.preserveInitial then c.initialCount > 0 else c.initialCount >= 0) && c.userTextTokens >= 0
    && c.maxRetries >= 0 && c.retryDelay >= 0 && c.maxFailures > 0
    && TrimSpace(c.summaryModel) == c.summaryModel && TrimSpace(c.fallbackModel) == c.fallbackModel
    && ToolOutputs.CollapseDefaults(c.collapse) == c.collapse
    && c.memory.minTokens > 0 && c.memory.maxTokens > 0 && c.memory.minText > 0
  }

  /** Every configuration is made sensible, and a sensible one is left alone. */
  lemma {:induction false} NormalisedSensible(c: Config)
    ensures Sensible(Normalised(c)) && (Sensible(c) ==> Normalised(c) == c)
  {
    TrimTwice(c.summaryModel);
    TrimTwice(c.fallbackModel);
  }

  lemma {:induction false} TrimTwice(s: string)
    ensures TrimSpace(TrimSpace(s)) == TrimSpace(s)
  {
    var i, j := TrimSpaceMeaning(s);
    TrimSpaceFixed(TrimSpace(s));
  }

  // ---- choosing by flags ----

  /** The messages whose flag is v, in order. */
  function Pick(ms: seq<Message>, flags: seq<bool>, v: bool): seq<Message>
    requires |ms| == |flags|
  {
    if ms == [] then []
    else if flags[0] == v then [ms[0]] + Pick(ms[1..], flags[1..], v)
    else Pick(ms[1..], flags[1..], v)
  }

  lemma {:induction false} PickConcat(a: seq<Message>, b: seq<Message>, f: seq<bool>, g: seq<bool>, v: bool)
    requires |a| == |f| && |b| == |g|
    ensures Pick(a + b, f + g, v) == Pick(a, f, v) + Pick(b, g, v)
  {
    if a == [] {
      assert a + b == b && f + g == g;
    } else {
      assert (a + b)[1..] == a[1..] + b && (f + g)[1..] == f[1..] + g;
      PickConcat(a[1..], b, f[1..], g, v);
    }
  }

  lemma {:induction false} PickSplit(ms: seq<Message>, f: seq<bool>, i: nat, v: bool)
    requires |ms| == |f| && i <= |ms|
    ensures Pick(ms, f, v) == Pick(ms[..i], f[..i], v) + Pick(ms[i..], f[i..], v)
  {
    assert ms == ms[..i] + ms[i..] && f == f[..i] + f[i..];
    PickConcat(ms[..i], ms[i..], f[..i], f[i..], v);
  }

  lemma {:induction false} PickAll(ms: seq<Message>, f: seq<bool>, v: bool)
    requires |ms| == |f| && forall i :: 0 <= i < |f| ==> f[i] == v
    ensures Pick(ms, f, v) == ms && Pick(ms, f, !v) == []
  {
    if ms != [] { PickAll(ms[1..], f[1..], v); }
  }

  /** Every message is picked exactly once, with its own flag or the other. */
  lemma {:induction false} PickPartition(ms: seq<Message>, f: seq<bool>)
    requires |ms| == |f|
    ensures |Pick(ms, f, true)| + |Pick(ms, f, false)| == |ms|
    ensures multiset(Pick(ms, f, true)) + multiset(Pick(ms, f, false)) == multiset(ms)
  {
    if ms != [] {
      PickPartition(ms[1..], f[1..]);
      assert ms == [ms[0]] + ms[1..];
    }
  }

  // ---- which messages compact preserves ----

  function InitialSize(cfg: Config, olderLen: nat): (n: nat)
    ensures n <= olderLen
  {
    if !(cfg.preserveInitial && cfg.initialCount > 0) then 0
    else if cfg.initialCount > olderLen then olderLen
    else cfg.initialCount
  }

  predicate Eligible(older: seq<Message>, n: nat, i: nat) {
    n <= i < |older| && older[i].role == USER && TrimSpace(older[i].content) != ""
  }

  function EligibleFlags(older: seq<Message>, n: nat): (f: seq<bool>)
    ensures |f| == |older| && forall i :: 0 <= i < |f| ==> f[i] == Eligible(older, n, i)
  {
    seq(|older|, i requires 0 <= i < |older| => Eligible(older, n, i))
  }

  /** What the eligible user texts at t and later cost together. */
  function CostFrom(older: seq<Message>, n: nat, cost: Message -> nat, t: nat): nat
    decreases |older| - t
  {
    if t >= |older| then 0 else (if Eligible(older, n, t) then cost(older[t]) else 0) + CostFrom(older, n, cost, t + 1)
  }

  /** t is where the retained user texts begin: everything eligible from t on, where leaving out the oldest would
      stay below the budget, and where an earlier one is left out only because the budget is reached. */
  ghost predicate TextsFrom(older: seq<Message>, n: nat, cost: Message -> nat, cfg: Config, t: nat)
  {
    if cfg.preserveUserText && cfg.userTextTokens > 0 then
      && n <= t <= |older|
      && (t > n ==> Eligible(older, n, t) && CostFrom(older, n, cost, t) >= cfg.userTextTokens)
      && CostFrom(older, n, cost, t + 1) < cfg.userTextTokens
    else t == |older|
  }

  lemma {:induction false} CostShrinks(older: seq<Message>, n: nat, cost: Message -> nat, s: nat, t: nat)
    requires s <= t
    ensures CostFrom(older, n, cost, t) <= CostFrom(older, n, cost, s)
    decreases t - s
  {
    if s < t { CostShrinks(older, n, cost, s + 1, t); }
  }

  /** There is only one such place. */
  lemma {:induction false} TextsFromUnique(older: seq<Message>, n: nat, cost: Message -> nat, cfg: Config, t: nat,
                                           u: nat)
    requires TextsFrom(older, n, cost, cfg, t) && TextsFrom(older, n, cost, cfg, u)
    ensures t == u
  {
    if t + 1 <= u { CostShrinks(older, n, cost, t + 1, u); }
    if u + 1 <= t { CostShrinks(older, n, cost, u + 1, t); }
  }

  /** The flags compact sets on the older part: the first n messages and the eligible ones from t on. */
  function OlderFlags(older: seq<Message>, n: nat, t: nat): (f: seq<bool>)
    ensures |f| == |older| && forall i :: 0 <= i < |f| ==> f[i] == (i < n || (i >= t && Eligible(older, n, i)))
  {
    seq(|older|, i requires 0 <= i < |older| => i < n || (i >= t && Eligible(older, n, i)))
  }

  function AllTrue(k: nat): (f: seq<bool>)
    ensures |f| == k && forall i :: 0 <= i < k ==> f[i]
  {
    seq(k, i => true)
  }

  function UserTexts(older: seq<Message>, n: nat, t: nat): seq<Message>
    requires t <= |older|
  {
    Pick(older[t..], EligibleFlags(older, n)[t..], true)
  }

  /** What goes to the summary model. */
  function Summarised(older: seq<Message>, n: nat, t: nat): seq<Message> { Pick(older, OlderFlags(older, n, t), false) }

  function SummaryMessage(content: string): Message {
    var s := TrimSpace(content);
    Message(SYSTEM, SUMMARY_HEAD + (if s == "" then EMPTY_SUMMARY else s), [], "")
  }

  function CompactedHistory(older: seq<Message>, kept: seq<Message>, n: nat, t: nat, summary: Message): seq<Message>
    requires n <= t <= |older|
  {
    older[..n] + [summary] + UserTexts(older, n, t) + kept
  }

  /** Compaction partitions the history: one flag per position says whether the message is preserved or summarised.
      The new history without its summary is the preserved ones in their old order, the request is the others. */
  lemma {:induction false} CompactPartitions(older: seq<Message>, kept: seq<Message>, n: nat, t: nat, summary: Message)
    requires n <= t <= |older|
    ensures var h, flags := older + kept, OlderFlags(older, n, t) + AllTrue(|kept|);
            var after := CompactedHistory(older, kept, n, t, summary);
            && after[n] == summary
            && after[..n] + after[n + 1..] == Pick(h, flags, true)
            && Summarised(older, n, t) == Pick(h, flags, false)
            && multiset(after[..n] + after[n + 1..]) + multiset(Summarised(older, n, t)) == multiset(h)
            && |after| + |Summarised(older, n, t)| == |h| + 1
  {
    var after, f := CompactedHistory(older, kept, n, t, summary), OlderFlags(older, n, t);
    assert after[..n] + after[n + 1..] == older[..n] + UserTexts(older, n, t) + kept;
    PreservedParts(older, kept, n, t);
    PickWithTail(older, kept, f);
    PickPartition(older + kept, f + AllTrue(|kept|));
  }

  lemma {:induction false} PreservedParts(older: seq<Message>, kept: seq<Message>, n: nat, t: nat)
    requires n <= t <= |older|
    ensures Pick(older + kept, OlderFlags(older, n, t) + AllTrue(|kept|), true) ==
              older[..n] + UserTexts(older, n, t) + kept
  {
    PickWithTail(older, kept, OlderFlags(older, n, t));
    OlderParts(older, OlderFlags(older, n, t), n, t);
  }

  lemma {:induction false} PickWithTail(older: seq<Message>, tail: seq<Message>, f: seq<bool>)
    requires |older| == |f|
    ensures Pick(older + tail, f + AllTrue(|tail|), true) == Pick(older, f, true) + tail
    ensures Pick(older + tail, f + AllTrue(|tail|), false) == Pick(older, f, false)
  {
    PickConcat(older, tail, f, AllTrue(|tail|), true);
    PickConcat(older, tail, f, AllTrue(|tail|), false);
    PickAll(tail, AllTrue(|tail|), true);
  }

  lemma {:induction false} OlderParts(older: seq<Message>, g: seq<bool>, n: nat, t: nat)
    requires n <= t <= |older| == |g|
    requires forall i :: 0 <= i < |g| ==> g[i] == (i < n || (i >= t && Eligible(older, n, i)))
    ensures Pick(older, g, true) == older[..n] + UserTexts(older, n, t)
  {
    PickSplit(older, g, t, true);
    assert g[t..] == EligibleFlags(older, n)[t..];
    FrontParts(older[..t], g[..t], n);
    assert older[..t][..n] == older[..n];
  }

  lemma {:induction false} FrontParts(front: seq<Message>, g: seq<bool>, n: nat)
    requires n <= |front| == |g| && forall i :: 0 <= i < |g| ==> g[i] == (i < n)
    ensures Pick(front, g, true) == front[..n]
  {
    PickSplit(front, g, n, true);
    PickAll(front[..n], g[..n], true);
    PickAll(front[n..], g[n..], false);
  }

  /** Every retained user text is an eligible message. */
  lemma {:induction false} PickedAreOrdinary(ms: seq<Message>, f: seq<bool>)
    requires |ms| == |f| && forall i :: 0 <= i < |ms| ==> f[i] ==> ms[i].role == USER
    ensures WellPaired(Pick(ms, f, true))
  {
    if ms != [] {
      PickedAreOrdinary(ms[1..], f[1..]);
      if f[0] {
        assert GroupAt([ms[0]], 0) && PairedFrom([ms[0]], 1);
        PairedConcat([ms[0]], Pick(ms[1..], f[1..], true));
      }
    }
  }

  /** Compaction keeps a well-paired history well paired exactly when neither cut lands on a tool message. */
  lemma {:induction false} CompactPairing(older: seq<Message>, kept: seq<Message>, n: nat, t: nat, summary: Message)
    requires n <= t <= |older| && older != [] && kept != [] && summary.role == SYSTEM && WellPaired(older + kept)
    ensures WellPaired(CompactedHistory(older, kept, n, t, summary)) <==>
              !ToolLike((older + kept)[n]) && !ToolLike(kept[0])
  {
    var h, rest := older + kept, UserTexts(older, n, t) + kept;
    var after := CompactedHistory(older, kept, n, t, summary);
    assert after == older[..n] + ([summary] + rest);
    CutIsBoundary(h, n);
    CutIsBoundary(h, |older|);
    assert h[..n] == older[..n] && h[|older|] == kept[0] && h[|older|..] == kept;
    if ToolLike(h[n]) {
      OpenGroupStaysOpen(h, n, [summary] + rest);
    } else {
      PairedConcat(older[..n], [summary] + rest);
      assert WellPaired([summary] + rest) <==> WellPaired(rest) by {
        assert GroupAt([summary], 0) && PairedFrom([summary], 1);
        PairedConcat([summary], rest);
      }
      PickedAreOrdinary(older[t..], EligibleFlags(older, n)[t..]);
      PairedConcat(UserTexts(older, n, t), kept);
    }
  }

  /** For instance: a call and its answer, of which only the answer is kept. */
  lemma {:induction false} SplitByCutExample(c: ToolCall, summary: Message)
    requires summary.role == SYSTEM
    ensures var older, kept := [Message(ASSISTANT, "", [c], "")], [Message(TOOL, "", [c], "")];
            WellPaired(older + kept) && !WellPaired(CompactedHistory(older, kept, 0, 1, summary))
  {
    var older, kept := [Message(ASSISTANT, "", [c], "")], [Message(TOOL, "", [c], "")];
    var h := older + kept;
    assert GroupAt(h, 0) && PairedFrom(h, 2) by { assert Answers(h[1], h[0].toolCalls[0]); }
    CompactPairing(older, kept, 0, 1, summary);
  }

  /** A cut through a well-paired history falls between two groups exactly when it is not on a tool message. */
  lemma {:induction false} CutIsBoundary(h: seq<Message>, c: nat)
    requires WellPaired(h) && c < |h|
    ensures !ToolLike(h[c]) <==> WellPaired(h[c..])
    ensures !ToolLike(h[c]) ==> WellPaired(h[..c])
  {
    TailPaired(h, c);
    StartFromShape(h, 0, c);
    var g := GroupStart(h, c);
    if g == c {
      PrefixPaired(h, 0, c);
    } else {
      assert GroupAt(h, g);
      MemberAnswers(h, g, c);
    }
  }

  lemma {:induction false} PrefixPaired(h: seq<Message>, i: nat, c: nat)
    requires i <= c < |h| && PairedFrom(h, i) && StartFrom(h, i, c) == c
    ensures PairedFrom(h[..c], i)
    decreases c - i
  {
    if i < c {
      assert GroupAt(h[..c], i);
      PrefixPaired(h, i + GroupSize(h[i]), c);
    }
  }

  lemma {:induction false} OpenGroupFrom(h: seq<Message>, i: nat, c: nat, b: seq<Message>)
    requires i <= c < |h| && PairedFrom(h, i) && StartFrom(h, i, c) < c && b != [] && !ToolLike(b[0])
    ensures !PairedFrom(h[..c] + b, i)
    decreases c - i
  {
    var x := h[..c] + b;
    assert x[i] == h[i];
    if c < i + GroupSize(h[i]) {
      var k := c - i - 1;
      assert x[i + 1 + k] == b[0] && !Answers(x[i + 1 + k], x[i].toolCalls[k]);
    } else {
      OpenGroupFrom(h, i + GroupSize(h[i]), c, b);
    }
  }

  lemma {:induction false} OpenGroupStaysOpen(h: seq<Message>, c: nat, b: seq<Message>)
    requires WellPaired(h) && c < |h| && ToolLike(h[c]) && b != [] && !ToolLike(b[0])
    ensures !WellPaired(h[..c] + b)
  {
    ToolMessageAnswers(h, c);
    OpenGroupFrom(h, 0, c, b);
  }

  // ---- collapse before compaction ----

  /** messagesEqual, as written: roles and contents only. */
  predicate MessagesEqual(a: seq<Message>, b: seq<Message>) {
    |a| == |b| && forall i :: 0 <= i < |a| ==> a[i].role == b[i].role && a[i].content == b[i].content
  }

  /** It sees a change of a content or a role. */
  lemma {:induction false} EqualSees(a: seq<Message>, b: seq<Message>, i: nat)
    requires |a| == |b| && i < |a| && (a[i].content != b[i].content || a[i].role != b[i].role)
    ensures !MessagesEqual(a, b)
  {
    assert a[i] != b[i];
  }

  /** The comparison that guards the collapse branch cannot see a collapse, whatever was collapsed. */
  lemma {:induction false} CollapseIsInvisible(ms: seq<Message>, n: nat, maxOut: nat, maxLen: nat)
    requires maxLen > 0
    ensures MessagesEqual(ToolOutputs.Collapsed(ms, n, maxOut, maxLen), ms)
  {
  }

  // ---- one summary request and its retries ----

  datatype Request = Request(messages: seq<Message>, model: string)

  /** A completed call to the model: a final response, a stream that ended without one, or an error. */
  datatype Reply = Response(content: string) | Silent | Refused(tooLong: bool)

  datatype Exchange = Exchange(request: Request, reply: Reply)

  /** Nothing stands for a nil response together with a nil error. */
  datatype Answer = Summary(content: string) | Failure | Nothing

  function Attempts(cfg: Config): nat { if 1 + cfg.maxRetries < 1 then 1 else 1 + cfg.maxRetries }

  /** The requests of the retry loop, and that it only goes on without a response. */
  predicate FirstPhase(e: seq<Exchange>, req: Request, cfg: Config) {
    && 1 <= |e| <= Attempts(cfg)
    && (forall j :: 0 <= j < |e| ==>
         e[j].request == if j == 0 || cfg.fallbackModel == "" then req else req.(model := cfg.fallbackModel))
    && forall j :: 0 <= j < |e| - 1 ==> !e[j].reply.Response?
  }

  predicate NextHalf(prev: Request, next: Request) {
    |prev.messages| > PTL_FLOOR && next == prev.(messages := prev.messages[|prev.messages| / 2..])
  }

  /** Each prompt-too-long retry follows a prompt-too-long refusal with the second half of its messages. */
  predicate Retries(e: seq<Exchange>, from: nat) {
    && 1 <= from <= |e| <= from + PTL_RETRIES
    && forall j :: from <= j < |e| ==> RetryAt(e, j)
  }

  predicate RetryAt(e: seq<Exchange>, j: nat) {
    1 <= j < |e| && NextHalf(e[j - 1].request, e[j].request) && e[j - 1].reply == Refused(true)
  }

  lemma {:induction false} RetriesExtend(e: seq<Exchange>, from: nat, x: Exchange)
    requires Retries(e, from) && |e| < from + PTL_RETRIES
    requires NextHalf(e[|e| - 1].request, x.request) && e[|e| - 1].reply == Refused(true)
    ensures true == Retries(e + [x], from) && (e + [x])[..from] == e[..from]
  {
    var f := e + [x];
    forall j | from <= j < |f| ensures RetryAt(f, j) {
      if j < |e| { assert RetryAt(e, j); }
    }
  }

  /** The exchanges end with a response, a cancelled wait, or when no retry is due. */
  predicate Finished(e: seq<Exchange>, from: nat, cfg: Config, cancelled: bool)
    requires 1 <= from <= |e|
  {
    var last := e[|e| - 1];
    if from < Attempts(cfg) then |e| == from && (last.reply.Response? || cancelled)
    else last.reply != Refused(true) || |e| == from + PTL_RETRIES || |last.request.messages| <= PTL_FLOOR
  }

  /** What completeSummary returns, read off its exchanges with the model. */
  function AnswerOf(e: seq<Exchange>, from: nat): Answer
    requires 1 <= from <= |e|
  {
    match e[|e| - 1].reply
    case Response(content) => Summary(content)
    case Silent => if |e| > from then Nothing else Failure
    case Refused(_) => Failure
  }

  /** A retry sends a non-empty, strictly shorter suffix of the request before it. */
  lemma {:induction false} RetryShrinks(prev: Request, next: Request)
    requires NextHalf(prev, next)
    ensures 0 < |next.messages| < |prev.messages| && next.messages == prev.messages[|prev.messages| - |next.messages|..]
    ensures next.model == prev.model
  {
  }

  type Model = (nat, Request) -> Reply

  /** The wait before attempt k is cut short by the context. */
  predicate CutShort(cfg: Config, cancelled: nat -> bool, k: nat) { cfg.retryDelay > 0 && cancelled(k) }

  /** The replies are the model's own, counting its calls from base. */
  ghost predicate AnsweredBy(e: seq<Exchange>, model: Model, base: nat) {
    forall j :: 0 <= j < |e| ==> e[j].reply == model(base + j, e[j].request)
  }

  /** The whole exchange that completeSummary conducts for a request; from is where the prompt-too-long retries
      begin. */
  ghost predicate Conducted(e: seq<Exchange>, from: nat, req: Request, cfg: Config, model: Model, base: nat,
                            cancelled: nat -> bool)
  {
    && 1 <= from <= |e| && FirstPhase(e[..from], req, cfg) && Retries(e, from)
    && (forall k :: 2 <= k <= from ==> !CutShort(cfg, cancelled, k))
    && Finished(e, from, cfg, CutShort(cfg, cancelled, from + 1))
    && AnsweredBy(e, model, base)
  }

  lemma {:induction false} AnsweredExtend(e: seq<Exchange>, model: Model, base: nat, x: Exchange)
    requires AnsweredBy(e, model, base) && x.reply == model(base + |e|, x.request)
    ensures true == AnsweredBy(e + [x], model, base)
  {
  }

  /** The model and the context leave no choice: there is one such exchange. */
  lemma {:induction false} ConductedUnique(e: seq<Exchange>, from: nat, f: seq<Exchange>, to: nat, req: Request,
                                           cfg: Config, model: Model, base: nat, cancelled: nat -> bool)
    requires Conducted(e, from, req, cfg, model, base, cancelled) && Conducted(f, to, req, cfg, model, base, cancelled)
    ensures e == f && from == to
  {
    NotEarlier(e, from, f, to, req, cfg, model, base, cancelled);
    NotEarlier(f, to, e, from, req, cfg, model, base, cancelled);
    forall j | 0 <= j < |e| && j < |f|
      ensures e[j] == f[j]
    { SameExchange(e, f, from, req, cfg, model, base, cancelled, j); }
    NotShorter(e, f, from, req, cfg, model, base, cancelled);
    NotShorter(f, e, from, req, cfg, model, base, cancelled);
  }

  lemma {:induction false} SameFirst(e: seq<Exchange>, from: nat, f: seq<Exchange>, to: nat, req: Request, cfg: Config,
                                     model: Model, base: nat, cancelled: nat -> bool, j: nat)
    requires Conducted(e, from, req, cfg, model, base, cancelled) && Conducted(f, to, req, cfg, model, base, cancelled)
    requires j < from && j < to
    ensures e[j] == f[j]
  {
    assert e[..from][j] == e[j] && f[..to][j] == f[j];
  }

  lemma {:induction false} NotEarlier(e: seq<Exchange>, from: nat, f: seq<Exchange>, to: nat, req: Request, cfg: Config,
                                      model: Model, base: nat, cancelled: nat -> bool)
    requires Conducted(e, from, req, cfg, model, base, cancelled) && Conducted(f, to, req, cfg, model, base, cancelled)
    ensures from >= to
  {
    if from < to {
      SameFirst(e, from, f, to, req, cfg, model, base, cancelled, from - 1);
    }
  }

  lemma {:induction false} SameExchange(e: seq<Exchange>, f: seq<Exchange>, from: nat, req: Request, cfg: Config,
                                        model: Model, base: nat, cancelled: nat -> bool, j: nat)
    requires Conducted(e, from, req, cfg, model, base, cancelled)
             && Conducted(f, from, req, cfg, model, base, cancelled)
    requires j < |e| && j < |f|
    ensures e[j] == f[j]
  {
    if j < from {
      SameFirst(e, from, f, from, req, cfg, model, base, cancelled, j);
    } else {
      SameExchange(e, f, from, req, cfg, model, base, cancelled, j - 1);
      assert RetryAt(e, j) && RetryAt(f, j);
    }
  }

  lemma {:induction false} NotShorter(e: seq<Exchange>, f: seq<Exchange>, from: nat, req: Request, cfg: Config,
                                      model: Model, base: nat, cancelled: nat -> bool)
    requires Conducted(e, from, req, cfg, model, base, cancelled)
             && Conducted(f, from, req, cfg, model, base, cancelled)
    requires forall j :: 0 <= j < |e| && j < |f| ==> e[j] == f[j]
    ensures |e| >= |f|
  {
    assert |e| < |f| ==> RetryAt(f, |e|);
  }

  /** A model that finds the first prompt too long and then ends its stream without a final response. */
  function Speechless(call: nat, req: Request): Reply { if call == 0 then Refused(true) else Silent }

  /** With it, eight messages and no further attempts, the exchange ends with neither a response nor an error. As the
      exchange is determined, this is what completeSummary returns. */
  lemma {:induction false} NothingIsReachable(m: Message, cfg: Config, e: seq<Exchange>, from: nat)
    requires cfg.maxRetries == 0
             && Conducted(e, from, Request([m, m, m, m, m, m, m, m], ""), cfg, Speechless, 0, _ => false)
    ensures AnswerOf(e, from) == Nothing
  {
    var e' := SpeechlessExchange(m, cfg);
    ConductedUnique(e, from, e', 1, Request([m, m, m, m, m, m, m, m], ""), cfg, Speechless, 0, _ => false);
  }

  lemma {:induction false} SpeechlessExchange(m: Message, cfg: Config) returns (e: seq<Exchange>)
    requires cfg.maxRetries == 0
    ensures Conducted(e, 1, Request([m, m, m, m, m, m, m, m], ""), cfg, Speechless, 0, _ => false)
            && AnswerOf(e, 1) == Nothing
  {
    var req := Request([m, m, m, m, m, m, m, m], "");
    e := [Exchange(req, Refused(true)), Exchange(Request([m, m, m, m], ""), Silent)];
    assert req.messages[4..] == [m, m, m, m];
    assert RetryAt(e, 1);
  }

  // ---- the compactor ----

  predicate InRange(ms: seq<Message>, indices: seq<nat>) { forall k :: 0 <= k < |indices| ==> indices[k] < |ms| }

  /** The messages at the indices, last index first. */
  function Backwards(ms: seq<Message>, indices: seq<nat>): seq<Message>
    requires InRange(ms, indices)
  {
    seq(|indices|, k requires 0 <= k < |indices| => ms[indices[|indices| - 1 - k]])
  }

  predicate Marked(f: seq<bool>, older: seq<Message>, n: nat, t: nat) {
    |f| == |older| && forall k :: 0 <= k < |f| ==> f[k] == (k < n || (k >= t && Eligible(older, n, k)))
  }

  lemma {:induction false} MarkedStep(f: seq<bool>, older: seq<Message>, n: nat, t: nat, i: nat)
    requires i < |older| && n <= t && t == (if i + 1 > n then i + 1 else n) && Marked(f, older, n, t)
    ensures f[i] <==> i < n
    ensures i >= n ==> true == Marked(if Eligible(older, n, i) then f[i := true] else f, older, n, i)
  {
  }

  predicate Collected(older: seq<Message>, n: nat, t: nat, indices: seq<nat>)
    requires t <= |older|
  {
    InRange(older, indices) && Backwards(older, indices) == UserTexts(older, n, t)
  }

  lemma {:induction false} CollectedStep(older: seq<Message>, n: nat, i: nat, indices: seq<nat>)
    requires i < |older| && Collected(older, n, i + 1, indices)
    ensures true == Collected(older, n, i, if Eligible(older, n, i) then indices + [i] else indices)
  {
    UserTextsStep(older, n, i);
    assert Backwards(older, indices + [i]) == [older[i]] + Backwards(older, indices);
  }

  method TakeBackwards(ms: seq<Message>, indices: seq<nat>) returns (r: seq<Message>)
    requires InRange(ms, indices)
    ensures r == Backwards(ms, indices)
  {
    r := [];
    for j := |indices| downto 0
      invariant r == Backwards(ms, indices)[..|indices| - j]
    {
      r := r + [ms[indices[j]]];
    }
  }

  lemma {:induction false} UserTextsStep(older: seq<Message>, n: nat, i: nat)
    requires i < |older|
    ensures UserTexts(older, n, i) ==
              if Eligible(older, n, i) then [older[i]] + UserTexts(older, n, i + 1) else UserTexts(older, n, i + 1)
  {
    var f := EligibleFlags(older, n);
    assert older[i..][1..] == older[i + 1..] && f[i..][1..] == f[i + 1..];
  }

  /** Panicked: the nil response that completeSummary returned without an error was dereferenced. */
  datatype Outcome = Skipped | HookFailed | ByMemory | Compacted | Unneeded | Empty | Failed | Panicked

  datatype Hook = Allow | Block | HookError

  function Stripped(ms: seq<Message>, strip: Message -> Message): (r: seq<Message>)
    ensures |r| == |ms|
  {
    seq(|ms|, i requires 0 <= i < |ms| => strip(ms[i]))
  }

  lemma {:induction false} StrippedConcat(a: seq<Message>, b: seq<Message>, strip: Message -> Message)
    ensures Stripped(a + b, strip) == Stripped(a, strip) + Stripped(b, strip)
    ensures |b| == 1 ==> Stripped(b, strip) == [strip(b[0])]
  {
  }

  method TakeUnmarked(ms: seq<Message>, flags: array<bool>) returns (r: seq<Message>)
    requires flags.Length == |ms|
    ensures r == Pick(ms, flags[..], false)
  {
    r := [];
    var f := flags[..];
    for i := 0 to |ms|
      invariant r == Pick(ms[..i], f[..i], false)
    {
      assert ms[..i + 1] == ms[..i] + [ms[i]] && f[..i + 1] == f[..i] + [f[i]];
      PickConcat(ms[..i], [ms[i]], f[..i], [f[i]], false);
      if flags[i] { continue; }
      r := r + [ms[i]];
    }
    assert ms[..|ms|] == ms && f[..|ms|] == f;
  }

  function EffectiveLimit(cfg: Config, limit: int): (r: int)
    ensures r >= 1
  {
    var reserved := if cfg.maxOutputTokens < MIN_RESERVED then MIN_RESERVED else cfg.maxOutputTokens;
    if limit - reserved - cfg.bufferTokens < 1 then 1 else limit - reserved - cfg.bufferTokens
  }

  /** What one compaction of h did: the outcome follows from the exchanges with the model, and only a response
      changes the history. */
  ghost predicate CompactStep(cfg: Config, cost: Message -> nat, strip: Message -> Message, h: seq<Message>,
                              after: seq<Message>, model: Model, base: nat, cancelled: nat -> bool, r: Outcome, n: nat,
                              t: nat, e: seq<Exchange>, from: nat)
    requires 1 <= cfg.preserveCount < |h|
  {
    var cut := |h| - cfg.preserveCount;
    var older, kept := h[..cut], h[cut..];
    && n == InitialSize(cfg, cut) && n <= t <= cut && TextsFrom(older, n, cost, cfg, t)
    && (Summarised(older, n, t) == [] ==> r == Empty && e == [])
    && (Summarised(older, n, t) != [] ==>
         && 1 <= from <= |e|
         && Conducted(e, from, Request(Stripped(Summarised(older, n, t), strip), cfg.summaryModel), cfg, model, base,
                      cancelled)
         && r == OutcomeOf(AnswerOf(e, from))
         && (r == Compacted ==>
               after == CompactedHistory(older, kept, n, t, SummaryMessage(AnswerOf(e, from).content))))
  }

  function OutcomeOf(a: Answer): Outcome {
    match a
    case Summary(_) => Compacted
    case Nothing => Panicked
    case Failure => Failed
  }

  /** Compaction succeeds exactly with a response; without one and without an error it panics. */
  lemma {:induction false} OutcomeMeaning(a: Answer)
    ensures OutcomeOf(a) == Compacted <==> a.Summary?
    ensures OutcomeOf(a) == Panicked <==> !a.Summary? && !a.Failure?
    ensures OutcomeOf(a) == Failed <==> a.Failure?
  {
  }

  /** Compaction never makes a history longer, ends it in exactly the last preserveCount messages, and keeps the
      pairing exactly when neither cut lands on a tool message. */
  lemma {:induction false} CompactedShape(cfg: Config, cost: Message -> nat, strip: Message -> Message, h: seq<Message>,
                                          after: seq<Message>, model: Model, base: nat, cancelled: nat -> bool, n: nat,
                                          t: nat, e: seq<Exchange>, from: nat)
    requires 1 <= cfg.preserveCount < |h|
             && CompactStep(cfg, cost, strip, h, after, model, base, cancelled, Compacted, n, t, e, from)
    ensures cfg.preserveCount < |after| <= |h|
    ensures after[|after| - cfg.preserveCount..] == h[|h| - cfg.preserveCount..]
    ensures after[..n] == h[..n] && after[n].role == SYSTEM && after[n].toolCalls == []
    ensures var text := TrimSpace(AnswerOf(e, from).content);
            text != "" ==> |after[n].content| >= |text| && after[n].content[|after[n].content| - |text|..] == text
    ensures WellPaired(h) ==> (WellPaired(after) <==> !ToolLike(h[n]) && !ToolLike(h[|h| - cfg.preserveCount]))
  {
    var cut := |h| - cfg.preserveCount;
    var summary := SummaryMessage(AnswerOf(e, from).content);
    assert h == h[..cut] + h[cut..];
    CompactPartitions(h[..cut], h[cut..], n, t, summary);
    if WellPaired(h) { CompactPairing(h[..cut], h[cut..], n, t, summary); }
  }

  /** Enabled, the breaker not tripped, more messages than are preserved, and as many tokens as leave the larger of
      20000 and the output limit plus the buffer free, or, without a buffer, the given part of the limit. */
  predicate Due(cfg: Config, limit: int, failures: nat, msgCount: nat, tokenCount: nat) {
    && cfg.enabled && failures < cfg.maxFailures && msgCount > cfg.preserveCount && tokenCount >= 1 && limit >= 1
    && if cfg.bufferTokens > 0
       then var used := tokenCount + cfg.bufferTokens; used + cfg.maxOutputTokens >= limit || used + 20000 >= limit
       else tokenCount as real >= cfg.threshold * limit as real
  }

  lemma {:induction false} RatioAtLeast(tokenCount: nat, limit: int, threshold: real)
    requires limit > 0
    ensures tokenCount as real / limit as real >= threshold <==> tokenCount as real >= threshold * limit as real
  {
    var q := tokenCount as real / limit as real;
    assert q * limit as real == tokenCount as real;
    if q >= threshold { assert q * limit as real >= threshold * limit as real; }
    if q < threshold { assert q * limit as real < threshold * limit as real; }
  }

  class Compactor {
    const cfg: Config
    const limit: int
    const hasModel: bool
    const model: Model
    const cost: Message -> nat
    const strip: Message -> Message
    const hist: History
    var failures: nat
    var log: seq<Exchange>

    constructor (raw: Config, limit: int, hasModel: bool, model: Model, cost: Message -> nat,
                 strip: Message -> Message, hist: History)
      ensures Valid() && cfg == Normalised(raw) && this.hist == hist && this.limit == limit && this.hasModel == hasModel
      ensures this.model == model && this.cost == cost && this.strip == strip && failures == 0 && log == []
    {
      this.cfg, this.limit, this.hasModel, this.model, this.cost, this.strip, this.hist :=
        Normalised(raw), limit, hasModel, model, cost, strip, hist;
      failures, log := 0, [];
    }

    method Ask(req: Request) returns (reply: Reply)
      modifies this`log
      ensures log == old(log) + [Exchange(req, reply)] && reply == model(|old(log)|, req)
    {
      reply := model(|log|, req);
      log := log + [Exchange(req, reply)];
    }

    /** cancelled(k): the context is done during the wait before attempt k. */
    method CompleteSummary(request: Request, cancelled: nat -> bool)
      returns (a: Answer, ghost e: seq<Exchange>, ghost from: nat)
      requires hasModel
      modifies this`log
      ensures log == old(log) + e && |e| <= Attempts(cfg) + PTL_RETRIES
      ensures true == Conducted(e, from, request, cfg, model, |old(log)|, cancelled)
      ensures a == AnswerOf(e, from)
    {
      var stop, lastTooLong, req;
      stop, a, req, lastTooLong, e := RetryLoop(request, cancelled);
      from := |e|;
      ghost var first := e;
      assert e[..from] == e;
      if stop || !lastTooLong { return; }
      var ptlRetry := 0;
      while ptlRetry < PTL_RETRIES && |req.messages| > PTL_FLOOR
        invariant 0 <= ptlRetry <= PTL_RETRIES && |e| == from + ptlRetry && log == old(log) + e
        invariant e[..from] == first && true == Retries(e, from) && true == AnsweredBy(e, model, |old(log)|)
        invariant e[|e| - 1] == Exchange(req, Refused(true)) && a == Failure
      {
        req := req.(messages := req.messages[|req.messages| / 2..]);
        var reply := Ask(req);
        RetriesExtend(e, from, Exchange(req, reply));
        AnsweredExtend(e, model, |old(log)|, Exchange(req, reply));
        e := e + [Exchange(req, reply)];
        match reply {
          case Response(content) => a := Summary(content); return;
          case Silent => a := Nothing; return;
          case Refused(tooLong) => if !tooLong { return; }
        }
        ptlRetry := ptlRetry + 1;
      }
    }

    method RetryLoop(request: Request, cancelled: nat -> bool)
      returns (stop: bool, a: Answer, req: Request, lastTooLong: bool, ghost e: seq<Exchange>)
      requires hasModel
      modifies this`log
      ensures log == old(log) + e && true == FirstPhase(e, request, cfg) && |e| >= 1
              && true == AnsweredBy(e, model, |old(log)|)
      ensures forall k :: 2 <= k <= |e| ==> !CutShort(cfg, cancelled, k)
      ensures var last := e[|e| - 1];
              && req == last.request && (lastTooLong <==> last.reply == Refused(true))
              && (stop <==> |e| < Attempts(cfg) || last.reply.Response?)
              && a == (if last.reply.Response? then Summary(last.reply.content) else Failure)
              && (|e| < Attempts(cfg) ==> last.reply.Response? || CutShort(cfg, cancelled, |e| + 1))
    {
      req, e, a, lastTooLong := request, [], Failure, false;
      var attempts := Attempts(cfg);
      for attempt := 1 to attempts + 1
        invariant |e| == attempt - 1 && log == old(log) + e && true == AnsweredBy(e, model, |old(log)|)
        invariant attempt > 1 ==>
                    FirstPhase(e, request, cfg) && !e[|e| - 1].reply.Response? && req == e[|e| - 1].request
        invariant attempt > 1 ==> (lastTooLong <==> e[|e| - 1].reply == Refused(true))
        invariant attempt == 1 ==> req == request
        invariant forall k :: 2 <= k < attempt ==> !CutShort(cfg, cancelled, k)
      {
        if attempt > 1 {
          if cfg.retryDelay > 0 && cancelled(attempt) { stop := true; return; }
          if cfg.fallbackModel != "" { req := req.(model := cfg.fallbackModel); }
        }
        var reply := Ask(req);
        AnsweredExtend(e, model, |old(log)|, Exchange(req, reply));
        e := e + [Exchange(req, reply)];
        lastTooLong := reply == Refused(true);
        if reply.Response? {
          stop, a := true, Summary(reply.content);
          return;
        }
      }
      stop := false;
    }

    method MarkInitial(older: seq<Message>, flags: array<bool>) returns (initial: seq<Message>)
      requires flags.Length == |older| && forall i :: 0 <= i < flags.Length ==> !flags[i]
      modifies flags
      ensures initial == older[..InitialSize(cfg, |older|)]
      ensures forall i :: 0 <= i < flags.Length ==> flags[i] == (i < InitialSize(cfg, |older|))
    {
      initial := [];
      if cfg.preserveInitial && cfg.initialCount > 0 {
        var n := if cfg.initialCount > |older| then |older| else cfg.initialCount;
        for i := 0 to n
          invariant initial == older[..i]
          invariant forall k :: 0 <= k < flags.Length ==> flags[k] == (k < i)
        {
          flags[i] := true;
          initial := initial + [older[i]];
        }
      }
    }

    method MarkUserText(older: seq<Message>, flags: array<bool>, ghost n: nat)
      returns (userText: seq<Message>, ghost t: nat)
      requires flags.Length == |older| && n <= |older| && forall i :: 0 <= i < flags.Length ==> flags[i] == (i < n)
      modifies flags
      ensures n <= t <= |older| && TextsFrom(older, n, cost, cfg, t)
      ensures userText == UserTexts(older, n, t)
      ensures forall i :: 0 <= i < flags.Length ==> flags[i] == (i < n || (i >= t && Eligible(older, n, i)))
    {
      userText, t := [], |older|;
      if !(cfg.preserveUserText && cfg.userTextTokens > 0) { return; }
      var total, indices: seq<nat>, i := 0, [], |older|;
      while i > 0
        invariant n <= t && 0 <= i <= |older| && t == (if i > n then i else n)
        invariant total == CostFrom(older, n, cost, t) < cfg.userTextTokens
        invariant true == Marked(flags[..], older, n, t)
        invariant true == Collected(older, n, t, indices)
      {
        i := i - 1;
        MarkedStep(flags[..], older, n, t, i);
        if flags[i] { continue; }
        t := i;
        CollectedStep(older, n, i, indices);
        if older[i].role != USER || TrimSpace(older[i].content) == "" { continue; }
        total := total + cost(older[i]);
        indices := indices + [i];
        flags[i] := true;
        if total >= cfg.userTextTokens { break; }
      }
      userText := TakeBackwards(older, indices);
    }

    ghost predicate Valid()
      reads this
    {
      cfg.preserveCount >= 1 && cfg.maxFailures >= 1 && failures <= cfg.maxFailures
    }

    predicate ShouldCompact(msgCount: nat, tokenCount: nat)
      reads this`failures
    {
      && cfg.enabled
      && failures < cfg.maxFailures
      && msgCount > cfg.preserveCount
      && tokenCount > 0 && limit > 0
      && if cfg.bufferTokens > 0 then tokenCount >= EffectiveLimit(cfg, limit)
         else tokenCount as real / limit as real >= cfg.threshold
    }

    /** Compaction is due in just these cases. */
    lemma {:induction false} DueExactlyWhen(msgCount: nat, tokenCount: nat)
      ensures ShouldCompact(msgCount, tokenCount) <==> Due(cfg, limit, failures, msgCount, tokenCount)
    {
      if limit > 0 { RatioAtLeast(tokenCount, limit, cfg.threshold); }
    }

    /** The part of compact that decides what becomes of the older messages. */
    method Divide(older: seq<Message>)
      returns (initial: seq<Message>, userText: seq<Message>, summarize: seq<Message>, ghost t: nat)
      ensures var n := InitialSize(cfg, |older|);
              && n <= t <= |older| && TextsFrom(older, n, cost, cfg, t)
              && initial == older[..n] && userText == UserTexts(older, n, t) && summarize == Summarised(older, n, t)
    {
      var flags := new bool[|older|](i => false);
      initial := MarkInitial(older, flags);
      ghost var n := InitialSize(cfg, |older|);
      userText, t := MarkUserText(older, flags, n);
      assert flags[..] == OlderFlags(older, n, t);
      summarize := TakeUnmarked(older, flags);
    }

    method Compact(cancelled: nat -> bool)
      returns (r: Outcome, ghost n: nat, ghost t: nat, ghost e: seq<Exchange>, ghost from: nat)
      modifies this`log, hist
      ensures log == old(log) + e && |e| <= Attempts(cfg) + PTL_RETRIES
      ensures r != Compacted ==> hist.messages == old(hist.messages)
      ensures !hasModel ==> r == Failed && e == []
      ensures hasModel && cfg.preserveCount >= |old(hist.messages)| ==> r == Unneeded && e == []
      ensures hasModel && 1 <= cfg.preserveCount < |old(hist.messages)| ==>
                true ==
                  CompactStep(cfg, cost, strip, old(hist.messages), hist.messages, model, |old(log)|, cancelled, r, n,
                              t, e, from)
    {
      n, t, e, from := 0, 0, [], 0;
      if !hasModel { r := Failed; return; }
      if cfg.preserveCount >= |hist.messages| { r := Unneeded; return; }
      var cut := |hist.messages| - if cfg.preserveCount < 0 then 0 else cfg.preserveCount;
      var older, kept := hist.messages[..cut], hist.messages[cut..];
      var initial, userText, summarize;
      initial, userText, summarize, t := Divide(older);
      n := InitialSize(cfg, cut);
      if summarize == [] { r := Empty; return; }
      var a;
      a, e, from := CompleteSummary(Request(Stripped(summarize, strip), cfg.summaryModel), cancelled);
      r := OutcomeOf(a);
      if a.Summary? { hist.messages := initial + [SummaryMessage(a.content)] + userText + kept; }
    }

    /** The collapse step of maybeCompact. Its branch is never taken, so it leaves the history as it is and never
        ends the call. */
    method CollapseFirst() returns (stop: bool)
      modifies hist
      ensures !stop && hist.messages == old(hist.messages)
    {
      var snapshot := hist.messages;
      stop := false;
      if ToolOutputs.CollapseDefaults(cfg.collapse).enabled {
        var collapsed := ToolOutputs.CollapseToolOutputs(snapshot, cfg.collapse);
        if |collapsed| != |snapshot| || !MessagesEqual(collapsed, snapshot) {
          hist.messages := collapsed;
          stop := !ShouldCompact(|collapsed|, SessionMemory.Tokens(collapsed, cost));
        }
        var c := ToolOutputs.CollapseDefaults(cfg.collapse);
        CollapseIsInvisible(snapshot, c.preserveLastN, c.maxToolOutputLen, c.summaryMaxLen);
      }
    }

    method MaybeCompact(hook: Hook, memory: Option<string>, cancelled: nat -> bool)
      returns (r: Outcome, ghost n: nat, ghost t: nat, ghost e: seq<Exchange>, ghost from: nat)
      requires Valid()
      modifies this, hist
      ensures Valid() && log == old(log) + e
      ensures BreakerStep(cfg, Breaker(old(failures), |old(log)|), Breaker(failures, |log|))
      ensures old(failures) == cfg.maxFailures ==> r == Skipped
      ensures var due := Due(cfg, limit, old(failures), |old(hist.messages)|,
                             SessionMemory.Tokens(old(hist.messages), cost));
              && (r == Skipped <==> !due || hook == Block)
              && (r == HookFailed <==> due && hook == HookError)
              && (r == ByMemory <==>
                    due && hook == Allow && cfg.useMemory
                    && SessionMemory.Usable(old(hist.messages), cost, cfg.memory, memory))
      ensures r in {Skipped, HookFailed, ByMemory, Empty} ==> e == []
      ensures r !in {ByMemory, Compacted} ==> hist.messages == old(hist.messages)
      ensures failures ==
                if r in {ByMemory, Compacted} then 0 else if r == Failed then old(failures) + 1 else old(failures)
      ensures r in {Compacted, Empty, Failed, Panicked} ==> 1 <= cfg.preserveCount < |old(hist.messages)|
      ensures r in {Compacted, Empty, Failed, Panicked} ==>
                if hasModel
                then true ==
                       CompactStep(cfg, cost, strip, old(hist.messages), hist.messages, model, |old(log)|, cancelled,
                                   r, n, t, e, from)
                else r == Failed && e == []
      ensures r in {Skipped, HookFailed, ByMemory, Compacted, Empty, Failed, Panicked}
      // n is then where the kept suffix was chosen to begin
      ensures r == ByMemory ==>
                memory.Some? && n < |old(hist.messages)|
                && SessionMemory.Chosen(old(hist.messages), cost, cfg.memory, n)
      ensures r == ByMemory ==> hist.messages == SessionMemory.FromMemory(old(hist.messages), memory.value, n)
    {
      n, t, e, from := 0, 0, [], 0;
      DueExactlyWhen(|hist.messages|, SessionMemory.Tokens(hist.messages, cost));
      if !ShouldCompact(|hist.messages|, SessionMemory.Tokens(hist.messages, cost)) { r := Skipped; return; }
      match hook {
        case HookError => r := HookFailed; return;
        case Block => r := Skipped; return;
        case Allow =>
      }
      var stop := CollapseFirst();
      if stop { r := Skipped; return; }
      if cfg.useMemory {
        var ok, start := SessionMemory.SessionMemoryCompact(hist, memory, cost, cfg.memory);
        if ok {
          failures := 0;
          n, r := start, ByMemory;
          return;
        }
      }
      r, n, t, e, from := Compact(cancelled);
      if r == Failed {
        failures := failures + 1;
      } else if r == Compacted {
        failures := 0;
      }
    }

    method ResetCircuitBreaker()
      modifies this`failures
      ensures failures == 0
    {
      failures := 0;
    }
  }

  // ---- the circuit breaker over whole runs ----

  /** The failure counter and the number of summary calls made so far. */
  datatype Breaker = Breaker(failures: nat, calls: nat)

  predicate BreakerStep(cfg: Config, a: Breaker, b: Breaker) {
    && (a.failures >= cfg.maxFailures ==> b == a)
    && (b.failures == a.failures || b.failures == a.failures + 1 || b.failures == 0)
    && a.calls <= b.calls <= a.calls + Attempts(cfg) + PTL_RETRIES
  }

  /** Any sequence of maybeCompact calls and resets. */
  predicate BreakerRun(cfg: Config, states: seq<Breaker>, resets: seq<bool>) {
    && |states| == |resets| + 1 && states[0].failures == 0
    && forall k :: 0 <= k < |resets| ==>
         if resets[k] then states[k + 1] == Breaker(0, states[k].calls) else BreakerStep(cfg, states[k], states[k + 1])
  }

  lemma {:induction false} BreakerBounded(cfg: Config, states: seq<Breaker>, resets: seq<bool>, k: nat)
    requires cfg.maxFailures >= 1 && BreakerRun(cfg, states, resets) && k < |states|
    ensures states[k].failures <= cfg.maxFailures
  {
    if k > 0 {
      BreakerBounded(cfg, states, resets, k - 1);
      var j := k - 1;
      assert if resets[j] then states[j + 1] == Breaker(0, states[j].calls)
             else BreakerStep(cfg, states[j], states[j + 1]);
    }
  }

  /** Once tripped, nothing is asked of the model until a reset. */
  lemma {:induction false} BreakerHolds(cfg: Config, states: seq<Breaker>, resets: seq<bool>, i: nat, j: nat)
    requires cfg.maxFailures >= 1 && BreakerRun(cfg, states, resets) && i <= j < |states|
    requires states[i].failures == cfg.maxFailures && forall k :: i <= k < j ==> !resets[k]
    ensures states[j] == states[i]
    decreases j - i
  {
    if i < j {
      assert BreakerStep(cfg, states[i], states[i + 1]);
      BreakerHolds(cfg, states, resets, i + 1, j);
    }
  }
}
