/** Conversation messages and the shape the runtime keeps them in (pkg/message, pkg/api). */
module Messages {
  import opened Base

  /** The four role names the runtime writes, and every other spelling: one that trims and lower-cases to "assistant",
      one that does so to "tool" or "function", or neither. */
  datatype Role =
    | User | Assistant | System | Tool
    | LooseAssistant(spelling: string) | LooseTool(spelling: string) | Other(spelling: string)

  const ASSISTANT := Role.Assistant
  const TOOL := Role.Tool
  const USER := Role.User
  const SYSTEM := Role.System

  datatype ToolCall = ToolCall(id: string, name: string, arguments: string, result: string)

  /** extra stands for the parts no code here looks into: content blocks, reasoning, artifacts. */
  datatype Message = Message(role: Role, content: string, toolCalls: seq<ToolCall>, extra: string)

  /** Some code compares the role exactly, some after trimming and lower-casing; these are the latter. */
  predicate AssistantLike(m: Message) { m.role.Assistant? || m.role.LooseAssistant? }

  predicate ToolLike(m: Message) { m.role.Tool? || m.role.LooseTool? }

  // ---- the grammar: ordinary messages, or an assistant message with calls and then its answers in order ----

  predicate HasCalls(m: Message) { m.role == ASSISTANT && m.toolCalls != [] }

  predicate Ordinary(m: Message) { !ToolLike(m) && (AssistantLike(m) ==> m.toolCalls == []) }

  /** m is the tool message that answers call c: one entry, same id, same name. */
  predicate Answers(m: Message, c: ToolCall) {
    m.role == TOOL && |m.toolCalls| == 1 && m.toolCalls[0].id == c.id && m.toolCalls[0].name == c.name
  }

  predicate AnswersAll(ms: seq<Message>, calls: seq<ToolCall>) {
    |ms| == |calls| && forall k :: 0 <= k < |calls| ==> Answers(ms[k], calls[k])
  }

  /** The number of messages in the group that m begins. */
  function GroupSize(m: Message): nat { if HasCalls(m) then 1 + |m.toolCalls| else 1 }

  predicate GroupAt(h: seq<Message>, i: nat)
    requires i < |h|
  {
    if HasCalls(h[i]) then
      i + |h[i].toolCalls| < |h| && forall k :: 0 <= k < |h[i].toolCalls| ==> Answers(h[i + 1 + k], h[i].toolCalls[k])
    else Ordinary(h[i])
  }

  /** From position i on, the history is a run of complete groups. */
  predicate PairedFrom(h: seq<Message>, i: nat)
    requires i <= |h|
    decreases |h| - i
  {
    i == |h| || (GroupAt(h, i) && PairedFrom(h, i + GroupSize(h[i])))
  }

  predicate WellPaired(h: seq<Message>) { PairedFrom(h, 0) }

  lemma {:induction false} PairedShift(a: seq<Message>, b: seq<Message>, i: nat)
    requires i <= |b|
    ensures PairedFrom(a + b, |a| + i) <==> PairedFrom(b, i)
    decreases |b| - i
  {
    var h := a + b;
    if i < |b| {
      GroupShift(a, b, i);
      if GroupAt(b, i) { PairedShift(a, b, i + GroupSize(b[i])); }
    }
  }

  lemma {:induction false} GroupShift(a: seq<Message>, b: seq<Message>, i: nat)
    requires i < |b|
    ensures (a + b)[|a| + i] == b[i] && (GroupAt(a + b, |a| + i) <==> GroupAt(b, i))
  {
    if HasCalls(b[i]) && i + |b[i].toolCalls| < |b| {
      assert forall k :: 0 <= k < |b[i].toolCalls| ==>
        (Answers((a + b)[|a| + i + 1 + k], b[i].toolCalls[k]) <==> Answers(b[i + 1 + k], b[i].toolCalls[k]));
    }
  }

  lemma {:induction false} PairedSkip(a: seq<Message>, b: seq<Message>, i: nat)
    requires i <= |a| && PairedFrom(a, i)
    ensures PairedFrom(a + b, i) <==> PairedFrom(a + b, |a|)
    decreases |a| - i
  {
    if i < |a| {
      assert (a + b)[i] == a[i] && GroupAt(a + b, i);
      PairedSkip(a, b, i + GroupSize(a[i]));
    }
  }

  lemma {:induction false} PairedConcat(a: seq<Message>, b: seq<Message>)
    requires WellPaired(a)
    ensures WellPaired(a + b) <==> WellPaired(b)
  {
    PairedSkip(a, b, 0);
    PairedShift(a, b, 0);
  }

  /** Cut at a group start, what is left is well paired. */
  lemma {:induction false} TailPaired(h: seq<Message>, g: nat)
    requires g <= |h|
    ensures PairedFrom(h, g) <==> WellPaired(h[g..])
  {
    assert h == h[..g] + h[g..];
    PairedShift(h[..g], h[g..], 0);
  }

  lemma {:induction false} PairedAppendOrdinary(h: seq<Message>, m: Message)
    requires WellPaired(h) && Ordinary(m) && !HasCalls(m)
    ensures WellPaired(h + [m])
  {
    assert GroupAt([m], 0) && PairedFrom([m], 1);
    PairedConcat(h, [m]);
  }

  lemma {:induction false} PairedAppendGroup(h: seq<Message>, m: Message, answers: seq<Message>)
    requires WellPaired(h) && HasCalls(m) && AnswersAll(answers, m.toolCalls)
    ensures true == WellPaired(h + [m] + answers)
  {
    var group := [m] + answers;
    assert h + [m] + answers == h + group;
    assert WellPaired(group) by { OneGroup(m, answers); }
    PairedConcat(h, group);
  }

  lemma {:induction false} OneGroup(m: Message, answers: seq<Message>)
    requires HasCalls(m) && AnswersAll(answers, m.toolCalls)
    ensures true == WellPaired([m] + answers)
  {
    var g := [m] + answers;
    forall k | 0 <= k < |m.toolCalls| ensures Answers(g[0 + 1 + k], m.toolCalls[k]) { assert g[1 + k] == answers[k]; }
    assert GroupAt(g, 0) && GroupSize(g[0]) == |g| && PairedFrom(g, |g|);
  }

  /** A history whose last assistant message is still waiting for its answers is not well paired. */
  lemma {:induction false} OpenIsNotPaired(h: seq<Message>, m: Message)
    requires WellPaired(h) && HasCalls(m)
    ensures !WellPaired(h + [m])
  {
    var one := [m];
    assert !GroupAt(one, 0);
    assert !WellPaired(one);
    PairedConcat(h, one);
  }

  // ---- groups by position ----

  /** Counting groups from i, the start of the one that contains position s; s itself when a group begins there. */
  function StartFrom(h: seq<Message>, i: nat, s: nat): (g: nat)
    requires i <= s <= |h|
    ensures i <= g <= s
    decreases s - i
  {
    if i == s || s < i + GroupSize(h[i]) then i else StartFrom(h, i + GroupSize(h[i]), s)
  }

  function GroupStart(h: seq<Message>, s: nat): nat
    requires s <= |h|
  {
    StartFrom(h, 0, s)
  }

  /** A group start is a position from which the history is well paired; any position between it and s answers
      the calls of its assistant message. */
  lemma {:induction false} StartFromShape(h: seq<Message>, i: nat, s: nat)
    requires i <= s <= |h| && PairedFrom(h, i)
    ensures var g := StartFrom(h, i, s);
            && PairedFrom(h, g)
            && (g < s ==> HasCalls(h[g]) && s <= g + |h[g].toolCalls| < |h|)
    decreases s - i
  {
    if i < s && s >= i + GroupSize(h[i]) { StartFromShape(h, i + GroupSize(h[i]), s); }
  }

  /** The grammar read off position by position: the k-th call of an assistant message at i is answered,
      under its own id and name, by the message at i + 1 + k. */
  lemma {:induction false} PairedAnswered(h: seq<Message>, i: nat, k: nat)
    requires WellPaired(h) && i < |h| && HasCalls(h[i]) && k < |h[i].toolCalls|
    ensures i + 1 + k < |h| && Answers(h[i + 1 + k], h[i].toolCalls[k])
  {
    StartFromShape(h, 0, i);
    var g := GroupStart(h, i);
    assert GroupAt(h, g);
    if g < i { MemberAnswers(h, g, i); }
  }

  lemma {:induction false} MemberAnswers(h: seq<Message>, g: nat, i: nat)
    requires g < i < |h| && GroupAt(h, g) && HasCalls(h[g]) && i <= g + |h[g].toolCalls|
    ensures Answers(h[i], h[g].toolCalls[i - g - 1])
  {
    assert h[i] == h[g + 1 + (i - g - 1)];
  }

  /** ...and every tool message is such an answer. */
  lemma {:induction false} ToolMessageAnswers(h: seq<Message>, j: nat)
    requires WellPaired(h) && j < |h| && ToolLike(h[j])
    ensures var i := GroupStart(h, j);
            && i < j && HasCalls(h[i]) && j - i - 1 < |h[i].toolCalls|
            && Answers(h[j], h[i].toolCalls[j - i - 1])
  {
    StartFromShape(h, 0, j);
    var i := GroupStart(h, j);
    assert GroupAt(h, i);
    if i < j { PairedAnswered(h, i, j - i - 1); }
  }

  /** Call ids are non-empty and never reused. */
  ghost predicate DistinctIds(h: seq<Message>) {
    && (forall i, a :: 0 <= i < |h| && HasCalls(h[i]) && 0 <= a < |h[i].toolCalls| ==> h[i].toolCalls[a].id != "")
    && forall i, j, a, b :: (0 <= i < |h| && HasCalls(h[i]) && 0 <= a < |h[i].toolCalls|
                             && 0 <= j < |h| && HasCalls(h[j]) && 0 <= b < |h[j].toolCalls|
                             && h[i].toolCalls[a].id == h[j].toolCalls[b].id) ==> i == j && a == b
  }

  /** message.History: the list of messages that the passes below work on in place. */
  class History {
    var messages: seq<Message>

    constructor (ms: seq<Message>)
      ensures messages == ms
    {
      messages := ms;
    }
  }
}
