/** Compaction from session memory: which suffix to keep, and moving its start so that no tool result is
    separated from its call (pkg/api/compact_session_memory.go). */
module SessionMemory {
  import opened Base
  import opened Messages

  // ---- adjustIndexForToolPairs ----

  function IdsOf(calls: seq<ToolCall>): set<string> { set c | c in calls && c.id != "" :: c.id }

  /** Ids in messages of one role: results for "tool", calls for "assistant". */
  function IdsIn(ms: seq<Message>, role: Role): set<string> {
    if ms == [] then {} else
      IdsIn(ms[..|ms| - 1], role) + if ms[|ms| - 1].role == role then IdsOf(ms[|ms| - 1].toolCalls) else {}
  }

  /** The backward walk: from position i down, move to every assistant message that still has a needed id. */
  function WalkBack(h: seq<Message>, i: nat, needed: set<string>, start: nat): (r: nat)
    requires i <= start <= |h|
    ensures r <= start
  {
    if i == 0 || needed == {} then start else
      var m := h[i - 1];
      if m.role == ASSISTANT && IdsOf(m.toolCalls) * needed != {}
      then WalkBack(h, i - 1, needed - IdsOf(m.toolCalls), i - 1)
      else WalkBack(h, i - 1, needed, start)
  }

  function Needed(h: seq<Message>, s: nat): set<string>
    requires s <= |h|
  {
    IdsIn(h[s..], TOOL) - IdsIn(h[s..], ASSISTANT)
  }

  function Adjusted(h: seq<Message>, s: nat): (r: nat)
    requires s <= |h|
    ensures r <= s
  {
    if s == 0 || s == |h| then s else WalkBack(h, s, Needed(h, s), s)
  }

  method CollectIds(ms: seq<Message>, role: Role) returns (ids: set<string>)
    ensures ids == IdsIn(ms, role)
  {
    ids := {};
    for i := 0 to |ms|
      invariant ids == IdsIn(ms[..i], role)
    {
      assert ms[..i + 1][..i] == ms[..i];
      if ms[i].role == role {
        ghost var before := ids;
        for k := 0 to |ms[i].toolCalls|
          invariant ids == before + IdsOf(ms[i].toolCalls[..k])
        {
          if ms[i].toolCalls[k].id != "" { ids := ids + {ms[i].toolCalls[k].id}; }
        }
        assert ms[i].toolCalls[..|ms[i].toolCalls|] == ms[i].toolCalls;
      }
    }
    assert ms[..|ms|] == ms;
  }

  method AdjustIndexForToolPairs(h: seq<Message>, startIndex: nat) returns (r: nat)
    requires startIndex <= |h|
    ensures r == Adjusted(h, startIndex)
  {
    if startIndex == 0 || startIndex == |h| { return startIndex; }
    var results := CollectIds(h[startIndex..], TOOL);
    var uses := CollectIds(h[startIndex..], ASSISTANT);
    var needed := results - uses;
    NoEmptyId(h[startIndex..], TOOL);
    r := startIndex;
    var i := startIndex;
    while i > 0 && needed != {}
      invariant 0 <= i <= r <= startIndex && "" !in needed
      invariant WalkBack(h, i, needed, r) == WalkBack(h, startIndex, Needed(h, startIndex), startIndex)
    {
      i := i - 1;
      if h[i].role == ASSISTANT {
        var found;
        needed, found := TakeNeeded(h[i].toolCalls, needed);
        if found { r := i; }
      }
    }
  }

  /** Strikes the ids of one assistant message off the needed set. */
  method TakeNeeded(calls: seq<ToolCall>, needed0: set<string>) returns (needed: set<string>, found: bool)
    requires "" !in needed0
    ensures needed == needed0 - IdsOf(calls) && (found <==> IdsOf(calls) * needed0 != {})
    ensures !found ==> needed == needed0
  {
    needed, found := needed0, false;
    for k := 0 to |calls|
      invariant needed == needed0 - IdsOf(calls[..k])
      invariant found <==> IdsOf(calls[..k]) * needed0 != {}
      invariant !found ==> needed == needed0
    {
      ghost var before, after := IdsOf(calls[..k]), IdsOf(calls[..k + 1]);
      assert after == before + if calls[k].id != "" then {calls[k].id} else {};
      if calls[k].id in needed {
        assert calls[k].id in after * needed0;
        found := true;
        needed := needed - {calls[k].id};
      } else {
        assert after * needed0 == before * needed0;
      }
    }
    assert calls[..|calls|] == calls;
  }

  lemma {:induction false} NoEmptyId(ms: seq<Message>, role: Role)
    ensures "" !in IdsIn(ms, role)
  {
    if ms != [] { NoEmptyId(ms[..|ms| - 1], role); }
  }

  predicate OccursAt(ms: seq<Message>, role: Role, x: string, j: nat, a: nat) {
    j < |ms| && ms[j].role == role && a < |ms[j].toolCalls| && ms[j].toolCalls[a].id == x
  }

  lemma {:induction false} FindId(ms: seq<Message>, role: Role, x: string) returns (j: nat, a: nat)
    requires x in IdsIn(ms, role)
    ensures OccursAt(ms, role, x, j, a)
  {
    var last := ms[|ms| - 1];
    if last.role == role && x in IdsOf(last.toolCalls) {
      j := |ms| - 1;
      a :| 0 <= a < |last.toolCalls| && last.toolCalls[a].id == x;
    } else {
      j, a := FindId(ms[..|ms| - 1], role, x);
    }
  }

  lemma {:induction false} IdIn(ms: seq<Message>, role: Role, j: nat, a: nat)
    requires j < |ms| && ms[j].role == role && a < |ms[j].toolCalls| && ms[j].toolCalls[a].id != ""
    ensures ms[j].toolCalls[a].id in IdsIn(ms, role)
  {
    if j < |ms| - 1 { IdIn(ms[..|ms| - 1], role, j, a); }
  }

  /** A call that answers needs sits in the suffix unless its group began earlier. */
  lemma {:induction false} ResultHasCall(h: seq<Message>, s: nat, x: string) returns (i: nat, j: nat)
    requires WellPaired(h) && s <= |h| && x in IdsIn(h[s..], TOOL)
    ensures i < j && s <= j < |h| && HasCalls(h[i]) && j <= i + |h[i].toolCalls| && h[i].toolCalls[j - i - 1].id == x
  {
    NoEmptyId(h[s..], TOOL);
    var k, a := FindId(h[s..], TOOL, x);
    j := s + k;
    assert h[s..][k] == h[j];
    ToolMessageAnswers(h, j);
    i := GroupStart(h, j);
  }

  lemma {:induction false} NothingNeededAtBoundary(h: seq<Message>, s: nat)
    requires WellPaired(h) && s <= |h| && GroupStart(h, s) == s
    ensures Needed(h, s) == {}
  {
    forall x | x in IdsIn(h[s..], TOOL) ensures x in IdsIn(h[s..], ASSISTANT) {
      NoEmptyId(h[s..], TOOL);
      var i, j := ResultHasCall(h, s, x);
      SpanIsOneGroup(h, i, s, j);
      assert h[s..][i - s] == h[i];
      IdIn(h[s..], ASSISTANT, i - s, j - i - 1);
    }
  }

  /** A group that spans past position s either begins at or after s, or is the group s lies in. */
  lemma {:induction false} SpanIsOneGroup(h: seq<Message>, i: nat, s: nat, j: nat)
    requires WellPaired(h) && i < |h| && HasCalls(h[i]) && s <= j <= i + |h[i].toolCalls| && s <= |h|
    ensures i >= s || i == GroupStart(h, s)
  {
    var g := GroupStart(h, s);
    StartFromShape(h, 0, s);
    if i < s {
      PairedAnswered(h, i, s - i - 1);
      if i < g { AnswerStartsNoGroup(h, i, g); }
      if g < i { PairedAnswered(h, g, i - g - 1); }
    }
  }

  lemma {:induction false} AnswerStartsNoGroup(h: seq<Message>, i: nat, g: nat)
    requires WellPaired(h) && i < g < |h| && HasCalls(h[i]) && g <= i + |h[i].toolCalls|
    ensures !PairedFrom(h, g)
  {
    PairedAnswered(h, i, g - i - 1);
    assert !GroupAt(h, g);
  }

  lemma {:induction false} CallIdNotLater(h: seq<Message>, g: nat, a: nat, s: nat)
    requires DistinctIds(h) && g < s <= |h| && HasCalls(h[g]) && a < |h[g].toolCalls|
    ensures h[g].toolCalls[a].id !in IdsIn(h[s..], ASSISTANT)
  {
    if h[g].toolCalls[a].id in IdsIn(h[s..], ASSISTANT) {
      var j, b := FindId(h[s..], ASSISTANT, h[g].toolCalls[a].id);
      var k := s + j;
    }
  }

  /** Inside a group, what is needed is some of the ids of its assistant message. */
  lemma {:induction false} NeededInsideGroup(h: seq<Message>, s: nat)
    requires WellPaired(h) && DistinctIds(h) && s < |h| && GroupStart(h, s) < s
    ensures var g := GroupStart(h, s); HasCalls(h[g]) && Needed(h, s) != {} && Needed(h, s) <= IdsOf(h[g].toolCalls)
  {
    var g := GroupStart(h, s);
    StartFromShape(h, 0, s);
    PairedAnswered(h, g, s - g - 1);
    IdIn(h[s..], TOOL, 0, 0);
    CallIdNotLater(h, g, s - g - 1, s);
    assert h[g].toolCalls[s - g - 1].id in Needed(h, s);
    forall y | y in Needed(h, s) ensures y in IdsOf(h[g].toolCalls) { NeededIsOwn(h, s, y); }
  }

  lemma {:induction false} NeededIsOwn(h: seq<Message>, s: nat, y: string)
    requires WellPaired(h) && s < |h| && y in Needed(h, s)
    ensures GroupStart(h, s) < s && y in IdsOf(h[GroupStart(h, s)].toolCalls)
  {
    NoEmptyId(h[s..], TOOL);
    var i, j := ResultHasCall(h, s, y);
    SpanIsOneGroup(h, i, s, j);
    if i >= s { IdIn(h[s..], ASSISTANT, i - s, j - i - 1); }
  }

  lemma {:induction false} WalkStopsAt(h: seq<Message>, i: nat, needed: set<string>, start: nat, g: nat)
    requires g < i <= start <= |h| && needed != {} && h[g].role == ASSISTANT && needed <= IdsOf(h[g].toolCalls)
    requires forall k :: g < k < i ==> h[k].role != ASSISTANT
    ensures WalkBack(h, i, needed, start) == g
  {
    if i - 1 == g {
      assert IdsOf(h[g].toolCalls) * needed == needed && needed - IdsOf(h[g].toolCalls) == {};
    } else {
      WalkStopsAt(h, i - 1, needed, start, g);
    }
  }

  /** Whatever the ids, the adjustment goes back to the start of the group if some id is needed, and stays otherwise.
      The suffix is well paired if and only if the index was a group start or some id is needed. */
  lemma {:induction false} AdjustedExactly(h: seq<Message>, s: nat)
    requires WellPaired(h) && s <= |h|
    ensures Adjusted(h, s) == if Needed(h, s) != {} then GroupStart(h, s) else s
    ensures WellPaired(h[Adjusted(h, s)..]) <==> GroupStart(h, s) == s || Needed(h, s) != {}
  {
    StartFromShape(h, 0, s);
    var g := GroupStart(h, s);
    TailPaired(h, g);
    TailPaired(h, s);
    if g == s {
      NothingNeededAtBoundary(h, s);
    } else {
      PairedAnswered(h, g, s - g - 1);
      AnswerStartsNoGroup(h, g, s);
      if Needed(h, s) != {} { WalkInsideGroup(h, s); }
    }
  }

  lemma {:induction false} WalkInsideGroup(h: seq<Message>, s: nat)
    requires WellPaired(h) && s < |h| && GroupStart(h, s) < s && Needed(h, s) != {}
    ensures WalkBack(h, s, Needed(h, s), s) == GroupStart(h, s)
  {
    var g := GroupStart(h, s);
    StartFromShape(h, 0, s);
    forall y | y in Needed(h, s) ensures y in IdsOf(h[g].toolCalls) { NeededIsOwn(h, s, y); }
    forall k | g < k < s ensures h[k].role != ASSISTANT { PairedAnswered(h, g, k - g - 1); }
    WalkStopsAt(h, s, Needed(h, s), s, g);
  }

  /** With distinct non-empty ids something is needed everywhere inside a group. */
  lemma {:induction false} AdjustedIsGroupStart(h: seq<Message>, s: nat)
    requires WellPaired(h) && DistinctIds(h) && s <= |h|
    ensures Adjusted(h, s) == GroupStart(h, s) && WellPaired(h[Adjusted(h, s)..])
  {
    AdjustedExactly(h, s);
    StartFromShape(h, 0, s);
    if GroupStart(h, s) < s { NeededInsideGroup(h, s); }
  }

  /** A call without an id: its result is left at the front of the suffix. */
  lemma {:induction false} EmptyIdSplitsPair(name: string, content: string)
    ensures var h := [Message(ASSISTANT, "", [ToolCall("", name, "", "")], ""),
                      Message(TOOL, "", [ToolCall("", name, "", "")], ""),
                      Message(USER, content, [], "")];
            WellPaired(h) && Adjusted(h, 1) == 1 && !WellPaired(h[Adjusted(h, 1)..])
  {
    var call := ToolCall("", name, "", "");
    var a, t, u := Message(ASSISTANT, "", [call], ""), Message(TOOL, "", [call], ""), Message(USER, content, [], "");
    var h := [a, t, u];
    assert GroupAt(h, 0) && GroupAt(h, 2) && PairedFrom(h, 3) && PairedFrom(h, 2);
    NothingWithoutIds(h[1..], TOOL);
    AdjustedExactly(h, 1);
    assert GroupStart(h, 1) == 0;
  }

  lemma {:induction false} NothingWithoutIds(ms: seq<Message>, role: Role)
    requires forall i, a :: 0 <= i < |ms| && 0 <= a < |ms[i].toolCalls| ==> ms[i].toolCalls[a].id == ""
    ensures IdsIn(ms, role) == {}
  {
    if ms != [] { NothingWithoutIds(ms[..|ms| - 1], role); }
  }

  // ---- the suffix choice ----

  datatype Config = Config(minTokens: int, maxTokens: int, minText: int)

  function Tokens(h: seq<Message>, cost: Message -> nat): nat {
    if h == [] then 0 else cost(h[0]) + Tokens(h[1..], cost)
  }

  predicate IsText(m: Message) { (m.role == USER || m.role == ASSISTANT) && TrimSpace(m.content) != "" }

  function Texts(h: seq<Message>): nat {
    if h == [] then 0 else (if IsText(h[0]) then 1 else 0) + Texts(h[1..])
  }

  /** The messages counted as text are those in which the user or the assistant says something. */
  lemma {:induction false} TextMeaning(m: Message)
    ensures IsText(m) <==> m.role in {USER, ASSISTANT} && exists k :: 0 <= k < |m.content| && !IsSpace(m.content[k])
  {
    var i, j := TrimSpaceMeaning(m.content);
    assert TrimSpace(m.content) != "" ==> !IsSpace(m.content[i]);
  }

  /** ...and their number adds up. */
  lemma {:induction false} TextsCount(h: seq<Message>, t: seq<Message>)
    ensures Texts(h + t) == Texts(h) + Texts(t)
  {
    if h == [] { assert h + t == t; } else {
      assert (h + t)[1..] == h[1..] + t;
      TextsCount(h[1..], t);
    }
  }

  /** The suffix from i meets both minimums. */
  predicate Enough(h: seq<Message>, cost: Message -> nat, cfg: Config, i: nat)
    requires i <= |h|
  {
    Tokens(h[i..], cost) >= cfg.minTokens && Texts(h[i..]) >= cfg.minText
  }

  /** The shortest non-empty suffix that meets both minimums, unless the cap stops the search first: then the
      longest suffix within the cap. */
  ghost predicate Chosen(h: seq<Message>, cost: Message -> nat, cfg: Config, start: nat) {
    && start <= |h|
    && (start < |h| ==> Tokens(h[start..], cost) <= cfg.maxTokens)
    && (forall i :: start < i < |h| ==> !Enough(h, cost, cfg, i))
    && (start == 0 || (start < |h| && Enough(h, cost, cfg, start)) || Tokens(h[start - 1..], cost) > cfg.maxTokens)
  }

  method ChooseStart(h: seq<Message>, cost: Message -> nat, cfg: Config) returns (start: nat)
    ensures Chosen(h, cost, cfg, start)
  {
    var total, texts := 0, 0;
    start := |h|;
    var i := |h|;
    while i > 0
      invariant 0 <= i == start <= |h|
      invariant total == Tokens(h[start..], cost) && texts == Texts(h[start..])
      invariant start < |h| ==> total <= cfg.maxTokens
      invariant forall k :: start <= k < |h| ==> !Enough(h, cost, cfg, k)
    {
      i := i - 1;
      var m := h[i];
      assert h[i..][1..] == h[i + 1..];
      if total + cost(m) > cfg.maxTokens { break; }
      total := total + cost(m);
      if IsText(m) { texts := texts + 1; }
      start := i;
      if total >= cfg.minTokens && texts >= cfg.minText { break; }
    }
  }

  lemma {:induction false} TokensGrow(h: seq<Message>, cost: Message -> nat, i: nat, j: nat)
    requires i <= j <= |h|
    ensures Tokens(h[j..], cost) <= Tokens(h[i..], cost)
    decreases j - i
  {
    if i < j {
      assert h[i..][1..] == h[i + 1..];
      TokensGrow(h, cost, i + 1, j);
    }
  }

  /** The description leaves no choice. */
  lemma {:induction false} ChosenUnique(h: seq<Message>, cost: Message -> nat, cfg: Config, s: nat, t: nat)
    requires Chosen(h, cost, cfg, s) && Chosen(h, cost, cfg, t)
    ensures s == t
  {
    if s < t { ChosenOrder(h, cost, cfg, s, t); } else if t < s { ChosenOrder(h, cost, cfg, t, s); }
  }

  lemma {:induction false} ChosenOrder(h: seq<Message>, cost: Message -> nat, cfg: Config, s: nat, t: nat)
    requires Chosen(h, cost, cfg, s) && s < t <= |h|
    ensures !Chosen(h, cost, cfg, t)
  {
    TokensGrow(h, cost, s, t - 1);
  }

  // ---- sessionMemoryCompact ----

  const SUMMARY_PREFIX := "会话记忆摘要（零成本压缩）：\n"

  /** The memory as a system message, then the suffix from the adjusted start. */
  function FromMemory(h: seq<Message>, memory: string, start: nat): seq<Message>
    requires start <= |h|
  {
    [Message(SYSTEM, SUMMARY_PREFIX + memory, [], "")] + h[Adjusted(h, start)..]
  }

  /** A suffix is chosen exactly when the last message alone is within the cap. */
  lemma {:induction false} ChosenSome(h: seq<Message>, cost: Message -> nat, cfg: Config, start: nat)
    requires Chosen(h, cost, cfg, start)
    ensures start < |h| <==> h != [] && cost(h[|h| - 1]) <= cfg.maxTokens
  {
    if h != [] {
      var last := h[|h| - 1..];
      assert last[1..] == [] && Tokens(last, cost) == cost(h[|h| - 1]);
      if start < |h| { TokensGrow(h, cost, start, |h| - 1); }
    }
  }

  /** The memory says something and there is a suffix to keep. */
  predicate Usable(h: seq<Message>, cost: Message -> nat, cfg: Config, memory: Option<string>) {
    memory.Some? && TrimSpace(memory.value) != "" && h != [] && cost(h[|h| - 1]) <= cfg.maxTokens
  }

  /** memory is what the store's BuildContext yields: nothing when there is no store or it fails. */
  method SessionMemoryCompact(hist: History, memory: Option<string>, cost: Message -> nat, cfg: Config)
    returns (ok: bool, start: nat)
    modifies hist
    ensures Chosen(old(hist.messages), cost, cfg, start)
    ensures ok <==> Usable(old(hist.messages), cost, cfg, memory)
    ensures ok ==> start < |old(hist.messages)|
    ensures hist.messages ==
              if ok then FromMemory(old(hist.messages), memory.value, start) else old(hist.messages)
    ensures ok && WellPaired(old(hist.messages)) ==>
              (WellPaired(hist.messages) <==>
                 GroupStart(old(hist.messages), start) == start || Needed(old(hist.messages), start) != {})
    ensures WellPaired(old(hist.messages)) && DistinctIds(old(hist.messages)) ==> true == WellPaired(hist.messages)
  {
    start := ChooseStart(hist.messages, cost, cfg);
    ChosenSome(hist.messages, cost, cfg, start);
    if memory.None? || TrimSpace(memory.value) == "" { return false, start; }
    var from := AdjustIndexForToolPairs(hist.messages, start);
    var kept := hist.messages[from..];
    if kept == [] { return false, start; }
    ghost var before := hist.messages;
    hist.messages := [Message(SYSTEM, SUMMARY_PREFIX + memory.value, [], "")] + kept;
    ok := true;
    SummaryThenPaired(hist.messages[0], kept);
    if WellPaired(before) {
      AdjustedExactly(before, start);
      if DistinctIds(before) { AdjustedIsGroupStart(before, start); }
    }
  }

  lemma {:induction false} SummaryThenPaired(m: Message, kept: seq<Message>)
    requires m.role == SYSTEM
    ensures WellPaired([m] + kept) <==> WellPaired(kept)
  {
    assert GroupAt([m], 0) && PairedFrom([m], 1);
    PairedConcat([m], kept);
  }
}
