/** Writing a session's new messages to the conversation store, with tool results matched to calls by position
    (pkg/api/conversation_persist.go). */
module Conversation {
  import opened Base
  import opened Messages

  // ---- pairToolResultsToCalls ----

  function NonEmptyIds(calls: seq<ToolCall>): seq<string> {
    if calls == [] then [] else
      NonEmptyIds(calls[..|calls| - 1]) + if calls[|calls| - 1].id != "" then [calls[|calls| - 1].id] else []
  }

  /** What the queue yields for the messages from i on. */
  function Assign(t: seq<Message>, i: nat, pending: seq<string>): (r: seq<string>)
    requires i <= |t|
    ensures |r| == |t| - i
    decreases |t| - i
  {
    if i == |t| then []
    else if AssistantLike(t[i]) then [""] + Assign(t, i + 1, pending + NonEmptyIds(t[i].toolCalls))
    else if ToolLike(t[i]) && pending != [] then [pending[0]] + Assign(t, i + 1, pending[1..])
    else [""] + Assign(t, i + 1, pending)
  }

  method Enqueue(pending0: seq<string>, calls: seq<ToolCall>) returns (pending: seq<string>)
    ensures pending == pending0 + NonEmptyIds(calls)
  {
    pending := pending0;
    for k := 0 to |calls|
      invariant pending == pending0 + NonEmptyIds(calls[..k])
    {
      assert calls[..k + 1][..k] == calls[..k];
      if calls[k].id != "" { pending := pending + [calls[k].id]; }
    }
    assert calls[..|calls|] == calls;
  }

  method PairToolResultsToCalls(tail: seq<Message>) returns (ids: seq<string>)
    ensures ids == Assign(tail, 0, [])
  {
    var pending: seq<string> := [];
    ids := [];
    for i := 0 to |tail|
      invariant |ids| == i && ids + Assign(tail, i, pending) == Assign(tail, 0, [])
    {
      ghost var before, rest := ids, Assign(tail, i, pending);
      var id := "";
      if AssistantLike(tail[i]) {
        pending := Enqueue(pending, tail[i].toolCalls);
      } else if ToolLike(tail[i]) && pending != [] {
        id := pending[0];
        pending := pending[1..];
      }
      ids := ids + [id];
      assert rest == [id] + Assign(tail, i + 1, pending);
      ConcatShift(before, id, Assign(tail, i + 1, pending));
    }
  }

  lemma {:induction false} ConcatShift(a: seq<string>, x: string, b: seq<string>)
    ensures a + ([x] + b) == (a + [x]) + b
  {
  }

  /** The id a message carries itself. */
  function Own(m: Message): string {
    if ToolLike(m) && m.toolCalls != [] then m.toolCalls[0].id else ""
  }

  function Ids(calls: seq<ToolCall>): (r: seq<string>)
    ensures |r| == |calls|
  {
    seq(|calls|, k requires 0 <= k < |calls| => calls[k].id)
  }

  /** q followed by empty strings up to length n. */
  function Padded(q: seq<string>, n: nat): (r: seq<string>)
    requires |q| <= n
    ensures |r| == n
  {
    q + seq(n - |q|, _ => "")
  }

  lemma {:induction false} NonEmptyCount(calls: seq<ToolCall>)
    ensures |NonEmptyIds(calls)| <= |calls| && "" !in NonEmptyIds(calls)
  {
    if calls != [] { NonEmptyCount(calls[..|calls| - 1]); }
  }

  /** n tool messages in a row drain a queue of at most n ids and leave it empty. */
  lemma {:induction false} AssignDrains(t: seq<Message>, i: nat, n: nat, q: seq<string>)
    requires i + n <= |t| && |q| <= n && forall k :: i <= k < i + n ==> t[k].role == TOOL
    ensures Assign(t, i, q) == Padded(q, n) + Assign(t, i + n, [])
    decreases n
  {
    if n == 0 {
      assert Padded(q, 0) == [];
    } else {
      var first, q' := if q == [] then "" else q[0], if q == [] then [] else q[1..];
      var rest := Assign(t, i + n, []);
      AssignDrains(t, i + 1, n - 1, q');
      PaddedStep(q, n);
      AssignTool(t, i, q);
      assert [first] + (Padded(q', n - 1) + rest) == ([first] + Padded(q', n - 1)) + rest;
    }
  }

  lemma {:induction false} PaddedStep(q: seq<string>, n: nat)
    requires |q| <= n && n > 0
    ensures Padded(q, n) == [if q == [] then "" else q[0]] + Padded(if q == [] then [] else q[1..], n - 1)
  {
  }

  lemma {:induction false} AssignTool(t: seq<Message>, i: nat, q: seq<string>)
    requires i < |t| && t[i].role == TOOL
    ensures Assign(t, i, q) ==
              [if q == [] then "" else q[0]] + Assign(t, i + 1, if q == [] then [] else q[1..])
  {
  }

  /** One complete group: its answers receive the non-empty ids of its calls, in order, then nothing. */
  lemma {:induction false} AssignGroup(t: seq<Message>, i: nat)
    requires i < |t| && GroupAt(t, i) && HasCalls(t[i])
    ensures var n := |t[i].toolCalls|;
            |NonEmptyIds(t[i].toolCalls)| <= n &&
            Assign(t, i, []) == [""] + Padded(NonEmptyIds(t[i].toolCalls), n) + Assign(t, i + 1 + n, [])
  {
    var n := |t[i].toolCalls|;
    NonEmptyCount(t[i].toolCalls);
    forall k | i + 1 <= k < i + 1 + n
      ensures t[k].role == TOOL
    { assert Answers(t[i + 1 + (k - i - 1)], t[i].toolCalls[k - i - 1]); }
    AssignDrains(t, i + 1, n, NonEmptyIds(t[i].toolCalls));
    assert [] + NonEmptyIds(t[i].toolCalls) == NonEmptyIds(t[i].toolCalls);
  }

  /** No call with an empty id stands before one with an id. */
  predicate EmptiesLast(calls: seq<ToolCall>) {
    forall a, b :: 0 <= a < b < |calls| && calls[a].id == "" ==> calls[b].id == ""
  }

  lemma {:induction false} PaddedIsIds(calls: seq<ToolCall>)
    requires |NonEmptyIds(calls)| <= |calls|
    ensures Padded(NonEmptyIds(calls), |calls|) == Ids(calls) <==> EmptiesLast(calls)
  {
    if calls != [] {
      var f, c := calls[..|calls| - 1], calls[|calls| - 1];
      NonEmptyCount(f);
      assert Ids(calls) == Ids(f) + [c.id];
      if c.id == "" {
        PaddedIsIds(f);
        var q := NonEmptyIds(f);
        assert Padded(q, |calls|) == Padded(q, |f|) + [""];
        AppendEqual(Padded(q, |f|), "", Ids(f), c.id);
        assert EmptiesLast(calls) <==> EmptiesLast(f);
      } else if |NonEmptyIds(f)| == |f| {
        AllNonEmpty(calls);
      } else {
        SomeEmpty(f);
        assert Padded(NonEmptyIds(calls), |calls|)[|f|] == "";
        assert Ids(calls)[|f|] != "";
      }
    }
  }

  lemma {:induction false} AppendEqual(a: seq<string>, x: string, b: seq<string>, y: string)
    requires |a| == |b|
    ensures a + [x] == b + [y] <==> a == b && x == y
  {
    if a + [x] == b + [y] {
      assert (a + [x])[..|a|] == a && (b + [y])[..|b|] == b && (a + [x])[|a|] == x && (b + [y])[|b|] == y;
    }
  }

  lemma {:induction false} AllNonEmpty(calls: seq<ToolCall>)
    requires |NonEmptyIds(calls)| == |calls|
    ensures (forall a :: 0 <= a < |calls| ==> calls[a].id != "") && NonEmptyIds(calls) == Ids(calls)
  {
    if calls != [] {
      NonEmptyCount(calls[..|calls| - 1]);
      AllNonEmpty(calls[..|calls| - 1]);
    }
  }

  lemma {:induction false} SomeEmpty(calls: seq<ToolCall>)
    requires |NonEmptyIds(calls)| < |calls|
    ensures exists a :: 0 <= a < |calls| && calls[a].id == ""
  {
    var f := calls[..|calls| - 1];
    if calls[|calls| - 1].id != "" {
      SomeEmpty(f);
      var a :| 0 <= a < |f| && f[a].id == "";
      assert calls[a].id == "";
    }
  }

  /** What position j receives when its group began at g: its place among the non-empty ids of the calls. */
  function Due(t: seq<Message>, g: nat, j: nat): string
    requires g <= j < |t|
  {
    if g == j then "" else
      var calls := t[g].toolCalls;
      if |NonEmptyIds(calls)| <= |calls| && j - g - 1 < |calls|
      then Padded(NonEmptyIds(calls), |calls|)[j - g - 1]
      else ""
  }

  /** Read from a group start, the queue never carries an id from one group into another. */
  lemma {:induction false} AssignFromBoundary(t: seq<Message>, i: nat, j: nat)
    requires i <= j < |t| && PairedFrom(t, i)
    ensures Assign(t, i, [])[j - i] == Due(t, StartFrom(t, i, j), j)
    decreases |t| - i
  {
    var e := i + GroupSize(t[i]);
    AssignFirst(t, i, j);
    NextStart(t, i, j);
    if e <= j { AssignFromBoundary(t, e, j); }
  }

  lemma {:induction false} NextStart(t: seq<Message>, i: nat, j: nat)
    requires i <= j < |t|
    ensures StartFrom(t, i, j) == if j < i + GroupSize(t[i]) then i else StartFrom(t, i + GroupSize(t[i]), j)
  {
  }

  /** The first group's share of the result, and the rest read afresh. */
  lemma {:induction false} AssignFirst(t: seq<Message>, i: nat, j: nat)
    requires i <= j < |t| && GroupAt(t, i)
    ensures var e := i + GroupSize(t[i]);
            e <= |t| && Assign(t, i, [])[j - i] == if j < e then Due(t, i, j) else Assign(t, e, [])[j - e]
  {
    if HasCalls(t[i]) {
      AssignGroup(t, i);
    } else {
      assert [] + NonEmptyIds([]) == [];
      assert Assign(t, i, []) == [""] + Assign(t, i + 1, []);
    }
  }

  /** Exactly when the positional match is right: on a well-paired tail every message receives the id it carries
      if and only if, within each group, no call without an id precedes one with an id. */
  lemma {:induction false} FifoExact(t: seq<Message>)
    requires WellPaired(t)
    ensures (forall j :: 0 <= j < |t| ==> Assign(t, 0, [])[j] == Own(t[j]))
       <==> (forall i :: 0 <= i < |t| && HasCalls(t[i]) ==> EmptiesLast(t[i].toolCalls))
  {
    if forall i :: 0 <= i < |t| && HasCalls(t[i]) ==> EmptiesLast(t[i].toolCalls) {
      forall j | 0 <= j < |t| ensures Assign(t, 0, [])[j] == Own(t[j]) { FifoRight(t, j); }
    } else {
      var i :| 0 <= i < |t| && HasCalls(t[i]) && !EmptiesLast(t[i].toolCalls);
      var j := FifoWrong(t, i);
    }
  }

  lemma {:induction false} FifoRight(t: seq<Message>, j: nat)
    requires WellPaired(t) && j < |t|
    requires forall i :: 0 <= i < |t| && HasCalls(t[i]) ==> EmptiesLast(t[i].toolCalls)
    ensures Assign(t, 0, [])[j] == Own(t[j])
  {
    AssignFromBoundary(t, 0, j);
    StartFromShape(t, 0, j);
    DueIsOwn(t, GroupStart(t, j), j);
  }

  lemma {:induction false} DueIsOwn(t: seq<Message>, g: nat, j: nat)
    requires g <= j < |t| && GroupAt(t, g) && j < g + GroupSize(t[g])
    requires HasCalls(t[g]) ==> EmptiesLast(t[g].toolCalls)
    ensures Due(t, g, j) == Own(t[j])
  {
    if g < j {
      MemberAnswers(t, g, j);
      NonEmptyCount(t[g].toolCalls);
      PaddedIsIds(t[g].toolCalls);
    }
  }

  lemma {:induction false} FifoWrong(t: seq<Message>, i: nat) returns (j: nat)
    requires WellPaired(t) && i < |t| && HasCalls(t[i]) && !EmptiesLast(t[i].toolCalls)
    ensures j < |t| && Assign(t, 0, [])[j] != Own(t[j])
  {
    var calls := t[i].toolCalls;
    NonEmptyCount(calls);
    PaddedIsIds(calls);
    var k :| 0 <= k < |calls| && Padded(NonEmptyIds(calls), |calls|)[k] != Ids(calls)[k];
    j := i + 1 + k;
    PairedAnswered(t, i, k);
    CallStart(t, i, k);
    assert Due(t, i, j) != Own(t[j]);
    AssignFromBoundary(t, 0, j);
  }

  /** The group of the k-th answer after an assistant message begins at that message. */
  lemma {:induction false} CallStart(t: seq<Message>, i: nat, k: nat)
    requires WellPaired(t) && i < |t| && HasCalls(t[i]) && k < |t[i].toolCalls| && i + 1 + k < |t|
    ensures GroupStart(t, i + 1 + k) == i
  {
    var j := i + 1 + k;
    StartFromShape(t, 0, j);
    PairedAnswered(t, i, k);
    var g := GroupStart(t, j);
    assert ToolLike(t[j]);
    ToolMessageAnswers(t, j);
    if g < i { PairedAnswered(t, g, i - g - 1); }
    if i < g { PairedAnswered(t, i, g - i - 1); }
  }

  /** A tail that begins inside a group: the answers left over from that group receive no id, all later messages
      receive what they would have received from the start of the history. */
  lemma {:induction false} AssignFromInside(t: seq<Message>, s: nat, j: nat)
    requires WellPaired(t) && s <= j < |t|
    ensures Assign(t, s, [])[j - s] == if GroupStart(t, j) < s then "" else Due(t, GroupStart(t, j), j)
  {
    if GroupStart(t, s) == s {
      StartFromShape(t, 0, s);
      AssignFromBoundary(t, s, j);
      StartLater(t, 0, s, j);
    } else {
      var e := GroupStart(t, s) + GroupSize(t[GroupStart(t, s)]);
      RestOfGroup(t, s);
      AssignPastTools(t, s, e, j);
      if j < e { StartLater(t, 0, s, j); } else { AssignBehindGroup(t, s, e, j); }
    }
  }

  /** Tool messages with nothing pending receive no id and leave nothing pending. */
  lemma {:induction false} AssignPastTools(t: seq<Message>, s: nat, e: nat, j: nat)
    requires s <= e <= |t| && s <= j < |t| && forall k :: s <= k < e ==> t[k].role == TOOL
    ensures Assign(t, s, [])[j - s] == if j < e then "" else Assign(t, e, [])[j - e]
  {
    AssignDrains(t, s, e - s, []);
  }

  lemma {:induction false} AssignBehindGroup(t: seq<Message>, s: nat, e: nat, j: nat)
    requires s <= e <= j < |t| && WellPaired(t) && PairedFrom(t, e) && GroupStart(t, e) == e
    ensures Assign(t, e, [])[j - e] == Due(t, GroupStart(t, j), j) && GroupStart(t, j) >= s
  {
    AssignFromBoundary(t, e, j);
    StartLater(t, 0, e, j);
  }

  /** Behind a position inside a group come the group's other answers and then a group start. */
  lemma {:induction false} RestOfGroup(t: seq<Message>, s: nat)
    requires WellPaired(t) && s <= |t| && GroupStart(t, s) < s
    ensures var e := GroupStart(t, s) + GroupSize(t[GroupStart(t, s)]);
            s <= e <= |t| && PairedFrom(t, e) && GroupStart(t, e) == e && forall k :: s <= k < e ==> t[k].role == TOOL
  {
    StartFromShape(t, 0, s);
    var g := GroupStart(t, s);
    var e := g + GroupSize(t[g]);
    forall k | s <= k < e ensures t[k].role == TOOL { PairedAnswered(t, g, k - g - 1); }
    StartAtBoundary(t, 0, s, e);
  }

  /** Starting to count groups at a group start changes nothing for positions from there on. */
  lemma {:induction false} StartLater(t: seq<Message>, i: nat, s: nat, j: nat)
    requires i <= s <= j <= |t| && PairedFrom(t, i)
    ensures StartFrom(t, i, j) >= StartFrom(t, i, s)
    ensures StartFrom(t, i, s) == s ==> StartFrom(t, i, j) == StartFrom(t, s, j)
    ensures StartFrom(t, i, s) < s && j < StartFrom(t, i, s) + GroupSize(t[StartFrom(t, i, s)]) ==>
              StartFrom(t, i, j) == StartFrom(t, i, s)
    decreases s - i
  {
    if i < s && s >= i + GroupSize(t[i]) { StartLater(t, i + GroupSize(t[i]), s, j); }
  }

  /** The position after a group is a group start. */
  lemma {:induction false} StartAtBoundary(t: seq<Message>, i: nat, s: nat, e: nat)
    requires i <= s <= e <= |t| && PairedFrom(t, i)
    requires if StartFrom(t, i, s) == s then e == s else e == StartFrom(t, i, s) + GroupSize(t[StartFrom(t, i, s)])
    ensures StartFrom(t, i, e) == e
    decreases s - i
  {
    if i < s && s >= i + GroupSize(t[i]) { StartAtBoundary(t, i + GroupSize(t[i]), s, e); }
  }

  // ---- the cursor of persistToConversation ----

  lemma {:induction false} AssignSlice(h: seq<Message>, s: nat, i: nat, q: seq<string>)
    requires s + i <= |h|
    ensures Assign(h[s..], i, q) == Assign(h, s + i, q)
    decreases |h| - s - i
  {
    if s + i < |h| {
      var m := h[s + i];
      assert h[s..][i] == m;
      var q' := if AssistantLike(m) then q + NonEmptyIds(m.toolCalls) else if ToolLike(m) && q != [] then q[1..] else q;
      AssignSlice(h, s, i + 1, q');
    }
  }

  ghost predicate CallsHaveIds(h: seq<Message>) {
    forall i, a :: 0 <= i < |h| && HasCalls(h[i]) && 0 <= a < |h[i].toolCalls| ==> h[i].toolCalls[a].id != ""
  }

  /** The id a persisted message must be stored with: its own, unless its call was persisted by an earlier pass. */
  function StoredId(h: seq<Message>, s: nat, j: nat): string
    requires s <= j < |h|
  {
    if GroupStart(h, j) < s then "" else Own(h[j])
  }

  /** For any place a pass may start, a tool message is stored under its own id exactly when the pass also covers
      the assistant message that made the call, and never under another message's id. */
  lemma {:induction false} PassStoresOwnIds(h: seq<Message>, s: nat, j: nat)
    requires WellPaired(h) && CallsHaveIds(h) && s <= j < |h|
    ensures Assign(h[s..], 0, [])[j - s] == StoredId(h, s, j)
  {
    AssignSlice(h, s, 0, []);
    AssignFromInside(h, s, j);
    StartFromShape(h, 0, j);
    var g := GroupStart(h, j);
    assert GroupAt(h, g);
    DueIsOwn(h, g, j);
  }

  // ---- calls that a run left open ----

  /** The next tool message takes the oldest pending id. */
  lemma {:induction false} NextTakesOldest(t: seq<Message>, i: nat, j: nat, pending: seq<string>)
    requires i <= j < |t| && pending != [] && ToolLike(t[j])
    requires forall k :: i <= k < j ==> !ToolLike(t[k])
    ensures Assign(t, i, pending)[j - i] == pending[0]
    decreases j - i
  {
    if i < j {
      var q := if AssistantLike(t[i]) then pending + NonEmptyIds(t[i].toolCalls) else pending;
      NextTakesOldest(t, i + 1, j, q);
      assert q[0] == pending[0];
    }
  }

  lemma {:induction false} NoToolsNoIds(t: seq<Message>, i: nat, j: nat, pending: seq<string>)
    requires i <= j < |t| && forall k :: i <= k <= j ==> !ToolLike(t[k])
    ensures Assign(t, i, pending)[j - i] == ""
    decreases j - i
  {
    if i < j {
      NoToolsNoIds(t, i + 1, j, if AssistantLike(t[i]) then pending + NonEmptyIds(t[i].toolCalls) else pending);
    }
  }

  /** Through a well-paired front the queue works as if nothing followed, and leaves nothing pending. */
  lemma {:induction false} AssignPast(t: seq<Message>, a: seq<Message>, i: nat, j: nat)
    requires |a| <= |t| && a == t[..|a|] && i <= |a| && PairedFrom(a, i) && i <= j < |t|
    ensures Assign(t, i, [])[j - i] == if j < |a| then Assign(a, i, [])[j - i] else Assign(t, |a|, [])[j - |a|]
    decreases |a| - i
  {
    if i < |a| {
      var e := i + GroupSize(a[i]);
      GroupInFront(t, a, i, j);
      AssignFirst(t, i, j);
      if j < |a| { AssignFirst(a, i, j); }
      if j >= e { AssignPast(t, a, e, j); }
    }
  }

  lemma {:induction false} GroupInFront(t: seq<Message>, a: seq<Message>, i: nat, j: nat)
    requires |a| <= |t| && a == t[..|a|] && i < |a| && GroupAt(a, i)
    ensures t[i] == a[i] && GroupAt(t, i) && i + GroupSize(a[i]) <= |a|
    ensures i <= j < i + GroupSize(a[i]) ==> Due(t, i, j) == Due(a, i, j)
  {
  }

  lemma {:induction false} FirstId(calls: seq<ToolCall>)
    requires calls != [] && calls[0].id != ""
    ensures NonEmptyIds(calls) != [] && NonEmptyIds(calls)[0] == calls[0].id
  {
    if |calls| > 1 { FirstId(calls[..|calls| - 1]); }
  }

  lemma {:induction false} AfterOpen(t: seq<Message>, i: nat, j: nat)
    requires i < j < |t| && HasCalls(t[i]) && t[i].toolCalls[0].id != "" && ToolLike(t[j])
    requires forall k :: i < k < j ==> !ToolLike(t[k])
    ensures Assign(t, i, [])[j - i] == t[i].toolCalls[0].id
  {
    FirstId(t[i].toolCalls);
    NextTakesOldest(t, i + 1, j, NonEmptyIds(t[i].toolCalls));
    AssignAtCalls(t, i);
  }

  lemma {:induction false} AssignAtCalls(t: seq<Message>, i: nat)
    requires i < |t| && HasCalls(t[i])
    ensures Assign(t, i, []) == [""] + Assign(t, i + 1, NonEmptyIds(t[i].toolCalls))
  {
    assert [] + NonEmptyIds(t[i].toolCalls) == NonEmptyIds(t[i].toolCalls);
  }

  /** A run that stopped with open calls, and later runs after it: every message of the pass gets its own id if and
      only if no tool message follows the open calls. */
  lemma {:induction false} OpenCallsMispair(a: seq<Message>, m: Message, b: seq<Message>)
    requires WellPaired(a) && HasCalls(m) && WellPaired(b) && DistinctIds(a + [m] + b)
    ensures (forall j :: 0 <= j < |a + [m] + b| ==> Assign(a + [m] + b, 0, [])[j] == Own((a + [m] + b)[j]))
       <==> (forall k :: 0 <= k < |b| ==> !ToolLike(b[k]))
  {
    var t := a + [m] + b;
    assert t[..|a|] == a && t[|a|] == m;
    if forall k :: 0 <= k < |b| ==> !ToolLike(b[k]) {
      NoToolsBehind(a, m, b);
      IdsInFront(t, a);
      forall j | 0 <= j < |t| ensures Assign(t, 0, [])[j] == Own(t[j]) { OpenButHarmless(t, a, j); }
    } else {
      var k :| 0 <= k < |b| && ToolLike(b[k]);
      assert t[|a| + 1 + k] == b[k];
      var j := FirstTool(t, |a| + 1, |a| + 1 + k);
      OldestIsTaken(t, a, j);
      AnotherId(a, m, b, j - |a| - 1);
      assert t[j] == b[j - |a| - 1];
    }
  }

  lemma {:induction false} NoToolsBehind(a: seq<Message>, m: Message, b: seq<Message>)
    requires HasCalls(m) && forall k :: 0 <= k < |b| ==> !ToolLike(b[k])
    ensures forall i :: |a| <= i < |a + [m] + b| ==> !ToolLike((a + [m] + b)[i])
  {
  }

  lemma {:induction false} OpenButHarmless(t: seq<Message>, a: seq<Message>, j: nat)
    requires |a| < |t| && a == t[..|a|] && WellPaired(a) && j < |t|
    requires forall i :: 0 <= i < |a| && HasCalls(a[i]) ==> EmptiesLast(a[i].toolCalls)
    requires forall i :: |a| <= i < |t| ==> !ToolLike(t[i])
    ensures Assign(t, 0, [])[j] == Own(t[j])
  {
    AssignPast(t, a, 0, j);
    if j < |a| { FifoRight(a, j); } else { NoToolsNoIds(t, |a|, j, []); }
  }

  lemma {:induction false} IdsInFront(t: seq<Message>, a: seq<Message>)
    requires |a| <= |t| && a == t[..|a|] && DistinctIds(t)
    ensures forall i :: 0 <= i < |a| && HasCalls(a[i]) ==> EmptiesLast(a[i].toolCalls)
  {
    assert forall i :: 0 <= i < |a| ==> t[i] == a[i];
  }

  lemma {:induction false} OldestIsTaken(t: seq<Message>, a: seq<Message>, j: nat)
    requires |a| < j < |t| && a == t[..|a|] && WellPaired(a) && HasCalls(t[|a|]) && t[|a|].toolCalls[0].id != ""
    requires ToolLike(t[j]) && forall i :: |a| < i < j ==> !ToolLike(t[i])
    ensures Assign(t, 0, [])[j] == t[|a|].toolCalls[0].id
  {
    AssignPast(t, a, 0, j);
    AfterOpen(t, |a|, j);
  }

  lemma {:induction false} AnotherId(a: seq<Message>, m: Message, b: seq<Message>, k: nat)
    requires HasCalls(m) && WellPaired(b) && DistinctIds(a + [m] + b) && k < |b| && ToolLike(b[k])
    ensures Own(b[k]) != m.toolCalls[0].id
  {
    ToolMessageAnswers(b, k);
    var t, g := a + [m] + b, GroupStart(b, k);
    assert t[|a|] == m && t[|a| + 1 + g] == b[g];
  }

  lemma {:induction false} FirstTool(t: seq<Message>, from: nat, k: nat) returns (j: nat)
    requires from <= k < |t| && ToolLike(t[k])
    ensures from <= j <= k && ToolLike(t[j]) && forall i :: from <= i < j ==> !ToolLike(t[i])
  {
    j := from;
    while !ToolLike(t[j])
      invariant from <= j <= k && forall i :: from <= i < j ==> !ToolLike(t[i])
      decreases k - j
    {
      j := j + 1;
    }
  }

  /** For instance: a call left open, then a call that is answered. The answer is stored under the open call's id. */
  lemma {:induction false} MispairedExample(name: string)
    ensures var open := Message(ASSISTANT, "", [ToolCall("1", name, "", "")], "");
            var call := Message(ASSISTANT, "", [ToolCall("2", name, "", "")], "");
            var answer := Message(TOOL, "", [ToolCall("2", name, "", "")], "");
            Assign([open, call, answer], 0, [])[2] == "1" && Own(answer) == "2"
  {
    var open := Message(ASSISTANT, "", [ToolCall("1", name, "", "")], "");
    var call := Message(ASSISTANT, "", [ToolCall("2", name, "", "")], "");
    var answer := Message(TOOL, "", [ToolCall("2", name, "", "")], "");
    FirstId(open.toolCalls);
    assert [] + NonEmptyIds(open.toolCalls) == NonEmptyIds(open.toolCalls);
    NextTakesOldest([open, call, answer], 1, 2, NonEmptyIds(open.toolCalls));
  }

  // ---- events and the cursor ----

  /** How many events a message fans out into: an assistant message one for its text, if any, and one per call. */
  function Parts(m: Message, hasBlocks: Message -> bool): nat {
    if AssistantLike(m) then (if TrimSpace(m.content) != "" || hasBlocks(m) then 1 else 0) + |m.toolCalls| else 1
  }

  /** An assistant message has an event besides those of its calls exactly when it says something or carries blocks;
      any other message has just one. */
  lemma {:induction false} PartsMeaning(m: Message, hasBlocks: Message -> bool)
    ensures AssistantLike(m) ==> |m.toolCalls| <= Parts(m, hasBlocks) <= |m.toolCalls| + 1
    ensures AssistantLike(m) ==>
              (Parts(m, hasBlocks) > |m.toolCalls| <==>
                 hasBlocks(m) || exists k :: 0 <= k < |m.content| && !IsSpace(m.content[k]))
    ensures !AssistantLike(m) ==> Parts(m, hasBlocks) == 1
  {
    var i, j := TrimSpaceMeaning(m.content);
    assert TrimSpace(m.content) != "" ==> !IsSpace(m.content[i]);
  }

  /** An event, by the message it belongs to and its place among that message's events. */
  datatype Event = Event(message: nat, part: nat)

  function SomeOf(k: nat, n: nat): seq<Event> { seq(n, p requires 0 <= p < n => Event(k, p)) }

  /** All events of the messages from i up to j. */
  function EventsOf(h: seq<Message>, hasBlocks: Message -> bool, i: nat, j: nat): seq<Event>
    requires i <= j <= |h|
  {
    if i == j then [] else EventsOf(h, hasBlocks, i, j - 1) + SomeOf(j - 1, Parts(h[j - 1], hasBlocks))
  }

  lemma {:induction false} EventsConcat(h: seq<Message>, hasBlocks: Message -> bool, i: nat, j: nat, k: nat)
    requires i <= j <= k <= |h|
    ensures EventsOf(h, hasBlocks, i, k) == EventsOf(h, hasBlocks, i, j) + EventsOf(h, hasBlocks, j, k)
  {
    if j < k {
      EventsConcat(h, hasBlocks, i, j, k - 1);
      var last := SomeOf(k - 1, Parts(h[k - 1], hasBlocks));
      assert EventsOf(h, hasBlocks, i, j) + (EventsOf(h, hasBlocks, j, k - 1) + last)
          == (EventsOf(h, hasBlocks, i, j) + EventsOf(h, hasBlocks, j, k - 1)) + last;
    }
  }

  /** What the first n messages of a pass have added to the log. */
  ghost predicate Logged(log: seq<(nat, string)>, before: seq<(nat, string)>, ids: seq<string>, n: nat) {
    && n <= |ids| && |log| == |before| + n && log[..|before|] == before
    && (forall k :: 0 <= k < |log| ==> log[k].0 == k)
    && forall k :: |before| <= k < |log| ==> log[k].1 == ids[k - |before|]
  }

  lemma {:induction false} LoggedStep(log: seq<(nat, string)>, before: seq<(nat, string)>, ids: seq<string>, n: nat)
    requires Logged(log, before, ids, n) && n < |ids|
    ensures true == Logged(log + [(|before| + n, ids[n])], before, ids, n + 1)
  {
    assert (log + [(|before| + n, ids[n])])[..|before|] == log[..|before|];
  }

  lemma {:induction false} EventsStep(h: seq<Message>, hasBlocks: Message -> bool, i: nat, j: nat, before: seq<Event>)
    requires i <= j < |h|
    ensures before + EventsOf(h, hasBlocks, i, j) + SomeOf(j, Parts(h[j], hasBlocks)) ==
              before + EventsOf(h, hasBlocks, i, j + 1)
    ensures |EventsOf(h, hasBlocks, i, j + 1)| == |EventsOf(h, hasBlocks, i, j)| + Parts(h[j], hasBlocks)
  {
  }

  // ---- where a pass stops ----

  /** The first message a pass from i does not get through when the store accepts this many more events. */
  function EndOf(h: seq<Message>, hasBlocks: Message -> bool, i: nat, left: nat): nat
    requires i <= |h|
    decreases |h| - i
  {
    if i == |h| || Parts(h[i], hasBlocks) > left then i
    else EndOf(h, hasBlocks, i + 1, left - Parts(h[i], hasBlocks))
  }

  /** How many events of that message are accepted all the same. */
  function PartOf(h: seq<Message>, hasBlocks: Message -> bool, i: nat, left: nat): nat
    requires i <= |h|
    decreases |h| - i
  {
    if i == |h| then 0
    else if Parts(h[i], hasBlocks) > left then left
    else PartOf(h, hasBlocks, i + 1, left - Parts(h[i], hasBlocks))
  }

  /** Inside a pass that began at start: everything before message `at` has been accepted, and `left` more will be. */
  ghost predicate PassAt(h: seq<Message>, hasBlocks: Message -> bool, start: nat, accepted: nat, before: seq<Event>,
                         at: nat, left: nat, events: seq<Event>)
  {
    && start <= at <= |h| && events == before + EventsOf(h, hasBlocks, start, at)
    && EndOf(h, hasBlocks, start, accepted) == EndOf(h, hasBlocks, at, left)
    && PartOf(h, hasBlocks, start, accepted) == PartOf(h, hasBlocks, at, left)
  }

  lemma {:induction false} PassGoesOn(h: seq<Message>, hasBlocks: Message -> bool, start: nat, accepted: nat,
                                      before: seq<Event>, at: nat, left: nat, events: seq<Event>)
    requires PassAt(h, hasBlocks, start, accepted, before, at, left, events)
    requires at < |h| && Parts(h[at], hasBlocks) <= left
    ensures var n := Parts(h[at], hasBlocks);
            true == PassAt(h, hasBlocks, start, accepted, before, at + 1, left - n, events + SomeOf(at, n))
  {
    EventsStep(h, hasBlocks, start, at, before);
  }

  /** A pass from start has ended: where the cursor is and what has been stored. */
  ghost predicate PassDone(h: seq<Message>, hasBlocks: Message -> bool, start: nat, accepted: nat, before: seq<Event>,
                           at: nat, events: seq<Event>)
  {
    && start <= at <= |h| && at == EndOf(h, hasBlocks, start, accepted)
    && events == before + EventsOf(h, hasBlocks, start, at) + SomeOf(at, PartOf(h, hasBlocks, start, accepted))
  }

  lemma {:induction false} PassStops(h: seq<Message>, hasBlocks: Message -> bool, start: nat, accepted: nat,
                                     before: seq<Event>, at: nat, left: nat, events: seq<Event>, after: seq<Event>)
    requires PassAt(h, hasBlocks, start, accepted, before, at, left, events)
    requires at == |h| || Parts(h[at], hasBlocks) > left
    requires after == if at == |h| then events else events + SomeOf(at, left)
    ensures true == PassDone(h, hasBlocks, start, accepted, before, at, after)
  {
    if at == |h| { assert events + SomeOf(at, 0) == events; }
  }

  /** The pass goes as far as the accepted events allow: through whole messages, then some events of the next. */
  lemma {:induction false} PassMeaning(h: seq<Message>, hasBlocks: Message -> bool, i: nat, left: nat)
    requires i <= |h|
    ensures var e, p := EndOf(h, hasBlocks, i, left), PartOf(h, hasBlocks, i, left);
            && i <= e <= |h|
            && (e < |h| ==> |EventsOf(h, hasBlocks, i, e)| + p == left && p < Parts(h[e], hasBlocks))
            && (e == |h| ==> |EventsOf(h, hasBlocks, i, e)| <= left && p == 0)
    decreases |h| - i
  {
    if i < |h| && Parts(h[i], hasBlocks) <= left {
      PassMeaning(h, hasBlocks, i + 1, left - Parts(h[i], hasBlocks));
      EventsConcat(h, hasBlocks, i, i + 1, EndOf(h, hasBlocks, i, left));
      assert |EventsOf(h, hasBlocks, i, i + 1)| == Parts(h[i], hasBlocks);
    }
  }

  /** A pass stops inside a message exactly when the store accepts fewer events than there are and no whole number of
      messages makes up what it accepts. */
  lemma {:induction false} WholeExactlyWhen(h: seq<Message>, hasBlocks: Message -> bool, start: nat, accepted: nat)
    requires start <= |h|
    ensures PartOf(h, hasBlocks, start, accepted) == 0 <==>
              || accepted >= |EventsOf(h, hasBlocks, start, |h|)|
              || exists k :: start <= k <= |h| && |EventsOf(h, hasBlocks, start, k)| == accepted
  {
    PassMeaning(h, hasBlocks, start, accepted);
    var e, p := EndOf(h, hasBlocks, start, accepted), PartOf(h, hasBlocks, start, accepted);
    if e < |h| {
      EventsConcat(h, hasBlocks, start, e + 1, |h|);
      EventsConcat(h, hasBlocks, start, e, e + 1);
      assert |EventsOf(h, hasBlocks, e, e + 1)| == Parts(h[e], hasBlocks);
      if k :| start <= k <= |h| && |EventsOf(h, hasBlocks, start, k)| == accepted {
        if k <= e {
          EventsConcat(h, hasBlocks, start, k, e);
        } else {
          EventsConcat(h, hasBlocks, start, e + 1, k);
        }
      }
    }
  }

  // ---- several passes over a history that grows ----

  /** One pass: how much of the history exists, whether thread and turn could be had, how many events are accepted. */
  datatype Pass = Pass(seen: nat, threadOk: bool, turnOk: bool, accepted: nat)

  /** The cursor, how many events of the message at the cursor are stored already, and all stored events. */
  datatype Stored = Stored(next: nat, pending: nat, events: seq<Event>)

  predicate Growing(h: seq<Message>, passes: seq<Pass>) {
    && (forall i :: 0 <= i < |passes| ==> passes[i].seen <= |h|)
    && forall i, j :: 0 <= i < j < |passes| ==> passes[i].seen <= passes[j].seen
  }

  predicate Runs(st: Stored, p: Pass) { p.threadOk && p.turnOk && st.next < p.seen }

  function AfterPass(h: seq<Message>, hasBlocks: Message -> bool, st: Stored, p: Pass): (r: Stored)
    requires p.seen <= |h|
  {
    if !Runs(st, p) then st else
      var seen := h[..p.seen];
      var e, n := EndOf(seen, hasBlocks, st.next, p.accepted), PartOf(seen, hasBlocks, st.next, p.accepted);
      PassMeaning(seen, hasBlocks, st.next, p.accepted);
      Stored(e, if p.accepted == 0 then st.pending else n,
             st.events + EventsOf(h, hasBlocks, st.next, e) + SomeOf(e, n))
  }

  function AfterPasses(h: seq<Message>, hasBlocks: Message -> bool, passes: seq<Pass>, n: nat): Stored
    requires Growing(h, passes) && n <= |passes|
  {
    if n == 0 then Stored(0, 0, [])
    else AfterPass(h, hasBlocks, AfterPasses(h, hasBlocks, passes, n - 1), passes[n - 1])
  }

  /** Pass j finds events of the message at the cursor already stored, and stores something. */
  predicate Resends(h: seq<Message>, hasBlocks: Message -> bool, passes: seq<Pass>, j: nat)
    requires Growing(h, passes) && j < |passes|
  {
    var st := AfterPasses(h, hasBlocks, passes, j);
    st.pending > 0 && Runs(st, passes[j]) && passes[j].accepted > 0
  }

  /** What holds of the stored events whatever the passes: those of the message at the cursor begin with its first. */
  ghost predicate Sound(h: seq<Message>, hasBlocks: Message -> bool, st: Stored) {
    && st.next <= |h|
    && (st.pending > 0 ==>
          st.next < |h| && st.pending < Parts(h[st.next], hasBlocks) && Event(st.next, 0) in st.events)
  }

  /** Everything up to the cursor stored once and in order, and the pending events behind it. */
  ghost predicate Neat(h: seq<Message>, hasBlocks: Message -> bool, st: Stored)
    requires st.next <= |h|
  {
    st.events == EventsOf(h, hasBlocks, 0, st.next) + SomeOf(st.next, st.pending)
  }

  lemma {:induction false} PassSound(h: seq<Message>, hasBlocks: Message -> bool, st: Stored, p: Pass)
    requires Sound(h, hasBlocks, st) && p.seen <= |h|
    ensures Sound(h, hasBlocks, AfterPass(h, hasBlocks, st, p)) && st.events <= AfterPass(h, hasBlocks, st, p).events
  {
    if Runs(st, p) {
      var seen := h[..p.seen];
      PassMeaning(seen, hasBlocks, st.next, p.accepted);
      var e, n := EndOf(seen, hasBlocks, st.next, p.accepted), PartOf(seen, hasBlocks, st.next, p.accepted);
      assert e < p.seen ==> seen[e] == h[e];
      if n > 0 { assert SomeOf(e, n)[0] == Event(e, 0); }
    }
  }

  lemma {:induction false} PassNeat(h: seq<Message>, hasBlocks: Message -> bool, st: Stored, p: Pass)
    requires Sound(h, hasBlocks, st) && Neat(h, hasBlocks, st) && p.seen <= |h|
    requires !(st.pending > 0 && Runs(st, p) && p.accepted > 0)
    ensures AfterPass(h, hasBlocks, st, p).next <= |h| && Neat(h, hasBlocks, AfterPass(h, hasBlocks, st, p))
  {
    if Runs(st, p) {
      var seen := h[..p.seen];
      PassMeaning(seen, hasBlocks, st.next, p.accepted);
      var e, n := EndOf(seen, hasBlocks, st.next, p.accepted), PartOf(seen, hasBlocks, st.next, p.accepted);
      if st.pending > 0 {
        assert seen[st.next] == h[st.next] && e == st.next && n == 0;
        NothingAdded(h, hasBlocks, st.events, e);
      } else {
        NeatNext(h, hasBlocks, st.next, e, n);
      }
    }
  }

  lemma {:induction false} NothingAdded(h: seq<Message>, hasBlocks: Message -> bool, events: seq<Event>, k: nat)
    requires k <= |h|
    ensures events + EventsOf(h, hasBlocks, k, k) + SomeOf(k, 0) == events
  {
    assert EventsOf(h, hasBlocks, k, k) == [] && SomeOf(k, 0) == [];
  }

  lemma {:induction false} NeatNext(h: seq<Message>, hasBlocks: Message -> bool, i: nat, j: nat, n: nat)
    requires i <= j <= |h|
    ensures (EventsOf(h, hasBlocks, 0, i) + SomeOf(i, 0)) + EventsOf(h, hasBlocks, i, j) + SomeOf(j, n)
            == EventsOf(h, hasBlocks, 0, j) + SomeOf(j, n)
  {
    EventsConcat(h, hasBlocks, 0, i, j);
    assert SomeOf(i, 0) == [];
  }

  lemma {:induction false} EventsSame(h: seq<Message>, s: nat, hasBlocks: Message -> bool, i: nat, j: nat)
    requires i <= j <= s <= |h|
    ensures EventsOf(h[..s], hasBlocks, i, j) == EventsOf(h, hasBlocks, i, j)
  {
    if i < j { EventsSame(h, s, hasBlocks, i, j - 1); }
  }

  /** A pass that stores something begins with the first event of the message at the cursor, if that has any. */
  lemma {:induction false} PassRepeats(h: seq<Message>, hasBlocks: Message -> bool, st: Stored, p: Pass)
    requires Sound(h, hasBlocks, st) && p.seen <= |h| && st.pending > 0 && Runs(st, p) && p.accepted > 0
    ensures !NoDup(AfterPass(h, hasBlocks, st, p).events)
  {
    var seen := h[..p.seen];
    PassMeaning(seen, hasBlocks, st.next, p.accepted);
    var e, n := EndOf(seen, hasBlocks, st.next, p.accepted), PartOf(seen, hasBlocks, st.next, p.accepted);
    var added := EventsOf(h, hasBlocks, st.next, e) + SomeOf(e, n);
    assert seen[st.next] == h[st.next];
    PassBegins(h, hasBlocks, st.next, e, n);
    assert st.events + added == AfterPass(h, hasBlocks, st, p).events;
    Repeated(st.events, added, Event(st.next, 0));
  }

  lemma {:induction false} PassBegins(h: seq<Message>, hasBlocks: Message -> bool, i: nat, e: nat, n: nat)
    requires i <= e <= |h| && i < |h| && Parts(h[i], hasBlocks) > 0 && (i == e ==> n > 0)
    ensures var added := EventsOf(h, hasBlocks, i, e) + SomeOf(e, n); added != [] && added[0] == Event(i, 0)
  {
    if i < e {
      EventsConcat(h, hasBlocks, i, i + 1, e);
      assert EventsOf(h, hasBlocks, i, i + 1) == SomeOf(i, Parts(h[i], hasBlocks));
    }
  }

  lemma {:induction false} Repeated(a: seq<Event>, b: seq<Event>, x: Event)
    requires x in a && b != [] && b[0] == x
    ensures !NoDup(a + b)
  {
    var i :| 0 <= i < |a| && a[i] == x;
    assert (a + b)[i] == (a + b)[|a|];
  }

  lemma {:induction false} EventsInOrder(h: seq<Message>, hasBlocks: Message -> bool, k: nat, p: nat)
    requires k <= |h|
    ensures NoDup(EventsOf(h, hasBlocks, 0, k) + SomeOf(k, p))
    ensures forall x :: x in EventsOf(h, hasBlocks, 0, k) ==> x.message < k
  {
    if k > 0 {
      EventsInOrder(h, hasBlocks, k - 1, Parts(h[k - 1], hasBlocks));
    }
    var front := EventsOf(h, hasBlocks, 0, k);
    assert forall i :: 0 <= i < |front| ==> front[i] in front;
  }

  lemma {:induction false} PassesSound(h: seq<Message>, hasBlocks: Message -> bool, passes: seq<Pass>, m: nat, n: nat)
    requires Growing(h, passes) && m <= n <= |passes|
    ensures Sound(h, hasBlocks, AfterPasses(h, hasBlocks, passes, n))
    ensures AfterPasses(h, hasBlocks, passes, m).events <= AfterPasses(h, hasBlocks, passes, n).events
    decreases n
  {
    if n > 0 {
      PassesSound(h, hasBlocks, passes, if m < n then m else m - 1, n - 1);
      PassSound(h, hasBlocks, AfterPasses(h, hasBlocks, passes, n - 1), passes[n - 1]);
    }
  }

  lemma {:induction false} PassesNeat(h: seq<Message>, hasBlocks: Message -> bool, passes: seq<Pass>, n: nat)
    requires Growing(h, passes) && n <= |passes| && forall j :: 0 <= j < n ==> !Resends(h, hasBlocks, passes, j)
    ensures var st := AfterPasses(h, hasBlocks, passes, n); st.next <= |h| && Neat(h, hasBlocks, st)
  {
    if n == 0 {
      assert SomeOf(0, 0) == [];
    } else {
      PassesNeat(h, hasBlocks, passes, n - 1);
      PassesSound(h, hasBlocks, passes, n - 1, n - 1);
      assert !Resends(h, hasBlocks, passes, n - 1);
      PassNeat(h, hasBlocks, AfterPasses(h, hasBlocks, passes, n - 1), passes[n - 1]);
    }
  }

  /** Over any passes, no event is stored twice if and only if no pass that stopped inside a message is followed by one
      that stores something; and then everything up to the cursor is stored once and in order. */
  lemma {:induction false} OnceExactlyWhen(h: seq<Message>, hasBlocks: Message -> bool, passes: seq<Pass>, n: nat)
    requires Growing(h, passes) && n <= |passes|
    ensures var st := AfterPasses(h, hasBlocks, passes, n);
            && st.next <= |h|
            && (NoDup(st.events) <==> forall j :: 0 <= j < n ==> !Resends(h, hasBlocks, passes, j))
            && (NoDup(st.events) <==> Neat(h, hasBlocks, st))
  {
    var st := AfterPasses(h, hasBlocks, passes, n);
    PassesSound(h, hasBlocks, passes, n, n);
    EventsInOrder(h, hasBlocks, st.next, st.pending);
    if j :| 0 <= j < n && Resends(h, hasBlocks, passes, j) {
      PassesSound(h, hasBlocks, passes, j, j);
      PassRepeats(h, hasBlocks, AfterPasses(h, hasBlocks, passes, j), passes[j]);
      PassesSound(h, hasBlocks, passes, j + 1, n);
      var early := AfterPasses(h, hasBlocks, passes, j + 1).events;
      var a, b :| 0 <= a < b < |early| && early[a] == early[b];
      assert st.events[a] == early[a] && st.events[b] == early[b];
    } else {
      PassesNeat(h, hasBlocks, passes, n);
    }
  }

  /** For instance: an answer with two calls, of whose events the first pass gets one accepted and the second both. */
  lemma {:induction false} StoredTwiceExample(c: ToolCall, d: ToolCall, hasBlocks: Message -> bool)
    requires !hasBlocks(Message(ASSISTANT, "", [c, d], ""))
    ensures var h, passes := [Message(ASSISTANT, "", [c, d], "")], [Pass(1, true, true, 1), Pass(1, true, true, 2)];
            AfterPasses(h, hasBlocks, passes, 2) == Stored(1, 0, [Event(0, 0), Event(0, 0), Event(0, 1)])
  {
    var h, passes := [Message(ASSISTANT, "", [c, d], "")], [Pass(1, true, true, 1), Pass(1, true, true, 2)];
    assert h[..1] == h && TrimSpace("") == "" && Parts(h[0], hasBlocks) == 2;
    assert SomeOf(0, 1) == [Event(0, 0)] && SomeOf(0, 2) == [Event(0, 0), Event(0, 1)] && SomeOf(1, 0) == [];
    assert EndOf(h, hasBlocks, 0, 1) == 0 && PartOf(h, hasBlocks, 0, 1) == 1;
    assert EndOf(h, hasBlocks, 1, 0) == 1 && EndOf(h, hasBlocks, 0, 2) == 1 && PartOf(h, hasBlocks, 0, 2) == 0;
    assert EventsOf(h, hasBlocks, 0, 0) == [] && EventsOf(h, hasBlocks, 0, 1) == SomeOf(0, 2);
    var first := AfterPass(h, hasBlocks, Stored(0, 0, []), passes[0]);
    assert first == Stored(0, 1, [Event(0, 0)]);
    assert AfterPasses(h, hasBlocks, passes, 1) == first;
  }

  class Cursor {
    const hasBlocks: Message -> bool
    var next: nat                          // convCursor: next message index to emit
    var events: seq<Event>                 // every event the store has accepted
    var log: seq<(nat, string)>            // (message index, tool call id) of every message fully stored

    constructor (hasBlocks: Message -> bool)
      ensures next == 0 && events == [] && log == [] && this.hasBlocks == hasBlocks && Valid()
    {
      next, events, log := 0, [], [];
      this.hasBlocks := hasBlocks;
    }

    /** Every message below the cursor has been stored, in order. */
    ghost predicate Valid()
      reads this
    {
      |log| == next && forall k :: 0 <= k < next ==> log[k].0 == k
    }

    /** appendMessageEvents while the store accepts budget more events. */
    method AppendMessageEvents(m: Message, index: nat, budget: nat) returns (ok: bool, left: nat)
      modifies `events
      ensures ok <==> Parts(m, hasBlocks) <= budget
      ensures left == if ok then budget - Parts(m, hasBlocks) else 0
      ensures events == old(events) + SomeOf(index, if ok then Parts(m, hasBlocks) else budget)
    {
      left := budget;
      var n := Parts(m, hasBlocks);
      for p := 0 to n
        invariant p <= budget && left == budget - p && events == old(events) + SomeOf(index, p)
      {
        if left == 0 { return false, 0; }
        events := events + [Event(index, p)];
        left := left - 1;
      }
      ok := true;
    }

    /** One pass over an append-only history; the store accepts this many events of the pass. The cursor moves past
        every message all of whose events were accepted. */
    method Persist(h: seq<Message>, threadOk: bool, turnOk: bool, accepted: nat)
      requires Valid() && next <= |h|
      modifies `next, `events, `log
      ensures Valid() && old(next) <= next <= |h| && log[..old(next)] == old(log)
      ensures if threadOk && turnOk && old(next) < |h|
              then && next == EndOf(h, hasBlocks, old(next), accepted)
                   && events == old(events) + EventsOf(h, hasBlocks, old(next), next)
                                + SomeOf(next, PartOf(h, hasBlocks, old(next), accepted))
              else next == old(next) && events == old(events)
      ensures forall j :: old(next) <= j < next ==> log[j].1 == Assign(h[old(next)..], 0, [])[j - old(next)]
      ensures WellPaired(h) && CallsHaveIds(h) ==>
                forall j :: old(next) <= j < next ==> log[j].1 == StoredId(h, old(next), j)
    {
      ghost var start := next;
      if next < |h| && threadOk && turnOk { Emit(h, accepted); }
      if WellPaired(h) && CallsHaveIds(h) {
        forall j | start <= j < next ensures log[j].1 == StoredId(h, start, j) { PassStoresOwnIds(h, start, j); }
      }
    }

    /** The loop over the tail of the history. */
    method Emit(h: seq<Message>, accepted: nat)
      requires Valid() && next < |h|
      modifies `next, `events, `log
      ensures old(next) <= next <= |h|
      ensures true == Logged(log, old(log), Assign(h[old(next)..], 0, []), next - old(next))
      ensures true == PassDone(h, hasBlocks, old(next), accepted, old(events), next, events)
    {
      var cursor, tail := next, h[next..];
      var ids := PairToolResultsToCalls(tail);
      var emitted: nat, left: nat := 0, accepted;
      while emitted < |tail|
        invariant emitted <= |tail| && next == cursor
        invariant true == Logged(log, old(log), ids, emitted)
        invariant true == PassAt(h, hasBlocks, cursor, accepted, old(events), cursor + emitted, left, events)
      {
        var at := cursor + emitted;
        ghost var budget, before := left, events;
        var ok;
        ok, left := AppendMessageEvents(tail[emitted], at, left);
        if !ok {
          PassStops(h, hasBlocks, cursor, accepted, old(events), at, budget, before, events);
          next := cursor + emitted;
          return;
        }
        PassGoesOn(h, hasBlocks, cursor, accepted, old(events), at, budget, before);
        LoggedStep(log, old(log), ids, emitted);
        log := log + [(cursor + emitted, ids[emitted])];
        emitted := emitted + 1;
      }
      PassStops(h, hasBlocks, cursor, accepted, old(events), |h|, left, events, events);
      next := cursor + emitted;
    }

    /** Any number of passes while the history grows into h. */
    method PersistAll(h: seq<Message>, passes: seq<Pass>)
      requires Valid() && next == 0 && events == [] && Growing(h, passes)
      modifies `next, `events, `log
      ensures Valid()
      ensures var st := AfterPasses(h, hasBlocks, passes, |passes|); next == st.next && events == st.events
    {
      for i := 0 to |passes|
        invariant Valid()
        invariant var st := AfterPasses(h, hasBlocks, passes, i); next == st.next && events == st.events
        invariant i < |passes| ==> next <= passes[i].seen
      {
        var p := passes[i];
        ghost var start := next;
        Persist(h[..p.seen], p.threadOk, p.turnOk, p.accepted);
        EventsSame(h, p.seen, hasBlocks, start, next);
      }
    }
  }
}
