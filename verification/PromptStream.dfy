/** The prompt mapper: how it turns the events of a tool-call stream into updates, and the invariant over its whole log
    (pkg/acp/prompt_updates.go). Byte strings hold one character per byte. A contract `true == P(..)` says P(..); the
    comparison makes the verifier carry the predicate over whole. */
module PromptStream {
  import opened Base
  import opened Utf8Json

  // ---- events and updates ----

  datatype Delta = TextDelta(text: string) | InputDelta(raw: string) | OtherDelta

  datatype Event =
    | BlockStart(toolUse: bool, id: string, name: string, index: Option<int>)
    | BlockDelta(index: Option<int>, delta: Delta)
    | BlockStop(index: Option<int>)
    | ExecStart(id: string, name: string)
    | ExecOutput(id: string, name: string, text: string, stderr: bool)
    | ExecResult(id: string, name: string, failed: bool, plan: bool)
    | OtherEvent

  /** Progress is an update of status and content of a call; Plan carries no call. */
  datatype Update =
    | AgentText(text: string)
    | Start(id: string, name: string)
    | RawInput(id: string, raw: string)
    | Progress(id: string, content: string)
    | Plan

  // ---- the mapper ----

  datatype Call = Call(id: string, name: string, announced: bool, input: string, emitted: bool)

  /** Calls live in a pool and are referred to by position, the way the source holds pointers to them: the same call
      can be reached by id and by block index. */
  datatype Mapper = Mapper(next: nat, pool: seq<Call>, byId: map<string, nat>, byIndex: map<int, nat>)

  const EMPTY_MAPPER := Mapper(0, [], map[], map[])
  const DEFAULT_TITLE := "tool"
  const STDERR_NOTE := "[stderr] "

  function Synthetic(n: nat): string { "tool_call_" + Decimal(n) }

  /** Every known id leads to a call with that id, every block index to some call, and every call has a known id. */
  ghost predicate Valid(m: Mapper) {
    && (forall id :: id in m.byId ==> m.byId[id] < |m.pool| && Ids(m.pool)[m.byId[id]] == id)
    && m.byId.Keys == Elements(Ids(m.pool))
    && ValidIndex(m)
  }

  ghost predicate ValidIndex(m: Mapper) { forall i: int :: i in m.byIndex ==> m.byIndex[i] < |m.pool| }

  /** The id that a call is looked up under: its own, or the one its block index is known by. */
  function LookupId(m: Mapper, rawId: string, index: Option<int>): string {
    var id := TrimSpace(rawId);
    if id == "" && index.Some? && index.value in m.byIndex && m.byIndex[index.value] < |m.pool|
    then m.pool[m.byIndex[index.value]].id else id
  }

  predicate Known(m: Mapper, rawId: string, index: Option<int>) {
    var id := LookupId(m, rawId, index);
    id != "" && id in m.byId && m.byId[id] < |m.pool|
  }

  function SetIndex(m: Mapper, index: Option<int>, k: nat): Mapper {
    if index.Some? then m.(byIndex := m.byIndex[index.value := k]) else m
  }

  function Title(name: string): string { if TrimSpace(name) == "" then DEFAULT_TITLE else TrimSpace(name) }

  /** The id of a call that is made because it is not known. */
  function NewId(m: Mapper, rawId: string): string
  {
    if TrimSpace(rawId) == "" then Synthetic(m.next + 1) else TrimSpace(rawId)
  }

  function Added(m: Mapper, next: nat, id: string, title: string, index: Option<int>, announced: bool): Mapper {
    SetIndex(Mapper(next, m.pool + [Call(id, title, announced, "", false)], m.byId[id := |m.pool|], m.byIndex), index,
             |m.pool|)
  }

  /** ensureToolCall: the position of the call and the mapper that holds it. */
  function Ensure(m: Mapper, rawId: string, name: string, index: Option<int>): (r: (Mapper, nat)) {
    if Known(m, rawId, index) then
      var k := m.byId[LookupId(m, rawId, index)];
      var named := if TrimSpace(name) != "" then m.(pool := m.pool[k := m.pool[k].(name := TrimSpace(name))]) else m;
      (SetIndex(named, index, k), k)
    else
      var next := if TrimSpace(rawId) == "" then m.next + 1 else m.next;
      (Added(m, next, NewId(m, rawId), Title(name), index, false), |m.pool|)
  }

  /** startToolCallUpdate. */
  function Announce(m: Mapper, k: nat): (Mapper, seq<Update>)
    requires k < |m.pool|
  {
    if m.pool[k].announced then (m, [])
    else (m.(pool := m.pool[k := m.pool[k].(announced := true)]), [Start(m.pool[k].id, m.pool[k].name)])
  }

  /** A call is looked up or made, announced, and then reported on. */
  function Report(m: Mapper, rawId: string, name: string, index: Option<int>, content: Option<string>)
    : (Mapper, seq<Update>)
  {
    var (m1, k) := Ensure(m, rawId, name, index);
    if k >= |m1.pool| then (m1, []) else
      var (m2, ups) := Announce(m1, k);
      (m2, if content.Some? then ups + [Progress(m1.pool[k].id, content.value)] else ups)
  }

  /** decodePartialJSONChunk. */
  function DecodeChunk(raw: string): string {
    if raw == [] then "" else if Unmarshal(raw).Some? then Unmarshal(raw).value else raw
  }

  function OutputText(text: string, stderr: bool): string { if text != "" && stderr then STDERR_NOTE + text else text }

  /** A chunk that is a JSON string, or null, is read as one; any other is taken as it is, the empty one included. */
  lemma {:induction false} ChunkMeaning(raw: string)
    ensures DecodeChunk(raw) == if Unmarshal(raw).Some? then Unmarshal(raw).value else raw
  {
  }

  /** Output of a tool is shown as it is, but that on the error stream, if there is any, after a note. */
  lemma {:induction false} OutputMeaning(text: string, stderr: bool)
    ensures OutputText(text, stderr) == text <==> !stderr || text == ""
    ensures OutputText(text, stderr) != text ==> OutputText(text, stderr) == "[stderr] " + text
  {
    if stderr && text != "" { assert |STDERR_NOTE + text| > |text|; }
  }

  function AtIndex(m: Mapper, index: Option<int>): Option<nat> {
    if index.Some? && index.value in m.byIndex && m.byIndex[index.value] < |m.pool|
    then Some(m.byIndex[index.value])
    else None
  }

  function WithPlan(step: (Mapper, seq<Update>), plan: bool): (Mapper, seq<Update>) {
    if plan then (step.0, step.1 + [Plan]) else step
  }

  function Handle(m: Mapper, e: Event): (Mapper, seq<Update>) {
    match e
    case BlockStart(toolUse, id, name, index) => if toolUse then Report(m, id, name, index, None) else (m, [])
    case BlockDelta(index, delta) =>
      if delta.TextDelta? then (m, if delta.text != "" then [AgentText(delta.text)] else [])
      else if delta.InputDelta? && AtIndex(m, index).Some? then
        var k := AtIndex(m, index).value;
        (m.(pool := m.pool[k := m.pool[k].(input := m.pool[k].input + DecodeChunk(delta.raw))]), [])
      else (m, [])
    case BlockStop(index) =>
      var at := AtIndex(m, index);
      if at.Some? && !m.pool[at.value].emitted && TrimSpace(m.pool[at.value].input) != "" then
        var c := m.pool[at.value];
        (m.(pool := m.pool[at.value := c.(emitted := true)]), [RawInput(c.id, TrimSpace(c.input))])
      else (m, [])
    case ExecStart(id, name) => Report(m, id, name, None, Some(""))
    case ExecOutput(id, name, text, stderr) => Report(m, id, name, None, Some(OutputText(text, stderr)))
    case ExecResult(id, name, failed, plan) =>
      WithPlan(Report(m, id, name, None, Some("")), plan && !failed)
    case OtherEvent => (m, [])
  }

  type Stepper = (Mapper, Event) -> (Mapper, seq<Update>)

  /** One step after the other: the state at the end and everything sent on the way. */
  function RunState(step: Stepper, m: Mapper, events: seq<Event>): Mapper {
    if events == [] then m else step(RunState(step, m, events[..|events| - 1]), events[|events| - 1]).0
  }

  function RunLog(step: Stepper, m: Mapper, events: seq<Event>): seq<Update> {
    if events == [] then [] else
      RunLog(step, m, events[..|events| - 1]) + step(RunState(step, m, events[..|events| - 1]), events[|events| - 1]).1
  }

  /** The mapper after a stream of events, and all updates it sent. */
  function After(m: Mapper, events: seq<Event>): Mapper { RunState(Handle, m, events) }

  function Updates(m: Mapper, events: seq<Event>): seq<Update> { RunLog(Handle, m, events) }

  // ---- what the log of updates says ----

  function StartIds(log: seq<Update>): seq<string> {
    if log == [] then [] else
      var u := log[|log| - 1];
      if u.Start? then StartIds(log[..|log| - 1]) + [u.id] else StartIds(log[..|log| - 1])
  }

  function InputIds(log: seq<Update>): seq<string> {
    if log == [] then [] else
      var u := log[|log| - 1];
      if u.RawInput? then InputIds(log[..|log| - 1]) + [u.id] else InputIds(log[..|log| - 1])
  }

  /** An update of a call comes after a start of that call. */
  predicate Ordered(log: seq<Update>) {
    log == [] ||
      var u := log[|log| - 1];
      Ordered(log[..|log| - 1]) && (u.RawInput? || u.Progress? ==> u.id in StartIds(log[..|log| - 1]))
  }

  function Ids(pool: seq<Call>): (r: seq<string>)
    ensures |r| == |pool| && forall k :: 0 <= k < |r| ==> r[k] == pool[k].id
  {
    seq(|pool|, k requires 0 <= k < |pool| => pool[k].id)
  }

  function EmittedIds(pool: seq<Call>): seq<string> {
    if pool == [] then []
    else if pool[0].emitted then [pool[0].id] + EmittedIds(pool[1..]) else EmittedIds(pool[1..])
  }

  /** Between events: every call has been started exactly once, in the order the calls were made, and the raw inputs
      sent belong to the calls marked so. */
  ghost predicate Inv(m: Mapper, log: seq<Update>) {
    && Valid(m)
    && (forall k :: 0 <= k < |m.pool| ==> m.pool[k].announced)
    && StartIds(log) == Ids(m.pool)
    && multiset(InputIds(log)) == multiset(EmittedIds(m.pool))
    && Ordered(log)
  }

  lemma {:induction false} LogSnoc(log: seq<Update>, u: Update)
    ensures StartIds(log + [u]) == if u.Start? then StartIds(log) + [u.id] else StartIds(log)
    ensures InputIds(log + [u]) == if u.RawInput? then InputIds(log) + [u.id] else InputIds(log)
    ensures Ordered(log) && (u.RawInput? || u.Progress? ==> u.id in StartIds(log)) ==> Ordered(log + [u])
  {
    assert (log + [u])[..|log|] == log;
  }

  /** The texts sent to the client as the agent's own. */
  function AgentTexts(log: seq<Update>): seq<string> {
    if log == [] then [] else
      var u := log[|log| - 1];
      AgentTexts(log[..|log| - 1]) + if u.AgentText? then [u.text] else []
  }

  /** The text deltas of a stream that are not empty. */
  function TextsIn(events: seq<Event>): seq<string> {
    if events == [] then [] else
      var e := events[|events| - 1];
      var given := e.BlockDelta? && e.delta.TextDelta? && e.delta.text != "";
      TextsIn(events[..|events| - 1]) + if given then [e.delta.text] else []
  }

  lemma {:induction false} AgentTextsConcat(a: seq<Update>, b: seq<Update>)
    ensures AgentTexts(a + b) == AgentTexts(a) + AgentTexts(b)
  {
    if b == [] {
      assert a + b == a;
    } else {
      assert (a + b)[..|a + b| - 1] == a + b[..|b| - 1];
      AgentTextsConcat(a, b[..|b| - 1]);
    }
  }

  lemma {:induction false} OneText(m: Mapper, e: Event)
    ensures AgentTexts(Handle(m, e).1) == TextsIn([e])
  {
    assert [e][..0] == [] && TextsIn([]) == [];
    if e.BlockDelta? && e.delta.TextDelta? && e.delta.text != "" {
      assert Handle(m, e).1 == [AgentText(e.delta.text)] && [AgentText(e.delta.text)][..0] == [];
    } else {
      QuietEvent(m, e);
      NoTexts(Handle(m, e).1);
    }
  }

  predicate Quiet(log: seq<Update>) { forall i :: 0 <= i < |log| ==> !log[i].AgentText? }

  lemma {:induction false} QuietEvent(m: Mapper, e: Event)
    requires !(e.BlockDelta? && e.delta.TextDelta? && e.delta.text != "")
    ensures true == Quiet(Handle(m, e).1)
  {
    match e {
      case BlockStart(_, id, name, index) => QuietReport(m, id, name, index, None);
      case ExecStart(id, name) => QuietReport(m, id, name, None, Some(""));
      case ExecOutput(id, name, text, stderr) => QuietReport(m, id, name, None, Some(OutputText(text, stderr)));
      case ExecResult(id, name, _, _) => QuietReport(m, id, name, None, Some(""));
      case _ =>
    }
  }

  lemma {:induction false} QuietReport(m: Mapper, rawId: string, name: string, index: Option<int>,
                                       content: Option<string>)
    ensures Quiet(Report(m, rawId, name, index, content).1)
  {
  }

  lemma {:induction false} NoTexts(log: seq<Update>)
    requires Quiet(log)
    ensures AgentTexts(log) == []
  {
    if log != [] { NoTexts(log[..|log| - 1]); }
  }

  /** Exactly the text deltas reach the client as the agent's texts, in order. */
  lemma {:induction false} TextsComeThrough(events: seq<Event>)
    ensures AgentTexts(Updates(EMPTY_MAPPER, events)) == TextsIn(events)
  {
    if events != [] {
      var front, e := events[..|events| - 1], events[|events| - 1];
      TextsComeThrough(front);
      var m := After(EMPTY_MAPPER, front);
      AgentTextsConcat(Updates(EMPTY_MAPPER, front), Handle(m, e).1);
      OneText(m, e);
      assert [e][..0] == [];
    }
  }

  // ---- every event keeps it ----

  lemma {:induction false} EmittedSnoc(pool: seq<Call>, c: Call)
    requires !c.emitted
    ensures EmittedIds(pool + [c]) == EmittedIds(pool)
  {
    if pool != [] {
      assert (pool + [c])[1..] == pool[1..] + [c];
      EmittedSnoc(pool[1..], c);
    }
  }

  lemma {:induction false} EmittedUpdate(pool: seq<Call>, k: nat, c: Call)
    requires k < |pool| && c.id == pool[k].id && (pool[k].emitted ==> c.emitted)
    ensures c.emitted == pool[k].emitted ==> EmittedIds(pool[k := c]) == EmittedIds(pool)
    ensures c.emitted && !pool[k].emitted ==>
              multiset(EmittedIds(pool[k := c])) == multiset(EmittedIds(pool)) + multiset{c.id}
  {
    if k == 0 {
      assert pool[k := c][1..] == pool[1..];
    } else {
      assert pool[k := c][1..] == pool[1..][k - 1 := c];
      EmittedUpdate(pool[1..], k - 1, c);
    }
  }

  /** Changing a call without touching its id or its flags keeps everything. */
  lemma {:induction false} TouchKeeps(m: Mapper, log: seq<Update>, k: nat, c: Call)
    requires true == Inv(m, log) && k < |m.pool| && c.id == m.pool[k].id && c.announced
             && c.emitted == m.pool[k].emitted
    ensures true == Inv(m.(pool := m.pool[k := c]), log)
  {
    EmittedUpdate(m.pool, k, c);
    assert Ids(m.pool[k := c]) == Ids(m.pool);
  }

  lemma {:induction false} IndexKeeps(m: Mapper, log: seq<Update>, index: Option<int>, k: nat)
    requires true == Inv(m, log) && k < |m.pool|
    ensures true == Inv(SetIndex(m, index, k), log)
  {
  }

  lemma {:induction false} KnownKeeps(m: Mapper, log: seq<Update>, rawId: string, name: string, index: Option<int>)
    requires true == Inv(m, log) && Known(m, rawId, index)
    ensures var (m1, k) := Ensure(m, rawId, name, index);
            k < |m1.pool| && m1.pool[k].announced && true == Inv(m1, log) && Ids(m1.pool) == Ids(m.pool)
  {
    var k := m.byId[LookupId(m, rawId, index)];
    if TrimSpace(name) != "" {
      TouchKeeps(m, log, k, m.pool[k].(name := TrimSpace(name)));
      IndexKeeps(m.(pool := m.pool[k := m.pool[k].(name := TrimSpace(name))]), log, index, k);
    } else {
      IndexKeeps(m, log, index, k);
    }
  }

  /** A new call, announced: it is last in the pool and its start is the next update. */
  lemma {:induction false} NewKeeps(m: Mapper, log: seq<Update>, rawId: string, name: string, index: Option<int>)
    requires true == Inv(m, log) && !Known(m, rawId, index)
    ensures var (m1, k) := Ensure(m, rawId, name, index);
            k == |m.pool| < |m1.pool| && !m1.pool[k].announced && m1.pool[k].id == NewId(m, rawId)
            && var (m2, ups) := Announce(m1, k);
            ups == [Start(NewId(m, rawId), Title(name))] && Ids(m2.pool) == Ids(m.pool) + [NewId(m, rawId)]
            && true == Inv(m2, log + ups)
  {
    var (m1, k) := Ensure(m, rawId, name, index);
    var (m2, ups) := Announce(m1, k);
    var next := if TrimSpace(rawId) == "" then m.next + 1 else m.next;
    assert m2 == Added(m, next, NewId(m, rawId), Title(name), index, true);
    AddedKeeps(m, log, next, NewId(m, rawId), Title(name), index);
  }

  lemma {:induction false} AddedKeeps(m: Mapper, log: seq<Update>, next: nat, id: string, title: string,
                                      index: Option<int>)
    requires true == Inv(m, log)
    ensures var m2 := Added(m, next, id, title, index, true);
            Ids(m2.pool) == Ids(m.pool) + [id] && true == Inv(m2, log + [Start(id, title)])
  {
    var m2 := Added(m, next, id, title, index, true);
    EmittedSnoc(m.pool, m2.pool[|m.pool|]);
    LogSnoc(log, Start(id, title));
    AddedValid(m, next, id, title, index);
  }

  lemma {:induction false} AddedValid(m: Mapper, next: nat, id: string, title: string, index: Option<int>)
    requires true == Valid(m)
    ensures var m2 := Added(m, next, id, title, index, true); true == Valid(m2) && Ids(m2.pool) == Ids(m.pool) + [id]
  {
    var m2 := Added(m, next, id, title, index, true);
    assert Ids(m2.pool) == Ids(m.pool) + [id];
    assert (Ids(m.pool) + [id])[..|m.pool|] == Ids(m.pool);
  }

  lemma {:induction false} AnnouncedKeeps(m: Mapper, log: seq<Update>, rawId: string, name: string, index: Option<int>)
    requires true == Inv(m, log)
    ensures var (m1, k) := Ensure(m, rawId, name, index);
            k < |m1.pool|
            && var (m2, ups) := Announce(m1, k);
            && true == Inv(m2, log + ups)
            && |m2.pool| == |m1.pool| && m2.pool[k].id == m1.pool[k].id
            && Ids(m2.pool) == if Known(m, rawId, index) then Ids(m.pool) else Ids(m.pool) + [NewId(m, rawId)]
  {
    if Known(m, rawId, index) {
      KnownKeeps(m, log, rawId, name, index);
      assert log + [] == log;
    } else {
      NewKeeps(m, log, rawId, name, index);
    }
  }

  /** One step: the invariant holds afterwards and the pool has grown by the call the event makes, if any. */
  ghost predicate Kept(m: Mapper, log: seq<Update>, step: (Mapper, seq<Update>), makes: Option<string>) {
    Inv(step.0, log + step.1) && Ids(step.0.pool) == if makes.Some? then Ids(m.pool) + [makes.value] else Ids(m.pool)
  }

  lemma {:induction false} ReportKeeps(m: Mapper, log: seq<Update>, rawId: string, name: string, index: Option<int>,
                                       content: Option<string>)
    requires true == Inv(m, log)
    ensures true ==
              Kept(m, log, Report(m, rawId, name, index, content),
                   if Known(m, rawId, index) then None else Some(NewId(m, rawId)))
  {
    AnnouncedKeeps(m, log, rawId, name, index);
    var (m1, k) := Ensure(m, rawId, name, index);
    var (m2, ups) := Announce(m1, k);
    if content.Some? { MoreKeeps(m2, log, ups, Progress(m1.pool[k].id, content.value), k); }
  }

  /** One more update that brings no new call. */
  lemma {:induction false} MoreKeeps(m: Mapper, log: seq<Update>, ups: seq<Update>, u: Update, k: nat)
    requires true == Inv(m, log + ups) && (u.Plan? || (u.Progress? && k < |m.pool| && u.id == m.pool[k].id))
    ensures true == Inv(m, log + (ups + [u]))
  {
    var before, after := log + ups, log + (ups + [u]);
    if u.Plan? { PlainKeeps(m, before, u); } else { ProgressKeeps(m, before, k, u.content); }
    assert after == before + [u];
  }

  lemma {:induction false} ProgressKeeps(m: Mapper, log: seq<Update>, k: nat, content: string)
    requires true == Inv(m, log) && k < |m.pool|
    ensures true == Inv(m, log + [Progress(m.pool[k].id, content)])
  {
    LogSnoc(log, Progress(m.pool[k].id, content));
    assert Ids(m.pool)[k] == m.pool[k].id;
  }

  lemma {:induction false} PlainKeeps(m: Mapper, log: seq<Update>, u: Update)
    requires true == Inv(m, log) && (u.AgentText? || u.Plan?)
    ensures true == Inv(m, log + [u])
  {
    LogSnoc(log, u);
  }

  lemma {:induction false} InputKeeps(m: Mapper, log: seq<Update>, k: nat, raw: string)
    requires true == Inv(m, log) && k < |m.pool| && !m.pool[k].emitted
    ensures true == Inv(m.(pool := m.pool[k := m.pool[k].(emitted := true)]), log + [RawInput(m.pool[k].id, raw)])
  {
    var id := m.pool[k].id;
    assert Ids(m.pool)[k] == id;
    LogSnoc(log, RawInput(id, raw));
    EmittedUpdate(m.pool, k, m.pool[k].(emitted := true));
    EmittedValid(m, k);
  }

  lemma {:induction false} EmittedValid(m: Mapper, k: nat)
    requires Valid(m) && k < |m.pool|
    ensures var pool := m.pool[k := m.pool[k].(emitted := true)];
            true == Valid(m.(pool := pool)) && Ids(pool) == Ids(m.pool)
  {
    assert Ids(m.pool[k := m.pool[k].(emitted := true)]) == Ids(m.pool);
  }

  /** The id an event makes a call for, if it makes one. */
  function Makes(m: Mapper, e: Event): Option<string> {
    match e
    case BlockStart(toolUse, id, _, index) => if toolUse && !Known(m, id, index) then Some(NewId(m, id)) else None
    case ExecStart(id, _) => if Known(m, id, None) then None else Some(NewId(m, id))
    case ExecOutput(id, _, _, _) => if Known(m, id, None) then None else Some(NewId(m, id))
    case ExecResult(id, _, _, _) => if Known(m, id, None) then None else Some(NewId(m, id))
    case _ => None
  }

  lemma {:induction false} HandleKeeps(m: Mapper, log: seq<Update>, e: Event)
    requires true == Inv(m, log)
    ensures true == Kept(m, log, Handle(m, e), Makes(m, e))
  {
    match e
    case BlockStart(toolUse, id, name, index) => BlockKeeps(m, log, toolUse, id, name, index);
    case BlockDelta(index, delta) => DeltaKeeps(m, log, index, delta);
    case BlockStop(index) => StopKeeps(m, log, index);
    case ExecStart(id, name) => ReportKeeps(m, log, id, name, None, Some(""));
    case ExecOutput(id, name, text, stderr) => ReportKeeps(m, log, id, name, None, Some(OutputText(text, stderr)));
    case ExecResult(id, name, failed, plan) => ResultKeeps(m, log, id, name, plan && !failed);
    case OtherEvent => NothingKeeps(m, log);
  }

  lemma {:induction false} NothingKeeps(m: Mapper, log: seq<Update>)
    requires true == Inv(m, log)
    ensures true == Kept(m, log, (m, []), None)
  {
    assert log + [] == log;
  }

  lemma {:induction false} BlockKeeps(m: Mapper, log: seq<Update>, toolUse: bool, id: string, name: string,
                                      index: Option<int>)
    requires true == Inv(m, log)
    ensures var e := BlockStart(toolUse, id, name, index); true == Kept(m, log, Handle(m, e), Makes(m, e))
  {
    if toolUse { ReportKeeps(m, log, id, name, index, None); } else { NothingKeeps(m, log); }
  }

  lemma {:induction false} ResultKeeps(m: Mapper, log: seq<Update>, id: string, name: string, plan: bool)
    requires true == Inv(m, log)
    ensures true ==
              Kept(m, log, WithPlan(Report(m, id, name, None, Some("")), plan),
                   if Known(m, id, None) then None else Some(NewId(m, id)))
  {
    var step := Report(m, id, name, None, Some(""));
    ReportKeeps(m, log, id, name, None, Some(""));
    PlanKeeps(m, log, step, if Known(m, id, None) then None else Some(NewId(m, id)), plan);
  }

  lemma {:induction false} PlanKeeps(m: Mapper, log: seq<Update>, step: (Mapper, seq<Update>), makes: Option<string>,
                                     plan: bool)
    requires true == Kept(m, log, step, makes)
    ensures true == Kept(m, log, WithPlan(step, plan), makes)
  {
    MoreKeeps(step.0, log, step.1, Plan, 0);
  }

  lemma {:induction false} DeltaKeeps(m: Mapper, log: seq<Update>, index: Option<int>, delta: Delta)
    requires true == Inv(m, log)
    ensures true == Kept(m, log, Handle(m, BlockDelta(index, delta)), None)
  {
    assert log + [] == log;
    if delta.TextDelta? {
      PlainKeeps(m, log, AgentText(delta.text));
    } else if delta.InputDelta? && AtIndex(m, index).Some? {
      AppendKeeps(m, log, AtIndex(m, index).value, DecodeChunk(delta.raw));
    }
  }

  lemma {:induction false} AppendKeeps(m: Mapper, log: seq<Update>, k: nat, text: string)
    requires true == Inv(m, log) && k < |m.pool|
    ensures true == Kept(m, log, (m.(pool := m.pool[k := m.pool[k].(input := m.pool[k].input + text)]), []), None)
  {
    var c := m.pool[k].(input := m.pool[k].input + text);
    TouchKeeps(m, log, k, c);
    assert Ids(m.pool[k := c]) == Ids(m.pool) && log + [] == log;
  }

  lemma {:induction false} StopKeeps(m: Mapper, log: seq<Update>, index: Option<int>)
    requires true == Inv(m, log)
    ensures true == Kept(m, log, Handle(m, BlockStop(index)), None)
  {
    assert log + [] == log;
    if AtIndex(m, index).Some? && !m.pool[AtIndex(m, index).value].emitted {
      var k := AtIndex(m, index).value;
      InputKeeps(m, log, k, TrimSpace(m.pool[k].input));
      assert Ids(m.pool[k := m.pool[k].(emitted := true)]) == Ids(m.pool);
    }
  }

  lemma {:induction false} RunKeeps(events: seq<Event>)
    ensures true == Inv(After(EMPTY_MAPPER, events), Updates(EMPTY_MAPPER, events))
  {
    if events != [] {
      RunKeeps(events[..|events| - 1]);
      var front := events[..|events| - 1];
      HandleKeeps(After(EMPTY_MAPPER, front), Updates(EMPTY_MAPPER, front), events[|events| - 1]);
    }
  }

  // ---- the mapper object ----

  lemma {:induction false} ValidAt(m: Mapper, i: int)
    requires ValidIndex(m) && i in m.byIndex
    ensures m.byIndex[i] < |m.pool|
  {
  }

  class PromptStreamMapper {
    var nextToolCallID: nat
    var pool: seq<Call>
    var toolByID: map<string, nat>
    var toolByIndex: map<int, nat>
    ghost var log: seq<Update>

    ghost function State(): Mapper
      reads this
    {
      Mapper(nextToolCallID, pool, toolByID, toolByIndex)
    }

    constructor ()
      ensures State() == EMPTY_MAPPER && log == [] && true == Inv(State(), log)
    {
      nextToolCallID, pool, toolByID, toolByIndex := 0, [], map[], map[];
      log := [];
      new;
      RunKeeps([]);
    }

    method EnsureToolCall(rawId: string, name: string, index: Option<int>) returns (k: nat)
      requires Valid(State())
      modifies this`nextToolCallID, this`pool, this`toolByID, this`toolByIndex
      ensures Ensure(old(State()), rawId, name, index) == (State(), k)
    {
      var trimmed := TrimSpace(rawId);
      var lookup := trimmed;
      if index.Some? && index.value in toolByIndex { ValidAt(State(), index.value); }
      if lookup == "" && index.Some? && index.value in toolByIndex { lookup := pool[toolByIndex[index.value]].id; }
      if lookup != "" && lookup in toolByID {
        k := toolByID[lookup];
        if TrimSpace(name) != "" { pool := pool[k := pool[k].(name := TrimSpace(name))]; }
        if index.Some? { toolByIndex := toolByIndex[index.value := k]; }
        return;
      }
      var id := trimmed;
      if id == "" {
        nextToolCallID := nextToolCallID + 1;
        id := Synthetic(nextToolCallID);
      }
      var title := TrimSpace(name);
      if title == "" { title := DEFAULT_TITLE; }
      k := |pool|;
      pool := pool + [Call(id, title, false, "", false)];
      toolByID := toolByID[id := k];
      if index.Some? { toolByIndex := toolByIndex[index.value := k]; }
    }

    method StartToolCallUpdate(k: nat) returns (updates: seq<Update>)
      requires k < |pool|
      modifies this`pool
      ensures Announce(old(State()), k) == (State(), updates)
    {
      if pool[k].announced { return []; }
      pool := pool[k := pool[k].(announced := true)];
      updates := [Start(pool[k].id, pool[k].name)];
    }

    /** The three execution events and a tool block's start differ only in what they report. */
    method ReportOn(rawId: string, name: string, index: Option<int>, content: Option<string>)
      returns (updates: seq<Update>)
      requires Valid(State())
      modifies this`nextToolCallID, this`pool, this`toolByID, this`toolByIndex
      ensures Report(old(State()), rawId, name, index, content) == (State(), updates)
    {
      var k := EnsureToolCall(rawId, name, index);
      if k < |pool| {
        updates := StartToolCallUpdate(k);
        if content.Some? { updates := updates + [Progress(pool[k].id, content.value)]; }
      } else {
        updates := [];
      }
    }

    method HandleBlockDelta(index: Option<int>, delta: Delta) returns (updates: seq<Update>)
      requires Valid(State())
      modifies this`pool
      ensures Handle(old(State()), BlockDelta(index, delta)) == (State(), updates)
    {
      updates := [];
      if delta.TextDelta? {
        if delta.text != "" { updates := [AgentText(delta.text)]; }
      } else if delta.InputDelta? && index.Some? && index.value in toolByIndex {
        ValidAt(State(), index.value);
        var k := toolByIndex[index.value];
        pool := pool[k := pool[k].(input := pool[k].input + DecodeChunk(delta.raw))];
      }
    }

    method HandleBlockStop(index: Option<int>) returns (updates: seq<Update>)
      requires Valid(State())
      modifies this`pool
      ensures Handle(old(State()), BlockStop(index)) == (State(), updates)
    {
      updates := [];
      if index.None? || index.value !in toolByIndex { return; }
      ValidAt(State(), index.value);
      var k := toolByIndex[index.value];
      if pool[k].emitted { return; }
      var raw := TrimSpace(pool[k].input);
      if raw == "" { return; }
      pool := pool[k := pool[k].(emitted := true)];
      updates := [RawInput(pool[k].id, raw)];
    }

    method UpdatesForEvent(e: Event) returns (updates: seq<Update>)
      requires true == Inv(State(), log)
      modifies this
      ensures Handle(old(State()), e) == (State(), updates) && log == old(log) + updates
      ensures true == Inv(State(), log)
    {
      HandleKeeps(State(), log, e);
      updates := [];
      match e {
        case BlockStart(toolUse, id, name, index) => if toolUse { updates := ReportOn(id, name, index, None); }
        case BlockDelta(index, delta) => updates := HandleBlockDelta(index, delta);
        case BlockStop(index) => updates := HandleBlockStop(index);
        case ExecStart(id, name) => updates := ReportOn(id, name, None, Some(""));
        case ExecOutput(id, name, text, stderr) => updates := ReportOn(id, name, None, Some(OutputText(text, stderr)));
        case ExecResult(id, name, failed, plan) =>
          updates := ReportOn(id, name, None, Some(""));
          if plan && !failed { updates := updates + [Plan]; }
        case OtherEvent =>
      }
      log := log + updates;
    }
  }
}
