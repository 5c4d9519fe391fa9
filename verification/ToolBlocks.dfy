/** A tool call cut into events by the progress middleware and put together again by the prompt mapper
    (pkg/api/progress.go, pkg/acp/prompt_updates.go). Byte strings hold one character per byte. */
module ToolBlocks {
  import opened Base
  import opened Utf8Json
  import opened PromptStream

  // ---- a call cut into events and put together again ----

  const CHUNK: nat := 10

  /** One tool call of a model message; raw is its marshalled input. */
  datatype ToolUse = ToolUse(id: string, name: string, raw: string)

  function Chunks(s: string, size: int): seq<string> {
    if size <= 0 || s == [] then [] else if |s| <= size then [s] else [s[..size]] + Chunks(s[size..], size)
  }

  method ChunkString(s: string, size: int) returns (out: seq<string>)
    ensures out == Chunks(s, size)
  {
    out := [];
    if size <= 0 || s == "" { return; }
    var start := 0;
    while start < |s|
      invariant 0 <= start
      invariant out + Chunks(s[Least(start, |s|)..], size) == Chunks(s, size)
    {
      var end := start + size;
      if end > |s| { end := |s|; }
      ChunksStep(s, start, end, size);
      assert out + ([s[start..end]] + Chunks(s[end..], size)) == (out + [s[start..end]]) + Chunks(s[end..], size);
      out := out + [s[start..end]];
      start := start + size;
    }
  }

  function Least(a: nat, b: nat): nat { if a < b then a else b }

  lemma {:induction false} ChunksStep(s: string, start: nat, end: nat, size: int)
    requires size > 0 && start < |s| && end == Least(start + size, |s|)
    ensures Chunks(s[start..], size) == [s[start..end]] + Chunks(s[end..], size)
  {
    var t := s[start..];
    if |t| > size { assert t[..size] == s[start..end] && t[size..] == s[end..]; }
    else { assert t == s[start..end] && s[end..] == []; }
  }

  function Joined(chunks: seq<string>): string {
    if chunks == [] then "" else chunks[0] + Joined(chunks[1..])
  }

  /** The text that comes out of the chunks: each is marshalled and unmarshalled on its own. */
  function Repaired(chunks: seq<string>): string {
    if chunks == [] then "" else Sanitized(chunks[0]) + Repaired(chunks[1..])
  }

  lemma {:induction false} ChunksJoin(s: string, size: int)
    requires size > 0
    ensures Joined(Chunks(s, size)) == s
  {
    if |s| > size {
      ChunksJoin(s[size..], size);
      assert ([s[..size]] + Chunks(s[size..], size))[1..] == Chunks(s[size..], size);
      assert s[..size] + s[size..] == s;
    } else if s != [] {
      assert [s][1..] == [];
    }
  }

  predicate AllValid(chunks: seq<string>) { chunks == [] || (ValidUtf8(chunks[0]) && AllValid(chunks[1..])) }

  lemma {:induction false} RepairedWhen(chunks: seq<string>)
    ensures |Repaired(chunks)| >= |Joined(chunks)|
    ensures if AllValid(chunks) then Repaired(chunks) == Joined(chunks) else |Repaired(chunks)| > |Joined(chunks)|
  {
    if chunks != [] {
      SanitizedGrows(chunks[0]);
      RepairedWhen(chunks[1..]);
    }
  }

  /** No chunk begins in the middle of a character. */
  predicate Aligned(s: string) { forall i :: 0 <= i < |s| && i % CHUNK == 0 ==> !Cont(s[i]) }

  lemma {:induction false} AlignedExactlyWhen(s: string)
    requires ValidUtf8(s) || (s != [] && Cont(s[0]))
    ensures AllValid(Chunks(s, CHUNK)) <==> Aligned(s)
  {
    var chunks := Chunks(s, CHUNK);
    if s != [] && Cont(s[0]) {
      assert chunks[0][0] == s[0] && RuneLen(chunks[0]) == 0;
    } else if |s| > CHUNK {
      var rest := s[CHUNK..];
      assert chunks[1..] == Chunks(rest, CHUNK);
      AlignedTail(s);
      if !Cont(s[CHUNK]) { SplitValid(s, CHUNK); }
      AlignedExactlyWhen(rest);
    } else if s != [] {
      assert chunks[1..] == [];
    }
  }

  lemma {:induction false} AlignedTail(s: string)
    requires |s| > CHUNK && !Cont(s[0])
    ensures Aligned(s) <==> Aligned(s[CHUNK..])
  {
    var rest := s[CHUNK..];
    forall i | 0 <= i < |rest| && i % CHUNK == 0 && Aligned(s)
      ensures !Cont(rest[i])
    { assert (i + CHUNK) % CHUNK == 0 && rest[i] == s[i + CHUNK]; }
    forall i | 0 <= i < |s| && i % CHUNK == 0 && Aligned(rest) ensures !Cont(s[i]) {
      if i > 0 { assert (i - CHUNK) % CHUNK == 0 && s[i] == rest[i - CHUNK]; }
    }
  }

  function Deltas(idx: int, chunks: seq<string>): seq<Event> {
    seq(|chunks|, i requires 0 <= i < |chunks| => BlockDelta(Some(idx), InputDelta(Quote(chunks[i]))))
  }

  /** toolBlock: the events of one call. */
  function ToolBlock(idx: int, c: ToolUse): seq<Event> {
    [BlockStart(true, c.id, c.name, Some(idx))] + Deltas(idx, Chunks(c.raw, CHUNK)) + [BlockStop(Some(idx))]
  }

  method EmitToolBlock(idx: int, c: ToolUse) returns (events: seq<Event>)
    ensures events == ToolBlock(idx, c)
  {
    events := [BlockStart(true, c.id, c.name, Some(idx))];
    var chunks := ChunkString(c.raw, CHUNK);
    for i := 0 to |chunks|
      invariant events == [BlockStart(true, c.id, c.name, Some(idx))] + Deltas(idx, chunks)[..i]
    {
      TakeNext(Deltas(idx, chunks), i);
      events := events + [BlockDelta(Some(idx), InputDelta(Quote(chunks[i])))];
    }
    TakeAll(Deltas(idx, chunks));
    events := events + [BlockStop(Some(idx))];
  }

  lemma {:induction false} TakeNext<T>(s: seq<T>, i: nat)
    requires i < |s|
    ensures s[..i + 1] == s[..i] + [s[i]]
  {
  }

  lemma {:induction false} TakeAll<T>(s: seq<T>)
    ensures s[..|s|] == s
  {
  }

  lemma {:induction false} RunConcat(step: Stepper, m: Mapper, a: seq<Event>, b: seq<Event>)
    ensures RunState(step, m, a + b) == RunState(step, RunState(step, m, a), b)
    ensures RunLog(step, m, a + b) == RunLog(step, m, a) + RunLog(step, RunState(step, m, a), b)
  {
    if b == [] {
      assert a + b == a;
    } else {
      var n := |b| - 1;
      RunConcat(step, m, a, b[..n]);
      assert (a + b)[..|a + b| - 1] == a + b[..n];
    }
  }

  lemma {:induction false} ChunkRoundTrip(chunk: string)
    ensures DecodeChunk(Quote(chunk)) == Sanitized(chunk)
  {
    QuoteRoundTrip(chunk);
  }

  function WithInput(m: Mapper, k: nat, text: string): Mapper
    requires k < |m.pool|
  {
    m.(pool := m.pool[k := m.pool[k].(input := m.pool[k].input + text)])
  }

  /** The event makes the step function append the text to call k, in any mapper where block idx is that call. */
  ghost predicate Appends(step: Stepper, k: nat, idx: int, e: Event, text: string) {
    forall m: Mapper {:trigger step(m, e)} ::
      idx in m.byIndex && m.byIndex[idx] == k < |m.pool| ==> step(m, e) == (WithInput(m, k, text), [])
  }

  lemma {:induction false} AppendRun(step: Stepper, m: Mapper, k: nat, idx: int, events: seq<Event>, texts: seq<string>)
    requires |events| == |texts| && forall i :: 0 <= i < |events| ==> Appends(step, k, idx, events[i], texts[i])
    requires idx in m.byIndex && m.byIndex[idx] == k < |m.pool|
    ensures RunState(step, m, events) == WithInput(m, k, Joined(texts))
    ensures RunLog(step, m, events) == []
  {
    if events == [] {
      WithNothing(m, k);
    } else {
      var n := |events| - 1;
      AppendRun(step, m, k, idx, events[..n], texts[..n]);
      assert Appends(step, k, idx, events[n], texts[n]);
      AppendLast(step, m, k, idx, events[..n], events[n], Joined(texts[..n]), texts[n]);
      JoinedSnoc(texts[..n], texts[n]);
      assert texts[..n] + [texts[n]] == texts && events[..n] + [events[n]] == events;
    }
  }

  lemma {:induction false} AppendLast(step: Stepper, m: Mapper, k: nat, idx: int, front: seq<Event>, e: Event,
                                      before: string, x: string)
    requires Appends(step, k, idx, e, x) && idx in m.byIndex && m.byIndex[idx] == k < |m.pool|
    requires RunState(step, m, front) == WithInput(m, k, before) && RunLog(step, m, front) == []
    ensures RunState(step, m, front + [e]) == WithInput(m, k, before + x) && RunLog(step, m, front + [e]) == []
  {
    assert (front + [e])[..|front|] == front;
    WithInputTwice(m, k, before, x);
  }

  lemma {:induction false} JoinedSnoc(texts: seq<string>, x: string)
    ensures Joined(texts + [x]) == Joined(texts) + x
  {
    if texts == [] {
      assert [x][1..] == [] && texts + [x] == [x];
    } else {
      assert (texts + [x])[1..] == texts[1..] + [x];
      JoinedSnoc(texts[1..], x);
    }
  }

  function SanitizedAll(chunks: seq<string>): (r: seq<string>)
    ensures |r| == |chunks| && forall i :: 0 <= i < |r| ==> r[i] == Sanitized(chunks[i])
  {
    seq(|chunks|, i requires 0 <= i < |chunks| => Sanitized(chunks[i]))
  }

  lemma {:induction false} RepairedIsJoined(chunks: seq<string>)
    ensures Repaired(chunks) == Joined(SanitizedAll(chunks))
  {
    if chunks != [] {
      RepairedIsJoined(chunks[1..]);
      assert SanitizedAll(chunks)[1..] == SanitizedAll(chunks[1..]);
    }
  }

  lemma {:induction false} DeltasRun(m: Mapper, k: nat, idx: int, chunks: seq<string>)
    requires idx in m.byIndex && m.byIndex[idx] == k < |m.pool|
    ensures RunState(Handle, m, Deltas(idx, chunks)) == WithInput(m, k, Repaired(chunks))
    ensures RunLog(Handle, m, Deltas(idx, chunks)) == []
  {
    RepairedIsJoined(chunks);
    var events, texts := Deltas(idx, chunks), SanitizedAll(chunks);
    forall i | 0 <= i < |events|
      ensures Appends(Handle, k, idx, events[i], texts[i])
    { DeltaAppends(k, idx, chunks[i]); }
    AppendRun(Handle, m, k, idx, events, texts);
  }

  lemma {:induction false} DeltaAppends(k: nat, idx: int, chunk: string)
    ensures Appends(Handle, k, idx, BlockDelta(Some(idx), InputDelta(Quote(chunk))), Sanitized(chunk))
  {
    forall m: Mapper | idx in m.byIndex && m.byIndex[idx] == k < |m.pool|
      ensures Handle(m, BlockDelta(Some(idx), InputDelta(Quote(chunk)))) == (WithInput(m, k, Sanitized(chunk)), [])
    {
      DeltaRun(m, k, idx, chunk);
    }
  }

  lemma {:induction false} WithNothing(m: Mapper, k: nat)
    requires k < |m.pool|
    ensures WithInput(m, k, "") == m
  {
    assert m.pool[k].input + "" == m.pool[k].input;
    assert m.pool[k := m.pool[k]] == m.pool;
  }

  lemma {:induction false} DeltaRun(m: Mapper, k: nat, idx: int, chunk: string)
    requires idx in m.byIndex && m.byIndex[idx] == k < |m.pool|
    ensures Handle(m, BlockDelta(Some(idx), InputDelta(Quote(chunk)))) == (WithInput(m, k, Sanitized(chunk)), [])
  {
    ChunkRoundTrip(chunk);
  }

  lemma {:induction false} WithInputTwice(m: Mapper, k: nat, a: string, b: string)
    requires k < |m.pool|
    ensures WithInput(WithInput(m, k, a), k, b) == WithInput(m, k, a + b)
  {
    var c := m.pool[k];
    assert (c.input + a) + b == c.input + (a + b);
    assert m.pool[k := c.(input := c.input + a)][k := c.(input := c.input + (a + b))] ==
             m.pool[k := c.(input := c.input + (a + b))];
  }

  /** The mapper once the events of one new call have gone through. */
  function BlockDone(m: Mapper, idx: int, id: string, title: string, text: string, next: nat): Mapper {
    Mapper(next, m.pool + [Call(id, title, true, text, TrimSpace(text) != "")], m.byId[id := |m.pool|],
           m.byIndex[idx := |m.pool|])
  }

  function InputUpdate(id: string, raw: string): seq<Update> { if raw != "" then [RawInput(id, raw)] else [] }

  lemma {:induction false} StartRun(m: Mapper, idx: int, c: ToolUse, next: nat)
    requires !Known(m, c.id, Some(idx)) && next == if TrimSpace(c.id) == "" then m.next + 1 else m.next
    ensures Handle(m, BlockStart(true, c.id, c.name, Some(idx)))
         == (Added(m, next, NewId(m, c.id), Title(c.name), Some(idx), true), [Start(NewId(m, c.id), Title(c.name))])
  {
    var (m1, k) := Ensure(m, c.id, c.name, Some(idx));
    assert m1.pool[k := m1.pool[k].(announced := true)] ==
             m.pool + [Call(NewId(m, c.id), Title(c.name), true, "", false)];
  }

  lemma {:induction false} StopRun(m: Mapper, idx: int, id: string, title: string, text: string, next: nat)
    requires m == m.(next := next)
    ensures Handle(Mapper(next, m.pool + [Call(id, title, true, text, false)], m.byId[id := |m.pool|],
                          m.byIndex[idx := |m.pool|]),
                   BlockStop(Some(idx)))
         == (BlockDone(m, idx, id, title, text, next), InputUpdate(id, TrimSpace(text)))
  {
    var before := m.pool + [Call(id, title, true, text, false)];
    assert before[|m.pool| := Call(id, title, true, text, true)] == m.pool + [Call(id, title, true, text, true)];
  }

  /** The events of a call the mapper does not know yield its start and the raw input put together from its chunks. */
  lemma {:induction false} BlockRun(m: Mapper, idx: int, c: ToolUse)
    requires !Known(m, c.id, Some(idx))
    ensures Updates(m, ToolBlock(idx, c))
         == [Start(NewId(m, c.id), Title(c.name))]
            + InputUpdate(NewId(m, c.id), TrimSpace(Repaired(Chunks(c.raw, CHUNK))))
    ensures After(m, ToolBlock(idx, c))
         == BlockDone(m, idx, NewId(m, c.id), Title(c.name), Repaired(Chunks(c.raw, CHUNK)),
                      if TrimSpace(c.id) == "" then m.next + 1 else m.next)
  {
    var id, title, text := NewId(m, c.id), Title(c.name), Repaired(Chunks(c.raw, CHUNK));
    var next := if TrimSpace(c.id) == "" then m.next + 1 else m.next;
    var s, d, t := BlockStart(true, c.id, c.name, Some(idx)), Deltas(idx, Chunks(c.raw, CHUNK)), BlockStop(Some(idx));
    var m1 := Added(m, next, id, title, Some(idx), true);
    StartRun(m, idx, c, next);
    DeltasRun(m1, |m.pool|, idx, Chunks(c.raw, CHUNK));
    var m2 := WithInput(m1, |m.pool|, text);
    assert m2.pool == m.pool + [Call(id, title, true, text, false)] by { assert "" + text == text; }
    StopRun(m.(next := next), idx, id, title, text, next);
    ThreeParts(Handle, m, s, d, t, m1, m2, BlockDone(m, idx, id, title, text, next),
               [Start(id, title)], InputUpdate(id, TrimSpace(text)));
  }

  lemma {:induction false} OneEvent(step: Stepper, m: Mapper, e: Event)
    ensures RunState(step, m, [e]) == step(m, e).0 && RunLog(step, m, [e]) == step(m, e).1
  {
    assert [e][..0] == [];
    assert [] + step(m, e).1 == step(m, e).1;
  }

  /** An event, a silent stretch, and another event. */
  lemma {:induction false} ThreeParts(step: Stepper, m: Mapper, s: Event, d: seq<Event>, t: Event, m1: Mapper,
                                      m2: Mapper, m3: Mapper, u: seq<Update>, v: seq<Update>)
    requires step(m, s) == (m1, u) && RunState(step, m1, d) == m2 && RunLog(step, m1, d) == [] && step(m2, t) == (m3, v)
    ensures RunState(step, m, [s] + d + [t]) == m3 && RunLog(step, m, [s] + d + [t]) == u + v
  {
    OneEvent(step, m, s);
    OneEvent(step, m2, t);
    RunConcat(step, m, [s], d);
    assert RunState(step, m, [s] + d) == m2 && RunLog(step, m, [s] + d) == u + [] == u;
    RunConcat(step, m, [s] + d, [t]);
  }

  predicate NoOuterSpace(s: string) { s != [] && !IsSpace(s[0]) && !IsSpace(s[|s| - 1]) }

  /** r begins and ends like s, or with a replacement character. */
  predicate EndsLike(r: string, s: string) {
    && r != [] && s != [] && (r[0] == s[0] || r[0] == REPLACEMENT[0])
    && (r[|r| - 1] == s[|s| - 1] || r[|r| - 1] == REPLACEMENT[2])
  }

  lemma {:induction false} EndsLikeConcat(a: string, b: string, c: string, d: string)
    requires EndsLike(a, b) && EndsLike(c, d)
    ensures true == EndsLike(a + c, b + d)
  {
  }

  lemma {:induction false} RepairedEnds(chunks: seq<string>)
    requires chunks != [] && forall i :: 0 <= i < |chunks| ==> chunks[i] != []
    ensures true == EndsLike(Repaired(chunks), Joined(chunks))
  {
    SanitizedEnds(chunks[0]);
    if |chunks| == 1 {
      assert chunks[1..] == [] && Sanitized(chunks[0]) + "" == Sanitized(chunks[0]) && chunks[0] + "" == chunks[0];
    } else {
      RepairedEnds(chunks[1..]);
      EndsLikeConcat(Sanitized(chunks[0]), chunks[0], Repaired(chunks[1..]), Joined(chunks[1..]));
    }
  }

  lemma {:induction false} ChunksNonEmpty(s: string, size: int)
    ensures forall i :: 0 <= i < |Chunks(s, size)| ==> Chunks(s, size)[i] != []
  {
    if size > 0 && |s| > size { ChunksNonEmpty(s[size..], size); }
  }

  /** What the mapper sends as raw input is the text that was marshalled exactly when no byte at a multiple of the
      chunk size continues a character. */
  lemma {:induction false} ReassembledExactlyWhen(raw: string)
    requires ValidUtf8(raw) && NoOuterSpace(raw)
    ensures TrimSpace(Repaired(Chunks(raw, CHUNK))) == raw <==> Aligned(raw)
    ensures TrimSpace(Repaired(Chunks(raw, CHUNK))) != ""
  {
    var chunks := Chunks(raw, CHUNK);
    ChunksJoin(raw, CHUNK);
    ChunksNonEmpty(raw, CHUNK);
    RepairedEnds(chunks);
    TrimSpaceFixed(Repaired(chunks));
    RepairedWhen(chunks);
    AlignedExactlyWhen(raw);
  }

  const E_ACUTE: string := ['\U{C3}', '\U{A9}']
  const OPENING: string := ['\U{7B}', '\"', 'a', '\"', ':', '\"', 'x', 'x', 'x']
  const CLOSING: string := ['\"', '\U{7D}']

  /** For instance: an object whose tenth and eleventh bytes are one character. */
  lemma {:induction false} SplitCharacterExample()
    ensures var raw := OPENING + (E_ACUTE + CLOSING);
            ValidUtf8(raw) && NoOuterSpace(raw) && TrimSpace(Repaired(Chunks(raw, CHUNK))) != raw
  {
    var raw := OPENING + (E_ACUTE + CLOSING);
    AsciiIsValid(CLOSING);
    assert (E_ACUTE + CLOSING)[2..] == CLOSING && RuneLen(E_ACUTE + CLOSING) == 2;
    AsciiThen(OPENING, E_ACUTE + CLOSING);
    assert raw[10] == E_ACUTE[1] && Cont(raw[10]) && 10 % CHUNK == 0;
    assert |raw| == 13 && raw[0] == OPENING[0] && raw[12] == CLOSING[1] && NoOuterSpace(raw);
    ReassembledExactlyWhen(raw);
  }

  lemma {:induction false} AsciiThen(a: string, b: string)
    requires ValidUtf8(b) && forall i :: 0 <= i < |a| ==> a[i] < '\U{80}'
    ensures ValidUtf8(a + b)
  {
    if a == [] {
      assert a + b == b;
    } else {
      assert (a + b)[1..] == a[1..] + b;
      AsciiThen(a[1..], b);
    }
  }

  /** ASCII text always comes through. */
  lemma {:induction false} AsciiReassembled(raw: string)
    requires NoOuterSpace(raw) && forall i :: 0 <= i < |raw| ==> raw[i] < '\U{80}'
    ensures TrimSpace(Repaired(Chunks(raw, CHUNK))) == raw
  {
    AsciiIsValid(raw);
    ReassembledExactlyWhen(raw);
  }

  // ---- all calls of a model message ----

  function ToolBlocks(idx: int, calls: seq<ToolUse>): seq<Event> {
    if calls == [] then [] else ToolBlocks(idx, calls[..|calls| - 1]) + ToolBlock(idx + |calls| - 1, calls[|calls| - 1])
  }

  /** The loop of AfterModel over the calls: each gets the next block index. */
  method EmitToolBlocks(idx: int, calls: seq<ToolUse>) returns (events: seq<Event>)
    ensures events == ToolBlocks(idx, calls)
  {
    events := [];
    var at := idx;
    for i := 0 to |calls|
      invariant at == idx + i && events == ToolBlocks(idx, calls[..i])
    {
      var block := EmitToolBlock(at, calls[i]);
      assert calls[..i + 1][..i] == calls[..i];
      events := events + block;
      at := at + 1;
    }
    assert calls[..|calls|] == calls;
  }

  function CallIds(calls: seq<ToolUse>): set<string> {
    if calls == [] then {} else CallIds(calls[..|calls| - 1]) + {TrimSpace(calls[|calls| - 1].id)}
  }

  /** Each call has an id of its own that is not known before it, and an input that survives chunking. */
  predicate FreshCalls(known: set<string>, calls: seq<ToolUse>) {
    calls == [] ||
      (var front, c := calls[..|calls| - 1], calls[|calls| - 1];
       FreshCalls(known, front) && Fresh(known + CallIds(front), c))
  }

  predicate Fresh(known: set<string>, c: ToolUse) {
    TrimSpace(c.id) != "" && TrimSpace(c.id) !in known && ValidUtf8(c.raw) && NoOuterSpace(c.raw) && Aligned(c.raw)
  }

  function Sent(c: ToolUse): seq<Update> { [Start(TrimSpace(c.id), Title(c.name)), RawInput(TrimSpace(c.id), c.raw)] }

  function SentAll(calls: seq<ToolUse>): seq<Update> {
    if calls == [] then [] else SentAll(calls[..|calls| - 1]) + Sent(calls[|calls| - 1])
  }

  lemma {:induction false} CallRoundTrip(m: Mapper, idx: int, c: ToolUse)
    requires Fresh(m.byId.Keys, c)
    ensures Updates(m, ToolBlock(idx, c)) == Sent(c)
    ensures After(m, ToolBlock(idx, c)).byId.Keys == m.byId.Keys + {TrimSpace(c.id)}
  {
    BlockRun(m, idx, c);
    ReassembledExactlyWhen(c.raw);
  }

  /** A step function that handles the events of any one fresh call as they should be. */
  ghost predicate Relays(step: Stepper) {
    forall m: Mapper, idx: int, c: ToolUse :: Fresh(m.byId.Keys, c) ==>
      RunLog(step, m, ToolBlock(idx, c)) == Sent(c)
      && RunState(step, m, ToolBlock(idx, c)).byId.Keys == m.byId.Keys + {TrimSpace(c.id)}
  }

  lemma {:induction false} MessageRelayed(step: Stepper, m: Mapper, idx: int, calls: seq<ToolUse>)
    requires Relays(step) && FreshCalls(m.byId.Keys, calls)
    ensures RunLog(step, m, ToolBlocks(idx, calls)) == SentAll(calls)
    ensures RunState(step, m, ToolBlocks(idx, calls)).byId.Keys == m.byId.Keys + CallIds(calls)
  {
    if calls != [] {
      var front, c := calls[..|calls| - 1], calls[|calls| - 1];
      MessageRelayed(step, m, idx, front);
      RunConcat(step, m, ToolBlocks(idx, front), ToolBlock(idx + |calls| - 1, c));
      assert Fresh(RunState(step, m, ToolBlocks(idx, front)).byId.Keys, c);
    }
  }

  /** From the middleware through the mapper: every call arrives as its start and its own input, in order. */
  lemma {:induction false} MessageRoundTrip(m: Mapper, idx: int, calls: seq<ToolUse>)
    requires FreshCalls(m.byId.Keys, calls)
    ensures Updates(m, ToolBlocks(idx, calls)) == SentAll(calls)
  {
    forall m: Mapper, k: int, c: ToolUse | Fresh(m.byId.Keys, c)
      ensures RunLog(Handle, m, ToolBlock(k, c)) == Sent(c)
              && RunState(Handle, m, ToolBlock(k, c)).byId.Keys == m.byId.Keys + {TrimSpace(c.id)}
    {
      CallRoundTrip(m, k, c);
    }
    MessageRelayed(Handle, m, idx, calls);
  }
}
