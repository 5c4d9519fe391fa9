/** The two passes that shorten old tool results in place: microcompact and collapse
    (pkg/api/microcompact.go, pkg/api/context_collapse.go). A result is a string of bytes, one character per byte. */
module ToolOutputs {
  import opened Base
  import opened Messages

  // ---- positions of the messages a pass looks at ----

  function Positions(ms: seq<Message>, p: Message -> bool): seq<nat> {
    if ms == [] then [] else
      Positions(ms[..|ms| - 1], p) + if p(ms[|ms| - 1]) then [|ms| - 1] else []
  }

  /** How many messages satisfy p. */
  function Hits(ms: seq<Message>, p: Message -> bool): nat {
    if ms == [] then 0 else (if p(ms[0]) then 1 else 0) + Hits(ms[1..], p)
  }

  /** Position i holds one of the relevant messages and at least n relevant ones follow it. */
  predicate Old(ms: seq<Message>, p: Message -> bool, n: nat, i: nat) {
    i < |ms| && p(ms[i]) && Hits(ms[i + 1..], p) >= n
  }

  lemma {:induction false} HitsConcat(a: seq<Message>, b: seq<Message>, p: Message -> bool)
    ensures Hits(a + b, p) == Hits(a, p) + Hits(b, p)
  {
    if a == [] { assert a + b == b; } else {
      assert (a + b)[1..] == a[1..] + b;
      HitsConcat(a[1..], b, p);
    }
  }

  lemma {:induction false} HitsSplit(ms: seq<Message>, p: Message -> bool, i: nat)
    requires i < |ms|
    ensures Hits(ms, p) == Hits(ms[..i], p) + (if p(ms[i]) then 1 else 0) + Hits(ms[i + 1..], p)
  {
    assert ms == ms[..i] + ms[i..] && ms[i..][1..] == ms[i + 1..];
    HitsConcat(ms[..i], ms[i..], p);
  }

  lemma {:induction false} PositionsCount(ms: seq<Message>, p: Message -> bool)
    ensures |Positions(ms, p)| == Hits(ms, p) && forall k :: k in Positions(ms, p) ==> k < |ms|
  {
    if ms != [] {
      var f := ms[..|ms| - 1];
      PositionsCount(f, p);
      assert ms == f + [ms[|ms| - 1]] && [ms[|ms| - 1]][1..] == [];
      HitsConcat(f, [ms[|ms| - 1]], p);
    }
  }

  /** The list of positions is in order: i stands at index "relevant messages before i". */
  lemma {:induction false} PositionIndex(ms: seq<Message>, p: Message -> bool, k: nat)
    requires k < |Positions(ms, p)|
    ensures var i := Positions(ms, p)[k]; i < |ms| && p(ms[i]) && k == Hits(ms[..i], p)
    decreases |ms|
  {
    var f := ms[..|ms| - 1];
    PositionsCount(f, p);
    if k < |Positions(f, p)| {
      PositionIndex(f, p, k);
      var i := Positions(f, p)[k];
      assert f[..i] == ms[..i];
    }
  }

  lemma {:induction false} PositionFound(ms: seq<Message>, p: Message -> bool, i: nat)
    requires i < |ms| && p(ms[i])
    ensures Hits(ms[..i], p) < |Positions(ms, p)| && Positions(ms, p)[Hits(ms[..i], p)] == i
    decreases |ms|
  {
    var f := ms[..|ms| - 1];
    PositionsCount(f, p);
    if i < |f| {
      PositionFound(f, p, i);
      assert f[..i] == ms[..i];
    } else {
      assert ms[..i] == f;
    }
  }

  /** Dropping the last n entries of the position list leaves exactly the old positions. */
  lemma {:induction false} AllButLast(ms: seq<Message>, p: Message -> bool, n: nat, i: nat)
    requires n <= |Positions(ms, p)|
    ensures i in Positions(ms, p)[..|Positions(ms, p)| - n] <==> Old(ms, p, n, i)
  {
    var q := Positions(ms, p);
    PositionsCount(ms, p);
    if i in q[..|q| - n] {
      var k :| 0 <= k < |q| - n && q[k] == i;
      PositionIndex(ms, p, k);
      HitsSplit(ms, p, i);
    }
    if Old(ms, p, n, i) {
      HitsSplit(ms, p, i);
      PositionFound(ms, p, i);
      assert q[..|q| - n][Hits(ms[..i], p)] == i;
    }
  }

  /** Below n relevant messages nothing is old. */
  lemma {:induction false} FewAreNotOld(ms: seq<Message>, p: Message -> bool, n: nat, i: nat)
    requires Hits(ms, p) <= n
    ensures !Old(ms, p, n, i)
  {
    if i < |ms| { HitsSplit(ms, p, i); }
  }

  method CollectPositions(ms: seq<Message>, p: Message -> bool) returns (indices: seq<nat>)
    ensures indices == Positions(ms, p)
  {
    indices := [];
    for i := 0 to |ms|
      invariant indices == Positions(ms[..i], p)
    {
      assert ms[..i + 1][..i] == ms[..i];
      if p(ms[i]) { indices := indices + [i]; }
    }
    assert ms[..|ms|] == ms;
  }

  // ---- a pass: rewrite the old relevant messages, leave the rest ----

  function Rewrite(ms: seq<Message>, p: Message -> bool, n: nat, f: Message -> Message): (r: seq<Message>)
    ensures |r| == |ms|
    ensures forall i :: 0 <= i < |ms| ==> r[i] == if Old(ms, p, n, i) then f(ms[i]) else ms[i]
  {
    seq(|ms|, i requires 0 <= i < |ms| => if Old(ms, p, n, i) then f(ms[i]) else ms[i])
  }

  /** Two messages that differ at most in the results of their calls. */
  predicate SameButResults(a: Message, b: Message) {
    && a.role == b.role && a.content == b.content && a.extra == b.extra && |a.toolCalls| == |b.toolCalls|
    && forall k :: 0 <= k < |a.toolCalls| ==>
         a.toolCalls[k].(result := "") == b.toolCalls[k].(result := "")
  }

  /** The loop both passes share. */
  method Apply(ms: seq<Message>, p: Message -> bool, n: nat, f: Message -> Message, indices: seq<nat>)
    returns (r: seq<Message>, changed: bool)
    requires n <= |Positions(ms, p)| && indices == Positions(ms, p)[..|Positions(ms, p)| - n]
    ensures r == Rewrite(ms, p, n, f) && (changed <==> r != ms)
  {
    var clearSet := set k | k in indices;
    r, changed := [], false;
    for i := 0 to |ms|
      invariant |r| == i
      invariant forall k :: 0 <= k < i ==> r[k] == if Old(ms, p, n, k) then f(ms[k]) else ms[k]
      invariant changed <==> r != ms[..i]
    {
      AllButLast(ms, p, n, i);
      assert ms[..i + 1] == ms[..i] + [ms[i]];
      if i in clearSet {
        var m := f(ms[i]);
        if m != ms[i] { changed := true; }
        r := r + [m];
      } else {
        r := r + [ms[i]];
      }
    }
    assert ms[..|ms|] == ms;
    assert r == Rewrite(ms, p, n, f);
  }

  // ---- microcompact ----

  const DEFAULT_CLEARED := "[Old tool result content cleared]"
  const DEFAULT_MICRO_PRESERVE: nat := 3

  function OrDefault(n: int, enabled: bool, standard: int): int {
    if n > 0 then n else if enabled then standard else 0
  }

  datatype MicroConfig = MicroConfig(enabled: bool, preserveLastN: int, cleared: string)

  function MicroDefaults(c: MicroConfig): (r: MicroConfig)
    ensures r.preserveLastN >= 0 && r.cleared != ""
  {
    c.(preserveLastN := OrDefault(c.preserveLastN, c.enabled, DEFAULT_MICRO_PRESERVE),
       cleared := if c.cleared == "" then DEFAULT_CLEARED else c.cleared)
  }

  predicate CompactableTool(name: string) {
    ToLower(name) in {"file_read", "bash", "grep", "glob", "web_search", "web_fetch", "file_edit", "file_write"}
  }

  /** collectCompactableToolIndices's test; it knows the default marker only. */
  predicate Compactable(m: Message) {
    m.role == TOOL && exists k :: 0 <= k < |m.toolCalls| && Clearable(m.toolCalls[k], DEFAULT_CLEARED)
  }

  predicate Clearable(c: ToolCall, marker: string) { CompactableTool(c.name) && c.result != "" && c.result != marker }

  function ClearCall(c: ToolCall, marker: string): ToolCall {
    if Clearable(c, marker) then c.(result := marker) else c
  }

  function ClearMessage(m: Message, marker: string): Message {
    m.(toolCalls := seq(|m.toolCalls|, k requires 0 <= k < |m.toolCalls| => ClearCall(m.toolCalls[k], marker)))
  }

  function Microcompacted(ms: seq<Message>, n: nat, marker: string): seq<Message> {
    Rewrite(ms, Compactable, n, m => ClearMessage(m, marker))
  }

  /** A result is cleared exactly when it belongs to one of eight tools, is neither empty nor the marker, and stands in
      a tool message that counts and that at least n messages that count follow. */
  lemma {:induction false} ClearedExactly(ms: seq<Message>, n: nat, marker: string, i: nat, k: nat)
    requires i < |ms| && k < |ms[i].toolCalls|
    ensures var c := ms[i].toolCalls[k];
            Microcompacted(ms, n, marker)[i].toolCalls[k] ==
              if && ms[i].role == TOOL && Compactable(ms[i]) && Hits(ms[i + 1..], Compactable) >= n
                 && c.result != "" && c.result != marker
                 && ToLower(c.name) in {"file_read", "file_write", "file_edit", "bash", "grep", "glob", "web_search",
                                        "web_fetch"}
              then ToolCall(c.id, c.name, c.arguments, marker) else c
  {
  }

  lemma {:induction false} ClearTwice(m: Message, marker: string)
    ensures ClearMessage(ClearMessage(m, marker), marker) == ClearMessage(m, marker)
    ensures SameButResults(m, ClearMessage(m, marker))
  {
  }

  /** After clearing, a message counts as compactable again exactly when the marker is not the default one. */
  lemma {:induction false} ClearedCompactable(m: Message, marker: string)
    requires Compactable(m) && marker != ""
    ensures Compactable(ClearMessage(m, marker)) <==> marker != DEFAULT_CLEARED
  {
    var k :| 0 <= k < |m.toolCalls| && Clearable(m.toolCalls[k], DEFAULT_CLEARED);
    var c := ClearMessage(m, marker);
    assert c.toolCalls[k].name == m.toolCalls[k].name;
    assert c.toolCalls[k].result == marker;
  }

  lemma {:induction false} HitsPointwise(a: seq<Message>, b: seq<Message>, p: Message -> bool)
    requires |a| == |b| && forall i :: 0 <= i < |a| ==> p(b[i]) ==> p(a[i])
    ensures Hits(b, p) <= Hits(a, p)
    ensures (forall i :: 0 <= i < |a| ==> p(a[i]) ==> p(b[i])) ==> Hits(b, p) == Hits(a, p)
  {
    if a != [] { HitsPointwise(a[1..], b[1..], p); }
  }

  /** If every relevant message of b is among the n most recent relevant ones of a, b has at most n. */
  lemma {:induction false} RecentOnly(a: seq<Message>, b: seq<Message>, p: Message -> bool, n: nat)
    requires |a| == |b|
    requires forall i :: 0 <= i < |a| ==> p(b[i]) ==> p(a[i]) && !Old(a, p, n, i)
    ensures Hits(b, p) <= n
  {
    if b != [] {
      if p(b[0]) {
        assert !Old(a, p, n, 0);
        HitsPointwise(a[1..], b[1..], p);
      } else {
        forall i | 0 <= i < |a[1..]| && p(b[1..][i]) ensures p(a[1..][i]) && !Old(a[1..], p, n, i) {
          assert b[i + 1] == b[1..][i] && !Old(a, p, n, i + 1) && a[i + 1..][1..] == a[1..][i + 1..];
        }
        RecentOnly(a[1..], b[1..], p, n);
      }
    }
  }

  /** A second pass does nothing, whatever the marker. */
  lemma {:induction false} MicrocompactIdempotent(ms: seq<Message>, n: nat, marker: string)
    requires marker != ""
    ensures Microcompacted(Microcompacted(ms, n, marker), n, marker) == Microcompacted(ms, n, marker)
  {
    var once := Microcompacted(ms, n, marker);
    forall i | 0 <= i < |ms| ensures Old(once, Compactable, n, i) ==> ClearMessage(once[i], marker) == once[i] {
      if marker == DEFAULT_CLEARED {
        NothingOldLeft(ms, n, i);
      } else {
        SameOld(ms, n, marker, i);
        ClearTwice(ms[i], marker);
      }
    }
  }

  lemma {:induction false} NothingOldLeft(ms: seq<Message>, n: nat, i: nat)
    requires i < |ms|
    ensures !Old(Microcompacted(ms, n, DEFAULT_CLEARED), Compactable, n, i)
  {
    var once := Microcompacted(ms, n, DEFAULT_CLEARED);
    forall k | 0 <= k < |ms| && Compactable(once[k]) ensures Compactable(ms[k]) && !Old(ms, Compactable, n, k) {
      if Old(ms, Compactable, n, k) { ClearedCompactable(ms[k], DEFAULT_CLEARED); }
    }
    RecentOnly(ms, once, Compactable, n);
    FewAreNotOld(once, Compactable, n, i);
  }

  lemma {:induction false} SameOld(ms: seq<Message>, n: nat, marker: string, i: nat)
    requires i < |ms| && marker != "" && marker != DEFAULT_CLEARED
    ensures Old(Microcompacted(ms, n, marker), Compactable, n, i) <==> Old(ms, Compactable, n, i)
  {
    var once := Microcompacted(ms, n, marker);
    forall k | 0 <= k < |ms| ensures Compactable(once[k]) <==> Compactable(ms[k]) {
      if Old(ms, Compactable, n, k) { ClearedCompactable(ms[k], marker); }
    }
    HitsPointwise(ms[i + 1..], once[i + 1..], Compactable);
  }

  // ---- collapse ----

  const ELLIPSIS := "\U{E2}\U{80}\U{A6}"
  const TAIL_LINES: nat := 5
  const DEFAULT_MAX_OUTPUT: nat := 10000
  const DEFAULT_COLLAPSE_PRESERVE: nat := 2
  const DEFAULT_SUMMARY_MAX: nat := 200

  datatype CollapseConfig = CollapseConfig(enabled: bool, maxToolOutputLen: int, preserveLastN: int, summaryMaxLen: int)

  function CollapseDefaults(c: CollapseConfig): (r: CollapseConfig)
    ensures r.maxToolOutputLen > 0 && r.preserveLastN >= 0 && r.summaryMaxLen > 0
  {
    c.(maxToolOutputLen := if c.maxToolOutputLen <= 0 then DEFAULT_MAX_OUTPUT else c.maxToolOutputLen,
       preserveLastN := OrDefault(c.preserveLastN, c.enabled, DEFAULT_COLLAPSE_PRESERVE),
       summaryMaxLen := if c.summaryMaxLen <= 0 then DEFAULT_SUMMARY_MAX else c.summaryMaxLen)
  }

  function Lines(s: string): (r: seq<string>)
    ensures r != []
  {
    if s == [] then [""]
    else if s[|s| - 1] == '\n' then Lines(s[..|s| - 1]) + [""]
    else var r := Lines(s[..|s| - 1]); r[..|r| - 1] + [r[|r| - 1] + [s[|s| - 1]]]
  }

  function NonBlank(lines: seq<string>): seq<string> {
    if lines == [] then [] else
      var last := TrimSpace(lines[|lines| - 1]);
      NonBlank(lines[..|lines| - 1]) + if last != "" then [last] else []
  }

  function Join(lines: seq<string>): string {
    if lines == [] then ""
    else if |lines| == 1 then lines[0]
    else Join(lines[..|lines| - 1]) + "\n" + lines[|lines| - 1]
  }

  function LastN(lines: seq<string>, n: nat): (r: seq<string>)
    ensures |r| <= n && (|lines| >= n ==> |r| == n) && (|lines| < n ==> |r| == |lines|)
    ensures r == lines[|lines| - |r|..]
  {
    if |lines| <= n then lines else lines[|lines| - n..]
  }

  /** Splitting at line ends and joining again gives the text back... */
  lemma {:induction false} LinesJoin(s: string)
    ensures Join(Lines(s)) == s
  {
    if s != [] {
      var f, c := s[..|s| - 1], s[|s| - 1];
      LinesJoin(f);
      LinesSnoc(Lines(f), Lines(s), f, c);
      assert s == f + [c];
    }
  }

  lemma {:induction false} LinesSnoc(r: seq<string>, t: seq<string>, f: string, c: char)
    requires r != [] && Join(r) == f
    requires t == if c == '\n' then r + [""] else r[..|r| - 1] + [r[|r| - 1] + [c]]
    ensures Join(t) == f + [c]
  {
    if c == '\n' {
      JoinSnoc(r, "");
    } else {
      JoinExtend(r[..|r| - 1], r[|r| - 1], [c]);
      assert r[..|r| - 1] + [r[|r| - 1]] == r;
    }
  }

  /** ...and no line has a line end in it. */
  lemma {:induction false} LinesWhole(s: string, i: nat)
    requires i < |Lines(s)|
    ensures '\n' !in Lines(s)[i]
    decreases |s|
  {
    if s != [] {
      var f := s[..|s| - 1];
      if i < |Lines(f)| { LinesWhole(f, i); }
    }
  }

  lemma {:induction false} JoinSnoc(lines: seq<string>, x: string)
    ensures Join(lines + [x]) == if lines == [] then x else Join(lines) + "\n" + x
  {
    if lines == [] { assert lines + [x] == [x]; } else { assert (lines + [x])[..|lines|] == lines; }
  }

  lemma {:induction false} JoinExtend(front: seq<string>, x: string, y: string)
    ensures Join(front + [x + y]) == Join(front + [x]) + y
  {
    JoinSnoc(front, x + y);
    JoinSnoc(front, x);
    if front != [] { assert Join(front) + "\n" + (x + y) == (Join(front) + "\n" + x) + y; }
  }

  /** The lines that say something, trimmed, in order: a blank last line adds nothing, any other itself. */
  lemma {:induction false} NonBlankMeaning(lines: seq<string>)
    ensures forall x :: x in NonBlank(lines) <==> x != "" && exists i :: 0 <= i < |lines| && TrimSpace(lines[i]) == x
    ensures (forall i :: 0 <= i < |lines| ==> TrimSpace(lines[i]) == lines[i] != "") ==> NonBlank(lines) == lines
  {
    if lines != [] {
      var f := lines[..|lines| - 1];
      NonBlankMeaning(f);
      assert forall i :: 0 <= i < |f| ==> f[i] == lines[i];
      assert lines == f + [lines[|lines| - 1]];
    }
  }

  /** How a summary begins: this part depends on the tool only. */
  function SummaryPrefix(toolName: string): string {
    var name := ToLower(toolName);
    if Contains(name, "read") then "[read: "
    else if Contains(name, "bash") then "[bash output: "
    else if Contains(name, "grep") then "[grep: "
    else if Contains(name, "glob") then "[glob: "
    else if Contains(name, "write") || Contains(name, "edit") then "[" + toolName + ": "
    else "[Tool output collapsed: "
  }

  function SummaryRest(toolName: string, output: string): string {
    var lines, name := Lines(output), ToLower(toolName);
    if Contains(name, "read") then Decimal(|lines|) + " lines collapsed]"
    else if Contains(name, "bash") then
      Decimal(|lines|) + " lines total]\n" + ELLIPSIS + "\n" + Join(LastN(NonBlank(lines), TAIL_LINES))
    else if Contains(name, "grep") then Decimal(|NonBlank(lines)|) + " matches collapsed]"
    else if Contains(name, "glob") then Decimal(|NonBlank(lines)|) + " files collapsed]"
    else if Contains(name, "write") || Contains(name, "edit") then Decimal(|lines|) + " lines collapsed]"
    else Decimal(|lines|) + " lines, " + Decimal(|output|) + " chars]"
  }

  /** The tool-specific text before truncation. */
  function SummaryText(toolName: string, output: string): string
  {
    SummaryPrefix(toolName) + SummaryRest(toolName, output)
  }

  /** The text begins with head and ends in tail. */
  predicate Framed(text: string, head: string, tail: string) {
    head <= text && |tail| <= |text| && text[|text| - |tail|..] == tail
  }

  /** Of a bash output the number of lines is told, and the last five that say something are shown at the end. */
  lemma {:induction false} BashShowsTail(toolName: string, output: string, said: seq<string>, tail: seq<string>)
    requires Contains(ToLower(toolName), "bash") && !Contains(ToLower(toolName), "read")
    requires said == NonBlank(Lines(output)) && tail == if |said| <= 5 then said else said[|said| - 5..]
    ensures true == Framed(SummaryText(toolName, output), "[bash output: " + Decimal(|Lines(output)|), Join(tail))
  {
    assert LastN(said, TAIL_LINES) == tail;
    FramedBy("[bash output: ", Decimal(|Lines(output)|), " lines total]\n", ELLIPSIS, "\n", Join(tail));
  }

  lemma {:induction false} FramedBy(a: string, b: string, c: string, d: string, e: string, f: string)
    ensures true == Framed(a + (b + c + d + e + f), a + b, f)
  {
    assert a + (b + c + d + e + f) == (a + b) + (c + d + e + f);
    assert a + (b + c + d + e + f) == (a + (b + c + d + e)) + f;
  }

  /** Text that begins with a and then b begins with the two together. */
  lemma {:induction false} Begins(a: string, b: string, c: string)
    ensures a + b <= a + (b + c)
  {
    assert a + (b + c) == (a + b) + c;
  }

  /** Of a search the number of lines that say something is told... */
  lemma {:induction false} SearchCountsMatches(toolName: string, output: string)
    requires var name := ToLower(toolName);
             (Contains(name, "grep") || Contains(name, "glob")) && !Contains(name, "read") && !Contains(name, "bash")
    ensures var n := Decimal(|NonBlank(Lines(output))|);
            SummaryText(toolName, output) ==
              if Contains(ToLower(toolName), "grep") then "[grep: " + (n + " matches collapsed]")
              else "[glob: " + (n + " files collapsed]")
  {
  }

  /** ...of anything else that of all lines, and of a tool the summary does not know that of the bytes too. */
  lemma {:induction false} OthersCountLines(toolName: string, output: string)
    requires var name := ToLower(toolName);
             Contains(name, "read") || !(Contains(name, "bash") || Contains(name, "grep") || Contains(name, "glob"))
    ensures var name, n := ToLower(toolName), Decimal(|Lines(output)|);
            if Contains(name, "read") then SummaryText(toolName, output) == "[read: " + (n + " lines collapsed]")
            else if Contains(name, "write") || Contains(name, "edit") then
              SummaryText(toolName, output) == "[" + toolName + ": " + (n + " lines collapsed]")
            else "[Tool output collapsed: " + (n + " lines, " + Decimal(|output|)) <= SummaryText(toolName, output)
  {
    var n := Decimal(|Lines(output)|);
    Begins("[Tool output collapsed: ", n + " lines, " + Decimal(|output|), " chars]");
  }

  function Truncated(text: string, maxLen: nat): (r: string)
    requires maxLen > 0
    ensures |r| <= maxLen + 2 && (|text| <= maxLen ==> r == text)
  {
    if |text| > maxLen then text[..maxLen - 1] + ELLIPSIS else text
  }

  function CollapseCall(c: ToolCall, maxOut: nat, maxLen: nat): ToolCall
    requires maxLen > 0
  {
    if |c.result| <= maxOut then c else c.(result := Truncated(SummaryText(c.name, c.result), maxLen))
  }

  function CollapseMessage(m: Message, maxOut: nat, maxLen: nat): Message
    requires maxLen > 0
  {
    m.(toolCalls := seq(|m.toolCalls|,
                        k requires 0 <= k < |m.toolCalls| => CollapseCall(m.toolCalls[k], maxOut, maxLen)))
  }

  predicate IsToolResult(m: Message) { m.role == TOOL && m.toolCalls != [] }

  function Collapsed(ms: seq<Message>, n: nat, maxOut: nat, maxLen: nat): seq<Message>
    requires maxLen > 0
  {
    Rewrite(ms, IsToolResult, n, m => CollapseMessage(m, maxOut, maxLen))
  }

  /** collapseToolOutputs with a configuration that went through withDefaults. */
  method CollapseToolOutputs(ms: seq<Message>, raw: CollapseConfig) returns (r: seq<Message>)
    ensures var cfg := CollapseDefaults(raw);
            r == if cfg.enabled then Collapsed(ms, cfg.preserveLastN, cfg.maxToolOutputLen, cfg.summaryMaxLen) else ms
  {
    var cfg := CollapseDefaults(raw);
    if !cfg.enabled || |ms| == 0 { return ms; }
    var indices := CollectPositions(ms, IsToolResult);
    PositionsCount(ms, IsToolResult);
    var n: nat, maxOut: nat, maxLen: nat := cfg.preserveLastN, cfg.maxToolOutputLen, cfg.summaryMaxLen;
    if |indices| <= n {
      forall i | 0 <= i < |ms| ensures !Old(ms, IsToolResult, n, i) { FewAreNotOld(ms, IsToolResult, n, i); }
      assert Collapsed(ms, n, maxOut, maxLen) == ms;
      return ms;
    }
    var f := (m: Message) => CollapseMessage(m, maxOut, maxLen);
    var result, changed := Apply(ms, IsToolResult, n, f, indices[..|indices| - n]);
    r := if changed then result else ms;
    assert result == Collapsed(ms, n, maxOut, maxLen);
  }

  /** Collapsing only ever touches results, and only of old tool messages. */
  lemma {:induction false} CollapseKeeps(ms: seq<Message>, n: nat, maxOut: nat, maxLen: nat, i: nat)
    requires maxLen > 0 && i < |ms|
    ensures SameButResults(ms[i], Collapsed(ms, n, maxOut, maxLen)[i])
    ensures ms[i].role != TOOL || Hits(ms[i + 1..], IsToolResult) < n ==> Collapsed(ms, n, maxOut, maxLen)[i] == ms[i]
    ensures forall k :: 0 <= k < |ms[i].toolCalls| ==>
              var a, b := ms[i].toolCalls[k].result, Collapsed(ms, n, maxOut, maxLen)[i].toolCalls[k].result;
              b == a || (|a| > maxOut && |b| <= maxLen + 2)
  {
  }

  // ---- when a second collapse does nothing ----

  predicate SettlesAtOnce(c: ToolCall, maxOut: nat, maxLen: nat)
    requires maxLen > 0
  {
    CollapseCall(CollapseCall(c, maxOut, maxLen), maxOut, maxLen) == CollapseCall(c, maxOut, maxLen)
  }

  /** Either a summary always fits the output limit, or it is cut off before anything but the tool name shows. */
  predicate Settling(maxOut: nat, maxLen: nat) { maxLen <= 8 || maxLen + 2 <= maxOut }

  lemma {:induction false} ContainsIsNoLonger(s: string, sub: string)
    requires Contains(s, sub)
    ensures |sub| <= |s|
  {
    if !(sub <= s) { ContainsIsNoLonger(s[1..], sub); }
  }

  lemma {:induction false} PrefixLength(toolName: string)
    ensures |SummaryPrefix(toolName)| >= 7
  {
    var name := ToLower(toolName);
    if Contains(name, "write") { ContainsIsNoLonger(name, "write"); }
    if Contains(name, "edit") { ContainsIsNoLonger(name, "edit"); }
  }

  lemma {:induction false} RestLength(toolName: string, output: string)
    ensures |SummaryRest(toolName, output)| >= 2
  {
  }

  /** A summary is longer than eight bytes and its first seven depend on the tool only. */
  lemma {:induction false} SummaryBegins(toolName: string, output: string)
    ensures |SummaryText(toolName, output)| >= 9 && |SummaryPrefix(toolName)| >= 7
    ensures SummaryText(toolName, output)[..7] == SummaryPrefix(toolName)[..7]
  {
    PrefixLength(toolName);
    RestLength(toolName, output);
  }

  lemma {:induction false} SameCut(a: string, b: string, maxLen: nat)
    requires 0 < maxLen <= 8 && |a| >= 9 && |b| >= 9 && a[..7] == b[..7]
    ensures Truncated(a, maxLen) == Truncated(b, maxLen)
  {
    assert a[..maxLen - 1] == a[..7][..maxLen - 1] && b[..maxLen - 1] == b[..7][..maxLen - 1];
  }

  lemma {:induction false} SettlesWhen(c: ToolCall, maxOut: nat, maxLen: nat)
    requires maxLen > 0 && Settling(maxOut, maxLen)
    ensures SettlesAtOnce(c, maxOut, maxLen)
  {
    if maxLen + 2 > maxOut && |c.result| > maxOut {
      var once := CollapseCall(c, maxOut, maxLen).result;
      SummaryBegins(c.name, c.result);
      SummaryBegins(c.name, once);
      SameCut(SummaryText(c.name, c.result), SummaryText(c.name, once), maxLen);
    }
  }

  function Fill(c: char, n: nat): (r: string)
    ensures |r| == n && forall i :: 0 <= i < n ==> r[i] == c
  {
    seq(n, _ => c)
  }

  function Breaks(s: string): (n: nat)
    ensures n <= |s|
  {
    if s == [] then 0 else Breaks(s[..|s| - 1]) + if s[|s| - 1] == '\n' then 1 else 0
  }

  lemma {:induction false} LinesCount(s: string)
    ensures |Lines(s)| == Breaks(s) + 1
  {
    if s != [] { LinesCount(s[..|s| - 1]); }
  }

  lemma {:induction false} BreaksConcat(a: string, b: string)
    ensures Breaks(a + b) == Breaks(a) + Breaks(b)
  {
    if b == [] {
      assert a + b == a;
    } else {
      assert (a + b)[..|a + b| - 1] == a + b[..|b| - 1];
      BreaksConcat(a, b[..|b| - 1]);
    }
  }

  lemma {:induction false} BreaksInCut(s: string, n: nat, mark: string)
    requires n <= |s| && '\n' !in mark
    ensures Breaks(s[..n] + mark) <= Breaks(s)
  {
    var a, b := s[..n], s[n..];
    BreaksConcat(a, b);
    assert s == a + b;
    BreaksConcat(a, mark);
    NoBreaks(mark);
  }

  lemma {:induction false} NoBreaks(s: string)
    requires forall i :: 0 <= i < |s| ==> s[i] != '\n'
    ensures Breaks(s) == 0
  {
    if s != [] { NoBreaks(s[..|s| - 1]); }
  }

  lemma {:induction false} AllBreaks(n: nat)
    ensures Breaks(Fill('\n', n)) == n
  {
    if n > 0 {
      assert Fill('\n', n)[..n - 1] == Fill('\n', n - 1);
      AllBreaks(n - 1);
    }
  }

  /** Without a number of messages to spare, three are when clearing is on and two when collapsing is; none when off. */
  lemma {:induction false} SparedByDefault(m: MicroConfig, c: CollapseConfig)
    ensures m.preserveLastN <= 0 ==> MicroDefaults(m).preserveLastN == if m.enabled then 3 else 0
    ensures c.preserveLastN <= 0 ==> CollapseDefaults(c).preserveLastN == if c.enabled then 2 else 0
    ensures m.preserveLastN > 0 ==> MicroDefaults(m).preserveLastN == m.preserveLastN
    ensures c.preserveLastN > 0 ==> CollapseDefaults(c).preserveLastN == c.preserveLastN
  {
  }

  // The two families of over-long outputs: nine lines of which the first, or the last, is long.

  function LongRead(maxOut: nat): string { Fill('x', maxOut) + Fill('\n', 8) }

  lemma {:induction false} LongReadLines(maxOut: nat)
    ensures |Lines(LongRead(maxOut))| == 9 && |LongRead(maxOut)| > maxOut
  {
    LinesCount(LongRead(maxOut));
    BreaksConcat(Fill('x', maxOut), Fill('\n', 8));
    NoBreaks(Fill('x', maxOut));
    AllBreaks(8);
  }

  function ReadText(n: nat): string { "[read: " + (Decimal(n) + " lines collapsed]") }

  lemma {:induction false} ReadSummary(output: string)
    ensures SummaryText("read", output) == ReadText(|Lines(output)|)
  {
    assert ToLower("read") == "read";
  }

  lemma {:induction false} ReadTextShape(n: nat)
    requires n < 10
    ensures |ReadText(n)| == 25 && Breaks(ReadText(n)) == 0 && ReadText(n)[7] == ('0' as int + n) as char
  {
    assert |" lines collapsed]"| == 17 && '\n' !in "[read: " && '\n' !in " lines collapsed]";
    NoBreaks(ReadText(n));
  }

  /** A cut text has no more lines than the text. */
  lemma {:induction false} TruncatedLines(text: string, maxLen: nat)
    requires maxLen > 0
    ensures |Lines(Truncated(text, maxLen))| <= Breaks(text) + 1
  {
    LinesCount(Truncated(text, maxLen));
    if |text| > maxLen {
      assert forall k :: 0 <= k < |ELLIPSIS| ==> ELLIPSIS[k] != '\n';
      BreaksInCut(text, maxLen - 1, ELLIPSIS);
    }
  }

  /** A summary that is over-long again and differs from its own summary somewhere. */
  lemma {:induction false} DiffersAt(c: ToolCall, maxOut: nat, maxLen: nat, once: string, twice: string, i: nat)
    requires maxLen > 0 && |c.result| > maxOut && |once| > maxOut
    requires once == Truncated(SummaryText(c.name, c.result), maxLen)
             && twice == Truncated(SummaryText(c.name, once), maxLen)
    requires i < |once| && i < |twice| && once[i] != twice[i]
    ensures !SettlesAtOnce(c, maxOut, maxLen)
  {
  }

  /** A byte before the cut stays where it is. */
  lemma {:induction false} CutAt(text: string, maxLen: nat, i: nat)
    requires i + 1 < maxLen && i < |text|
    ensures |Truncated(text, maxLen)| > i && Truncated(text, maxLen)[i] == text[i]
    ensures |text| > maxLen ==> |Truncated(text, maxLen)| == maxLen + 2
  {
  }

  lemma {:induction false} ReadOnce(maxOut: nat)
    ensures var text := SummaryText("read", LongRead(maxOut)); |text| == 25 && text[7] == '9' && Breaks(text) == 0
  {
    LongReadLines(maxOut);
    ReadSummary(LongRead(maxOut));
    ReadTextShape(9);
  }

  lemma {:induction false} ReadAgain(once: string)
    requires |Lines(once)| == 1
    ensures var text := SummaryText("read", once); |text| == 25 && text[7] == '1'
  {
    ReadSummary(once);
    ReadTextShape(1);
  }

  lemma {:induction false} ReadDoesNotSettle(maxOut: nat, maxLen: nat)
    requires 9 <= maxLen < 25 && maxOut < maxLen + 2
    ensures !SettlesAtOnce(ToolCall("1", "read", "", LongRead(maxOut)), maxOut, maxLen)
  {
    var c := ToolCall("1", "read", "", LongRead(maxOut));
    LongReadLines(maxOut);
    ReadOnce(maxOut);
    OverLongAgain(c, maxOut, maxLen, 7);
    ReadAgain(Truncated(SummaryText(c.name, c.result), maxLen));
  }

  /** What is left to show of a call: its cut summary has few lines, and the summary of that differs at i. */
  lemma {:induction false} OverLongAgain(c: ToolCall, maxOut: nat, maxLen: nat, i: nat)
    requires i + 1 < maxLen && maxOut < maxLen + 2 && |c.result| > maxOut
    requires i < |SummaryText(c.name, c.result)| && |SummaryText(c.name, c.result)| > maxLen
    ensures var once := Truncated(SummaryText(c.name, c.result), maxLen);
            && |Lines(once)| <= Breaks(SummaryText(c.name, c.result)) + 1
            && (i < |SummaryText(c.name, once)| && SummaryText(c.name, once)[i] != SummaryText(c.name, c.result)[i] ==>
                  !SettlesAtOnce(c, maxOut, maxLen))
  {
    var text := SummaryText(c.name, c.result);
    var once := Truncated(text, maxLen);
    var again := SummaryText(c.name, once);
    CutAt(text, maxLen, i);
    TruncatedLines(text, maxLen);
    if i < |again| && again[i] != text[i] {
      CutAt(again, maxLen, i);
      DiffersAt(c, maxOut, maxLen, once, Truncated(again, maxLen), i);
    }
  }

  function LongBash(k: nat): string { Fill('\n', 8) + Fill('x', k) }

  function Empties(n: nat): seq<string> { seq(n, _ => "") }

  lemma {:induction false} EmptyLines(n: nat)
    ensures Lines(Fill('\n', n)) == Empties(n + 1)
  {
    if n > 0 {
      assert Fill('\n', n)[..n - 1] == Fill('\n', n - 1);
      EmptyLines(n - 1);
    }
  }

  lemma {:induction false} LongBashLines(k: nat)
    ensures Lines(LongBash(k)) == Empties(8) + [Fill('x', k)]
  {
    if k == 0 {
      EmptyLines(8);
      assert LongBash(0) == Fill('\n', 8);
    } else {
      LongBashLines(k - 1);
      assert LongBash(k)[..|LongBash(k)| - 1] == LongBash(k - 1);
      assert Fill('x', k - 1) + ['x'] == Fill('x', k);
    }
  }

  lemma {:induction false} NothingInEmpties(n: nat)
    ensures NonBlank(Empties(n)) == []
  {
    if n > 0 {
      assert Empties(n)[..n - 1] == Empties(n - 1);
      NothingInEmpties(n - 1);
    }
  }

  lemma {:induction false} LongBashTail(k: nat)
    requires k > 0
    ensures Join(LastN(NonBlank(Lines(LongBash(k))), TAIL_LINES)) == Fill('x', k)
  {
    LongBashLines(k);
    var lines := Lines(LongBash(k));
    assert lines[..8] == Empties(8);
    NothingInEmpties(8);
    TrimSpaceFixed(Fill('x', k));
    assert NonBlank(lines) == [Fill('x', k)];
  }

  function BashText(n: nat, tail: string): string {
    "[bash output: " + (Decimal(n) + " lines total]\n" + ELLIPSIS + "\n" + tail)
  }

  lemma {:induction false} BashSummary(output: string)
    ensures SummaryText("bash", output) == BashText(|Lines(output)|, Join(LastN(NonBlank(Lines(output)), TAIL_LINES)))
  {
    assert ToLower("bash") == "bash";
    AbsentFirst("bash", "read");
  }

  lemma {:induction false} AbsentFirst(s: string, sub: string)
    requires sub != [] && sub[0] !in s
    ensures !Contains(s, sub)
  {
    if s != [] { AbsentFirst(s[1..], sub); }
  }

  lemma {:induction false} BashTextShape(n: nat, tail: string)
    requires n < 10
    ensures |BashText(n, tail)| >= 16 + |tail| && BashText(n, tail)[14] == ('0' as int + n) as char
    ensures Breaks(BashText(n, tail)) == 2 + Breaks(tail)
  {
    var a, b := "[bash output: " + Decimal(n), " lines total]\n" + ELLIPSIS + "\n";
    assert |"[bash output: "| == 14 && '\n' !in "[bash output: ";
    NoBreaks(a);
    BreaksConcat(" lines total]" + ['\n'] + ELLIPSIS, ['\n']);
    BreaksConcat(" lines total]" + ['\n'], ELLIPSIS);
    BreaksConcat(" lines total]", ['\n']);
    NoBreaks(" lines total]");
    NoBreaks(ELLIPSIS);
    assert ['\n'][..0] == [] && Breaks(['\n']) == 1;
    assert b == " lines total]" + ['\n'] + ELLIPSIS + ['\n'];
    BreaksConcat(a, b);
    BreaksConcat(a + b, tail);
    assert BashText(n, tail) == a + b + tail;
  }

  lemma {:induction false} BashOnce(k: nat)
    requires k > 0
    ensures var text := SummaryText("bash", LongBash(k)); |text| > 16 + k - 1 && text[14] == '9' && Breaks(text) == 2
  {
    var x := Fill('x', k);
    LongBashLines(k);
    LongBashTail(k);
    BashSummary(LongBash(k));
    BashTextShape(9, x);
    NoBreaks(x);
  }

  lemma {:induction false} BashAgain(once: string)
    requires |Lines(once)| <= 3
    ensures var text := SummaryText("bash", once); |text| > 14 && text[14] != '9'
  {
    BashSummary(once);
    BashTextShape(|Lines(once)|, Join(LastN(NonBlank(Lines(once)), TAIL_LINES)));
  }

  lemma {:induction false} BashDoesNotSettle(maxOut: nat, maxLen: nat)
    requires 25 <= maxLen && maxOut < maxLen + 2
    ensures !SettlesAtOnce(ToolCall("1", "bash", "", LongBash(maxOut + maxLen)), maxOut, maxLen)
  {
    var c := ToolCall("1", "bash", "", LongBash(maxOut + maxLen));
    BashOnce(maxOut + maxLen);
    OverLongAgain(c, maxOut, maxLen, 14);
    BashAgain(Truncated(SummaryText(c.name, c.result), maxLen));
  }

  /** Exactly when collapsing a result again does nothing, whatever the call. */
  lemma {:induction false} CallsSettleExactlyWhen(maxOut: nat, maxLen: nat)
    requires maxLen > 0
    ensures (forall c: ToolCall :: SettlesAtOnce(c, maxOut, maxLen)) <==> Settling(maxOut, maxLen)
  {
    if Settling(maxOut, maxLen) {
      forall c: ToolCall ensures SettlesAtOnce(c, maxOut, maxLen) { SettlesWhen(c, maxOut, maxLen); }
    } else {
      var c := Unsettled(maxOut, maxLen);
    }
  }

  /** A call whose summary is summarised differently. */
  lemma {:induction false} Unsettled(maxOut: nat, maxLen: nat) returns (c: ToolCall)
    requires maxLen > 0 && !Settling(maxOut, maxLen)
    ensures !SettlesAtOnce(c, maxOut, maxLen)
  {
    if maxLen < 25 {
      ReadDoesNotSettle(maxOut, maxLen);
      c := ToolCall("1", "read", "", LongRead(maxOut));
    } else {
      BashDoesNotSettle(maxOut, maxLen);
      c := ToolCall("1", "bash", "", LongBash(maxOut + maxLen));
    }
  }

  /** Exactly when a second collapse of a history does nothing, whatever the history and however many messages are
      preserved. */
  lemma {:induction false} CollapseIdempotentExactlyWhen(n: nat, maxOut: nat, maxLen: nat)
    requires maxLen > 0
    ensures (forall ms ::
               Collapsed(Collapsed(ms, n, maxOut, maxLen), n, maxOut, maxLen) == Collapsed(ms, n, maxOut, maxLen))
       <==> Settling(maxOut, maxLen)
  {
    if Settling(maxOut, maxLen) {
      forall ms
        ensures Collapsed(Collapsed(ms, n, maxOut, maxLen), n, maxOut, maxLen) == Collapsed(ms, n, maxOut, maxLen)
      {
        CollapseIdempotent(ms, n, maxOut, maxLen);
      }
    } else {
      var c := Unsettled(maxOut, maxLen);
      HistoryUnsettled(c, n, maxOut, maxLen);
    }
  }

  lemma {:induction false} CollapseIdempotent(ms: seq<Message>, n: nat, maxOut: nat, maxLen: nat)
    requires maxLen > 0 && Settling(maxOut, maxLen)
    ensures Collapsed(Collapsed(ms, n, maxOut, maxLen), n, maxOut, maxLen) == Collapsed(ms, n, maxOut, maxLen)
  {
    var once := Collapsed(ms, n, maxOut, maxLen);
    forall i | 0 <= i < |ms|
      ensures Old(once, IsToolResult, n, i) ==> CollapseMessage(once[i], maxOut, maxLen) == once[i]
    {
      SameOldTools(ms, n, maxOut, maxLen, i);
      if Old(ms, IsToolResult, n, i) { MessageSettles(ms[i], maxOut, maxLen); }
    }
  }

  lemma {:induction false} MessageSettles(m: Message, maxOut: nat, maxLen: nat)
    requires maxLen > 0 && Settling(maxOut, maxLen)
    ensures CollapseMessage(CollapseMessage(m, maxOut, maxLen), maxOut, maxLen) == CollapseMessage(m, maxOut, maxLen)
  {
    forall k | 0 <= k < |m.toolCalls| ensures SettlesAtOnce(m.toolCalls[k], maxOut, maxLen) {
      SettlesWhen(m.toolCalls[k], maxOut, maxLen);
    }
  }

  /** The message with the unsettled call, and enough tool messages behind it. */
  function UnsettledHistory(c: ToolCall, n: nat): seq<Message> { seq(n + 1, _ => Message(TOOL, "", [c], "")) }

  lemma {:induction false} AllAreHits(c: ToolCall, n: nat)
    ensures Hits(UnsettledHistory(c, n)[1..], IsToolResult) == n
  {
    if n > 0 {
      AllAreHits(c, n - 1);
      assert UnsettledHistory(c, n)[1..] == UnsettledHistory(c, n - 1);
      assert IsToolResult(UnsettledHistory(c, n - 1)[0]);
    }
  }

  lemma {:induction false} HistoryUnsettled(c: ToolCall, n: nat, maxOut: nat, maxLen: nat)
    requires maxLen > 0 && !SettlesAtOnce(c, maxOut, maxLen)
    ensures var ms := UnsettledHistory(c, n);
            Collapsed(Collapsed(ms, n, maxOut, maxLen), n, maxOut, maxLen) != Collapsed(ms, n, maxOut, maxLen)
  {
    var ms := UnsettledHistory(c, n);
    AllAreHits(c, n);
    var once := Collapsed(ms, n, maxOut, maxLen);
    SameOldTools(ms, n, maxOut, maxLen, 0);
    assert once[0] == CollapseMessage(ms[0], maxOut, maxLen);
    assert Collapsed(once, n, maxOut, maxLen)[0] == CollapseMessage(once[0], maxOut, maxLen);
    assert once[0].toolCalls[0] == CollapseCall(c, maxOut, maxLen);
    assert CollapseMessage(once[0], maxOut, maxLen).toolCalls[0] ==
             CollapseCall(CollapseCall(c, maxOut, maxLen), maxOut, maxLen);
  }

  lemma {:induction false} SameOldTools(ms: seq<Message>, n: nat, maxOut: nat, maxLen: nat, i: nat)
    requires maxLen > 0 && i < |ms|
    ensures Old(Collapsed(ms, n, maxOut, maxLen), IsToolResult, n, i) <==> Old(ms, IsToolResult, n, i)
  {
    HitsPointwise(ms[i + 1..], Collapsed(ms, n, maxOut, maxLen)[i + 1..], IsToolResult);
  }

  // ---- both passes keep the pairing of calls and results ----

  lemma {:induction false} SamePairing(a: seq<Message>, b: seq<Message>, i: nat)
    requires |a| == |b| && i <= |a| && forall j :: 0 <= j < |a| ==> SameButResults(a[j], b[j])
    ensures PairedFrom(a, i) <==> PairedFrom(b, i)
    decreases |a| - i
  {
    if i < |a| {
      SameGroup(a, b, i);
      if GroupAt(a, i) { SamePairing(a, b, i + GroupSize(a[i])); }
    }
  }

  lemma {:induction false} SameGroup(a: seq<Message>, b: seq<Message>, i: nat)
    requires |a| == |b| && i < |a| && forall j :: 0 <= j < |a| ==> SameButResults(a[j], b[j])
    ensures GroupSize(a[i]) == GroupSize(b[i]) && (GroupAt(a, i) <==> GroupAt(b, i))
  {
    assert SameButResults(a[i], b[i]);
    if HasCalls(a[i]) && i + |a[i].toolCalls| < |a| {
      forall k | 0 <= k < |a[i].toolCalls|
        ensures Answers(a[i + 1 + k], a[i].toolCalls[k]) <==> Answers(b[i + 1 + k], b[i].toolCalls[k])
      {
        SameAnswer(a[i + 1 + k], b[i + 1 + k], a[i].toolCalls[k], b[i].toolCalls[k]);
      }
    }
  }

  lemma {:induction false} SameAnswer(m: Message, n: Message, c: ToolCall, d: ToolCall)
    requires SameButResults(m, n) && c.(result := "") == d.(result := "")
    ensures Answers(m, c) <==> Answers(n, d)
  {
    assert c.id == c.(result := "").id && c.name == c.(result := "").name && d.id == d.(result := "").id
           && d.name == d.(result := "").name;
    if |m.toolCalls| == 1 {
      var x, y := m.toolCalls[0], n.toolCalls[0];
      assert x.id == x.(result := "").id && x.name == x.(result := "").name && y.id == y.(result := "").id
             && y.name == y.(result := "").name;
    }
  }

  /** Clearing or collapsing results never makes or breaks a well-paired history. */
  lemma {:induction false} PassesKeepPairing(ms: seq<Message>, n: nat, marker: string, maxOut: nat, maxLen: nat)
    requires maxLen > 0
    ensures WellPaired(Microcompacted(ms, n, marker)) <==> WellPaired(ms)
    ensures WellPaired(Collapsed(ms, n, maxOut, maxLen)) <==> WellPaired(ms)
  {
    SamePairing(ms, Microcompacted(ms, n, marker), 0);
    SamePairing(ms, Collapsed(ms, n, maxOut, maxLen), 0);
  }

  // ---- the history a pass works on ----


  /** microcompact with a configuration that went through withDefaults. */
  method Microcompact(hist: History, raw: MicroConfig) returns (changed: bool)
    modifies hist
    ensures var cfg := MicroDefaults(raw);
            hist.messages ==
              if cfg.enabled && |old(hist.messages)| >= 3
              then Microcompacted(old(hist.messages), cfg.preserveLastN, cfg.cleared)
              else old(hist.messages)
    ensures changed <==> hist.messages != old(hist.messages)
  {
    var cfg, msgs := MicroDefaults(raw), hist.messages;
    if !cfg.enabled || |msgs| < 3 { return false; }
    var indices := CollectPositions(msgs, Compactable);
    PositionsCount(msgs, Compactable);
    var n: nat := cfg.preserveLastN;
    if |indices| <= n {
      forall i | 0 <= i < |msgs| ensures !Old(msgs, Compactable, n, i) { FewAreNotOld(msgs, Compactable, n, i); }
      assert Microcompacted(msgs, n, cfg.cleared) == msgs;
      return false;
    }
    var f := (m: Message) => ClearMessage(m, cfg.cleared);
    var result;
    result, changed := Apply(msgs, Compactable, n, f, indices[..|indices| - n]);
    SameRewrite(msgs, n, cfg.cleared, f);
    if changed { hist.messages := result; }
  }

  lemma {:induction false} SameRewrite(ms: seq<Message>, n: nat, marker: string, f: Message -> Message)
    requires forall m :: f(m) == ClearMessage(m, marker)
    ensures Rewrite(ms, Compactable, n, f) == Microcompacted(ms, n, marker)
  {
  }
}
