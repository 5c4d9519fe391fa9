/** One run of the canvas executor: selection, per-node write-back, and the rate-limited saver
    (pkg/canvas/executor.go, pkg/canvas/writeback.go). A contract `true == P(..)` says P(..); the comparison makes the
    verifier carry the predicate over whole. */
module CanvasExecutor {
  import opened Base
  import opened CanvasGraph

  const RUNNING := "running"
  const PENDING := "pending"
  const DONE := "done"
  const ERROR := "error"
  const SKIPPED := "skipped"
  const CANCELLED := "cancelled"
  const MAX_GEN_HISTORY: nat := 20

  // ---- what the run cannot decide itself ----

  datatype ContextState = Live | Canceled | DeadlineExceeded

  /** One attempt to save: the clock when the interval is tested, whether Save succeeds, and the clock afterwards. */
  datatype SaveEnv = SaveEnv(checkedAt: int, ok: bool, doneAt: int)

  /** BuildParams and dispatch, seen from the loop. */
  datatype Outcome =
    | BuildFailed(msg: string)
    | DispatchFailed(msg: string, params: Option<string>)
    | Produced(mediaUrl: string, mediaType: string, useLLM: bool)

  datatype NodeEnv = NodeEnv(
    ctx: ContextState, outcome: Outcome, freshId: string, entryId: string,
    startedAt: int, endedAt: int, firstSave: SaveEnv, secondSave: SaveEnv)

  // ---- write-back on one node's data ----

  function MarkedRunning(d: NodeData, now: int): NodeData {
    d.(status := RUNNING, generating := true, startTime := Some(now), error := None, lastErrorParams := None)
  }

  /** What is saved while a node runs: running, begun now, without the error of an earlier attempt. */
  lemma {:induction false} RunningMeaning(d: NodeData, now: int)
    ensures var r := MarkedRunning(d, now);
            && r.status == "running" && r.generating && r.startTime == Some(now) && r.error.None?
            && r.lastErrorParams.None? && r.mediaUrl == d.mediaUrl && r.history == d.history
  {
  }

  function MarkedPending(d: NodeData, now: int): NodeData {
    d.(status := PENDING, generating := false, endTime := Some(now), error := None, genProgress := None)
  }

  function MarkedError(d: NodeData, msg: string, params: Option<string>, now: int): NodeData {
    d.(status := ERROR, generating := false, error := Some(msg), endTime := Some(now),
       lastErrorParams := if params.Some? then params else d.lastErrorParams)
  }

  function WithHistory(d: NodeData, e: HistoryEntry): NodeData {
    var h := [e] + d.history;
    d.(history := if |h| > MAX_GEN_HISTORY then h[..MAX_GEN_HISTORY] else h)
  }

  predicate HasPrefix(s: string, p: string) { p <= s }

  predicate LooksLikeMediaUrl(v: string) {
    HasPrefix(v, "/") || HasPrefix(v, "http://") || HasPrefix(v, "https://") || HasPrefix(v, "data:")
    || HasPrefix(v, "blob:") || HasPrefix(v, "file://")
  }

  function ResultNode(id: string, mediaType: string, mediaUrl: string): Node {
    var blank := NodeData(DONE, false, None, None, None, None, None, mediaUrl, []);
    Node(id, mediaType,
         if mediaUrl != "" && !LooksLikeMediaUrl(mediaUrl)
         then blank.(status := ERROR, error := Some("invalid media url"), mediaUrl := "")
         else blank)
  }

  /** The node a result is shown as: finished with its address, or failed without one when that is no address. */
  lemma {:induction false} ResultNodeMeaning(id: string, mediaType: string, mediaUrl: string)
    ensures var n := ResultNode(id, mediaType, mediaUrl);
            && n.id == id && n.nodeType == mediaType && !n.data.generating && n.data.history == []
            && if mediaUrl == "" || "/" <= mediaUrl || "http://" <= mediaUrl || "https://" <= mediaUrl
                  || "data:" <= mediaUrl || "blob:" <= mediaUrl || "file://" <= mediaUrl
               then n.data.status == "done" && n.data.error.None? && n.data.mediaUrl == mediaUrl
               else n.data.status == "error" && n.data.error.Some? && n.data.mediaUrl == ""
  {
  }

  predicate IsExecutableNodeType(t: string) { t in {"imageGen", "videoGen", "voiceGen", "textGen"} }

  // ---- selectNodes ----

  predicate Wanted(nodes: seq<Node>, byID: map<string, nat>, requested: seq<string>, id: string)
    requires forall x :: x in byID ==> byID[x] < |nodes|
  {
    (requested == [] || id in requested) && id in byID && IsExecutableNodeType(nodes[byID[id]].nodeType)
  }

  /** Picks is the sub-list of order that satisfies the selection: same order, nothing else, nothing missing. */
  ghost predicate Picks(order: seq<string>, nodes: seq<Node>, byID: map<string, nat>, requested: seq<string>,
                        wanted: seq<string>)
    requires forall x :: x in byID ==> byID[x] < |nodes|
  {
    if order == [] then wanted == []
    else if Wanted(nodes, byID, requested, order[|order| - 1])
    then wanted != [] && wanted[|wanted| - 1] == order[|order| - 1]
         && Picks(order[..|order| - 1], nodes, byID, requested, wanted[..|wanted| - 1])
    else Picks(order[..|order| - 1], nodes, byID, requested, wanted)
  }

  /** A node is selected exactly when it is in the order, asked for or nothing is, and of one of the four kinds that
      can be run. */
  ghost predicate SelectedAre(order: seq<string>, nodes: seq<Node>, byID: map<string, nat>, requested: seq<string>,
                              wanted: seq<string>)
    requires forall x :: x in byID ==> byID[x] < |nodes|
  {
    forall id :: id in wanted <==>
      && id in order && (requested == [] || id in requested)
      && id in byID && nodes[byID[id]].nodeType in {"imageGen", "videoGen", "voiceGen", "textGen"}
  }

  method SelectNodes(order: seq<string>, nodes: seq<Node>, byID: map<string, nat>, requested: seq<string>)
    returns (wanted: seq<string>)
    requires forall x :: x in byID ==> byID[x] < |nodes|
    ensures Picks(order, nodes, byID, requested, wanted)
    ensures SelectedAre(order, nodes, byID, requested, wanted)
  {
    wanted := [];
    for i := 0 to |order|
      invariant Picks(order[..i], nodes, byID, requested, wanted)
    {
      assert order[..i + 1][..i] == order[..i];
      if Wanted(nodes, byID, requested, order[i]) {
        assert (wanted + [order[i]])[..|wanted|] == wanted;
        wanted := wanted + [order[i]];
      }
    }
    assert order[..|order|] == order;
    ghost var at := PicksEmbeds(order, nodes, byID, requested, wanted);
  }

  ghost predicate EmbedsAt(wanted: seq<string>, order: seq<string>, at: seq<nat>) {
    && |at| == |wanted|
    && (forall k :: 0 <= k < |at| ==> at[k] < |order| && order[at[k]] == wanted[k])
    && forall j, k :: 0 <= j < k < |at| ==> at[j] < at[k]
  }

  lemma {:induction false} PicksEmbeds(order: seq<string>, nodes: seq<Node>, byID: map<string, nat>,
                                       requested: seq<string>, wanted: seq<string>)
    returns (at: seq<nat>)
    requires forall x :: x in byID ==> byID[x] < |nodes|
    requires Picks(order, nodes, byID, requested, wanted)
    ensures EmbedsAt(wanted, order, at)
    ensures SelectedAre(order, nodes, byID, requested, wanted)
    decreases |order|
  {
    if order == [] {
      at := [];
    } else if Wanted(nodes, byID, requested, order[|order| - 1]) {
      var front := wanted[..|wanted| - 1];
      at := PicksEmbeds(order[..|order| - 1], nodes, byID, requested, front);
      at := at + [|order| - 1];
      assert wanted == front + [order[|order| - 1]] && order == order[..|order| - 1] + [order[|order| - 1]];
    } else {
      at := PicksEmbeds(order[..|order| - 1], nodes, byID, requested, wanted);
      assert order == order[..|order| - 1] + [order[|order| - 1]];
    }
  }

  /** A selected node never comes before a selected node it depends on, and none is selected twice. */
  lemma {:induction false} SelectionRespectsArcs(ids: set<string>, arcs: set<Arc>, order: seq<string>, nodes: seq<Node>,
                                                 byID: map<string, nat>, requested: seq<string>, wanted: seq<string>)
    requires forall x :: x in byID ==> byID[x] < |nodes|
    requires TopologicalOrder(ids, arcs, order) && Picks(order, nodes, byID, requested, wanted)
    ensures NoDup(wanted)
    ensures forall i, j :: 0 <= i < |wanted| && 0 <= j < |wanted| && (wanted[i], wanted[j]) in arcs ==> i < j
    ensures SelectedAre(order, nodes, byID, requested, wanted)
  {
    var at := PicksEmbeds(order, nodes, byID, requested, wanted);
    forall i, j | 0 <= i < |wanted| && 0 <= j < |wanted| && (wanted[i], wanted[j]) in arcs ensures i < j {
      assert (order[at[i]], order[at[j]]) in arcs;
      assert at[i] < at[j];
    }
  }

  // ---- growing the document keeps the order valid ----

  ghost predicate FreshFor(nodes: seq<Node>, edges: seq<Edge>, x: string) {
    && x != ""
    && (forall n :: n in nodes ==> n.id != x)
    && forall e :: e in edges ==> e.source != x && e.target != x
  }

  function OrderedArcs(nodes: seq<Node>, edges: seq<Edge>): set<Arc> { ArcSet(edges, NodeIds(nodes)) }

  /** Appending a fresh node and a flow edge into it extends any topological order at the end. */
  lemma {:induction false} GrowKeepsOrder(nodes: seq<Node>, edges: seq<Edge>, order: seq<string>, n: Node, e: Edge)
    requires TopologicalOrder(NodeIds(nodes), OrderedArcs(nodes, edges), order)
    requires FreshFor(nodes, edges, n.id)
    requires e.source in NodeIds(nodes) && e.target == n.id && IsExecutionEdge(e)
    ensures NodeIds(nodes + [n]) == NodeIds(nodes) + {n.id}
    ensures OrderedArcs(nodes + [n], edges + [e]) == OrderedArcs(nodes, edges) + {(e.source, n.id)}
    ensures TopologicalOrder(NodeIds(nodes + [n]), OrderedArcs(nodes + [n], edges + [e]), order + [n.id])
  {
    GrownSets(nodes, edges, n, e);
    OrderGrows(NodeIds(nodes), OrderedArcs(nodes, edges), order, e.source, n.id);
  }

  lemma {:induction false} GrownSets(nodes: seq<Node>, edges: seq<Edge>, n: Node, e: Edge)
    requires FreshFor(nodes, edges, n.id)
    requires e.source in NodeIds(nodes) && e.target == n.id && IsExecutionEdge(e)
    ensures NodeIds(nodes + [n]) == NodeIds(nodes) + {n.id} && n.id !in NodeIds(nodes)
    ensures OrderedArcs(nodes + [n], edges + [e]) == OrderedArcs(nodes, edges) + {(e.source, n.id)}
  {
    assert forall x :: x in nodes + [n] <==> x in nodes || x == n;
    assert NodeIds(nodes + [n]) == NodeIds(nodes) + {n.id};
    assert forall x :: x in edges + [e] <==> x in edges || x == e;
  }

  lemma {:induction false} OrderGrows(ids: set<string>, arcs: set<Arc>, order: seq<string>, source: string, x: string)
    requires TopologicalOrder(ids, arcs, order) && source in ids && x !in ids
    requires forall a :: a in arcs ==> a.0 in ids && a.1 in ids
    ensures TopologicalOrder(ids + {x}, arcs + {(source, x)}, order + [x])
  {
    var p := order + [x];
    assert forall y :: y in order <==> y in (set z | z in order);
    assert (set y | y in p) == ids + {x};
    forall i, j | 0 <= i < |p| && 0 <= j < |p| && (p[i], p[j]) in arcs + {(source, x)} ensures i < j {
      if (p[i], p[j]) in arcs { assert i < |order| && j < |order|; }
    }
  }

  // ---- the run ----

  datatype NodeRun = NodeRun(id: string, status: string)

  datatype Summary = Summary(
    status: string, total: nat, succeeded: nat, failed: nat, skipped: nat,
    nodes: seq<NodeRun>, error: Option<string>)

  /** The result a selected node must be reported with. */
  function NodeVerdict(alreadyDone: bool, o: Outcome): string {
    if alreadyDone then SKIPPED else if o.Produced? then DONE else ERROR
  }

  /** The outcome brings a media node of its own. */
  predicate Grows(env: NodeEnv) {
    env.outcome.Produced? && env.outcome.mediaUrl != "" && env.outcome.mediaType != "" && !env.outcome.useLLM
  }

  function ProducedIds(env: NodeEnv): seq<string> { if Grows(env) then [env.freshId] else [] }

  function ProducedNodes(env: NodeEnv): seq<Node> {
    if Grows(env) then [ResultNode(env.freshId, env.outcome.mediaType, env.outcome.mediaUrl)] else []
  }

  function ProducedEdges(gen: string, env: NodeEnv): seq<Edge> {
    if Grows(env) then [Edge("edge_" + gen + "_" + env.freshId, gen, env.freshId, EDGE_FLOW)] else []
  }

  function WithData(nodes: seq<Node>, i: nat, d: NodeData): seq<Node>
    requires i < |nodes|
  {
    nodes[i := nodes[i].(data := d)]
  }

  /** The data a processed node ends with, as the composition of the write-back steps. */
  function DataAfter(d: NodeData, env: NodeEnv): NodeData { Concluded(MarkedRunning(d, env.startedAt), env) }

  function Concluded(running: NodeData, env: NodeEnv): NodeData {
    match env.outcome
    case BuildFailed(msg) => MarkedError(running, msg, None, env.endedAt)
    case DispatchFailed(msg, params) =>
      WithHistory(MarkedError(running, msg, params, env.endedAt), HistoryEntry(env.entryId, ERROR, "", []))
    case Produced(mediaUrl, _, _) =>
      MarkedPending(WithHistory(running, HistoryEntry(env.entryId, DONE, mediaUrl, ProducedIds(env))), env.endedAt)
  }

  /** Whatever happened, the node is no longer generating, shows an error exactly when it failed, keeps retry
      parameters only from this failure, and has its newest attempt first in a history of at most twenty. */
  lemma {:induction false} DataAfterMeaning(d: NodeData, env: NodeEnv)
    ensures var a := DataAfter(d, env);
            && a.status == StatusAfter(NodeVerdict(false, env.outcome)) && a.status != RUNNING && !a.generating
            && (a.error.Some? <==> !env.outcome.Produced?) && (env.outcome.Produced? ==> a.genProgress.None?)
            && (!env.outcome.Produced? ==> a.error == Some(env.outcome.msg))
            && a.lastErrorParams == (if env.outcome.DispatchFailed? then env.outcome.params else None)
            && a.startTime == Some(env.startedAt) && a.endTime == Some(env.endedAt)
            && (env.outcome.BuildFailed? ==> a.history == d.history)
            && (!env.outcome.BuildFailed? ==>
                  && a.history != [] && a.history[0].id == env.entryId
                  && a.history[0].status == NodeVerdict(false, env.outcome)
                  && a.history[1..] == NewestOf(d.history, MAX_GEN_HISTORY - 1))
  {
    assert forall e: HistoryEntry ::
        WithHistory(d, e).history == [e] + NewestOf(d.history, MAX_GEN_HISTORY - 1);
  }

  /** The first n entries, or all of them. */
  function NewestOf(h: seq<HistoryEntry>, n: nat): seq<HistoryEntry> { if |h| > n then h[..n] else h }

  function StatusAfter(reported: string): string {
    if reported == SKIPPED then DONE else if reported == ERROR then ERROR else PENDING
  }

  function Count(runs: seq<NodeRun>, status: string): nat {
    if runs == [] then 0
    else Count(runs[..|runs| - 1], status) + if runs[|runs| - 1].status == status then 1 else 0
  }

  /** The counters of a summary are the tallies of its per-node results. */
  ghost predicate Balanced(s: Summary) {
    && s.succeeded == Count(s.nodes, DONE) && s.failed == Count(s.nodes, ERROR) && s.skipped == Count(s.nodes, SKIPPED)
    && s.succeeded + s.failed + s.skipped == |s.nodes|
  }

  function Report(s: Summary, r: NodeRun): Summary {
    s.(nodes := s.nodes + [r],
       succeeded := s.succeeded + if r.status == DONE then 1 else 0,
       failed := s.failed + if r.status == ERROR then 1 else 0,
       skipped := s.skipped + if r.status == SKIPPED then 1 else 0)
  }

  lemma {:induction false} ReportBalanced(s: Summary, r: NodeRun)
    requires Balanced(s) && r.status in {DONE, ERROR, SKIPPED}
    ensures Balanced(Report(s, r))
  {
    assert (s.nodes + [r])[..|s.nodes|] == s.nodes;
  }

  /** Where a run stands after reporting runs: the original nodes keep their places; a reported node
      carries the status its result calls for; every other original node is untouched. */
  ghost predicate Progress(nodes0: seq<Node>, byID: map<string, nat>, wanted: seq<string>, runs: seq<NodeRun>,
                           nodes: seq<Node>)
  {
    && |runs| <= |wanted| && |nodes0| <= |nodes|
    && (forall id :: id in byID ==> byID[id] < |nodes0| && LastCarrier(nodes, id, byID[id]))
    && (forall j :: 0 <= j < |wanted| ==> wanted[j] in byID)
    && (forall j :: 0 <= j < |runs| ==>
          runs[j].id == wanted[j] && nodes[byID[wanted[j]]].data.status == StatusAfter(runs[j].status))
    && forall j :: 0 <= j < |nodes0| && (forall k :: 0 <= k < |runs| ==> byID[wanted[k]] != j) ==> nodes[j] == nodes0[j]
  }

  lemma {:induction false} ProgressStep(nodes0: seq<Node>, byID: map<string, nat>, wanted: seq<string>,
                                        runs: seq<NodeRun>, nodes: seq<Node>, edges: seq<Edge>, newId: string,
                                        after: seq<Node>, edges': seq<Edge>, r: NodeRun)
    requires Progress(nodes0, byID, wanted, runs, nodes) && NoDup(wanted) && |runs| < |wanted|
    requires Touched(nodes, edges, byID[wanted[|runs|]], newId, after, edges') && FreshFor(nodes, edges, newId)
    requires r.id == wanted[|runs|] && after[byID[r.id]].data.status == StatusAfter(r.status)
    ensures Progress(nodes0, byID, wanted, runs + [r], after)
  {
    var i, runs' := byID[r.id], runs + [r];
    forall id | id in byID ensures LastCarrier(after, id, byID[id]) {
      CarrierKept(nodes, edges, i, newId, after, edges', id, byID[id]);
    }
    forall j | 0 <= j < |runs'|
      ensures runs'[j].id == wanted[j] && after[byID[wanted[j]]].data.status == StatusAfter(runs'[j].status)
    {
      if j < |runs| { assert LastCarrier(nodes, wanted[j], byID[wanted[j]]) && LastCarrier(nodes, r.id, i); }
    }
    forall j | 0 <= j < |nodes0| && (forall k :: 0 <= k < |runs'| ==> byID[wanted[k]] != j)
      ensures after[j] == nodes0[j]
    {
      assert byID[wanted[|runs|]] != j && forall k :: 0 <= k < |runs| ==> byID[wanted[k]] != j;
    }
  }

  /** Touching the document moves no carrier of an id: the one new node has a fresh id. */
  lemma {:induction false} CarrierKept(nodes: seq<Node>, edges: seq<Edge>, i: nat, newId: string, after: seq<Node>,
                                       edges': seq<Edge>, id: string, at: nat)
    requires i < |nodes| && Touched(nodes, edges, i, newId, after, edges') && FreshFor(nodes, edges, newId)
    requires LastCarrier(nodes, id, at)
    ensures LastCarrier(after, id, at)
  {
    assert nodes[at] in nodes;
  }

  /** An index taken before the document was touched still agrees with it when nothing was appended. */
  lemma {:induction false} IndexSurvives(byID: map<string, nat>, nodes: seq<Node>, edges: seq<Edge>, i: nat,
                                         newId: string, after: seq<Node>, edges': seq<Edge>)
    requires i < |nodes| && Indexes(byID, nodes) && Touched(nodes, edges, i, newId, after, edges') && |after| == |nodes|
    ensures Indexes(byID, after)
  {
    assert after == nodes[i := nodes[i].(data := after[i].data)];
    DataKeepsIds(nodes, i, after[i].data);
    forall id | id in byID ensures LastCarrier(after, id, byID[id]) { assert LastCarrier(nodes, id, byID[id]); }
  }

  lemma {:induction false} CarrierUnique(nodes: seq<Node>, id: string, i: nat, j: nat)
    requires LastCarrier(nodes, id, i) && LastCarrier(nodes, id, j)
    ensures i == j
  {
  }

  ghost predicate FreshIds(nodes: seq<Node>, edges: seq<Edge>, env: nat -> NodeEnv, done: nat) {
    && (forall k: nat :: k >= done ==> FreshFor(nodes, edges, env(k).freshId))
    && forall j: nat, k: nat :: j < k ==> env(j).freshId != env(k).freshId
  }

  lemma {:induction false} FreshIdsStep(nodes: seq<Node>, edges: seq<Edge>, env: nat -> NodeEnv, done: nat, i: nat,
                                        after: seq<Node>, edges': seq<Edge>)
    requires FreshIds(nodes, edges, env, done) && i < |nodes|
    requires Touched(nodes, edges, i, env(done).freshId, after, edges')
    ensures FreshIds(after, edges', env, done + 1)
  {
    forall k: nat | k >= done + 1 ensures FreshFor(after, edges', env(k).freshId) {
      var x := env(k).freshId;
      assert FreshFor(nodes, edges, x) && env(done).freshId != x;
      forall j | 0 <= j < |after| ensures after[j].id != x {
        if j < |nodes| { assert nodes[j] in nodes; }
      }
      forall j | 0 <= j < |edges'| ensures edges'[j].source != x && edges'[j].target != x {
        if j < |edges| { assert edges'[j] == edges'[..|edges|][j] && edges[j] in edges; }
        else { assert nodes[i] in nodes; }
      }
    }
  }

  /** Every reported node got the result its own inputs call for. */
  ghost predicate Verdicts(nodes0: seq<Node>, index: map<string, nat>, wanted: seq<string>, runs: seq<NodeRun>,
                           skipDone: bool, env: nat -> NodeEnv)
  {
    && |runs| <= |wanted|
    && forall j :: 0 <= j < |runs| ==>
         wanted[j] in index && index[wanted[j]] < |nodes0| &&
         runs[j].status == NodeVerdict(skipDone && nodes0[index[wanted[j]]].data.status == DONE, env(j).outcome)
  }

  /** The value part of what holds between two iterations of the run loop. */
  ghost predicate LoopState(nodes0: seq<Node>, index: map<string, nat>, wanted: seq<string>, runs: seq<NodeRun>,
                            skipDone: bool, env: nat -> NodeEnv, g: map<string, nat>, nodes: seq<Node>,
                            edges: seq<Edge>)
  {
    && FreshIds(nodes, edges, env, |runs|)
    && Indexes(g, nodes)
    && Progress(nodes0, index, wanted, runs, nodes)
    && Verdicts(nodes0, index, wanted, runs, skipDone, env)
  }

  lemma {:induction false} NextLookup(nodes0: seq<Node>, index: map<string, nat>, wanted: seq<string>,
                                      runs: seq<NodeRun>, skipDone: bool, env: nat -> NodeEnv, g: map<string, nat>,
                                      nodes: seq<Node>, edges: seq<Edge>)
    requires LoopState(nodes0, index, wanted, runs, skipDone, env, g, nodes, edges)
    requires NoDup(wanted) && |runs| < |wanted| && wanted[|runs|] != ""
    ensures var id := wanted[|runs|];
            id in g && id in index && g[id] == index[id] < |nodes0| <= |nodes| && nodes[g[id]].id == id
            && nodes[g[id]] == nodes0[g[id]]
    ensures FreshFor(nodes, edges, env(|runs|).freshId)
  {
    var id := wanted[|runs|];
    UntouchedSoFar(nodes0, index, wanted, runs, nodes);
    assert nodes[index[id]] in nodes;
    CarrierUnique(nodes, id, index[id], g[id]);
  }

  lemma {:induction false} LoopStep(nodes0: seq<Node>, index: map<string, nat>, wanted: seq<string>, runs: seq<NodeRun>,
                                    skipDone: bool, env: nat -> NodeEnv, g: map<string, nat>, nodes: seq<Node>,
                                    edges: seq<Edge>, r: NodeRun, g': map<string, nat>, after: seq<Node>,
                                    edges': seq<Edge>)
    requires LoopState(nodes0, index, wanted, runs, skipDone, env, g, nodes, edges)
    requires NoDup(wanted) && |runs| < |wanted| && wanted[|runs|] != ""
    requires r.id == wanted[|runs|] && r.id in index && index[r.id] < |nodes|
    requires Touched(nodes, edges, index[r.id], env(|runs|).freshId, after, edges')
    requires after[index[r.id]].data.status == StatusAfter(r.status)
    requires r.status == NodeVerdict(skipDone && nodes[index[r.id]].data.status == DONE, env(|runs|).outcome)
    requires if |after| == |nodes| then g' == g else Indexes(g', after)
    ensures LoopState(nodes0, index, wanted, runs + [r], skipDone, env, g', after, edges')
  {
    var k, i := |runs|, index[r.id];
    assert FreshFor(nodes, edges, env(k).freshId);
    assert Progress(nodes0, index, wanted, runs + [r], after) by {
      ProgressStep(nodes0, index, wanted, runs, nodes, edges, env(k).freshId, after, edges', r);
    }
    assert FreshIds(after, edges', env, k + 1) by { FreshIdsStep(nodes, edges, env, k, i, after, edges'); }
    assert Verdicts(nodes0, index, wanted, runs + [r], skipDone, env) by {
      NextLookup(nodes0, index, wanted, runs, skipDone, env, g, nodes, edges);
    }
    if |after| == |nodes| { IndexSurvives(g, nodes, edges, i, env(k).freshId, after, edges'); }
  }

  lemma {:induction false} UntouchedSoFar(nodes0: seq<Node>, index: map<string, nat>, wanted: seq<string>,
                                          runs: seq<NodeRun>, nodes: seq<Node>)
    requires Progress(nodes0, index, wanted, runs, nodes) && NoDup(wanted) && |runs| < |wanted|
    ensures var i := index[wanted[|runs|]]; LastCarrier(nodes, wanted[|runs|], i) && nodes[i] == nodes0[i]
  {
    var id := wanted[|runs|];
    assert LastCarrier(nodes, id, index[id]);
    forall t | 0 <= t < |runs| ensures index[wanted[t]] != index[id] {
      assert LastCarrier(nodes, wanted[t], index[wanted[t]]);
    }
  }

  lemma {:induction false} BeginRun(ids: set<string>, arcs: set<Arc>, order: seq<string>, nodes: seq<Node>,
                                    index: map<string, nat>, requested: seq<string>, wanted: seq<string>)
    requires ids == NodeIds(nodes) && Indexes(index, nodes)
    requires TopologicalOrder(ids, arcs, order) && Picks(order, nodes, index, requested, wanted)
    ensures Progress(nodes, index, wanted, [], nodes) && NoDup(wanted)
    ensures forall id :: id in wanted ==> id != ""
  {
    SelectionRespectsArcs(ids, arcs, order, nodes, index, requested, wanted);
  }

  /** The run status the loop and the flush leave behind. */
  function FinalStatus(stop: ContextState, flushed: bool, failed: nat): string {
    if stop.Canceled? then CANCELLED
    else if stop.DeadlineExceeded? || !flushed || failed > 0 then ERROR
    else DONE
  }

  /** What the loop has reported: a prefix of the selection, each node with its own verdict and the matching status
      in the document, counters that add up, and a context to blame exactly when the prefix is proper. */
  ghost predicate Walked(nodes0: seq<Node>, index: map<string, nat>, wanted: seq<string>, skipDone: bool,
                         env: nat -> NodeEnv, stop: ContextState, runs: seq<NodeRun>, tally: (nat, nat, nat),
                         nodes: seq<Node>)
  {
    && Progress(nodes0, index, wanted, runs, nodes)
    && Verdicts(nodes0, index, wanted, runs, skipDone, env)
    && tally == (Count(runs, DONE), Count(runs, ERROR), Count(runs, SKIPPED))
    && tally.0 + tally.1 + tally.2 == |runs|
    && if stop.Live? then |runs| == |wanted| else |runs| < |wanted| && env(|runs|).ctx == stop
  }

  /** No context is dead before node n. */
  ghost predicate AllLive(env: nat -> NodeEnv, n: nat) { forall k: nat :: k < n ==> env(k).ctx.Live? }

  lemma {:induction false} LiveNext(env: nat -> NodeEnv, n: nat)
    requires true == AllLive(env, n) && env(n).ctx.Live?
    ensures true == AllLive(env, n + 1)
  {
  }

  lemma {:induction false} CountZero(runs: seq<NodeRun>, status: string)
    ensures Count(runs, status) == 0 <==> forall j :: 0 <= j < |runs| ==> runs[j].status != status
  {
    if runs != [] {
      CountZero(runs[..|runs| - 1], status);
      assert forall j :: 0 <= j < |runs| - 1 ==> runs[..|runs| - 1][j] == runs[j];
    }
  }

  /** Node j of the selection fails: it is not skipped and its outcome is not a product. */
  predicate FailsAt(nodes0: seq<Node>, index: map<string, nat>, wanted: seq<string>, skipDone: bool,
                    env: nat -> NodeEnv, j: nat)
    requires j < |wanted| && wanted[j] in index && index[wanted[j]] < |nodes0|
  {
    NodeVerdict(skipDone && nodes0[index[wanted[j]]].data.status == DONE, env(j).outcome) == ERROR
  }

  /** A run reports done exactly when no context was dead at any selected node, no node failed and the flush worked;
      cancelled exactly when the first dead context was cancelled. */
  lemma {:induction false} DoneExactlyWhen(nodes0: seq<Node>, index: map<string, nat>, wanted: seq<string>,
                                           skipDone: bool, env: nat -> NodeEnv, stop: ContextState,
                                           runs: seq<NodeRun>, tally: (nat, nat, nat), nodes: seq<Node>, flushed: bool)
    requires Walked(nodes0, index, wanted, skipDone, env, stop, runs, tally, nodes) && AllLive(env, |runs|)
    ensures FinalStatus(stop, flushed, tally.1) == DONE <==>
              && AllLive(env, |wanted|) && flushed
              && forall j :: 0 <= j < |wanted| ==> !FailsAt(nodes0, index, wanted, skipDone, env, j)
    ensures FinalStatus(stop, flushed, tally.1) == CANCELLED <==>
              exists k: nat :: k < |wanted| && AllLive(env, k) && env(k).ctx.Canceled?
  {
    CountZero(runs, ERROR);
    forall j | 0 <= j < |runs|
      ensures FailsAt(nodes0, index, wanted, skipDone, env, j) <==> runs[j].status == ERROR
    {
    }
    if k: nat :| k < |wanted| && AllLive(env, k) && env(k).ctx.Canceled? {
      assert |runs| < |wanted| && k == |runs|;
    }
  }

  /** No node outside the request is reported, and none of the original nodes outside it is changed. */
  ghost predicate OnlyRequested(nodes0: seq<Node>, requested: seq<string>, runs: seq<NodeRun>, nodes: seq<Node>) {
    && |nodes0| <= |nodes|
    && (forall j :: 0 <= j < |runs| ==> runs[j].id in requested)
    && forall i :: 0 <= i < |nodes0| && nodes0[i].id !in requested ==> nodes[i] == nodes0[i]
  }

  /** So it is with a request. */
  lemma {:induction false} OutsideUntouched(nodes0: seq<Node>, edges0: seq<Edge>, requested: seq<string>,
                                            topo: TopoResult, index: map<string, nat>, wanted: seq<string>,
                                            skipDone: bool, env: nat -> NodeEnv, stop: ContextState,
                                            runs: seq<NodeRun>, tally: (nat, nat, nat), nodes: seq<Node>)
    requires Planned(nodes0, edges0, requested, topo, wanted, index) && topo.Ordered? && requested != []
    requires Walked(nodes0, index, wanted, skipDone, env, stop, runs, tally, nodes)
    ensures true == OnlyRequested(nodes0, requested, runs, nodes)
  {
    forall j | 0 <= j < |wanted| ensures wanted[j] in requested { assert wanted[j] in wanted; }
    forall i | 0 <= i < |nodes0| && nodes0[i].id !in requested ensures nodes[i] == nodes0[i] {
      forall k | 0 <= k < |runs| ensures index[wanted[k]] != i {
        assert LastCarrier(nodes0, wanted[k], index[wanted[k]]);
      }
    }
  }

  function Tally(s: Summary): (nat, nat, nat) { (s.succeeded, s.failed, s.skipped) }

  /** What is settled before the loop: the order exists exactly when the execution arcs have no cycle, it is the
      dictionary-least topological order, and wanted is its selected part. */
  ghost predicate Planned(nodes: seq<Node>, edges: seq<Edge>, requested: seq<string>, topo: TopoResult,
                          wanted: seq<string>, index: map<string, nat>)
  {
    && (topo.Ordered? <==> Acyclic(OrderedArcs(nodes, edges)))
    && Indexes(index, nodes)
    && (topo.Ordered? ==>
          && LeastTopologicalOrder(NodeIds(nodes), OrderedArcs(nodes, edges), topo.order)
          && TiesBySmaller(NodeIds(nodes), OrderedArcs(nodes, edges), topo.order)
          && Picks(topo.order, nodes, index, requested, wanted)
          && SelectedAre(topo.order, nodes, index, requested, wanted))
  }

  // ---- the document a run leaves ----

  /** The document once node i has been reported: unchanged when skipped, otherwise with the node's data and what the
      outcome produced. */
  function NodeDone(doc: Document, i: nat, status: string, env: NodeEnv): Document {
    if status == SKIPPED || i >= |doc.nodes| then doc
    else Document(WithData(doc.nodes, i, DataAfter(doc.nodes[i].data, env)) + ProducedNodes(env),
                  doc.edges + ProducedEdges(doc.nodes[i].id, env))
  }

  /** ...and once all of these have been. */
  function DocAfter(doc: Document, index: map<string, nat>, runs: seq<NodeRun>, env: nat -> NodeEnv): Document {
    if runs == [] then doc else
      var n := |runs| - 1;
      var before := DocAfter(doc, index, runs[..n], env);
      if runs[n].id in index then NodeDone(before, index[runs[n].id], runs[n].status, env(n)) else before
  }

  lemma {:induction false} DocNext(doc: Document, index: map<string, nat>, runs: seq<NodeRun>, env: nat -> NodeEnv,
                                   r: NodeRun)
    requires r.id in index
    ensures DocAfter(doc, index, runs + [r], env) ==
              NodeDone(DocAfter(doc, index, runs, env), index[r.id], r.status, env(|runs|))
  {
    assert (runs + [r])[..|runs|] == runs;
  }

  // ---- the rate-limited saver ----

  /** One requestSave: what it met and the document in memory at the time. */
  datatype Attempt = Attempt(env: SaveEnv, doc: Document)

  /** Save is called and works: the interval since the last save has passed, or there was none. */
  predicate Lands(saved: seq<Attempt>, a: Attempt, minimum: int) {
    a.env.ok && (saved == [] || a.env.checkedAt - saved[|saved| - 1].env.doneAt >= minimum)
  }

  /** The attempts that reached the disk. */
  ghost function Landed(attempts: seq<Attempt>, minimum: int): seq<Attempt> {
    if attempts == [] then []
    else
      var saved, a := Landed(attempts[..|attempts| - 1], minimum), attempts[|attempts| - 1];
      if Lands(saved, a, minimum) then saved + [a] else saved
  }

  /** The last attempt did not reach the disk. */
  ghost predicate Unsaved(attempts: seq<Attempt>, minimum: int) {
    attempts != [] && !Lands(Landed(attempts[..|attempts| - 1], minimum), attempts[|attempts| - 1], minimum)
  }

  /** The disk, the time of the last save and the dirty flag are those that the attempts since loading call for. */
  ghost predicate SavedAs(loaded: Document, attempts: seq<Attempt>, minimum: int, disk: Document, last: Option<int>,
                          dirty: bool)
  {
    var saved := Landed(attempts, minimum);
    && disk == OnDisk(loaded, attempts, minimum)
    && last == (if saved == [] then None else Some(saved[|saved| - 1].env.doneAt))
    && dirty == Unsaved(attempts, minimum)
  }

  /** What the attempts have left on the disk. */
  ghost function OnDisk(loaded: Document, attempts: seq<Attempt>, minimum: int): Document {
    var saved := Landed(attempts, minimum);
    if saved == [] then loaded else saved[|saved| - 1].doc
  }

  function InMemory(loaded: Document, attempts: seq<Attempt>): Document {
    if attempts == [] then loaded else attempts[|attempts| - 1].doc
  }

  /** Unless the last attempt failed or came too early, the disk holds the document in memory. */
  lemma {:induction false} SavedMeansCurrent(loaded: Document, attempts: seq<Attempt>, minimum: int, disk: Document,
                                             last: Option<int>, dirty: bool)
    requires SavedAs(loaded, attempts, minimum, disk, last, dirty) && !dirty
    ensures disk == InMemory(loaded, attempts)
  {
  }

  lemma {:induction false} LandedNext(attempts: seq<Attempt>, a: Attempt, minimum: int)
    ensures var saved := Landed(attempts, minimum);
            && Landed(attempts + [a], minimum) == (if Lands(saved, a, minimum) then saved + [a] else saved)
            && Unsaved(attempts + [a], minimum) == !Lands(saved, a, minimum)
  {
    assert (attempts + [a])[..|attempts|] == attempts;
  }

  /** One more attempt: it lands, or leaves the document dirty and everything else as it was. */
  lemma {:induction false} AttemptSaved(loaded: Document, attempts: seq<Attempt>, a: Attempt, minimum: int,
                                        disk: Document, last: Option<int>, dirty: bool)
    requires SavedAs(loaded, attempts, minimum, disk, last, dirty)
    ensures if a.env.ok && (last.None? || a.env.checkedAt - last.value >= minimum)
            then true == SavedAs(loaded, attempts + [a], minimum, a.doc, Some(a.env.doneAt), false)
            else true == SavedAs(loaded, attempts + [a], minimum, disk, last, true)
    ensures InMemory(loaded, attempts + [a]) == a.doc
  {
    LandedNext(attempts, a, minimum);
  }

  /** Between the end of one intermediate save and the test that admits the next, the interval passes. */
  ghost predicate Spaced(saved: seq<Attempt>, minimum: int) {
    forall j, k :: 0 <= j < k < |saved| && k == j + 1 ==> saved[k].env.checkedAt - saved[j].env.doneAt >= minimum
  }

  lemma {:induction false} LandedSpaced(attempts: seq<Attempt>, minimum: int)
    ensures Spaced(Landed(attempts, minimum), minimum)
    decreases |attempts|
  {
    if attempts != [] { LandedSpaced(attempts[..|attempts| - 1], minimum); }
  }

  function Envs(attempts: seq<Attempt>): (r: seq<SaveEnv>)
    ensures |r| == |attempts|
  {
    seq(|attempts|, i requires 0 <= i < |attempts| => attempts[i].env)
  }

  /** The attempts a reported node makes: none when skipped, otherwise one on each side of its work. */
  function NodeSaves(status: string, env: NodeEnv): seq<SaveEnv> {
    if status == SKIPPED then [] else [env.firstSave, env.secondSave]
  }

  function AllSaves(runs: seq<NodeRun>, env: nat -> NodeEnv): seq<SaveEnv> {
    if runs == [] then []
    else AllSaves(runs[..|runs| - 1], env) + NodeSaves(runs[|runs| - 1].status, env(|runs| - 1))
  }

  lemma {:induction false} AllSavesNext(runs: seq<NodeRun>, r: NodeRun, env: nat -> NodeEnv)
    ensures AllSaves(runs + [r], env) == AllSaves(runs, env) + NodeSaves(r.status, env(|runs|))
  {
    assert (runs + [r])[..|runs|] == runs;
  }

  lemma {:induction false} DataKeepsIds(nodes: seq<Node>, i: nat, d: NodeData)
    requires i < |nodes|
    ensures NodeIds(WithData(nodes, i, d)) == NodeIds(nodes)
  {
    var after := WithData(nodes, i, d);
    forall id ensures id in NodeIds(after) <==> id in NodeIds(nodes) {
      if id in NodeIds(nodes) {
        var k :| 0 <= k < |nodes| && nodes[k].id == id && id != "";
        assert after[k].id == id && after[k] in after;
      }
      if id in NodeIds(after) {
        var k :| 0 <= k < |after| && after[k].id == id && id != "";
        assert nodes[k].id == id && nodes[k] in nodes;
      }
    }
  }

  lemma {:induction false} DataKeepsFresh(nodes: seq<Node>, i: nat, d: NodeData, edges: seq<Edge>, x: string)
    requires i < |nodes| && FreshFor(nodes, edges, x)
    ensures FreshFor(WithData(nodes, i, d), edges, x)
  {
    assert nodes[i] in nodes;
  }

  /** What processing node i may do to the document: only that node's data, and at most one fresh result. */
  ghost predicate Touched(nodes: seq<Node>, edges: seq<Edge>, i: nat, newId: string, after: seq<Node>,
                          edges': seq<Edge>)
    requires i < |nodes|
  {
    && |nodes| <= |after| <= |nodes| + 1
    && (forall k :: 0 <= k < |nodes| && k != i ==> after[k] == nodes[k])
    && after[i].id == nodes[i].id && after[i].nodeType == nodes[i].nodeType
    && (|after| == |nodes| ==> edges' == edges)
    && (|after| == |nodes| + 1 ==>
          && after[|nodes|].id == newId
          && |edges'| == |edges| + 1 && edges'[..|edges|] == edges
          && edges'[|edges|].source == nodes[i].id && edges'[|edges|].target == newId
          && edges'[|edges|].kind == EDGE_FLOW)
  }

  lemma {:induction false} DataThenNodes(nodes: seq<Node>, i: nat, d: NodeData, more: seq<Node>)
    requires i < |nodes|
    ensures WithData(nodes + more, i, d) == WithData(nodes, i, d) + more && (more == [] ==> nodes + more == nodes)
  {
  }

  lemma {:induction false} TouchedBy(nodes: seq<Node>, edges: seq<Edge>, i: nat, d: NodeData, env: NodeEnv)
    requires i < |nodes|
    ensures true == Touched(nodes, edges, i, env.freshId, WithData(nodes, i, d) + ProducedNodes(env),
                            edges + ProducedEdges(nodes[i].id, env))
  {
  }

  /** Whatever processing a node may do, the order stays topological with the new node at its end. */
  lemma {:induction false} TouchedKeepsOrder(nodes: seq<Node>, edges: seq<Edge>, i: nat, d: NodeData, env: NodeEnv,
                                             order: seq<string>)
    requires i < |nodes| && nodes[i].id != "" && FreshFor(nodes, edges, env.freshId)
    requires TopologicalOrder(NodeIds(nodes), OrderedArcs(nodes, edges), order)
    ensures var after, edges' := WithData(nodes, i, d) + ProducedNodes(env), edges + ProducedEdges(nodes[i].id, env);
            true == TopologicalOrder(NodeIds(after), OrderedArcs(after, edges'), order + ProducedIds(env))
  {
    var same := WithData(nodes, i, d);
    assert nodes[i] in nodes;
    DataKeepsIds(nodes, i, d);
    DataKeepsFresh(nodes, i, d, edges, env.freshId);
    if Grows(env) {
      GrowKeepsOrder(same, edges, order, ProducedNodes(env)[0], ProducedEdges(nodes[i].id, env)[0]);
    } else {
      assert same + ProducedNodes(env) == same && edges + ProducedEdges(nodes[i].id, env) == edges;
      assert order + ProducedIds(env) == order;
    }
  }

  /** A processed node has the status its result calls for, only it and its result were touched, and the order holds. */
  lemma {:induction false} Processed(nodes: seq<Node>, edges: seq<Edge>, i: nat, skipDone: bool, env: NodeEnv,
                                     order: seq<string>, created: seq<string>, r: NodeRun, after: seq<Node>,
                                     edges': seq<Edge>, created': seq<string>)
    requires i < |nodes| && nodes[i].id != "" && FreshFor(nodes, edges, env.freshId)
    requires TopologicalOrder(NodeIds(nodes), OrderedArcs(nodes, edges), order + created)
    requires r.status == NodeVerdict(skipDone && nodes[i].data.status == DONE, env.outcome)
    requires if r.status == SKIPPED then after == nodes && edges' == edges && created' == created
             else && after == WithData(nodes, i, DataAfter(nodes[i].data, env)) + ProducedNodes(env)
                  && edges' == edges + ProducedEdges(nodes[i].id, env) && created' == created + ProducedIds(env)
    ensures true == Touched(nodes, edges, i, env.freshId, after, edges')
    ensures after[i].data.status == StatusAfter(r.status)
    ensures true == TopologicalOrder(NodeIds(after), OrderedArcs(after, edges'), order + created')
  {
    if r.status != SKIPPED {
      var d := DataAfter(nodes[i].data, env);
      TouchedBy(nodes, edges, i, d, env);
      TouchedKeepsOrder(nodes, edges, i, d, env, order + created);
      assert order + created + ProducedIds(env) == order + created';
    }
  }

  lemma {:induction false} EnvsTwice(before: seq<Attempt>, after: seq<Attempt>)
    requires |after| == |before| + 2 && after[..|before|] == before
    ensures before <= after
    ensures Envs(after) == Envs(before) + [after[|before|].env, after[|before| + 1].env]
  {
    assert forall k :: 0 <= k < |before| ==> after[k] == after[..|before|][k];
  }

  /** Between two iterations of the run loop: what has been reported, the document and the attempts to save. */
  ghost predicate Walking(doc0: Document, index: map<string, nat>, wanted: seq<string>, skipDone: bool,
                          env: nat -> NodeEnv, g: map<string, nat>, s: Summary, doc: Document, saves: seq<SaveEnv>)
  {
    && s.total == |wanted| && s.status == RUNNING && Balanced(s)
    && LoopState(doc0.nodes, index, wanted, s.nodes, skipDone, env, g, doc.nodes, doc.edges)
    && AllLive(env, |s.nodes|) && doc == DocAfter(doc0, index, s.nodes, env) && saves == AllSaves(s.nodes, env)
  }

  lemma {:induction false} WalkNext(doc0: Document, index: map<string, nat>, wanted: seq<string>, skipDone: bool,
                                    env: nat -> NodeEnv, g: map<string, nat>, s: Summary, doc: Document,
                                    saves: seq<SaveEnv>, r: NodeRun, g': map<string, nat>, doc': Document,
                                    saves': seq<SaveEnv>)
    requires Walking(doc0, index, wanted, skipDone, env, g, s, doc, saves) && env(|s.nodes|).ctx.Live?
    requires true == LoopState(doc0.nodes, index, wanted, s.nodes + [r], skipDone, env, g', doc'.nodes, doc'.edges)
    requires r.status in {DONE, ERROR, SKIPPED} && r.id in index
    requires doc' == NodeDone(doc, index[r.id], r.status, env(|s.nodes|))
    requires saves' == saves + NodeSaves(r.status, env(|s.nodes|))
    ensures true == Walking(doc0, index, wanted, skipDone, env, g', Report(s, r), doc', saves')
  {
    ReportBalanced(s, r);
    AllSavesNext(s.nodes, r, env);
    LiveNext(env, |s.nodes|);
    DocNext(doc0, index, s.nodes, env, r);
  }

  lemma {:induction false} WalkEnds(doc0: Document, index: map<string, nat>, wanted: seq<string>, skipDone: bool,
                                    env: nat -> NodeEnv, g: map<string, nat>, s: Summary, doc: Document,
                                    saves: seq<SaveEnv>, stop: ContextState)
    requires Walking(doc0, index, wanted, skipDone, env, g, s, doc, saves)
    requires if stop.Live? then |s.nodes| == |wanted| else |s.nodes| < |wanted| && env(|s.nodes|).ctx == stop
    ensures true == Walked(doc0.nodes, index, wanted, skipDone, env, stop, s.nodes, Tally(s), doc.nodes)
    ensures s.total == |wanted| && s.status == RUNNING && true == AllLive(env, |s.nodes|)
    ensures doc == DocAfter(doc0, index, s.nodes, env) && saves == AllSaves(s.nodes, env)
  {
  }

  class CanvasRun {
    var nodes: seq<Node>
    var edges: seq<Edge>
    var disk: Document
    var last: Option<int>
    var dirty: bool
    const minimum: int
    ghost const loaded: Document
    ghost var attempts: seq<Attempt>
    ghost var created: seq<string>

    /** Load followed by newRateLimitedSaver. */
    constructor (stored: Document, interval: int)
      ensures nodes == stored.nodes && edges == stored.edges && disk == stored && minimum == interval
      ensures last == None && !dirty && loaded == stored && attempts == [] && created == []
    {
      nodes, edges, disk, last, dirty, minimum := stored.nodes, stored.edges, stored, None, false, interval;
      loaded, attempts, created := stored, [], [];
    }

    /** The saver agrees with its attempts, and the last of them saw the document in memory. */
    ghost predicate SaverOk()
      reads this
    {
      true == SavedAs(loaded, attempts, minimum, disk, last, dirty)
      && InMemory(loaded, attempts) == Document(nodes, edges)
    }

    method RequestSave(env: SaveEnv)
      requires true == SavedAs(loaded, attempts, minimum, disk, last, dirty)
      modifies `disk, `last, `dirty, `attempts
      ensures SaverOk() && attempts == old(attempts) + [Attempt(env, Document(nodes, edges))]
      ensures dirty ==> disk == old(disk) && last == old(last)
      ensures !dirty <==> env.ok && (old(last).None? || env.checkedAt - old(last).value >= minimum)
    {
      ghost var a := Attempt(env, Document(nodes, edges));
      AttemptSaved(loaded, attempts, a, minimum, disk, last, dirty);
      attempts := attempts + [a];
      dirty := true;
      if last.Some? && env.checkedAt - last.value < minimum { return; }
      if !env.ok { return; }
      disk := Document(nodes, edges);
      last := Some(env.doneAt);
      dirty := false;
    }

    method Flush(env: SaveEnv) returns (ok: bool)
      requires SaverOk()
      modifies `disk, `last, `dirty
      ensures ok ==> disk == Document(nodes, edges) && !dirty
      ensures !ok <==> old(dirty) && !env.ok
      ensures !ok ==> disk == old(disk)
    {
      if !dirty {
        SavedMeansCurrent(loaded, attempts, minimum, disk, last, dirty);
        return true;
      }
      if !env.ok { return false; }
      disk := Document(nodes, edges);
      last := Some(env.doneAt);
      dirty := false;
      ok := true;
    }

    method SetData(i: nat, d: NodeData)
      requires i < |nodes|
      modifies `nodes
      ensures nodes == old(nodes)[i := old(nodes)[i].(data := d)]
    {
      nodes := nodes[i := nodes[i].(data := d)];
    }

    /** AppendResultNode followed by AppendFlowEdge. */
    method AppendResult(gen: string, id: string, mediaType: string, mediaUrl: string)
      modifies `nodes, `edges, `created
      ensures nodes == old(nodes) + [ResultNode(id, mediaType, mediaUrl)] && created == old(created) + [id]
      ensures edges == old(edges) + [Edge("edge_" + gen + "_" + id, gen, id, EDGE_FLOW)]
    {
      nodes := nodes + [ResultNode(id, mediaType, mediaUrl)];
      edges := edges + [Edge("edge_" + gen + "_" + id, gen, id, EDGE_FLOW)];
      created := created + [id];
    }

    ghost predicate OrderOk(order: seq<string>)
      reads `nodes, `edges, `created
    {
      TopologicalOrder(NodeIds(nodes), OrderedArcs(nodes, edges), order + created)
    }

    /** A status write followed by requestSave. */
    method UpdateAndSave(i: nat, d: NodeData, env: SaveEnv)
      requires i < |nodes| && true == SavedAs(loaded, attempts, minimum, disk, last, dirty)
      modifies `nodes, `disk, `last, `dirty, `attempts
      ensures SaverOk() && attempts == old(attempts) + [Attempt(env, Document(nodes, edges))]
      ensures nodes == WithData(old(nodes), i, d)
    {
      SetData(i, d);
      RequestSave(env);
    }

    /** The success branch: result node, history entry, pending status. */
    method Succeed(i: nat, env: NodeEnv)
      requires i < |nodes| && env.outcome.Produced? && env.freshId != ""
      requires true == SavedAs(loaded, attempts, minimum, disk, last, dirty)
      modifies this
      ensures SaverOk() && attempts == old(attempts) + [Attempt(env.secondSave, Document(nodes, edges))]
      ensures nodes == WithData(old(nodes), i, Concluded(old(nodes)[i].data, env)) + ProducedNodes(env)
      ensures edges == old(edges) + ProducedEdges(old(nodes)[i].id, env) && created == old(created) + ProducedIds(env)
    {
      var Produced(mediaUrl, mediaType, useLLM) := env.outcome;
      var resultId := "";
      if mediaUrl != "" && mediaType != "" && !useLLM {
        resultId := env.freshId;
        AppendResult(nodes[i].id, resultId, mediaType, mediaUrl);
      }
      DataThenNodes(old(nodes), i, Concluded(old(nodes)[i].data, env), ProducedNodes(env));
      var entry := HistoryEntry(env.entryId, DONE, mediaUrl, if resultId == "" then [] else [resultId]);
      UpdateAndSave(i, MarkedPending(WithHistory(nodes[i].data, entry), env.endedAt), env.secondSave);
    }

    /** The write-back of a node already marked running, by what BuildParams and dispatch made of it. */
    method Conclude(i: nat, env: NodeEnv) returns (status: string)
      requires i < |nodes| && env.freshId != ""
      requires true == SavedAs(loaded, attempts, minimum, disk, last, dirty)
      modifies this
      ensures SaverOk() && attempts == old(attempts) + [Attempt(env.secondSave, Document(nodes, edges))]
      ensures nodes == WithData(old(nodes), i, Concluded(old(nodes)[i].data, env)) + ProducedNodes(env)
      ensures edges == old(edges) + ProducedEdges(old(nodes)[i].id, env) && created == old(created) + ProducedIds(env)
      ensures status == NodeVerdict(false, env.outcome)
    {
      match env.outcome
      case BuildFailed(msg) =>
        UpdateAndSave(i, MarkedError(nodes[i].data, msg, None, env.endedAt), env.secondSave);
        status := ERROR;
      case DispatchFailed(msg, params) =>
        var d := MarkedError(nodes[i].data, msg, params, env.endedAt);
        UpdateAndSave(i, WithHistory(d, HistoryEntry(env.entryId, ERROR, "", [])), env.secondSave);
        status := ERROR;
      case Produced(_, _, _) =>
        Succeed(i, env);
        status := DONE;
    }

    /** The loop body for one selected node: skipped, or its data, one new node and one edge as the outcome says. */
    method ProcessNode(id: string, i: nat, skipDone: bool, env: NodeEnv) returns (r: NodeRun)
      requires i < |nodes| && nodes[i].id == id && env.freshId != "" && SaverOk()
      modifies this
      ensures SaverOk() && old(attempts) <= attempts && Envs(attempts) == Envs(old(attempts)) + NodeSaves(r.status, env)
      ensures r.id == id && r.status == NodeVerdict(skipDone && old(nodes)[i].data.status == DONE, env.outcome)
      ensures if r.status == SKIPPED then unchanged(this)
              else && nodes == WithData(old(nodes), i, DataAfter(old(nodes)[i].data, env)) + ProducedNodes(env)
                   && edges == old(edges) + ProducedEdges(id, env) && created == old(created) + ProducedIds(env)
    {
      if skipDone && nodes[i].data.status == DONE { return NodeRun(id, SKIPPED); }
      UpdateAndSave(i, MarkedRunning(nodes[i].data, env.startedAt), env.firstSave);
      var status := Conclude(i, env);
      EnvsTwice(old(attempts), attempts);
      r := NodeRun(id, status);
    }

    /** One iteration for the next selected node. */
    method Step(ghost order: seq<string>, ghost nodes0: seq<Node>, ghost index: map<string, nat>, wanted: seq<string>,
                runs: seq<NodeRun>, skipDone: bool, env: nat -> NodeEnv, g: map<string, nat>)
      returns (r: NodeRun, g': map<string, nat>)
      requires SaverOk() && true == OrderOk(order)
      requires true == LoopState(nodes0, index, wanted, runs, skipDone, env, g, nodes, edges)
      requires NoDup(wanted) && |runs| < |wanted| && wanted[|runs|] != ""
      modifies this
      ensures SaverOk() && true == OrderOk(order)
      ensures Envs(attempts) == Envs(old(attempts)) + NodeSaves(r.status, env(|runs|)) && old(attempts) <= attempts
      ensures true == LoopState(nodes0, index, wanted, runs + [r], skipDone, env, g', nodes, edges)
      ensures r.status in {DONE, ERROR, SKIPPED} && r.id in index
      ensures Document(nodes, edges) == NodeDone(old(Document(nodes, edges)), index[r.id], r.status, env(|runs|))
    {
      var id := wanted[|runs|];
      NextLookup(nodes0, index, wanted, runs, skipDone, env, g, nodes, edges);
      var before := nodes;
      r := ProcessNode(id, g[id], skipDone, env(|runs|));
      Processed(before, old(edges), g[id], skipDone, env(|runs|), order, old(created), r, nodes, edges, created);
      g' := g;
      if |nodes| > |before| {
        var graph := NewGraph(Document(nodes, edges));
        g' := graph.byID;
      }
      LoopStep(nodes0, index, wanted, runs, skipDone, env, g, before, old(edges), r, g', nodes, edges);
    }

    /** ...and what it adds to the report. */
    method Advance(ghost order: seq<string>, ghost doc0: Document, ghost index: map<string, nat>, wanted: seq<string>,
                   s: Summary, skipDone: bool, env: nat -> NodeEnv, g: map<string, nat>)
      returns (s': Summary, g': map<string, nat>)
      requires SaverOk() && true == OrderOk(order) && |s.nodes| < |wanted| && env(|s.nodes|).ctx.Live?
      requires true == Walking(doc0, index, wanted, skipDone, env, g, s, Document(nodes, edges), Envs(attempts))
      requires true == NoDup(wanted) && wanted[|s.nodes|] != ""
      modifies this
      ensures SaverOk() && true == OrderOk(order) && |s'.nodes| == |s.nodes| + 1
      ensures true == Walking(doc0, index, wanted, skipDone, env, g', s', Document(nodes, edges), Envs(attempts))
    {
      ghost var doc, saves := Document(nodes, edges), Envs(attempts);
      var r;
      r, g' := Step(order, doc0.nodes, index, wanted, s.nodes, skipDone, env, g);
      WalkNext(doc0, index, wanted, skipDone, env, g, s, doc, saves, r, g', Document(nodes, edges), Envs(attempts));
      s' := Report(s, r);
    }

    /** The run loop: stops at the end of the selection or at the first dead context. */
    method Walk(ghost order: seq<string>, index: map<string, nat>, wanted: seq<string>, skipDone: bool,
                env: nat -> NodeEnv)
      returns (s: Summary, stop: ContextState)
      requires SaverOk() && true == OrderOk(order)
      requires true == LoopState(nodes, index, wanted, [], skipDone, env, index, nodes, edges)
      requires true == NoDup(wanted) && "" !in wanted && attempts == []
      modifies this
      ensures SaverOk() && true == OrderOk(order) && Envs(attempts) == AllSaves(s.nodes, env)
      ensures s.total == |wanted|
      ensures s.status == if stop.Live? then RUNNING else FinalStatus(stop, true, 0)
      ensures true == Walked(old(nodes), index, wanted, skipDone, env, stop, s.nodes, Tally(s), nodes)
      ensures true == AllLive(env, |s.nodes|)
      ensures Document(nodes, edges) == DocAfter(old(Document(nodes, edges)), index, s.nodes, env)
    {
      s, stop := Summary(RUNNING, |wanted|, 0, 0, 0, [], None), Live;
      var g := index;
      ghost var doc0 := Document(nodes, edges);
      for k := 0 to |wanted|
        invariant k == |s.nodes| && stop.Live? && SaverOk() && true == OrderOk(order)
        invariant true == Walking(doc0, index, wanted, skipDone, env, g, s, Document(nodes, edges), Envs(attempts))
      {
        if !env(k).ctx.Live? {
          stop := env(k).ctx;
          WalkEnds(doc0, index, wanted, skipDone, env, g, s, Document(nodes, edges), Envs(attempts), stop);
          s := s.(status := if stop.Canceled? then CANCELLED else ERROR);
          return;
        }
        s, g := Advance(order, doc0, index, wanted, s, skipDone, env, g);
      }
      WalkEnds(doc0, index, wanted, skipDone, env, g, s, Document(nodes, edges), Envs(attempts), Live);
    }

    /** Graph, order and selection, all computed once before the loop. */
    method Plan(requested: seq<string>, ghost skipDone: bool, ghost env: nat -> NodeEnv)
      returns (topo: TopoResult, wanted: seq<string>, index: map<string, nat>)
      requires created == [] && FreshIds(nodes, edges, env, 0)
      ensures true == Planned(nodes, edges, requested, topo, wanted, index)
      ensures topo.Ordered? ==> true == OrderOk(topo.order) && true == NoDup(wanted) && "" !in wanted
      ensures topo.Ordered? ==> true == LoopState(nodes, index, wanted, [], skipDone, env, index, nodes, edges)
    {
      var graph := NewGraph(Document(nodes, edges));
      topo := TopoOrder(Document(nodes, edges), graph);
      wanted, index := [], graph.byID;
      if topo.Ordered? {
        wanted := SelectNodes(topo.order, nodes, index, requested);
        BeginRun(NodeIds(nodes), OrderedArcs(nodes, edges), topo.order, nodes, index, requested, wanted);
        assert topo.order + created == topo.order;
      }
    }

    /** The final flush and the status it leaves. */
    method Finish(s: Summary, stop: ContextState, flushEnv: SaveEnv) returns (r: Summary, flushed: bool)
      requires SaverOk() && s.status == if stop.Live? then RUNNING else FinalStatus(stop, true, 0)
      modifies `disk, `last, `dirty
      ensures disk == if flushed then Document(nodes, edges) else OnDisk(loaded, attempts, minimum)
      ensures !flushed <==> Unsaved(attempts, minimum) && !flushEnv.ok
      ensures r == s.(status := FinalStatus(stop, flushed, s.failed))
    {
      flushed := Flush(flushEnv);
      r := s;
      if !flushed && r.status == RUNNING { r := r.(status := ERROR); }
      if r.status == RUNNING { r := r.(status := if r.failed > 0 then ERROR else DONE); }
    }

    /** The loop and the final flush. */
    method WalkAndFlush(ghost order: seq<string>, index: map<string, nat>, wanted: seq<string>, skipDone: bool,
                        env: nat -> NodeEnv, flushEnv: SaveEnv)
      returns (s: Summary, stop: ContextState, flushed: bool)
      requires SaverOk() && true == OrderOk(order)
      requires true == LoopState(nodes, index, wanted, [], skipDone, env, index, nodes, edges)
      requires true == NoDup(wanted) && "" !in wanted && attempts == []
      modifies this
      ensures true == Walked(old(nodes), index, wanted, skipDone, env, stop, s.nodes, Tally(s), nodes)
      ensures s.total == |wanted| && s.status == FinalStatus(stop, flushed, s.failed)
      ensures true == AllLive(env, |s.nodes|) && true == OrderOk(order)
      ensures Document(nodes, edges) == DocAfter(old(Document(nodes, edges)), index, s.nodes, env)
      ensures Envs(attempts) == AllSaves(s.nodes, env) && true == Spaced(Landed(attempts, minimum), minimum)
      ensures !flushed <==> Unsaved(attempts, minimum) && !flushEnv.ok
      ensures disk == if flushed then Document(nodes, edges) else OnDisk(loaded, attempts, minimum)
    {
      s, stop := Walk(order, index, wanted, skipDone, env);
      LandedSpaced(attempts, minimum);
      s, flushed := Finish(s, stop, flushEnv);
    }

    /** runInternal after a successful Load. */
    method RunInternal(requested: seq<string>, skipDone: bool, env: nat -> NodeEnv, flushEnv: SaveEnv)
      returns (s: Summary, stop: ContextState, flushed: bool, topo: TopoResult, wanted: seq<string>,
               index: map<string, nat>)
      requires SaverOk() && attempts == [] && created == [] && FreshIds(nodes, edges, env, 0)
      modifies this
      ensures true == Planned(old(nodes), old(edges), requested, topo, wanted, index)
      ensures topo.Cycle? ==> s.status == ERROR && s.nodes == [] && unchanged(this)
      ensures topo.Ordered? ==> true == Walked(old(nodes), index, wanted, skipDone, env, stop, s.nodes, Tally(s), nodes)
      ensures topo.Ordered? ==> s.total == |wanted| && s.status == FinalStatus(stop, flushed, s.failed)
      ensures topo.Ordered? ==> true == AllLive(env, |s.nodes|)
      ensures topo.Ordered? && requested != [] ==> true == OnlyRequested(old(nodes), requested, s.nodes, nodes)
      ensures topo.Ordered? ==> Document(nodes, edges) == DocAfter(old(Document(nodes, edges)), index, s.nodes, env)
      ensures topo.Ordered? ==> true == OrderOk(topo.order) && Envs(attempts) == AllSaves(s.nodes, env)
      ensures true == Spaced(Landed(attempts, minimum), minimum)
      ensures topo.Ordered? ==>
                && (!flushed <==> Unsaved(attempts, minimum) && !flushEnv.ok)
                && disk == if flushed then Document(nodes, edges) else OnDisk(loaded, attempts, minimum)
    {
      topo, wanted, index := Plan(requested, skipDone, env);
      stop, flushed := Live, false;
      if topo.Cycle? { s := Summary(ERROR, 0, 0, 0, 0, [], None); return; }
      s, stop, flushed := WalkAndFlush(topo.order, index, wanted, skipDone, env, flushEnv);
      if requested != [] {
        OutsideUntouched(old(nodes), old(edges), requested, topo, index, wanted, skipDone, env, stop, s.nodes, Tally(s),
                         nodes);
      }
    }
  }
}
