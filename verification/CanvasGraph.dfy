/** The canvas document and its execution graph (pkg/canvas/document.go, pkg/canvas/graph.go). A contract
    `true == P(..)` says P(..); the comparison makes the verifier carry the predicate over whole. */
module CanvasGraph {
  import opened Base

  const EDGE_FLOW := "flow"
  const EDGE_REFERENCE := "reference"

  datatype Edge = Edge(id: string, source: string, target: string, kind: string)

  /** One entry of a gen node's data.generationHistory. */
  datatype HistoryEntry = HistoryEntry(id: string, status: string, mediaUrl: string, resultNodeIds: seq<string>)

  /** The keys of node.Data the executor reads or writes. */
  datatype NodeData = NodeData(
    status: string, generating: bool, error: Option<string>, lastErrorParams: Option<string>,
    startTime: Option<int>, endTime: Option<int>, genProgress: Option<int>,
    mediaUrl: string, history: seq<HistoryEntry>)

  datatype Node = Node(id: string, nodeType: string, data: NodeData)

  /** A nil entry of doc.Nodes is a node with an empty id, a nil edge one with empty endpoints:
      the source skips both in the same places. */
  datatype Document = Document(nodes: seq<Node>, edges: seq<Edge>)

  type Arc = (string, string)

  predicate IsExecutionEdge(e: Edge) {
    e.kind == EDGE_FLOW || e.kind == EDGE_REFERENCE || e.kind == ""
  }

  function NodeIds(nodes: seq<Node>): set<string> {
    set n | n in nodes && n.id != "" :: n.id
  }

  function ArcSet(edges: seq<Edge>, ids: set<string>): set<Arc> {
    set e | e in edges && IsExecutionEdge(e) && e.source in ids && e.target in ids :: (e.source, e.target)
  }

  /** An edge between two nodes orders them exactly when it is a flow, a reference or of no kind; any other edge
      changes nothing. */
  lemma {:induction false} EdgesThatOrder(edges: seq<Edge>, e: Edge, ids: set<string>)
    ensures ArcSet(edges + [e], ids) ==
              if e.kind in {"flow", "reference", ""} && e.source in ids && e.target in ids
              then ArcSet(edges, ids) + {(e.source, e.target)} else ArcSet(edges, ids)
  {
    assert forall x :: x in edges + [e] <==> x in edges || x == e;
  }

  // ---- graph theory: walks, cycles, topological orders ----

  ghost predicate IsWalk(arcs: set<Arc>, w: seq<string>) {
    |w| > 0 && forall i, j :: 0 <= i < j < |w| && j == i + 1 ==> (w[i], w[j]) in arcs
  }

  /** A cycle is a walk of at least one arc that returns to where it began. */
  ghost predicate IsCycle(arcs: set<Arc>, c: seq<string>) {
    |c| > 1 && IsWalk(arcs, c) && c[0] == c[|c| - 1]
  }

  ghost predicate CyclicWalkTo(arcs: set<Arc>, w: seq<string>, j: nat, x: string) {
    0 < j < |w| && IsWalk(arcs, w) && w[0] == w[j] && w[|w| - 1] == x
  }

  /** x lies on a cycle or can be reached from one. */
  ghost predicate BehindCycle(arcs: set<Arc>, x: string) {
    exists w, j: nat :: CyclicWalkTo(arcs, w, j, x)
  }

  /** A duplicate-free listing of all nodes in which every arc points forwards. */
  ghost predicate TopologicalOrder(ids: set<string>, arcs: set<Arc>, p: seq<string>) {
    && NoDup(p)
    && (set x | x in p) == ids
    && forall i, j :: 0 <= i < |p| && 0 <= j < |p| && (p[i], p[j]) in arcs ==> i < j
  }

  /** a comes no later than b in dictionary order over node ids. */
  ghost predicate LexNotAbove(a: seq<string>, b: seq<string>) {
    a == [] || (b != [] && (Less(a[0], b[0]) || (a[0] == b[0] && LexNotAbove(a[1..], b[1..]))))
  }

  predicate Available(ids: set<string>, arcs: set<Arc>, before: seq<string>, x: string) {
    x in ids && x !in before && forall a | a in arcs && a.1 == x :: a.0 in before
  }

  ghost predicate LeastAvailable(ids: set<string>, arcs: set<Arc>, before: seq<string>, x: string) {
    Available(ids, arcs, before, x) && forall y :: Available(ids, arcs, before, y) ==> NotAbove(x, y)
  }

  /** The greedy choice at every position: what popping a sorted ready list amounts to. */
  ghost predicate Greedy(ids: set<string>, arcs: set<Arc>, out: seq<string>) {
    forall i :: 0 <= i < |out| ==> LeastAvailable(ids, arcs, out[..i], out[i])
  }

  lemma {:induction false} DistinctFit(w: seq<string>, r: set<string>)
    requires NoDup(w) && forall x :: x in w ==> x in r
    ensures |w| <= |r|
  {
    if w != [] {
      var last := w[|w| - 1];
      DistinctFit(w[..|w| - 1], r - {last});
    }
  }

  ghost predicate HasPredecessorIn(arcs: set<Arc>, r: set<string>, x: string) {
    exists s :: s in r && (s, x) in arcs
  }

  lemma {:induction false} ExtendWalk(arcs: set<Arc>, s: string, w: seq<string>)
    requires IsWalk(arcs, w) && (s, w[0]) in arcs
    ensures IsWalk(arcs, [s] + w)
  {
    var longer := [s] + w;
    forall i | 0 <= i < |longer| - 1 ensures (longer[i], longer[i + 1]) in arcs {
      if i > 0 { assert longer[i] == w[i - 1] && longer[i + 1] == w[i - 1 + 1]; }
    }
  }

  /** Pigeonhole: walking backwards for ever inside a finite set revisits a node. */
  lemma {:induction false} WalkBackFindsCycle(arcs: set<Arc>, r: set<string>, w: seq<string>)
    requires forall x :: x in r ==> HasPredecessorIn(arcs, r, x)
    requires IsWalk(arcs, w) && NoDup(w) && forall x :: x in w ==> x in r
    ensures BehindCycle(arcs, w[|w| - 1])
    decreases |r| - |w|
  {
    DistinctFit(w, r);
    assert w[0] in w && HasPredecessorIn(arcs, r, w[0]);
    var s :| s in r && (s, w[0]) in arcs;
    ExtendWalk(arcs, s, w);
    var longer := [s] + w;
    if s in w {
      var j :| 0 <= j < |w| && w[j] == s;
      assert CyclicWalkTo(arcs, longer, j + 1, w[|w| - 1]);
    } else {
      DistinctFit(longer, r);
      WalkBackFindsCycle(arcs, r, longer);
    }
  }

  /** Everything upstream of a listed node is listed strictly earlier. */
  lemma {:induction false} UpstreamIsEarlier(ids: set<string>, arcs: set<Arc>, out: seq<string>, w: seq<string>, i: nat,
                                             j: nat, q: nat)
    requires Greedy(ids, arcs, out) && IsWalk(arcs, w)
    requires i < j < |w| && q < |out| && w[j] == out[q]
    ensures w[i] in out[..q]
    decreases j
  {
    assert LeastAvailable(ids, arcs, out[..q], out[q]);
    assert (w[j - 1], w[j - 1 + 1]) in arcs;
    var p :| 0 <= p < q && out[p] == w[j - 1];
    if i < j - 1 { UpstreamIsEarlier(ids, arcs, out, w, i, j - 1, p); }
  }

  lemma {:induction false} GreedyNoDup(ids: set<string>, arcs: set<Arc>, out: seq<string>)
    requires Greedy(ids, arcs, out)
    ensures NoDup(out)
  {
    forall i, j | 0 <= i < j < |out| ensures out[i] != out[j] {
      assert LeastAvailable(ids, arcs, out[..j], out[j]);
      assert out[..j][i] == out[i];
    }
  }

  lemma {:induction false} ListedNotBehindCycle(ids: set<string>, arcs: set<Arc>, out: seq<string>, x: string)
    requires Greedy(ids, arcs, out) && x in out
    ensures !BehindCycle(arcs, x)
  {
    if BehindCycle(arcs, x) {
      var w, j: nat :| CyclicWalkTo(arcs, w, j, x);
      NoCyclicWalk(ids, arcs, out, w, j);
    }
  }

  lemma {:induction false} NoCyclicWalk(ids: set<string>, arcs: set<Arc>, out: seq<string>, w: seq<string>, j: nat)
    requires Greedy(ids, arcs, out) && 0 < j < |w| && IsWalk(arcs, w) && w[|w| - 1] in out
    ensures w[0] != w[j]
  {
    var q :| 0 <= q < |out| && out[q] == w[|w| - 1];
    if j < |w| - 1 {
      UpstreamIsEarlier(ids, arcs, out, w, j, |w| - 1, q);
      q :| 0 <= q < |out| && out[q] == w[j];
    }
    UpstreamIsEarlier(ids, arcs, out, w, 0, j, q);
    GreedyNoDup(ids, arcs, out);
  }

  /** A greedy listing with nothing available is the complement of the nodes behind a cycle. */
  lemma {:induction false} ExhaustedGreedy(ids: set<string>, arcs: set<Arc>, out: seq<string>)
    requires Greedy(ids, arcs, out)
    requires forall a :: a in arcs ==> a.0 in ids && a.1 in ids
    requires forall x :: !Available(ids, arcs, out, x)
    ensures forall x :: x in ids && x !in out <==> x in ids && BehindCycle(arcs, x)
  {
    var r := set x | x in ids && x !in out;
    forall x | x in r ensures HasPredecessorIn(arcs, r, x) {
      assert !Available(ids, arcs, out, x);
      var a :| a in arcs && a.1 == x && a.0 !in out;
      assert a.0 in r && (a.0, x) in arcs;
    }
    forall x | x in ids ensures x !in out <==> BehindCycle(arcs, x) {
      if x in out { ListedNotBehindCycle(ids, arcs, out, x); }
      else { WalkBackFindsCycle(arcs, r, [x]); }
    }
  }

  /** A full greedy listing is a topological order. */
  lemma {:induction false} GreedyIsTopological(ids: set<string>, arcs: set<Arc>, out: seq<string>)
    requires Greedy(ids, arcs, out) && forall x :: x in ids ==> x in out
    ensures TopologicalOrder(ids, arcs, out)
  {
    GreedyNoDup(ids, arcs, out);
    forall x | x in out ensures x in ids {
      var i :| 0 <= i < |out| && out[i] == x;
      assert LeastAvailable(ids, arcs, out[..i], out[i]);
    }
    forall i, j | 0 <= i < |out| && 0 <= j < |out| && (out[i], out[j]) in arcs ensures i < j {
      assert LeastAvailable(ids, arcs, out[..j], out[j]);
      assert (out[i], out[j]).0 in out[..j];
      var k :| 0 <= k < j && out[k] == out[i];
    }
  }

  lemma {:induction false} TopologicalStepAvailable(ids: set<string>, arcs: set<Arc>, p: seq<string>, k: nat)
    requires TopologicalOrder(ids, arcs, p) && k < |p|
    requires forall a :: a in arcs ==> a.0 in ids && a.1 in ids
    ensures Available(ids, arcs, p[..k], p[k])
  {
    assert p[k] in (set x | x in p);
    forall a | a in arcs && a.1 == p[k] ensures a.0 in p[..k] {
      assert a.0 in (set x | x in p);
      var i :| 0 <= i < |p| && p[i] == a.0;
      assert (p[i], p[k]) in arcs;
      assert p[..k][i] == a.0;
    }
  }

  /** The greedy listing is dictionary-least among all topological orders. */
  lemma {:induction false} GreedyIsLeast(ids: set<string>, arcs: set<Arc>, out: seq<string>, p: seq<string>, k: nat)
    requires Greedy(ids, arcs, out) && TopologicalOrder(ids, arcs, p)
    requires forall a :: a in arcs ==> a.0 in ids && a.1 in ids
    requires |out| <= |p| && k <= |out| && out[..k] == p[..k]
    ensures LexNotAbove(out[k..], p[k..])
    decreases |out| - k
  {
    if k < |out| {
      assert LeastAvailable(ids, arcs, out[..k], out[k]);
      TopologicalStepAvailable(ids, arcs, p, k);
      assert NotAbove(out[k], p[k]);
      if out[k] == p[k] {
        assert out[..k + 1] == out[..k] + [out[k]] && p[..k + 1] == p[..k] + [p[k]];
        GreedyIsLeast(ids, arcs, out, p, k + 1);
        assert out[k..][1..] == out[k + 1..] && p[k..][1..] == p[k + 1..];
      }
    }
  }

  lemma {:induction false} SameSetSameLength(a: seq<string>, b: seq<string>)
    requires NoDup(a) && NoDup(b) && (set x | x in a) == (set x | x in b)
    ensures |a| == |b|
  {
    DistinctSize(a);
    DistinctSize(b);
  }

  lemma {:induction false} LexAntisymmetric(a: seq<string>, b: seq<string>)
    requires LexNotAbove(a, b) && LexNotAbove(b, a)
    ensures a == b
  {
    if a != [] && b != [] {
      if Less(a[0], b[0]) { LessAsymmetric(a[0], b[0]); }
      LexAntisymmetric(a[1..], b[1..]);
      assert a == [a[0]] + a[1..] && b == [b[0]] + b[1..];
    }
  }

  // ---- NewGraph ----

  /** byID maps an id to the position of its node in doc.Nodes, which is what the pointer identifies. */
  datatype Graph = Graph(byID: map<string, nat>, outgoing: map<string, seq<Edge>>, incoming: map<string, seq<Edge>>)

  function EdgesAt(m: map<string, seq<Edge>>, id: string): seq<Edge> { if id in m then m[id] else [] }

  function OutEdges(edges: seq<Edge>, ids: set<string>, id: string): seq<Edge> {
    if edges == [] then [] else
      var e := edges[|edges| - 1];
      OutEdges(edges[..|edges| - 1], ids, id) +
      if e.source == id && e.source in ids && e.target in ids then [e] else []
  }

  function InEdges(edges: seq<Edge>, ids: set<string>, id: string): seq<Edge> {
    if edges == [] then [] else
      var e := edges[|edges| - 1];
      InEdges(edges[..|edges| - 1], ids, id) +
      if e.target == id && e.source in ids && e.target in ids then [e] else []
  }

  ghost predicate LastCarrier(nodes: seq<Node>, id: string, i: nat) {
    i < |nodes| && nodes[i].id == id && forall k :: i < k < |nodes| ==> nodes[k].id != id
  }

  /** The index points each non-empty id at the last node carrying it. */
  ghost predicate Indexes(byID: map<string, nat>, nodes: seq<Node>) {
    byID.Keys == NodeIds(nodes) && forall id :: id in byID ==> LastCarrier(nodes, id, byID[id])
  }

  ghost predicate GraphOf(doc: Document, g: Graph) {
    && Indexes(g.byID, doc.nodes)
    && OutIndex(g.outgoing, doc.edges, NodeIds(doc.nodes))
    && InIndex(g.incoming, doc.edges, NodeIds(doc.nodes))
  }

  ghost predicate OutIndex(m: map<string, seq<Edge>>, edges: seq<Edge>, ids: set<string>) {
    forall id :: EdgesAt(m, id) == OutEdges(edges, ids, id)
  }

  ghost predicate InIndex(m: map<string, seq<Edge>>, edges: seq<Edge>, ids: set<string>) {
    forall id :: EdgesAt(m, id) == InEdges(edges, ids, id)
  }

  lemma {:induction false} EdgeIndexesExtend(o: map<string, seq<Edge>>, n: map<string, seq<Edge>>, edges: seq<Edge>,
                                             ids: set<string>, e: Edge)
    requires OutIndex(o, edges, ids) && InIndex(n, edges, ids)
    ensures e.source in ids && e.target in ids ==>
              && true == OutIndex(o[e.source := EdgesAt(o, e.source) + [e]], edges + [e], ids)
              && true == InIndex(n[e.target := EdgesAt(n, e.target) + [e]], edges + [e], ids)
    ensures !(e.source in ids && e.target in ids) ==>
              true == OutIndex(o, edges + [e], ids) && true == InIndex(n, edges + [e], ids)
  {
    assert (edges + [e])[..|edges|] == edges;
    forall id ensures OutEdges(edges + [e], ids, id) == OutEdges(edges, ids, id) +
      if e.source == id && e.source in ids && e.target in ids then [e] else []
    {
    }
    forall id ensures InEdges(edges + [e], ids, id) == InEdges(edges, ids, id) +
      if e.target == id && e.source in ids && e.target in ids then [e] else []
    {
    }
  }

  lemma {:induction false} IndexesExtend(byID: map<string, nat>, nodes: seq<Node>, n: Node)
    requires Indexes(byID, nodes)
    ensures Indexes(if n.id == "" then byID else byID[n.id := |nodes|], nodes + [n])
  {
    var more := nodes + [n];
    assert forall x :: x in more <==> x in nodes || x == n;
    var after := if n.id == "" then byID else byID[n.id := |nodes|];
    assert NodeIds(more) == NodeIds(nodes) + if n.id == "" then {} else {n.id};
    forall id | id in after ensures LastCarrier(more, id, after[id]) {
      if id != n.id { assert LastCarrier(nodes, id, byID[id]); }
    }
  }

  method IndexNodes(nodes: seq<Node>) returns (byID: map<string, nat>)
    ensures Indexes(byID, nodes)
  {
    byID := map[];
    for i := 0 to |nodes|
      invariant Indexes(byID, nodes[..i])
    {
      IndexesExtend(byID, nodes[..i], nodes[i]);
      assert nodes[..i + 1] == nodes[..i] + [nodes[i]];
      if nodes[i].id != "" { byID := byID[nodes[i].id := i]; }
    }
    assert nodes[..|nodes|] == nodes;
  }

  /** The first i edges have been entered in both adjacency maps. */
  ghost predicate EdgesIndexed(o: map<string, seq<Edge>>, n: map<string, seq<Edge>>, edges: seq<Edge>, i: nat,
                               ids: set<string>)
  {
    i <= |edges| && OutIndex(o, edges[..i], ids) && InIndex(n, edges[..i], ids)
  }

  lemma {:induction false} EdgesIndexedNext(o: map<string, seq<Edge>>, n: map<string, seq<Edge>>, edges: seq<Edge>,
                                            i: nat, ids: set<string>)
    requires i < |edges| && EdgesIndexed(o, n, edges, i, ids)
    ensures var e := edges[i];
            if e.source in ids && e.target in ids
            then true == EdgesIndexed(o[e.source := EdgesAt(o, e.source) + [e]],
                                      n[e.target := EdgesAt(n, e.target) + [e]], edges, i + 1, ids)
            else true == EdgesIndexed(o, n, edges, i + 1, ids)
  {
    EdgeIndexesExtend(o, n, edges[..i], ids, edges[i]);
    assert edges[..i + 1] == edges[..i] + [edges[i]];
  }

  lemma {:induction false} AllIndexed(doc: Document, g: Graph)
    requires Indexes(g.byID, doc.nodes)
    requires EdgesIndexed(g.outgoing, g.incoming, doc.edges, |doc.edges|, NodeIds(doc.nodes))
    ensures true == GraphOf(doc, g)
  {
    assert doc.edges[..|doc.edges|] == doc.edges;
  }

  method NewGraph(doc: Document) returns (g: Graph)
    ensures true == GraphOf(doc, g)
  {
    var byID := IndexNodes(doc.nodes);
    ghost var ids := NodeIds(doc.nodes);
    var outgoing: map<string, seq<Edge>>, incoming: map<string, seq<Edge>> := map[], map[];
    for i := 0 to |doc.edges|
      invariant true == EdgesIndexed(outgoing, incoming, doc.edges, i, ids)
    {
      var e := doc.edges[i];
      EdgesIndexedNext(outgoing, incoming, doc.edges, i, ids);
      if e.source in byID && e.target in byID {
        outgoing := outgoing[e.source := EdgesAt(outgoing, e.source) + [e]];
        incoming := incoming[e.target := EdgesAt(incoming, e.target) + [e]];
      }
    }
    g := Graph(byID, outgoing, incoming);
    AllIndexed(doc, g);
  }

  // ---- counting in-degrees, parallel edges included ----

  predicate Counts(e: Edge, ids: set<string>, t: string) {
    IsExecutionEdge(e) && e.source in ids && e.target in ids && e.target == t
  }

  /** The number of execution edges into t whose source is not yet done. */
  function Pending(edges: seq<Edge>, ids: set<string>, done: set<string>, t: string): nat {
    if edges == [] then 0 else
      var e := edges[|edges| - 1];
      Pending(edges[..|edges| - 1], ids, done, t) + if Counts(e, ids, t) && e.source !in done then 1 else 0
  }

  lemma {:induction false} PendingZero(edges: seq<Edge>, ids: set<string>, done: set<string>, t: string)
    ensures Pending(edges, ids, done, t) == 0 <==> forall a | a in ArcSet(edges, ids) && a.1 == t :: a.0 in done
  {
    if edges != [] {
      var e, front := edges[|edges| - 1], edges[..|edges| - 1];
      PendingZero(front, ids, done, t);
      assert forall x :: x in edges <==> x in front || x == e;
      assert ArcSet(front, ids) <= ArcSet(edges, ids);
      assert Counts(e, ids, t) ==> (e.source, t) in ArcSet(edges, ids);
      forall a | a in ArcSet(edges, ids) && a !in ArcSet(front, ids)
        ensures a == (e.source, e.target) && IsExecutionEdge(e)
      {
      }
    }
  }

  /** Finishing x removes exactly the execution edges out of x from every in-degree. */
  lemma {:induction false} PendingAfter(edges: seq<Edge>, ids: set<string>, done: set<string>, x: string, t: string)
    requires x !in done
    ensures Pending(edges, ids, done, t)
         == Pending(edges, ids, done + {x}, t) + Pending(OutEdges(edges, ids, x), ids, done, t)
  {
    if edges != [] {
      var e, front := edges[|edges| - 1], edges[..|edges| - 1];
      PendingAfter(front, ids, done, x, t);
      var o := OutEdges(edges, ids, x);
      if e.source == x && e.source in ids && e.target in ids {
        assert o == OutEdges(front, ids, x) + [e] && o[..|o| - 1] == OutEdges(front, ids, x);
      } else {
        assert o == OutEdges(front, ids, x);
      }
    }
  }

  lemma {:induction false} OutEdgesSources(edges: seq<Edge>, ids: set<string>, x: string)
    ensures forall e :: e in OutEdges(edges, ids, x) ==> e.source == x && x in ids && e.target in ids
  {
    if edges != [] { OutEdgesSources(edges[..|edges| - 1], ids, x); }
  }

  // ---- TopoOrder ----

  datatype TopoResult = Ordered(order: seq<string>) | Cycle(stuck: seq<string>)

  /** indeg holds, for every node, its pending in-degree plus what the edges in rest still owe it. */
  ghost predicate Tallies(doc: Document, ids: set<string>, indeg: map<string, int>, out: seq<string>, rest: seq<Edge>) {
    && indeg.Keys == ids
    && forall t :: t in ids ==>
         indeg[t] == Pending(doc.edges, ids, Elements(out), t) + Pending(rest, ids, {}, t)
  }

  ghost predicate ReadyIs(indeg: map<string, int>, out: seq<string>, ready: seq<string>) {
    NoDup(ready) && forall x :: x in ready <==> x in indeg && x !in out && indeg[x] == 0
  }

  /** The in-degree loop counts every execution edge between present nodes, parallel ones included. */
  method CountInDegrees(doc: Document, byID: map<string, nat>) returns (indeg: map<string, int>)
    requires byID.Keys == NodeIds(doc.nodes)
    ensures Tallies(doc, byID.Keys, indeg, [], [])
  {
    var ids := byID.Keys;
    indeg := map id | id in ids :: 0;
    for i := 0 to |doc.edges|
      invariant indeg.Keys == ids
      invariant forall t :: t in ids ==> indeg[t] == Pending(doc.edges[..i], ids, {}, t)
    {
      var e := doc.edges[i];
      assert doc.edges[..i + 1][..i] == doc.edges[..i];
      if IsExecutionEdge(e) && e.source in byID && e.target in byID {
        indeg := indeg[e.target := indeg[e.target] + 1];
      }
    }
    assert doc.edges[..|doc.edges|] == doc.edges && Elements([]) == {};
  }

  lemma {:induction false} ReadyAreAvailable(doc: Document, ids: set<string>, indeg: map<string, int>, out: seq<string>,
                                             ready: seq<string>)
    requires Tallies(doc, ids, indeg, out, []) && ReadyIs(indeg, out, ready)
    ensures forall x :: x in ready <==> Available(ids, ArcSet(doc.edges, ids), out, x)
  {
    forall x | x in ids ensures indeg[x] == 0 <==> forall a | a in ArcSet(doc.edges, ids) && a.1 == x :: a.0 in out {
      PendingZero(doc.edges, ids, Elements(out), x);
    }
  }

  lemma {:induction false} PendingConcat(a: seq<Edge>, b: seq<Edge>, ids: set<string>, done: set<string>, t: string)
    ensures Pending(a + b, ids, done, t) == Pending(a, ids, done, t) + Pending(b, ids, done, t)
  {
    if b == [] { assert a + b == a; } else {
      assert (a + b)[..|a + b| - 1] == a + b[..|b| - 1];
      PendingConcat(a, b[..|b| - 1], ids, done, t);
    }
  }

  /** Moving next to the output turns its out-edges from pending into owed. */
  lemma {:induction false} OwedByNext(doc: Document, ids: set<string>, indeg: map<string, int>, out: seq<string>,
                                      next: string)
    requires Tallies(doc, ids, indeg, out, []) && next !in out
    ensures Tallies(doc, ids, indeg, out + [next], OutEdges(doc.edges, ids, next))
  {
    var o := OutEdges(doc.edges, ids, next);
    OutEdgesSources(doc.edges, ids, next);
    assert Elements(out + [next]) == Elements(out) + {next};
    forall t | t in ids
      ensures Pending(doc.edges, ids, Elements(out), t) ==
                Pending(doc.edges, ids, Elements(out + [next]), t) + Pending(o, ids, {}, t)
    {
      PendingAfter(doc.edges, ids, Elements(out), next, t);
      PendingIgnores(o, ids, Elements(out), t);
    }
  }

  lemma {:induction false} PendingIgnores(edges: seq<Edge>, ids: set<string>, done: set<string>, t: string)
    requires forall e :: e in edges ==> e.source !in done
    ensures Pending(edges, ids, done, t) == Pending(edges, ids, {}, t)
  {
    if edges != [] { PendingIgnores(edges[..|edges| - 1], ids, done, t); }
  }

  lemma {:induction false} PayOne(doc: Document, ids: set<string>, indeg: map<string, int>, out: seq<string>, e: Edge,
                                  rest: seq<Edge>)
    requires Tallies(doc, ids, indeg, out, [e] + rest) && e.source in ids && e.target in ids
    ensures Tallies(doc, ids, if IsExecutionEdge(e) then indeg[e.target := indeg[e.target] - 1] else indeg, out, rest)
    ensures IsExecutionEdge(e) ==> indeg[e.target] >= 1
  {
    forall t | t in ids
      ensures Pending([e] + rest, ids, {}, t) == Pending(rest, ids, {}, t) + if Counts(e, ids, t) then 1 else 0
    {
      PendingConcat([e], rest, ids, {}, t);
      assert [e][..0] == [];
    }
  }

  /** Where the sort stands with done listed and the edges in owed still to be paid. */
  ghost predicate Relaxed(doc: Document, ids: set<string>, indeg: map<string, int>, done: seq<string>,
                          ready: seq<string>, owed: seq<Edge>)
  {
    && Tallies(doc, ids, indeg, done, owed) && ReadyIs(indeg, done, ready)
    && forall x :: x in done ==> x in indeg && indeg[x] == 0
  }

  lemma {:induction false} RelaxBegin(doc: Document, ids: set<string>, indeg: map<string, int>, out: seq<string>,
                                      next: string, ready: seq<string>)
    requires Relaxed(doc, ids, indeg, out, [next] + ready, []) && next in ids && next !in out && next !in ready
    ensures true == Relaxed(doc, ids, indeg, out + [next], ready, OutEdges(doc.edges, ids, next))
  {
    OwedByNext(doc, ids, indeg, out, next);
    assert ready == ([next] + ready)[1..];
    assert forall x :: x in [next] + ready <==> x == next || x in ready;
  }

  /** What paying edge e makes of the in-degrees and the ready list. */
  function Paid(indeg: map<string, int>, ready: seq<string>, e: Edge): (map<string, int>, seq<string>)
    requires e.target in indeg
  {
    if !IsExecutionEdge(e) then (indeg, ready) else
      var left := indeg[e.target] - 1;
      (indeg[e.target := left], if left == 0 then ready + [e.target] else ready)
  }

  lemma {:induction false} RelaxStep(doc: Document, ids: set<string>, indeg: map<string, int>, done: seq<string>,
                                     ready: seq<string>, es: seq<Edge>, k: nat)
    requires k < |es| && Relaxed(doc, ids, indeg, done, ready, es[k..]) && es[k].source in ids && es[k].target in ids
    ensures es[k].target in indeg
    ensures var (paid, ready') := Paid(indeg, ready, es[k]); true == Relaxed(doc, ids, paid, done, ready', es[k + 1..])
  {
    SliceHead(es, k);
    PayOne(doc, ids, indeg, done, es[k], es[k + 1..]);
  }

  lemma {:induction false} SliceHead<T>(s: seq<T>, k: nat)
    requires k < |s|
    ensures s[k..] == [s[k]] + s[k + 1..] && (k == 0 ==> s == [s[0]] + s[1..])
  {
  }

  /** The state of the inner loop after the first k edges. */
  function PaidAll(indeg: map<string, int>, ready: seq<string>, es: seq<Edge>,
                   k: nat): (r: (map<string, int>, seq<string>))
    requires k <= |es| && forall e :: e in es ==> e.target in indeg
    ensures r.0.Keys == indeg.Keys
  {
    if k == 0 then (indeg, ready) else
      var (paid, ready') := PaidAll(indeg, ready, es, k - 1);
      Paid(paid, ready', es[k - 1])
  }

  lemma {:induction false} RelaxAll(doc: Document, ids: set<string>, indeg: map<string, int>, done: seq<string>,
                                    ready: seq<string>, es: seq<Edge>, k: nat)
    requires Relaxed(doc, ids, indeg, done, ready, es) && k <= |es|
    requires forall e :: e in es ==> e.source in ids && e.target in ids
    ensures var (paid, ready') := PaidAll(indeg, ready, es, k); true == Relaxed(doc, ids, paid, done, ready', es[k..])
  {
    if k == 0 {
      assert es[0..] == es;
    } else {
      RelaxAll(doc, ids, indeg, done, ready, es, k - 1);
      var (paid, ready') := PaidAll(indeg, ready, es, k - 1);
      RelaxStep(doc, ids, paid, done, ready', es, k - 1);
    }
  }

  /** The inner loop over the edges out of a node: pays them and appends the targets that reach zero. */
  method PayAll(indeg0: map<string, int>, ready0: seq<string>, es: seq<Edge>)
    returns (indeg: map<string, int>, ready: seq<string>)
    requires forall e :: e in es ==> e.target in indeg0
    ensures (indeg, ready) == PaidAll(indeg0, ready0, es, |es|)
  {
    indeg, ready := indeg0, ready0;
    for k := 0 to |es|
      invariant (indeg, ready) == PaidAll(indeg0, ready0, es, k)
    {
      var e := es[k];
      if IsExecutionEdge(e) {
        indeg := indeg[e.target := indeg[e.target] - 1];
        if indeg[e.target] == 0 { ready := ready + [e.target]; }
      }
    }
  }

  /** One node listed: its out-edges are paid, and ready holds exactly the nodes with nothing left to wait for. */
  method Relax(ghost doc: Document, g: Graph, indeg0: map<string, int>, ready0: seq<string>, ghost out: seq<string>,
               next: string)
    returns (indeg: map<string, int>, ready: seq<string>)
    requires true == GraphOf(doc, g) && next in g.byID && next !in out && next !in ready0
    requires true == Relaxed(doc, g.byID.Keys, indeg0, out, [next] + ready0, [])
    ensures true == Relaxed(doc, g.byID.Keys, indeg, out + [next], ready, [])
  {
    ghost var ids := g.byID.Keys;
    OutEdgesSources(doc.edges, ids, next);
    RelaxBegin(doc, ids, indeg0, out, next, ready0);
    var es := EdgesAt(g.outgoing, next);
    indeg, ready := PayAll(indeg0, ready0, es);
    RelaxAll(doc, ids, indeg0, out + [next], ready0, es, |es|);
    assert es[|es|..] == [];
  }

  method SortedKeys(byID: map<string, nat>) returns (ids: seq<string>)
    ensures NoDup(ids) && Elements(ids) == byID.Keys && Sorted(ids)
  {
    ids := [];
    var left := byID.Keys;
    while left != {}
      invariant NoDup(ids) && Elements(ids) !! left && Elements(ids) + left == byID.Keys
      decreases left
    {
      var id :| id in left;
      ids, left := ids + [id], left - {id};
    }
    ids := SortKeepsNoDup(ids);
  }

  /** sort.Strings on distinct ids. */
  method SortKeepsNoDup(s: seq<string>) returns (r: seq<string>)
    requires NoDup(s)
    ensures r == Sort(s) && NoDup(r) && Elements(r) == Elements(s) && Sorted(r) && |r| == |s|
  {
    r := Sort(s);
    SortSorted(s);
    NoDupByMultiset(s, r);
    assert |multiset(r)| == |r| && |multiset(s)| == |s|;
    assert forall x :: x in r <==> x in multiset(r);
    assert forall x :: x in s <==> x in multiset(s);
  }

  lemma {:induction false} NoDupByMultiset(s: seq<string>, r: seq<string>)
    requires NoDup(s) && multiset(s) == multiset(r)
    ensures NoDup(r)
  {
    forall i, j | 0 <= i < j < |r| ensures r[i] != r[j] {
      if r[i] == r[j] {
        assert r == r[..i] + [r[i]] + r[i + 1..j] + [r[j]] + r[j + 1..];
        assert multiset(s)[r[i]] >= 2;
        OncePerMember(s, r[i]);
      }
    }
  }

  lemma {:induction false} OncePerMember(s: seq<string>, x: string)
    requires NoDup(s)
    ensures multiset(s)[x] <= 1
  {
    if s != [] {
      assert s == s[..|s| - 1] + [s[|s| - 1]];
      OncePerMember(s[..|s| - 1], x);
      if s[|s| - 1] == x { assert x !in multiset(s[..|s| - 1]); }
    }
  }

  /** What a successful TopoOrder promises. */
  ghost predicate LeastTopologicalOrder(ids: set<string>, arcs: set<Arc>, order: seq<string>) {
    && TopologicalOrder(ids, arcs, order)
    && forall p {:trigger LexNotAbove(order, p)} :: TopologicalOrder(ids, arcs, p) ==> LexNotAbove(order, p)
  }

  lemma {:induction false} FullGreedyIsLeastOrder(ids: set<string>, arcs: set<Arc>, out: seq<string>)
    requires Greedy(ids, arcs, out) && forall x :: x in ids ==> x in out
    requires forall a :: a in arcs ==> a.0 in ids && a.1 in ids
    ensures LeastTopologicalOrder(ids, arcs, out)
  {
    GreedyIsTopological(ids, arcs, out);
    forall p | TopologicalOrder(ids, arcs, p) ensures LexNotAbove(out, p) {
      SameSetSameLength(out, p);
      GreedyIsLeast(ids, arcs, out, p, 0);
      assert out[0..] == out && p[0..] == p;
    }
  }

  lemma {:induction false} GreedyExtend(ids: set<string>, arcs: set<Arc>, out: seq<string>, ready: seq<string>)
    requires Greedy(ids, arcs, out) && ready != [] && Sorted(ready)
    requires forall x :: x in ready <==> Available(ids, arcs, out, x)
    ensures Greedy(ids, arcs, out + [ready[0]])
  {
    var more := out + [ready[0]];
    assert LeastAvailable(ids, arcs, out, ready[0]);
    forall i | 0 <= i < |more| ensures LeastAvailable(ids, arcs, more[..i], more[i]) {
      assert more[..i] == out[..i];
      if i < |out| { assert LeastAvailable(ids, arcs, out[..i], out[i]); } else { assert out[..i] == out; }
    }
  }

  method InitialReady(keys: seq<string>, indeg: map<string, int>) returns (ready: seq<string>)
    requires NoDup(keys) && Elements(keys) == indeg.Keys
    ensures ReadyIs(indeg, [], ready)
  {
    ready := [];
    for i := 0 to |keys|
      invariant NoDup(ready) && forall x :: x in ready <==> x in keys[..i] && indeg[x] == 0
    {
      if indeg[keys[i]] == 0 { ready := ready + [keys[i]]; }
    }
    assert keys[..|keys|] == keys && forall x :: x in keys <==> x in Elements(keys);
  }

  /** Collects the ids whose in-degree never reached zero. */
  method StuckIds(keys: seq<string>, indeg: map<string, int>) returns (stuck: seq<string>)
    requires NoDup(keys) && Elements(keys) == indeg.Keys
    ensures NoDup(stuck) && Sorted(stuck) && forall x :: x in stuck <==> x in indeg && indeg[x] > 0
  {
    stuck := [];
    for i := 0 to |keys|
      invariant NoDup(stuck) && forall x :: x in stuck <==> x in keys[..i] && indeg[x] > 0
    {
      if indeg[keys[i]] > 0 { stuck := stuck + [keys[i]]; }
    }
    assert keys[..|keys|] == keys && forall x :: x in keys <==> x in Elements(keys);
    stuck := SortKeepsNoDup(stuck);
    assert forall x :: x in stuck <==> x in Elements(stuck);
  }

  lemma {:induction false} CycleFromBehind(arcs: set<Arc>, x: string)
    requires BehindCycle(arcs, x)
    ensures !Acyclic(arcs)
  {
    var w, j: nat :| CyclicWalkTo(arcs, w, j, x);
    var c := w[..j + 1];
    forall i | 0 <= i < |c| - 1 ensures (c[i], c[i + 1]) in arcs { assert c[i] == w[i] && c[i + 1] == w[i + 1]; }
    assert IsCycle(arcs, c);
  }

  lemma {:induction false} NoCycleWhenAllListed(ids: set<string>, arcs: set<Arc>, out: seq<string>)
    requires Greedy(ids, arcs, out) && forall x :: x in ids ==> x in out
    requires forall a :: a in arcs ==> a.0 in ids && a.1 in ids
    ensures Acyclic(arcs)
  {
    forall c | IsCycle(arcs, c) ensures false {
      var x := c[|c| - 1];
      assert (c[0], c[0 + 1]) in arcs;
      ListedNotBehindCycle(ids, arcs, out, x);
      assert CyclicWalkTo(arcs, c, |c| - 1, x);
    }
  }

  /** The first of the sorted ready nodes may be listed next. */
  lemma {:induction false} PickLeast(doc: Document, ids: set<string>, indeg: map<string, int>, out: seq<string>,
                                     ready: seq<string>)
    requires Greedy(ids, ArcSet(doc.edges, ids), out) && Relaxed(doc, ids, indeg, out, ready, [])
    requires ready != [] && Sorted(ready)
    ensures true == Greedy(ids, ArcSet(doc.edges, ids), out + [ready[0]])
    ensures true == Relaxed(doc, ids, indeg, out, [ready[0]] + ready[1..], [])
    ensures ready[0] in ids && ready[0] !in out && ready[0] !in ready[1..] && |out| < |ids|
  {
    var arcs := ArcSet(doc.edges, ids);
    ReadyAreAvailable(doc, ids, indeg, out, ready);
    GreedyExtend(ids, arcs, out, ready);
    SliceHead(ready, 0);
    ListedWithin(ids, arcs, out + [ready[0]]);
  }

  /** The main loop: pop the least ready node until none is left. */
  method Drain(doc: Document, g: Graph, indeg0: map<string, int>, ready0: seq<string>)
    returns (indeg: map<string, int>, out: seq<string>)
    requires GraphOf(doc, g)
    requires Tallies(doc, g.byID.Keys, indeg0, [], []) && ReadyIs(indeg0, [], ready0)
    ensures Greedy(g.byID.Keys, ArcSet(doc.edges, g.byID.Keys), out)
    ensures true == Relaxed(doc, g.byID.Keys, indeg, out, [], [])
  {
    ghost var ids, arcs := g.byID.Keys, ArcSet(doc.edges, g.byID.Keys);
    var ready := ready0;
    indeg, out := indeg0, [];
    while |ready| > 0
      invariant true == Greedy(ids, arcs, out)
      invariant true == Relaxed(doc, ids, indeg, out, ready, [])
      decreases |ids| - |out|
    {
      ready := SortReady(indeg, out, ready);
      var next := ready[0];
      PickLeast(doc, ids, indeg, out, ready);
      indeg, ready := Relax(doc, g, indeg, ready[1..], out, next);
      out := out + [next];
    }
    assert ready == [];
  }

  ghost predicate Acyclic(arcs: set<Arc>) { forall c :: !IsCycle(arcs, c) }

  ghost predicate StuckSet(ids: set<string>, arcs: set<Arc>, stuck: seq<string>) {
    && NoDup(stuck) && Sorted(stuck)
    && forall x :: x in stuck <==> x in ids && BehindCycle(arcs, x)
  }

  lemma {:induction false} DrainedWithout(doc: Document, ids: set<string>, indeg: map<string, int>, out: seq<string>)
    requires Greedy(ids, ArcSet(doc.edges, ids), out)
    requires Relaxed(doc, ids, indeg, out, [], [])
    ensures indeg.Keys == ids
    ensures forall x :: x in ids ==> (indeg[x] > 0 <==> x !in out)
    ensures forall x :: x in ids ==> (x !in out <==> BehindCycle(ArcSet(doc.edges, ids), x))
  {
    ReadyAreAvailable(doc, ids, indeg, out, []);
    ExhaustedGreedy(ids, ArcSet(doc.edges, ids), out);
    forall x | x in ids && x !in out ensures indeg[x] > 0 {
      assert indeg[x] == Pending(doc.edges, ids, Elements(out), x) + Pending([], ids, {}, x);
      assert x !in [];
    }
  }

  /** Whenever two nodes could come next, the one that comes is the smaller at the first difference of their ids. */
  ghost predicate TiesBySmaller(ids: set<string>, arcs: set<Arc>, order: seq<string>) {
    forall i, y :: 0 <= i < |order| && Available(ids, arcs, order[..i], y) && y != order[i] ==> Smaller(order[i], y)
  }

  lemma {:induction false} GreedyTakesSmaller(ids: set<string>, arcs: set<Arc>, out: seq<string>)
    requires Greedy(ids, arcs, out)
    ensures true == TiesBySmaller(ids, arcs, out)
  {
    forall i, y | 0 <= i < |out| && Available(ids, arcs, out[..i], y) && y != out[i] ensures Smaller(out[i], y) {
      assert LeastAvailable(ids, arcs, out[..i], out[i]);
      LessMeaning(out[i], y);
    }
  }

  /** For instance: two nodes without edges come in the order of their names, however the document lists them. */
  lemma {:induction false} TwoNodesExample(order: seq<string>)
    requires LeastTopologicalOrder({"a", "b"}, {}, order)
    ensures order == ["a", "b"]
  {
    var p := ["a", "b"];
    assert (set x | x in p) == {"a", "b"} && p[0] != p[1];
    assert TopologicalOrder({"a", "b"}, {}, p);
    assert LexNotAbove(order, p);
    assert SmallerAt("a", "b", 0);
    LessMeaning("a", "b");
    LessAsymmetric("a", "b");
    ListOfTwo(order, "a", "b");
  }

  lemma {:induction false} ListOfTwo(s: seq<string>, a: string, b: string)
    requires NoDup(s) && a != b && (set x | x in s) == {a, b}
    ensures s == [a, b] || s == [b, a]
  {
    DistinctSize(s);
    assert s[0] in (set x | x in s) && s[1] in (set x | x in s);
  }

  /** Kahn's algorithm with a sorted ready list. */
  method TopoOrder(doc: Document, g: Graph) returns (r: TopoResult)
    requires GraphOf(doc, g)
    ensures r.Ordered? <==> Acyclic(ArcSet(doc.edges, NodeIds(doc.nodes)))
    ensures r.Ordered? ==> LeastTopologicalOrder(NodeIds(doc.nodes), ArcSet(doc.edges, NodeIds(doc.nodes)), r.order)
    ensures r.Ordered? ==> TiesBySmaller(NodeIds(doc.nodes), ArcSet(doc.edges, NodeIds(doc.nodes)), r.order)
    ensures r.Cycle? ==> r.stuck != [] && StuckSet(NodeIds(doc.nodes), ArcSet(doc.edges, NodeIds(doc.nodes)), r.stuck)
  {
    ghost var ids, arcs := NodeIds(doc.nodes), ArcSet(doc.edges, NodeIds(doc.nodes));
    var indeg := CountInDegrees(doc, g.byID);
    var keys := SortedKeys(g.byID);
    var ready := InitialReady(keys, indeg);
    var out;
    indeg, out := Drain(doc, g, indeg, ready);
    ListedWithin(ids, arcs, out);
    DrainedWithout(doc, ids, indeg, out);
    assert forall x :: x in keys <==> x in Elements(keys);
    if |out| != |keys| {
      UnlistedExists(keys, out);
      var stuck := StuckIds(keys, indeg);
      assert stuck[0] in stuck;
      CycleFromBehind(arcs, stuck[0]);
      r := Cycle(stuck);
    } else {
      AllListed(keys, out);
      NoCycleWhenAllListed(ids, arcs, out);
      FullGreedyIsLeastOrder(ids, arcs, out);
      GreedyTakesSmaller(ids, arcs, out);
      r := Ordered(out);
    }
  }

  method SortReady(indeg: map<string, int>, ghost out: seq<string>, ready: seq<string>) returns (r: seq<string>)
    requires ReadyIs(indeg, out, ready)
    ensures ReadyIs(indeg, out, r) && Sorted(r) && |r| == |ready|
  {
    r := SortKeepsNoDup(ready);
    assert forall x :: x in r <==> x in Elements(r);
    assert forall x :: x in ready <==> x in Elements(ready);
  }

  lemma {:induction false} ListedWithin(ids: set<string>, arcs: set<Arc>, out: seq<string>)
    requires Greedy(ids, arcs, out)
    ensures NoDup(out) && Elements(out) <= ids && |out| <= |ids|
  {
    GreedyNoDup(ids, arcs, out);
    forall x | x in out ensures x in ids {
      var i :| 0 <= i < |out| && out[i] == x;
      assert LeastAvailable(ids, arcs, out[..i], out[i]);
    }
    DistinctFit(out, ids);
  }

  lemma {:induction false} UnlistedExists(keys: seq<string>, out: seq<string>)
    requires NoDup(keys) && NoDup(out) && |out| != |keys| && Elements(out) <= Elements(keys)
    ensures exists x :: x in keys && x !in out
  {
    if forall x :: x in keys ==> x in out {
      assert Elements(out) == Elements(keys);
      SameSetSameLength(keys, out);
    }
  }

  lemma {:induction false} AllListed(keys: seq<string>, out: seq<string>)
    requires NoDup(keys) && NoDup(out) && |out| == |keys| && Elements(out) <= Elements(keys)
    ensures forall x :: x in keys ==> x in out
  {
    if x :| x in keys && x !in out {
      DistinctSize(keys);
      assert forall y :: y in out ==> y in Elements(out);
      DistinctFit(out, Elements(keys) - {x});
    }
  }

  /** The order depends only on which ids and which arcs there are: not on how the document lists
      its edges, how often an arc is repeated, or the order in which a map is walked. */
  lemma {:induction false} OrderIsCanonical(ids: set<string>, arcs: set<Arc>, p: seq<string>, q: seq<string>)
    requires LeastTopologicalOrder(ids, arcs, p) && LeastTopologicalOrder(ids, arcs, q)
    ensures p == q
  {
    LexAntisymmetric(p, q);
  }
}
