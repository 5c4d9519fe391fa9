/** Pipeline execution with checkpoints: interrupted and resumed runs against straight ones
    (pkg/api/pipeline_runtime.go, pkg/pipeline/executor.go). Tools and skills are one function of the step and its
    input; saving a checkpoint always succeeds. */
module Pipeline {
  import opened Base

  datatype Result = Result(output: string, summary: string, artifacts: seq<string>, structured: Option<string>,
                           preview: Option<string>, items: seq<Result>, lineage: seq<string>)

  datatype Input = Input(artifacts: seq<string>, collections: map<string, seq<string>>, items: seq<Result>)

  /** Leaf stands for every step the executor runs as a whole: tools, skills, fan-out, fan-in, retry. */
  datatype Step = Leaf(name: string) | Batch(steps: Steps) | Checkpoint(step: Step)

  datatype Steps = Nil | Cons(head: Step, tail: Steps)

  const EMPTY := Result("", "", [], None, None, [], [])

  function Over<T>(a: seq<T>, b: seq<T>): seq<T> { if |b| > 0 then b else a }

  function OverOption<T>(a: Option<T>, b: Option<T>): Option<T> { if b.Some? then b else a }

  function Merge(a: Result, b: Result): Result {
    Result(Over(a.output, b.output), Over(a.summary, b.summary), Over(a.artifacts, b.artifacts),
           OverOption(a.structured, b.structured), OverOption(a.preview, b.preview), Over(a.items, b.items),
           a.lineage + b.lineage)
  }

  /** Merging results is associative and the empty result is its unit. */
  lemma {:induction false} MergeMonoid(a: Result, b: Result, c: Result)
    ensures Merge(Merge(a, b), c) == Merge(a, Merge(b, c))
    ensures Merge(EMPTY, a) == a && Merge(a, EMPTY) == a
  {
    assert (a.lineage + b.lineage) + c.lineage == a.lineage + (b.lineage + c.lineage);
  }

  /** InputFromResult. */
  function Next(previous: Input, r: Result): Input {
    Input(Over(previous.artifacts, r.artifacts), previous.collections, r.items)
  }

  // ---- straight execution ----

  type Executor = (string, Input) -> Option<Result>

  /** The leaf calls made, in order with their inputs, and the result; None is an error. */
  datatype Run = Run(trace: seq<(string, Input)>, outcome: Option<Result>)

  function Execute(leaf: Executor, s: Step, input: Input): Run
    decreases s
  {
    match s
    case Leaf(name) => Run([(name, input)], leaf(name, input))
    case Batch(steps) => ExecuteBatch(leaf, steps, input, EMPTY)
    case Checkpoint(inner) => Execute(leaf, inner, input)
  }

  /** From the middle of a batch: current and final are the loop's variables. */
  function ExecuteBatch(leaf: Executor, steps: Steps, current: Input, final: Result): Run
    decreases steps
  {
    match steps
    case Nil => Run([], Some(final))
    case Cons(head, tail) =>
      var r := Execute(leaf, head, current);
      if r.outcome.None? then r else
        var rest := ExecuteBatch(leaf, tail, Next(current, r.outcome.value), Merge(final, r.outcome.value));
        Run(r.trace + rest.trace, rest.outcome)
  }

  // ---- what a straight run comes to, told from its leaf calls alone ----

  /** What a call of the trace produced; nothing if it failed. */
  function ResultAt(leaf: Executor, call: (string, Input)): Result {
    if leaf(call.0, call.1).Some? then leaf(call.0, call.1).value else EMPTY
  }

  function ResultsOf(leaf: Executor, trace: seq<(string, Input)>): (r: seq<Result>)
    ensures |r| == |trace| && forall k :: 0 <= k < |r| ==> r[k] == ResultAt(leaf, trace[k])
  {
    seq(|trace|, k requires 0 <= k < |trace| => ResultAt(leaf, trace[k]))
  }

  /** x is the last of xs that is not empty, or the given one if all are. */
  ghost predicate LastGiven<T>(xs: seq<seq<T>>, none: seq<T>, x: seq<T>) {
    || (x == none && forall k :: 0 <= k < |xs| ==> xs[k] == [])
    || exists k :: 0 <= k < |xs| && LastAt(xs, k) && x == xs[k]
  }

  ghost predicate LastAt<T>(xs: seq<seq<T>>, k: nat)
    requires k < |xs|
  {
    xs[k] != [] && forall j :: k < j < |xs| ==> xs[j] == []
  }

  ghost predicate LastSome<T(!new)>(xs: seq<Option<T>>, x: Option<T>) {
    || (x == None && forall k :: 0 <= k < |xs| ==> xs[k] == None)
    || exists k :: 0 <= k < |xs| && LastSomeAt(xs, k) && x == xs[k]
  }

  ghost predicate LastSomeAt<T(!new)>(xs: seq<Option<T>>, k: nat)
    requires k < |xs|
  {
    xs[k].Some? && forall j :: k < j < |xs| ==> xs[j] == None
  }

  function Outputs(rs: seq<Result>): seq<string> { seq(|rs|, k requires 0 <= k < |rs| => rs[k].output) }
  function Summaries(rs: seq<Result>): seq<string> { seq(|rs|, k requires 0 <= k < |rs| => rs[k].summary) }
  function Artifacts(rs: seq<Result>): seq<seq<string>> { seq(|rs|, k requires 0 <= k < |rs| => rs[k].artifacts) }
  function Items(rs: seq<Result>): seq<seq<Result>> { seq(|rs|, k requires 0 <= k < |rs| => rs[k].items) }
  function Structures(rs: seq<Result>): seq<Option<string>> { seq(|rs|, k requires 0 <= k < |rs| => rs[k].structured) }
  function Previews(rs: seq<Result>): seq<Option<string>> { seq(|rs|, k requires 0 <= k < |rs| => rs[k].preview) }

  function AllEdges(rs: seq<Result>): seq<string> {
    if rs == [] then [] else AllEdges(rs[..|rs| - 1]) + rs[|rs| - 1].lineage
  }

  /** Every field of r is that of the last of these results that has one; the lineage is all of theirs in order. */
  ghost predicate LastOfEach(rs: seq<Result>, r: Result) {
    && LastGiven(Outputs(rs), "", r.output) && LastGiven(Summaries(rs), "", r.summary)
    && LastGiven(Artifacts(rs), [], r.artifacts) && LastGiven(Items(rs), [], r.items)
    && LastSome(Structures(rs), r.structured) && LastSome(Previews(rs), r.preview)
    && r.lineage == AllEdges(rs)
  }

  /** The artifacts each call is given are those of the latest earlier call that produced any, else the input's. */
  ghost predicate Fed(leaf: Executor, input: Input, trace: seq<(string, Input)>) {
    forall k :: 0 <= k < |trace| ==> FedAt(leaf, input, trace, k)
  }

  ghost predicate FedAt(leaf: Executor, input: Input, trace: seq<(string, Input)>, k: nat)
    requires k < |trace|
  {
    && trace[k].1.collections == input.collections
    && LastGiven(Artifacts(ResultsOf(leaf, trace[..k])), input.artifacts, trace[k].1.artifacts)
  }

  /** Only the last call may have failed, and exactly then the run failed. */
  ghost predicate Succeeded(leaf: Executor, r: Run) {
    && (forall k :: 0 <= k < |r.trace| - 1 ==> leaf(r.trace[k].0, r.trace[k].1).Some?)
    && (r.outcome.None? <==>
          r.trace != [] && leaf(r.trace[|r.trace| - 1].0, r.trace[|r.trace| - 1].1).None?)
  }

  lemma {:induction false} LastGivenConcat<T>(xs: seq<seq<T>>, ys: seq<seq<T>>, none: seq<T>, a: seq<T>, b: seq<T>)
    requires LastGiven(xs, none, a) && LastGiven(ys, a, b)
    ensures LastGiven(xs + ys, none, b)
  {
    var zs := xs + ys;
    if k :| 0 <= k < |ys| && LastAt(ys, k) && b == ys[k] {
      assert LastAt(zs, |xs| + k) && zs[|xs| + k] == b;
    } else if k :| 0 <= k < |xs| && LastAt(xs, k) && a == xs[k] {
      assert LastAt(zs, k) && zs[k] == b;
    }
  }

  lemma {:induction false} LastSomeConcat<T(!new)>(xs: seq<Option<T>>, ys: seq<Option<T>>, a: Option<T>, b: Option<T>)
    requires LastSome(xs, a) && LastSome(ys, b)
    ensures LastSome(xs + ys, OverOption(a, b))
  {
    var zs := xs + ys;
    if k :| 0 <= k < |ys| && LastSomeAt(ys, k) && b == ys[k] {
      assert LastSomeAt(zs, |xs| + k) && zs[|xs| + k] == b;
    } else if k :| 0 <= k < |xs| && LastSomeAt(xs, k) && a == xs[k] {
      assert LastSomeAt(zs, k) && zs[k] == a;
    }
  }

  /** What is last over nothing is last over a. */
  lemma {:induction false} LastGivenOver<T>(ys: seq<seq<T>>, a: seq<T>, b: seq<T>)
    requires LastGiven(ys, [], b)
    ensures LastGiven(ys, a, if b != [] then b else a)
  {
  }

  lemma {:induction false} LastOfEachConcat(rs: seq<Result>, a: Result, qs: seq<Result>, b: Result)
    requires LastOfEach(rs, a) && LastOfEach(qs, b)
    ensures LastOfEach(rs + qs, Merge(a, b))
  {
    assert Outputs(rs + qs) == Outputs(rs) + Outputs(qs) && Summaries(rs + qs) == Summaries(rs) + Summaries(qs);
    assert Artifacts(rs + qs) == Artifacts(rs) + Artifacts(qs) && Items(rs + qs) == Items(rs) + Items(qs);
    assert Structures(rs + qs) == Structures(rs) + Structures(qs) && Previews(rs + qs) == Previews(rs) + Previews(qs);
    FieldOver(Outputs(rs), Outputs(qs), a.output, b.output);
    FieldOver(Summaries(rs), Summaries(qs), a.summary, b.summary);
    FieldOver(Artifacts(rs), Artifacts(qs), a.artifacts, b.artifacts);
    FieldOver(Items(rs), Items(qs), a.items, b.items);
    LastSomeConcat(Structures(rs), Structures(qs), a.structured, b.structured);
    LastSomeConcat(Previews(rs), Previews(qs), a.preview, b.preview);
    AllEdgesConcat(rs, qs);
  }

  lemma {:induction false} FieldOver<T>(xs: seq<seq<T>>, ys: seq<seq<T>>, a: seq<T>, b: seq<T>)
    requires LastGiven(xs, [], a) && LastGiven(ys, [], b)
    ensures LastGiven(xs + ys, [], Over(a, b))
  {
    LastGivenOver(ys, a, b);
    LastGivenConcat(xs, ys, [], a, Over(a, b));
  }

  lemma {:induction false} AllEdgesConcat(rs: seq<Result>, qs: seq<Result>)
    ensures AllEdges(rs + qs) == AllEdges(rs) + AllEdges(qs)
  {
    if qs == [] {
      assert rs + qs == rs;
    } else {
      assert (rs + qs)[..|rs + qs| - 1] == rs + qs[..|qs| - 1];
      AllEdgesConcat(rs, qs[..|qs| - 1]);
    }
  }

  lemma {:induction false} NothingIsEmpty()
    ensures LastOfEach([], EMPTY)
  {
  }

  /** A run told from its leaf calls: which call may have failed, what each was given, and, with the results before it,
      what it comes to. */
  ghost predicate Explained(leaf: Executor, input: Input, before: seq<Result>, r: Run) {
    && Succeeded(leaf, r) && Fed(leaf, input, r.trace)
    && (r.outcome.Some? ==> LastOfEach(before + ResultsOf(leaf, r.trace), r.outcome.value))
  }

  /** A straight run: the output is that of the last leaf with a non-empty one, and likewise the other fields; each leaf
      is given the artifacts of the latest earlier leaf that produced any; only the last call of a run may fail. */
  lemma {:induction false} StraightMeaning(leaf: Executor, s: Step, input: Input)
    ensures true == Explained(leaf, input, [], Execute(leaf, s, input))
    decreases s
  {
    match s
    case Leaf(name) => OneLeaf(leaf, name, input);
    case Batch(steps) =>
      NothingIsEmpty();
      StraightMeaningBatch(leaf, steps, input, EMPTY, []);
    case Checkpoint(inner) => StraightMeaning(leaf, inner, input);
  }

  lemma {:induction false} OneLeaf(leaf: Executor, name: string, input: Input)
    ensures true == Explained(leaf, input, [], Execute(leaf, Leaf(name), input))
  {
    var r := Execute(leaf, Leaf(name), input);
    assert r.trace[..0] == [] && FedAt(leaf, input, r.trace, 0);
    if r.outcome.Some? {
      var x := r.outcome.value;
      assert [] + ResultsOf(leaf, r.trace) == [x];
      JustOne(x);
    }
  }

  lemma {:induction false} JustOne(x: Result)
    ensures LastOfEach([x], x)
  {
    assert [x][..0] == [] && AllEdges([x]) == [] + x.lineage;
    assert x.output != "" ==> LastAt(Outputs([x]), 0);
    assert x.summary != "" ==> LastAt(Summaries([x]), 0);
    assert x.artifacts != [] ==> LastAt(Artifacts([x]), 0);
    assert x.items != [] ==> LastAt(Items([x]), 0);
    assert x.structured.Some? ==> LastSomeAt(Structures([x]), 0);
    assert x.preview.Some? ==> LastSomeAt(Previews([x]), 0);
  }

  lemma {:induction false} StraightMeaningBatch(leaf: Executor, steps: Steps, current: Input, final: Result,
                                                before: seq<Result>)
    requires LastOfEach(before, final)
    ensures true == Explained(leaf, current, before, ExecuteBatch(leaf, steps, current, final))
    decreases steps
  {
    match steps
    case Nil => assert before + ResultsOf(leaf, []) == before;
    case Cons(head, tail) =>
      var one := Execute(leaf, head, current);
      StraightMeaning(leaf, head, current);
      if one.outcome.None? {
        FailedFirst(leaf, current, before, one);
      } else {
        var x, rs := one.outcome.value, ResultsOf(leaf, one.trace);
        FirstResult(leaf, current, one);
        LastOfEachConcat(before, final, rs, x);
        StraightMeaningBatch(leaf, tail, Next(current, x), Merge(final, x), before + rs);
        ExplainedConcat(leaf, current, before, one, ExecuteBatch(leaf, tail, Next(current, x), Merge(final, x)));
      }
  }

  lemma {:induction false} FailedFirst(leaf: Executor, input: Input, before: seq<Result>, one: Run)
    requires Explained(leaf, input, [], one) && one.outcome.None?
    ensures true == Explained(leaf, input, before, one)
  {
  }

  lemma {:induction false} FirstResult(leaf: Executor, input: Input, one: Run)
    requires Explained(leaf, input, [], one) && one.outcome.Some?
    ensures true == LastOfEach(ResultsOf(leaf, one.trace), one.outcome.value)
  {
    assert [] + ResultsOf(leaf, one.trace) == ResultsOf(leaf, one.trace);
  }

  lemma {:induction false} ExplainedConcat(leaf: Executor, input: Input, before: seq<Result>, one: Run, rest: Run)
    requires Explained(leaf, input, [], one) && one.outcome.Some?
    requires Explained(leaf, Next(input, one.outcome.value), before + ResultsOf(leaf, one.trace), rest)
    ensures true == Explained(leaf, input, before, Run(one.trace + rest.trace, rest.outcome))
  {
    FirstResult(leaf, input, one);
    FedConcat(leaf, input, one.trace, one.outcome.value, rest.trace);
    SucceededConcat(leaf, one, rest);
    ResultsConcat(leaf, one.trace, rest.trace);
    assert (before + ResultsOf(leaf, one.trace)) + ResultsOf(leaf, rest.trace)
        == before + ResultsOf(leaf, one.trace + rest.trace);
  }

  lemma {:induction false} ResultsConcat(leaf: Executor, a: seq<(string, Input)>, b: seq<(string, Input)>)
    ensures ResultsOf(leaf, a + b) == ResultsOf(leaf, a) + ResultsOf(leaf, b)
  {
  }

  lemma {:induction false} SucceededConcat(leaf: Executor, a: Run, b: Run)
    requires Succeeded(leaf, a) && a.outcome.Some? && Succeeded(leaf, b)
    ensures Succeeded(leaf, Run(a.trace + b.trace, b.outcome))
  {
    var t := a.trace + b.trace;
    forall k | 0 <= k < |t| - 1 ensures leaf(t[k].0, t[k].1).Some? {
      assert k == |a.trace| - 1 ==> leaf(a.trace[k].0, a.trace[k].1).Some?;
    }
  }

  lemma {:induction false} FedConcat(leaf: Executor, input: Input, a: seq<(string, Input)>, x: Result,
                                     b: seq<(string, Input)>)
    requires Fed(leaf, input, a) && LastOfEach(ResultsOf(leaf, a), x) && Fed(leaf, Next(input, x), b)
    ensures Fed(leaf, input, a + b)
  {
    var t := a + b;
    forall k | 0 <= k < |t| ensures FedAt(leaf, input, t, k) {
      if k < |a| {
        assert FedAt(leaf, input, a, k) && t[..k] == a[..k];
      } else {
        var j := k - |a|;
        assert FedAt(leaf, Next(input, x), b, j) && t[..k] == a + b[..j];
        ResultsConcat(leaf, a, b[..j]);
        var xs, ys := Artifacts(ResultsOf(leaf, a)), Artifacts(ResultsOf(leaf, b[..j]));
        assert Artifacts(ResultsOf(leaf, t[..k])) == xs + ys;
        LastGivenOver(xs, input.artifacts, x.artifacts);
        LastGivenConcat(xs, ys, input.artifacts, Next(input, x).artifacts, b[j].1.artifacts);
      }
    }
  }

  predicate AllLeaves(steps: Steps) { steps.Cons? ==> steps.head.Leaf? && AllLeaves(steps.tail) }

  /** In a batch of leaves each is given exactly the items of the one before it, the first those of the input. */
  lemma {:induction false} ItemsPassOn(leaf: Executor, steps: Steps, current: Input, final: Result, k: nat)
    requires AllLeaves(steps) && k < |ExecuteBatch(leaf, steps, current, final).trace|
    ensures var t := ExecuteBatch(leaf, steps, current, final).trace;
            t[k].1.items == if k == 0 then current.items else ResultAt(leaf, t[k - 1]).items
    decreases steps
  {
    match steps
    case Nil =>
    case Cons(head, tail) =>
      var one := Execute(leaf, head, current);
      if one.outcome.Some? && k > 0 {
        ItemsPassOn(leaf, tail, Next(current, one.outcome.value), Merge(final, one.outcome.value), k - 1);
      }
  }

  // ---- execution that stops at checkpoints ----

  datatype Entry = Entry(remaining: Option<Step>, input: Input, result: Result)

  /** saved holds the checkpoint entry of an interrupted run. */
  datatype TreeRun = TreeRun(trace: seq<(string, Input)>, outcome: Option<Result>, saved: Option<Entry>)

  function Straight(r: Run): TreeRun { TreeRun(r.trace, r.outcome, None) }

  function Tree(leaf: Executor, s: Step, input: Input): TreeRun
    decreases s
  {
    match s
    case Leaf(_) => Straight(Execute(leaf, s, input))
    case Batch(steps) => TreeBatch(leaf, steps, input, EMPTY)
    case Checkpoint(inner) =>
      var r := Execute(leaf, inner, input);
      if r.outcome.None? then Straight(r)
      else TreeRun(r.trace, r.outcome, Some(Entry(None, Next(input, r.outcome.value), r.outcome.value)))
  }

  function TreeBatch(leaf: Executor, steps: Steps, current: Input, final: Result): TreeRun
    decreases steps
  {
    match steps
    case Nil => TreeRun([], Some(final), None)
    case Cons(head, tail) =>
      if head.Checkpoint? then
        var r := Execute(leaf, head.step, current);
        if r.outcome.None? then Straight(r) else
          var merged := Merge(final, r.outcome.value);
          TreeRun(r.trace, Some(merged), Some(Entry(Rest(tail), Next(current, r.outcome.value), merged)))
      else
        var r := Tree(leaf, head, current);
        if r.outcome.None? then r
        else if r.saved.Some? then r.(outcome := Some(Merge(final, r.outcome.value)))
        else
          var rest := TreeBatch(leaf, tail, Next(current, r.outcome.value), Merge(final, r.outcome.value));
          rest.(trace := r.trace + rest.trace)
  }

  function Rest(tail: Steps): Option<Step> { if tail.Nil? then None else Some(Batch(tail)) }

  // ---- sizes: what is left to do shrinks at every resume ----

  function Size(s: Step): nat {
    match s
    case Leaf(_) => 1
    case Batch(steps) => 1 + SizeAll(steps)
    case Checkpoint(inner) => 1 + Size(inner)
  }

  function SizeAll(steps: Steps): nat {
    match steps
    case Nil => 0
    case Cons(head, tail) => Size(head) + SizeAll(tail)
  }

  lemma {:induction false} RemainingShrinks(leaf: Executor, s: Step, input: Input)
    ensures var e := Tree(leaf, s, input).saved;
            e.Some? && e.value.remaining.Some? ==> Size(e.value.remaining.value) < Size(s)
    decreases s
  {
    if s.Batch? { RemainingShrinksBatch(leaf, s.steps, input, EMPTY); }
  }

  lemma {:induction false} RemainingShrinksBatch(leaf: Executor, steps: Steps, current: Input, final: Result)
    ensures var e := TreeBatch(leaf, steps, current, final).saved;
            e.Some? && e.value.remaining.Some? ==> Size(e.value.remaining.value) <= SizeAll(steps)
    decreases steps
  {
    match steps
    case Nil =>
    case Cons(head, tail) =>
      SizePositive(head);
      if !head.Checkpoint? {
        RemainingShrinks(leaf, head, current);
        var r := Tree(leaf, head, current);
        if r.outcome.Some? && r.saved.None? {
          RemainingShrinksBatch(leaf, tail, Next(current, r.outcome.value), Merge(final, r.outcome.value));
        }
      }
  }

  lemma {:induction false} SizePositive(s: Step)
    ensures Size(s) >= 1
  {
  }

  // ---- running and resuming until nothing is left ----

  function Left(e: Entry): nat { if e.remaining.None? then 0 else Size(e.remaining.value) }

  /** All resumes from an entry on. One resume merges the entry's result with what the remainder yields; when it is
      interrupted again the chain goes on from the new entry, and only the last response counts. */
  function ResumeToEnd(leaf: Executor, e: Entry): Run
    decreases Left(e)
  {
    if e.remaining.None? then Run([], Some(e.result)) else
      var r := Tree(leaf, e.remaining.value, e.input);
      if r.outcome.None? then Run(r.trace, None)
      else if r.saved.None? then Run(r.trace, Some(Merge(e.result, r.outcome.value)))
      else
        RemainingShrinks(leaf, e.remaining.value, e.input);
        SizePositive(e.remaining.value);
        var after := ResumeToEnd(leaf, r.saved.value);
        Run(r.trace + after.trace, after.outcome)
  }

  function Finish(leaf: Executor, r: TreeRun): Run {
    if r.outcome.None? || r.saved.None? then Run(r.trace, r.outcome) else
      var after := ResumeToEnd(leaf, r.saved.value);
      Run(r.trace + after.trace, after.outcome)
  }

  /** A run followed by resumes until none is interrupted. */
  function RunToEnd(leaf: Executor, s: Step, input: Input): Run { Finish(leaf, Tree(leaf, s, input)) }

  // ---- leaves and stops ----

  function Leaves(s: Step): nat {
    match s
    case Leaf(_) => 1
    case Batch(steps) => LeavesAll(steps)
    case Checkpoint(inner) => Leaves(inner)
  }

  function LeavesAll(steps: Steps): nat {
    match steps
    case Nil => 0
    case Cons(head, tail) => Leaves(head) + LeavesAll(tail)
  }

  /** A run of s stops at some checkpoint: one that is not inside a step the executor runs as a whole. */
  predicate Stops(s: Step) {
    match s
    case Leaf(_) => false
    case Batch(steps) => StopsAll(steps)
    case Checkpoint(_) => true
  }

  predicate StopsAll(steps: Steps) {
    match steps
    case Nil => false
    case Cons(head, tail) => Stops(head) || StopsAll(tail)
  }

  /** No leaf comes after a nested batch that stops: an interrupt inside it saves only that batch's remainder. */
  predicate Resumable(s: Step) { s.Batch? ==> ResumableAll(s.steps) }

  predicate ResumableAll(steps: Steps) {
    match steps
    case Nil => true
    case Cons(head, tail) =>
      if head.Batch? && Stops(head) then Resumable(head) && LeavesAll(tail) == 0 else ResumableAll(tail)
  }

  /** Nothing is forgotten: each entry holds only its own segment of its own batch, so a leaf may come before a stop
      only if that stop is the last one and lies in the same batch. */
  predicate Lossless(s: Step) { s.Batch? ==> LosslessAll(s.steps, true) }

  predicate LosslessAll(steps: Steps, leafless: bool) {
    match steps
    case Nil => true
    case Cons(head, tail) =>
      if head.Checkpoint? then StopsAll(tail) ==> leafless && Leaves(head) == 0 && LosslessAll(tail, true)
      else if Stops(head) then leafless && LeavesAll(tail) == 0 && Lossless(head)
      else LosslessAll(tail, leafless && Leaves(head) == 0)
  }

  // ---- facts about the two executions ----

  /** The merged result so far only ever goes in front. */
  lemma {:induction false} FinalInFront(leaf: Executor, steps: Steps, current: Input, final: Result)
    ensures var a, b := ExecuteBatch(leaf, steps, current, final), ExecuteBatch(leaf, steps, current, EMPTY);
            a.trace == b.trace && a.outcome == if b.outcome.None? then None else Some(Merge(final, b.outcome.value))
    decreases steps
  {
    match steps
    case Nil => MergeMonoid(final, EMPTY, EMPTY);
    case Cons(head, tail) =>
      var r := Execute(leaf, head, current);
      if r.outcome.Some? {
        var x := r.outcome.value;
        FinalInFront(leaf, tail, Next(current, x), Merge(final, x));
        FinalInFront(leaf, tail, Next(current, x), Merge(EMPTY, x));
        var c := ExecuteBatch(leaf, tail, Next(current, x), EMPTY).outcome;
        if c.Some? { MergeMonoid(final, x, c.value); MergeMonoid(x, EMPTY, EMPTY); }
      }
  }

  lemma {:induction false} NoStop(leaf: Executor, s: Step, input: Input)
    requires !Stops(s)
    ensures Tree(leaf, s, input) == Straight(Execute(leaf, s, input))
    decreases s
  {
    if s.Batch? { NoStopBatch(leaf, s.steps, input, EMPTY); }
  }

  lemma {:induction false} NoStopBatch(leaf: Executor, steps: Steps, current: Input, final: Result)
    requires !StopsAll(steps)
    ensures TreeBatch(leaf, steps, current, final) == Straight(ExecuteBatch(leaf, steps, current, final))
    decreases steps
  {
    match steps
    case Nil =>
    case Cons(head, tail) =>
      NoStop(leaf, head, current);
      var r := Execute(leaf, head, current);
      if r.outcome.Some? { NoStopBatch(leaf, tail, Next(current, r.outcome.value), Merge(final, r.outcome.value)); }
  }

  /** A step that stops ends in an error or with a saved entry. */
  lemma {:induction false} StopSaves(leaf: Executor, s: Step, input: Input)
    requires Stops(s)
    ensures var r := Tree(leaf, s, input); r.outcome.Some? <==> r.saved.Some?
    decreases s
  {
    if s.Batch? { StopSavesBatch(leaf, s.steps, input, EMPTY); }
  }

  lemma {:induction false} StopSavesBatch(leaf: Executor, steps: Steps, current: Input, final: Result)
    requires StopsAll(steps)
    ensures var r := TreeBatch(leaf, steps, current, final); r.outcome.Some? <==> r.saved.Some?
    decreases steps
  {
    var head, tail := steps.head, steps.tail;
    if !head.Checkpoint? {
      if Stops(head) {
        StopSaves(leaf, head, current);
      } else {
        NoStop(leaf, head, current);
        var r := Tree(leaf, head, current);
        if r.outcome.Some? {
          StopSavesBatch(leaf, tail, Next(current, r.outcome.value), Merge(final, r.outcome.value));
        }
      }
    }
  }

  lemma {:induction false} ErrorSavesNothing(leaf: Executor, s: Step, input: Input)
    ensures var r := Tree(leaf, s, input); r.outcome.None? ==> r.saved.None?
  {
    if Stops(s) { StopSaves(leaf, s, input); } else { NoStop(leaf, s, input); }
  }

  lemma {:induction false} Leafless(leaf: Executor, s: Step, input: Input)
    requires Leaves(s) == 0
    ensures Execute(leaf, s, input) == Run([], Some(EMPTY))
    decreases s
  {
    match s
    case Leaf(_) =>
    case Batch(steps) => LeaflessBatch(leaf, steps, input, EMPTY);
    case Checkpoint(inner) => Leafless(leaf, inner, input);
  }

  lemma {:induction false} LeaflessBatch(leaf: Executor, steps: Steps, current: Input, final: Result)
    requires LeavesAll(steps) == 0
    ensures ExecuteBatch(leaf, steps, current, final) == Run([], Some(final))
    decreases steps
  {
    match steps
    case Nil =>
    case Cons(head, tail) =>
      Leafless(leaf, head, current);
      MergeMonoid(final, EMPTY, EMPTY);
      LeaflessBatch(leaf, tail, Next(current, EMPTY), final);
  }

  // ---- the same leaf calls, interrupted or not ----

  /** A run of a batch from its middle and all its resumes. */
  function BatchToEnd(leaf: Executor, steps: Steps, current: Input, final: Result): Run {
    Finish(leaf, TreeBatch(leaf, steps, current, final))
  }

  /** How a chain goes through the first step of a batch: a nested batch that stops, */
  lemma {:induction false} NestedSplit(leaf: Executor, head: Step, tail: Steps, current: Input, final: Result)
    requires head.Batch? && Stops(head)
    ensures BatchToEnd(leaf, Cons(head, tail), current, final) == RunToEnd(leaf, head, current)
  {
    StopSaves(leaf, head, current);
  }

  /** a step that does not stop, */
  lemma {:induction false} PlainSplit(leaf: Executor, head: Step, tail: Steps, current: Input, final: Result)
    requires !Stops(head)
    ensures var all, one := BatchToEnd(leaf, Cons(head, tail), current, final), Execute(leaf, head, current);
            if one.outcome.None? then all == one else
              var rest := BatchToEnd(leaf, tail, Next(current, one.outcome.value), Merge(final, one.outcome.value));
              all.trace == one.trace + rest.trace && all.outcome == rest.outcome
  {
    NoStop(leaf, head, current);
    var one := Execute(leaf, head, current);
    if one.outcome.Some? {
      FinishAfter(leaf, one.trace,
                  TreeBatch(leaf, tail, Next(current, one.outcome.value), Merge(final, one.outcome.value)));
    }
  }

  lemma {:induction false} FinishAfter(leaf: Executor, before: seq<(string, Input)>, r: TreeRun)
    ensures var a, b := Finish(leaf, r.(trace := before + r.trace)), Finish(leaf, r);
            a.trace == before + b.trace && a.outcome == b.outcome
  {
    if r.outcome.Some? && r.saved.Some? {
      var t := ResumeToEnd(leaf, r.saved.value).trace;
      assert (before + r.trace) + t == before + (r.trace + t);
    }
  }

  /** or a checkpoint. */
  lemma {:induction false} CheckpointSplit(leaf: Executor, head: Step, tail: Steps, current: Input, final: Result)
    requires head.Checkpoint? && Execute(leaf, head, current).outcome.Some?
    ensures var all, one := BatchToEnd(leaf, Cons(head, tail), current, final), Execute(leaf, head, current);
            var merged := Merge(final, one.outcome.value);
            var rest := BatchToEnd(leaf, tail, Next(current, one.outcome.value), EMPTY);
            && all.trace == one.trace + rest.trace
            && (rest.outcome.None? <==> all.outcome.None?)
            && (rest.outcome.Some? && !StopsAll(tail) ==> all.outcome == Some(Merge(merged, rest.outcome.value)))
            && (StopsAll(tail) ==> all.outcome == rest.outcome)
  {
    var x := Execute(leaf, head, current).outcome.value;
    MergeMonoid(Merge(final, x), EMPTY, EMPTY);
    if tail.Cons? {
      if StopsAll(tail) { StopSavesBatch(leaf, tail, Next(current, x), EMPTY); }
      else { NoStopBatch(leaf, tail, Next(current, x), EMPTY); }
    }
  }

  lemma {:induction false} SameTrace(leaf: Executor, s: Step, input: Input)
    requires Resumable(s)
    ensures var a, b := RunToEnd(leaf, s, input), Execute(leaf, s, input);
            a.trace == b.trace && (a.outcome.None? <==> b.outcome.None?)
    decreases s
  {
    match s
    case Leaf(_) =>
    case Batch(steps) => SameTraceBatch(leaf, steps, input, EMPTY);
    case Checkpoint(_) =>
  }

  lemma {:induction false} SameTraceBatch(leaf: Executor, steps: Steps, current: Input, final: Result)
    requires ResumableAll(steps)
    ensures var a, b := BatchToEnd(leaf, steps, current, final), ExecuteBatch(leaf, steps, current, final);
            a.trace == b.trace && (a.outcome.None? <==> b.outcome.None?)
    decreases steps
  {
    match steps
    case Nil =>
    case Cons(head, tail) =>
      var one := Execute(leaf, head, current);
      if head.Checkpoint? {
        if one.outcome.Some? {
          CheckpointSplit(leaf, head, tail, current, final);
          SameTraceBatch(leaf, tail, Next(current, one.outcome.value), EMPTY);
          FinalInFront(leaf, tail, Next(current, one.outcome.value), Merge(final, one.outcome.value));
        }
      } else if Stops(head) {
        NestedSplit(leaf, head, tail, current, final);
        SameTrace(leaf, head, current);
        if one.outcome.Some? {
          LeaflessBatch(leaf, tail, Next(current, one.outcome.value), Merge(final, one.outcome.value));
        }
      } else {
        PlainSplit(leaf, head, tail, current, final);
        if one.outcome.Some? {
          SameTraceBatch(leaf, tail, Next(current, one.outcome.value), Merge(final, one.outcome.value));
        }
      }
  }

  ghost predicate NeverFails(leaf: Executor) { forall name, input :: leaf(name, input).Some? }

  lemma {:induction false} StraightTraceLength(leaf: Executor, s: Step, input: Input)
    requires NeverFails(leaf)
    ensures var b := Execute(leaf, s, input); b.outcome.Some? && |b.trace| == Leaves(s)
    decreases s
  {
    match s
    case Leaf(_) =>
    case Batch(steps) => StraightTraceLengthBatch(leaf, steps, input, EMPTY);
    case Checkpoint(inner) => StraightTraceLength(leaf, inner, input);
  }

  lemma {:induction false} StraightTraceLengthBatch(leaf: Executor, steps: Steps, current: Input, final: Result)
    requires NeverFails(leaf)
    ensures var b := ExecuteBatch(leaf, steps, current, final); b.outcome.Some? && |b.trace| == LeavesAll(steps)
    decreases steps
  {
    match steps
    case Nil =>
    case Cons(head, tail) =>
      StraightTraceLength(leaf, head, current);
      var x := Execute(leaf, head, current).outcome.value;
      StraightTraceLengthBatch(leaf, tail, Next(current, x), Merge(final, x));
  }

  /** Where the condition fails, every executor that never fails is called too few times. */
  lemma {:induction false} TraceFallsShort(leaf: Executor, s: Step, input: Input)
    requires NeverFails(leaf)
    ensures var a := RunToEnd(leaf, s, input); |a.trace| <= Leaves(s) && (!Resumable(s) ==> |a.trace| < Leaves(s))
    decreases s
  {
    match s
    case Leaf(_) =>
    case Batch(steps) => TraceFallsShortBatch(leaf, steps, input, EMPTY);
    case Checkpoint(inner) => StraightTraceLength(leaf, inner, input);
  }

  lemma {:induction false} TraceFallsShortBatch(leaf: Executor, steps: Steps, current: Input, final: Result)
    requires NeverFails(leaf)
    ensures var a := BatchToEnd(leaf, steps, current, final);
            |a.trace| <= LeavesAll(steps) && (!ResumableAll(steps) ==> |a.trace| < LeavesAll(steps))
    decreases steps
  {
    match steps
    case Nil =>
    case Cons(head, tail) =>
      StraightTraceLength(leaf, head, current);
      var x := Execute(leaf, head, current).outcome.value;
      if head.Checkpoint? {
        CheckpointSplit(leaf, head, tail, current, final);
        TraceFallsShortBatch(leaf, tail, Next(current, x), EMPTY);
      } else if Stops(head) {
        NestedSplit(leaf, head, tail, current, final);
        TraceFallsShort(leaf, head, current);
      } else {
        PlainSplit(leaf, head, tail, current, final);
        TraceFallsShortBatch(leaf, tail, Next(current, x), Merge(final, x));
      }
  }

  /** Interrupting and resuming makes exactly the leaf calls of a straight run, whatever the executor does, if and
      only if the pipeline is resumable. */
  lemma {:induction false} ResumeExactlyWhen(s: Step, input: Input)
    ensures Resumable(s) <==> forall leaf: Executor :: RunToEnd(leaf, s, input).trace == Execute(leaf, s, input).trace
  {
    if Resumable(s) {
      forall leaf: Executor
        ensures RunToEnd(leaf, s, input).trace == Execute(leaf, s, input).trace
      { SameTrace(leaf, s, input); }
    } else {
      TraceFallsShort(Marking, s, input);
      StraightTraceLength(Marking, s, input);
      assert RunToEnd(Marking, s, input).trace != Execute(Marking, s, input).trace;
    }
  }

  // ---- the same result ----

  /** An executor whose every leaf has one input reference of its own and one artifact, hence one lineage edge. */
  function Marking(name: string, input: Input): Option<Result> { Some(EMPTY.(artifacts := [name], lineage := [name])) }

  lemma {:induction false} SameResult(leaf: Executor, s: Step, input: Input)
    requires Lossless(s)
    ensures RunToEnd(leaf, s, input).outcome == Execute(leaf, s, input).outcome
    decreases s
  {
    match s
    case Leaf(_) =>
    case Batch(steps) => SameResultBatch(leaf, steps, input, EMPTY, true);
    case Checkpoint(_) =>
  }

  lemma {:induction false} SameResultBatch(leaf: Executor, steps: Steps, current: Input, final: Result, leafless: bool)
    requires LosslessAll(steps, leafless) && (leafless ==> final == EMPTY)
    ensures BatchToEnd(leaf, steps, current, final).outcome == ExecuteBatch(leaf, steps, current, final).outcome
    decreases steps
  {
    match steps
    case Nil =>
    case Cons(head, tail) =>
      var one := Execute(leaf, head, current);
      if head.Checkpoint? {
        if one.outcome.Some? { SameResultCheckpoint(leaf, head, tail, current, final, leafless); }
      } else if Stops(head) {
        NestedSplit(leaf, head, tail, current, final);
        SameResult(leaf, head, current);
        if one.outcome.Some? {
          MergeMonoid(one.outcome.value, EMPTY, EMPTY);
          LeaflessBatch(leaf, tail, Next(current, one.outcome.value), one.outcome.value);
        }
      } else {
        PlainSplit(leaf, head, tail, current, final);
        if one.outcome.Some? {
          if Leaves(head) == 0 { Leafless(leaf, head, current); MergeMonoid(final, EMPTY, EMPTY); }
          SameResultBatch(leaf, tail, Next(current, one.outcome.value), Merge(final, one.outcome.value),
                          leafless && Leaves(head) == 0);
        }
      }
  }

  lemma {:induction false} SameResultCheckpoint(leaf: Executor, head: Step, tail: Steps, current: Input, final: Result,
                                                leafless: bool)
    requires head.Checkpoint? && Execute(leaf, head, current).outcome.Some?
    requires LosslessAll(Cons(head, tail), leafless) && (leafless ==> final == EMPTY)
    ensures BatchToEnd(leaf, Cons(head, tail), current, final).outcome ==
              ExecuteBatch(leaf, Cons(head, tail), current, final).outcome
    decreases Cons(head, tail), 0
  {
    var x := Execute(leaf, head, current).outcome.value;
    CheckpointSplit(leaf, head, tail, current, final);
    FinalInFront(leaf, tail, Next(current, x), Merge(final, x));
    if StopsAll(tail) {
      Leafless(leaf, head, current);
      MergeMonoid(EMPTY, EMPTY, EMPTY);
      SameResultBatch(leaf, tail, Next(current, x), EMPTY, true);
    } else {
      NoStopBatch(leaf, tail, Next(current, x), EMPTY);
    }
  }

  function Edges(r: Run): nat { if r.outcome.None? then 0 else |r.outcome.value.lineage| }

  lemma {:induction false} StraightEdges(s: Step, input: Input)
    ensures var b := Execute(Marking, s, input); b.outcome.Some? && Edges(b) == Leaves(s)
    decreases s
  {
    match s
    case Leaf(_) =>
    case Batch(steps) => StraightEdgesBatch(steps, input, EMPTY);
    case Checkpoint(inner) => StraightEdges(inner, input);
  }

  lemma {:induction false} StraightEdgesBatch(steps: Steps, current: Input, final: Result)
    ensures var b := ExecuteBatch(Marking, steps, current, final);
            b.outcome.Some? && Edges(b) == |final.lineage| + LeavesAll(steps)
    decreases steps
  {
    match steps
    case Nil =>
    case Cons(head, tail) =>
      StraightEdges(head, current);
      var x := Execute(Marking, head, current).outcome.value;
      StraightEdgesBatch(tail, Next(current, x), Merge(final, x));
  }

  /** Where the condition fails, lineage edges are missing from the last response. */
  lemma {:induction false} EdgesLost(s: Step, input: Input)
    ensures var a := RunToEnd(Marking, s, input); Edges(a) <= Leaves(s) && (!Lossless(s) ==> Edges(a) < Leaves(s))
    decreases s
  {
    match s
    case Leaf(_) =>
    case Batch(steps) => EdgesLostBatch(steps, input, EMPTY);
    case Checkpoint(inner) => StraightEdges(inner, input);
  }

  lemma {:induction false} EdgesLostBatch(steps: Steps, current: Input, final: Result)
    ensures var a, f := BatchToEnd(Marking, steps, current, final), |final.lineage|;
            Edges(a) <= f + LeavesAll(steps) && (!LosslessAll(steps, f == 0) ==> Edges(a) < f + LeavesAll(steps))
    decreases steps
  {
    match steps
    case Nil =>
    case Cons(head, tail) =>
      StraightEdges(head, current);
      var x := Execute(Marking, head, current).outcome.value;
      if head.Checkpoint? {
        CheckpointSplit(Marking, head, tail, current, final);
        if StopsAll(tail) {
          EdgesLostBatch(tail, Next(current, x), EMPTY);
        } else {
          NoStopBatch(Marking, tail, Next(current, x), EMPTY);
          StraightEdgesBatch(tail, Next(current, x), EMPTY);
        }
      } else if Stops(head) {
        NestedSplit(Marking, head, tail, current, final);
        EdgesLost(head, current);
      } else {
        PlainSplit(Marking, head, tail, current, final);
        EdgesLostBatch(tail, Next(current, x), Merge(final, x));
      }
  }

  /** Interrupting and resuming ends in the result of a straight run, whatever the executor does, if and only if the
      pipeline is lossless. */
  lemma {:induction false} ResultExactlyWhen(s: Step, input: Input)
    ensures Lossless(s) <==>
              forall leaf: Executor :: RunToEnd(leaf, s, input).outcome == Execute(leaf, s, input).outcome
  {
    if Lossless(s) {
      forall leaf: Executor
        ensures RunToEnd(leaf, s, input).outcome == Execute(leaf, s, input).outcome
      { SameResult(leaf, s, input); }
    } else {
      EdgesLost(s, input);
      StraightEdges(s, input);
      assert RunToEnd(Marking, s, input).outcome != Execute(Marking, s, input).outcome;
    }
  }

  lemma {:induction false} LosslessResumable(s: Step)
    requires Lossless(s)
    ensures Resumable(s)
    decreases s
  {
    if s.Batch? { LosslessResumableAll(s.steps, true); }
  }

  lemma {:induction false} LosslessResumableAll(steps: Steps, leafless: bool)
    requires LosslessAll(steps, leafless)
    ensures ResumableAll(steps)
    decreases steps
  {
    match steps
    case Nil =>
    case Cons(head, tail) =>
      if head.Checkpoint? {
        if StopsAll(tail) { LosslessResumableAll(tail, true); } else { NoStopsResumable(tail); }
      } else if Stops(head) {
        LosslessResumable(head);
      } else {
        LosslessResumableAll(tail, leafless && Leaves(head) == 0);
      }
  }

  lemma {:induction false} NoStopsResumable(steps: Steps)
    requires !StopsAll(steps)
    ensures ResumableAll(steps)
  {
    if steps.Cons? { NoStopsResumable(steps.tail); }
  }

  /** A lossless pipeline, run and resumed to its end, comes to what its leaf calls say. */
  lemma {:induction false} LosslessExplained(leaf: Executor, s: Step, input: Input)
    requires Lossless(s)
    ensures true == Explained(leaf, input, [], RunToEnd(leaf, s, input))
  {
    LosslessResumable(s);
    SameTrace(leaf, s, input);
    SameResult(leaf, s, input);
    StraightMeaning(leaf, s, input);
  }

  lemma {:induction false} SuffixOf<T>(a: seq<T>, b: seq<T>)
    ensures (a + b)[|a|..] == b
  {
  }

  /** Interrupted or not, a run answers with what its leaf calls so far come to. */
  lemma {:induction false} TreeMeaning(leaf: Executor, s: Step, input: Input)
    ensures var t := Tree(leaf, s, input); true == Explained(leaf, input, [], Run(t.trace, t.outcome))
    decreases s
  {
    match s
    case Leaf(_) => StraightMeaning(leaf, s, input);
    case Batch(steps) =>
      NothingIsEmpty();
      TreeMeaningBatch(leaf, steps, input, EMPTY, []);
    case Checkpoint(inner) => StraightMeaning(leaf, inner, input);
  }

  lemma {:induction false} TreeMeaningBatch(leaf: Executor, steps: Steps, current: Input, final: Result,
                                            before: seq<Result>)
    requires LastOfEach(before, final)
    ensures var t := TreeBatch(leaf, steps, current, final);
            true == Explained(leaf, current, before, Run(t.trace, t.outcome))
    decreases steps
  {
    match steps
    case Nil => assert before + ResultsOf(leaf, []) == before;
    case Cons(head, tail) =>
      var one: Run;
      if head.Checkpoint? {
        one := Execute(leaf, head.step, current);
        StraightMeaning(leaf, head.step, current);
      } else {
        var t := Tree(leaf, head, current);
        one := Run(t.trace, t.outcome);
        TreeMeaning(leaf, head, current);
      }
      if one.outcome.None? {
        FailedFirst(leaf, current, before, one);
      } else {
        var x := one.outcome.value;
        FirstResult(leaf, current, one);
        LastOfEachConcat(before, final, ResultsOf(leaf, one.trace), x);
        if head.Checkpoint? || Tree(leaf, head, current).saved.Some? {
          StopsHere(leaf, current, before, one, Merge(final, x));
        } else {
          TreeMeaningBatch(leaf, tail, Next(current, x), Merge(final, x), before + ResultsOf(leaf, one.trace));
          var rest := TreeBatch(leaf, tail, Next(current, x), Merge(final, x));
          ExplainedConcat(leaf, current, before, one, Run(rest.trace, rest.outcome));
        }
      }
  }

  lemma {:induction false} StopsHere(leaf: Executor, input: Input, before: seq<Result>, one: Run, merged: Result)
    requires Explained(leaf, input, [], one) && one.outcome.Some?
    requires LastOfEach(before + ResultsOf(leaf, one.trace), merged)
    ensures true == Explained(leaf, input, before, Run(one.trace, Some(merged)))
  {
  }

  // ---- batches with checkpoints at the top level only ----

  predicate TopLevel(steps: Steps) { steps.Cons? ==> !steps.head.Batch? && TopLevel(steps.tail) }

  function Checkpoints(steps: Steps): nat {
    if steps.Nil? then 0 else (if steps.head.Checkpoint? then 1 else 0) + Checkpoints(steps.tail)
  }

  /** Such a batch is always resumable, and lossless with at most one checkpoint. */
  lemma {:induction false} TopLevelShape(steps: Steps, leafless: bool)
    requires TopLevel(steps)
    ensures ResumableAll(steps) && (Checkpoints(steps) == 0 <==> !StopsAll(steps))
    ensures Checkpoints(steps) <= 1 ==> LosslessAll(steps, leafless)
    decreases steps
  {
    if steps.Cons? {
      TopLevelShape(steps.tail, leafless && Leaves(steps.head) == 0);
      TopLevelShape(steps.tail, true);
    }
  }

  lemma {:induction false} TwoCheckpointsLose(steps: Steps, leafless: bool)
    requires TopLevel(steps) && Checkpoints(steps) >= 2
    requires forall c: Step :: InSteps(c, steps) && c.Checkpoint? ==> Leaves(c) > 0
    ensures !LosslessAll(steps, leafless)
    decreases steps
  {
    TopLevelShape(steps.tail, true);
    if steps.head.Checkpoint? {
      assert InSteps(steps.head, steps);
    } else {
      forall c: Step | InSteps(c, steps.tail) && c.Checkpoint? ensures Leaves(c) > 0 { assert InSteps(c, steps); }
      TwoCheckpointsLose(steps.tail, leafless && Leaves(steps.head) == 0);
    }
  }

  predicate InSteps(c: Step, steps: Steps) { steps.Cons? && (c == steps.head || InSteps(c, steps.tail)) }

  // ---- the runtime ----

  /** With what has been called so far, what is left to do comes to the whole. */
  predicate Reaches(start: seq<(string, Input)>, whole: TreeRun, sofar: seq<(string, Input)>, left: TreeRun) {
    sofar + left.trace == start + whole.trace && left.outcome == whole.outcome && left.saved == whole.saved
  }

  lemma {:induction false} ReachesNext(start: seq<(string, Input)>, whole: TreeRun, sofar: seq<(string, Input)>,
                                       one: seq<(string, Input)>, after: TreeRun)
    requires Reaches(start, whole, sofar, after.(trace := one + after.trace))
    ensures true == Reaches(start, whole, sofar + one, after)
  {
    assert sofar + (one + after.trace) == (sofar + one) + after.trace;
  }

  class Runtime {
    const leaf: Executor
    var trace: seq<(string, Input)>
    var checkpoints: map<nat, Entry>
    var nextId: nat

    ghost predicate Valid()
      reads this
    {
      forall id :: id in checkpoints ==> id < nextId
    }

    constructor (leaf: Executor)
      ensures this.leaf == leaf && trace == [] && checkpoints == map[] && Valid()
    {
      this.leaf := leaf;
      trace, checkpoints, nextId := [], map[], 0;
    }

    /** Executor.Execute and executeBatch. */
    method ExecuteStep(s: Step, input: Input) returns (r: Option<Result>)
      modifies this`trace
      ensures trace == old(trace) + Execute(leaf, s, input).trace && r == Execute(leaf, s, input).outcome
      decreases s
    {
      match s {
        case Leaf(name) =>
          trace := trace + [(name, input)];
          r := leaf(name, input);
        case Checkpoint(inner) =>
          r := ExecuteStep(inner, input);
        case Batch(steps) =>
          var current, final, rest := input, EMPTY, steps;
          while rest.Cons?
            invariant rest == steps || rest < steps
            invariant true == Reaches(old(trace), Straight(Execute(leaf, s, input)), trace,
                                      Straight(ExecuteBatch(leaf, rest, current, final)))
            decreases rest
          {
            ghost var before, one := trace, Execute(leaf, rest.head, current);
            var result := ExecuteStep(rest.head, current);
            if result.None? { return None; }
            ghost var after := ExecuteBatch(leaf, rest.tail, Next(current, result.value), Merge(final, result.value));
            ReachesNext(old(trace), Straight(Execute(leaf, s, input)), before, one.trace, Straight(after));
            final, current, rest := Merge(final, result.value), Next(current, result.value), rest.tail;
          }
          r := Some(final);
      }
    }

    /** A straight execution comes to what its leaf calls say. */
    method ExecutePipeline(s: Step, input: Input) returns (r: Option<Result>)
      modifies this`trace
      ensures old(trace) <= trace && true == Explained(leaf, input, [], Run(trace[|old(trace)|..], r))
    {
      ghost var run := Execute(leaf, s, input);
      r := ExecuteStep(s, input);
      SuffixOf(old(trace), run.trace);
      StraightMeaning(leaf, s, input);
      assert Run(trace[|old(trace)|..], r) == run;
    }

    method Save(e: Entry) returns (id: nat)
      requires Valid()
      modifies this`checkpoints, this`nextId
      ensures Valid() && id !in old(checkpoints) && checkpoints == old(checkpoints)[id := e]
              && nextId == id + 1 > old(nextId)
    {
      id := nextId;
      checkpoints, nextId := checkpoints[id := e], id + 1;
    }

    /** The store after a run: one new entry if it was interrupted, no change otherwise. */
    ghost predicate Stored(was: map<nat, Entry>, saved: Option<Entry>, id: Option<nat>)
      reads this
    {
      && (saved.None? ==> id.None? && checkpoints == was)
      && (saved.Some? ==> id.Some? && id.value !in was && checkpoints == was[id.value := saved.value])
    }

    /** executePipelineTree; id is the checkpoint of an interrupted run. */
    method ExecuteTree(s: Step, input: Input) returns (r: Option<Result>, id: Option<nat>)
      requires Valid()
      modifies this
      ensures Valid()
      ensures var t := Tree(leaf, s, input);
              trace == old(trace) + t.trace && r == t.outcome && Stored(old(checkpoints), t.saved, id)
      decreases s
    {
      id := None;
      match s {
        case Leaf(_) =>
          r := ExecuteStep(s, input);
        case Checkpoint(inner) =>
          r := ExecuteStep(inner, input);
          if r.Some? {
            var cp := Save(Entry(None, Next(input, r.value), r.value));
            id := Some(cp);
          }
        case Batch(steps) =>
          r, id := ExecuteTreeBatch(s, steps, input);
      }
    }

    method ExecuteTreeBatch(ghost s: Step, steps: Steps, input: Input) returns (r: Option<Result>, id: Option<nat>)
      requires Valid() && s == Batch(steps)
      modifies this
      ensures Valid()
      ensures var t := TreeBatch(leaf, steps, input, EMPTY);
              trace == old(trace) + t.trace && r == t.outcome && Stored(old(checkpoints), t.saved, id)
      decreases s, 0
    {
      id := None;
      var current, final, rest := input, EMPTY, steps;
      while rest.Cons?
        invariant Valid() && checkpoints == old(checkpoints) && id.None?
        invariant rest == steps || rest < steps
        invariant true == Reaches(old(trace), TreeBatch(leaf, steps, input, EMPTY), trace,
                                  TreeBatch(leaf, rest, current, final))
        decreases rest
      {
        var child := rest.head;
        ghost var before := trace;
        if child.Checkpoint? {
          var result := ExecuteStep(child.step, current);
          if result.None? { return None, None; }
          final, current := Merge(final, result.value), Next(current, result.value);
          var cp := Save(Entry(Rest(rest.tail), current, final));
          return Some(final), Some(cp);
        }
        var result;
        result, id := ExecuteTree(child, current);
        ErrorSavesNothing(leaf, child, current);
        if result.None? { return None, None; }
        if id.Some? { return Some(Merge(final, result.value)), id; }
        ghost var after := TreeBatch(leaf, rest.tail, Next(current, result.value), Merge(final, result.value));
        ReachesNext(old(trace), TreeBatch(leaf, steps, input, EMPTY), before, Tree(leaf, child, current).trace, after);
        final, current, rest := Merge(final, result.value), Next(current, result.value), rest.tail;
      }
      r := Some(final);
    }

    /** resumePipeline: r is the response's result. The entry goes away only when the run gets to its end. */
    method Resume(id: nat) returns (r: Option<Result>, next: Option<nat>)
      requires Valid()
      modifies this
      ensures Valid()
      ensures id !in old(checkpoints) ==>
                r.None? && next.None? && trace == old(trace) && checkpoints == old(checkpoints)
      ensures id in old(checkpoints) ==> true == Resumed(old(checkpoints), old(trace), id, r, next)
    {
      if id !in checkpoints { return None, None; }
      var entry := checkpoints[id];
      var result := entry.result;
      next := None;
      if entry.remaining.Some? {
        var more;
        more, next := ExecuteTree(entry.remaining.value, entry.input);
        ErrorSavesNothing(leaf, entry.remaining.value, entry.input);
        if more.None? { return None, None; }
        result := Merge(result, more.value);
        RemainingShrinks(leaf, entry.remaining.value, entry.input);
        SizePositive(entry.remaining.value);
      }
      if next.None? {
        checkpoints := checkpoints - {id};
      } else {
        ghost var t, rest := Tree(leaf, entry.remaining.value, entry.input), ResumeToEnd(leaf, checkpoints[next.value]);
        assert (old(trace) + t.trace) + rest.trace == old(trace) + (t.trace + rest.trace);
      }
      r := Some(result);
    }

    /** Seen from the chain of resumes: either this was the last one and the entry is gone, or the chain goes on
        from a new entry with less left to do. */
    ghost predicate Resumed(was: map<nat, Entry>, before: seq<(string, Input)>, id: nat, r: Option<Result>,
                            next: Option<nat>)
      requires id in was
      reads this
    {
      var all := ResumeToEnd(leaf, was[id]);
      && before <= trace
      && (r.None? ==> next.None? && trace == before + all.trace && all.outcome.None? && checkpoints == was)
      && (r.Some? && next.None? ==> trace == before + all.trace && all.outcome == r && checkpoints == was - {id})
      && (next.Some? ==>
           && r.Some? && next.value !in was && next.value in checkpoints
           && checkpoints == was[next.value := checkpoints[next.value]]
           && Left(checkpoints[next.value]) < Left(was[id])
           && trace + ResumeToEnd(leaf, checkpoints[next.value]).trace == before + all.trace
           && ResumeToEnd(leaf, checkpoints[next.value]).outcome == all.outcome)
    }

    /** A client that runs a pipeline and resumes it until it is no longer interrupted. */
    method RunAll(s: Step, input: Input) returns (r: Option<Result>)
      requires Valid()
      modifies this
      ensures Valid() && trace == old(trace) + RunToEnd(leaf, s, input).trace && r == RunToEnd(leaf, s, input).outcome
      ensures Lossless(s) ==> true == Explained(leaf, input, [], Run(trace[|old(trace)|..], r))
    {
      var id;
      r, id := ExecuteTree(s, input);
      ErrorSavesNothing(leaf, s, input);
      while id.Some?
        invariant Valid() && (id.Some? ==> id.value in checkpoints)
        invariant var all := RunToEnd(leaf, s, input);
                  if id.None? then trace == old(trace) + all.trace && r == all.outcome
                  else var rest := ResumeToEnd(leaf, checkpoints[id.value]);
                    trace + rest.trace == old(trace) + all.trace && rest.outcome == all.outcome
        decreases if id.None? then 0 else 1 + Left(checkpoints[id.value])
      {
        r, id := Resume(id.value);
      }
      SuffixOf(old(trace), RunToEnd(leaf, s, input).trace);
      if Lossless(s) { LosslessExplained(leaf, s, input); }
    }
  }
}
