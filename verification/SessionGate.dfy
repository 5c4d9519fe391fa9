/** The per-session gate as a step protocol (pkg/api/runtime_helpers_session.go): goroutines interleave
    at LoadOrStore, the context test, the channel wake, LoadAndDelete and close. */
module SessionGate {
  import opened Base

  type Session = string
  type Channel = nat

  /** Where a goroutine is. */
  datatype Goroutine =
    | Idle
    | Acquiring(s: Session)                 // top of Acquire's loop
    | Stored(s: Session, ch: Channel)       // LoadOrStore stored the entry; the context is tested next
    | Waiting(s: Session, ch: Channel)      // in the select on another goroutine's channel
    | Holding(s: Session, ch: Channel)      // between a successful Acquire and Release
    | Releasing(s: Session, ch: Channel)    // in Release, before LoadAndDelete
    | Closing(s: Session, ch: Channel)      // the entry is out of the map, its channel not yet closed

  /** A gateEntry, with the goroutine that stored it. */
  datatype Entry = Entry(ch: Channel, owner: nat)

  /** closes counts the close calls per channel; next is the first channel not allocated yet. Entry.owner, closers and
      the channel of a Stored, Holding or Releasing goroutine are bookkeeping: no step reads them to decide anything. */
  datatype State = State(
    gates: map<Session, Entry>, closes: map<Channel, nat>, closers: map<Channel, nat>, next: Channel,
    gs: seq<Goroutine>)

  function Closes(st: State, ch: Channel): nat { if ch in st.closes then st.closes[ch] else 0 }

  /** An owner has an entry of its own in the map. */
  predicate Owner(g: Goroutine) { g.Stored? || g.Holding? || g.Releasing? }

  predicate Init(st: State) {
    st.gates == map[] && st.closes == map[] && st.closers == map[] && forall i :: 0 <= i < |st.gs| ==> st.gs[i].Idle?
  }

  function With(st: State, i: nat, g: Goroutine): State
    requires i < |st.gs|
  {
    st.(gs := st.gs[i := g])
  }

  // ---- the atomic steps of goroutine i ----

  datatype Action =
    | CallAcquire(s: Session) | LoadOrStore | ContextLive | ContextDead | Wake | GiveUp
    | CallRelease | LoadAndDelete | Close

  predicate Enabled(st: State, i: nat, a: Action) {
    i < |st.gs| &&
    var g := st.gs[i];
    match a
    case CallAcquire(_) => g.Idle?
    case LoadOrStore => g.Acquiring?
    case ContextLive => g.Stored?
    case ContextDead => g.Stored?
    case Wake => g.Waiting? && Closes(st, g.ch) > 0
    case GiveUp => g.Waiting?
    case CallRelease => g.Holding?
    case LoadAndDelete => g.Releasing?
    case Close => g.Closing?
  }

  function Step(st: State, i: nat, a: Action): State
    requires Enabled(st, i, a)
  {
    var g := st.gs[i];
    match a
    case CallAcquire(s) => With(st, i, Acquiring(s))
    case LoadOrStore => if g.s in st.gates then WaitStep(st, i) else StoreStep(st, i)
    case ContextLive => With(st, i, Holding(g.s, g.ch))
    case ContextDead => With(st, i, Releasing(g.s, g.ch))
    case Wake => With(st, i, Acquiring(g.s))
    case GiveUp => With(st, i, Idle)
    case CallRelease => With(st, i, Releasing(g.s, g.ch))
    case LoadAndDelete => DeleteStep(st, i)
    case Close => CloseStep(st, i)
  }

  /** LoadOrStore on an occupied session: the fresh channel is dropped, the stored one is waited on. */
  function WaitStep(st: State, i: nat): State
    requires i < |st.gs| && st.gs[i].Acquiring? && st.gs[i].s in st.gates
  {
    var s := st.gs[i].s;
    st.(next := st.next + 1, gs := st.gs[i := Waiting(s, st.gates[s].ch)])
  }

  function StoreStep(st: State, i: nat): State
    requires i < |st.gs| && st.gs[i].Acquiring?
  {
    var s := st.gs[i].s;
    st.(next := st.next + 1, gates := st.gates[s := Entry(st.next, i)], gs := st.gs[i := Stored(s, st.next)])
  }

  function DeleteStep(st: State, i: nat): State
    requires i < |st.gs| && st.gs[i].Releasing?
  {
    var s := st.gs[i].s;
    if s !in st.gates then st.(gs := st.gs[i := Idle]) else
      var ch := st.gates[s].ch;
      st.(gates := st.gates - {s}, closers := st.closers[ch := i], gs := st.gs[i := Closing(s, ch)])
  }

  function CloseStep(st: State, i: nat): State
    requires i < |st.gs| && st.gs[i].Closing?
  {
    var ch := st.gs[i].ch;
    st.(closes := st.closes[ch := Closes(st, ch) + 1], closers := st.closers - {ch}, gs := st.gs[i := Idle])
  }

  ghost predicate Next(st: State, st': State) { exists i: nat, a :: Takes(st, i, a, st') }

  predicate Takes(st: State, i: nat, a: Action, st': State) { Enabled(st, i, a) && st' == Step(st, i, a) }

  /** A run: any number of goroutines, any interleaving. */
  ghost predicate IsRun(run: seq<State>) {
    && run != [] && Init(run[0])
    && forall k {:trigger run[k]} :: 0 < k < |run| ==> Next(run[k - 1], run[k])
  }

  // ---- the invariant ----

  /** Each entry in the map belongs to the goroutine that stored it, and its channel is live. */
  ghost predicate EntryOk(st: State, s: Session)
    requires s in st.gates
  {
    var e := st.gates[s];
    && e.owner < |st.gs| && Owner(st.gs[e.owner]) && st.gs[e.owner].s == s && st.gs[e.owner].ch == e.ch
    && e.ch < st.next && e.ch !in st.closes && e.ch !in st.closers
  }

  ghost predicate CloserOk(st: State, ch: Channel)
    requires ch in st.closers
  {
    var i := st.closers[ch];
    i < |st.gs| && st.gs[i].Closing? && st.gs[i].ch == ch && ch < st.next && ch !in st.closes
  }

  ghost predicate GoroutineOk(st: State, i: nat)
    requires i < |st.gs|
  {
    var g := st.gs[i];
    && (Owner(g) ==> g.s in st.gates && st.gates[g.s] == Entry(g.ch, i))
    && (g.Closing? ==> g.ch in st.closers && st.closers[g.ch] == i)
    // no lost wake-up: what a waiter waits on is in the map, closed, or about to be closed
    && (g.Waiting? ==> (g.s in st.gates && st.gates[g.s].ch == g.ch) || g.ch in st.closes || g.ch in st.closers)
  }

  ghost predicate Inv(st: State) {
    && (forall s :: s in st.gates ==> EntryOk(st, s))
    && (forall s, t :: s in st.gates && t in st.gates && st.gates[s].ch == st.gates[t].ch ==> s == t)
    && (forall ch :: ch in st.closers ==> CloserOk(st, ch))
    && (forall ch :: ch in st.closes ==> st.closes[ch] == 1 && ch < st.next)
    && (forall i :: 0 <= i < |st.gs| ==> GoroutineOk(st, i))
  }

  /** Steps that touch neither the map nor a channel and leave ownership as it is. */
  lemma {:induction false} LocalKeeps(st: State, i: nat, g: Goroutine)
    requires Inv(st) && i < |st.gs| && !st.gs[i].Closing? && !g.Closing? && !g.Waiting?
    requires Owner(g) == Owner(st.gs[i]) && (Owner(g) ==> g.s == st.gs[i].s && g.ch == st.gs[i].ch)
    ensures Inv(With(st, i, g))
  {
    var st' := With(st, i, g);
    assert GoroutineOk(st, i);
    forall k | 0 <= k < |st'.gs| ensures GoroutineOk(st', k) { assert GoroutineOk(st, k); }
    forall s | s in st'.gates ensures EntryOk(st', s) { assert EntryOk(st, s); }
    forall ch | ch in st'.closers ensures CloserOk(st', ch) { assert CloserOk(st, ch); }
  }

  lemma {:induction false} WaitKeeps(st: State, i: nat)
    requires Inv(st) && i < |st.gs| && st.gs[i].Acquiring? && st.gs[i].s in st.gates
    ensures Inv(WaitStep(st, i))
  {
    var st' := WaitStep(st, i);
    forall k | 0 <= k < |st'.gs| ensures GoroutineOk(st', k) { assert GoroutineOk(st, k); }
    forall s | s in st'.gates ensures EntryOk(st', s) { assert EntryOk(st, s); }
    forall ch | ch in st'.closers ensures CloserOk(st', ch) { assert CloserOk(st, ch); }
  }

  lemma {:induction false} StoreKeeps(st: State, i: nat)
    requires Inv(st) && i < |st.gs| && st.gs[i].Acquiring? && st.gs[i].s !in st.gates
    ensures Inv(StoreStep(st, i))
  {
    var st' := StoreStep(st, i);
    forall k | 0 <= k < |st'.gs| ensures GoroutineOk(st', k) { assert GoroutineOk(st, k); }
    assert st.next in st.closers ==> CloserOk(st, st.next);
    forall s | s in st.gates ensures EntryOk(st', s) { assert EntryOk(st, s); }
    forall ch | ch in st'.closers ensures CloserOk(st', ch) { assert CloserOk(st, ch); }
  }

  lemma {:induction false} DeleteKeeps(st: State, i: nat)
    requires Inv(st) && i < |st.gs| && st.gs[i].Releasing?
    ensures Inv(DeleteStep(st, i))
  {
    var st' := DeleteStep(st, i);
    assert GoroutineOk(st, i) && EntryOk(st, st.gs[i].s);
    forall k | 0 <= k < |st'.gs| ensures GoroutineOk(st', k) { assert GoroutineOk(st, k); }
    forall s | s in st'.gates ensures EntryOk(st', s) { assert EntryOk(st, s); }
    forall ch | ch in st'.closers ensures CloserOk(st', ch) { if ch != st.gs[i].ch { assert CloserOk(st, ch); } }
  }

  lemma {:induction false} CloseKeeps(st: State, i: nat)
    requires Inv(st) && i < |st.gs| && st.gs[i].Closing?
    ensures Inv(CloseStep(st, i))
  {
    var st' := CloseStep(st, i);
    assert GoroutineOk(st, i) && CloserOk(st, st.gs[i].ch);
    forall k | 0 <= k < |st'.gs| ensures GoroutineOk(st', k) { assert GoroutineOk(st, k); }
    forall s | s in st'.gates ensures EntryOk(st', s) { assert EntryOk(st, s); }
    forall ch | ch in st'.closers ensures CloserOk(st', ch) { assert CloserOk(st, ch); }
  }

  lemma {:induction false} StepKeepsInv(st: State, i: nat, a: Action)
    requires Inv(st) && Enabled(st, i, a)
    ensures Inv(Step(st, i, a))
  {
    var g := st.gs[i];
    match a
    case CallAcquire(s) => LocalKeeps(st, i, Acquiring(s));
    case LoadOrStore => if g.s in st.gates { WaitKeeps(st, i); } else { StoreKeeps(st, i); }
    case ContextLive => LocalKeeps(st, i, Holding(g.s, g.ch));
    case ContextDead => LocalKeeps(st, i, Releasing(g.s, g.ch));
    case Wake => LocalKeeps(st, i, Acquiring(g.s));
    case GiveUp => LocalKeeps(st, i, Idle);
    case CallRelease => LocalKeeps(st, i, Releasing(g.s, g.ch));
    case LoadAndDelete => DeleteKeeps(st, i);
    case Close => CloseKeeps(st, i);
  }

  lemma {:induction false} RunKeepsInv(run: seq<State>, k: nat)
    requires IsRun(run) && k < |run|
    ensures Inv(run[k])
  {
    if k > 0 {
      RunKeepsInv(run, k - 1);
      assert Next(run[k - 1], run[k]);
      var i: nat, a :| Takes(run[k - 1], i, a, run[k]);
      StepKeepsInv(run[k - 1], i, a);
    }
  }

  /** Mutual exclusion: two goroutines never hold the same session's gate at once. */
  lemma {:induction false} MutualExclusion(run: seq<State>, k: nat, i: nat, j: nat)
    requires IsRun(run) && k < |run| && i < |run[k].gs| && j < |run[k].gs|
    requires run[k].gs[i].Holding? && run[k].gs[j].Holding? && run[k].gs[i].s == run[k].gs[j].s
    ensures i == j
  {
    RunKeepsInv(run, k);
    assert GoroutineOk(run[k], i) && GoroutineOk(run[k], j);
  }

  /** No channel is ever closed twice (Go would panic), and a holder's or closer's channel is still open. */
  lemma {:induction false} ClosedAtMostOnce(run: seq<State>, k: nat, ch: Channel)
    requires IsRun(run) && k < |run|
    ensures Closes(run[k], ch) <= 1
    ensures forall i :: 0 <= i < |run[k].gs| && (Owner(run[k].gs[i]) || run[k].gs[i].Closing?) ==>
              Closes(run[k], run[k].gs[i].ch) == 0
  {
    RunKeepsInv(run, k);
    forall i | 0 <= i < |run[k].gs| && (Owner(run[k].gs[i]) || run[k].gs[i].Closing?)
      ensures run[k].gs[i].ch !in run[k].closes
    {
      assert GoroutineOk(run[k], i);
      if Owner(run[k].gs[i]) {
        assert EntryOk(run[k], run[k].gs[i].s);
      } else {
        assert CloserOk(run[k], run[k].gs[i].ch);
      }
    }
  }

  /** Release by an owner always finds its own entry: LoadAndDelete never comes back empty or with another's. */
  lemma {:induction false} ReleaseFindsOwnEntry(run: seq<State>, k: nat, i: nat)
    requires IsRun(run) && k < |run| && i < |run[k].gs| && run[k].gs[i].Releasing?
    ensures var g := run[k].gs[i]; g.s in run[k].gates && Step(run[k], i, LoadAndDelete).gs[i] == Closing(g.s, g.ch)
  {
    RunKeepsInv(run, k);
    assert GoroutineOk(run[k], i);
  }

  predicate Owes(g: Goroutine, ch: Channel) { (Owner(g) || g.Closing?) && g.ch == ch }

  /** No lost wake-up, as progress: a waiter that cannot wake has another goroutine that still owes it the
      close, either as the present owner of the session or between LoadAndDelete and close. */
  lemma {:induction false} WaiterHasAWaker(run: seq<State>, k: nat, i: nat)
    requires IsRun(run) && k < |run| && i < |run[k].gs| && run[k].gs[i].Waiting?
    requires !Enabled(run[k], i, Wake)
    ensures exists j :: 0 <= j < |run[k].gs| && j != i && Owes(run[k].gs[j], run[k].gs[i].ch)
  {
    RunKeepsInv(run, k);
    var st, w := run[k], run[k].gs[i];
    assert GoroutineOk(st, i);
    if w.ch in st.closers {
      assert CloserOk(st, w.ch);
      assert Owes(st.gs[st.closers[w.ch]], w.ch);
    } else {
      assert EntryOk(st, w.s);
      assert Owes(st.gs[st.gates[w.s].owner], w.ch);
    }
  }

  // ---- what Acquire and Release come to ----

  /** Some actions of goroutine i, one after the other. */
  ghost predicate Does(st: State, i: nat, actions: seq<Action>, st': State)
    decreases |actions|
  {
    if actions == [] then st' == st
    else Enabled(st, i, actions[0]) && Does(Step(st, i, actions[0]), i, actions[1..], st')
  }

  lemma {:induction false} DoesFirst(st: State, i: nat, a: Action, rest: seq<Action>, st': State)
    requires Enabled(st, i, a) && Does(Step(st, i, a), i, rest, st')
    ensures Does(st, i, [a] + rest, st')
  {
    assert ([a] + rest)[1..] == rest;
  }

  /** Acquire on a free session with a live context succeeds: the goroutine holds the session under a new channel. */
  lemma {:induction false} AcquireHolds(st: State, i: nat, s: Session) returns (st': State)
    requires i < |st.gs| && st.gs[i] == Acquiring(s) && s !in st.gates
    ensures Does(st, i, [LoadOrStore, ContextLive], st')
    ensures st'.gs == st.gs[i := Holding(s, st.next)]
    ensures s in st'.gates && st'.gates[s].ch == st.next && st'.gates - {s} == st.gates
  {
    var one := Step(st, i, LoadOrStore);
    st' := Step(one, i, ContextLive);
    DoesFirst(one, i, ContextLive, [], st');
    DoesFirst(st, i, LoadOrStore, [ContextLive], st');
    assert [LoadOrStore] + [ContextLive] == [LoadOrStore, ContextLive];
  }

  /** With a dead context it leaves nothing behind: the session is free again, and the channel it stored is closed, so
      that whoever came to wait on it wakes. */
  lemma {:induction false} AcquireGivesBack(st: State, i: nat, s: Session) returns (st': State)
    requires i < |st.gs| && st.gs[i] == Acquiring(s) && s !in st.gates
    ensures Does(st, i, [LoadOrStore, ContextDead, LoadAndDelete, Close], st')
    ensures st'.gs == st.gs[i := Idle] && st'.gates == st.gates
    ensures Closes(st', st.next) == Closes(st, st.next) + 1
  {
    var one := Step(st, i, LoadOrStore);
    var two := Step(one, i, ContextDead);
    st' := ReleaseFrees(two, i, s, st.next);
    DoesFirst(one, i, ContextDead, [LoadAndDelete, Close], st');
    DoesFirst(st, i, LoadOrStore, [ContextDead, LoadAndDelete, Close], st');
    assert [ContextDead] + [LoadAndDelete, Close] == [ContextDead, LoadAndDelete, Close];
    assert [LoadOrStore] + [ContextDead, LoadAndDelete, Close] == [LoadOrStore, ContextDead, LoadAndDelete, Close];
    assert st'.gates == st.gates;
  }

  /** Release frees the session and closes its channel once. */
  lemma {:induction false} ReleaseFrees(st: State, i: nat, s: Session, ch: Channel) returns (st': State)
    requires i < |st.gs| && st.gs[i] == Releasing(s, ch) && s in st.gates && st.gates[s].ch == ch
    ensures Does(st, i, [LoadAndDelete, Close], st')
    ensures st'.gs == st.gs[i := Idle] && st'.gates == st.gates - {s} && Closes(st', ch) == Closes(st, ch) + 1
  {
    var one := Step(st, i, LoadAndDelete);
    st' := Step(one, i, Close);
    DoesFirst(one, i, Close, [], st');
    DoesFirst(st, i, LoadAndDelete, [Close], st');
    assert [LoadAndDelete] + [Close] == [LoadAndDelete, Close];
  }

  /** A holder stays one, with its entry in the map, whatever another goroutine does; one that asks for the session has
      to wait on the holder's channel. */
  lemma {:induction false} HolderUndisturbed(st: State, i: nat, j: nat, a: Action)
    requires Inv(st) && i < |st.gs| && st.gs[i].Holding? && j != i && Enabled(st, j, a)
    ensures var g, st' := st.gs[i], Step(st, j, a);
            && st'.gs[i] == g && g.s in st'.gates && st'.gates[g.s].ch == g.ch
            && (a.LoadOrStore? && st.gs[j].s == g.s ==> st'.gs[j] == Waiting(g.s, g.ch) && st'.gates == st.gates)
  {
    assert GoroutineOk(st, i) && GoroutineOk(st, j);
  }

  /** It leaves only by calling Release, which goes on to free the session; a waiter only when its channel is closed,
      to try again, or when its context ends, leaving the map alone. */
  lemma {:induction false} WaysOut(st: State, i: nat, a: Action)
    requires Enabled(st, i, a)
    ensures var g, g' := st.gs[i], Step(st, i, a).gs[i];
            && (g.Holding? ==> a.CallRelease? && g' == Releasing(g.s, g.ch))
            && (g.Waiting? ==> (a.Wake? && Closes(st, g.ch) > 0 && g' == Acquiring(g.s)) || (a.GiveUp? && g' == Idle))
            && (g.Idle? ==> a.CallAcquire? && g' == Acquiring(a.s))
            && (g.Holding? || g.Waiting? || g.Idle? ==> Step(st, i, a).gates == st.gates)
  {
  }

  /** No goroutine is ever stuck but a waiter whose channel is open and whose context lives. */
  lemma {:induction false} NeverStuck(st: State, i: nat)
    requires i < |st.gs|
    ensures var g := st.gs[i];
            && (g.Idle? ==> forall s: Session :: Enabled(st, i, CallAcquire(s)))
            && (g.Acquiring? ==> Enabled(st, i, LoadOrStore))
            && (g.Stored? ==> Enabled(st, i, ContextLive) && Enabled(st, i, ContextDead))
            && (g.Waiting? ==> Enabled(st, i, GiveUp) && (Enabled(st, i, Wake) <==> Closes(st, g.ch) > 0))
            && (g.Holding? ==> Enabled(st, i, CallRelease))
            && (g.Releasing? ==> Enabled(st, i, LoadAndDelete))
            && (g.Closing? ==> Enabled(st, i, Close))
  {
  }

  /** Holding happens: one goroutine asks for a free session. */
  lemma {:induction false} HoldsExample(s: Session) returns (run: seq<State>)
    ensures IsRun(run) && |run| == 4 && run[3].gs == [Holding(s, 0)] && s in run[3].gates
  {
    var st0 := State(map[], map[], map[], 0, [Idle]);
    var st1 := Step(st0, 0, CallAcquire(s));
    var st2 := Step(st1, 0, LoadOrStore);
    var st3 := Step(st2, 0, ContextLive);
    run := [st0, st1, st2, st3];
    assert Takes(st0, 0, CallAcquire(s), st1) && Takes(st1, 0, LoadOrStore, st2) && Takes(st2, 0, ContextLive, st3);
    assert Next(run[0], run[1]) && Next(run[1], run[2]) && Next(run[2], run[3]);
  }
}
