/** Tool-call ids over whole streams: updates follow starts, when an id is started twice, and raw input at most once
    (pkg/acp/prompt_updates.go). A contract `true == P(..)` says P(..); the comparison makes the verifier carry the
    predicate over whole. */
module CallIds {
  import opened Base
  import opened PromptStream

  // ---- what holds of every stream ----

  lemma {:induction false} StartFound(log: seq<Update>, id: string) returns (j: nat)
    requires id in StartIds(log)
    ensures j < |log| && log[j].Start? && log[j].id == id
  {
    var u := log[|log| - 1];
    if u.Start? && u.id == id { j := |log| - 1; } else { j := StartFound(log[..|log| - 1], id); }
  }

  lemma {:induction false} OrderedAt(log: seq<Update>, i: nat)
    requires Ordered(log) && i < |log| && (log[i].RawInput? || log[i].Progress?)
    ensures log[i].id in StartIds(log[..i])
  {
    if i < |log| - 1 {
      OrderedAt(log[..|log| - 1], i);
      assert log[..|log| - 1][..i] == log[..i];
    }
  }

  /** Whatever the events, every update of a call is preceded by a start under the same id. */
  lemma {:induction false} UpdatesFollowStarts(events: seq<Event>, i: nat) returns (j: nat)
    requires var log := Updates(EMPTY_MAPPER, events); i < |log| && (log[i].RawInput? || log[i].Progress?)
    ensures var log := Updates(EMPTY_MAPPER, events); j < i && log[j].Start? && log[j].id == log[i].id
  {
    RunKeeps(events);
    var log := Updates(EMPTY_MAPPER, events);
    OrderedAt(log, i);
    j := StartFound(log[..i], log[i].id);
  }

  lemma {:induction false} DistinctSnoc(s: seq<string>, x: string)
    ensures NoDup(s + [x]) <==> NoDup(s) && x !in s
  {
    var t := s + [x];
    assert t[|s|] == x && forall i :: 0 <= i < |s| ==> t[i] == s[i];
  }

  /** The event makes a call under an id that is taken. This can only be a generated one. */
  predicate Clash(m: Mapper, e: Event) { Makes(m, e).Some? && Makes(m, e).value in m.byId }

  function GivenId(e: Event): string {
    match e
    case BlockStart(_, id, _, _) => TrimSpace(id)
    case ExecStart(id, _) => TrimSpace(id)
    case ExecOutput(id, _, _, _) => TrimSpace(id)
    case ExecResult(id, _, _, _) => TrimSpace(id)
    case _ => ""
  }

  ghost predicate IsSynthetic(id: string) { exists n: nat :: id == Synthetic(n) }

  // ---- which ids are generated, told from the events alone ----

  /** The event looks up a call or makes one. */
  predicate Reports(e: Event) { if e.BlockStart? then e.toolUse else e.ExecStart? || e.ExecOutput? || e.ExecResult? }

  function IndexIn(e: Event): Option<int> { if e.BlockStart? then e.index else None }

  /** A block with this index has begun. */
  predicate Indexed(events: seq<Event>, i: int) {
    exists k :: 0 <= k < |events| && Reports(events[k]) && IndexIn(events[k]) == Some(i)
  }

  /** A call has come under this id. */
  predicate Carried(events: seq<Event>, id: string) {
    exists k :: 0 <= k < |events| && Reports(events[k]) && GivenId(events[k]) == id
  }

  /** The event has no id, and no block before it to take one from. */
  predicate Nameless(front: seq<Event>, e: Event) {
    Reports(e) && GivenId(e) == "" && (IndexIn(e).Some? ==> !Indexed(front, IndexIn(e).value))
  }

  /** How many ids have been generated. */
  function Generated(events: seq<Event>): nat {
    if events == [] then 0 else
      var front := events[..|events| - 1];
      Generated(front) + if Nameless(front, events[|events| - 1]) then 1 else 0
  }

  /** The event needs a generated id, and a call has already come under that one. */
  predicate Taken(front: seq<Event>, e: Event) {
    Nameless(front, e) && Carried(front, Synthetic(Generated(front) + 1))
  }

  ghost predicate HandedOut(id: string, n: nat) { exists k: nat :: 1 <= k <= n && id == Synthetic(k) }

  /** The mapper's counter and maps hold what the events say. */
  ghost predicate Tracks(events: seq<Event>, m: Mapper) {
    && m.next == Generated(events)
    && (forall i: int :: i in m.byIndex <==> Indexed(events, i))
    && (forall id: string :: id in m.byId <==> (id != "" && Carried(events, id)) || HandedOut(id, m.next))
  }

  lemma {:induction false} CarriedNext(front: seq<Event>, e: Event, id: string, i: int)
    ensures Carried(front + [e], id) <==> Carried(front, id) || (Reports(e) && GivenId(e) == id)
    ensures Indexed(front + [e], i) <==> Indexed(front, i) || (Reports(e) && IndexIn(e) == Some(i))
  {
    var t := front + [e];
    assert t[|front|] == e && forall k :: 0 <= k < |front| ==> t[k] == front[k];
  }

  function Needs(front: seq<Event>, m: Mapper, e: Event): Option<string> {
    if Nameless(front, e) then Some(Synthetic(m.next + 1))
    else if Reports(e) && GivenId(e) != "" && GivenId(e) !in m.byId then Some(GivenId(e))
    else None
  }

  /** What an event makes, told from the events before it. */
  lemma {:induction false} MakesExactly(front: seq<Event>, m: Mapper, e: Event)
    requires Valid(m) && Tracks(front, m)
    ensures Makes(m, e) == Needs(front, m, e)
  {
    if IndexIn(e).Some? && IndexIn(e).value in m.byIndex { FoundByIndex(front, m, IndexIn(e).value); }
    assert IndexIn(e).Some? ==> (IndexIn(e).value in m.byIndex <==> Indexed(front, IndexIn(e).value));
    LooksUp(m, e);
  }

  /** The index leads to a call with a known id. */
  predicate Leads(m: Mapper, i: int)
    requires i in m.byIndex
  {
    m.byIndex[i] < |m.pool| && m.pool[m.byIndex[i]].id in m.byId && m.pool[m.byIndex[i]].id != ""
  }

  /** Every known index does. */
  lemma {:induction false} FoundByIndex(front: seq<Event>, m: Mapper, i: int)
    requires Valid(m) && Tracks(front, m) && i in m.byIndex
    ensures Leads(m, i)
  {
    assert ValidIndex(m);
    var id := Ids(m.pool)[m.byIndex[i]];
    assert id in Ids(m.pool) && id in m.byId;
    if !(id != "" && Carried(front, id)) {
      var k: nat :| 1 <= k <= m.next && id == Synthetic(k);
      assert |Synthetic(k)| >= 10;
    }
  }

  /** Makes in terms of the two maps. */
  lemma {:induction false} LooksUp(m: Mapper, e: Event)
    requires Valid(m)
    requires IndexIn(e).Some? && IndexIn(e).value in m.byIndex ==> Leads(m, IndexIn(e).value)
    ensures Makes(m, e) ==
              if !Reports(e) then None
              else if GivenId(e) != "" then (if GivenId(e) in m.byId then None else Some(GivenId(e)))
              else if IndexIn(e).Some? && IndexIn(e).value in m.byIndex then None
              else Some(Synthetic(m.next + 1))
  {
  }

  lemma {:induction false} NotYetHandedOut(n: nat)
    ensures !HandedOut(Synthetic(n + 1), n)
  {
    if HandedOut(Synthetic(n + 1), n) {
      var k: nat :| 1 <= k <= n && Synthetic(n + 1) == Synthetic(k);
      SyntheticInjective(n + 1, k);
    }
  }

  lemma {:induction false} ClashExactly(front: seq<Event>, m: Mapper, e: Event)
    requires Valid(m) && Tracks(front, m)
    ensures Clash(m, e) <==> Taken(front, e)
  {
    MakesExactly(front, m, e);
    TakenExactly(front, m, e);
  }

  lemma {:induction false} TakenExactly(front: seq<Event>, m: Mapper, e: Event)
    requires Tracks(front, m)
    ensures Needs(front, m, e).Some? && Needs(front, m, e).value in m.byId <==> Taken(front, e)
  {
    var id := Synthetic(m.next + 1);
    NotYetHandedOut(m.next);
    assert |id| >= 10;
    assert id in m.byId <==> Carried(front, id);
  }

  lemma {:induction false} ReportKeys(m: Mapper, rawId: string, name: string, index: Option<int>,
                                      content: Option<string>)
    ensures var m1 := Report(m, rawId, name, index, content).0;
            if Known(m, rawId, index) then m1.byId == m.byId && m1.next == m.next
            else && m1.byId.Keys == m.byId.Keys + {NewId(m, rawId)}
                 && m1.next == if TrimSpace(rawId) == "" then m.next + 1 else m.next
  {
  }

  lemma {:induction false} HandleKeys(m: Mapper, e: Event)
    ensures var m1, makes := Handle(m, e).0, Makes(m, e);
            if makes.None? then m1.byId == m.byId && m1.next == m.next
            else if GivenId(e) == ""
            then && makes.value == Synthetic(m.next + 1)
                 && m1.byId.Keys == m.byId.Keys + {makes.value} && m1.next == m.next + 1
            else makes.value == GivenId(e) && m1.byId.Keys == m.byId.Keys + {makes.value} && m1.next == m.next
  {
    match e
    case BlockStart(toolUse, id, name, index) => ReportKeys(m, id, name, index, None);
    case ExecStart(id, name) => ReportKeys(m, id, name, None, Some(""));
    case ExecOutput(id, name, text, stderr) => ReportKeys(m, id, name, None, Some(OutputText(text, stderr)));
    case ExecResult(id, name, _, _) => ReportKeys(m, id, name, None, Some(""));
    case _ =>
  }

  function SetOf<T(==)>(x: Option<T>): set<T> { if x.Some? then {x.value} else {} }

  lemma {:induction false} ReportIndexes(m: Mapper, rawId: string, name: string, index: Option<int>,
                                         content: Option<string>)
    ensures Report(m, rawId, name, index, content).0.byIndex.Keys ==
              m.byIndex.Keys + SetOf(index)
  {
    var (m1, k) := Ensure(m, rawId, name, index);
    assert m1.byIndex.Keys == m.byIndex.Keys + SetOf(index);
  }

  lemma {:induction false} HandleIndexes(m: Mapper, e: Event)
    ensures Handle(m, e).0.byIndex.Keys ==
              m.byIndex.Keys + SetOf(if Reports(e) then IndexIn(e) else None)
  {
    match e
    case BlockStart(toolUse, id, name, index) => ReportIndexes(m, id, name, index, None);
    case ExecStart(id, name) => ReportIndexes(m, id, name, None, Some(""));
    case ExecOutput(id, name, text, stderr) => ReportIndexes(m, id, name, None, Some(OutputText(text, stderr)));
    case ExecResult(id, name, _, _) => ReportIndexes(m, id, name, None, Some(""));
    case _ =>
  }

  lemma {:induction false} TracksNext(front: seq<Event>, m: Mapper, e: Event)
    requires Valid(m) && Tracks(front, m)
    ensures true == Tracks(front + [e], Handle(m, e).0)
  {
    MakesExactly(front, m, e);
    HandleKeys(m, e);
    HandleIndexes(m, e);
    TracksStep(front, m, e, Handle(m, e).0);
  }

  lemma {:induction false} TracksStep(front: seq<Event>, m: Mapper, e: Event, m1: Mapper)
    requires Tracks(front, m)
    requires m1.byIndex.Keys == m.byIndex.Keys + SetOf(if Reports(e) then IndexIn(e) else None)
    requires m1.byId.Keys == m.byId.Keys + SetOf(Needs(front, m, e))
    requires m1.next == m.next + if Nameless(front, e) then 1 else 0
    ensures true == Tracks(front + [e], m1)
  {
    GeneratedNext(front, e);
    forall i: int ensures i in m1.byIndex <==> Indexed(front + [e], i) {
      CarriedNext(front, e, "", i);
      assert i in m1.byIndex <==> i in m1.byIndex.Keys;
    }
    forall id: string ensures id in m1.byId <==> (id != "" && Carried(front + [e], id)) || HandedOut(id, m1.next) {
      IdStep(front, m, e, m1, id);
    }
  }

  lemma {:induction false} IdStep(front: seq<Event>, m: Mapper, e: Event, m1: Mapper, id: string)
    requires Tracks(front, m)
    requires m1.byId.Keys == m.byId.Keys + SetOf(Needs(front, m, e))
    requires m1.next == m.next + if Nameless(front, e) then 1 else 0
    ensures id in m1.byId <==> (id != "" && Carried(front + [e], id)) || HandedOut(id, m1.next)
  {
    CarriedNext(front, e, id, 0);
    HandedOutNext(id, m.next);
    assert id in m1.byId <==> id in m1.byId.Keys;
    assert id in m.byId <==> (id != "" && Carried(front, id)) || HandedOut(id, m.next);
  }

  lemma {:induction false} GeneratedNext(front: seq<Event>, e: Event)
    ensures Generated(front + [e]) == Generated(front) + if Nameless(front, e) then 1 else 0
  {
    assert (front + [e])[..|front|] == front;
  }

  lemma {:induction false} HandedOutNext(id: string, n: nat)
    ensures HandedOut(id, n + 1) <==> HandedOut(id, n) || id == Synthetic(n + 1)
  {
  }

  lemma {:induction false} TracksRun(events: seq<Event>)
    ensures true == Tracks(events, After(EMPTY_MAPPER, events))
  {
    if events != [] {
      var front := events[..|events| - 1];
      TracksRun(front);
      RunKeeps(front);
      TracksNext(front, After(EMPTY_MAPPER, front), events[|events| - 1]);
      assert front + [events[|events| - 1]] == events;
    }
  }

  /** No call came under the k-th generated id before that was made. */
  predicate NoneTaken(events: seq<Event>) { forall j :: 0 <= j < |events| ==> !Taken(events[..j], events[j]) }

  lemma {:induction false} NoneTakenNext(front: seq<Event>, e: Event)
    ensures NoneTaken(front + [e]) <==> NoneTaken(front) && !Taken(front, e)
  {
    var events := front + [e];
    assert events[..|front|] == front;
    forall j | 0 <= j < |front| ensures Taken(front[..j], front[j]) <==> Taken(events[..j], events[j]) {
      assert front[..j] == events[..j];
    }
    if NoneTaken(events) { assert !Taken(events[..|front|], events[|front|]); }
  }

  /** Every id is started at most once if and only if no generated id was taken. */
  lemma {:induction false} StartedOnceExactlyWhen(events: seq<Event>)
    ensures NoDup(StartIds(Updates(EMPTY_MAPPER, events))) <==> NoneTaken(events)
  {
    if events != [] {
      var front, e := events[..|events| - 1], events[|events| - 1];
      StartedOnceExactlyWhen(front);
      assert front + [e] == events;
      OneMoreTaken(front, e);
      NoneTakenNext(front, e);
    }
  }

  lemma {:induction false} OneMoreTaken(front: seq<Event>, e: Event)
    ensures NoDup(StartIds(Updates(EMPTY_MAPPER, front + [e]))) <==>
              NoDup(StartIds(Updates(EMPTY_MAPPER, front))) && !Taken(front, e)
  {
    assert (front + [e])[..|front|] == front;
    OneMoreEvent(front, e);
    RunKeeps(front);
    TracksRun(front);
    ClashExactly(front, After(EMPTY_MAPPER, front), e);
  }

  lemma {:induction false} OneMoreEvent(front: seq<Event>, e: Event)
    ensures var m, log := After(EMPTY_MAPPER, front), Updates(EMPTY_MAPPER, front);
            NoDup(StartIds(log + Handle(m, e).1)) <==> NoDup(StartIds(log)) && !Clash(m, e)
  {
    RunKeeps(front);
    var m, log := After(EMPTY_MAPPER, front), Updates(EMPTY_MAPPER, front);
    HandleKeeps(m, log, e);
    if Makes(m, e).Some? {
      DistinctSnoc(Ids(m.pool), Makes(m, e).value);
      PoolHoldsIds(m, Makes(m, e).value);
    }
  }

  lemma {:induction false} PoolHoldsIds(m: Mapper, id: string)
    requires Valid(m)
    ensures id in Ids(m.pool) <==> id in m.byId
  {
  }

  /** If no incoming id has the generated form, every id is started at most once. */
  lemma {:induction false} PlainIdsStartOnce(events: seq<Event>)
    requires forall k :: 0 <= k < |events| ==> !IsSynthetic(GivenId(events[k]))
    ensures NoDup(StartIds(Updates(EMPTY_MAPPER, events)))
  {
    forall j | 0 <= j < |events| ensures !Taken(events[..j], events[j]) {
      var id := Synthetic(Generated(events[..j]) + 1);
      forall k | 0 <= k < j ensures GivenId(events[..j][k]) != id { assert events[..j][k] == events[k]; }
    }
    StartedOnceExactlyWhen(events);
  }

  /** A taken generated id does happen: an incoming call named like the first generated one, then one without an id. */
  lemma {:induction false} GeneratedIdTaken(name: string)
    ensures !NoDup(StartIds(Updates(EMPTY_MAPPER, [ExecStart(Synthetic(1), name), ExecStart("", name)])))
  {
    var e, f := ExecStart(Synthetic(1), name), ExecStart("", name);
    FirstIsTrimmed();
    assert [e, f][..1] == [e] && [e][..0] == [] && [e, f][1] == f;
    assert !Nameless([], e) && Generated([e]) == 0;
    assert [e][0] == e && Carried([e], Synthetic(1)) && TrimSpace("") == "";
    assert Taken([e, f][..1], [e, f][1]);
    StartedOnceExactlyWhen([e, f]);
  }

  lemma {:induction false} FirstIsTrimmed()
    ensures TrimSpace(Synthetic(1)) == Synthetic(1) != ""
  {
    assert Synthetic(1) == "tool_call_1";
    TrimSpaceFixed(Synthetic(1));
  }

  // ---- raw input ----

  lemma {:induction false} EmittedOnce(pool: seq<Call>, id: string)
    requires NoDup(Ids(pool))
    ensures multiset(EmittedIds(pool))[id] <= 1
    ensures id in EmittedIds(pool) ==> id in Ids(pool)
  {
    if pool != [] {
      var rest := pool[1..];
      assert Ids(pool)[1..] == Ids(rest);
      assert NoDup(Ids(rest)) by {
        forall i, j | 0 <= i < j < |rest|
          ensures Ids(rest)[i] != Ids(rest)[j]
        { assert Ids(pool)[i + 1] != Ids(pool)[j + 1]; }
      }
      EmittedOnce(rest, id);
      if id in Ids(rest) { HeadIsNew(pool, id); }
      assert Ids(pool) == [pool[0].id] + Ids(rest);
    }
  }

  lemma {:induction false} HeadIsNew(pool: seq<Call>, id: string)
    requires pool != [] && NoDup(Ids(pool)) && id in Ids(pool[1..])
    ensures pool[0].id != id
  {
    var k :| 0 <= k < |pool[1..]| && Ids(pool[1..])[k] == id;
    assert Ids(pool)[k + 1] == id && Ids(pool)[0] == pool[0].id;
  }

  /** Where ids are started once, raw input is sent at most once per id. */
  lemma {:induction false} InputAtMostOnce(events: seq<Event>, id: string)
    requires NoDup(StartIds(Updates(EMPTY_MAPPER, events)))
    ensures multiset(InputIds(Updates(EMPTY_MAPPER, events)))[id] <= 1
  {
    RunKeeps(events);
    EmittedOnce(After(EMPTY_MAPPER, events).pool, id);
  }

  lemma {:induction false} SyntheticInjective(m: nat, n: nat)
    requires Synthetic(m) == Synthetic(n)
    ensures m == n
  {
    assert Synthetic(m)[10..] == Decimal(m) && Synthetic(n)[10..] == Decimal(n);
    DecimalInjective(m, n);
  }
}
