/** The session history cache (pkg/api/runtime_helpers_session.go): least recently used sessions are evicted. */
module HistoryStore {
  import opened Base

  const DEFAULT_MAX_SESSIONS: nat := 1000

  predicate Blank(id: string) { TrimSpace(id) == "" }

  // ---- reference: the distinct ids of a request trace, most recent first ----

  function Without(s: seq<string>, x: string): seq<string> {
    if s == [] then [] else Without(s[..|s| - 1], x) + if s[|s| - 1] == x then [] else [s[|s| - 1]]
  }

  function Recent(trace: seq<string>): seq<string> {
    if trace == [] then [] else
      var id := trace[|trace| - 1];
      [id] + Without(Recent(trace[..|trace| - 1]), id)
  }

  /** The `size` most recently requested distinct ids. */
  function Kept(trace: seq<string>, size: nat): seq<string> {
    Cap(Recent(trace), size)
  }

  lemma {:induction false} WithoutConcat(a: seq<string>, b: seq<string>, x: string)
    ensures Without(a + b, x) == Without(a, x) + Without(b, x)
  {
    if b == [] { assert a + b == a; } else {
      assert (a + b)[..|a + b| - 1] == a + b[..|b| - 1];
      WithoutConcat(a, b[..|b| - 1], x);
    }
  }

  lemma {:induction false} WithoutAbsent(s: seq<string>, x: string)
    requires x !in s
    ensures Without(s, x) == s
  {
    if s != [] { WithoutAbsent(s[..|s| - 1], x); }
  }

  lemma {:induction false} WithoutMembers(s: seq<string>, x: string)
    ensures forall y :: y in Without(s, x) <==> y in s && y != x
    ensures NoDup(s) ==> NoDup(Without(s, x))
  {
    if s != [] {
      var f := s[..|s| - 1];
      WithoutMembers(f, x);
      assert s == f + [s[|s| - 1]];
      if NoDup(s) { assert s[|s| - 1] !in f; }
    }
  }

  lemma {:induction false} RecentNoDup(trace: seq<string>)
    ensures NoDup(Recent(trace)) && forall y :: y in Recent(trace) <==> y in trace
  {
    if trace != [] {
      var f, id := trace[..|trace| - 1], trace[|trace| - 1];
      RecentNoDup(f);
      WithoutMembers(Recent(f), id);
      assert trace == f + [id];
      assert id !in Without(Recent(f), id);
    }
  }

  /** Removing x keeps the part in front of any other element in place. */
  lemma {:induction false} WithoutSplit(s: seq<string>, x: string, p: nat)
    requires p < |s|
    ensures Without(s, x) == Without(s[..p], x) + (if s[p] == x then [] else [s[p]]) + Without(s[p + 1..], x)
  {
    var a, m, b := s[..p], [s[p]], s[p + 1..];
    assert s == (a + m) + b;
    WithoutConcat(a + m, b, x);
    WithoutConcat(a, m, x);
    assert m[..0] == [] && Without(m, x) == if s[p] == x then [] else m;
  }

  /** Removing an element of a duplicate-free list cuts it in place. */
  lemma {:induction false} WithoutAt(s: seq<string>, p: nat)
    requires NoDup(s) && p < |s|
    ensures Without(s, s[p]) == s[..p] + s[p + 1..]
  {
    assert s == s[..p] + [s[p]] + s[p + 1..];
    CutOut(s[..p], s[p], s[p + 1..]);
  }

  lemma {:induction false} CutOut(a: seq<string>, x: string, b: seq<string>)
    requires x !in a && x !in b
    ensures Without(a + [x] + b, x) == a + b
  {
    WithoutConcat(a + [x], b, x);
    WithoutConcat(a, [x], x);
    WithoutAbsent(a, x);
    WithoutAbsent(b, x);
    assert [x][..0] == [] && Without([x], x) == [] && a + [] == a;
  }

  lemma {:induction false} RecentStep(trace: seq<string>, id: string)
    ensures Recent(trace + [id]) == [id] + Without(Recent(trace), id)
  {
    assert (trace + [id])[..|trace|] == trace;
  }

  /** Requesting a kept id moves it to the front of the kept list. */
  lemma {:induction false} KeptHit(trace: seq<string>, size: nat, p: nat)
    requires p < |Kept(trace, size)|
    ensures var k := Kept(trace, size); Kept(trace + [k[p]], size) == [k[p]] + (k[..p] + k[p + 1..])
  {
    RecentNoDup(trace);
    RecentStep(trace, Recent(trace)[p]);
    WithoutAt(Recent(trace), p);
    CutWithinCap(Recent(trace), size, p);
  }

  lemma {:induction false} CutWithinCap(r: seq<string>, size: nat, p: nat)
    requires p < |Cap(r, size)|
    ensures var k := Cap(r, size);
            k[p] == r[p] && Cap([r[p]] + (r[..p] + r[p + 1..]), size) == [k[p]] + (k[..p] + k[p + 1..])
  {
  }

  function Cap(s: seq<string>, size: nat): seq<string> { if |s| <= size then s else s[..size] }

  /** Requesting an id that is not kept puts it in front and drops the last one when the list was full. */
  lemma {:induction false} KeptMiss(trace: seq<string>, size: nat, id: string)
    requires id !in Kept(trace, size) && size > 0
    ensures Kept(trace + [id], size) == Cap([id] + Kept(trace, size), size)
  {
    RecentNoDup(trace);
    RecentStep(trace, id);
    FrontOfCapped(Recent(trace), size, id);
  }

  lemma {:induction false} FrontOfCapped(r: seq<string>, size: nat, id: string)
    requires NoDup(r) && size > 0 && id !in Cap(r, size)
    ensures Cap([id] + Without(r, id), size) == Cap([id] + Cap(r, size), size)
  {
    if p :| 0 <= p < |r| && r[p] == id {
      assert forall q :: 0 <= q < |Cap(r, size)| ==> Cap(r, size)[q] == r[q];
      WithoutAt(r, p);
      CutBeyondCap(r, size, p, id);
    } else {
      WithoutAbsent(r, id);
      CapTwice([id], r, size);
    }
  }

  lemma {:induction false} CapTwice(a: seq<string>, r: seq<string>, size: nat)
    requires |a| <= size
    ensures Cap(a + r, size) == Cap(a + Cap(r, size), size)
  {
  }

  lemma {:induction false} CutBeyondCap(r: seq<string>, size: nat, p: nat, id: string)
    requires 0 < size <= p < |r|
    ensures Cap([id] + (r[..p] + r[p + 1..]), size) == Cap([id] + Cap(r, size), size)
  {
    assert Cap([id] + (r[..p] + r[p + 1..]), size) == [id] + r[..size - 1];
  }

  /** What "recent" means: exactly the ids requested after id's last request stand in front of it. */
  lemma {:induction false} RecentMeaning(trace: seq<string>, i: nat, last: nat)
    requires i < |Recent(trace)| && last < |trace| && trace[last] == Recent(trace)[i]
    requires Recent(trace)[i] !in trace[last + 1..]
    ensures forall y :: y in Recent(trace)[..i] <==> y in trace[last + 1..]
    decreases |trace|
  {
    var f, x, id := trace[..|trace| - 1], trace[|trace| - 1], Recent(trace)[i];
    RecentNoDup(f);
    if i == 0 {
      assert x !in trace[last + 1..];
    } else {
      var r, w := Recent(f), Without(Recent(f), x);
      WithoutMembers(r, x);
      assert w[i - 1] == id && id in w;
      var p :| 0 <= p < |r| && r[p] == id;
      assert trace[last + 1..] == f[last + 1..] + [x];
      RecentMeaning(f, p, last);
      FrontWithout(r, x, p, i - 1);
      WithoutMembers(r[..p], x);
      assert Recent(trace)[..i] == [x] + w[..i - 1];
    }
  }

  /** Removing x leaves in front of any other element what was in front of it, less x. */
  lemma {:induction false} FrontWithout(s: seq<string>, x: string, p: nat, i: nat)
    requires NoDup(s) && p < |s| && s[p] != x && i < |Without(s, x)| && Without(s, x)[i] == s[p]
    ensures Without(s, x)[..i] == Without(s[..p], x)
  {
    WithoutSplit(s, x, p);
    WithoutMembers(s, x);
    var front := Without(s[..p], x);
    assert Without(s, x)[|front|] == s[p];
  }

  // ---- the store ----

  /** A *message.History, named by the order of creation. */
  type History = nat

  ghost predicate AllBefore(m: map<string, int>, t: int) { forall k :: k in m ==> m[k] < t }

  /** The map lists exactly the kept ids, each strictly younger than all that follow it. */
  ghost predicate Lists(kept: seq<string>, m: map<string, int>) {
    if kept == [] then m == map[] else
      kept[0] in m && AllBefore(m - {kept[0]}, m[kept[0]]) && Lists(kept[1..], m - {kept[0]})
  }

  lemma {:induction false} ListsInsert(kept: seq<string>, m: map<string, int>, id: string, now: int)
    requires Lists(kept, m) && id !in m && AllBefore(m, now)
    ensures Lists([id] + kept, m[id := now])
  {
    assert ([id] + kept)[1..] == kept && m[id := now] - {id} == m;
  }

  lemma {:induction false} ListsRemove(kept: seq<string>, m: map<string, int>, p: nat)
    requires Lists(kept, m) && p < |kept|
    ensures kept[p] in m && Lists(kept[..p] + kept[p + 1..], m - {kept[p]})
  {
    var rest := kept[..p] + kept[p + 1..];
    if p == 0 {
      assert rest == kept[1..];
    } else {
      var m' := m - {kept[0]};
      ListsRemove(kept[1..], m', p - 1);
      assert rest[0] == kept[0] && rest[1..] == kept[1..][..p - 1] + kept[1..][p..];
      assert m' - {kept[p]} == m - {kept[p]} - {kept[0]};
    }
  }

  lemma {:induction false} ListsMembers(kept: seq<string>, m: map<string, int>, id: string)
    requires Lists(kept, m)
    ensures id in m <==> id in kept
    ensures |m| == |kept|
  {
    if kept != [] {
      ListsMembers(kept[1..], m - {kept[0]}, id);
      assert kept == [kept[0]] + kept[1..];
      assert m.Keys == (m - {kept[0]}).Keys + {kept[0]};
      assert |m| == |m.Keys| && |m - {kept[0]}| == |(m - {kept[0]}).Keys|;
    }
  }

  lemma {:induction false} OldestIsLast(kept: seq<string>, m: map<string, int>, oldest: string)
    requires Lists(kept, m) && oldest in m && forall id :: id in m ==> m[oldest] <= m[id]
    ensures kept != [] && oldest == kept[|kept| - 1]
  {
    if |kept| == 1 {
      assert m - {kept[0]} == map[];
      assert forall k :: k in m ==> k == kept[0] || k in m - {kept[0]};
    } else if |kept| > 1 {
      assert kept[1..][0] in m - {kept[0]};
      OldestIsLast(kept[1..], m - {kept[0]}, oldest);
    }
  }

  function ToFront(kept: seq<string>, p: nat): seq<string>
    requires p < |kept|
  {
    [kept[p]] + (kept[..p] + kept[p + 1..])
  }

  lemma {:induction false} ListsTouch(kept: seq<string>, m: map<string, int>, p: nat, now: int)
    requires Lists(kept, m) && p < |kept| && AllBefore(m, now)
    ensures kept[p] in m && Lists(ToFront(kept, p), m[kept[p] := now])
  {
    ListsRemove(kept, m, p);
    ListsInsert(kept[..p] + kept[p + 1..], m - {kept[p]}, kept[p], now);
    assert (m - {kept[p]})[kept[p] := now] == m[kept[p] := now];
  }

  // ---- what a request does to the use times ----

  predicate LastOf(kept: seq<string>, id: string) { kept != [] && kept[|kept| - 1] == id }

  /** No key of m is older. With equal readings there may be several. */
  ghost predicate IsOldest(m: map<string, int>, key: string) {
    key in m && forall id :: id in m ==> m[key] <= m[id]
  }

  /** The use times hold exactly the size most recently requested distinct ids, in the order of their requests. */
  ghost predicate InOrder(trace: seq<string>, size: nat, lastUsed: map<string, int>) {
    Lists(Kept(trace, size), lastUsed)
  }

  lemma {:induction false} HitKeepsOrder(trace: seq<string>, size: nat, m: map<string, int>, id: string, now: int)
    requires InOrder(trace, size, m) && AllBefore(m, now) && id in m
    ensures true == InOrder(trace + [id], size, m[id := now])
  {
    var kept := Kept(trace, size);
    ListsMembers(kept, m, id);
    var p :| 0 <= p < |kept| && kept[p] == id;
    KeptHit(trace, size, p);
    ListsTouch(kept, m, p, now);
  }

  lemma {:induction false} MissKeepsOrder(trace: seq<string>, size: nat, m: map<string, int>, id: string, now: int)
    requires InOrder(trace, size, m) && AllBefore(m, now) && id !in m && |m| < size
    ensures true == InOrder(trace + [id], size, m[id := now])
  {
    ListsMembers(Kept(trace, size), m, id);
    KeptMiss(trace, size, id);
    ListsInsert(Kept(trace, size), m, id, now);
  }

  lemma {:induction false} EvictionKeepsOrder(trace: seq<string>, size: nat, m: map<string, int>, id: string, now: int,
                                              key: string)
    requires InOrder(trace, size, m) && AllBefore(m, now) && id !in m && |m| == size > 0
    requires IsOldest(m[id := now], key)
    ensures true == InOrder(trace + [id], size, m[id := now] - {key})
    ensures LastOf(Kept(trace, size), key) && key != id
  {
    var kept := Kept(trace, size);
    var more := [id] + kept;
    ListsMembers(kept, m, id);
    KeptMiss(trace, size, id);
    ListsInsert(kept, m, id, now);
    OldestIsLast(more, m[id := now], key);
    ListsRemove(more, m[id := now], size);
    assert more[..size] + more[size + 1..] == more[..size] && more[size] == kept[size - 1];
    assert key in kept;
  }

  /** A full store is sure to give up the session `last` exactly when it alone has the least use time. */
  lemma {:induction false} LeastRecentGoesExactlyWhen(m: map<string, int>, last: string)
    requires last in m
    ensures (forall key :: IsOldest(m, key) ==> key == last) <==> forall k :: k in m && k != last ==> m[last] < m[k]
  {
    if forall k :: k in m && k != last ==> m[last] < m[k] {
      forall key | IsOldest(m, key) ensures key == last { assert m[key] <= m[last]; }
    } else {
      var k :| k in m && k != last && m[k] <= m[last];
      OldestExists(m, k);
      var key :| IsOldest(m, key) && m[key] <= m[k];
      assert key == last ==> IsOldest(m, k);
    }
  }

  lemma {:induction false} OldestExists(m: map<string, int>, k: string)
    requires k in m
    ensures exists key :: IsOldest(m, key) && m[key] <= m[k]
    decreases |m|
  {
    if j :| j in m && m[j] < m[k] {
      var rest := m - {k};
      assert rest.Keys == m.Keys - {k} && |rest.Keys| < |m.Keys|;
      assert |rest| == |rest.Keys| && |m| == |m.Keys|;
      OldestExists(rest, j);
      var key :| IsOldest(rest, key) && rest[key] <= rest[j];
      assert forall id :: id in m ==> id == k || (id in rest && rest[id] == m[id]);
      assert IsOldest(m, key);
    } else {
      assert IsOldest(m, k);
    }
  }

  /** Two sessions requested at the same reading of the clock: either may be the one that goes, the new one included. */
  lemma {:induction false} TieExample()
    ensures var m := map["a" := 7]["b" := 7]; IsOldest(m, "a") && IsOldest(m, "b")
  {
  }

  function Effective(rawId: string, fallback: string): string { if Blank(rawId) then fallback else rawId }

  /** An id that says anything is taken as it is, any other stands for the default session. */
  lemma {:induction false} EffectiveMeaning(rawId: string, fallback: string)
    ensures Effective(rawId, fallback) ==
              if exists k :: 0 <= k < |rawId| && !IsSpace(rawId[k]) then rawId else fallback
  {
    var i, j := TrimSpaceMeaning(rawId);
    assert TrimSpace(rawId) != "" ==> !IsSpace(rawId[i]);
  }

  class Store {
    var data: map<string, History>
    var lastUsed: map<string, int>
    const maxSize: nat
    var created: nat
    ghost var trace: seq<string>
    ghost var owners: seq<string>          // for every history ever made, the session it was made for

    /** newHistoryStore */
    constructor (size: int)
      ensures Valid() && trace == [] && data == map[] && lastUsed == map[] && created == 0
      ensures maxSize == if size <= 0 then DEFAULT_MAX_SESSIONS else size
      ensures InOrder(trace, maxSize, lastUsed)
    {
      data, lastUsed, created, trace, owners := map[], map[], 0, [], [];
      maxSize := if size <= 0 then DEFAULT_MAX_SESSIONS else size;
    }

    ghost function Now(): State
      reads this
    {
      State(data, lastUsed, owners)
    }

    ghost predicate Valid()
      reads this
    {
      maxSize > 0 && created == |owners| && true == Good(Now(), maxSize)
    }

    /** The scan of evictOldest over lastUsed, in whatever order the map yields. */
    method Oldest() returns (key: string)
      requires lastUsed != map[]
      ensures IsOldest(lastUsed, key)
    {
      var first, oldest, left := true, 0, lastUsed.Keys;
      key := "";
      while left != {}
        invariant left <= lastUsed.Keys && (first ==> left == lastUsed.Keys)
        invariant !first ==> key in lastUsed && oldest == lastUsed[key]
        invariant !first ==> forall id :: id in lastUsed.Keys - left ==> oldest <= lastUsed[id]
        decreases left
      {
        var id :| id in left;
        if first || lastUsed[id] < oldest { key, oldest, first := id, lastUsed[id], false; }
        left := left - {id};
      }
    }

    /** Nothing to do while the store is within its size; the guard on the empty key is the source's own. */
    method EvictOldest() returns (key: string)
      requires data.Keys == lastUsed.Keys && "" !in data
      modifies `data, `lastUsed
      ensures key != "" <==> |old(data)| > maxSize
      ensures key != "" ==> IsOldest(old(lastUsed), key)
      ensures data == Dropped(old(data), key) && lastUsed == Dropped(old(lastUsed), key)
    {
      if |data| <= maxSize { return ""; }
      assert data != map[] && data.Keys != {};
      key := Oldest();
      if key == "" { return; }
      data, lastUsed := data - {key}, lastUsed - {key};
    }

    /** The locked part of Get, for the effective id and any reading of the clock. */
    method Request(id: string, now: int) returns (hist: History, evicted: string)
      requires Valid() && id != ""
      modifies this
      ensures Valid() && trace == old(trace) + [id]
      ensures true == Served(maxSize, id, now, old(Now()), hist, evicted, Now())
    {
      ghost var before := Now();
      trace := trace + [id];
      if id in data {
        hist, evicted := data[id], "";
        lastUsed := lastUsed[id := now];
        HitServed(maxSize, id, now, before);
        return;
      }
      hist, evicted := Admit(id, now);
      MissServed(maxSize, id, now, before, evicted, Now());
    }

    /** A session that is not present: made, and one evicted if there are now too many. */
    method Admit(id: string, now: int) returns (hist: History, evicted: string)
      requires data.Keys == lastUsed.Keys && "" !in data && id !in data && id != "" && |data| <= maxSize
      modifies `data, `lastUsed, `created, `owners
      ensures hist == old(created) && created == old(created) + 1 && owners == old(owners) + [id]
      ensures evicted != "" <==> |old(data)| == maxSize
      ensures evicted != "" ==> IsOldest(old(lastUsed)[id := now], evicted)
      ensures lastUsed == Dropped(old(lastUsed)[id := now], evicted) && data == Dropped(old(data)[id := hist], evicted)
    {
      GrownSize(data, id, created, "");
      hist, created, owners := created, created + 1, owners + [id];
      data, lastUsed, evicted := data[id := hist], lastUsed[id := now], "";
      if |data| > maxSize { evicted := EvictOldest(); }
    }

    /** Get: the clock is read once, under the lock; fallback is what defaultSessionID would return. */
    method Get(rawId: string, fallback: string, now: int) returns (hist: History, evicted: string)
      requires Valid() && !Blank(fallback)
      modifies this
      ensures Valid() && trace == old(trace) + [Effective(rawId, fallback)]
      ensures true == Served(maxSize, Effective(rawId, fallback), now, old(Now()), hist, evicted, Now())
      ensures Effective(rawId, fallback) !in data <==> evicted == Effective(rawId, fallback)
      ensures evicted !in data && forall k :: k in old(data) && k != evicted ==> k in data && data[k] == old(data)[k]
      ensures old(InOrder(trace, maxSize, lastUsed)) && AllBefore(old(lastUsed), now) ==>
                && InOrder(trace, maxSize, lastUsed) && Effective(rawId, fallback) in data
                && (evicted != "" ==> LastOf(Kept(old(trace), maxSize), evicted))
    {
      ghost var before, t := Now(), trace;
      ghost var id := Effective(rawId, fallback);
      hist, evicted := Request(Effective(rawId, fallback), now);
      ServedKeeps(maxSize, id, now, before, hist, evicted, Now());
      if InOrder(t, maxSize, before.lastUsed) && AllBefore(before.lastUsed, now) {
        ServedInOrder(t, maxSize, id, now, before, hist, evicted, Now());
      }
    }

    /** Any run of Get calls on a new store. No two sessions are ever given the same history. When the clock increases,
        the store holds exactly the most recently requested sessions, and a session gets the history it got last time
        exactly when fewer than maxSize others have been asked for since. */
    method GetAll(calls: seq<Get>) returns (hists: seq<History>)
      requires Valid() && trace == [] && data == map[] && created == 0
      requires forall i :: 0 <= i < |calls| ==> !Blank(calls[i].fallback)
      modifies this
      ensures Valid() && trace == IdsOf(calls) && |hists| == |calls|
      ensures forall i, j :: 0 <= i < j < |hists| && hists[i] == hists[j] ==> trace[i] == trace[j]
      ensures Increasing(calls) ==> data.Keys == Elements(Kept(trace, maxSize)) && Remembers(trace, hists, maxSize)
    {
      hists := [];
      for k := 0 to |calls|
        invariant Valid() && true == RunAt(calls, k, maxSize, trace, hists, Now())
      {
        ghost var t, a := trace, Now();
        var c := calls[k];
        var hist, evicted := Get(c.rawId, c.fallback, c.now);
        RunNext(calls, k, maxSize, t, hists, a, hist, evicted, Now());
        hists := hists + [hist];
      }
      RunEnd(calls, maxSize, trace, hists, Now());
    }
  }

  // ---- one request ----

  /** The sessions, their use times, and for every history ever made the session it was made for. */
  datatype State = State(data: map<string, History>, lastUsed: map<string, int>, owners: seq<string>)

  ghost predicate Good(st: State, size: nat) {
    && st.data.Keys == st.lastUsed.Keys && |st.data| <= size && "" !in st.data
    && Owned(st.data, st.owners)
  }

  /** A session present is given its history, any other a new one; the use time is noted; exactly when a new session
      meets a full store, one of least use time goes. */
  ghost predicate Served(size: nat, id: string, now: int, a: State, hist: History, evicted: string, b: State) {
    && hist == (if id in a.data then a.data[id] else |a.owners|)
    && b.owners == (if id in a.data then a.owners else a.owners + [id])
    && (evicted != "" <==> id !in a.data && |a.data| == size)
    && (evicted != "" ==> IsOldest(a.lastUsed[id := now], evicted))
    && b.lastUsed == Dropped(a.lastUsed[id := now], evicted)
    && b.data == Dropped(a.data[id := hist], evicted)
  }

  function Dropped<V>(m: map<string, V>, key: string): map<string, V> { if key == "" then m else m - {key} }

  lemma {:induction false} HitServed(size: nat, id: string, now: int, a: State)
    requires Good(a, size) && id in a.data
    ensures var b := State(a.data, a.lastUsed[id := now], a.owners);
            true == Served(size, id, now, a, a.data[id], "", b) && true == Good(b, size)
  {
    assert a.data[id := a.data[id]] == a.data;
  }

  lemma {:induction false} MissServed(size: nat, id: string, now: int, a: State, evicted: string, b: State)
    requires Good(a, size) && id != "" && id !in a.data && b.owners == a.owners + [id]
    requires evicted != "" <==> |a.data| == size
    requires evicted != "" ==> IsOldest(a.lastUsed[id := now], evicted)
    requires b.lastUsed == Dropped(a.lastUsed[id := now], evicted)
    requires b.data == Dropped(a.data[id := |a.owners|], evicted)
    ensures true == Served(size, id, now, a, |a.owners|, evicted, b) && true == Good(b, size)
  {
    GrownSize(a.data, id, |a.owners|, evicted);
    GrownKeys(a.data, a.lastUsed, id, |a.owners|, now, evicted);
    GrownOwned(a.data, a.owners, id, evicted);
  }

  lemma {:induction false} GrownKeys(data: map<string, History>, m: map<string, int>, id: string, hist: History,
                                     now: int, evicted: string)
    requires data.Keys == m.Keys && id != "" && "" !in data
    ensures Dropped(data[id := hist], evicted).Keys == Dropped(m[id := now], evicted).Keys
    ensures "" !in Dropped(data[id := hist], evicted)
  {
  }

  lemma {:induction false} GrownOwned(data: map<string, History>, owners: seq<string>, id: string, evicted: string)
    requires Owned(data, owners)
    ensures true == Owned(Dropped(data[id := |owners|], evicted), owners + [id])
  {
    OwnedNext(data, owners, id, Dropped(data[id := |owners|], evicted));
  }

  lemma {:induction false} GrownSize(data: map<string, History>, id: string, hist: History, evicted: string)
    requires id !in data && (evicted != "" ==> evicted in data[id := hist])
    ensures |Dropped(data[id := hist], evicted)| == if evicted == "" then |data| + 1 else |data|
  {
    var grown := data[id := hist];
    assert grown.Keys == data.Keys + {id} && |grown| == |grown.Keys| && |data| == |data.Keys|;
    if evicted != "" {
      var rest := grown - {evicted};
      assert rest.Keys == grown.Keys - {evicted} && |rest| == |rest.Keys|;
    }
  }

  lemma {:induction false} ServedKeeps(size: nat, id: string, now: int, a: State, hist: History, evicted: string,
                                       b: State)
    requires Good(a, size) && id != "" && Served(size, id, now, a, hist, evicted, b)
    ensures id !in b.data <==> evicted == id
    ensures evicted !in b.data
    ensures forall k :: k in a.data && k != evicted ==> k in b.data && (k != id ==> b.data[k] == a.data[k])
    ensures id in a.data ==> b.data == a.data
  {
    if id in a.data { assert a.data[id := a.data[id]] == a.data; }
  }

  /** On a reading later than all before, the most recent sessions are kept and the least recent goes. */
  lemma {:induction false} ServedInOrder(trace: seq<string>, size: nat, id: string, now: int, a: State, hist: History,
                                         evicted: string, b: State)
    requires Good(a, size) && id != "" && size > 0 && Served(size, id, now, a, hist, evicted, b)
    requires InOrder(trace, size, a.lastUsed) && AllBefore(a.lastUsed, now)
    ensures InOrder(trace + [id], size, b.lastUsed) && id in b.data
    ensures evicted != "" ==> LastOf(Kept(trace, size), evicted)
  {
    assert |a.data| == |a.data.Keys| && |a.lastUsed| == |a.lastUsed.Keys|;
    if id in a.data {
      HitKeepsOrder(trace, size, a.lastUsed, id, now);
    } else if evicted == "" {
      MissKeepsOrder(trace, size, a.lastUsed, id, now);
    } else {
      EvictionKeepsOrder(trace, size, a.lastUsed, id, now, evicted);
    }
  }

  // ---- runs of Get ----

  datatype Get = Get(rawId: string, fallback: string, now: int)

  function IdsOf(calls: seq<Get>): (r: seq<string>)
    ensures |r| == |calls|
  {
    seq(|calls|, i requires 0 <= i < |calls| => Effective(calls[i].rawId, calls[i].fallback))
  }

  predicate Increasing(calls: seq<Get>) { forall i, j :: 0 <= i < j < |calls| ==> calls[i].now < calls[j].now }

  /** Every session present has a history that was made for it. */
  ghost predicate Owned(data: map<string, History>, owners: seq<string>) {
    forall id :: id in data ==> data[id] < |owners| && owners[data[id]] == id
  }

  /** So no two sessions share one. */
  lemma {:induction false} OwnHistories(data: map<string, History>, owners: seq<string>, a: string, b: string)
    requires Owned(data, owners) && a in data && b in data && data[a] == data[b]
    ensures a == b
  {
  }

  lemma {:induction false} OwnedNext(data: map<string, History>, owners: seq<string>, id: string,
                                     after: map<string, History>)
    requires Owned(data, owners)
    requires forall k :: k in after ==> (k == id && after[k] == |owners|) || (k in data && after[k] == data[k])
    ensures true == Owned(after, owners + [id])
  {
  }

  lemma {:induction false} InOrderKeys(trace: seq<string>, size: nat, m: map<string, int>)
    requires InOrder(trace, size, m)
    ensures m.Keys == Elements(Kept(trace, size))
  {
    forall id ensures id in m <==> id in Kept(trace, size) { ListsMembers(Kept(trace, size), m, id); }
  }

  /** Every history handed out was made for the session that asked. */
  ghost predicate Given(trace: seq<string>, hists: seq<History>, owners: seq<string>) {
    |hists| == |trace| && forall i :: 0 <= i < |hists| ==> hists[i] < |owners| && owners[hists[i]] == trace[i]
  }

  lemma {:induction false} GivenNext(trace: seq<string>, hists: seq<History>, owners: seq<string>,
                                     data: map<string, History>, id: string, hist: History)
    requires Given(trace, hists, owners) && Owned(data, owners)
    requires hist == if id in data then data[id] else |owners|
    ensures true == Given(trace + [id], hists + [hist], if id in data then owners else owners + [id])
  {
  }

  /** A session present has the history its last request was given. */
  ghost predicate Latest(trace: seq<string>, hists: seq<History>, data: map<string, History>) {
    && |hists| == |trace|
    && forall i :: 0 <= i < |trace| && trace[i] in data && trace[i] !in trace[i + 1..] ==> hists[i] == data[trace[i]]
  }

  lemma {:induction false} LatestNext(trace: seq<string>, hists: seq<History>, data: map<string, History>, id: string,
                                      hist: History, after: map<string, History>)
    requires Latest(trace, hists, data)
    requires forall k :: k in after ==> (k == id && after[k] == hist) || (k in data && k != id && after[k] == data[k])
    ensures true == Latest(trace + [id], hists + [hist], after)
  {
    var t := trace + [id];
    forall i | 0 <= i < |t| && t[i] in after && t[i] !in t[i + 1..] ensures (hists + [hist])[i] == after[t[i]] {
      if i < |trace| {
        assert t[i + 1..] == trace[i + 1..] + [id];
        assert trace[i] != id && trace[i] !in trace[i + 1..];
      }
    }
  }

  /** i and j are two requests for one session with none in between. */
  predicate Again(trace: seq<string>, i: int, j: int) {
    0 <= i < j < |trace| && trace[i] == trace[j] && trace[i] !in trace[i + 1..j]
  }

  /** Between two requests for a session its history is kept exactly when fewer than size others are asked for. */
  ghost predicate Remembers(trace: seq<string>, hists: seq<History>, size: nat) {
    && |hists| == |trace|
    && forall i, j :: Again(trace, i, j) ==> (hists[i] == hists[j] <==> |Elements(trace[i + 1..j])| < size)
  }

  lemma {:induction false} RemembersNext(trace: seq<string>, hists: seq<History>, size: nat, data: map<string, History>,
                                         owners: seq<string>, id: string, hist: History)
    requires Remembers(trace, hists, size) && Latest(trace, hists, data) && Given(trace, hists, owners)
    requires data.Keys == Elements(Kept(trace, size)) && hist == if id in data then data[id] else |owners|
    ensures true == Remembers(trace + [id], hists + [hist], size)
  {
    var t, hs := trace + [id], hists + [hist];
    forall i, j | Again(t, i, j) ensures hs[i] == hs[j] <==> |Elements(t[i + 1..j])| < size {
      if j < |trace| {
        AgainBefore(trace, id, i, j);
      } else {
        assert t[i + 1..j] == trace[i + 1..];
        RememberedLast(trace, hists, size, data, owners, id, hist, i);
      }
    }
  }

  lemma {:induction false} AgainBefore(trace: seq<string>, id: string, i: nat, j: nat)
    requires i < j < |trace|
    ensures (trace + [id])[i + 1..j] == trace[i + 1..j] && (Again(trace + [id], i, j) <==> Again(trace, i, j))
  {
  }

  lemma {:induction false} RememberedLast(trace: seq<string>, hists: seq<History>, size: nat,
                                          data: map<string, History>, owners: seq<string>, id: string, hist: History,
                                          i: nat)
    requires Latest(trace, hists, data) && Given(trace, hists, owners)
    requires data.Keys == Elements(Kept(trace, size)) && hist == if id in data then data[id] else |owners|
    requires i < |trace| && trace[i] == id && id !in trace[i + 1..]
    ensures hists[i] == hist <==> |Elements(trace[i + 1..])| < size
  {
    KeptIff(trace, size, id, i);
    assert id in data <==> id in Kept(trace, size);
  }

  ghost predicate Histories(trace: seq<string>, hists: seq<History>, owners: seq<string>, data: map<string, History>) {
    Given(trace, hists, owners) && Latest(trace, hists, data) && Owned(data, owners)
  }

  lemma {:induction false} HistoriesNext(trace: seq<string>, hists: seq<History>, owners: seq<string>,
                                         data: map<string, History>, id: string, hist: History,
                                         after: map<string, History>)
    requires Histories(trace, hists, owners, data) && hist == if id in data then data[id] else |owners|
    requires forall k :: k in after ==> (k == id && after[k] == hist) || (k in data && k != id && after[k] == data[k])
    ensures true == Histories(trace + [id], hists + [hist], if id in data then owners else owners + [id], after)
  {
    GivenNext(trace, hists, owners, data, id, hist);
    LatestNext(trace, hists, data, id, hist, after);
  }

  /** Before call k of a run on an increasing clock. */
  ghost predicate Timely(trace: seq<string>, hists: seq<History>, size: nat, lastUsed: map<string, int>,
                         calls: seq<Get>, k: nat)
  {
    && InOrder(trace, size, lastUsed) && Remembers(trace, hists, size)
    && k <= |calls| && (k < |calls| ==> AllBefore(lastUsed, calls[k].now))
  }

  lemma {:induction false} TimelyNext(trace: seq<string>, hists: seq<History>, size: nat, lastUsed: map<string, int>,
                                      calls: seq<Get>, k: nat, data: map<string, History>, owners: seq<string>,
                                      id: string, hist: History, after: map<string, int>)
    requires Timely(trace, hists, size, lastUsed, calls, k) && k < |calls| && Increasing(calls)
    requires Given(trace, hists, owners) && Latest(trace, hists, data) && data.Keys == lastUsed.Keys
    requires hist == if id in data then data[id] else |owners|
    requires InOrder(trace + [id], size, after)
    requires forall x :: x in after ==>
               (x == id && after[x] == calls[k].now) || (x in lastUsed && after[x] == lastUsed[x])
    ensures true == Timely(trace + [id], hists + [hist], size, after, calls, k + 1)
  {
    InOrderKeys(trace, size, lastUsed);
    RemembersNext(trace, hists, size, data, owners, id, hist);
  }

  lemma {:induction false} IdsNext(calls: seq<Get>, k: nat)
    requires k < |calls|
    ensures IdsOf(calls[..k + 1]) == IdsOf(calls[..k]) + [Effective(calls[k].rawId, calls[k].fallback)]
  {
  }

  /** Before call k of a run. */
  ghost predicate RunAt(calls: seq<Get>, k: nat, size: nat, trace: seq<string>, hists: seq<History>, st: State) {
    && k <= |calls| && trace == IdsOf(calls[..k]) && Histories(trace, hists, st.owners, st.data)
    && (Increasing(calls) ==> Timely(trace, hists, size, st.lastUsed, calls, k))
  }

  lemma {:induction false} RunNext(calls: seq<Get>, k: nat, size: nat, trace: seq<string>, hists: seq<History>,
                                   a: State, hist: History, evicted: string, b: State)
    requires RunAt(calls, k, size, trace, hists, a) && k < |calls| && !Blank(calls[k].fallback) && size > 0
    requires Good(a, size)
    requires Served(size, Effective(calls[k].rawId, calls[k].fallback), calls[k].now, a, hist, evicted, b)
    ensures var id := Effective(calls[k].rawId, calls[k].fallback);
            true == RunAt(calls, k + 1, size, trace + [id], hists + [hist], b)
  {
    var id := Effective(calls[k].rawId, calls[k].fallback);
    IdsNext(calls, k);
    HistoriesNext(trace, hists, a.owners, a.data, id, hist, b.data);
    if Increasing(calls) {
      ServedInOrder(trace, size, id, calls[k].now, a, hist, evicted, b);
      TimelyNext(trace, hists, size, a.lastUsed, calls, k, a.data, a.owners, id, hist, b.lastUsed);
    }
  }

  lemma {:induction false} RunEnd(calls: seq<Get>, size: nat, trace: seq<string>, hists: seq<History>, st: State)
    requires RunAt(calls, |calls|, size, trace, hists, st) && Good(st, size)
    ensures trace == IdsOf(calls) && |hists| == |calls|
    ensures forall i, j :: 0 <= i < j < |hists| && hists[i] == hists[j] ==> trace[i] == trace[j]
    ensures Increasing(calls) ==> st.data.Keys == Elements(Kept(trace, size)) && Remembers(trace, hists, size)
  {
    assert calls[..|calls|] == calls;
    if Increasing(calls) { InOrderKeys(trace, size, st.lastUsed); }
  }

  /** After any run, the keys are the maxSize most recently requested distinct ids: id is present exactly when
      fewer than maxSize other ids have been requested since its last request. */
  lemma {:induction false} KeptIff(trace: seq<string>, size: nat, id: string, last: nat)
    requires last < |trace| && trace[last] == id && id !in trace[last + 1..]
    ensures id in Kept(trace, size) <==> |Elements(trace[last + 1..])| < size
  {
    RecentNoDup(trace);
    var r := Recent(trace);
    assert id in trace && id in r;
    var i :| 0 <= i < |r| && r[i] == id;
    RecentMeaning(trace, i, last);
    assert Elements(r[..i]) == Elements(trace[last + 1..]);
    DistinctSize(r[..i]);
    assert id in Kept(trace, size) <==> i < size by {
      assert i < size ==> Kept(trace, size)[i] == id;
    }
  }
}
