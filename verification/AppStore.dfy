/** Published versions of an app on disk: publish, roll back, update and prune, with a crash possible between any two
    file operations (pkg/apps/store.go). A file is replaced atomically; any write or removal may fail. */
module AppStore {
  import opened Base

  const MAX_VERSIONS: nat := 20

  datatype Meta = Meta(name: string, published: string, updatedAt: int)

  /** What is on disk: meta.json, if the app exists, and the version files. */
  datatype Disk = Disk(meta: Option<Meta>, versions: map<string, string>)

  /** The published version is empty or its file exists. */
  predicate PublishedExists(d: Disk)
  {
    d.meta.Some? && d.meta.value.published != "" ==> d.meta.value.published in d.versions
  }

  /** The version files agree except possibly for the one named v. */
  predicate SameExcept(a: map<string, string>, b: map<string, string>, v: string) { a - {v} == b - {v} }

  /** One file operation: meta.json replaced, or one version file written or removed. */
  ghost predicate OneFileApart(a: Disk, b: Disk) {
    (b.meta.Some? && b.versions == a.versions)
    || (b.meta == a.meta && exists v :: SameExcept(a.versions, b.versions, v))
  }

  /** A complete record: every state is safe and one file operation away from the one before it. */
  ghost predicate SafeRecord(disks: seq<Disk>) {
    && (forall k :: 0 <= k < |disks| ==> PublishedExists(disks[k]))
    && forall k {:trigger disks[k]} :: 0 < k < |disks| ==> OneFileApart(disks[k - 1], disks[k])
  }

  lemma {:induction false} RecordStep(disks: seq<Disk>, d: Disk)
    requires SafeRecord(disks) && disks != [] && PublishedExists(d) && OneFileApart(disks[|disks| - 1], d)
    ensures SafeRecord(disks + [d])
  {
    var all := disks + [d];
    forall k | 0 < k < |all| ensures OneFileApart(all[k - 1], all[k]) {
      assert all[k - 1] == disks[k - 1] && all[k] == if k < |disks| then disks[k] else d;
    }
  }

  predicate ValidVersion(version: string) {
    TrimSpace(version) != "" && '/' !in version && '\\' !in version && !Contains(version, "..")
  }

  /** A version is accepted exactly when some character of it is not white space, none is a path separator and no two
      dots follow each other. */
  lemma {:induction false} ValidVersionMeaning(v: string)
    ensures ValidVersion(v) <==>
              && (exists i :: 0 <= i < |v| && !IsSpace(v[i]))
              && (forall i :: 0 <= i < |v| ==> v[i] != '/' && v[i] != '\\')
              && (forall i :: 0 <= i < |v| - 1 ==> v[i] != '.' || v[i + 1] != '.')
  {
    var i, j := TrimSpaceMeaning(v);
    assert TrimSpace(v) != "" <==> exists k :: 0 <= k < |v| && !IsSpace(v[k]) by {
      if i < j { assert !IsSpace(v[i]); }
    }
    ContainsMeaning(v, "..");
    forall k ensures StandsAt(v, "..", k) <==> 0 <= k < |v| - 1 && v[k] == '.' && v[k + 1] == '.' {
      if 0 <= k < |v| - 1 { assert v[k..k + 2] == [v[k], v[k + 1]]; }
    }
    if k :| StandsAt(v, "..", k) { assert v[k] == '.' && v[k + 1] == '.'; }
  }

  // ---- listing ----

  /** Newest first: version names are ordered like the times they stand for. */
  predicate Descending(r: seq<string>) { forall i, j :: 0 <= i < j < |r| ==> Less(r[j], r[i]) }

  /** The versions newer than v. */
  function Newer(names: set<string>, v: string): set<string> { set w | w in names && Less(v, w) }

  /** ListVersions. */
  method ListVersions(names: set<string>) returns (r: seq<string>)
    ensures Descending(r) && Elements(r) == names
    ensures NoDup(r) && forall i, j :: 0 <= i < j < |r| ==> Smaller(r[j], r[i])
  {
    r := [];
    var rest := names;
    while rest != {}
      invariant rest <= names && Elements(r) == names - rest && Descending(r)
      decreases rest
    {
      var v :| v in rest;
      rest := rest - {v};
      InsertDescending(v, r);
      r := Placed(v, r);
    }
    LargestFirst(r);
  }

  lemma {:induction false} LargestFirst(r: seq<string>)
    requires Descending(r)
    ensures NoDup(r) && forall i, j :: 0 <= i < j < |r| ==> Smaller(r[j], r[i])
  {
    forall i, j | 0 <= i < j < |r| ensures r[i] != r[j] && Smaller(r[j], r[i]) {
      LessMeaning(r[j], r[i]);
      LessAsymmetric(r[j], r[i]);
    }
  }

  /** v put where it belongs in a descending list that does not have it. */
  function Placed(v: string, r: seq<string>): seq<string> {
    if r == [] || Less(r[0], v) then [v] + r else [r[0]] + Placed(v, r[1..])
  }

  lemma {:induction false} InsertDescending(v: string, r: seq<string>)
    requires Descending(r) && v !in Elements(r)
    ensures Descending(Placed(v, r)) && Elements(Placed(v, r)) == Elements(r) + {v}
    decreases |r|, 1
  {
    if r == [] || Less(r[0], v) {
      assert [v][..0] == [];
      forall i, j | 0 <= i < j < |[v] + r| ensures Less(([v] + r)[j], ([v] + r)[i]) {
        if i == 0 && j > 1 { LessTransitive(r[j - 1], r[0], v); }
      }
    } else {
      PlacedBehind(v, r);
    }
  }

  lemma {:induction false} PlacedBehind(v: string, r: seq<string>)
    requires Descending(r) && v !in Elements(r) && r != [] && !Less(r[0], v)
    ensures Descending(Placed(v, r)) && Elements(Placed(v, r)) == Elements(r) + {v}
    decreases |r|, 0
  {
    var head, tail := r[0], r[1..];
    assert r == [head] + tail && [head][..0] == [];
    LessTotal(v, head);
    InsertDescending(v, tail);
    forall k | 0 <= k < |Placed(v, tail)| ensures Less(Placed(v, tail)[k], head) {
      BelowHead(r, Placed(v, tail)[k], v);
    }
  }

  lemma {:induction false} BelowHead(r: seq<string>, x: string, v: string)
    requires Descending(r) && r != [] && Less(v, r[0]) && (x == v || x in Elements(r[1..]))
    ensures Less(x, r[0])
  {
    if x in r[1..] { var k :| 0 <= k < |r[1..]| && r[1..][k] == x; assert r[k + 1] == x; }
  }

  /** In a descending list the position of a name is the number of newer ones. */
  lemma {:induction false} RankIsPosition(r: seq<string>, i: nat)
    requires Descending(r) && i < |r|
    ensures |Newer(Elements(r), r[i])| == i
  {
    NewerAre(r, i);
    forall j, k | 0 <= j < k < i ensures r[j] != r[k] { LessAsymmetric(r[k], r[j]); }
    DistinctSize(r[..i]);
  }

  lemma {:induction false} NewerAre(r: seq<string>, i: nat)
    requires Descending(r) && i < |r|
    ensures Newer(Elements(r), r[i]) == Elements(r[..i])
  {
    forall w ensures w in Newer(Elements(r), r[i]) <==> w in Elements(r[..i]) {
      if w in r && Less(r[i], w) {
        var k :| 0 <= k < |r| && r[k] == w;
        LessAsymmetric(r[i], w);
        assert k < i && r[..i][k] == w;
      }
      if w in r[..i] { var k :| 0 <= k < i && r[..i][k] == w; assert r[k] == w; }
    }
  }

  // ---- pruning ----

  /** What prune keeps: the newest versions and the published one. */
  predicate Retained(names: set<string>, published: string, keep: nat, v: string)
  {
    |Newer(names, v)| < keep || v == published
  }

  function Survivors(names: set<string>, published: string, keep: nat): set<string> {
    set v | v in names && Retained(names, published, keep, v)
  }

  /** The tail of the list is exactly what is not among the newest. */
  lemma {:induction false} TailIsOld(r: seq<string>, keep: nat, v: string)
    requires Descending(r) && keep <= |r| && v in Elements(r)
    ensures v in Elements(r[keep..]) <==> |Newer(Elements(r), v)| >= keep
  {
    var i :| 0 <= i < |r| && r[i] == v;
    RankIsPosition(r, i);
    if i >= keep { assert r[keep..][i - keep] == v; }
    if v in r[keep..] {
      var k :| 0 <= k < |r[keep..]| && r[keep..][k] == v;
      assert r[keep + k] == v;
      RankIsPosition(r, keep + k);
    }
  }

  lemma {:induction false} SurvivorsAre(r: seq<string>, published: string, keep: nat)
    requires Descending(r) && keep <= |r|
    ensures Survivors(Elements(r), published, keep) == Elements(r) - (Elements(r[keep..]) - {published})
  {
    forall v | v in Elements(r)
      ensures Retained(Elements(r), published, keep, v) <==> v !in Elements(r[keep..]) - {published}
    {
      TailIsOld(r, keep, v);
    }
  }

  lemma {:induction false} AllSurvive(r: seq<string>, published: string, keep: nat)
    requires Descending(r) && |r| <= keep
    ensures Survivors(Elements(r), published, keep) == Elements(r)
  {
    forall v | v in Elements(r) ensures Retained(Elements(r), published, keep, v) {
      var i :| 0 <= i < |r| && r[i] == v;
      RankIsPosition(r, i);
    }
  }

  // ---- the store ----

  datatype Op = Publish(version: string, snapshot: string, ready: bool, now: int) | Rollback(version: string, now: int)
              | Update(name: string, now: int) | Prune(keep: int)

  /** The disk and the number of file operations attempted so far. */
  datatype Point = Point(disk: Disk, attempts: nat)

  /** What an operation does between two points, and when it reports success. */
  ghost predicate Did(op: Op, fails: nat -> bool, a: Point, b: Point, ok: bool) {
    var Disk(meta, versions) := a.disk;
    match op
    case Publish(version, snapshot, ready, now) =>
      && (ok <==> meta.Some? && ready && ValidVersion(version) && !fails(a.attempts) && !fails(a.attempts + 1))
      && (forall v :: v in b.disk.versions && v != version ==> v in versions && b.disk.versions[v] == versions[v])
      && (ok ==>
            && b.disk.meta == Some(meta.value.(published := version, updatedAt := now))
            && version in b.disk.versions && b.disk.versions[version] == snapshot
            && Pruned(versions.Keys + {version}, version, MAX_VERSIONS, b.disk.versions.Keys,
                      AllWork(fails, a.attempts + 2, b.attempts)))
      && (!ok ==>
            && b.disk.meta == meta
            && b.disk.versions == if meta.Some? && ready && ValidVersion(version) && !fails(a.attempts)
                                  then versions[version := snapshot] else versions)
    case Rollback(version, now) =>
      && (ok <==> ValidVersion(version) && version in versions && meta.Some? && !fails(a.attempts))
      && b.disk == if ok then Disk(Some(meta.value.(published := version, updatedAt := now)), versions) else a.disk
    case Update(name, now) =>
      && (ok <==> meta.Some? && !fails(a.attempts))
      && b.disk == if ok then Disk(Some(meta.value.(name := name, updatedAt := now)), versions) else a.disk
    case Prune(keep) =>
      && b.disk.meta == meta
      && (forall v :: v in b.disk.versions ==> v in versions && b.disk.versions[v] == versions[v])
      && if keep < 1 || meta.None? then !ok && b == a
         else && (ok <==> AllWork(fails, a.attempts, b.attempts))
              && Pruned(versions.Keys, meta.value.published, keep, b.disk.versions.Keys, ok)
  }

  ghost predicate Ran(ops: seq<Op>, oks: seq<bool>, fails: nat -> bool, points: seq<Point>) {
    && |oks| == |ops| && |points| == |ops| + 1
    && forall i :: 0 <= i < |ops| ==> Did(ops[i], fails, points[i], points[i + 1], oks[i])
  }

  lemma {:induction false} RanNext(ops: seq<Op>, i: nat, oks: seq<bool>, fails: nat -> bool, points: seq<Point>,
                                   ok: bool, b: Point)
    requires i < |ops| && Ran(ops[..i], oks, fails, points) && true == Did(ops[i], fails, points[i], b, ok)
    ensures true == Ran(ops[..i + 1], oks + [ok], fails, points + [b])
  {
    var oks', points' := oks + [ok], points + [b];
    forall k | 0 <= k < i + 1 ensures true == Did(ops[..i + 1][k], fails, points'[k], points'[k + 1], oks'[k]) {
      if k < i { assert true == Did(ops[..i][k], fails, points[k], points[k + 1], oks[k]); }
    }
  }

  function Published(d: Disk): string { if d.meta.Some? then d.meta.value.published else "" }

  /** What the last publish or rollback that worked named, or what was published before. */
  function LastPublished(before: string, ops: seq<Op>, oks: seq<bool>): string
    requires |oks| == |ops|
  {
    if ops == [] then before else
      var n := |ops| - 1;
      var op := ops[n];
      if oks[n] && (op.Publish? || op.Rollback?) then op.version else LastPublished(before, ops[..n], oks[..n])
  }

  lemma {:induction false} PublishedNext(before: string, ops: seq<Op>, i: nat, oks: seq<bool>, fails: nat -> bool,
                                         a: Point, b: Point, ok: bool)
    requires i < |ops| && |oks| == i && Did(ops[i], fails, a, b, ok)
    requires Published(a.disk) == LastPublished(before, ops[..i], oks)
    ensures Published(b.disk) == LastPublished(before, ops[..i + 1], oks + [ok])
  {
    assert ops[..i + 1][..i] == ops[..i] && (oks + [ok])[..i] == oks;
  }

  /** None of the file operations numbered from i up to j fails. */
  ghost predicate AllWork(fails: nat -> bool, i: nat, j: nat) { forall a: nat :: i <= a < j ==> !fails(a) }

  /** What a prune of these names leaves: what should survive, and nothing else if every removal worked. */
  predicate Pruned(names: set<string>, published: string, keep: nat, after: set<string>, worked: bool) {
    && Survivors(names, published, keep) <= after <= names
    && (worked ==> after == Survivors(names, published, keep))
  }

  lemma {:induction false} WorkNext(fails: nat -> bool, i: nat, j: nat)
    requires i <= j
    ensures AllWork(fails, i, j + 1) <==> AllWork(fails, i, j) && !fails(j)
  {
  }

  class Store {
    const fails: nat -> bool
    var meta: Option<Meta>
    var versions: map<string, string>
    var attempts: nat
    /** Every state the disk has been in: a crash leaves one of them. */
    ghost var disks: seq<Disk>

    ghost function Now(): Disk
      reads this
    {
      Disk(meta, versions)
    }

    ghost predicate Valid()
      reads this
    {
      disks != [] && disks[|disks| - 1] == Now() && SafeRecord(disks)
    }

    /** Opening a store on what is on disk, for instance after a crash. */
    constructor (d: Disk, fails: nat -> bool)
      requires PublishedExists(d)
      ensures Valid() && Now() == d && disks == [d] && this.fails == fails
    {
      meta, versions, attempts, this.fails := d.meta, d.versions, 0, fails;
      disks := [d];
    }

    method WriteMeta(m: Meta) returns (ok: bool)
      requires Valid() && PublishedExists(Disk(Some(m), versions))
      modifies this`meta, this`attempts, this`disks
      ensures Valid() && meta == if ok then Some(m) else old(meta)
      ensures ok == !fails(old(attempts)) && attempts == old(attempts) + 1
      ensures old(disks) <= disks
    {
      ok := !fails(attempts);
      attempts := attempts + 1;
      if ok {
        meta := Some(m);
        RecordStep(disks, Now());
        disks := disks + [Now()];
      }
    }

    method WriteVersion(version: string, snapshot: string) returns (ok: bool)
      requires Valid()
      modifies this`versions, this`attempts, this`disks
      ensures Valid() && versions == if ok then old(versions)[version := snapshot] else old(versions)
      ensures ok <==> ValidVersion(version) && !fails(old(attempts))
      ensures attempts == if ValidVersion(version) then old(attempts) + 1 else old(attempts)
      ensures old(disks) <= disks
    {
      if !ValidVersion(version) { return false; }
      ok := !fails(attempts);
      attempts := attempts + 1;
      if ok {
        versions := versions[version := snapshot];
        assert SameExcept(old(versions), versions, version);
        RecordStep(disks, Now());
        disks := disks + [Now()];
      }
    }

    method RemoveVersion(version: string) returns (ok: bool)
      requires Valid() && (meta.Some? ==> meta.value.published != version)
      modifies this`versions, this`attempts, this`disks
      ensures Valid() && versions == if ok then old(versions) - {version} else old(versions)
      ensures ok == !fails(old(attempts)) && attempts == old(attempts) + 1
      ensures old(disks) <= disks
    {
      ok := !fails(attempts);
      attempts := attempts + 1;
      if ok {
        versions := versions - {version};
        assert SameExcept(old(versions), versions, version);
        RecordStep(disks, Now());
        disks := disks + [Now()];
      }
    }

    /** PruneOldVersions. Failed removals leave files behind, but what should survive always does. */
    method PruneOldVersions(keep: int) returns (ok: bool)
      requires Valid()
      modifies this`versions, this`attempts, this`disks
      ensures Valid() && old(disks) <= disks
      ensures versions.Keys <= old(versions).Keys && forall v :: v in versions ==> versions[v] == old(versions)[v]
      ensures keep < 1 || meta.None? ==> !ok && versions == old(versions) && attempts == old(attempts)
      ensures keep >= 1 && meta.Some? ==> (ok <==> AllWork(fails, old(attempts), attempts))
      ensures keep >= 1 && meta.Some? ==> Pruned(old(versions).Keys, meta.value.published, keep, versions.Keys, ok)
    {
      if keep < 1 || meta.None? { return false; }
      var list := ListVersions(versions.Keys);
      if |list| <= keep {
        AllSurvive(list, meta.value.published, keep);
        return true;
      }
      SurvivorsAre(list, meta.value.published, keep);
      ok := RemoveAll(list[keep..]);
    }

    /** The loop of PruneOldVersions over the older part of the list. */
    method RemoveAll(older: seq<string>) returns (ok: bool)
      requires Valid() && meta.Some?
      modifies this`versions, this`attempts, this`disks
      ensures Valid() && old(disks) <= disks
      ensures versions.Keys <= old(versions).Keys && forall v :: v in versions ==> versions[v] == old(versions)[v]
      ensures old(versions).Keys - (Elements(older) - {meta.value.published}) <= versions.Keys
      ensures ok ==> versions.Keys == old(versions).Keys - (Elements(older) - {meta.value.published})
      ensures ok <==> AllWork(fails, old(attempts), attempts)
    {
      ok := true;
      for i := 0 to |older|
        invariant Valid() && old(disks) <= disks
        invariant versions.Keys <= old(versions).Keys && forall v :: v in versions ==> versions[v] == old(versions)[v]
        invariant old(versions).Keys - (Elements(older[..i]) - {meta.value.published}) <= versions.Keys
        invariant ok ==> versions.Keys == old(versions).Keys - (Elements(older[..i]) - {meta.value.published})
        invariant old(attempts) <= attempts && (ok <==> AllWork(fails, old(attempts), attempts))
      {
        assert older[..i + 1][..i] == older[..i];
        WorkNext(fails, old(attempts), attempts);
        if older[i] != meta.value.published {
          var removed := RemoveVersion(older[i]);
          if !removed { ok := false; }
        }
      }
      assert older[..|older|] == older;
    }

    /** PublishVersion; ready: the document has inputs and outputs. */
    method PublishVersion(version: string, snapshot: string, ready: bool, now: int) returns (ok: bool)
      requires Valid()
      modifies this`meta, this`versions, this`attempts, this`disks
      ensures Valid() && old(disks) <= disks
      ensures ok <==> && old(meta).Some? && ready && ValidVersion(version)
                      && !fails(old(attempts)) && !fails(old(attempts) + 1)
      ensures ok ==> meta == Some(old(meta).value.(published := version, updatedAt := now))
      ensures ok ==> version in versions && versions[version] == snapshot
      ensures forall v :: v in versions && v != version ==> v in old(versions) && versions[v] == old(versions)[v]
      ensures ok ==> Pruned(old(versions).Keys + {version}, version, MAX_VERSIONS, versions.Keys,
                            AllWork(fails, old(attempts) + 2, attempts))
      ensures !ok ==> meta == old(meta)
      ensures !ok ==>
                versions == if old(meta).Some? && ready && ValidVersion(version) && !fails(old(attempts))
                            then old(versions)[version := snapshot] else old(versions)
    {
      if meta.None? || !ready { return false; }
      ok := WriteVersion(version, snapshot);
      if !ok { return; }
      ok := WriteMeta(meta.value.(published := version, updatedAt := now));
      if !ok { return; }
      ghost var names := versions.Keys;
      assert names == old(versions).Keys + {version};
      var pruned := PruneOldVersions(MAX_VERSIONS);
      assert version in Survivors(names, version, MAX_VERSIONS);
    }

    /** SetPublishedVersion. */
    method SetPublishedVersion(version: string, now: int) returns (ok: bool)
      requires Valid()
      modifies this`meta, this`attempts, this`disks
      ensures Valid() && old(disks) <= disks
      ensures ok <==> ValidVersion(version) && version in versions && old(meta).Some? && !fails(old(attempts))
      ensures meta == if ok then Some(old(meta).value.(published := version, updatedAt := now)) else old(meta)
    {
      if !ValidVersion(version) || meta.None? || version !in versions { return false; }
      ok := WriteMeta(meta.value.(published := version, updatedAt := now));
    }

    /** Update. */
    method UpdateMeta(name: string, now: int) returns (ok: bool)
      requires Valid()
      modifies this`meta, this`attempts, this`disks
      ensures Valid() && old(disks) <= disks && (ok <==> old(meta).Some? && !fails(old(attempts)))
      ensures meta == if ok then Some(old(meta).value.(name := name, updatedAt := now)) else old(meta)
    {
      if meta.None? { return false; }
      ok := WriteMeta(meta.value.(name := name, updatedAt := now));
    }

    ghost function Here(): Point
      reads this
    {
      Point(Now(), attempts)
    }

    /** One operation of a run. */
    method Do(op: Op) returns (ok: bool)
      requires Valid()
      modifies this`meta, this`versions, this`attempts, this`disks
      ensures Valid() && old(disks) <= disks && true == Did(op, fails, old(Here()), Here(), ok)
    {
      match op {
        case Publish(version, snapshot, ready, now) => ok := PublishVersion(version, snapshot, ready, now);
        case Rollback(version, now) => ok := SetPublishedVersion(version, now);
        case Update(name, now) => ok := UpdateMeta(name, now);
        case Prune(keep) => ok := PruneOldVersions(keep);
      }
    }

    /** Any run of operations. In every state the disk is ever in, the published version is empty or exists, so a crash
        at any point does no harm; every operation does what it says, and fails only where a file operation does; and
        what is published at the end is what the last publish or rollback that worked named. */
    method RunAll(ops: seq<Op>) returns (oks: seq<bool>, ghost points: seq<Point>)
      requires Valid()
      modifies this`meta, this`versions, this`attempts, this`disks
      ensures Valid() && old(disks) <= disks && SafeRecord(disks)
      ensures true == Ran(ops, oks, fails, points) && points[0] == old(Here()) && points[|ops|] == Here()
      ensures Published(Now()) == LastPublished(Published(old(Now())), ops, oks)
    {
      oks, points := [], [Here()];
      for i := 0 to |ops|
        invariant Valid() && old(disks) <= disks
        invariant true == Ran(ops[..i], oks, fails, points) && points[0] == old(Here()) && points[i] == Here()
        invariant Published(Now()) == LastPublished(Published(old(Now())), ops[..i], oks)
      {
        ghost var before := Here();
        var ok := Do(ops[i]);
        RanNext(ops, i, oks, fails, points, ok, Here());
        PublishedNext(Published(old(Now())), ops, i, oks, fails, before, Here(), ok);
        oks, points := oks + [ok], points + [Here()];
      }
      assert ops[..|ops|] == ops;
    }
  }
}
