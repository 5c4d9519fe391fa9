/** The sliding-window limiter of share tokens (pkg/apps/auth.go). Times are nanoseconds on a clock that never goes
    back; requests and sweeps come one after the other, and the limit of a token does not change. A contract
    `true == P(..)` says P(..); the comparison makes the verifier carry the predicate over whole. */
module RateLimiter {
  const MINUTE := 60_000_000_000
  const IDLE := 30 * MINUTE

  // ---- admissions and windows ----

  predicate Ascending(s: seq<int>) { forall i, j :: 0 <= i < j < |s| ==> s[i] <= s[j] }

  /** How many of the times lie in the closed interval from a to b. */
  function CountIn(s: seq<int>, a: int, b: int): (n: nat)
    ensures n <= |s|
  {
    if s == [] then 0 else CountIn(s[..|s| - 1], a, b) + if a <= s[|s| - 1] <= b then 1 else 0
  }

  /** Any limit + 1 admissions in a row take more than a minute. */
  predicate Spread(s: seq<int>, limit: int) {
    forall i, j :: 0 <= i < j < |s| && j - i >= limit ==> s[j] - s[i] > MINUTE
  }

  /** The times in an interval are a stretch of the ascending list. */
  lemma {:induction false} Stretch(s: seq<int>, a: int, b: int) returns (i: nat)
    requires Ascending(s)
    ensures i + CountIn(s, a, b) <= |s|
    ensures forall k :: i <= k < i + CountIn(s, a, b) ==> a <= s[k] <= b
    ensures CountIn(s, a, b) > 0 ==> forall k :: i + CountIn(s, a, b) <= k < |s| ==> s[k] > b
  {
    i := 0;
    if s != [] {
      var n := |s| - 1;
      var front := s[..n];
      i := Stretch(front, a, b);
      if a <= s[n] <= b && CountIn(front, a, b) == 0 { i := n; }
      assert forall k :: 0 <= k < n ==> front[k] == s[k];
    }
  }

  /** No closed window of a minute holds more than limit admissions. */
  lemma {:induction false} WindowBound(s: seq<int>, limit: int, t: int)
    requires Ascending(s) && Spread(s, limit) && limit > 0
    ensures CountIn(s, t, t + MINUTE) <= limit
  {
    var i := Stretch(s, t, t + MINUTE);
    var n := CountIn(s, t, t + MINUTE);
    assert i + limit < |s| ==> s[i + limit] - s[i] > MINUTE;
  }

  lemma {:induction false} CountSplit(s: seq<int>, i: nat, a: int, b: int)
    requires i <= |s| && (forall k :: 0 <= k < i ==> s[k] < a) && (forall k :: i <= k < |s| ==> a <= s[k] <= b)
    ensures CountIn(s, a, b) == |s| - i
  {
    if s != [] {
      var front := s[..|s| - 1];
      if i == |s| { CountSplit(front, i - 1, a, b); } else { CountSplit(front, i, a, b); }
    }
  }

  // ---- one bucket ----

  datatype Bucket = Bucket(hits: seq<int>, rateLimit: int, lastAccess: int)

  /** The bucket agrees with everything ever admitted for its token: its hits are the latest admissions, the ones it
      has dropped were more than a minute old when it was last used. */
  ghost predicate Agrees(b: Bucket, admitted: seq<int>, limit: int) {
    && b.rateLimit == limit && Ascending(admitted) && Spread(admitted, limit)
    && |b.hits| <= |admitted| && b.hits == admitted[|admitted| - |b.hits|..]
    && (forall k :: 0 <= k < |admitted| - |b.hits| ==> admitted[k] < b.lastAccess - MINUTE)
    && forall k :: 0 <= k < |admitted| ==> admitted[k] <= b.lastAccess
  }

  /** tokenBucket.allow. It admits exactly when the last minute holds fewer than the limit. */
  method Allow(b: Bucket, now: int, ghost admitted: seq<int>) returns (after: Bucket, ok: bool)
    requires true == Agrees(b, admitted, b.rateLimit) && b.lastAccess <= now
    ensures ok <==> CountIn(admitted, now - MINUTE, now) < b.rateLimit
    ensures after.lastAccess == now
    ensures true == Agrees(after, After(admitted, ok, now), b.rateLimit)
  {
    var cutoff := now - MINUTE;
    var i := 0;
    while i < |b.hits| && b.hits[i] < cutoff
      invariant 0 <= i <= |b.hits| && forall k :: 0 <= k < i ==> b.hits[k] < cutoff
    {
      i := i + 1;
    }
    var hits := b.hits[i..];
    Evicted(b, now, admitted, i);
    if |hits| >= b.rateLimit { return Bucket(hits, b.rateLimit, now), false; }
    Admitted(Bucket(hits, b.rateLimit, now), admitted, now);
    return Bucket(hits + [now], b.rateLimit, now), true;
  }

  lemma {:induction false} Evicted(b: Bucket, now: int, admitted: seq<int>, i: nat)
    requires Agrees(b, admitted, b.rateLimit) && b.lastAccess <= now && i <= |b.hits|
    requires forall k :: 0 <= k < i ==> b.hits[k] < now - MINUTE
    requires i < |b.hits| ==> b.hits[i] >= now - MINUTE
    ensures true == Agrees(Bucket(b.hits[i..], b.rateLimit, now), admitted, b.rateLimit)
    ensures CountIn(admitted, now - MINUTE, now) == |b.hits| - i
  {
    var d := |admitted| - |b.hits| + i;
    assert b.hits[i..] == admitted[d..];
    EvictedSplit(b, now, admitted, i, d);
    CountSplit(admitted, d, now - MINUTE, now);
  }

  lemma {:induction false} EvictedSplit(b: Bucket, now: int, admitted: seq<int>, i: nat, d: nat)
    requires Agrees(b, admitted, b.rateLimit) && b.lastAccess <= now && i <= |b.hits| && d == |admitted| - |b.hits| + i
    requires forall k :: 0 <= k < i ==> b.hits[k] < now - MINUTE
    requires i < |b.hits| ==> b.hits[i] >= now - MINUTE
    ensures forall k :: 0 <= k < d ==> admitted[k] < now - MINUTE
    ensures forall k :: d <= k < |admitted| ==> now - MINUTE <= admitted[k] <= now
  {
    forall k | 0 <= k < d
      ensures admitted[k] < now - MINUTE
    { if k >= d - i { assert b.hits[k - (d - i)] == admitted[k]; } }
    if d < |admitted| { assert b.hits[i] == admitted[d]; }
  }

  lemma {:induction false} Admitted(b: Bucket, admitted: seq<int>, now: int)
    requires Agrees(b, admitted, b.rateLimit) && b.lastAccess == now && |b.hits| < b.rateLimit
    ensures true == Agrees(Bucket(b.hits + [now], b.rateLimit, now), admitted + [now], b.rateLimit)
  {
    var all := admitted + [now];
    assert all[|all| - |b.hits| - 1..] == b.hits + [now];
    forall i, j | 0 <= i < j < |all| && j - i >= b.rateLimit ensures all[j] - all[i] > MINUTE {
      if j == |admitted| { assert i < |admitted| - |b.hits| && all[i] == admitted[i]; }
    }
  }

  // ---- the manager ----

  function History(admitted: map<string, seq<int>>, token: string): seq<int>
  {
    if token in admitted then admitted[token] else []
  }

  predicate AllBefore(s: seq<int>, t: int) { forall k :: 0 <= k < |s| ==> s[k] < t }

  /** A token's bucket agrees with its history; a token without one has no admission in the last half hour. */
  ghost predicate Fits(limiters: map<string, Bucket>, history: seq<int>, limit: int, clock: int, token: string) {
    if token in limiters then Agrees(limiters[token], history, limit) && limiters[token].lastAccess <= clock
    else Ascending(history) && Spread(history, limit) && AllBefore(history, clock - IDLE)
  }

  ghost predicate AllFit(limiters: map<string, Bucket>, admitted: map<string, seq<int>>, limitOf: string -> int,
                         clock: int)
  {
    forall token :: Fits(limiters, History(admitted, token), limitOf(token), clock, token)
  }

  /** Looking a bucket up or making a new one gives a bucket that agrees with the token's history. */
  lemma {:induction false} BucketAt(limiters: map<string, Bucket>, admitted: map<string, seq<int>>,
                                    limitOf: string -> int, clock: int, token: string, now: int)
    requires true == AllFit(limiters, admitted, limitOf, clock) && clock <= now
    ensures var b := if token in limiters then limiters[token] else Bucket([], limitOf(token), now);
            b.rateLimit == limitOf(token) && b.lastAccess <= now
            && true == Agrees(b, History(admitted, token), limitOf(token))
  {
    assert Fits(limiters, History(admitted, token), limitOf(token), clock, token);
  }

  lemma {:induction false} TimePasses(limiters: map<string, Bucket>, history: seq<int>, limit: int, clock: int,
                                      token: string, now: int)
    requires true == Fits(limiters, history, limit, clock, token) && clock <= now
    ensures true == Fits(limiters, history, limit, now, token)
    ensures true == Fits(Swept(limiters, now - IDLE), history, limit, now, token)
  {
  }

  lemma {:induction false} RequestFitsAt(limiters: map<string, Bucket>, admitted: map<string, seq<int>>,
                                         limitOf: string -> int, clock: int, token: string, b: Bucket, own: seq<int>,
                                         other: string, now: int)
    requires true == AllFit(limiters, admitted, limitOf, clock) && clock <= now == b.lastAccess
    requires true == Agrees(b, own, limitOf(token))
    ensures true ==
              Fits(limiters[token := b], if other == token then own else History(admitted, other), limitOf(other),
                   now, other)
  {
    if other != token { OtherFits(limiters, History(admitted, other), limitOf(other), clock, token, b, other, now); }
  }

  lemma {:induction false} OtherFits(limiters: map<string, Bucket>, history: seq<int>, limit: int, clock: int,
                                     token: string, b: Bucket, other: string, now: int)
    requires true == Fits(limiters, history, limit, clock, other) && clock <= now && other != token
    ensures true == Fits(limiters[token := b], history, limit, now, other)
  {
  }

  lemma {:induction false} RecordedAt(admitted: map<string, seq<int>>, token: string, ok: bool, now: int, other: string)
    ensures History(Recorded(admitted, token, ok, now), other)
         == if other == token then After(History(admitted, token), ok, now) else History(admitted, other)
  {
  }

  function After(history: seq<int>, ok: bool, now: int): seq<int> { if ok then history + [now] else history }

  function Recorded(admitted: map<string, seq<int>>, token: string, ok: bool, now: int): map<string, seq<int>> {
    if ok then admitted[token := History(admitted, token) + [now]] else admitted
  }

  lemma {:induction false} RequestFits(limiters: map<string, Bucket>, admitted: map<string, seq<int>>,
                                       limitOf: string -> int, clock: int, token: string, b: Bucket, ok: bool, now: int)
    requires true == AllFit(limiters, admitted, limitOf, clock) && clock <= now == b.lastAccess
    requires true == Agrees(b, After(History(admitted, token), ok, now), limitOf(token))
    ensures true == AllFit(limiters[token := b], Recorded(admitted, token, ok, now), limitOf, now)
  {
    forall other
      ensures Fits(limiters[token := b], History(Recorded(admitted, token, ok, now), other), limitOf(other), now, other)
    {
      var own := After(History(admitted, token), ok, now);
      RecordedAt(admitted, token, ok, now, other);
      RequestFitsAt(limiters, admitted, limitOf, clock, token, b, own, other, now);
    }
  }

  function Swept(limiters: map<string, Bucket>, cutoff: int): map<string, Bucket> {
    map token | token in limiters && limiters[token].lastAccess >= cutoff :: limiters[token]
  }

  /** Dropping an idle bucket keeps every later decision: its history has left the window for good. */
  lemma {:induction false} SweepFits(limiters: map<string, Bucket>, admitted: map<string, seq<int>>,
                                     limitOf: string -> int, clock: int, now: int)
    requires true == AllFit(limiters, admitted, limitOf, clock) && clock <= now
    ensures true == AllFit(Swept(limiters, now - IDLE), admitted, limitOf, now)
  {
    forall token ensures Fits(Swept(limiters, now - IDLE), History(admitted, token), limitOf(token), now, token) {
      TimePasses(limiters, History(admitted, token), limitOf(token), clock, token, now);
    }
  }

  class RateLimitManager {
    const limitOf: string -> int
    var limiters: map<string, Bucket>
    ghost var admitted: map<string, seq<int>>
    ghost var clock: int

    ghost predicate Valid()
      reads this
    {
      AllFit(limiters, admitted, limitOf, clock)
    }

    constructor (limitOf: string -> int)
      ensures Valid() && this.limitOf == limitOf && admitted == map[] && limiters == map[]
    {
      this.limitOf := limitOf;
      limiters, admitted, clock := map[], map[], 0;
    }

    /** The rate-limit step of ValidateShareToken. Whatever was swept before, it admits exactly when the last minute
        holds fewer admissions of the token than its limit. */
    method Request(token: string, now: int) returns (ok: bool)
      requires true == Valid() && clock <= now
      modifies this
      ensures true == Valid() && clock == now
      ensures ok <==> CountIn(old(History(admitted, token)), now - MINUTE, now) < limitOf(token)
      ensures admitted == Recorded(old(admitted), token, ok, now)
    {
      var bucket := if token in limiters then limiters[token] else Bucket([], limitOf(token), now);
      BucketAt(limiters, admitted, limitOf, clock, token, now);
      bucket, ok := Allow(bucket, now, History(admitted, token));
      RequestFits(limiters, admitted, limitOf, clock, token, bucket, ok, now);
      limiters := limiters[token := bucket];
      admitted, clock := Recorded(admitted, token, ok, now), now;
    }

    /** The sweep of cleanupLoop: buckets idle for more than half an hour go. */
    method Sweep(now: int)
      requires true == Valid() && clock <= now
      modifies this`limiters, this`clock
      ensures true == Valid() && clock == now && limiters == Swept(old(limiters), now - IDLE)
    {
      var cutoff := now - IDLE;
      var todo := limiters.Keys;
      while todo != {}
        invariant todo <= old(limiters).Keys
        invariant limiters == map token |
                                token in old(limiters) && (token in todo || old(limiters)[token].lastAccess >= cutoff)
                                :: old(limiters)[token]
        decreases todo
      {
        var token :| token in todo;
        if limiters[token].lastAccess < cutoff { limiters := limiters - {token}; }
        todo := todo - {token};
      }
      SweepFits(old(limiters), admitted, limitOf, old(clock), now);
      clock := now;
    }

    /** What every reader of the manager may rely on: no closed window of a minute ever holds more admissions of a
        token than its limit. */
    lemma RateBound(token: string, t: int)
      requires Valid() && limitOf(token) > 0
      ensures CountIn(History(admitted, token), t, t + MINUTE) <= limitOf(token)
    {
      assert Fits(limiters, History(admitted, token), limitOf(token), clock, token);
      WindowBound(History(admitted, token), limitOf(token), t);
    }
  }
}
