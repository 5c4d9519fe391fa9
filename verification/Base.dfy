/** Small vocabulary shared by the other modules: optional values, the Go string helpers the
    source leans on, and Go's string order. */
module Base {
  datatype Option<+T> = None | Some(value: T)

  // ---- strings.TrimSpace / strings.ToLower (ASCII part) ----

  predicate IsSpace(c: char) { c in " \t\n\r" || c == '\U{0B}' || c == '\U{0C}' }

  function TrimLeft(s: string): (r: string)
    ensures r == [] || !IsSpace(r[0])
    ensures |r| <= |s|
  {
    if s != [] && IsSpace(s[0]) then TrimLeft(s[1..]) else s
  }

  function TrimRight(s: string): (r: string)
    ensures r == [] || !IsSpace(r[|r| - 1])
    ensures r <= s
  {
    if s != [] && IsSpace(s[|s| - 1]) then TrimRight(s[..|s| - 1]) else s
  }

  function TrimSpace(s: string): string { TrimRight(TrimLeft(s)) }

  function LowerChar(c: char): char {
    if 'A' <= c <= 'Z' then (c as int + 32) as char else c
  }

  function ToLower(s: string): (r: string)
    ensures |r| == |s|
  {
    seq(|s|, i requires 0 <= i < |s| => LowerChar(s[i]))
  }

  /** strings.Contains. */
  predicate Contains(s: string, sub: string) {
    sub <= s || (s != [] && Contains(s[1..], sub))
  }

  /** %d of a number that is not negative. */
  function Decimal(n: nat): string {
    if n < 10 then [('0' as int + n) as char] else Decimal(n / 10) + [('0' as int + n % 10) as char]
  }

  /** Different numbers have different decimal forms. */
  lemma {:induction false} DecimalInjective(m: nat, n: nat)
    requires Decimal(m) == Decimal(n)
    ensures m == n
  {
    var a, b := Decimal(m), Decimal(n);
    assert a[|a| - 1] == b[|b| - 1];
    DecimalNonEmpty(m);
    DecimalNonEmpty(n);
    if m >= 10 && n >= 10 {
      assert a[..|a| - 1] == Decimal(m / 10) && b[..|b| - 1] == Decimal(n / 10);
      DecimalInjective(m / 10, n / 10);
    }
  }

  lemma {:induction false} DecimalNonEmpty(n: nat)
    ensures |Decimal(n)| >= 1 && (n >= 10 ==> |Decimal(n)| >= 2)
    ensures Decimal(n)[|Decimal(n)| - 1] == ('0' as int + n % 10) as char
  {
  }

  /** Space and the control characters from tab to carriage return. */
  lemma {:induction false} SpacesAre(c: char)
    ensures IsSpace(c) <==> c as int == 32 || 9 <= c as int <= 13
  {
    assert " \t\n\r" == [' '] + ['\t'] + ['\n'] + ['\r'];
  }

  /** Trimming takes white space off both ends and nothing else, and leaves none there. */
  lemma {:induction false} TrimSpaceMeaning(s: string) returns (i: nat, j: nat)
    ensures i <= j <= |s| && TrimSpace(s) == s[i..j]
    ensures forall k :: 0 <= k < i || j <= k < |s| ==> IsSpace(s[k])
    ensures i < j ==> !IsSpace(s[i]) && !IsSpace(s[j - 1])
  {
    i := TrimLeftMeaning(s);
    var n := TrimRightMeaning(s[i..]);
    j := i + n;
    assert s[i..][..n] == s[i..j];
    forall k | j <= k < |s| ensures IsSpace(s[k]) { assert s[k] == s[i..][k - i]; }
    if i < j { assert TrimLeft(s)[0] == s[i]; }
  }

  lemma {:induction false} TrimLeftMeaning(s: string) returns (i: nat)
    ensures i <= |s| && TrimLeft(s) == s[i..] && forall k :: 0 <= k < i ==> IsSpace(s[k])
  {
    i := 0;
    if s != [] && IsSpace(s[0]) {
      var n := TrimLeftMeaning(s[1..]);
      i := n + 1;
      forall k | 0 <= k < i ensures IsSpace(s[k]) { if k > 0 { assert s[k] == s[1..][k - 1]; } }
    }
  }

  lemma {:induction false} TrimRightMeaning(s: string) returns (n: nat)
    ensures n <= |s| && TrimRight(s) == s[..n] && forall k :: n <= k < |s| ==> IsSpace(s[k])
  {
    n := |s|;
    if s != [] && IsSpace(s[|s| - 1]) { n := TrimRightMeaning(s[..|s| - 1]); }
  }

  /** No capital letter is left, and nothing else changes. */
  lemma {:induction false} ToLowerMeaning(s: string, i: nat)
    requires i < |s|
    ensures !('A' <= ToLower(s)[i] <= 'Z')
    ensures var c, d := s[i], ToLower(s)[i];
            d == c || ('A' <= c <= 'Z' && d as int - 'a' as int == c as int - 'A' as int)
  {
  }

  predicate StandsAt(s: string, sub: string, i: int) { 0 <= i <= |s| - |sub| && s[i..i + |sub|] == sub }

  lemma {:induction false} ContainsMeaning(s: string, sub: string)
    ensures Contains(s, sub) <==> exists i :: StandsAt(s, sub, i)
  {
    assert sub <= s <==> StandsAt(s, sub, 0);
    if s != [] {
      ContainsMeaning(s[1..], sub);
      forall i ensures StandsAt(s[1..], sub, i) <==> i >= 0 && StandsAt(s, sub, i + 1) {
        if 0 <= i <= |s[1..]| - |sub| { assert s[1..][i..i + |sub|] == s[i + 1..i + 1 + |sub|]; }
      }
      if i :| StandsAt(s, sub, i) { assert i > 0 ==> StandsAt(s[1..], sub, i - 1); }
    }
  }

  /** Text with no outer white space is a fixed point of TrimSpace. */
  lemma {:induction false} TrimSpaceFixed(s: string)
    requires s == [] || (!IsSpace(s[0]) && !IsSpace(s[|s| - 1]))
    ensures TrimSpace(s) == s
  {
  }

  // ---- the order sort.Strings uses ----

  predicate Less(a: string, b: string) {
    b != [] && (a == [] || a[0] < b[0] || (a[0] == b[0] && Less(a[1..], b[1..])))
  }

  /** a and b agree on their first k characters, and then a ends first or has the smaller character. */
  predicate SmallerAt(a: string, b: string, k: int) {
    && 0 <= k <= |a| && k <= |b| && a[..k] == b[..k]
    && ((k == |a| && k < |b|) || (k < |a| && k < |b| && a[k] < b[k]))
  }

  /** Dictionary order, by the first difference. */
  ghost predicate Smaller(a: string, b: string) { exists k :: SmallerAt(a, b, k) }

  /** Less is exactly that order. */
  lemma {:induction false} LessMeaning(a: string, b: string)
    ensures Less(a, b) <==> Smaller(a, b)
  {
    if a == [] && b != [] { assert SmallerAt(a, b, 0); }
    if a != [] && b != [] {
      if a[0] == b[0] {
        LessMeaning(a[1..], b[1..]);
        SmallerShift(a, b);
      } else if a[0] < b[0] {
        assert SmallerAt(a, b, 0);
      } else {
        forall k ensures !SmallerAt(a, b, k) {
          if 0 < k <= |a| && k <= |b| { assert a[..k][0] == a[0] && b[..k][0] == b[0]; }
        }
      }
    }
  }

  lemma {:induction false} SmallerShift(a: string, b: string)
    requires a != [] && b != [] && a[0] == b[0]
    ensures Smaller(a, b) <==> Smaller(a[1..], b[1..])
  {
    if k :| SmallerAt(a, b, k) {
      assert a[1..][..k - 1] == a[..k][1..] && b[1..][..k - 1] == b[..k][1..];
      assert SmallerAt(a[1..], b[1..], k - 1);
    }
    if k :| SmallerAt(a[1..], b[1..], k) {
      assert a[..k + 1] == [a[0]] + a[1..][..k] && b[..k + 1] == [b[0]] + b[1..][..k];
      assert SmallerAt(a, b, k + 1);
    }
  }

  lemma {:induction false} LessTotal(a: string, b: string)
    ensures a == b || Less(a, b) || Less(b, a)
  {
    if a != [] && b != [] && a[0] == b[0] {
      LessTotal(a[1..], b[1..]);
      assert a == [a[0]] + a[1..] && b == [b[0]] + b[1..];
    }
  }

  lemma {:induction false} LessAsymmetric(a: string, b: string)
    requires Less(a, b)
    ensures !Less(b, a) && a != b
  {
    if a != [] && a[0] == b[0] { LessAsymmetric(a[1..], b[1..]); }
  }

  lemma {:induction false} LessTransitive(a: string, b: string, c: string)
    requires Less(a, b) && Less(b, c)
    ensures Less(a, c)
  {
    if a != [] && a[0] == b[0] && b[0] == c[0] { LessTransitive(a[1..], b[1..], c[1..]); }
  }

  // ---- sort.Strings ----

  predicate NotAbove(x: string, y: string) { x == y || Less(x, y) }

  predicate Sorted(s: seq<string>) { forall i, j :: 0 <= i < j < |s| ==> NotAbove(s[i], s[j]) }

  function Insert(x: string, s: seq<string>): (r: seq<string>)
    ensures multiset(r) == multiset(s) + multiset{x}
  {
    if s == [] then [x]
    else if Less(s[0], x) then
      assert s == [s[0]] + s[1..];
      [s[0]] + Insert(x, s[1..])
    else [x] + s
  }

  function Sort(s: seq<string>): (r: seq<string>)
    ensures multiset(r) == multiset(s)
  {
    if s == [] then [] else
      assert s == [s[0]] + s[1..];
      Insert(s[0], Sort(s[1..]))
  }

  lemma {:induction false} InsertSorted(x: string, s: seq<string>)
    requires Sorted(s)
    ensures Sorted(Insert(x, s))
  {
    if s == [] {
    } else if Less(s[0], x) {
      InsertSorted(x, s[1..]);
      var rest := Insert(x, s[1..]);
      forall j | 0 <= j < |rest| ensures NotAbove(s[0], rest[j]) {
        assert rest[j] in multiset(rest);
        assert rest[j] == x || rest[j] in s[1..];
      }
    } else {
      LessTotal(s[0], x);
      forall j | 0 <= j < |s| ensures NotAbove(x, s[j]) {
        if j > 0 && s[0] != x && s[0] != s[j] { LessTransitive(x, s[0], s[j]); }
      }
    }
  }

  lemma {:induction false} SortSorted(s: seq<string>)
    ensures Sorted(Sort(s))
  {
    if s != [] {
      SortSorted(s[1..]);
      InsertSorted(s[0], Sort(s[1..]));
    }
  }

  // ---- lists as sets ----

  predicate NoDup<T(==)>(s: seq<T>) { forall i, j :: 0 <= i < j < |s| ==> s[i] != s[j] }

  function Elements(s: seq<string>): set<string> { set x | x in s }

  lemma {:induction false} DistinctSize(s: seq<string>)
    requires NoDup(s)
    ensures |Elements(s)| == |s|
  {
    if s != [] {
      DistinctSize(s[..|s| - 1]);
      assert Elements(s) == Elements(s[..|s| - 1]) + {s[|s| - 1]};
    }
  }
}
