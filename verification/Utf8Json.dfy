/** Byte strings, one character per byte: UTF-8 (RFC 3629) and JSON string literals (section 7 of RFC 8259) the way
    Go's encoding/json writes and reads them. */
module Utf8Json {
  import opened Base

  const REPLACEMENT := "\U{EF}\U{BF}\U{BD}"

  // ---- UTF-8 ----

  predicate Cont(c: char) { '\U{80}' <= c <= '\U{BF}' }

  /** The second byte that may follow first byte b. */
  predicate Second(b: char, c: char) {
    Cont(c) && (b == '\U{E0}' ==> '\U{A0}' <= c) && (b == '\U{ED}' ==> c <= '\U{9F}')
    && (b == '\U{F0}' ==> '\U{90}' <= c) && (b == '\U{F4}' ==> c <= '\U{8F}')
  }

  /** The length that first byte b announces; 0 if no character begins with it. */
  function Announced(b: char): (n: nat)
    ensures n <= 4
  {
    if b < '\U{80}' then 1
    else if '\U{C2}' <= b <= '\U{DF}' then 2
    else if '\U{E0}' <= b <= '\U{EF}' then 3
    else if '\U{F0}' <= b <= '\U{F4}' then 4
    else 0
  }

  /** The length of the character s begins with; 0 if its first byte does not begin one. */
  function RuneLen(s: string): (n: nat)
    requires s != []
    ensures n <= |s| && n <= 4
  {
    var n := Announced(s[0]);
    if n <= 1 then n
    else if |s| >= n && Second(s[0], s[1]) && (n >= 3 ==> Cont(s[2])) && (n == 4 ==> Cont(s[3])) then n
    else 0
  }

  predicate ValidUtf8(s: string) {
    s == [] || (RuneLen(s) > 0 && ValidUtf8(s[RuneLen(s)..]))
  }

  /** Every byte that is not part of a character becomes a replacement character. */
  function Sanitized(s: string): string {
    if s == [] then []
    else if RuneLen(s) == 0 then REPLACEMENT + Sanitized(s[1..])
    else s[..RuneLen(s)] + Sanitized(s[RuneLen(s)..])
  }

  lemma {:induction false} SanitizedGrows(s: string)
    ensures |Sanitized(s)| >= |s|
    ensures ValidUtf8(s) ==> Sanitized(s) == s
    ensures !ValidUtf8(s) ==> |Sanitized(s)| > |s|
  {
    if s != [] {
      if RuneLen(s) == 0 {
        SanitizedGrows(s[1..]);
      } else {
        SanitizedGrows(s[RuneLen(s)..]);
        assert s[..RuneLen(s)] + s[RuneLen(s)..] == s;
      }
    }
  }

  /** The character at the front does not depend on what follows it. */
  lemma {:induction false} RuneLenPrefix(r: string, rest: string)
    requires r != [] && RuneLen(r) == |r|
    ensures RuneLen(r + rest) == |r|
  {
    var s := r + rest;
    assert forall i :: 0 <= i < |r| ==> s[i] == r[i];
  }

  lemma {:induction false} RuneLenTake(s: string)
    requires s != [] && RuneLen(s) > 0
    ensures RuneLen(s[..RuneLen(s)]) == RuneLen(s)
  {
  }

  lemma {:induction false} AsciiIsValid(s: string)
    requires forall i :: 0 <= i < |s| ==> s[i] < '\U{80}'
    ensures ValidUtf8(s)
  {
    if s != [] { AsciiIsValid(s[1..]); }
  }

  /** A cut through valid text leaves both parts valid unless it is inside a character. */
  lemma {:induction false} SplitValid(s: string, p: nat)
    requires ValidUtf8(s) && p <= |s| && (p == |s| || !Cont(s[p]))
    ensures ValidUtf8(s[..p]) && ValidUtf8(s[p..])
  {
    if p == 0 {
      assert s[0..] == s;
    } else {
      var n := RuneLen(s);
      RuneEnds(s, p);
      assert s[n..][..p - n] == s[..p][n..] && s[n..][p - n..] == s[p..];
      SplitValid(s[n..], p - n);
    }
  }

  lemma {:induction false} RuneEnds(s: string, p: nat)
    requires s != [] && RuneLen(s) > 0 && 0 < p <= |s| && (p == |s| || !Cont(s[p]))
    ensures RuneLen(s) <= p && RuneLen(s[..p]) == RuneLen(s)
  {
  }

  lemma {:induction false} SanitizedEnds(s: string)
    requires s != []
    ensures Sanitized(s) != []
    ensures Sanitized(s)[0] == s[0] || Sanitized(s)[0] == REPLACEMENT[0]
    ensures Sanitized(s)[|Sanitized(s)| - 1] == s[|s| - 1] || Sanitized(s)[|Sanitized(s)| - 1] == REPLACEMENT[2]
  {
    var n := if RuneLen(s) == 0 then 1 else RuneLen(s);
    if n < |s| { SanitizedEnds(s[n..]); }
  }

  // ---- writing a JSON string ----

  function HexDigit(n: nat): char
    requires n < 16
  {
    if n < 10 then ('0' as int + n) as char else ('a' as int + n - 10) as char
  }

  function U4(n: nat): string
    requires n < 0x10000
  {
    var m := n / 16;
    ['\\', 'u', HexDigit(m / 16 / 16), HexDigit(m / 16 % 16), HexDigit(m % 16), HexDigit(n % 16)]
  }

  /** One character of the text as it stands in the literal. */
  function EncodeRune(r: string): string
    requires r != []
  {
    var c := r[0];
    if |r| == 1 then
      if c == '"' || c == '\\' then ['\\', c]
      else if c == '\n' then "\\n"
      else if c == '\r' then "\\r"
      else if c == '\t' then "\\t"
      else if c == '\U{08}' then "\\b"
      else if c == '\U{0C}' then "\\f"
      else if c < ' ' || c == '<' || c == '>' || c == '&' then U4(c as int)
      else r
    else if r == "\U{E2}\U{80}\U{A8}" then U4(0x2028)
    else if r == "\U{E2}\U{80}\U{A9}" then U4(0x2029)
    else r
  }

  function EncodeText(s: string): string {
    if s == [] then []
    else if RuneLen(s) == 0 then U4(0xFFFD) + EncodeText(s[1..])
    else EncodeRune(s[..RuneLen(s)]) + EncodeText(s[RuneLen(s)..])
  }

  /** json.Marshal of a string. */
  function Quote(s: string): string { "\"" + EncodeText(s) + "\"" }

  // ---- reading a JSON string ----

  function HexValue(c: char): Option<nat> {
    if '0' <= c <= '9' then Some(c as int - '0' as int)
    else if 'a' <= c <= 'f' then Some(c as int - 'a' as int + 10)
    else if 'A' <= c <= 'F' then Some(c as int - 'A' as int + 10)
    else None
  }

  /** The value of an escape of the form backslash, u, four hex digits at the front of t. */
  function ReadU4(t: string): (v: Option<nat>)
    ensures v.Some? ==> |t| >= 6 && v.value < 0x10000
  {
    if |t| < 6 || t[0] != '\\' || t[1] != 'u' then None else
      var a, b, c, d := HexValue(t[2]), HexValue(t[3]), HexValue(t[4]), HexValue(t[5]);
      if a.None? || b.None? || c.None? || d.None? then None
      else
        HexBound(t[2]); HexBound(t[3]); HexBound(t[4]); HexBound(t[5]);
        Some(a.value * 4096 + b.value * 256 + c.value * 16 + d.value)
  }

  lemma {:induction false} HexBound(c: char)
    ensures HexValue(c).Some? ==> HexValue(c).value < 16
  {
  }

  function Utf8Of(v: nat): string
    requires v < 0x110000
  {
    if v < 0x80 then [v as char]
    else if v < 0x800 then [(0xC0 + v / 64) as char, (0x80 + v % 64) as char]
    else if 0xD800 <= v < 0xE000 then REPLACEMENT
    else if v < 0x10000 then [(0xE0 + v / 4096) as char, (0x80 + v / 64 % 64) as char, (0x80 + v % 64) as char]
    else [(0xF0 + v / 262144) as char, (0x80 + v / 4096 % 64) as char, (0x80 + v / 64 % 64) as char,
          (0x80 + v % 64) as char]
  }

  // ---- characters and their numbers ----

  /** A number that stands for a character: those of the surrogates do not (section 3 of RFC 3629). */
  predicate Scalar(v: int) { 0 <= v < 0xD800 || 0xE000 <= v < 0x110000 }

  /** The number in a character of UTF-8: its bytes without their marker bits, six bits to a byte after the first. */
  function Number(r: string): int {
    if |r| == 1 then r[0] as int
    else if |r| == 2 then (r[0] as int - 0xC0) * 64 + (r[1] as int - 0x80)
    else if |r| == 3 then (r[0] as int - 0xE0) * 4096 + (r[1] as int - 0x80) * 64 + (r[2] as int - 0x80)
    else if |r| == 4 then
      (r[0] as int - 0xF0) * 262144 + (r[1] as int - 0x80) * 4096 + (r[2] as int - 0x80) * 64 + (r[3] as int - 0x80)
    else -1
  }

  lemma {:induction false} SixBits(v: nat)
    ensures v == v / 64 * 64 + v % 64
    ensures v == v / 4096 * 4096 + v / 64 % 64 * 64 + v % 64
    ensures v == v / 262144 * 262144 + v / 4096 % 64 * 4096 + v / 64 % 64 * 64 + v % 64
  {
    assert v / 4096 == v / 64 / 64 && v / 262144 == v / 4096 / 64;
  }

  /** The number made of these six-bit parts. */
  lemma {:induction false} Parts3(a: nat, b: nat, c: nat)
    requires b < 64 && c < 64
    ensures var v := a * 4096 + b * 64 + c; v / 4096 == a && v / 64 % 64 == b && v % 64 == c
  {
    var v := a * 4096 + b * 64 + c;
    assert v == (a * 64 + b) * 64 + c;
    assert v / 64 == a * 64 + b;
  }

  lemma {:induction false} Parts4(a: nat, b: nat, c: nat, d: nat)
    requires b < 64 && c < 64 && d < 64
    ensures var v := a * 262144 + b * 4096 + c * 64 + d;
            v / 262144 == a && v / 4096 % 64 == b && v / 64 % 64 == c && v % 64 == d
  {
    var v := a * 262144 + b * 4096 + c * 64 + d;
    Parts3(a * 64 + b, c, d);
    assert v / 4096 == a * 64 + b;
  }

  /** r is a character and v its number. */
  predicate Stands(r: string, v: int) {
    r != [] && RuneLen(r) == |r| && Number(r) == v && Scalar(v) && Utf8Of(v) == r
  }

  // The bytes of a character without their marker bits.

  lemma {:induction false} Bytes2(a: nat, b: nat)
    requires 2 <= a < 32 && b < 64
    ensures Stands([(0xC0 + a) as char, (0x80 + b) as char], a * 64 + b)
  {
    Parts3(0, a, b);
  }

  lemma {:induction false} Bytes3(a: nat, b: nat, c: nat)
    requires a < 16 && b < 64 && c < 64 && (a == 0 ==> b >= 32) && (a == 13 ==> b < 32)
    ensures Stands([(0xE0 + a) as char, (0x80 + b) as char, (0x80 + c) as char], a * 4096 + b * 64 + c)
  {
    Parts3(a, b, c);
  }

  lemma {:induction false} Bytes4(a: nat, b: nat, c: nat, d: nat)
    requires a < 5 && b < 64 && c < 64 && d < 64 && (a == 0 ==> b >= 16) && (a == 4 ==> b < 16)
    ensures Stands([(0xF0 + a) as char, (0x80 + b) as char, (0x80 + c) as char, (0x80 + d) as char],
                   a * 262144 + b * 4096 + c * 64 + d)
  {
    Parts4(a, b, c, d);
  }

  /** Every character number is written as one character, and can be read off it again... */
  lemma {:induction false} NumberWritten(v: int)
    requires Scalar(v)
    ensures true == Stands(Utf8Of(v), v)
  {
    SixBits(v);
    if 0x80 <= v < 0x800 {
      Bytes2(v / 64, v % 64);
    } else if 0x800 <= v < 0x10000 {
      Bytes3(v / 4096, v / 64 % 64, v % 64);
    } else if v >= 0x10000 {
      Bytes4(v / 262144, v / 4096 % 64, v / 64 % 64, v % 64);
    }
  }

  /** ...and every character is what its number is written as. */
  lemma {:induction false} NumberRead(r: string)
    requires r != [] && RuneLen(r) == |r|
    ensures true == Stands(r, Number(r))
  {
    if |r| == 2 {
      Read2(r, r[0] as int - 0xC0, r[1] as int - 0x80);
    } else if |r| == 3 {
      Read3(r, r[0] as int - 0xE0, r[1] as int - 0x80, r[2] as int - 0x80);
    } else if |r| == 4 {
      Read4(r, r[0] as int - 0xF0, r[1] as int - 0x80, r[2] as int - 0x80, r[3] as int - 0x80);
    }
  }

  lemma {:induction false} Read2(r: string, a: int, b: int)
    requires |r| == 2 && RuneLen(r) == 2 && a == r[0] as int - 0xC0 && b == r[1] as int - 0x80
    ensures true == Stands(r, a * 64 + b)
  {
    Bytes2(a, b);
    assert r == [(0xC0 + a) as char, (0x80 + b) as char];
  }

  lemma {:induction false} Read3(r: string, a: int, b: int, c: int)
    requires |r| == 3 && RuneLen(r) == 3
    requires a == r[0] as int - 0xE0 && b == r[1] as int - 0x80 && c == r[2] as int - 0x80
    ensures true == Stands(r, a * 4096 + b * 64 + c)
  {
    Bytes3(a, b, c);
    assert r == [(0xE0 + a) as char, (0x80 + b) as char, (0x80 + c) as char];
  }

  lemma {:induction false} Read4(r: string, a: int, b: int, c: int, d: int)
    requires |r| == 4 && RuneLen(r) == 4
    requires a == r[0] as int - 0xF0 && b == r[1] as int - 0x80 && c == r[2] as int - 0x80 && d == r[3] as int - 0x80
    ensures true == Stands(r, a * 262144 + b * 4096 + c * 64 + d)
  {
    Bytes4(a, b, c, d);
    assert r == [(0xF0 + a) as char, (0x80 + b) as char, (0x80 + c) as char, (0x80 + d) as char];
  }

  /** One item of a literal: the bytes it stands for and how much of t it takes. */
  datatype Item = Item(bytes: string, taken: nat)

  function Simple(c: char): Option<char> {
    if c == '"' || c == '\\' || c == '/' then Some(c)
    else if c == 'n' then Some('\n')
    else if c == 'r' then Some('\r')
    else if c == 't' then Some('\t')
    else if c == 'b' then Some('\U{08}')
    else if c == 'f' then Some('\U{0C}')
    else None
  }

  function ReadEscape(t: string): (r: Option<Item>)
    requires t != []
    ensures r.Some? ==> 1 <= r.value.taken <= |t|
  {
    if |t| >= 2 && Simple(t[1]).Some? then Some(Item([Simple(t[1]).value], 2)) else
      var v := ReadU4(t);
      if v.None? then None
      else if 0xD800 <= v.value < 0xE000 then
        var w := ReadU4(t[6..]);
        if v.value < 0xDC00 && w.Some? && 0xDC00 <= w.value < 0xE000
        then Some(Item(Utf8Of((v.value - 0xD800) * 1024 + (w.value - 0xDC00) + 0x10000), 12))
        else Some(Item(REPLACEMENT, 6))
      else Some(Item(Utf8Of(v.value), 6))
  }

  function ReadItem(t: string): (r: Option<Item>)
    requires t != []
    ensures r.Some? ==> 1 <= r.value.taken <= |t|
  {
    if t[0] == '\\' then ReadEscape(t)
    else if t[0] < ' ' then None
    else if RuneLen(t) == 0 then Some(Item(REPLACEMENT, 1))
    else Some(Item(t[..RuneLen(t)], RuneLen(t)))
  }

  /** The text of a literal after its opening quote; the closing quote must be the end. */
  function ReadText(t: string): Option<string> {
    if t == [] then None
    else if t[0] == '"' then (if |t| == 1 then Some([]) else None)
    else
      var item := ReadItem(t);
      if item.None? then None else
        var rest := ReadText(t[item.value.taken..]);
        if rest.None? then None else Some(item.value.bytes + rest.value)
  }

  predicate JsonSpace(c: char) { c == ' ' || c == '\t' || c == '\n' || c == '\r' }

  function TrimJson(s: string): string {
    if s != [] && JsonSpace(s[0]) then TrimJson(s[1..])
    else if s != [] && JsonSpace(s[|s| - 1]) then TrimJson(s[..|s| - 1])
    else s
  }

  /** json.Unmarshal into a string variable that is empty before: null leaves it alone, any other value is an error. */
  function Unmarshal(raw: string): Option<string> {
    var t := TrimJson(raw);
    if t == "null" then Some("")
    else if t != [] && t[0] == '"' then ReadText(t[1..])
    else None
  }

  // ---- reading back what was written ----

  lemma {:induction false} ReadSimple(c: char, rest: string)
    requires Simple(c).Some?
    ensures ReadItem(['\\', c] + rest) == Some(Item([Simple(c).value], 2))
  {
  }

  lemma {:induction false} HexRoundTrip(n: nat)
    requires n < 16
    ensures HexValue(HexDigit(n)) == Some(n)
  {
  }

  /** Capital digits are read too. */
  lemma {:induction false} HexCapital(n: nat)
    requires 10 <= n < 16
    ensures HexValue(('A' as int + n - 10) as char) == Some(n)
  {
  }

  lemma {:induction false} ReadU4Written(n: nat, rest: string)
    requires n < 0x10000
    ensures ReadU4(U4(n) + rest) == Some(n) && |U4(n)| == 6
  {
    var m := n / 16;
    var t := U4(n) + rest;
    HexRoundTrip(m / 16 / 16);
    HexRoundTrip(m / 16 % 16);
    HexRoundTrip(m % 16);
    HexRoundTrip(n % 16);
    assert t[2] == HexDigit(m / 16 / 16) && t[3] == HexDigit(m / 16 % 16) && t[4] == HexDigit(m % 16)
           && t[5] == HexDigit(n % 16);
  }

  lemma {:induction false} ReadUnicode(n: nat, rest: string)
    requires n < 0xD800 || 0xE000 <= n < 0x10000
    ensures ReadItem(U4(n) + rest) == Some(Item(Utf8Of(n), 6))
  {
    ReadU4Written(n, rest);
    var t := U4(n) + rest;
    assert t[0] == '\\' && t[1] == 'u' && Simple('u').None?;
  }

  /** A number beyond sixteen bits is escaped as two surrogates. */
  lemma {:induction false} ReadPair(high: nat, low: nat, rest: string)
    requires 0xD800 <= high < 0xDC00 <= low < 0xE000
    ensures ReadItem(U4(high) + (U4(low) + rest)) ==
              Some(Item(Utf8Of(0x10000 + (high - 0xD800) * 0x400 + (low - 0xDC00)), 12))
  {
    var t := U4(high) + (U4(low) + rest);
    ReadU4Written(high, U4(low) + rest);
    ReadU4Written(low, rest);
    EscapeOf(t, high, U4(low) + rest);
  }

  lemma {:induction false} EscapeOf(t: string, n: nat, rest: string)
    requires n < 0x10000 && t == U4(n) + rest
    ensures t[0] == '\\' && t[1] == 'u' && Simple(t[1]).None? && t[6..] == rest
  {
  }

  /** A surrogate on its own stands for nothing. */
  lemma {:induction false} ReadLone(n: nat, rest: string)
    requires 0xD800 <= n < 0xE000
    requires n >= 0xDC00 || ReadU4(rest).None? || !(0xDC00 <= ReadU4(rest).value < 0xE000)
    ensures ReadItem(U4(n) + rest) == Some(Item(REPLACEMENT, 6))
  {
    ReadU4Written(n, rest);
    EscapeOf(U4(n) + rest, n, rest);
  }

  lemma {:induction false} ReadPlain(r: string, rest: string)
    requires r != [] && RuneLen(r) == |r| && r[0] >= ' ' && r[0] != '\\'
    ensures ReadItem(r + rest) == Some(Item(r, |r|))
  {
    RuneLenPrefix(r, rest);
    assert (r + rest)[..|r|] == r;
  }

  lemma {:induction false} ReadByte(c: char, rest: string)
    requires c < '\U{80}'
    ensures ReadItem(EncodeRune([c]) + rest) == Some(Item([c], |EncodeRune([c])|))
    ensures EncodeRune([c]) != [] && EncodeRune([c])[0] != '"'
  {
    if c == '"' || c == '\\' { ReadSimple(c, rest); }
    else if c == '\n' { ReadSimple('n', rest); }
    else if c == '\r' { ReadSimple('r', rest); }
    else if c == '\t' { ReadSimple('t', rest); }
    else if c == '\U{08}' { ReadSimple('b', rest); }
    else if c == '\U{0C}' { ReadSimple('f', rest); }
    else if c < ' ' || c == '<' || c == '>' || c == '&' { ReadUnicode(c as int, rest); }
    else { ReadPlain([c], rest); }
  }

  lemma {:induction false} ReadSeparator(n: nat, rest: string)
    requires n == 0x2028 || n == 0x2029
    ensures ReadItem(U4(n) + rest) == Some(Item(['\U{E2}', '\U{80}', (0x80 + n % 64) as char], 6)) && |U4(n)| == 6
  {
    ReadUnicode(n, rest);
  }

  lemma {:induction false} ReadWide(r: string, rest: string)
    requires |r| > 1 && RuneLen(r) == |r|
    ensures ReadItem(EncodeRune(r) + rest) == Some(Item(r, |EncodeRune(r)|))
    ensures EncodeRune(r) != [] && EncodeRune(r)[0] != '"'
  {
    if EncodeRune(r) == r {
      ReadPlain(r, rest);
    } else {
      var n := if r[2] == '\U{A8}' then 0x2028 else 0x2029;
      assert EncodeRune(r) == U4(n) && r == ['\U{E2}', '\U{80}', (0x80 + n % 64) as char];
      ReadSeparator(n, rest);
    }
  }

  /** Reading one written character gives it back. */
  lemma {:induction false} ReadRune(r: string, rest: string)
    requires r != [] && RuneLen(r) == |r|
    ensures ReadItem(EncodeRune(r) + rest) == Some(Item(r, |EncodeRune(r)|))
    ensures EncodeRune(r) != [] && EncodeRune(r)[0] != '"'
  {
    if |r| == 1 {
      assert r == [r[0]];
      ReadByte(r[0], rest);
    } else {
      ReadWide(r, rest);
    }
  }

  lemma {:induction false} ReadEncoded(s: string)
    ensures ReadText(EncodeText(s) + "\"") == Some(Sanitized(s))
  {
    if s == [] {
      assert EncodeText(s) + "\"" == "\"";
    } else if RuneLen(s) == 0 {
      ReadEncoded(s[1..]);
      ReadBroken(EncodeText(s[1..]) + "\"");
      assert EncodeText(s) + "\"" == U4(0xFFFD) + (EncodeText(s[1..]) + "\"");
    } else {
      var n := RuneLen(s);
      ReadEncoded(s[n..]);
      RuneLenTake(s);
      ReadRune(s[..n], EncodeText(s[n..]) + "\"");
      ReadOne(EncodeRune(s[..n]), EncodeText(s[n..]) + "\"", s[..n]);
      assert EncodeText(s) + "\"" == EncodeRune(s[..n]) + (EncodeText(s[n..]) + "\"");
    }
  }

  lemma {:induction false} ReadBroken(rest: string)
    requires ReadText(rest).Some?
    ensures ReadText(U4(0xFFFD) + rest) == Some(REPLACEMENT + ReadText(rest).value)
  {
    assert Utf8Of(0xFFFD) == REPLACEMENT;
    ReadEscaped(0xFFFD, rest);
  }

  lemma {:induction false} ReadEscaped(n: nat, rest: string)
    requires n < 0xD800 || 0xE000 <= n < 0x10000
    requires ReadText(rest).Some?
    ensures ReadText(U4(n) + rest) == Some(Utf8Of(n) + ReadText(rest).value)
  {
    ReadUnicode(n, rest);
    ReadOne(U4(n), rest, Utf8Of(n));
  }

  lemma {:induction false} ReadOne(e: string, rest: string, bytes: string)
    requires e != [] && e[0] != '"' && ReadItem(e + rest) == Some(Item(bytes, |e|)) && ReadText(rest).Some?
    ensures ReadText(e + rest) == Some(bytes + ReadText(rest).value)
  {
    assert (e + rest)[|e|..] == rest;
  }

  /** Plain text is written as it is, between quotes. */
  lemma {:induction false} PlainQuoted(s: string)
    requires forall i :: 0 <= i < |s| ==> ' ' <= s[i] <= '~' && s[i] !in "\"\\<>&"
    ensures EncodeText(s) == s
  {
    if s != [] {
      PlainQuoted(s[1..]);
      assert s[0] in s && s[..1] == [s[0]] && s == s[..1] + s[1..];
    }
  }

  predicate AllSpace(s: string) { forall i :: 0 <= i < |s| ==> s[i] in " \t\n\r" }

  lemma {:induction false} TrimJsonBefore(a: string, t: string)
    requires AllSpace(a)
    ensures TrimJson(a + t) == TrimJson(t)
  {
    if a == [] {
      assert a + t == t;
    } else {
      assert (a + t)[0] == a[0] && (a + t)[1..] == a[1..] + t;
      TrimJsonBefore(a[1..], t);
    }
  }

  lemma {:induction false} TrimJsonAfter(t: string, b: string)
    requires AllSpace(b) && t != [] && !JsonSpace(t[0]) && !JsonSpace(t[|t| - 1])
    ensures TrimJson(t + b) == t
  {
    if b == [] {
      assert t + b == t;
    } else {
      var s := t + b;
      assert s[0] == t[0] && s[|s| - 1] == b[|b| - 1] && s[..|s| - 1] == t + b[..|b| - 1];
      TrimJsonAfter(t, b[..|b| - 1]);
    }
  }

  /** White space around a value does not matter. */
  lemma {:induction false} TrimJsonAround(a: string, t: string, b: string)
    requires AllSpace(a) && AllSpace(b) && t != [] && !JsonSpace(t[0]) && !JsonSpace(t[|t| - 1])
    ensures TrimJson(a + (t + b)) == t
  {
    TrimJsonBefore(a, t + b);
    TrimJsonAfter(t, b);
  }

  /** The value null reads as no text. */
  lemma {:induction false} NullIsEmpty(a: string, b: string)
    requires AllSpace(a) && AllSpace(b)
    ensures Unmarshal(a + ("null" + b)) == Some("")
  {
    TrimJsonAround(a, "null", b);
  }

  /** Marshalling a byte string and unmarshalling it gives it back with every broken byte replaced. */
  lemma {:induction false} QuoteRoundTrip(s: string)
    ensures Unmarshal(Quote(s)) == Some(Sanitized(s))
  {
    var q := Quote(s);
    assert q[0] == '"' && q[|q| - 1] == '"' && TrimJson(q) == q && q != "null";
    assert q[1..] == EncodeText(s) + "\"";
    ReadEncoded(s);
  }
}
