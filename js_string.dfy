/** The few JavaScript string built-ins the search pipeline relies on:
    `String.prototype.trim`, `toLowerCase` (ASCII letters only),
    `includes`, `Array.prototype.filter(Boolean)` followed by `join`, and
    `String(n)` for integral numbers. */
module JsString {

  /** The characters `trim` removes: ECMAScript WhiteSpace and LineTerminator. */
  predicate IsWhitespace(c: char) {
    || c == '\t' || c == '\n' || c == '\U{000B}' || c == '\U{000C}' || c == '\r'
    || c == ' ' || c == '\U{00A0}' || c == '\U{1680}'
    || ('\U{2000}' <= c <= '\U{200A}')
    || c == '\U{2028}' || c == '\U{2029}' || c == '\U{202F}' || c == '\U{205F}'
    || c == '\U{3000}' || c == '\U{FEFF}'
  }

  /** Where the text of `s` starts: the position of the first character that
      is not whitespace, at or after `k`, or `|s|` when there is none. */
  function TrimStartIndex(s: string, k: nat): (i: nat)
    requires k <= |s|
    ensures k <= i <= |s|
    ensures forall m :: k <= m < i ==> IsWhitespace(s[m])
    ensures i == |s| || !IsWhitespace(s[i])
    decreases |s| - k
  {
    if k == |s| || !IsWhitespace(s[k]) then k else TrimStartIndex(s, k + 1)
  }

  /** Where the text of `s` ends: the position just after the last character
      that is not whitespace, at or before `j` and not before `i`. */
  function TrimEndIndex(s: string, i: nat, j: nat): (e: nat)
    requires i <= j <= |s|
    ensures i <= e <= j
    ensures forall m :: e <= m < j ==> IsWhitespace(s[m])
    ensures e == i || !IsWhitespace(s[e - 1])
    decreases j
  {
    if j == i || !IsWhitespace(s[j - 1]) then j else TrimEndIndex(s, i, j - 1)
  }

  /** `String.prototype.trim`: the infix of `s` that keeps every character
      that is not whitespace and drops only whitespace, with no whitespace at
      either end. */
  function Trim(s: string): (r: string)
    ensures r == "" || (!IsWhitespace(r[0]) && !IsWhitespace(r[|r| - 1]))
    ensures var i := TrimStartIndex(s, 0); var j := TrimEndIndex(s, i, |s|);
      && r == s[i..j]
      && (forall m :: 0 <= m < |s| && !(i <= m < j) ==> IsWhitespace(s[m]))
      && (forall m :: 0 <= m < |s| && !IsWhitespace(s[m]) ==> i <= m < j)
  {
    var i := TrimStartIndex(s, 0);
    var j := TrimEndIndex(s, i, |s|);
    s[i..j]
  }

  /** `toLowerCase` restricted to the ASCII letters; other characters are kept. */
  function LowerChar(c: char): (d: char)
    ensures 'A' <= c <= 'Z' ==> 'a' <= d <= 'z' && d as int == c as int + 32
    ensures !('A' <= c <= 'Z') ==> d == c
  {
    if 'A' <= c <= 'Z' then (c as int - 'A' as int + 'a' as int) as char else c
  }

  /** `toLowerCase` on ASCII: no capital is left, and nothing but capitals
      changes. */
  function ToLower(s: string): (r: string)
    ensures |r| == |s|
    ensures forall i :: 0 <= i < |r| ==> !('A' <= r[i] <= 'Z')
    ensures forall i :: 0 <= i < |r| && r[i] != s[i] ==> 'A' <= s[i] <= 'Z'
    ensures forall i :: 0 <= i < |r| ==> r[i] == LowerChar(s[i])
  {
    seq(|s|, i requires 0 <= i < |s| => LowerChar(s[i]))
  }

  /** Lowering twice is lowering once. */
  lemma ToLowerIdempotent(s: string)
    ensures ToLower(ToLower(s)) == ToLower(s)
  {
  }

  ghost predicate OccursAt(s: string, t: string, i: nat) {
    i + |t| <= |s| && s[i..i + |t|] == t
  }

  /** `s.indexOf(t)`: the first position where `t` occurs in `s`, or -1. */
  function IndexOf(s: string, t: string): (k: int)
    ensures -1 <= k <= |s|
    ensures k >= 0 ==> OccursAt(s, t, k)
    ensures forall i: nat :: i < k || (k < 0 && i <= |s|) ==> !OccursAt(s, t, i)
    decreases |s|
  {
    if |t| > |s| then
      -1
    else if s[..|t|] == t then
      0
    else
      var k := IndexOf(s[1..], t);
      forall i: nat | 0 < i ensures OccursAt(s, t, i) == OccursAt(s[1..], t, i - 1) {
        OccursAtTail(s, t, i);
      }
      assert !OccursAt(s, t, 0);
      if k < 0 then -1 else k + 1
  }

  lemma OccursAtTail(s: string, t: string, i: nat)
    requires 0 < i && |s| > 0
    ensures OccursAt(s, t, i) == OccursAt(s[1..], t, i - 1)
  {
    if i + |t| <= |s| {
      assert s[1..][i - 1..i - 1 + |t|] == s[i..i + |t|];
    }
  }

  /** `s.includes(t)`: `t` occurs somewhere in `s` as a contiguous piece. */
  function Includes(s: string, t: string): (b: bool)
    ensures b <==> exists i: nat :: OccursAt(s, t, i)
  {
    var k := IndexOf(s, t);
    assert k >= 0 ==> OccursAt(s, t, k);
    k >= 0
  }

  /** `parts.filter(Boolean)` on strings: the empty string is falsy and dropped. */
  function NonEmpty(parts: seq<string>): (r: seq<string>)
    ensures forall i :: 0 <= i < |r| ==> r[i] != ""
    ensures |r| <= |parts|
    ensures r == [] <==> forall i :: 0 <= i < |parts| ==> parts[i] == ""
    ensures |parts| == 1 ==> r == if parts[0] == "" then [] else parts
  {
    if parts == [] then []
    else if parts[0] == "" then NonEmpty(parts[1..])
    else [parts[0]] + NonEmpty(parts[1..])
  }

  /** `filter(Boolean)` works part by part: filtering a concatenation is
      filtering each side, so every non-empty part is kept, in order. */
  lemma {:induction false} NonEmptyConcat(a: seq<string>, b: seq<string>)
    ensures NonEmpty(a + b) == NonEmpty(a) + NonEmpty(b)
  {
    if a == [] {
      assert a + b == b;
    } else {
      assert (a + b)[0] == a[0] && (a + b)[1..] == a[1..] + b;
      NonEmptyConcat(a[1..], b);
    }
  }

  /** `parts.join(sep)`. */
  function Join(parts: seq<string>, sep: string): (r: string)
    ensures |parts| == 1 ==> r == parts[0]
    ensures |parts| >= 2 ==> r == parts[0] + sep + Join(parts[1..], sep)
  {
    if parts == [] then ""
    else if |parts| == 1 then parts[0]
    else parts[0] + sep + Join(parts[1..], sep)
  }

  /** Joining a concatenation of two non-empty lists puts the separator
      between the two joins. */
  lemma {:induction false} JoinConcat(a: seq<string>, b: seq<string>, sep: string)
    requires a != [] && b != []
    ensures Join(a + b, sep) == Join(a, sep) + sep + Join(b, sep)
  {
    if |a| == 1 {
      assert (a + b)[0] == a[0] && (a + b)[1..] == b;
    } else {
      assert (a + b)[0] == a[0] && (a + b)[1..] == a[1..] + b;
      JoinConcat(a[1..], b, sep);
    }
  }

  /** Joining non-empty parts gives the empty string only for no parts at all. */
  lemma {:induction false} JoinEmpty(parts: seq<string>, sep: string)
    requires forall i :: 0 <= i < |parts| ==> parts[i] != ""
    ensures Join(parts, sep) == "" <==> parts == []
  {
    if parts != [] {
      assert |Join(parts, sep)| >= |parts[0]| > 0;
    }
  }

  function DigitChar(d: nat): (c: char)
    requires d < 10
    ensures '0' <= c <= '9'
  {
    ('0' as int + d) as char
  }

  function DigitValue(c: char): (d: nat)
    requires '0' <= c <= '9'
    ensures d < 10 && DigitChar(d) == c
  {
    c as int - '0' as int
  }

  /** Decimal digits of a natural number, most significant first, no leading zero. */
  function NatToString(n: nat): (r: string)
    ensures |r| >= 1 && (|r| > 1 ==> r[0] != '0')
    ensures forall i :: 0 <= i < |r| ==> '0' <= r[i] <= '9'
  {
    if n < 10 then [DigitChar(n)] else NatToString(n / 10) + [DigitChar(n % 10)]
  }

  /** Appending a digit to a positive number appends its character. */
  lemma NatToStringStep(n: nat, d: nat)
    requires 0 < n && d < 10
    ensures NatToString(10 * n + d) == NatToString(n) + [DigitChar(d)]
  {
    assert (10 * n + d) / 10 == n && (10 * n + d) % 10 == d;
  }

  /** `String(n)` for an integral number (JavaScript prints such numbers in plain
      decimal, with a leading minus sign when negative). */
  function IntToString(n: int): (r: string)
    ensures |r| >= 1
  {
    if n < 0 then "-" + NatToString(-n) else NatToString(n)
  }

  function ParseNat(s: string): (n: nat)
    requires forall i :: 0 <= i < |s| ==> '0' <= s[i] <= '9'
  {
    if s == [] then 0 else ParseNat(s[..|s| - 1]) * 10 + DigitValue(s[|s| - 1])
  }

  function ParseInt(s: string): int
    requires |s| >= 1
    requires s[0] == '-' || '0' <= s[0] <= '9'
    requires forall i :: 1 <= i < |s| ==> '0' <= s[i] <= '9'
  {
    if s[0] == '-' then -(ParseNat(s[1..]) as int) else ParseNat(s)
  }

  lemma {:induction false} NatRoundTrip(n: nat)
    ensures ParseNat(NatToString(n)) == n
  {
    if n >= 10 {
      var s := NatToString(n);
      assert s[..|s| - 1] == NatToString(n / 10);
      NatRoundTrip(n / 10);
    }
  }

  /** `String(n)` loses nothing: reading the digits back gives `n`. */
  lemma IntRoundTrip(n: int)
    ensures var s := IntToString(n);
      (s[0] == '-' || '0' <= s[0] <= '9') && ParseInt(s) == n
  {
    NatRoundTrip(if n < 0 then -n else n);
    if n < 0 {
      assert IntToString(n)[1..] == NatToString(-n);
    }
  }

  /** So two different ids never print alike. */
  lemma IntToStringInjective(a: int, b: int)
    requires IntToString(a) == IntToString(b)
    ensures a == b
  {
    IntRoundTrip(a);
    IntRoundTrip(b);
  }
}
