/** The handful of JavaScript string operations the modelled code relies on:
    `indexOf`/`includes`/`startsWith`, `Array.prototype.join`, `trim`,
    ASCII `toLowerCase` and the decimal rendering of a natural number. */
module Strings {
  import opened Wrappers

  /** `p` occurs in `s` starting at index `i`. */
  predicate Occurs(s: string, p: string, i: int) {
    0 <= i && i + |p| <= |s| && s[i..i + |p|] == p
  }

  /** `s.startsWith(p)` */
  predicate StartsWith(s: string, p: string) {
    |p| <= |s| && s[..|p|] == p
  }

  /** `s.includes(p)` */
  predicate Contains(s: string, p: string) {
    exists i | 0 <= i <= |s| :: Occurs(s, p, i)
  }

  lemma OccursShift(s: string, p: string, i: nat)
    requires |s| > 0
    ensures Occurs(s[1..], p, i) <==> Occurs(s, p, i + 1)
  {
    if i + |p| <= |s[1..]| {
      assert s[1..][i..i + |p|] == s[i + 1..i + 1 + |p|];
    }
  }

  lemma OccursAtStart(s: string, p: string)
    ensures Occurs(s, p, 0) <==> StartsWith(s, p)
  {
  }

  /** An occurrence inside a prefix is an occurrence in the whole string, and
      an occurrence that ends inside the prefix is one in the prefix. */
  lemma OccursInPrefix(s: string, rest: string, p: string, i: int)
    requires 0 <= i && i + |p| <= |s|
    ensures Occurs(s + rest, p, i) <==> Occurs(s, p, i)
  {
    assert (s + rest)[i..i + |p|] == s[i..i + |p|];
  }

  /** `s.indexOf(p)`: the first index at which `p` occurs, `None` for -1. */
  function IndexOf(s: string, p: string): (r: Option<nat>)
    ensures r.Some? ==> Occurs(s, p, r.value)
    ensures r.Some? ==> forall j :: 0 <= j < r.value ==> !Occurs(s, p, j)
    ensures r.None? <==> !Contains(s, p)
    decreases |s|
  {
    if StartsWith(s, p) then
      Some(0)
    else if |s| == 0 then
      None
    else
      var tail := IndexOf(s[1..], p);
      forall j: nat ensures Occurs(s[1..], p, j) <==> Occurs(s, p, j + 1) {
        OccursShift(s, p, j);
      }
      if tail.None? then
        assert forall j :: Occurs(s, p, j) ==> j > 0 && Occurs(s[1..], p, j - 1);
        None
      else
        assert !Occurs(s, p, 0) by { OccursAtStart(s, p); }
        assert forall j :: 0 < j <= tail.value ==> !Occurs(s, p, j) by {
          forall j | 0 < j <= tail.value ensures !Occurs(s, p, j) {
            OccursShift(s, p, j - 1);
          }
        }
        Some(tail.value + 1)
  }

  /** `parts.join(sep)` */
  function Join(parts: seq<string>, sep: string): (r: string)
    ensures |parts| == 0 ==> r == ""
    ensures |parts| == 1 ==> r == parts[0]
  {
    if |parts| == 0 then ""
    else if |parts| == 1 then parts[0]
    else Join(parts[..|parts| - 1], sep) + sep + parts[|parts| - 1]
  }

  /** Characters removed by `String.prototype.trim`: the ECMAScript
      WhiteSpace and LineTerminator productions. */
  predicate IsJsWhitespace(c: char) {
    || c == '\t' || c == '\n' || c == '\U{000B}' || c == '\U{000C}' || c == '\r' || c == ' '
    || c == '\U{00A0}' || c == '\U{1680}' || ('\U{2000}' <= c <= '\U{200A}')
    || c == '\U{2028}' || c == '\U{2029}' || c == '\U{202F}' || c == '\U{205F}'
    || c == '\U{3000}' || c == '\U{FEFF}'
  }

  function TrimStart(s: string): (r: string)
    ensures |r| <= |s| && r == s[|s| - |r|..]
    ensures forall i :: 0 <= i < |s| - |r| ==> IsJsWhitespace(s[i])
    ensures |r| > 0 ==> !IsJsWhitespace(r[0])
  {
    if |s| > 0 && IsJsWhitespace(s[0]) then TrimStart(s[1..]) else s
  }

  function TrimEnd(s: string): (r: string)
    ensures |r| <= |s| && r == s[..|r|]
    ensures forall i :: |r| <= i < |s| ==> IsJsWhitespace(s[i])
    ensures |r| > 0 ==> !IsJsWhitespace(r[|r| - 1])
  {
    if |s| > 0 && IsJsWhitespace(s[|s| - 1]) then TrimEnd(s[..|s| - 1]) else s
  }

  /** `s.trim()`: the longest infix without leading or trailing whitespace,
      obtained by removing only whitespace. */
  function Trim(s: string): (r: string)
    ensures Contains(s, r)
    ensures (forall i :: 0 <= i < |s| ==> IsJsWhitespace(s[i])) ==> r == ""
    ensures |r| > 0 ==> !IsJsWhitespace(r[0]) && !IsJsWhitespace(r[|r| - 1])
  {
    var t := TrimStart(s);
    var r := TrimEnd(t);
    assert Occurs(s, r, |s| - |t|);
    r
  }

  lemma TrimIdempotent(s: string)
    ensures Trim(Trim(s)) == Trim(s)
  {
  }

  function ToLowerChar(c: char): char {
    if 'A' <= c <= 'Z' then (c as int - 'A' as int + 'a' as int) as char else c
  }

  /** `s.toLowerCase()` restricted to ASCII letters. */
  function ToLowerAscii(s: string): (r: string)
    ensures |r| == |s|
    ensures forall i :: 0 <= i < |s| ==> r[i] == ToLowerChar(s[i])
  {
    seq(|s|, i requires 0 <= i < |s| => ToLowerChar(s[i]))
  }

  function DigitChar(d: nat): char
    requires d < 10
  {
    "0123456789"[d]
  }

  /** The decimal rendering of `n`, as JavaScript's template literals print
      a non-negative integer. */
  function NatToString(n: nat): (r: string)
    ensures |r| > 0
    ensures (n < 10) == (|r| == 1)
  {
    if n < 10 then [DigitChar(n)] else NatToString(n / 10) + [DigitChar(n % 10)]
  }

  /** Different numbers render differently. */
  lemma {:induction false} NatToStringInjective(m: nat, n: nat)
    requires NatToString(m) == NatToString(n)
    ensures m == n
  {
    if m >= 10 && n >= 10 {
      var a, b := NatToString(m), NatToString(n);
      assert a[..|a| - 1] == NatToString(m / 10);
      assert b[..|b| - 1] == NatToString(n / 10);
      NatToStringInjective(m / 10, n / 10);
      assert DigitChar(m % 10) == a[|a| - 1] == DigitChar(n % 10);
    } else if m < 10 && n < 10 {
      assert DigitChar(m) == DigitChar(n);
    }
  }
}
