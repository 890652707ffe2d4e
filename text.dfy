/**
 * The string operations of the JavaScript runtime that the widgets rely on:
 * white space and `trim`, ASCII lower-casing, `includes`/`startsWith`,
 * `split`/`join` on one separator character, decimal rendering of
 * non-negative integers and `padStart`.
 */
module Text {

  /** The characters that JavaScript's `\s` class and `String.prototype.trim`
      treat as white space (the WhiteSpace and LineTerminator code points). */
  predicate IsSpace(c: char) {
    || c == ' ' || c == '\t' || c == '\n' || c == '\U{000B}' || c == '\U{000C}' || c == '\r'
    || c == '\U{00A0}' || c == '\U{1680}' || ('\U{2000}' <= c <= '\U{200A}')
    || c == '\U{2028}' || c == '\U{2029}' || c == '\U{202F}' || c == '\U{205F}'
    || c == '\U{3000}' || c == '\U{FEFF}'
  }

  predicate AllSpace(s: string) {
    forall i :: 0 <= i < |s| ==> IsSpace(s[i])
  }

  /** The number of white space characters the string starts with. */
  function LeadingSpaces(s: string): (n: nat)
    ensures n <= |s| && AllSpace(s[..n])
    ensures n == |s| || !IsSpace(s[n])
  {
    if s != [] && IsSpace(s[0]) then
      var m := LeadingSpaces(s[1..]);
      assert forall k :: 1 <= k < m + 1 ==> s[k] == s[1..][..m][k - 1];
      1 + m
    else 0
  }

  /** The length of the string once its trailing white space is dropped. */
  function TrailingStart(s: string): (n: nat)
    ensures n <= |s| && AllSpace(s[n..])
    ensures n == 0 || !IsSpace(s[n - 1])
  {
    if s != [] && IsSpace(s[|s| - 1]) then
      var n := TrailingStart(s[..|s| - 1]);
      assert forall k :: n <= k < |s| - 1 ==> s[k] == s[..|s| - 1][n..][k - n];
      n
    else |s|
  }

  /** `String.prototype.trim`: the leading white space is dropped, then the
      trailing white space of what is left. */
  function Trim(s: string): string {
    var t := s[LeadingSpaces(s)..];
    t[..TrailingStart(t)]
  }

  /** The trimmed string is a slice of the input whose ends are not white
      space, and everything cut off on either side is white space. */
  lemma TrimIsCore(s: string)
    ensures exists i, j :: 0 <= i <= j <= |s| && Trim(s) == s[i..j] && AllSpace(s[..i]) && AllSpace(s[j..])
    ensures Trim(s) == [] || (!IsSpace(Trim(s)[0]) && !IsSpace(Trim(s)[|Trim(s)| - 1]))
  {
    var i := LeadingSpaces(s);
    var t := s[i..];
    var n := TrailingStart(t);
    var j := i + n;
    assert Trim(s) == s[i..j];
    forall k | j <= k < |s|
      ensures IsSpace(s[k])
    {
      assert s[k] == t[n..][k - j];
    }
    assert AllSpace(s[..i]) && AllSpace(s[j..]);
    if n > 0 {
      assert Trim(s)[0] == s[i];
      assert Trim(s)[n - 1] == t[n - 1];
    }
  }

  /** A string trims to nothing exactly when it is all white space. */
  lemma TrimEmptyIffBlank(s: string)
    ensures Trim(s) == [] <==> AllSpace(s)
  {
    var i := LeadingSpaces(s);
    var t := s[i..];
    assert i < |s| ==> t[0..][0] == s[i];
    if Trim(s) == [] {
      assert i == |s|;
      forall k | 0 <= k < |s|
        ensures IsSpace(s[k])
      {
        assert s[k] == s[..i][k];
      }
    } else {
      assert i < |s| && !IsSpace(s[i]);
    }
  }

  /** ASCII `toLowerCase` of one character. */
  function LowerChar(c: char): char {
    if 'A' <= c <= 'Z' then (c as int - 'A' as int + 'a' as int) as char else c
  }

  /** `String.prototype.toLowerCase`, restricted to ASCII letters. */
  function ToLower(s: string): string {
    seq(|s|, i requires 0 <= i < |s| => LowerChar(s[i]))
  }

  /** `s.startsWith(p)`, which is also `s.indexOf(p) === 0`. */
  predicate StartsWith(s: string, p: string) {
    |p| <= |s| && s[..|p|] == p
  }

  /** `String.prototype.includes`, searching from the left. */
  function Includes(s: string, t: string): bool
    decreases |s|
  {
    StartsWith(s, t) || (|s| > |t| && Includes(s[1..], t))
  }

  /** `t` occurs in `s` starting at position `i`. */
  predicate OccursAt(s: string, t: string, i: int) {
    0 <= i <= |s| - |t| && s[i..i + |t|] == t
  }

  /** `Includes` finds `t` exactly when `t` occurs at some position of `s`. */
  lemma {:induction false} IncludesIff(s: string, t: string)
    ensures Includes(s, t) <==> exists i :: OccursAt(s, t, i)
    decreases |s|
  {
    if StartsWith(s, t) {
      assert OccursAt(s, t, 0);
    } else if |s| > |t| {
      IncludesIff(s[1..], t);
      if Includes(s[1..], t) {
        var i :| OccursAt(s[1..], t, i);
        assert s[i + 1..i + 1 + |t|] == s[1..][i..i + |t|];
        assert OccursAt(s, t, i + 1);
      } else {
        forall i | OccursAt(s, t, i)
          ensures i >= 1 && OccursAt(s[1..], t, i - 1)
        {
          assert i != 0;
          assert s[1..][i - 1..i - 1 + |t|] == s[i..i + |t|];
        }
      }
    }
  }

  /** Every string includes the empty string. */
  lemma IncludesEmpty(s: string)
    ensures Includes(s, "")
  {
  }

  /** Position of the first `c` in `s`, or `|s|` when there is none. */
  function IndexOfChar(s: string, c: char): (i: nat)
    ensures i <= |s| && c !in s[..i]
    ensures i < |s| ==> s[i] == c
    ensures i == |s| <==> c !in s
  {
    if s == [] then 0 else if s[0] == c then 0 else 1 + IndexOfChar(s[1..], c)
  }

  /** A position holding `c` with no `c` before it is the first index of `c`. */
  lemma IndexOfCharAt(s: string, c: char, a: nat)
    requires a < |s| && s[a] == c && c !in s[..a]
    ensures IndexOfChar(s, c) == a
  {
    assert s[..a + 1][a] == c;
  }

  /** The first index of `c` is at most any position holding `c`. */
  lemma IndexOfCharAtMost(s: string, c: char, a: nat)
    requires a < |s| && s[a] == c
    ensures IndexOfChar(s, c) <= a
  {
    assert s[..a + 1][a] == c;
  }

  /** `String.prototype.split` on a one-character separator. */
  function Split(s: string, sep: char): (parts: seq<string>)
    ensures |parts| >= 1
    decreases |s|
  {
    var i := IndexOfChar(s, sep);
    if i == |s| then [s] else [s[..i]] + Split(s[i + 1..], sep)
  }

  /** `Array.prototype.join` with a one-character separator. */
  function Join(parts: seq<string>, sep: char): string
  {
    if parts == [] then "" else if |parts| == 1 then parts[0] else parts[0] + [sep] + Join(parts[1..], sep)
  }

  /** Splitting what was joined gives back the parts, provided no part
      contains the separator. */
  lemma {:induction false} SplitJoin(parts: seq<string>, sep: char)
    requires |parts| >= 1
    requires forall k :: 0 <= k < |parts| ==> sep !in parts[k]
    ensures Split(Join(parts, sep), sep) == parts
    decreases |parts|
  {
    var s := Join(parts, sep);
    if |parts| == 1 {
      assert IndexOfChar(s, sep) == |s|;
    } else {
      var p, rest := parts[0], Join(parts[1..], sep);
      assert s == p + [sep] + rest;
      SplitAfter(p, sep, rest);
      SplitJoin(parts[1..], sep);
      assert parts == [p] + parts[1..];
    }
  }

  /** A separator after a part free of it is the first one. */
  lemma IndexOfAfter(p: string, sep: char, rest: string)
    requires sep !in p
    ensures IndexOfChar(p + [sep] + rest, sep) == |p|
  {
    var s := p + [sep] + rest;
    assert s[..|p|] == p;
    assert s[|p|] == sep;
  }

  /** Splitting at the first separator peels off the part before it. */
  lemma SplitAfter(p: string, sep: char, rest: string)
    requires sep !in p
    ensures Split(p + [sep] + rest, sep) == [p] + Split(rest, sep)
  {
    var s := p + [sep] + rest;
    IndexOfAfter(p, sep, rest);
    assert s[..|p|] == p;
    assert s[|p| + 1..] == rest;
  }

  /** The decimal digit `d` as a character. */
  function DigitChar(d: nat): (c: char)
    requires d < 10
    ensures '0' <= c <= '9' && c as int - '0' as int == d
  {
    ('0' as int + d) as char
  }

  predicate AllDigits(s: string) {
    forall i :: 0 <= i < |s| ==> '0' <= s[i] <= '9'
  }

  /** `Number.prototype.toString()` on a non-negative integer: its decimal
      digits, with no leading zero. */
  function NatToString(n: nat): (r: string)
    ensures |r| >= 1 && AllDigits(r)
    ensures |r| == 1 <==> n < 10
    ensures |r| > 1 ==> r[0] != '0'
    decreases n
  {
    if n < 10 then [DigitChar(n)] else NatToString(n / 10) + [DigitChar(n % 10)]
  }

  /** The value of a string of decimal digits. */
  function ParseDigits(s: string): nat
    requires AllDigits(s)
  {
    if s == [] then 0 else ParseDigits(s[..|s| - 1]) * 10 + (s[|s| - 1] as int - '0' as int)
  }

  /** Reading back the rendered digits gives the number. */
  lemma {:induction false} ParseNatToString(n: nat)
    ensures ParseDigits(NatToString(n)) == n
    decreases n
  {
    var r := NatToString(n);
    if n >= 10 {
      ParseNatToString(n / 10);
      assert r[..|r| - 1] == NatToString(n / 10);
    }
  }

  /** Rendering is injective: different numbers give different strings. */
  lemma NatToStringInjective(m: nat, n: nat)
    requires NatToString(m) == NatToString(n)
    ensures m == n
  {
    ParseNatToString(m);
    ParseNatToString(n);
  }

  /** `String.prototype.padStart(width, fill)` with a one-character fill. */
  function PadStart(s: string, width: nat, fill: char): (r: string)
    ensures |r| == if |s| >= width then |s| else width
    ensures r[|r| - |s|..] == s
    ensures forall i :: 0 <= i < |r| - |s| ==> r[i] == fill
  {
    if |s| >= width then s else seq(width - |s|, _ => fill) + s
  }
}
