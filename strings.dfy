/**
 * The string primitives of PHP and JavaScript that the plugin relies on:
 * substring search (`includes`), `trim`, `explode` on one character,
 * `str_replace` with arrays of search and replace strings, and the decimal
 * text of a non-negative integer (PHP string interpolation of an int).
 */
module Strings {

  // ---------------------------------------------------------------------
  // Substring search
  // ---------------------------------------------------------------------

  /** p occurs in s starting at index i. */
  predicate OccursAt(s: string, p: string, i: int) {
    0 <= i <= |s| - |p| && s[i..i + |p|] == p
  }

  /** s contains p as a contiguous substring (JavaScript `String.prototype.includes`). */
  predicate Contains(s: string, p: string) {
    exists i | 0 <= i <= |s| - |p| :: OccursAt(s, p, i)
  }

  /** A string does not contain a pattern that has a character the string lacks. */
  lemma MissingCharNotContained(s: string, p: string, c: char)
    requires c in p && c !in s
    ensures !Contains(s, p)
  {
  }

  /** A string contains each of its prefixes. */
  lemma PrefixContained(p: string, rest: string)
    ensures Contains(p + rest, p)
  {
    assert OccursAt(p + rest, p, 0);
  }

  /** Appending to a string keeps what occurs at its front. */
  lemma FrontKept(s: string, p: string, t: string)
    requires OccursAt(s, p, 0)
    ensures OccursAt(s + t, p, 0)
  {
    assert (s + t)[..|p|] == s[..|p|];
  }

  // ---------------------------------------------------------------------
  // trim
  // ---------------------------------------------------------------------

  /** The characters PHP's trim() strips by default: space, tab, LF, CR, NUL, vertical tab. */
  predicate IsTrimmed(c: char) {
    c == ' ' || c == '\t' || c == '\n' || c == '\r' || c == '\0' || c == '\U{B}'
  }

  /** s neither starts nor ends with a character that trim() strips. */
  predicate NoSurroundingSpace(s: string) {
    s == [] || (!IsTrimmed(s[0]) && !IsTrimmed(s[|s| - 1]))
  }

  /** Strips the leading run of trimmed characters: the result is the suffix of s that starts at its first other character. */
  function TrimStart(s: string): (r: string)
    ensures |r| <= |s| && r == s[|s| - |r|..]
    ensures forall k :: 0 <= k < |s| - |r| ==> IsTrimmed(s[k])
    ensures r == [] || !IsTrimmed(r[0])
    decreases |s|
  {
    if s != [] && IsTrimmed(s[0]) then TrimStart(s[1..]) else s
  }

  /** Strips the trailing run of trimmed characters: the result is the prefix of s that ends at its last other character. */
  function TrimEnd(s: string): (r: string)
    ensures |r| <= |s| && r == s[..|r|]
    ensures forall k :: |r| <= k < |s| ==> IsTrimmed(s[k])
    ensures r == [] || !IsTrimmed(r[|r| - 1])
    decreases |s|
  {
    if s != [] && IsTrimmed(s[|s| - 1]) then TrimEnd(s[..|s| - 1]) else s
  }

  /** PHP trim($s): a contiguous part of s with only trimmed characters cut off on either side. */
  function Trim(s: string): (r: string)
    ensures NoSurroundingSpace(r)
  {
    TrimEnd(TrimStart(s))
  }

  /** trim() leaves a string that has no surrounding whitespace unchanged. */
  lemma TrimUnchanged(s: string)
    requires NoSurroundingSpace(s)
    ensures Trim(s) == s
  {
    assert TrimStart(s) == s;
  }

  /** trim() is idempotent. */
  lemma TrimIdempotent(s: string)
    ensures Trim(Trim(s)) == Trim(s)
  {
    TrimUnchanged(Trim(s));
  }

  /** array_map('trim', $parts). */
  function TrimAll(parts: seq<string>): (r: seq<string>)
    ensures |r| == |parts|
    ensures forall k :: 0 <= k < |r| ==> r[k] == Trim(parts[k])
  {
    seq(|parts|, k requires 0 <= k < |parts| => Trim(parts[k]))
  }

  /** Trimming piecewise distributes over concatenation of lists. */
  lemma TrimAllAppend(a: seq<string>, b: seq<string>)
    ensures TrimAll(a + b) == TrimAll(a) + TrimAll(b)
  {
  }

  // ---------------------------------------------------------------------
  // explode / implode on a one-character separator
  // ---------------------------------------------------------------------

  /** implode($sep, $parts) for a non-empty list of parts. */
  function Implode(sep: char, parts: seq<string>): string
    requires |parts| >= 1
    decreases |parts|
  {
    if |parts| == 1 then parts[0] else parts[0] + [sep] + Implode(sep, parts[1..])
  }

  /**
   * PHP explode($sep, $s): the pieces between separators, at least one, none
   * containing the separator, which glued back together give s.
   */
  function Explode(sep: char, s: string): (parts: seq<string>)
    ensures |parts| >= 1
    ensures forall k :: 0 <= k < |parts| ==> sep !in parts[k]
    ensures Implode(sep, parts) == s
    decreases |s|
  {
    if s == [] then [""]
    else
      var rest := Explode(sep, s[1..]);
      if s[0] == sep then
        assert ([""] + rest)[1..] == rest;
        [""] + rest
      else
        var parts := [[s[0]] + rest[0]] + rest[1..];
        assert |rest| > 1 ==> parts[1..] == rest[1..];
        parts
  }

  /** Exploding a string that has no separator gives the string itself. */
  lemma {:induction false} ExplodeSingle(sep: char, x: string)
    requires sep !in x
    ensures Explode(sep, x) == [x]
    decreases |x|
  {
    if x != [] {
      ExplodeSingle(sep, x[1..]);
    }
  }

  /** A separator-free head splits off as the first piece. */
  lemma {:induction false} ExplodeHead(sep: char, x: string, y: string)
    requires sep !in x
    ensures Explode(sep, x + [sep] + y) == [x] + Explode(sep, y)
    decreases |x|
  {
    if x == [] {
      assert x + [sep] + y == [sep] + y;
      assert ([sep] + y)[1..] == y;
    } else {
      var s := x + [sep] + y;
      assert s[0] == x[0] && s[1..] == x[1..] + [sep] + y;
      ExplodeHead(sep, x[1..], y);
      var rest := Explode(sep, s[1..]);
      assert rest[0] == x[1..] && rest[1..] == Explode(sep, y);
      assert Explode(sep, s) == [[x[0]] + rest[0]] + rest[1..];
      assert [x[0]] + x[1..] == x;
    }
  }

  /** explode undoes implode when no part contains the separator. */
  lemma {:induction false} ExplodeImplode(sep: char, parts: seq<string>)
    requires |parts| >= 1
    requires forall k :: 0 <= k < |parts| ==> sep !in parts[k]
    ensures Explode(sep, Implode(sep, parts)) == parts
    decreases |parts|
  {
    if |parts| == 1 {
      ExplodeSingle(sep, parts[0]);
    } else {
      ExplodeImplode(sep, parts[1..]);
      ExplodeHead(sep, parts[0], Implode(sep, parts[1..]));
    }
  }

  // ---------------------------------------------------------------------
  // str_replace
  // ---------------------------------------------------------------------

  /**
   * str_replace($p, $r, $s) for one non-empty search string: scans s from the
   * left and replaces every non-overlapping occurrence of p by r; the text
   * that r brings in is not searched again.
   */
  function ReplaceAll(s: string, p: string, r: string): string
    requires p != []
    decreases |s|
  {
    if |s| < |p| then s
    else if s[..|p|] == p then r + ReplaceAll(s[|p|..], p, r)
    else [s[0]] + ReplaceAll(s[1..], p, r)
  }

  /** A subject without the search string comes back unchanged. */
  lemma {:induction false} ReplaceAllAbsent(s: string, p: string, r: string)
    requires p != [] && !Contains(s, p)
    ensures ReplaceAll(s, p, r) == s
    decreases |s|
  {
    if |s| >= |p| {
      assert !OccursAt(s, p, 0);
      assert s[..|p|] != p;
      forall i | 0 <= i <= |s[1..]| - |p| ensures !OccursAt(s[1..], p, i) {
        assert s[1..][i..i + |p|] == s[i + 1..i + 1 + |p|];
        assert !OccursAt(s, p, i + 1);
      }
      ReplaceAllAbsent(s[1..], p, r);
    }
  }

  /** Text before which no occurrence can start is copied through unchanged. */
  lemma {:induction false} ReplaceAllSkip(x: string, y: string, p: string, r: string)
    requires p != [] && p[0] !in x
    ensures ReplaceAll(x + y, p, r) == x + ReplaceAll(y, p, r)
    decreases |x|
  {
    if x != [] {
      var s := x + y;
      if |s| < |p| {
        assert ReplaceAll(y, p, r) == y;
        assert ReplaceAll(s, p, r) == s;
      } else {
        assert s[..|p|][0] == s[0] == x[0] != p[0];
        assert ReplaceAll(s, p, r) == [s[0]] + ReplaceAll(s[1..], p, r);
        assert s[1..] == x[1..] + y;
        ReplaceAllSkip(x[1..], y, p, r);
        assert [x[0]] + x[1..] == x;
        assert [s[0]] + (x[1..] + ReplaceAll(y, p, r)) == x + ReplaceAll(y, p, r);
      }
    } else {
      assert x + y == y;
    }
  }

  /** An occurrence at the front is replaced and the scan resumes after it. */
  lemma ReplaceAllFront(p: string, y: string, r: string)
    requires p != []
    ensures ReplaceAll(p + y, p, r) == r + ReplaceAll(y, p, r)
  {
    assert (p + y)[..|p|] == p;
    assert (p + y)[|p|..] == y;
  }

  /**
   * A different pattern q that differs from p at some index k >= 1 inside both,
   * and whose characters after the first do not include p's first one, is
   * copied through unchanged: no occurrence of p can start inside it.
   */
  lemma ReplaceAllSkipOther(q: string, y: string, p: string, r: string, k: nat)
    requires 1 <= k < |p| && k < |q| && q[k] != p[k] && p[0] !in q[1..]
    ensures ReplaceAll(q + y, p, r) == q + ReplaceAll(y, p, r)
  {
    var s := q + y;
    assert s[1..] == q[1..] + y;
    ReplaceAllSkip(q[1..], y, p, r);
    if |s| < |p| {
      assert ReplaceAll(y, p, r) == y;
      assert ReplaceAll(s, p, r) == s;
    } else {
      assert s[..|p|][k] == q[k] != p[k];
      assert ReplaceAll(s, p, r) == [s[0]] + ReplaceAll(s[1..], p, r);
      assert [q[0]] + q[1..] == q;
    }
  }

  /** PHP str_replace(array_keys($m), array_values($m), $s): each pair in turn, on the result of the previous one; an empty search string is skipped. */
  function StrReplace(pairs: seq<(string, string)>, subject: string): string
    decreases |pairs|
  {
    if pairs == [] then subject
    else
      var next := if pairs[0].0 == [] then subject else ReplaceAll(subject, pairs[0].0, pairs[0].1);
      StrReplace(pairs[1..], next)
  }

  /** A subject that contains none of the search strings comes back unchanged. */
  lemma {:induction false} StrReplaceAbsent(pairs: seq<(string, string)>, subject: string)
    requires forall k :: 0 <= k < |pairs| ==> !Contains(subject, pairs[k].0)
    ensures StrReplace(pairs, subject) == subject
    decreases |pairs|
  {
    if pairs != [] {
      if pairs[0].0 != [] {
        ReplaceAllAbsent(subject, pairs[0].0, pairs[0].1);
      }
      StrReplaceAbsent(pairs[1..], subject);
    }
  }

  // ---------------------------------------------------------------------
  // Decimal text of a non-negative integer
  // ---------------------------------------------------------------------

  predicate IsDigits(s: string) {
    forall k :: 0 <= k < |s| ==> '0' <= s[k] <= '9'
  }

  /** The number a string of decimal digits denotes. */
  function DecimalValue(s: string): nat
    requires IsDigits(s)
    decreases |s|
  {
    if s == [] then 0 else 10 * DecimalValue(s[..|s| - 1]) + (s[|s| - 1] as int - '0' as int)
  }

  /** PHP's text for an int: its decimal digits, without leading zeros, denoting n. */
  function DecimalString(n: nat): (r: string)
    ensures |r| >= 1 && IsDigits(r)
    ensures r[0] != '0' || r == "0"
    ensures DecimalValue(r) == n
    decreases n
  {
    var last := [('0' as int + n % 10) as char];
    if n < 10 then last
    else
      var r := DecimalString(n / 10) + last;
      assert r[..|r| - 1] == DecimalString(n / 10);
      r
  }
}
