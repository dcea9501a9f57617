/**
  The string primitives the widget and the backend rely on: JavaScript's
  `toLowerCase`, `trim` and `includes`, Python's `str.replace` with a
  one-character pattern, splitting on a separator (how a record is
  read back line by line or comma by comma) and `String.prototype.repeat`.
 */
module Text {

  // ---------------------------------------------------------------------------
  // Case folding (the characters whose lower-case form is ASCII)
  // ---------------------------------------------------------------------------

  predicate IsUpper(c: char) { 'A' <= c <= 'Z' }

  /** U+212A KELVIN SIGN, the one upper-case letter outside ASCII whose lower-case form is ASCII. */
  const KelvinSign: char := '\U{212A}'

  /** A character `toLowerCase` turns into an ASCII letter other than itself. */
  predicate FoldsToAscii(c: char) { IsUpper(c) || c == KelvinSign }

  /**
    `toLowerCase` on one character, for the characters whose lower-case form
    is ASCII: the ASCII capitals and the Kelvin sign, which becomes `k`.
   */
  function LowerChar(c: char): char {
    if IsUpper(c) then (c as int + 32) as char
    else if c == KelvinSign then 'k'
    else c
  }

  function Lower(s: string): string {
    seq(|s|, i requires 0 <= i < |s| => LowerChar(s[i]))
  }

  predicate IsLowerCase(s: string) {
    forall i :: 0 <= i < |s| ==> !FoldsToAscii(s[i])
  }

  lemma LowerIsLowerCase(s: string)
    ensures IsLowerCase(Lower(s))
    ensures Lower(Lower(s)) == Lower(s)
  {
  }

  /** A string with no upper-case letter is its own lower-case form. */
  lemma LowerOfLowerCase(s: string)
    requires IsLowerCase(s)
    ensures Lower(s) == s
  {
  }

  // ---------------------------------------------------------------------------
  // Whitespace trimming
  // ---------------------------------------------------------------------------

  /**
    The characters `String.prototype.trim` removes: ECMAScript's WhiteSpace
    (tab, vertical tab, form feed, space, no-break space, the byte-order mark
    and the Unicode space separators) and LineTerminator (line feed, carriage
    return, line and paragraph separators).
   */
  predicate IsWhite(c: char) {
    || c == '\t' || c == '\n' || c == '\U{B}' || c == '\U{C}' || c == '\r'
    || c == ' ' || c == '\U{A0}' || c == '\U{1680}'
    || ('\U{2000}' <= c <= '\U{200A}')
    || c == '\U{2028}' || c == '\U{2029}' || c == '\U{202F}' || c == '\U{205F}'
    || c == '\U{3000}' || c == '\U{FEFF}'
  }

  /** The length of the longest all-white prefix of `s`. */
  function LeadingWhite(s: string): (n: nat)
    ensures n <= |s|
    ensures forall i :: 0 <= i < n ==> IsWhite(s[i])
    ensures n < |s| ==> !IsWhite(s[n])
  {
    if |s| > 0 && IsWhite(s[0]) then 1 + LeadingWhite(s[1..]) else 0
  }

  /** The length of the longest all-white suffix of `s`. */
  function TrailingWhite(s: string): (n: nat)
    ensures n <= |s|
    ensures forall i :: |s| - n <= i < |s| ==> IsWhite(s[i])
    ensures n < |s| ==> !IsWhite(s[|s| - 1 - n])
  {
    if |s| > 0 && IsWhite(s[|s| - 1]) then 1 + TrailingWhite(s[..|s| - 1]) else 0
  }

  function TrimStart(s: string): string {
    s[LeadingWhite(s)..]
  }

  function TrimEnd(s: string): string {
    s[..|s| - TrailingWhite(s)]
  }

  /**
    `trim`: the result is the slice of `s` left after removing white space at
    both ends; it neither starts nor ends with white space.
   */
  function Trim(s: string): (r: string)
    ensures exists a, b :: 0 <= a <= b <= |s| && r == s[a..b]
              && (forall i :: 0 <= i < a ==> IsWhite(s[i]))
              && (forall i :: b <= i < |s| ==> IsWhite(s[i]))
    ensures |r| > 0 ==> !IsWhite(r[0]) && !IsWhite(r[|r| - 1])
  {
    var t := TrimStart(s);
    var lead := LeadingWhite(s);
    var r := TrimEnd(t);
    assert r == s[lead..lead + |r|];
    r
  }

  // ---------------------------------------------------------------------------
  // Substring search (`includes`)
  // ---------------------------------------------------------------------------

  /** `p` occurs in `s` starting at index `i`. */
  predicate OccursAt(s: string, p: string, i: int) {
    0 <= i && i + |p| <= |s| && s[i..i + |p|] == p
  }

  /** `s.includes(p)`. */
  predicate Contains(s: string, p: string) {
    exists i :: 0 <= i <= |s| - |p| && OccursAt(s, p, i)
  }

  /** Every string includes itself; in particular `a == b` implies `a.includes(b)`. */
  lemma ContainsSelf(s: string)
    ensures Contains(s, s)
  {
    assert OccursAt(s, s, 0);
  }

  /** A non-empty pattern never occurs in the empty string. */
  lemma NotInEmpty(p: string)
    requires |p| > 0
    ensures !Contains([], p)
  {
  }

  /** A pattern with a character (the `j`-th) that does not occur in `s` does not occur in `s`. */
  lemma NoWordIn(s: string, w: string, j: int)
    requires 0 <= j < |w| && w[j] !in s
    ensures !Contains(s, w)
  {
    forall i | 0 <= i <= |s| - |w|
      ensures !OccursAt(s, w, i)
    {
      assert s[i + j] in s;
      assert s[i..i + |w|][j] == s[i + j] != w[j];
    }
  }

  /** An occurrence inside a slice is an occurrence in the whole string. */
  lemma ContainsInSlice(s: string, a: int, b: int, p: string)
    requires 0 <= a <= b <= |s|
    requires Contains(s[a..b], p)
    ensures Contains(s, p)
  {
    var i :| 0 <= i <= (b - a) - |p| && OccursAt(s[a..b], p, i);
    forall k | 0 <= k < |p|
      ensures s[a + i..a + i + |p|][k] == p[k]
    {
      assert s[a..b][i..i + |p|][k] == p[k];
    }
    assert OccursAt(s, p, a + i);
  }

  /**
    A non-empty pattern that neither starts nor ends with white space occurs
    in `s` exactly when it occurs in `Trim(s)`.
   */
  lemma {:induction false} ContainsTrim(s: string, p: string)
    requires |p| > 0 && !IsWhite(p[0]) && !IsWhite(p[|p| - 1])
    ensures Contains(Trim(s), p) <==> Contains(s, p)
  {
    var r := Trim(s);
    var a, b :| 0 <= a <= b <= |s| && r == s[a..b]
              && (forall i :: 0 <= i < a ==> IsWhite(s[i]))
              && (forall i :: b <= i < |s| ==> IsWhite(s[i]));
    if Contains(r, p) {
      ContainsInSlice(s, a, b, p);
    }
    if Contains(s, p) {
      ContainsInCore(s, a, b, p);
    }
  }

  /**
    An occurrence of a pattern with non-white ends lies inside the part of
    `s` between its white margins.
   */
  lemma ContainsInCore(s: string, a: int, b: int, p: string)
    requires 0 <= a <= b <= |s|
    requires forall i :: 0 <= i < a ==> IsWhite(s[i])
    requires forall i :: b <= i < |s| ==> IsWhite(s[i])
    requires |p| > 0 && !IsWhite(p[0]) && !IsWhite(p[|p| - 1])
    requires Contains(s, p)
    ensures Contains(s[a..b], p)
  {
    var i :| 0 <= i <= |s| - |p| && OccursAt(s, p, i);
    assert s[i] == p[0] && s[i + |p| - 1] == p[|p| - 1];
    assert a <= i && i + |p| <= b;
    var r := s[a..b];
    forall k | 0 <= k < |p|
      ensures r[i - a..i - a + |p|][k] == p[k]
    {
      assert r[i - a + k] == s[i + k] == s[i..i + |p|][k];
    }
    assert OccursAt(r, p, i - a);
  }

  /** Trimming and lower-casing commute. */
  lemma TrimLower(s: string)
    ensures Trim(Lower(s)) == Lower(Trim(s))
  {
    TrimStartLower(s);
    TrimEndLower(TrimStart(s));
  }

  lemma TrimStartLower(s: string)
    ensures TrimStart(Lower(s)) == Lower(TrimStart(s))
  {
    LeadingWhiteLower(s);
  }

  lemma TrimEndLower(s: string)
    ensures TrimEnd(Lower(s)) == Lower(TrimEnd(s))
  {
    TrailingWhiteLower(s);
  }

  lemma {:induction false} LeadingWhiteLower(s: string)
    ensures LeadingWhite(Lower(s)) == LeadingWhite(s)
  {
    if |s| > 0 {
      assert Lower(s)[1..] == Lower(s[1..]);
      LeadingWhiteLower(s[1..]);
    }
  }

  lemma {:induction false} TrailingWhiteLower(s: string)
    ensures TrailingWhite(Lower(s)) == TrailingWhite(s)
  {
    if |s| > 0 {
      assert Lower(s)[..|s| - 1] == Lower(s[..|s| - 1]);
      TrailingWhiteLower(s[..|s| - 1]);
    }
  }

  // ---------------------------------------------------------------------------
  // Python `str.replace` with a one-character pattern
  // ---------------------------------------------------------------------------

  /** `s.replace(target, repl)`: every occurrence of `target` becomes `repl`. */
  function Replace(s: string, target: char, repl: string): string {
    if s == [] then []
    else (if s[0] == target then repl else [s[0]]) + Replace(s[1..], target, repl)
  }

  lemma {:induction false} ReplaceConcat(a: string, b: string, target: char, repl: string)
    ensures Replace(a + b, target, repl) == Replace(a, target, repl) + Replace(b, target, repl)
  {
    if a == [] {
      assert a + b == b;
    } else {
      assert (a + b)[0] == a[0];
      assert (a + b)[1..] == a[1..] + b;
      ReplaceConcat(a[1..], b, target, repl);
    }
  }

  /** After the replacement, `target` is gone, unless `repl` itself holds it. */
  lemma {:induction false} ReplaceRemovesTarget(s: string, target: char, repl: string)
    requires target !in repl
    ensures target !in Replace(s, target, repl)
  {
    if s != [] {
      ReplaceRemovesTarget(s[1..], target, repl);
    }
  }

  /** With a one-character replacement, each position is kept or substituted in place. */
  lemma {:induction false} ReplaceByChar(s: string, target: char, repl: char)
    ensures |Replace(s, target, [repl])| == |s|
    ensures forall i :: 0 <= i < |s| ==>
              Replace(s, target, [repl])[i] == if s[i] == target then repl else s[i]
  {
    if s != [] {
      ReplaceByChar(s[1..], target, repl);
    }
  }

  /**
    Deleting `target` keeps every other character, as many times as it
    occurred and in its order: each character becomes itself or nothing, and
    the result for `s` is the result for any prefix followed by the result
    for the rest.
   */
  lemma ReplaceByEmpty(s: string, target: char)
    ensures multiset(Replace(s, target, [])) == multiset(s)[target := 0]
    ensures forall i :: 0 <= i < |s| ==>
              Replace([s[i]], target, []) == if s[i] == target then [] else [s[i]]
    ensures forall k :: 0 <= k <= |s| ==>
              Replace(s, target, []) == Replace(s[..k], target, []) + Replace(s[k..], target, [])
  {
    DeleteCount(s, target);
    forall i | 0 <= i < |s|
      ensures Replace([s[i]], target, []) == if s[i] == target then [] else [s[i]]
    {
      assert [s[i]][1..] == [];
    }
    forall k | 0 <= k <= |s|
      ensures Replace(s, target, []) == Replace(s[..k], target, []) + Replace(s[k..], target, [])
    {
      ReplaceSplitAt(s, k, target, []);
    }
  }

  lemma {:induction false} DeleteCount(s: string, target: char)
    ensures multiset(Replace(s, target, [])) == multiset(s)[target := 0]
  {
    if s != [] {
      DeleteCount(s[1..], target);
      assert s == [s[0]] + s[1..];
    }
  }

  lemma ReplaceSplitAt(s: string, k: int, target: char, repl: string)
    requires 0 <= k <= |s|
    ensures Replace(s, target, repl) == Replace(s[..k], target, repl) + Replace(s[k..], target, repl)
  {
    ReplaceConcat(s[..k], s[k..], target, repl);
    assert s[..k] + s[k..] == s;
  }

  /** A string without `target` is left as it is. */
  lemma {:induction false} ReplaceAbsent(s: string, target: char, repl: string)
    requires target !in s
    ensures Replace(s, target, repl) == s
  {
    if s != [] {
      ReplaceAbsent(s[1..], target, repl);
    }
  }

  // ---------------------------------------------------------------------------
  // Splitting on a separator
  // ---------------------------------------------------------------------------

  /** The fields of `s` separated by `sep` (empty fields kept). */
  function Split(s: string, sep: char): (r: seq<string>)
    ensures |r| >= 1
  {
    if s == [] then [[]]
    else
      var rest := Split(s[1..], sep);
      if s[0] == sep then [[]] + rest else [[s[0]] + rest[0]] + rest[1..]
  }

  /** The number of occurrences of `c` in `s`. */
  function Count(s: string, c: char): nat {
    multiset(s)[c]
  }

  /** One separator after a separator-free `a` splits into `a` followed by the fields of `b`. */
  lemma {:induction false} SplitJoin(a: string, sep: char, b: string)
    requires sep !in a
    ensures Split(a + [sep] + b, sep) == [a] + Split(b, sep)
  {
    if a == [] {
      assert a + [sep] + b == [sep] + b;
      assert ([sep] + b)[1..] == b;
    } else {
      assert (a + [sep] + b)[0] == a[0] != sep;
      assert (a + [sep] + b)[1..] == a[1..] + [sep] + b;
      SplitJoin(a[1..], sep, b);
      assert [a[0]] + a[1..] == a;
    }
  }

  /** There is one more field than there are separators. */
  lemma {:induction false} SplitCount(s: string, sep: char)
    ensures |Split(s, sep)| == Count(s, sep) + 1
  {
    if s != [] {
      SplitCount(s[1..], sep);
      assert s == [s[0]] + s[1..];
    }
  }

  // ---------------------------------------------------------------------------
  // `String.prototype.repeat`
  // ---------------------------------------------------------------------------

  function Repeat(c: char, n: nat): (r: string)
    ensures |r| == n
    ensures forall i :: 0 <= i < n ==> r[i] == c
  {
    if n == 0 then [] else [c] + Repeat(c, n - 1)
  }

}
