/**
 * String helpers shared by the models: the JavaScript and Python string
 * operations the core uses (lower-casing, trimming, splitting on one
 * character, prefix and substring tests), each on `seq<char>`.
 */
module Text {

  // ---------------------------------------------------------------------
  // Characters
  // ---------------------------------------------------------------------

  /** An ASCII decimal digit: what `\d` matches in a JavaScript regular expression. */
  predicate IsDigit(c: char) {
    '0' <= c <= '9'
  }

  function DigitValue(c: char): (d: nat)
    requires IsDigit(c)
    ensures d < 10
  {
    (c as int) - ('0' as int)
  }

  function DigitChar(d: nat): (c: char)
    requires d < 10
    ensures IsDigit(c) && DigitValue(c) == d
  {
    (('0' as int) + d) as char
  }

  predicate IsUpper(c: char) {
    'A' <= c <= 'Z'
  }

  /** The Kelvin sign, U+212A: both JavaScript's `toLowerCase` and Python's `lower` turn it into an ASCII "k". */
  const KelvinSign: char := '\U{212A}'

  /**
   * Lower-cases an ASCII capital letter and the Kelvin sign, and leaves every
   * other character alone.
   */
  function LowerChar(c: char): (r: char)
    ensures IsUpper(c) ==> 'a' <= r <= 'z' && r as int == c as int + 32
    ensures c == KelvinSign ==> r == 'k'
    ensures !IsUpper(c) && c != KelvinSign ==> r == c
  {
    if IsUpper(c) then ((c as int) + 32) as char
    else if c == KelvinSign then 'k'
    else c
  }

  /**
   * The characters that `String.prototype.trim` removes: the ECMAScript
   * WhiteSpace code points (tab, vertical tab, form feed, space, no-break
   * space, byte order mark and the space separators) and the line
   * terminators.
   */
  predicate IsWhitespace(c: char) {
    var k := c as int;
    k == 0x09 || k == 0x0A || k == 0x0B || k == 0x0C || k == 0x0D || k == 0x20 ||
    k == 0xA0 || k == 0x1680 || (0x2000 <= k <= 0x200A) || k == 0x2028 || k == 0x2029 ||
    k == 0x202F || k == 0x205F || k == 0x3000 || k == 0xFEFF
  }

  // ---------------------------------------------------------------------
  // Lower-casing
  // ---------------------------------------------------------------------

  function ToLower(s: string): (r: string)
    ensures |r| == |s|
    ensures forall i :: 0 <= i < |s| ==> r[i] == LowerChar(s[i])
  {
    if s == [] then [] else [LowerChar(s[0])] + ToLower(s[1..])
  }

  /** Lower-casing works character by character, so it distributes over concatenation. */
  lemma ToLowerAppend(a: string, b: string)
    ensures ToLower(a + b) == ToLower(a) + ToLower(b)
  {
    var ab := a + b;
    forall i | 0 <= i < |ab| ensures ToLower(ab)[i] == (ToLower(a) + ToLower(b))[i] {
      if i < |a| { assert ab[i] == a[i]; } else { assert ab[i] == b[i - |a|]; }
    }
  }

  /** Lower-casing never turns a character into a digit or a digit into something else. */
  lemma ToLowerKeepsDigits(s: string, i: int)
    requires 0 <= i < |s|
    ensures IsDigit(ToLower(s)[i]) <==> IsDigit(s[i])
    ensures IsDigit(s[i]) ==> ToLower(s)[i] == s[i]
  {
  }

  // ---------------------------------------------------------------------
  // Trimming
  // ---------------------------------------------------------------------

  function TrimStart(s: string): (r: string)
    ensures |r| <= |s| && r == s[|s| - |r|..]
    ensures r == [] || !IsWhitespace(r[0])
    ensures forall i :: 0 <= i < |s| - |r| ==> IsWhitespace(s[i])
  {
    if s != [] && IsWhitespace(s[0]) then TrimStart(s[1..]) else s
  }

  function TrimEnd(s: string): (r: string)
    ensures |r| <= |s| && r == s[..|r|]
    ensures r == [] || !IsWhitespace(r[|r| - 1])
    ensures forall i :: |r| <= i < |s| ==> IsWhitespace(s[i])
  {
    if s != [] && IsWhitespace(s[|s| - 1]) then TrimEnd(s[..|s| - 1]) else s
  }

  /**
   * `String.prototype.trim`: the input without its leading and trailing
   * whitespace. The result is a slice of the input, everything cut off on
   * either side is whitespace, and it neither starts nor ends with
   * whitespace, so exactly the maximal whitespace margins are removed.
   */
  function Trim(s: string): (r: string)
    ensures r == [] || (!IsWhitespace(r[0]) && !IsWhitespace(r[|r| - 1]))
    ensures exists i, j :: 0 <= i <= j <= |s| && r == s[i..j] &&
              (forall k :: 0 <= k < i ==> IsWhitespace(s[k])) &&
              (forall k :: j <= k < |s| ==> IsWhitespace(s[k]))
    ensures |r| <= |s|
    ensures forall c :: c in r ==> c in s
  {
    var t := TrimStart(s);
    var r := TrimEnd(t);
    MarginsCut(s, |s| - |t|, t, r);
    r
  }

  /** Cutting whitespace margins off both ends leaves a slice of the input. */
  lemma MarginsCut(s: string, i: nat, t: string, r: string)
    requires i <= |s| && t == s[i..] && forall k :: 0 <= k < i ==> IsWhitespace(s[k])
    requires |r| <= |t| && r == t[..|r|] && forall k :: |r| <= k < |t| ==> IsWhitespace(t[k])
    ensures exists i, j :: 0 <= i <= j <= |s| && r == s[i..j] &&
              (forall k :: 0 <= k < i ==> IsWhitespace(s[k])) &&
              (forall k :: j <= k < |s| ==> IsWhitespace(s[k]))
    ensures forall c :: c in r ==> c in s
  {
    var j := i + |r|;
    assert r == s[i..j];
    forall k | j <= k < |s| ensures IsWhitespace(s[k]) {
      assert s[k] == t[k - i];
    }
    assert 0 <= i <= j <= |s| && r == s[i..j] &&
           (forall k :: 0 <= k < i ==> IsWhitespace(s[k])) &&
           (forall k :: j <= k < |s| ==> IsWhitespace(s[k]));
    assert forall c :: c in r ==> c in t;
  }

  /** Trimming cannot bring in a character the input lacks. */
  lemma TrimLacks(s: string, c: char)
    requires c !in s
    ensures c !in Trim(s)
  {
  }

  /** A string is trimmed when it neither starts nor ends with whitespace. */
  predicate IsTrimmed(s: string) {
    s == [] || (!IsWhitespace(s[0]) && !IsWhitespace(s[|s| - 1]))
  }

  lemma TrimOfTrimmed(s: string)
    requires IsTrimmed(s)
    ensures Trim(s) == s
  {
  }

  /** A string made only of whitespace trims to the empty string. */
  lemma TrimOfBlank(s: string)
    requires forall i :: 0 <= i < |s| ==> IsWhitespace(s[i])
    ensures Trim(s) == []
  {
  }

  // ---------------------------------------------------------------------
  // Prefixes, substrings and splitting
  // ---------------------------------------------------------------------

  /** `s.startsWith(prefix)`. */
  predicate StartsWith(s: string, prefix: string) {
    |prefix| <= |s| && s[..|prefix|] == prefix
  }

  /** A string starts with a prefix exactly when it is that prefix followed by some rest. */
  lemma StartsWithIffConcat(s: string, prefix: string)
    ensures StartsWith(s, prefix) <==> exists rest :: s == prefix + rest
  {
    if StartsWith(s, prefix) {
      assert s == prefix + s[|prefix|..];
    }
    if exists rest :: s == prefix + rest {
      var rest :| s == prefix + rest;
      assert s[..|prefix|] == prefix;
    }
  }

  /** `pat` occurs in `s` starting at index `i`. */
  predicate OccursAt(s: string, pat: string, i: int) {
    0 <= i && i + |pat| <= |s| && s[i..i + |pat|] == pat
  }

  /** An occurrence stays an occurrence when text is put in front. */
  lemma OccursAtShift(p: string, s: string, pat: string, i: nat)
    requires OccursAt(s, pat, i)
    ensures OccursAt(p + s, pat, |p| + i)
  {
    var ps := p + s;
    forall j | 0 <= j < |pat| ensures ps[|p| + i..|p| + i + |pat|][j] == pat[j] {
      assert ps[|p| + i + j] == s[i + j] == s[i..i + |pat|][j];
    }
  }

  /** `s.includes(pat)`: `pat` occurs somewhere in `s`. */
  predicate Contains(s: string, pat: string) {
    exists i :: 0 <= i <= |s| - |pat| && OccursAt(s, pat, i)
  }

  /** Text put around a string keeps whatever the string contains. */
  lemma ContainsInContext(p: string, s: string, q: string, pat: string)
    requires Contains(s, pat)
    ensures Contains(p + s + q, pat)
  {
    var i :| 0 <= i <= |s| - |pat| && OccursAt(s, pat, i);
    OccursAtShift(p, s, pat, i);
    var ps := p + s;
    assert (ps + q)[|p| + i..|p| + i + |pat|] == ps[|p| + i..|p| + i + |pat|];
    assert OccursAt(ps + q, pat, |p| + i);
  }

  /** A non-empty pattern cannot occur in a string that lacks its first character. */
  lemma NotContainsWithoutFirstChar(s: string, pat: string)
    requires pat != []
    requires pat[0] !in s
    ensures !Contains(s, pat)
  {
    forall i | 0 <= i <= |s| - |pat|
      ensures !OccursAt(s, pat, i)
    {
      assert s[i..i + |pat|][0] == s[i];
    }
  }

  /** Dropping a first character that does not begin an occurrence keeps every occurrence. */
  lemma ContainsDropFirst(s: string, pat: string)
    requires s != [] && !OccursAt(s, pat, 0)
    ensures Contains(s, pat) <==> Contains(s[1..], pat)
  {
    if Contains(s, pat) {
      var i :| 0 <= i <= |s| - |pat| && OccursAt(s, pat, i);
      assert s[1..][i - 1..i - 1 + |pat|] == s[i..i + |pat|];
      assert OccursAt(s[1..], pat, i - 1);
    }
    if Contains(s[1..], pat) {
      var j :| 0 <= j <= |s[1..]| - |pat| && OccursAt(s[1..], pat, j);
      assert s[1..][j..j + |pat|] == s[j + 1..j + 1 + |pat|];
      assert OccursAt(s, pat, j + 1);
    }
  }

  /** Dropping a last character that does not end an occurrence keeps every occurrence. */
  lemma ContainsDropLast(s: string, pat: string)
    requires s != [] && !OccursAt(s, pat, |s| - |pat|)
    ensures Contains(s, pat) <==> Contains(s[..|s| - 1], pat)
  {
    var u := s[..|s| - 1];
    if Contains(s, pat) {
      var i :| 0 <= i <= |s| - |pat| && OccursAt(s, pat, i);
      assert u[i..i + |pat|] == s[i..i + |pat|];
      assert OccursAt(u, pat, i);
    }
    if Contains(u, pat) {
      var j :| 0 <= j <= |u| - |pat| && OccursAt(u, pat, j);
      assert u[j..j + |pat|] == s[j..j + |pat|];
      assert OccursAt(s, pat, j);
    }
  }

  lemma {:induction false} ContainsTrimStart(s: string, pat: string)
    requires pat != [] && !IsWhitespace(pat[0])
    ensures Contains(TrimStart(s), pat) <==> Contains(s, pat)
    decreases |s|
  {
    if s != [] && IsWhitespace(s[0]) {
      assert !OccursAt(s, pat, 0);
      ContainsDropFirst(s, pat);
      ContainsTrimStart(s[1..], pat);
    }
  }

  lemma {:induction false} ContainsTrimEnd(s: string, pat: string)
    requires pat != [] && !IsWhitespace(pat[|pat| - 1])
    ensures Contains(TrimEnd(s), pat) <==> Contains(s, pat)
    decreases |s|
  {
    if s != [] && IsWhitespace(s[|s| - 1]) {
      assert !OccursAt(s, pat, |s| - |pat|);
      ContainsDropLast(s, pat);
      ContainsTrimEnd(s[..|s| - 1], pat);
    }
  }

  /**
   * Trimming does not change whether a pattern that neither starts nor ends
   * with whitespace occurs: no occurrence can reach into the trimmed margins.
   */
  lemma ContainsTrim(s: string, pat: string)
    requires pat != [] && IsTrimmed(pat)
    ensures Contains(Trim(s), pat) <==> Contains(s, pat)
  {
    ContainsTrimStart(s, pat);
    ContainsTrimEnd(TrimStart(s), pat);
  }

  /** `s.split(sep)` for a one-character separator: the pieces between separators, in order. */
  function Split(s: string, sep: char): (r: seq<string>)
    ensures |r| >= 1
    ensures forall k :: 0 <= k < |r| ==> sep !in r[k]
    ensures Join(r, sep) == s
    decreases |s|
  {
    if s == [] then [[]]
    else if s[0] == sep then [[]] + Split(s[1..], sep)
    else
      var rest := Split(s[1..], sep);
      [[s[0]] + rest[0]] + rest[1..]
  }

  /** `parts.join(sep)`. */
  function Join(parts: seq<string>, sep: char): string
    decreases |parts|
  {
    if parts == [] then []
    else if |parts| == 1 then parts[0]
    else parts[0] + [sep] + Join(parts[1..], sep)
  }

  /** Splitting undoes joining when no part contains the separator. */
  lemma {:induction false} SplitJoin(parts: seq<string>, sep: char)
    requires |parts| >= 1
    requires forall k :: 0 <= k < |parts| ==> sep !in parts[k]
    ensures Split(Join(parts, sep), sep) == parts
    decreases |parts|, |parts[0]|
  {
    var p := parts[0];
    if p == [] {
      if |parts| > 1 {
        SplitJoin(parts[1..], sep);
        assert Join(parts, sep) == [sep] + Join(parts[1..], sep);
      }
    } else {
      var tail := [p[1..]] + parts[1..];
      SplitJoin(tail, sep);
      if |parts| == 1 {
        assert Join(parts, sep) == [p[0]] + Join(tail, sep);
      } else {
        assert Join(tail, sep) == p[1..] + [sep] + Join(parts[1..], sep);
        assert Join(parts, sep) == [p[0]] + Join(tail, sep);
      }
      var s := Join(parts, sep);
      assert s[0] == p[0] && p[0] != sep;
      assert s[1..] == Join(tail, sep);
      assert Split(s, sep) == [[p[0]] + tail[0]] + tail[1..];
      assert [p[0]] + p[1..] == p;
    }
  }

  /** A string without the separator splits into itself alone. */
  lemma {:induction false} SplitWithoutSeparator(s: string, sep: char)
    requires sep !in s
    ensures Split(s, sep) == [s]
    decreases |s|
  {
    if s != [] {
      SplitWithoutSeparator(s[1..], sep);
      assert [s[0]] + s[1..] == s;
    }
  }

  /** Splitting a string that starts with a separator-free word and then the separator. */
  lemma {:induction false} SplitAfterWord(word: string, rest: string, sep: char)
    requires sep !in word
    ensures Split(word + [sep] + rest, sep) == [word] + Split(rest, sep)
    decreases |word|
  {
    if word == [] {
      assert word + [sep] + rest == [sep] + rest;
    } else {
      var s := word + [sep] + rest;
      assert s[0] == word[0] && word[0] != sep;
      assert s[1..] == word[1..] + [sep] + rest;
      SplitAfterWord(word[1..], rest, sep);
      var tail := Split(s[1..], sep);
      assert Split(s, sep) == [[s[0]] + tail[0]] + tail[1..];
      assert [word[0]] + word[1..] == word;
    }
  }
}
