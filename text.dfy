/**
 * The parts of Python's `str` behaviour that the trip planner relies on:
 * substring tests, `replace`, `split`/`join`, `strip`, `lower`, digit
 * filtering and the code-point ordering that `sorted` uses.
 */
module Text {

  // ---------------------------------------------------------------------
  // Substrings
  // ---------------------------------------------------------------------

  /** `p` is a prefix of `s`. */
  predicate StartsWith(s: string, p: string) {
    |p| <= |s| && s[..|p|] == p
  }

  /** `p` is a suffix of `s`. */
  predicate EndsWith(s: string, p: string) {
    |p| <= |s| && s[|s| - |p|..] == p
  }

  /** Python's `p in s` for strings. */
  predicate Contains(s: string, p: string)
    decreases |s|
  {
    StartsWith(s, p) || (s != [] && Contains(s[1..], p))
  }

  /** An occurrence of `p` starting at index `i` of `s`. */
  predicate OccursAt(s: string, p: string, i: int) {
    0 <= i && i + |p| <= |s| && s[i..i + |p|] == p
  }

  /** `Contains` means that `p` occurs at some index of `s`. */
  lemma {:induction false} ContainsIffOccurs(s: string, p: string)
    ensures Contains(s, p) <==> exists i :: OccursAt(s, p, i)
    decreases |s|
  {
    if StartsWith(s, p) {
      assert OccursAt(s, p, 0);
    } else if s != [] {
      ContainsIffOccurs(s[1..], p);
      if exists i :: OccursAt(s, p, i) {
        var i :| OccursAt(s, p, i);
        assert i != 0;
        assert s[1..][i - 1..i - 1 + |p|] == s[i..i + |p|];
        assert OccursAt(s[1..], p, i - 1);
      }
      if exists i :: OccursAt(s[1..], p, i) {
        var i :| OccursAt(s[1..], p, i);
        assert s[1..][i..i + |p|] == s[i + 1..i + 1 + |p|];
        assert OccursAt(s, p, i + 1);
      }
    }
  }

  /** A string without the first character of a pattern does not contain
      the pattern. */
  lemma MissingFirstChar(s: string, p: string)
    requires p != [] && p[0] !in s
    ensures !Contains(s, p)
  {
    ContainsIffOccurs(s, p);
  }

  /** Any string contains each of its prefixes' substrings: a match of a
      longer pattern is also a match of its prefix. */
  lemma {:induction false} ContainsPrefixOfPattern(s: string, p: string, q: string)
    requires Contains(s, p) && StartsWith(p, q)
    ensures Contains(s, q)
    decreases |s|
  {
    if StartsWith(s, p) {
      assert s[..|q|] == s[..|p|][..|q|];
    } else {
      ContainsPrefixOfPattern(s[1..], p, q);
    }
  }

  // ---------------------------------------------------------------------
  // str.replace
  // ---------------------------------------------------------------------

  /** Python's `s.replace(pat, repl)`: every non-overlapping occurrence of
      `pat`, found scanning left to right, is replaced by `repl`. */
  function ReplaceAll(s: string, pat: string, repl: string): (r: string)
    requires pat != []
    ensures !Contains(s, pat) ==> r == s
    decreases |s|
  {
    if StartsWith(s, pat) then repl + ReplaceAll(s[|pat|..], pat, repl)
    else if s == [] then []
    else [s[0]] + ReplaceAll(s[1..], pat, repl)
  }

  /** The first occurrence is replaced: text before it that holds no
      occurrence is kept, the occurrence becomes `repl`, and the scan goes
      on after it.  The pattern's first character must not recur in it,
      so that no occurrence can start inside `x` and end inside the
      pattern. */
  lemma {:induction false} ReplaceSplice(x: string, pat: string, y: string, repl: string)
    requires pat != [] && pat[0] !in pat[1..]
    requires !Contains(x, pat)
    ensures ReplaceAll(x + pat + y, pat, repl) == x + repl + ReplaceAll(y, pat, repl)
    decreases |x|
  {
    if x == [] {
      assert ReplaceAll(pat + y, pat, repl) == repl + ReplaceAll(y, pat, repl) by {
        assert (pat + y)[..|pat|] == pat;
        assert (pat + y)[|pat|..] == y;
      }
      assert x + pat + y == pat + y;
    } else {
      var s, t := x + pat + y, x[1..] + pat + y;
      var rest := ReplaceAll(y, pat, repl);
      assert ReplaceAll(s, pat, repl) == [x[0]] + ReplaceAll(t, pat, repl) by {
        NoMatchAtHead(x, pat, y);
        assert s[1..] == t;
      }
      assert ReplaceAll(t, pat, repl) == x[1..] + repl + rest by {
        assert !Contains(x[1..], pat);
        ReplaceSplice(x[1..], pat, y, repl);
      }
      assert [x[0]] + (x[1..] + repl + rest) == x + repl + rest;
    }
  }

  /** A non-empty text without the pattern, followed by the pattern, does
      not start with the pattern when the pattern's first character does
      not recur in it. */
  lemma NoMatchAtHead(x: string, pat: string, y: string)
    requires x != [] && pat != [] && pat[0] !in pat[1..]
    requires !StartsWith(x, pat)
    ensures !StartsWith(x + pat + y, pat)
  {
    var s := x + pat + y;
    if |pat| <= |x| {
      assert s[..|pat|] == x[..|pat|];
    } else {
      assert s[|x|] == pat[0];
      assert pat[|x|] == pat[1..][|x| - 1];
      assert |pat| <= |s| ==> s[..|pat|][|x|] == s[|x|];
    }
  }

  /** Removing a pattern never lengthens a string. */
  lemma {:induction false} RemoveShortens(s: string, pat: string)
    requires pat != []
    ensures |ReplaceAll(s, pat, "")| <= |s|
    decreases |s|
  {
    if StartsWith(s, pat) {
      RemoveShortens(s[|pat|..], pat);
    } else if s != [] {
      RemoveShortens(s[1..], pat);
    }
  }

  // ---------------------------------------------------------------------
  // str.split(sep) and sep.join(parts)
  // ---------------------------------------------------------------------

  /** Python's `s.split(sep)` for a one-character separator: the pieces
      between separators, empty pieces included, so never an empty list. */
  function Split(s: string, sep: char): (r: seq<string>)
    ensures |r| >= 1
    ensures forall k :: 0 <= k < |r| ==> sep !in r[k]
    decreases |s|
  {
    if s == [] then [""]
    else
      var rest := Split(s[1..], sep);
      if s[0] == sep then [""] + rest
      else [[s[0]] + rest[0]] + rest[1..]
  }

  /** Python's `sep.join(parts)`. */
  function Join(parts: seq<string>, sep: string): string
    decreases |parts|
  {
    if parts == [] then ""
    else if |parts| == 1 then parts[0]
    else parts[0] + sep + Join(parts[1..], sep)
  }

  /** Splitting on a character and joining with it again gives back the
      original string. */
  lemma {:induction false} JoinSplit(s: string, sep: char)
    ensures Join(Split(s, sep), [sep]) == s
    decreases |s|
  {
    if s != [] {
      var rest := Split(s[1..], sep);
      JoinSplit(s[1..], sep);
      if s[0] == sep {
        assert Split(s, sep) == [""] + rest;
        assert ([""] + rest)[1..] == rest;
      } else {
        var parts := [[s[0]] + rest[0]] + rest[1..];
        assert Split(s, sep) == parts;
        if |rest| == 1 {
          assert Join(rest, [sep]) == rest[0];
        } else {
          assert Join(rest, [sep]) == rest[0] + [sep] + Join(rest[1..], [sep]);
          assert parts[1..] == rest[1..];
        }
      }
    }
  }

  /** Joining pieces that hold no `sep` with a separator that starts with
      `sep` and holds it once, then splitting on `sep`, gives one piece
      per joined part. */
  lemma {:induction false} SplitJoinCount(parts: seq<string>, sep: char, glue: string)
    requires parts != []
    requires forall k :: 0 <= k < |parts| ==> sep !in parts[k]
    requires glue != [] && glue[0] == sep && sep !in glue[1..]
    ensures |Split(Join(parts, glue), sep)| == |parts|
    decreases |parts|
  {
    if |parts| == 1 {
      NoSepSplit(parts[0], sep);
    } else {
      SplitJoinCount(parts[1..], sep, glue);
      var tail := glue[1..] + Join(parts[1..], glue);
      assert glue + Join(parts[1..], glue) == [sep] + tail;
      assert parts[0] + glue + Join(parts[1..], glue) == parts[0] + ([sep] + tail);
      SplitAfterNoSep(parts[0], [sep] + tail, sep);
      assert ([sep] + tail)[1..] == tail;
      SplitAfterNoSep(glue[1..], Join(parts[1..], glue), sep);
    }
  }

  /** A string without the separator splits into itself alone. */
  lemma {:induction false} NoSepSplit(s: string, sep: char)
    requires sep !in s
    ensures Split(s, sep) == [s]
    decreases |s|
  {
    if s != [] {
      NoSepSplit(s[1..], sep);
      assert [s[0]] + s[1..] == s;
    }
  }

  /** A separator-free prefix only lengthens the first piece. */
  lemma {:induction false} SplitAfterNoSep(p: string, s: string, sep: char)
    requires sep !in p
    ensures |Split(p + s, sep)| == |Split(s, sep)|
    decreases |p|
  {
    if p != [] {
      assert (p + s)[0] == p[0] && p[0] != sep;
      assert (p + s)[1..] == p[1..] + s;
      var rest := Split(p[1..] + s, sep);
      assert Split(p + s, sep) == [[p[0]] + rest[0]] + rest[1..];
      SplitAfterNoSep(p[1..], s, sep);
    } else {
      assert p + s == s;
    }
  }

  // ---------------------------------------------------------------------
  // str.strip()
  // ---------------------------------------------------------------------

  /** The characters for which Python's `str.isspace()` holds. */
  predicate IsSpace(c: char) {
    c == ' ' || ('\t' <= c <= '\r') || ('\U{1C}' <= c <= '\U{1F}') ||
    c == '\U{85}' || c == '\U{A0}' || c == '\U{1680}' ||
    ('\U{2000}' <= c <= '\U{200A}') || c == '\U{2028}' || c == '\U{2029}' ||
    c == '\U{202F}' || c == '\U{205F}' || c == '\U{3000}'
  }

  /** The number of whitespace characters that begin `s`. */
  function LeadingSpaces(s: string): (n: nat)
    ensures n <= |s|
    ensures forall k :: 0 <= k < n ==> IsSpace(s[k])
    ensures n < |s| ==> !IsSpace(s[n])
    decreases |s|
  {
    if s != [] && IsSpace(s[0]) then 1 + LeadingSpaces(s[1..]) else 0
  }

  /** The number of whitespace characters that end `s`. */
  function TrailingSpaces(s: string): (n: nat)
    ensures n <= |s|
    ensures forall k :: |s| - n <= k < |s| ==> IsSpace(s[k])
    ensures n < |s| ==> !IsSpace(s[|s| - 1 - n])
    decreases |s|
  {
    if s != [] && IsSpace(s[|s| - 1]) then 1 + TrailingSpaces(s[..|s| - 1]) else 0
  }

  /** Python's `s.strip()`: the longest slice of `s` that neither begins
      nor ends with whitespace, reached by dropping whitespace at both ends. */
  function Strip(s: string): (r: string)
    ensures exists i, j ::
              && 0 <= i <= j <= |s| && r == s[i..j]
              && (forall k :: 0 <= k < i ==> IsSpace(s[k]))
              && (forall k :: j <= k < |s| ==> IsSpace(s[k]))
    ensures r != [] ==> !IsSpace(r[0]) && !IsSpace(r[|r| - 1])
  {
    var i := LeadingSpaces(s);
    var t := s[i..];
    var j := i + |t| - TrailingSpaces(t);
    assert s[i..j] == t[..|t| - TrailingSpaces(t)];
    s[i..j]
  }

  // ---------------------------------------------------------------------
  // str.lower(), str.isdigit()
  // ---------------------------------------------------------------------

  function LowerChar(c: char): char {
    if 'A' <= c <= 'Z' then (c as int + 32) as char else c
  }

  function UpperChar(c: char): char {
    if 'a' <= c <= 'z' then (c as int - 32) as char else c
  }

  /** Python's `s.lower()` on the ASCII letters. */
  function Lower(s: string): (r: string)
    ensures |r| == |s|
    ensures forall k :: 0 <= k < |s| ==> r[k] == LowerChar(s[k])
    decreases |s|
  {
    if s == [] then [] else [LowerChar(s[0])] + Lower(s[1..])
  }

  /** Python's `s.upper()` on the ASCII letters. */
  function Upper(s: string): (r: string)
    ensures |r| == |s|
    ensures forall k :: 0 <= k < |s| ==> r[k] == UpperChar(s[k])
    decreases |s|
  {
    if s == [] then [] else [UpperChar(s[0])] + Upper(s[1..])
  }

  predicate IsDigit(c: char) {
    '0' <= c <= '9'
  }

  /** Python's `''.join(filter(str.isdigit, s))`: the digits of `s`, in order. */
  function Digits(s: string): (r: string)
    ensures forall k :: 0 <= k < |r| ==> IsDigit(r[k])
    ensures |r| <= |s|
    decreases |s|
  {
    if s == [] then []
    else if IsDigit(s[0]) then [s[0]] + Digits(s[1..])
    else Digits(s[1..])
  }

  // ---------------------------------------------------------------------
  // Ordering of str values, as Python's `<` and `sorted` see it
  // ---------------------------------------------------------------------

  /** Python's `a < b` on strings: lexicographic by code point, a proper
      prefix coming first. */
  predicate Less(a: string, b: string)
    decreases |a|
  {
    if a == [] then b != []
    else if b == [] then false
    else if a[0] != b[0] then a[0] < b[0]
    else Less(a[1..], b[1..])
  }

  /** Two different strings are always ordered one way or the other. */
  lemma {:induction false} LessTotal(a: string, b: string)
    requires a != b
    ensures Less(a, b) || Less(b, a)
    decreases |a|
  {
    if a != [] && b != [] && a[0] == b[0] {
      assert a == [a[0]] + a[1..] && b == [b[0]] + b[1..];
      LessTotal(a[1..], b[1..]);
    }
  }

  /** No two strings are each less than the other. */
  lemma {:induction false} LessAsymmetric(a: string, b: string)
    requires Less(a, b)
    ensures !Less(b, a)
    decreases |a|
  {
    if a != [] && b != [] && a[0] == b[0] {
      LessAsymmetric(a[1..], b[1..]);
    }
  }
}
