/** The pieces of JavaScript's string library that the converter relies on:
    the whitespace class shared by the regular expression `\s` and by
    `String.prototype.trim`, `trim` itself, `split` on a one-character
    separator (with `join` as its inverse) and `endsWith` on one character.
    Strings are sequences of Unicode scalar values; UTF-16 surrogate pairs
    are not modelled (no whitespace character needs one). */
module JsString {

  /** ECMAScript WhiteSpace and LineTerminator code points (section 12.2 and
      12.3 of ECMA-262): the characters `\s` matches and `trim` removes.
      The space separators are those of general category Zs. */
  predicate IsWs(c: char) {
    || c == '\t' || c == '\n' || c == '\U{000B}' || c == '\U{000C}' || c == '\r'
    || c == ' ' || c == '\U{00A0}' || c == '\U{1680}'
    || ('\U{2000}' <= c <= '\U{200A}')
    || c == '\U{2028}' || c == '\U{2029}' || c == '\U{202F}' || c == '\U{205F}'
    || c == '\U{3000}' || c == '\U{FEFF}'
  }

  /** Length of the longest prefix of `s` made of whitespace only: the length
      of what the pattern `^\s*` matches at the start of `s`. */
  function LeadingWs(s: string): (n: nat)
    ensures n <= |s|
    ensures forall k :: 0 <= k < n ==> IsWs(s[k])
    ensures n == |s| || !IsWs(s[n])
  {
    if s == [] || !IsWs(s[0]) then 0 else 1 + LeadingWs(s[1..])
  }

  /** Length of the longest suffix of `s` made of whitespace only. */
  function TrailingWs(s: string): (n: nat)
    ensures n <= |s|
    ensures forall k :: |s| - n <= k < |s| ==> IsWs(s[k])
    ensures n == |s| || !IsWs(s[|s| - 1 - n])
  {
    if s == [] || !IsWs(s[|s| - 1]) then 0 else 1 + TrailingWs(s[..|s| - 1])
  }

  /** `s.trim()`: the slice of `s` that starts after its leading whitespace,
      leaves only whitespace behind it, and is empty or starts and ends with
      a non-whitespace character. */
  function Trim(s: string): (r: string)
    ensures LeadingWs(s) + |r| <= |s|
    ensures r == s[LeadingWs(s) .. LeadingWs(s) + |r|]
    ensures forall k :: LeadingWs(s) + |r| <= k < |s| ==> IsWs(s[k])
    ensures r == [] || (!IsWs(r[0]) && !IsWs(r[|r| - 1]))
  {
    var t := s[LeadingWs(s)..];
    t[..|t| - TrailingWs(t)]
  }

  /** `s.endsWith(c)` for a one-character argument. */
  predicate EndsWith(s: string, c: char) {
    |s| > 0 && s[|s| - 1] == c
  }

  /** `parts.join(sep)` for a one-character separator. */
  function Join(parts: seq<string>, sep: char): (s: string)
    ensures |parts| >= 1 ==> |parts[0]| <= |s| && s[..|parts[0]|] == parts[0]
  {
    if |parts| == 0 then []
    else if |parts| == 1 then parts[0]
    else parts[0] + [sep] + Join(parts[1..], sep)
  }

  /** `s.split(sep)` for a one-character separator: the maximal pieces of `s`
      between separators, at least one piece (the empty string splits into
      one empty piece), and joining them back gives `s`. */
  function Split(s: string, sep: char): (parts: seq<string>)
    ensures |parts| >= 1
    ensures forall i :: 0 <= i < |parts| ==> sep !in parts[i]
    ensures Join(parts, sep) == s
  {
    if s == [] then [[]]
    else
      var rest := Split(s[1..], sep);
      if s[0] == sep then
        [[]] + rest
      else
        var first := [s[0]] + rest[0];
        assert Join([first] + rest[1..], sep) == [s[0]] + Join(rest, sep) by {
          if |rest| > 1 {
            assert ([first] + rest[1..])[1..] == rest[1..];
          }
        }
        [first] + rest[1..]
  }

  /** `split` inverts `join` whenever no piece holds the separator: the
      pieces are determined by the text. */
  lemma {:induction false} SplitJoin(parts: seq<string>, sep: char)
    requires |parts| >= 1
    requires forall i :: 0 <= i < |parts| ==> sep !in parts[i]
    ensures Split(Join(parts, sep), sep) == parts
    decreases |Join(parts, sep)|
  {
    var s := Join(parts, sep);
    if |parts| == 1 {
      SplitOfSeparatorFree(parts[0], sep);
    } else if parts[0] == [] {
      assert s == [sep] + Join(parts[1..], sep);
      assert s[1..] == Join(parts[1..], sep);
      SplitJoin(parts[1..], sep);
    } else {
      var c, w := parts[0][0], parts[0][1..];
      var shorter := [w] + parts[1..];
      assert shorter[1..] == parts[1..];
      assert s == [c] + Join(shorter, sep);
      assert s[1..] == Join(shorter, sep);
      assert c != sep by { assert parts[0][0] == c; }
      forall i | 0 <= i < |shorter| ensures sep !in shorter[i] {
        if i == 0 {
          assert forall x :: x in w ==> x in parts[0];
        } else {
          assert shorter[i] == parts[i];
        }
      }
      SplitJoin(shorter, sep);
      assert parts[0] == [c] + w;
      assert parts == [[c] + shorter[0]] + shorter[1..];
    }
  }

  /** A separator-free string is a single piece. */
  lemma {:induction false} SplitOfSeparatorFree(s: string, sep: char)
    requires sep !in s
    ensures Split(s, sep) == [s]
  {
    if s != [] {
      assert s[0] != sep;
      assert sep !in s[1..] by { assert forall x :: x in s[1..] ==> x in s; }
      SplitOfSeparatorFree(s[1..], sep);
      assert s == [s[0]] + s[1..];
    }
  }

  /** Any whitespace run that starts `s` and ends at its end or at a
      non-whitespace character is what `^\s*` matches: `LeadingWs` is
      characterised by its contract. */
  lemma LeadingWsUnique(s: string, m: nat)
    requires m <= |s|
    requires forall k :: 0 <= k < m ==> IsWs(s[k])
    requires m == |s| || !IsWs(s[m])
    ensures LeadingWs(s) == m
  {
  }

  /** Any slice of `s` with only whitespace around it and no whitespace at
      its own ends is the trimmed string: `Trim` is characterised by its
      contract. */
  lemma TrimUnique(s: string, i: nat, j: nat)
    requires i <= j <= |s|
    requires forall k :: 0 <= k < i ==> IsWs(s[k])
    requires forall k :: j <= k < |s| ==> IsWs(s[k])
    requires i == j || (!IsWs(s[i]) && !IsWs(s[j - 1]))
    ensures Trim(s) == s[i..j]
  {
    var a, r := LeadingWs(s), Trim(s);
    if i < j {
      assert a == i;
    }
  }
}
