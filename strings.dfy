/**
 * The JavaScript string built-ins the form editor relies on: `split` and `join` with a
 * one-character separator, and `trim`.
 */
module Strings {

  /** `s.split(sep)`: the runs of `s` between separators, in order; `"".split(sep)` is `[""]`. */
  function Split(s: string, sep: char): (parts: seq<string>)
    ensures |parts| >= 1
    ensures forall i :: 0 <= i < |parts| ==> sep !in parts[i]
    decreases |s|
  {
    if |s| == 0 then [""]
    else
      var rest := Split(s[1..], sep);
      if s[0] == sep then [""] + rest
      else [[s[0]] + rest[0]] + rest[1..]
  }

  /**
   * `parts.join(sep)`: the parts with one separator between neighbours; `[].join(sep)`
   * is `""`; otherwise the text starts with the first part.
   */
  function Join(parts: seq<string>, sep: char): (r: string)
    ensures |parts| == 0 ==> r == ""
    ensures |parts| > 0 ==> parts[0] <= r
  {
    if |parts| == 0 then ""
    else if |parts| == 1 then parts[0]
    else parts[0] + [sep] + Join(parts[1..], sep)
  }

  /**
   * The first part of a split is the text before the first separator; when there
   * is a separator, the remaining parts are the split of the text after it.
   */
  lemma {:induction false} SplitHead(s: string, sep: char)
    ensures var p := Split(s, sep);
      && |p[0]| <= |s| && s[..|p[0]|] == p[0]
      && (|p[0]| == |s| <==> |p| == 1)
      && (|p[0]| < |s| ==> s[|p[0]|] == sep && Split(s[|p[0]| + 1..], sep) == p[1..])
    decreases |s|
  {
    if |s| > 0 && s[0] != sep {
      SplitHead(s[1..], sep);
      var q := Split(s[1..], sep);
      if |q[0]| < |s| - 1 {
        assert s[1..][|q[0]| + 1..] == s[|q[0]| + 2..];
      }
    }
  }

  /** Splitting a text that holds no separator gives the text itself. */
  lemma SplitNoSeparator(s: string, sep: char)
    requires sep !in s
    ensures Split(s, sep) == [s]
  {
    SplitHead(s, sep);
    assert s[..|s|] == s;
  }

  /** A separator-free prefix split off at a separator becomes the first part. */
  lemma {:induction false} SplitAtSeparator(a: string, sep: char, t: string)
    requires sep !in a
    ensures Split(a + [sep] + t, sep) == [a] + Split(t, sep)
    decreases |a|
  {
    if |a| == 0 {
      assert a + [sep] + t == [sep] + t;
      assert ([sep] + t)[1..] == t;
    } else {
      assert (a + [sep] + t)[1..] == a[1..] + [sep] + t;
      assert a[0] in a;
      SplitAtSeparator(a[1..], sep, t);
      assert [a[0]] + a[1..] == a;
    }
  }

  /** Splitting at a separator splits each side on its own. */
  lemma {:induction false} SplitConcat(a: string, sep: char, b: string)
    ensures Split(a + [sep] + b, sep) == Split(a, sep) + Split(b, sep)
    decreases |a|
  {
    if |a| == 0 {
      assert a + [sep] + b == [sep] + b && ([sep] + b)[1..] == b;
    } else {
      assert (a + [sep] + b)[1..] == a[1..] + [sep] + b;
      SplitConcat(a[1..], sep, b);
    }
  }

  /** Joining the parts of a split restores the text. */
  lemma {:induction false} JoinSplit(s: string, sep: char)
    ensures Join(Split(s, sep), sep) == s
    decreases |s|
  {
    if |s| > 0 {
      JoinSplit(s[1..], sep);
      var rest := Split(s[1..], sep);
      if s[0] == sep {
        assert Join([""] + rest, sep) == "" + [sep] + Join(rest, sep);
      } else if |rest| == 1 {
        assert Split(s, sep) == [[s[0]] + rest[0]];
      } else {
        var p := Split(s, sep);
        assert p[1..] == rest[1..];
        assert Join(p, sep) == [s[0]] + rest[0] + [sep] + Join(rest[1..], sep);
      }
      assert [s[0]] + s[1..] == s;
    }
  }

  /** Splitting a join of separator-free parts gives the parts back. */
  lemma {:induction false} SplitJoin(parts: seq<string>, sep: char)
    requires |parts| >= 1
    requires forall i :: 0 <= i < |parts| ==> sep !in parts[i]
    ensures Split(Join(parts, sep), sep) == parts
  {
    if |parts| == 1 {
      SplitNoSeparator(parts[0], sep);
    } else {
      SplitJoin(parts[1..], sep);
      SplitAtSeparator(parts[0], sep, Join(parts[1..], sep));
      assert [parts[0]] + parts[1..] == parts;
    }
  }

  /**
   * The characters `String.prototype.trim` removes: the ECMAScript WhiteSpace
   * (tab, vertical tab, form feed, the byte-order mark and every space separator)
   * and LineTerminator (line feed, carriage return, line and paragraph separator) code points.
   */
  predicate IsWhitespace(c: char)
  {
    || c == '\t' || c == '\U{B}' || c == '\U{C}' || c == ' ' || c == '\U{A0}' || c == '\U{FEFF}'
    || c == '\U{1680}' || ('\U{2000}' <= c <= '\U{200A}') || c == '\U{202F}' || c == '\U{205F}'
    || c == '\U{3000}'
    || c == '\n' || c == '\r' || c == '\U{2028}' || c == '\U{2029}'
  }

  /** A text made of whitespace only (the empty text included). */
  predicate IsBlank(s: string)
  {
    forall i :: 0 <= i < |s| ==> IsWhitespace(s[i])
  }

  /** `s.trimStart()`: the suffix of `s` that starts at its first non-whitespace character. */
  function TrimStart(s: string): (r: string)
    ensures |r| <= |s| && r == s[|s| - |r|..]
    ensures IsBlank(s[..|s| - |r|])
    ensures |r| > 0 ==> !IsWhitespace(r[0])
    ensures r == "" <==> IsBlank(s)
  {
    if |s| > 0 && IsWhitespace(s[0]) then
      assert forall i :: 1 <= i < |s| ==> s[i] == s[1..][i - 1];
      TrimStart(s[1..])
    else s
  }

  /** `s.trimEnd()`: the prefix of `s` that ends at its last non-whitespace character. */
  function TrimEnd(s: string): (r: string)
    ensures |r| <= |s| && r == s[..|r|]
    ensures IsBlank(s[|r|..])
    ensures |r| > 0 ==> !IsWhitespace(r[|r| - 1])
    ensures r == "" <==> IsBlank(s)
  {
    if |s| > 0 && IsWhitespace(s[|s| - 1]) then
      assert forall i :: 0 <= i < |s| - 1 ==> s[i] == s[..|s| - 1][i];
      TrimEnd(s[..|s| - 1])
    else s
  }

  /** `r` sits at index `i` of `s` with only whitespace before and after it. */
  predicate Core(s: string, i: nat, r: string)
  {
    i + |r| <= |s| && r == s[i..i + |r|] && IsBlank(s[..i]) && IsBlank(s[i + |r|..])
  }

  /**
   * `s.trim()`: the text without its leading and trailing whitespace, so it is empty
   * (falsy) exactly when `s` is blank, and otherwise starts and ends with a
   * non-whitespace character.
   */
  function Trim(s: string): (r: string)
    ensures r == "" <==> IsBlank(s)
    ensures |r| > 0 ==> !IsWhitespace(r[0]) && !IsWhitespace(r[|r| - 1])
    ensures exists i: nat :: Core(s, i, r)
  {
    var t := TrimStart(s);
    var r := TrimEnd(t);
    assert |r| > 0 ==> r[0] == t[0];
    CoreOfTrims(s, t, r);
    r
  }

  /** Whitespace dropped from the front and then from the back leaves a core of `s`. */
  lemma CoreOfTrims(s: string, t: string, r: string)
    requires |t| <= |s| && t == s[|s| - |t|..] && IsBlank(s[..|s| - |t|])
    requires |r| <= |t| && r == t[..|r|] && IsBlank(t[|r|..])
    ensures Core(s, |s| - |t|, r)
  {
    var i := |s| - |t|;
    assert r == s[i..i + |r|];
    assert s[i + |r|..] == t[|r|..];
  }
}
