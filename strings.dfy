/** The JavaScript string operations the core relies on. A `string` here is a
    sequence of `char`s, which are Unicode scalar values. For text made of
    characters of the Basic Multilingual Plane each `char` is one UTF-16 code
    unit, so `length`, `substring`, `slice`, `startsWith`, `includes`,
    `split`, `join` and `trim` count and index exactly as they do in
    JavaScript; a character outside that plane, two code units in JavaScript,
    is one `char` here. */
module Strings {
  import opened Wrappers

  /** JavaScript truthiness of a value that is a string or absent: set and
      not empty. */
  predicate Truthy(v: Option<string>) {
    v.Some? && v.value != ""
  }

  /** A character that `String.prototype.trim` removes: the ECMAScript
      WhiteSpace and LineTerminator characters (tab, vertical tab, form feed,
      space, no-break space, byte order mark, the Zs space separators, line
      feed, carriage return, line and paragraph separators). */
  predicate IsJsWhitespace(c: char) {
    c == '\t' || c == '\n' || c == '\U{000B}' || c == '\U{000C}' || c == '\r' ||
    c == ' ' || c == '\U{00A0}' || c == '\U{1680}' ||
    ('\U{2000}' <= c <= '\U{200A}') ||
    c == '\U{2028}' || c == '\U{2029}' || c == '\U{202F}' || c == '\U{205F}' ||
    c == '\U{3000}' || c == '\U{FEFF}'
  }

  /** Every character of `s` is whitespace (so `s.trim().length === 0`). */
  predicate IsBlank(s: string) {
    forall i :: 0 <= i < |s| ==> IsJsWhitespace(s[i])
  }

  /** `s` with its leading whitespace removed. */
  function TrimStart(s: string): string {
    if s != [] && IsJsWhitespace(s[0]) then TrimStart(s[1..]) else s
  }

  /** `TrimStart(s)` is the longest suffix of `s` that does not start with
      whitespace: everything before it is whitespace. */
  lemma {:induction false} TrimStartSpec(s: string)
    ensures var r := TrimStart(s);
            |r| <= |s| && r == s[|s| - |r|..] &&
            (forall i :: 0 <= i < |s| - |r| ==> IsJsWhitespace(s[i])) &&
            (r == [] || !IsJsWhitespace(r[0]))
  {
    if s != [] && IsJsWhitespace(s[0]) {
      TrimStartSpec(s[1..]);
      var r := TrimStart(s);
      assert s[1..][|s| - 1 - |r|..] == s[|s| - |r|..];
      forall i | 0 <= i < |s| - |r| ensures IsJsWhitespace(s[i]) {
        if i > 0 {
          assert s[i] == s[1..][i - 1];
        }
      }
    }
  }

  /** `s` with its trailing whitespace removed. */
  function TrimEnd(s: string): string {
    if s != [] && IsJsWhitespace(s[|s| - 1]) then TrimEnd(s[..|s| - 1]) else s
  }

  /** `TrimEnd(s)` is the longest prefix of `s` that does not end with
      whitespace: everything after it is whitespace. */
  lemma {:induction false} TrimEndSpec(s: string)
    ensures var r := TrimEnd(s);
            |r| <= |s| && r == s[..|r|] &&
            (forall i :: |r| <= i < |s| ==> IsJsWhitespace(s[i])) &&
            (r == [] || !IsJsWhitespace(r[|r| - 1]))
  {
    if s != [] && IsJsWhitespace(s[|s| - 1]) {
      var u := s[..|s| - 1];
      TrimEndSpec(u);
      var r := TrimEnd(s);
      assert u[..|r|] == s[..|r|];
      forall i | |r| <= i < |s| ensures IsJsWhitespace(s[i]) {
        if i < |s| - 1 {
          assert s[i] == u[i];
        }
      }
    }
  }

  /** `String.prototype.trim`: neither starts nor ends with whitespace, and
      empty exactly when `s` is blank. */
  function Trim(s: string): (r: string)
    ensures r == [] || (!IsJsWhitespace(r[0]) && !IsJsWhitespace(r[|r| - 1]))
    ensures r == [] <==> IsBlank(s)
  {
    TrimStartSpec(s);
    TrimEndSpec(TrimStart(s));
    TrimEnd(TrimStart(s))
  }

  /** `trim()` gives a contiguous piece of its input: what follows the
      leading whitespace, up to the trailing whitespace. */
  lemma TrimSlice(s: string)
    ensures var k := |s| - |TrimStart(s)|;
            0 <= k && k + |Trim(s)| <= |s| && Trim(s) == s[k..k + |Trim(s)|]
    ensures var k := |s| - |TrimStart(s)|;
            0 <= k && forall i :: k + |Trim(s)| <= i < |s| ==> IsJsWhitespace(s[i])
  {
    TrimStartSpec(s);
    TrimEndSpec(TrimStart(s));
    var k := |s| - |TrimStart(s)|;
    forall i | k + |Trim(s)| <= i < |s|
      ensures IsJsWhitespace(s[i])
    {
      assert s[i] == TrimStart(s)[i - k];
    }
  }

  /** Trimming twice is trimming once. */
  lemma TrimIdempotent(s: string)
    ensures Trim(Trim(s)) == Trim(s)
  {
    var r := Trim(s);
    assert TrimStart(r) == r;
    assert TrimEnd(r) == r;
  }

  /** Leading whitespace in front of text that does not start with
      whitespace is exactly what `TrimStart` removes. */
  lemma {:induction false} TrimStartPadded(a: string, m: string)
    requires IsBlank(a)
    requires m == [] || !IsJsWhitespace(m[0])
    ensures TrimStart(a + m) == m
  {
    if a != [] {
      assert (a + m)[1..] == a[1..] + m;
      TrimStartPadded(a[1..], m);
    }
  }

  /** Trailing whitespace after text that does not end with whitespace is
      exactly what `TrimEnd` removes. */
  lemma {:induction false} TrimEndPadded(m: string, b: string)
    requires IsBlank(b)
    requires m == [] || !IsJsWhitespace(m[|m| - 1])
    ensures TrimEnd(m + b) == m
  {
    if b != [] {
      assert (m + b)[..|m + b| - 1] == m + b[..|b| - 1];
      TrimEndPadded(m, b[..|b| - 1]);
    }
  }

  /** `trim` gives back the non-empty text between any whitespace padding. */
  lemma TrimPadded(a: string, m: string, b: string)
    requires IsBlank(a) && IsBlank(b)
    requires m != [] && !IsJsWhitespace(m[0]) && !IsJsWhitespace(m[|m| - 1])
    ensures Trim(a + m + b) == m
  {
    assert a + m + b == a + (m + b);
    TrimStartPadded(a, m + b);
    TrimEndPadded(m, b);
  }

  /** `s.startsWith(p)` */
  predicate StartsWith(s: string, p: string) {
    |p| <= |s| && s[..|p|] == p
  }

  /** `sub` occurs in `s` at index `i`. */
  predicate OccursAt(s: string, sub: string, i: int) {
    0 <= i && i + |sub| <= |s| && s[i..i + |sub|] == sub
  }

  /** `s.includes(sub)` */
  predicate Contains(s: string, sub: string) {
    exists i :: 0 <= i <= |s| - |sub| && OccursAt(s, sub, i)
  }

  /** `s.substring(0, n)` for a non-negative `n`: the first `min(n, |s|)`
      characters of `s`. */
  function Take(s: string, n: nat): (r: string)
    ensures |r| == if n < |s| then n else |s|
    ensures StartsWith(s, r)
  {
    if n < |s| then s[..n] else s
  }

  /** `s.slice(1)`: everything after the first character (empty for empty). */
  function Drop1(s: string): (r: string)
    ensures |r| == if s == [] then 0 else |s| - 1
    ensures s != [] ==> s == [s[0]] + r
  {
    if s == [] then [] else s[1..]
  }

  /** `s.split(sep)` for a one-character separator: the pieces of `s` between
      separators, in order. There is always at least one piece, and a
      separator at either end yields an empty piece there. */
  function Split(s: string, sep: char): (parts: seq<string>)
    ensures |parts| >= 1
    ensures forall i :: 0 <= i < |parts| ==> sep !in parts[i]
  {
    if s == [] then [[]]
    else
      var rest := Split(s[1..], sep);
      if s[0] == sep then [[]] + rest else [[s[0]] + rest[0]] + rest[1..]
  }

  /** `parts.join(sep)` for a one-character separator. */
  function Join(parts: seq<string>, sep: char): (r: string)
    ensures |parts| > 0 ==> StartsWith(r, parts[0])
    ensures |parts| > 1 ==> |r| > |parts[0]| && r[|parts[0]|] == sep
  {
    if |parts| == 0 then []
    else if |parts| == 1 then parts[0]
    else parts[0] + [sep] + Join(parts[1..], sep)
  }

  /** Splitting a string and joining the pieces with the same separator gives
      the string back. */
  lemma {:induction false} JoinSplit(s: string, sep: char)
    ensures Join(Split(s, sep), sep) == s
  {
    if s != [] {
      var rest := Split(s[1..], sep);
      JoinSplit(s[1..], sep);
      if s[0] == sep {
        assert Split(s, sep) == [[]] + rest;
      } else {
        var parts := Split(s, sep);
        assert parts == [[s[0]] + rest[0]] + rest[1..];
        if |rest| == 1 {
          assert Join(rest, sep) == rest[0];
        } else {
          assert Join(rest, sep) == rest[0] + [sep] + Join(rest[1..], sep);
          assert parts[1..] == rest[1..];
        }
      }
    }
  }

  /** A piece without the separator glues onto the first piece of what
      follows it. */
  lemma {:induction false} SplitFree(a: string, t: string, sep: char)
    requires sep !in a
    ensures Split(a + t, sep) == [a + Split(t, sep)[0]] + Split(t, sep)[1..]
  {
    if a != [] {
      var parts := Split(t, sep);
      assert (a + t)[1..] == a[1..] + t;
      assert (a + t)[0] == a[0] != sep;
      SplitFree(a[1..], t, sep);
      var rest := Split(a[1..] + t, sep);
      assert rest[0] == a[1..] + parts[0] && rest[1..] == parts[1..];
      assert [a[0]] + (a[1..] + parts[0]) == a + parts[0];
    } else {
      var parts := Split(t, sep);
      assert a + t == t;
      assert a + parts[0] == parts[0];
      assert parts == [parts[0]] + parts[1..];
    }
  }

  /** A piece followed by a separator splits off as its own first piece. */
  lemma SplitAtSeparator(a: string, t: string, sep: char)
    requires sep !in a
    ensures Split(a + [sep] + t, sep) == [a] + Split(t, sep)
  {
    var u := [sep] + t;
    SplitFree(a, u, sep);
    assert a + [sep] + t == a + u;
    assert u[0] == sep && u[1..] == t;
    assert Split(u, sep) == [[]] + Split(t, sep);
    assert a + [] == a;
  }

  /** Joining pieces that do not contain the separator and splitting the result
      gives the pieces back. */
  lemma {:induction false} SplitJoin(parts: seq<string>, sep: char)
    requires |parts| >= 1
    requires forall i :: 0 <= i < |parts| ==> sep !in parts[i]
    ensures Split(Join(parts, sep), sep) == parts
  {
    if |parts| == 1 {
      SplitFree(parts[0], [], sep);
      assert parts[0] + [] == parts[0];
    } else {
      SplitJoin(parts[1..], sep);
      SplitAtSeparator(parts[0], Join(parts[1..], sep), sep);
      assert parts == [parts[0]] + parts[1..];
    }
  }

  /** `seg` is what `split(sep)` yields first for `s`: a prefix of `s` free of
      `sep` that runs to the end of `s` or up to a `sep`. */
  predicate IsFirstPiece(seg: string, s: string, sep: char) {
    StartsWith(s, seg) && sep !in seg && (|seg| == |s| || s[|seg|] == sep)
  }

  /** The first piece of a split is the text before the first separator. */
  lemma {:induction false} SplitFirst(s: string, sep: char)
    ensures IsFirstPiece(Split(s, sep)[0], s, sep)
  {
    if s != [] && s[0] != sep {
      SplitFirst(s[1..], sep);
      var rest := Split(s[1..], sep);
      assert Split(s, sep)[0] == [s[0]] + rest[0];
      assert s == [s[0]] + s[1..];
    }
  }

  /** A string has only one first piece. */
  lemma FirstPieceUnique(a: string, b: string, s: string, sep: char)
    requires IsFirstPiece(a, s, sep) && IsFirstPiece(b, s, sep)
    ensures a == b
  {
    forall k | 0 <= k < |a|
      ensures s[k] != sep
    {
      assert s[k] == a[k];
    }
    forall k | 0 <= k < |b|
      ensures s[k] != sep
    {
      assert s[k] == b[k];
    }
    assert |a| == |b|;
  }
}
