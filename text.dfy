/** The Python string operations the core relies on: `str.strip`, `str.rstrip`, `str.split`,
    `startswith` and `in`, stated over `seq<char>`. */
module Text {

  /** The characters for which Python's `str.isspace()` holds; `str.strip()` with no argument and
      the regular-expression class `\s` both use this set. */
  predicate IsSpace(c: char) {
    c == ' ' || ('\t' <= c <= '\r') || ('\U{1c}' <= c <= '\U{1f}') || c == '\U{85}' ||
    c == '\U{a0}' || c == '\U{1680}' || ('\U{2000}' <= c <= '\U{200a}') || c == '\U{2028}' ||
    c == '\U{2029}' || c == '\U{202f}' || c == '\U{205f}' || c == '\U{3000}'
  }

  predicate IsHexDigit(c: char) {
    ('0' <= c <= '9') || ('a' <= c <= 'f') || ('A' <= c <= 'F')
  }

  predicate StartsWith(s: string, prefix: string) {
    |prefix| <= |s| && s[..|prefix|] == prefix
  }

  /** Python's `sub in s`. */
  predicate Contains(s: string, sub: string) {
    StartsWith(s, sub) || (s != [] && Contains(s[1..], sub))
  }

  /** `t` occurs in `s` as a contiguous piece. */
  ghost predicate IsInfix(t: string, s: string) {
    exists i, j :: 0 <= i <= j <= |s| && s[i..j] == t
  }

  lemma InfixTransitive(a: string, b: string, c: string)
    requires IsInfix(a, b) && IsInfix(b, c)
    ensures IsInfix(a, c)
  {
    var i, j :| 0 <= i <= j <= |b| && b[i..j] == a;
    var k, l :| 0 <= k <= l <= |c| && c[k..l] == b;
    assert |b| == l - k;
    assert forall t :: 0 <= t < j - i ==> a[t] == b[i + t] == c[k + i + t];
    assert c[k + i..k + j] == a;
  }

  /** Removes the leading characters that satisfy `p`. */
  function TrimStart(s: string, p: char -> bool): (r: string)
    ensures |r| <= |s| && r == s[|s| - |r|..]
    ensures forall i :: 0 <= i < |s| - |r| ==> p(s[i])
    ensures r == [] || !p(r[0])
  {
    if s != [] && p(s[0]) then
      var r := TrimStart(s[1..], p);
      assert s[1..][|s| - 1 - |r|..] == s[|s| - |r|..];
      assert forall i :: 1 <= i < |s| - |r| ==> s[i] == s[1..][i - 1];
      r
    else s
  }

  /** Removes the trailing characters that satisfy `p` (Python's `rstrip(chars)`). */
  function TrimEnd(s: string, p: char -> bool): (r: string)
    ensures |r| <= |s| && r == s[..|r|]
    ensures forall i :: |r| <= i < |s| ==> p(s[i])
    ensures r == [] || !p(r[|r| - 1])
  {
    if s != [] && p(s[|s| - 1]) then
      var r := TrimEnd(s[..|s| - 1], p);
      assert s[..|s| - 1][..|r|] == s[..|r|];
      assert forall i :: |r| <= i < |s| - 1 ==> s[i] == s[..|s| - 1][i];
      r
    else s
  }

  /** `r` occurs in `s` at index `i`, with only whitespace before and after it. */
  predicate SpacesAround(s: string, i: int, r: string) {
    0 <= i <= |s| - |r| && r == s[i..i + |r|] &&
    (forall k :: 0 <= k < i ==> IsSpace(s[k])) && (forall k :: i + |r| <= k < |s| ==> IsSpace(s[k]))
  }

  /** Python's `s.strip()`: only whitespace around the result is removed. */
  function Strip(s: string): (r: string)
    ensures IsInfix(r, s)
    ensures r == [] || (!IsSpace(r[0]) && !IsSpace(r[|r| - 1]))
    ensures exists i :: SpacesAround(s, i, r)
  {
    var front := TrimStart(s, IsSpace);
    var r := TrimEnd(front, IsSpace);
    PrefixOfSuffix(s, front, r);
    StrippedBetweenSpaces(s, front, r);
    r
  }

  /** What trimming both ends keeps is bounded by whitespace on both sides. */
  lemma StrippedBetweenSpaces(s: string, front: string, r: string)
    requires |front| <= |s| && front == s[|s| - |front|..]
    requires forall k :: 0 <= k < |s| - |front| ==> IsSpace(s[k])
    requires |r| <= |front| && r == front[..|r|]
    requires forall k :: |r| <= k < |front| ==> IsSpace(front[k])
    ensures exists i :: SpacesAround(s, i, r)
  {
    var i := |s| - |front|;
    forall k | i + |r| <= k < |s|
      ensures IsSpace(s[k])
    {
      assert s[k] == front[k - i];
    }
    assert SpacesAround(s, i, r);
  }

  /** A prefix of a suffix of `s` occurs in `s`. */
  lemma PrefixOfSuffix(s: string, u: string, r: string)
    requires |u| <= |s| && u == s[|s| - |u|..] && |r| <= |u| && r == u[..|r|]
    ensures IsInfix(r, s)
  {
    assert s[|s| - |u|..|s| - |u| + |r|] == r;
  }

  lemma TrimStartNoop(s: string, p: char -> bool)
    requires s == [] || !p(s[0])
    ensures TrimStart(s, p) == s
  {
  }

  lemma TrimEndNoop(s: string, p: char -> bool)
    requires s == [] || !p(s[|s| - 1])
    ensures TrimEnd(s, p) == s
  {
  }

  /** Stripping twice is stripping once. */
  lemma StripIdempotent(s: string)
    ensures Strip(Strip(s)) == Strip(s)
  {
    var r := Strip(s);
    TrimStartNoop(r, IsSpace);
    TrimEndNoop(r, IsSpace);
  }

  /** Index of the first occurrence of `c` in `s`. */
  function IndexOf(s: string, c: char): (i: nat)
    requires c in s
    ensures i < |s| && s[i] == c && c !in s[..i]
  {
    if s[0] == c then 0 else 1 + IndexOf(s[1..], c)
  }

  /** Python's `s.split(sep)` for a one-character separator: the pieces between separators, and
      always at least one piece (`"".split(",") == [""]`). */
  function Split(s: string, sep: char): (parts: seq<string>)
    ensures |parts| >= 1
    ensures forall k :: 0 <= k < |parts| ==> sep !in parts[k]
    decreases |s|
  {
    if sep !in s then [s]
    else
      var i := IndexOf(s, sep);
      [s[..i]] + Split(s[i + 1..], sep)
  }

  /** Python's `sep.join(parts)`. */
  function Join(parts: seq<string>, sep: char): string
    requires |parts| >= 1
  {
    if |parts| == 1 then parts[0] else parts[0] + [sep] + Join(parts[1..], sep)
  }

  /** Joining a piece in front of at least one more puts one separator after it. */
  lemma JoinCons(head: string, rest: seq<string>, sep: char)
    requires |rest| >= 1
    ensures Join([head] + rest, sep) == head + [sep] + Join(rest, sep)
  {
    assert ([head] + rest)[1..] == rest;
  }

  /** Splitting loses nothing: joining the pieces again gives back the input. */
  lemma {:induction false} JoinSplit(s: string, sep: char)
    ensures Join(Split(s, sep), sep) == s
    decreases |s|
  {
    if sep in s {
      var i := IndexOf(s, sep);
      var head, tail := s[..i], s[i + 1..];
      JoinSplit(tail, sep);
      SplitCons(s, sep, i);
      JoinCons(head, Split(tail, sep), sep);
      SplitAround(s, i);
    }
  }

  /** One step of `Split` on text that holds the separator. */
  lemma SplitCons(s: string, sep: char, i: nat)
    requires sep in s && i == IndexOf(s, sep)
    ensures Split(s, sep) == [s[..i]] + Split(s[i + 1..], sep)
  {
  }

  /** Text is what comes before index `i`, the character at `i`, and what comes after it. */
  lemma SplitAround(s: string, i: nat)
    requires i < |s|
    ensures s == s[..i] + [s[i]] + s[i + 1..]
  {
  }

  /** Number of occurrences of `c` in `s` (Python's `s.count(c)`). */
  function Count(s: string, c: char): nat {
    if s == [] then 0 else (if s[0] == c then 1 else 0) + Count(s[1..], c)
  }

  lemma {:induction false} CountSplit(s: string, c: char, i: nat)
    requires i <= |s|
    ensures Count(s, c) == Count(s[..i], c) + Count(s[i..], c)
  {
    if i > 0 {
      CountSplit(s[1..], c, i - 1);
      assert s[1..][..i - 1] == s[..i][1..];
      assert s[1..][i - 1..] == s[i..];
    }
  }

  lemma {:induction false} CountAbsent(s: string, c: char)
    requires c !in s
    ensures Count(s, c) == 0
  {
    if s != [] {
      CountAbsent(s[1..], c);
    }
  }

  /** `s.split(sep)` has one piece more than `s` has separators. */
  lemma {:induction false} SplitLength(s: string, sep: char)
    ensures |Split(s, sep)| == Count(s, sep) + 1
    decreases |s|
  {
    if sep !in s {
      CountAbsent(s, sep);
    } else {
      var i := IndexOf(s, sep);
      SplitLength(s[i + 1..], sep);
      CountSplit(s, sep, i);
      CountAbsent(s[..i], sep);
      assert s[i..] == [sep] + s[i + 1..];
      assert Count(s[i..], sep) == 1 + Count(s[i + 1..], sep);
    }
  }
}
