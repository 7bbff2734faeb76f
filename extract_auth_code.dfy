/** The production test script's `extract_auth_code`: it finds the authorization code in what a
    user pastes after logging in, which may be the whole callback URL, a bare UUID-shaped code, a
    bare hexadecimal code, or a code wrapped in a `code=` label and trailing punctuation. */
module AuthCodeInput {
  import opened Values
  import opened Text

  /** `[a-fA-F0-9\-]` on every character. */
  predicate AllHexOrHyphen(s: string) {
    forall i :: 0 <= i < |s| ==> IsHexDigit(s[i]) || s[i] == '-'
  }

  /** `[a-fA-F0-9]` on every character. */
  predicate AllHex(s: string) {
    forall i :: 0 <= i < |s| ==> IsHexDigit(s[i])
  }

  /** The code shape accepted as it stands: 36 characters with four hyphens, all of them hex
      digits or hyphens. */
  predicate UuidLike(s: string) {
    |s| == 36 && Count(s, '-') == 4 && AllHexOrHyphen(s)
  }

  /** The other code shape accepted as it stands: 30 to 40 hex digits. */
  predicate BareHexCode(s: string) {
    30 <= |s| <= 40 && AllHex(s)
  }

  // ---------------------------------------------------------------- the callback URL

  /** The characters `urlsplit` deletes from a URL before splitting it: tab, CR and LF. */
  predicate IsUnsafeUrlChar(c: char) {
    c == '\t' || c == '\r' || c == '\n'
  }

  /** The URL `urlsplit` goes on with once every tab, CR and LF is deleted. (It also drops
      leading control characters and spaces, which never reach the query.) */
  function WithoutUnsafeChars(url: string): (r: string)
    ensures |r| <= |url|
  {
    if url == [] then []
    else (if IsUnsafeUrlChar(url[0]) then [] else [url[0]]) + WithoutUnsafeChars(url[1..])
  }

  /** Deleting characters brings in none. */
  lemma {:induction false} AbsentWithoutUnsafeChars(url: string, c: char)
    requires c !in url
    ensures c !in WithoutUnsafeChars(url)
    decreases |url|
  {
    if url != [] {
      assert url[0] != c;
      AbsentWithoutUnsafeChars(url[1..], c);
    }
  }

  /** Text with no tab, CR or LF is kept as it is. */
  lemma {:induction false} KeptWithoutUnsafeChars(url: string)
    requires forall i :: 0 <= i < |url| ==> !IsUnsafeUrlChar(url[i])
    ensures WithoutUnsafeChars(url) == url
    decreases |url|
  {
    if url != [] {
      KeptWithoutUnsafeChars(url[1..]);
      assert [url[0]] + url[1..] == url;
    }
  }

  /** Deleting characters works piece by piece. */
  lemma {:induction false} WithoutUnsafeCharsConcat(a: string, b: string)
    ensures WithoutUnsafeChars(a + b) == WithoutUnsafeChars(a) + WithoutUnsafeChars(b)
    decreases |a|
  {
    if a != [] {
      assert (a + b)[1..] == a[1..] + b;
      WithoutUnsafeCharsConcat(a[1..], b);
    } else {
      assert a + b == b;
    }
  }

  /** The query of a URL as `urlparse` splits it: the text after the first '?' that comes before
      the first '#', or nothing. */
  function QueryOf(url: string): (q: string)
    ensures '#' !in q && (q == [] || |q| < |url|)
    ensures q != [] ==> IsInfix(q, url)
  {
    var beforeFragment := BeforeFragment(url);
    if '?' in beforeFragment then
      var q := beforeFragment[IndexOf(beforeFragment, '?') + 1..];
      assert url[IndexOf(beforeFragment, '?') + 1..|beforeFragment|] == q;
      q
    else []
  }

  /** The URL up to its first '#'. */
  function BeforeFragment(url: string): (b: string)
    ensures |b| <= |url| && b == url[..|b|] && '#' !in b
    ensures |b| == |url| || url[|b|] == '#'
  {
    if '#' in url then url[..IndexOf(url, '#')] else url
  }

  /** Some '?' of the URL comes before every '#'. */
  predicate HasQuery(url: string) {
    exists k :: 0 <= k < |url| && url[k] == '?' && '#' !in url[..k]
  }

  /** `q` follows the first '?' of `url` at index `i`, which no '#' precedes, and runs up to the
      first '#' after it or to the end. */
  predicate QueryAt(url: string, i: int, q: string) {
    0 <= i && i + 1 + |q| <= |url| && url[i] == '?' && '?' !in url[..i] && '#' !in url[..i] &&
    url[i + 1..i + 1 + |q|] == q && '#' !in q && (i + 1 + |q| == |url| || url[i + 1 + |q|] == '#')
  }

  /** The query is exactly the text between the first '?' and the fragment, and is empty when
      every '?' lies inside the fragment. */
  lemma QueryOfFirstMark(url: string)
    ensures HasQuery(url) ==> exists i :: QueryAt(url, i, QueryOf(url))
    ensures !HasQuery(url) ==> QueryOf(url) == []
  {
    var b := BeforeFragment(url);
    if '?' in b {
      var j := IndexOf(b, '?');
      assert QueryOf(url) == b[j + 1..];
      QueryAfterMark(url, b, j);
      assert QueryAt(url, j, QueryOf(url));
    } else {
      assert QueryOf(url) == [];
      NoMarkBeforeFragment(url, b);
    }
  }

  /** The text after the first '?' of the part before the fragment is a query of the URL. */
  lemma QueryAfterMark(url: string, b: string, j: nat)
    requires |b| <= |url| && b == url[..|b|] && '#' !in b && (|b| == |url| || url[|b|] == '#')
    requires j < |b| && b[j] == '?' && '?' !in b[..j]
    ensures QueryAt(url, j, b[j + 1..]) && HasQuery(url)
  {
    var q := b[j + 1..];
    assert url[..j] == b[..j];
    assert url[j + 1..j + 1 + |q|] == q;
    assert url[j] == b[j];
  }

  /** Without a '?' before the fragment, every '?' of the URL lies inside the fragment. */
  lemma NoMarkBeforeFragment(url: string, b: string)
    requires |b| <= |url| && b == url[..|b|] && '#' !in b && (|b| == |url| || url[|b|] == '#')
    requires '?' !in b
    ensures !HasQuery(url)
  {
    forall k | 0 <= k < |url| && url[k] == '?'
      ensures '#' in url[..k]
    {
      if |b| <= k {
        assert url[..k][|b|] == '#';
      }
    }
  }

  /** `+` decodes to a space in a query. */
  function PlusToSpace(s: string): (r: string)
    ensures |r| == |s| && '+' !in r
    ensures forall i :: 0 <= i < |s| ==> r[i] == (if s[i] == '+' then ' ' else s[i])
  {
    seq(|s|, i requires 0 <= i < |s| => if s[i] == '+' then ' ' else s[i])
  }

  /** The decoded text after the first '=' of a field. */
  function FieldValue(f: string): string
    requires '=' in f
  {
    PlusToSpace(f[IndexOf(f, '=') + 1..])
  }

  /** The first value `parse_qs` keeps for `key` among the '&'-separated fields: a field counts
      only when it has an '=' and a non-empty value. */
  function FirstValue(fields: seq<string>, key: string): (r: Option<string>)
    ensures r.Some? ==> r.value != []
  {
    if fields == [] then None
    else
      var f := fields[0];
      if '=' in f && f[IndexOf(f, '=') + 1..] != [] && PlusToSpace(f[..IndexOf(f, '=')]) == key then
        Some(FieldValue(f))
      else FirstValue(fields[1..], key)
  }

  /** The value found is the decoded value of one of the fields. */
  lemma {:induction false} FirstValueFromField(fields: seq<string>, key: string)
    ensures FirstValue(fields, key).Some? ==>
      exists k :: 0 <= k < |fields| && '=' in fields[k] &&
        FirstValue(fields, key).value == FieldValue(fields[k])
    decreases |fields|
  {
    if fields != [] {
      var f := fields[0];
      if !('=' in f && f[IndexOf(f, '=') + 1..] != [] && PlusToSpace(f[..IndexOf(f, '=')]) == key) {
        FirstValueFromField(fields[1..], key);
        if FirstValue(fields, key).Some? {
          var k :| 0 <= k < |fields[1..]| && '=' in fields[1..][k] &&
            FirstValue(fields[1..], key).value == FieldValue(fields[1..][k]);
          assert fields[1..][k] == fields[k + 1];
        }
      }
    }
  }

  /** `parse_qs(urlparse(url).query).get("code", [None])[0]`. */
  function CodeParam(url: string): Option<string> {
    FirstValue(Split(QueryOf(WithoutUnsafeChars(url)), '&'), "code")
  }

  /** A code taken from a URL is non-empty, shorter than the URL, and holds none of the
      characters that delimit or encode a query. */
  lemma CodeParamShape(url: string)
    ensures var r := CodeParam(url);
      r.Some? ==> r.value != [] && '+' !in r.value && '&' !in r.value && '#' !in r.value && |r.value| < |url|
  {
    var q := QueryOf(WithoutUnsafeChars(url));
    var fields := Split(q, '&');
    var r := FirstValue(fields, "code");
    FirstValueFromField(fields, "code");
    if r.Some? {
      var k :| 0 <= k < |fields| && '=' in fields[k] &&
        r.value == FieldValue(fields[k]);
      FieldValueShape(q, k);
      assert |r.value| < |q| < |url|;
    }
    assert CodeParam(url) == r;
  }

  /** The decoded value of a field of a query without '#' holds no '+', '&' or '#', and is
      shorter than the query. */
  lemma FieldValueShape(q: string, k: nat)
    requires '#' !in q && k < |Split(q, '&')| && '=' in Split(q, '&')[k]
    ensures var f := Split(q, '&')[k];
      var d := FieldValue(f);
      '+' !in d && '&' !in d && '#' !in d && |d| < |q|
  {
    var f := Split(q, '&')[k];
    var v := f[IndexOf(f, '=') + 1..];
    JoinedPieceInfix(q, '&', k);
    assert IsInfix(v, f) by {
      assert f[IndexOf(f, '=') + 1..|f|] == v;
    }
    InfixTransitive(v, f, q);
    AbsentFromInfix(v, q, '#');
    AbsentFromInfix(v, f, '&');
    PlusToSpaceKeepsAbsence(v, '#');
    PlusToSpaceKeepsAbsence(v, '&');
    PieceNotLonger(q, '&', k);
  }

  /** Decoding '+' brings in no character but a space. */
  lemma PlusToSpaceKeepsAbsence(v: string, c: char)
    requires c != ' ' && c !in v
    ensures c !in PlusToSpace(v)
  {
    var r := PlusToSpace(v);
    assert forall i :: 0 <= i < |r| ==> r[i] == ' ' || r[i] == v[i];
  }

  /** A character absent from a string is absent from every piece of it. */
  lemma AbsentFromInfix(t: string, s: string, c: char)
    requires IsInfix(t, s) && c !in s
    ensures c !in t
  {
    var i, j :| 0 <= i <= j <= |s| && s[i..j] == t;
    assert forall k :: 0 <= k < |t| ==> t[k] == s[i + k];
  }

  /** A piece of a split is a contiguous part of the string split. */
  lemma JoinedPieceInfix(s: string, sep: char, k: nat)
    requires k < |Split(s, sep)|
    ensures IsInfix(Split(s, sep)[k], s)
  {
    PieceInJoin(Split(s, sep), sep, k);
    JoinSplit(s, sep);
  }

  /** No piece of a split is longer than the string split. */
  lemma PieceNotLonger(s: string, sep: char, k: nat)
    requires k < |Split(s, sep)|
    ensures |Split(s, sep)[k]| <= |s|
  {
    JoinedPieceInfix(s, sep, k);
  }

  lemma {:induction false} PieceInJoin(parts: seq<string>, sep: char, k: nat)
    requires k < |parts|
    ensures IsInfix(parts[k], Join(parts, sep))
    decreases |parts|
  {
    var j := Join(parts, sep);
    if |parts| == 1 {
      assert j[0..|j|] == parts[k];
    } else if k == 0 {
      assert j == parts[0] + [sep] + Join(parts[1..], sep);
      assert j[0..|parts[0]|] == parts[0];
    } else {
      PieceInJoin(parts[1..], sep, k - 1);
      var rest := Join(parts[1..], sep);
      assert j == parts[0] + [sep] + rest;
      var a, b :| 0 <= a <= b <= |rest| && rest[a..b] == parts[1..][k - 1];
      var off := |parts[0]| + 1;
      assert j[off + a..off + b] == rest[a..b];
    }
  }

  // ---------------------------------------------------------------- cleaning

  /** Case-insensitive comparison of `s[at..]` with the lower-case ASCII `word`. */
  predicate MatchesIgnoringCase(s: string, at: nat, word: string)
    requires forall i :: 0 <= i < |word| ==> 'a' <= word[i] <= 'z'
  {
    at + |word| <= |s| &&
    forall i :: 0 <= i < |word| ==> s[at + i] == word[i] || s[at + i] == word[i] - 'a' + 'A'
  }

  /** Where `code` or `auth[_-]?code` ends at the start of `s`, if either is there. */
  function KeywordEnd(s: string): (r: Option<nat>)
    ensures r.Some? ==> 4 <= r.value <= |s| && MatchesIgnoringCase(s, r.value - 4, "code")
    ensures r.Some? && r.value != 4 ==> (MatchesIgnoringCase(s, 0, "auth") &&
      (r.value == 8 || (r.value == 9 && (s[4] == '_' || s[4] == '-'))))
    ensures MatchesIgnoringCase(s, 0, "code") ==> r == Some(4)
    ensures MatchesIgnoringCase(s, 0, "auth") && MatchesIgnoringCase(s, 4, "code") ==> r == Some(8)
    ensures (MatchesIgnoringCase(s, 0, "auth") && |s| > 4 && (s[4] == '_' || s[4] == '-') &&
      MatchesIgnoringCase(s, 5, "code")) ==> r == Some(9)
  {
    if MatchesIgnoringCase(s, 0, "code") then
      CodeIsNotAuth(s);
      Some(4)
    else if MatchesIgnoringCase(s, 0, "auth") then
      var k := if |s| > 4 && (s[4] == '_' || s[4] == '-') then 5 else 4;
      if MatchesIgnoringCase(s, k, "code") then Some(k + 4)
      else
        assert k == 5 ==> !MatchesIgnoringCase(s, 4, "code") by {
          if k == 5 && MatchesIgnoringCase(s, 4, "code") {
            FirstLetter(s, 4, "code");
          }
        }
        None
    else None
  }

  /** Text that starts with `code` does not start with `auth`, in either case. */
  lemma CodeIsNotAuth(s: string)
    requires MatchesIgnoringCase(s, 0, "code")
    ensures !MatchesIgnoringCase(s, 0, "auth")
  {
    FirstLetter(s, 0, "code");
    assert "auth"[0] == 'a' && "auth"[0] - 'a' + 'A' == 'A';
  }

  /** A match starts with the word's first letter, in one case or the other. */
  lemma FirstLetter(s: string, at: nat, word: string)
    requires forall i :: 0 <= i < |word| ==> 'a' <= word[i] <= 'z'
    requires word != [] && MatchesIgnoringCase(s, at, word)
    ensures s[at] == word[0] || s[at] == word[0] - 'a' + 'A'
  {
  }

  /** Where the label of `s` ends: after its keyword and the one optional '=' or ':'. */
  function LabelEnd(s: string): (j: Option<nat>)
    ensures j.Some? <==> KeywordEnd(s).Some?
    ensures j.Some? ==> 4 <= j.value <= |s|
    ensures j.Some? ==> (j.value == KeywordEnd(s).value ||
      (j.value == KeywordEnd(s).value + 1 && (s[j.value - 1] == '=' || s[j.value - 1] == ':')))
    ensures (j.Some? && KeywordEnd(s).value < |s| &&
      (s[KeywordEnd(s).value] == '=' || s[KeywordEnd(s).value] == ':')) ==> j.value == KeywordEnd(s).value + 1
  {
    match KeywordEnd(s)
    case None => None
    case Some(k) => Some(if k < |s| && (s[k] == '=' || s[k] == ':') then k + 1 else k)
  }

  /** The first substitution: a leading `code` or `auth code` label, one optional '=' or ':', and
      the whitespace after them are dropped. */
  function RemoveLabel(s: string): (r: string)
    ensures |r| <= |s| && r == s[|s| - |r|..]
    ensures KeywordEnd(s).None? ==> r == s
    ensures KeywordEnd(s).Some? ==> |r| <= |s| - 4 && (r == [] || !IsSpace(r[0]))
    ensures KeywordEnd(s).Some? ==> (LabelEnd(s).value <= |s| - |r| &&
      forall k :: LabelEnd(s).value <= k < |s| - |r| ==> IsSpace(s[k]))
  {
    match LabelEnd(s)
    case None => s
    case Some(j) =>
      var r := TrimStart(s[j..], IsSpace);
      SuffixOfSuffix(s, j, r);
      SpacesAfterLabel(s, j, r);
      r
  }

  /** What trimming drops after the label is whitespace of `s`. */
  lemma SpacesAfterLabel(s: string, j: nat, r: string)
    requires j <= |s| && |r| <= |s| - j
    requires forall i :: 0 <= i < |s[j..]| - |r| ==> IsSpace(s[j..][i])
    ensures forall k :: j <= k < |s| - |r| ==> IsSpace(s[k])
  {
    forall k | j <= k < |s| - |r|
      ensures IsSpace(s[k])
    {
      assert s[k] == s[j..][k - j];
    }
  }

  /** A suffix of a suffix of `s` is a suffix of `s`. */
  lemma SuffixOfSuffix(s: string, j: nat, r: string)
    requires j <= |s| && |r| <= |s| - j && r == s[j..][|s| - j - |r|..]
    ensures r == s[|s| - |r|..]
  {
    assert s[j..][|s| - j - |r|..] == s[|s| - |r|..];
  }

  predicate IsClosingPunctuation(c: char) {
    c == '\'' || c == '"' || c == '`' || c == ',' || c == ';' || c == '.'
  }

  /** From index `i` on, `s` is whitespace up to `m` and then a maximal run of closing
      punctuation that ends the text. */
  predicate TrailerAt(s: string, i: int, m: int) {
    0 <= i <= m < |s| && (forall k :: i <= k < m ==> IsSpace(s[k])) &&
    (forall k :: m <= k < |s| ==> IsClosingPunctuation(s[k])) && (m == 0 || !IsClosingPunctuation(s[m - 1]))
  }

  /** The second substitution: a trailing run of quotes, backquotes, commas, semicolons and
      full stops is dropped together with the whitespace before it. */
  function RemoveTrailer(s: string): (r: string)
    ensures |r| <= |s| && r == s[..|r|]
    ensures s == [] || !IsClosingPunctuation(s[|s| - 1]) ==> r == s
    ensures s != [] && IsClosingPunctuation(s[|s| - 1]) ==>
      (r == [] || !IsSpace(r[|r| - 1])) && exists m :: TrailerAt(s, |r|, m)
  {
    var t := TrimEnd(s, IsClosingPunctuation);
    if t == s then s
    else
      var r := TrimEnd(t, IsSpace);
      assert t[..|r|] == s[..|r|];
      TrailerDropped(s, t, r);
      r
  }

  /** Trimming the punctuation and then the whitespace drops a trailer. */
  lemma TrailerDropped(s: string, t: string, r: string)
    requires |t| < |s| && t == s[..|t|]
    requires forall i :: |t| <= i < |s| ==> IsClosingPunctuation(s[i])
    requires t == [] || !IsClosingPunctuation(t[|t| - 1])
    requires |r| <= |t| && r == t[..|r|]
    requires forall i :: |r| <= i < |t| ==> IsSpace(t[i])
    ensures TrailerAt(s, |r|, |t|)
  {
    forall k | |r| <= k < |t|
      ensures IsSpace(s[k])
    {
      assert s[k] == t[k];
    }
    if |t| > 0 {
      assert s[|t| - 1] == t[|t| - 1];
    }
  }

  /** `extract_auth_code`: the whitespace around the input is dropped; a callback URL answers its
      first non-empty `code` parameter; a UUID-shaped or bare hex code answers itself; otherwise
      a label and trailing punctuation are cleaned off and, when that changed something and left
      at least 30 characters, the cleaned text is tried again. Every code found is non-empty, no
      longer than the input and free of the characters a query uses to delimit and encode. */
  function ExtractAuthCode(input: string): (r: Option<string>)
    ensures r.Some? ==> r.value != [] && |r.value| <= |input|
    ensures r.Some? ==> '&' !in r.value && '#' !in r.value && '+' !in r.value
    decreases |input|, 1
  {
    StripNotLonger(input);
    ExtractFromStripped(Strip(input))
  }

  /** The four methods, in order, on text already stripped. */
  function ExtractFromStripped(s: string): (r: Option<string>)
    ensures r.Some? ==> r.value != [] && |r.value| <= |s|
    ensures r.Some? ==> '&' !in r.value && '#' !in r.value && '+' !in r.value
    decreases |s|, 0
  {
    var fromUrl := FromCallbackUrl(s);
    if fromUrl.Some? then fromUrl
    else if AcceptedShape(s) then
      AcceptedShapeIsPlain(s);
      Some(s)
    else
      var cleaned := Cleaned(s);
      if cleaned != s && |cleaned| >= 30 then ExtractAuthCode(cleaned) else None
  }

  /** Method 1: the `code` parameter of a pasted callback URL. */
  function FromCallbackUrl(s: string): (r: Option<string>)
    ensures r.Some? ==> r.value != [] && '+' !in r.value && '&' !in r.value && '#' !in r.value && |r.value| < |s|
  {
    if StartsWith(s, "http") && Contains(s, "callback") then
      CodeParamShape(s);
      CodeParam(s)
    else None
  }

  /** Methods 2 and 3: a code shape the script accepts as it stands. */
  predicate AcceptedShape(s: string) {
    UuidLike(s) || BareHexCode(s)
  }

  /** Method 4: a label and a trailer cleaned off. */
  function Cleaned(s: string): (r: string)
    ensures |r| <= |s|
    ensures IsInfix(r, s)
  {
    var unlabelled := RemoveLabel(s);
    var r := RemoveTrailer(unlabelled);
    PrefixOfSuffix(s, unlabelled, r);
    r
  }

  /** Without a label, cleaning only drops an end of the text: what is left is a prefix. */
  lemma CleanedKeepsStart(s: string)
    requires KeywordEnd(s).None?
    ensures Cleaned(s) == s[..|Cleaned(s)|]
  {
  }

  /** Without closing punctuation at the end, cleaning only drops a label: what is left is a
      suffix. */
  lemma CleanedKeepsEnd(s: string)
    requires s == [] || !IsClosingPunctuation(s[|s| - 1])
    ensures Cleaned(s) == s[|s| - |Cleaned(s)|..]
  {
    TrailerKeptSuffix(s, RemoveLabel(s), Cleaned(s));
  }

  /** A suffix that keeps the last character of `s` and loses no trailer stays a suffix. */
  lemma TrailerKeptSuffix(s: string, u: string, r: string)
    requires |u| <= |s| && u == s[|s| - |u|..] && |r| <= |u| && r == u[..|r|]
    requires u == [] || !IsClosingPunctuation(u[|u| - 1]) ==> r == u
    ensures s == [] || !IsClosingPunctuation(s[|s| - 1]) ==> r == s[|s| - |r|..]
  {
    if u != [] {
      assert u[|u| - 1] == s[|s| - 1];
    }
  }

  lemma StripNotLonger(s: string)
    ensures |Strip(s)| <= |s|
  {
  }

  lemma AcceptedShapeIsPlain(s: string)
    requires AcceptedShape(s)
    ensures '&' !in s && '#' !in s && '+' !in s && s != []
  {
    assert forall i :: 0 <= i < |s| ==> IsHexDigit(s[i]) || s[i] == '-';
  }

  // ---------------------------------------------------------------- properties

  /** A string whose ends are not whitespace is its own strip. */
  lemma StripKeeps(s: string)
    requires s == [] || (!IsSpace(s[0]) && !IsSpace(s[|s| - 1]))
    ensures Strip(s) == s
  {
    TrimStartNoop(s, IsSpace);
    TrimEndNoop(s, IsSpace);
  }

  /** Surrounding whitespace never changes the answer. */
  lemma WhitespaceIgnored(input: string)
    ensures ExtractAuthCode(input) == ExtractAuthCode(Strip(input))
  {
    StripIdempotent(input);
  }

  /** A code of an accepted shape does not start with "http", since 'h' is no hex digit. */
  lemma AcceptedShapeIsNoUrl(code: string)
    requires AcceptedShape(code)
    ensures Strip(code) == code && FromCallbackUrl(code).None?
  {
    AcceptedShapeEnds(code);
    StripKeeps(code);
    NotHttp(code);
  }

  /** A code of an accepted shape starts and ends with a hex digit or a hyphen. */
  lemma AcceptedShapeEnds(s: string)
    requires AcceptedShape(s)
    ensures s != [] && s[0] != 'h' && !IsSpace(s[0]) && !IsSpace(s[|s| - 1])
  {
    assert IsHexDigit(s[0]) || s[0] == '-';
    assert IsHexDigit(s[|s| - 1]) || s[|s| - 1] == '-';
  }

  /** Text whose first character is not 'h' does not start with "http". */
  lemma NotHttp(s: string)
    requires s != [] && s[0] != 'h'
    ensures !StartsWith(s, "http")
  {
    if 4 <= |s| {
      assert s[..4][0] == s[0];
      assert "http"[0] == 'h';
    }
  }

  /** A UUID-shaped code, and a bare hex code of 30 to 40 digits, is answered as it is. */
  lemma AcceptedShapeAsIs(code: string)
    requires AcceptedShape(code)
    ensures ExtractAuthCode(code) == Some(code)
  {
    AcceptedShapeIsNoUrl(code);
  }

  /** Text without a '?' has an empty query and so no `code` parameter. */
  lemma NoQueryNoCode(s: string)
    requires '?' !in s
    ensures CodeParam(s).None?
  {
    var u := WithoutUnsafeChars(s);
    AbsentWithoutUnsafeChars(s, '?');
    var beforeFragment := if '#' in u then u[..IndexOf(u, '#')] else u;
    assert '?' !in beforeFragment;
    assert QueryOf(u) == [];
    var fields := Split([], '&');
    assert fields == [[]];
    assert FirstValue(fields[1..], "code").None?;
  }

  /** Input without a '?' has no query to take a code from, so it yields only a code of an
      accepted shape: no other text is taken for a code. */
  lemma {:induction false} WithoutQueryOnlyCodeShapes(input: string)
    requires '?' !in input
    requires ExtractAuthCode(input).Some?
    ensures AcceptedShape(ExtractAuthCode(input).value)
    decreases |input|
  {
    var s := Strip(input);
    AbsentFromInfix(s, input, '?');
    NoQueryNoCode(s);
    if !AcceptedShape(s) {
      var cleaned := Cleaned(s);
      AbsentFromInfix(cleaned, s, '?');
      assert ExtractAuthCode(input) == ExtractAuthCode(cleaned);
      WithoutQueryOnlyCodeShapes(cleaned);
    }
  }

  /** One round of cleaning: text that is neither a callback URL nor of an accepted shape is
      answered as its cleaned form is. */
  lemma CleaningRound(input: string)
    requires Strip(input) == input && FromCallbackUrl(input).None? && !AcceptedShape(input)
    requires Cleaned(input) != input && |Cleaned(input)| >= 30
    ensures ExtractAuthCode(input) == ExtractAuthCode(Cleaned(input))
  {
  }

  /** A `code=` label is dropped from whatever follows it, when that does not start with
      whitespace. */
  lemma CodeLabelRemoved(rest: string)
    requires rest == [] || !IsSpace(rest[0])
    ensures RemoveLabel("code=" + rest) == rest
  {
    var input := "code=" + rest;
    assert MatchesIgnoringCase(input, 0, "code");
    assert input[5..] == rest;
    TrimStartNoop(rest, IsSpace);
  }

  /** A full stop after text that ends in neither punctuation nor whitespace is dropped. */
  lemma FullStopRemoved(s: string)
    requires s == [] || (!IsClosingPunctuation(s[|s| - 1]) && !IsSpace(s[|s| - 1]))
    ensures RemoveTrailer(s + ".") == s
  {
    var input := s + ".";
    assert input[..|input| - 1] == s;
    TrimEndNoop(s, IsClosingPunctuation);
    TrimEndNoop(s, IsSpace);
  }

  /** Text whose second character is a hex digit or a hyphen carries no label. */
  lemma NoLabelBeforeHex(s: string)
    requires |s| >= 2 && (IsHexDigit(s[1]) || s[1] == '-')
    ensures KeywordEnd(s).None?
  {
    assert !MatchesIgnoringCase(s, 0, "code") by {
      assert s[0 + 1] != "code"[1] && s[0 + 1] != "code"[1] - 'a' + 'A';
    }
    assert !MatchesIgnoringCase(s, 0, "auth") by {
      assert s[0 + 1] != "auth"[1] && s[0 + 1] != "auth"[1] - 'a' + 'A';
    }
  }

  /** Text that does not start with 'h' is no callback URL. */
  lemma NoUrlWithoutH(s: string)
    requires s != [] && s[0] != 'h'
    ensures FromCallbackUrl(s).None?
  {
    assert !StartsWith(s, "http");
  }

  /** Text with a character that is neither a hex digit nor a hyphen has no accepted shape. */
  lemma NoShapeWithForeignChar(s: string, i: nat)
    requires i < |s| && !IsHexDigit(s[i]) && s[i] != '-'
    ensures !AcceptedShape(s)
  {
  }

  /** A labelled hex code is stripped already. */
  lemma LabelledIsStripped(code: string)
    requires BareHexCode(code)
    ensures Strip("code=" + code) == "code=" + code
  {
    var input := "code=" + code;
    assert input[0] == 'c' && input[|input| - 1] == code[|code| - 1];
    StripKeeps(input);
  }

  /** A labelled hex code is neither a URL nor of an accepted shape. */
  lemma LabelledIsNoCode(code: string)
    requires BareHexCode(code)
    ensures FromCallbackUrl("code=" + code).None? && !AcceptedShape("code=" + code)
  {
    var input := "code=" + code;
    assert input[0] == 'c' && input[1] == 'o';
    NoUrlWithoutH(input);
    NoShapeWithForeignChar(input, 1);
  }

  /** Cleaning a labelled hex code leaves the code. */
  lemma LabelledCleansToCode(code: string)
    requires BareHexCode(code)
    ensures Cleaned("code=" + code) == code && |"code=" + code| == |code| + 5
  {
    CodeLabelRemoved(code);
    HexEndKept(code);
    CleanedFrom("code=" + code, code);
  }

  /** A hex code ends in no punctuation, so no trailer is removed from it. */
  lemma HexEndKept(code: string)
    requires BareHexCode(code)
    ensures RemoveTrailer(code) == code
  {
    assert IsHexDigit(code[|code| - 1]);
  }

  /** Cleaning is the label removal followed by the trailer removal. */
  lemma CleanedFrom(s: string, unlabelled: string)
    requires RemoveLabel(s) == unlabelled && RemoveTrailer(unlabelled) == unlabelled
    ensures Cleaned(s) == unlabelled
  {
  }

  /** The steps a labelled hex code goes through: it is stripped already, is no URL and no
      accepted shape, and cleans to the code. */
  lemma LabelledHexCleans(code: string)
    requires BareHexCode(code)
    ensures var input := "code=" + code;
      Strip(input) == input && FromCallbackUrl(input).None? && !AcceptedShape(input) &&
      Cleaned(input) == code && Cleaned(input) != input && |Cleaned(input)| >= 30
  {
    LabelledIsStripped(code);
    LabelledIsNoCode(code);
    LabelledCleansToCode(code);
  }

  /** A bare hex code after a `code=` label is recovered. */
  lemma LabelledHexRecovered(code: string)
    requires BareHexCode(code)
    ensures ExtractAuthCode("code=" + code) == Some(code)
  {
    LabelledHexCleans(code);
    CleaningRound("code=" + code);
    AcceptedShapeAsIs(code);
  }

  /** A UUID-shaped code with a full stop is stripped already. */
  lemma StoppedIsStripped(code: string)
    requires UuidLike(code)
    ensures Strip(code + ".") == code + "."
  {
    var input := code + ".";
    assert input[0] == code[0] && input[|input| - 1] == '.';
    assert IsHexDigit(code[0]) || code[0] == '-';
    StripKeeps(input);
  }

  /** A UUID-shaped code with a full stop is neither a URL nor of an accepted shape. */
  lemma StoppedIsNoCode(code: string)
    requires UuidLike(code)
    ensures FromCallbackUrl(code + ".").None? && !AcceptedShape(code + ".")
  {
    var input := code + ".";
    assert input[0] == code[0] && input[36] == '.';
    assert IsHexDigit(code[0]) || code[0] == '-';
    NoUrlWithoutH(input);
    NoShapeWithForeignChar(input, 36);
  }

  /** Cleaning a UUID-shaped code with a full stop leaves the code. */
  lemma StoppedCleansToCode(code: string)
    requires UuidLike(code)
    ensures Cleaned(code + ".") == code && Cleaned(code + ".") != code + "." && |Cleaned(code + ".")| >= 30
  {
    var input := code + ".";
    assert input[1] == code[1];
    assert IsHexDigit(code[1]) || code[1] == '-';
    NoLabelBeforeHex(input);
    assert IsHexDigit(code[35]) || code[35] == '-';
    FullStopRemoved(code);
    assert |input| == |code| + 1;
  }

  /** The steps a UUID-shaped code with a full stop goes through. */
  lemma StoppedUuidCleans(code: string)
    requires UuidLike(code)
    ensures var input := code + ".";
      Strip(input) == input && FromCallbackUrl(input).None? && !AcceptedShape(input) &&
      Cleaned(input) == code && Cleaned(input) != input && |Cleaned(input)| >= 30
  {
    var input := code + ".";
    StoppedIsStripped(code);
    StoppedIsNoCode(code);
    StoppedCleansToCode(code);
  }

  /** A UUID-shaped code followed by a full stop is recovered. */
  lemma TrailingStopRemoved(code: string)
    requires UuidLike(code)
    ensures ExtractAuthCode(code + ".") == Some(code)
  {
    StoppedUuidCleans(code);
    CleaningRound(code + ".");
    AcceptedShapeAsIs(code);
  }

  /** `in` survives appending text. */
  lemma {:induction false} ContainsExtended(s: string, sub: string, t: string)
    requires Contains(s, sub)
    ensures Contains(s + t, sub)
    decreases |s|
  {
    if StartsWith(s, sub) {
      assert (s + t)[..|sub|] == s[..|sub|];
    } else {
      assert (s + t)[1..] == s[1..] + t;
      ContainsExtended(s[1..], sub, t);
    }
  }

  /** The first occurrence is the one with no occurrence before it. */
  lemma IndexOfAt(s: string, c: char, i: nat)
    requires i < |s| && s[i] == c && c !in s[..i]
    ensures IndexOf(s, c) == i
  {
  }

  /** A callback URL whose query starts with the `code` parameter. */
  function CallbackUrl(base: string, code: string, rest: string): string {
    base + "?code=" + code + "&" + rest
  }

  lemma CallbackUrlQuery(base: string, code: string, rest: string)
    requires '?' !in base && '#' !in base && '#' !in code && '#' !in rest
    ensures QueryOf(CallbackUrl(base, code, rest)) == "code=" + code + "&" + rest
  {
    var url := CallbackUrl(base, code, rest);
    assert '#' !in url;
    assert url[..|base|] == base;
    IndexOfAt(url, '?', |base|);
    assert url[|base| + 1..] == "code=" + code + "&" + rest;
  }

  lemma CallbackUrlFields(code: string, rest: string)
    requires '&' !in code
    ensures Split("code=" + code + "&" + rest, '&') == ["code=" + code] + Split(rest, '&')
  {
    var q := "code=" + code + "&" + rest;
    var i := 5 + |code|;
    assert q[..i] == "code=" + code;
    IndexOfAt(q, '&', i);
    assert q[i + 1..] == rest;
  }

  lemma CodeFieldFirst(code: string, rest: seq<string>)
    requires code != [] && '+' !in code
    ensures FirstValue(["code=" + code] + rest, "code") == Some(code)
  {
    var f := "code=" + code;
    IndexOfAt(f, '=', 4);
    assert f[..4] == "code";
    assert f[5..] == code;
    assert PlusToSpace("code") == "code";
    assert PlusToSpace(code) == code;
  }

  lemma CallbackUrlStripped(base: string, code: string, rest: string)
    requires StartsWith(base, "http")
    requires rest == [] || !IsSpace(rest[|rest| - 1])
    ensures Strip(CallbackUrl(base, code, rest)) == CallbackUrl(base, code, rest)
  {
    var url := CallbackUrl(base, code, rest);
    assert url == base + ("?code=" + code + "&" + rest);
    assert url[0] == base[0] == 'h' && url[|url| - 1] == (if rest == [] then '&' else rest[|rest| - 1]);
    StripKeeps(url);
  }

  lemma CallbackUrlRecognised(base: string, code: string, rest: string)
    requires StartsWith(base, "http") && Contains(base, "callback")
    ensures StartsWith(CallbackUrl(base, code, rest), "http") && Contains(CallbackUrl(base, code, rest), "callback")
  {
    var url := CallbackUrl(base, code, rest);
    assert url == base + ("?code=" + code + "&" + rest);
    assert url[..4] == base[..4];
    ContainsExtended(base, "callback", "?code=" + code + "&" + rest);
  }

  /** Deleting tab, CR and LF from a callback URL keeps its shape and a code free of them. */
  lemma CallbackUrlSanitised(base: string, code: string, rest: string)
    requires forall i :: 0 <= i < |code| ==> !IsUnsafeUrlChar(code[i])
    ensures WithoutUnsafeChars(CallbackUrl(base, code, rest)) ==
            CallbackUrl(WithoutUnsafeChars(base), code, WithoutUnsafeChars(rest))
  {
    var mid := "?code=" + code + "&";
    CodeParamTextKept(code);
    var base', rest' := WithoutUnsafeChars(base), WithoutUnsafeChars(rest);
    assert CallbackUrl(base, code, rest) == base + mid + rest;
    assert CallbackUrl(base', code, rest') == base' + mid + rest';
    KeptBetween(base, mid, rest);
  }

  /** The text between the base and the further parameters is kept when the code is. */
  lemma CodeParamTextKept(code: string)
    requires forall i :: 0 <= i < |code| ==> !IsUnsafeUrlChar(code[i])
    ensures WithoutUnsafeChars("?code=" + code + "&") == "?code=" + code + "&"
  {
    var head, tail := "?code=", "&";
    LiteralsKept();
    KeptWithoutUnsafeChars(code);
    WithoutUnsafeCharsConcat(head, code);
    WithoutUnsafeCharsConcat(head + code, tail);
  }

  /** The fixed text of the code parameter holds none of the deleted characters. */
  lemma LiteralsKept()
    ensures WithoutUnsafeChars("?code=") == "?code="
    ensures WithoutUnsafeChars("&") == "&"
  {
    KeptCons('&', "");
    KeptCons('=', "");
    KeptCons('e', "=");
    KeptCons('d', "e=");
    KeptCons('o', "de=");
    KeptCons('c', "ode=");
    KeptCons('?', "code=");
  }

  /** A kept first character stays in front. */
  lemma KeptCons(c: char, rest: string)
    requires !IsUnsafeUrlChar(c)
    ensures WithoutUnsafeChars([c] + rest) == [c] + WithoutUnsafeChars(rest)
  {
    assert ([c] + rest)[1..] == rest;
  }

  /** Deleting around a kept middle deletes from the two ends alone. */
  lemma KeptBetween(a: string, mid: string, b: string)
    requires WithoutUnsafeChars(mid) == mid
    ensures WithoutUnsafeChars(a + mid + b) == WithoutUnsafeChars(a) + mid + WithoutUnsafeChars(b)
  {
    WithoutUnsafeCharsConcat(a + mid, b);
    WithoutUnsafeCharsConcat(a, mid);
  }

  lemma CallbackUrlCode(base: string, code: string, rest: string)
    requires '?' !in base && '#' !in base
    requires code != [] && '&' !in code && '#' !in code && '+' !in code && '#' !in rest
    requires forall i :: 0 <= i < |code| ==> !IsUnsafeUrlChar(code[i])
    ensures CodeParam(CallbackUrl(base, code, rest)) == Some(code)
  {
    var base', rest' := WithoutUnsafeChars(base), WithoutUnsafeChars(rest);
    CallbackUrlSanitised(base, code, rest);
    AbsentWithoutUnsafeChars(base, '?');
    AbsentWithoutUnsafeChars(base, '#');
    AbsentWithoutUnsafeChars(rest, '#');
    CallbackUrlQuery(base', code, rest');
    CallbackUrlFields(code, rest');
    CodeFieldFirst(code, Split(rest', '&'));
  }

  /** Parts that make a well-formed callback URL: a base URL starting with "http", naming
      "callback" and carrying no query or fragment; a non-empty code with no '&', '#', '+', tab,
      CR or LF; further parameters with no '#' that do not end in whitespace. */
  predicate CallbackParts(base: string, code: string, rest: string) {
    StartsWith(base, "http") && Contains(base, "callback") && '?' !in base && '#' !in base &&
    code != [] && '&' !in code && '#' !in code && '+' !in code && '#' !in rest &&
    (forall i :: 0 <= i < |code| ==> !IsUnsafeUrlChar(code[i])) &&
    (rest == [] || !IsSpace(rest[|rest| - 1]))
  }

  /** The facts that make a callback URL answer its code: it is stripped already, is a callback
      URL, and carries the code as its `code` parameter. */
  lemma CallbackUrlFacts(base: string, code: string, rest: string)
    requires CallbackParts(base, code, rest)
    ensures var url := CallbackUrl(base, code, rest);
      Strip(url) == url && FromCallbackUrl(url) == Some(code)
  {
    CallbackUrlStripped(base, code, rest);
    CallbackUrlFromUrl(base, code, rest);
  }

  /** A callback URL built from well-formed parts answers its code by method 1. */
  lemma CallbackUrlFromUrl(base: string, code: string, rest: string)
    requires CallbackParts(base, code, rest)
    ensures FromCallbackUrl(CallbackUrl(base, code, rest)) == Some(code)
  {
    CallbackUrlRecognised(base, code, rest);
    CallbackUrlCode(base, code, rest);
    RecognisedCode(CallbackUrl(base, code, rest), code);
  }

  /** A URL that names "callback" answers its `code` parameter. */
  lemma RecognisedCode(url: string, code: string)
    requires StartsWith(url, "http") && Contains(url, "callback") && CodeParam(url) == Some(code)
    ensures FromCallbackUrl(url) == Some(code)
  {
  }

  /** A pasted callback URL answers the `code` parameter it carries. */
  lemma CallbackUrlAnswersCode(base: string, code: string, rest: string)
    requires CallbackParts(base, code, rest)
    ensures ExtractAuthCode(CallbackUrl(base, code, rest)) == Some(code)
  {
    CallbackUrlFacts(base, code, rest);
    UrlAnswered(CallbackUrl(base, code, rest));
  }

  /** Stripped text that is a callback URL with a `code` parameter answers that parameter. */
  lemma UrlAnswered(s: string)
    requires Strip(s) == s && FromCallbackUrl(s).Some?
    ensures ExtractAuthCode(s) == FromCallbackUrl(s)
  {
  }
}
