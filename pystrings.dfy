/** The Python `str` builtins the CI matrix script and the driver rely on:
    the `in` operator on strings, `str.strip()` with no argument,
    `str.split(sep)` with a one-character separator, and the decimal
    rendering of a non-negative integer inside an f-string. */
module PyStrings {

  /** Python's `str.isspace()` for a single character: the ASCII whitespace
      and separator controls (U+0009..U+000D, U+001C..U+001F, space) and the
      Unicode space and line/paragraph separators. These are exactly the
      characters `str.strip()` removes when called without an argument. */
  predicate IsSpace(c: char) {
    || c == ' '
    || ('\t' <= c <= '\r')
    || ('\U{1C}' <= c <= '\U{1F}')
    || c == '\U{85}'
    || c == '\U{A0}'
    || c == '\U{1680}'
    || ('\U{2000}' <= c <= '\U{200A}')
    || c == '\U{2028}'
    || c == '\U{2029}'
    || c == '\U{202F}'
    || c == '\U{205F}'
    || c == '\U{3000}'
  }

  predicate AllSpace(s: string) {
    forall i :: 0 <= i < |s| ==> IsSpace(s[i])
  }

  /** Python's `pat in s` on two strings: `pat` occurs somewhere in `s`,
      at any offset (not only as a prefix). The empty string occurs in
      every string, and nothing longer than `s` occurs in it. */
  predicate IsSubstring(pat: string, s: string): (found: bool)
    ensures found ==> |pat| <= |s|
    ensures pat == [] ==> found
  {
    assert pat == [] ==> OccursAt(pat, s, 0);
    exists i :: 0 <= i <= |s| - |pat| && OccursAt(pat, s, i)
  }

  /** `s` starts with `pat`. */
  predicate StartsWith(pat: string, s: string) {
    |pat| <= |s| && s[..|pat|] == pat
  }

  /** A scan from the left, as a reference definition of `pat in s`: `pat`
      is a prefix of `s` or occurs in `s` without its first character. */
  predicate FoundByScan(pat: string, s: string)
    decreases |s|
  {
    StartsWith(pat, s) || (s != [] && FoundByScan(pat, s[1..]))
  }

  /** `pat` occurs in `s` starting at offset `i`. */
  predicate OccursAt(pat: string, s: string, i: int) {
    0 <= i && i + |pat| <= |s| && s[i..i + |pat|] == pat
  }

  /** A string occurs in any string that has it between two others. */
  lemma OccursBetween(before: string, pat: string, after: string)
    ensures IsSubstring(pat, before + pat + after)
  {
    var s := before + pat + after;
    assert s[|before|..|before| + |pat|] == pat;
    assert OccursAt(pat, s, |before|);
  }

  /** An occurrence past offset 0 is an occurrence in the tail. */
  lemma OccursInTail(pat: string, s: string, i: int)
    requires s != [] && 1 <= i && OccursAt(pat, s, i)
    ensures OccursAt(pat, s[1..], i - 1)
  {
    assert s[1..][i - 1..i - 1 + |pat|] == s[i..i + |pat|];
  }

  /** An occurrence in the tail is an occurrence one offset further on. */
  lemma OccursFromTail(pat: string, s: string, j: int)
    requires s != [] && OccursAt(pat, s[1..], j)
    ensures OccursAt(pat, s, j + 1)
  {
    assert s[j + 1..j + 1 + |pat|] == s[1..][j..j + |pat|];
  }

  /** `IsSubstring` agrees with the left-to-right scan, in both directions. */
  lemma {:induction false} SubstringByScan(pat: string, s: string)
    ensures IsSubstring(pat, s) <==> FoundByScan(pat, s)
    decreases |s|
  {
    if StartsWith(pat, s) {
      assert OccursAt(pat, s, 0);
    } else if s != [] {
      SubstringByScan(pat, s[1..]);
      if IsSubstring(pat, s) {
        var i :| 0 <= i <= |s| - |pat| && OccursAt(pat, s, i);
        OccursInTail(pat, s, i);
      }
      if IsSubstring(pat, s[1..]) {
        var j :| 0 <= j <= |s[1..]| - |pat| && OccursAt(pat, s[1..], j);
        OccursFromTail(pat, s, j);
      }
    }
  }

  lemma AllSpaceAppend(a: string, b: string)
    requires AllSpace(a) && AllSpace(b)
    ensures AllSpace(a + b)
  {
    forall i | 0 <= i < |a + b| ensures IsSpace((a + b)[i]) {
      if i < |a| { assert (a + b)[i] == a[i]; } else { assert (a + b)[i] == b[i - |a|]; }
    }
  }

  lemma LeadingSpaceGrows(s: string, t: string)
    requires s != [] && IsSpace(s[0])
    requires |t| <= |s| - 1 && t == s[1..][|s| - 1 - |t|..] && AllSpace(s[1..][..|s| - 1 - |t|])
    ensures t == s[|s| - |t|..] && AllSpace(s[..|s| - |t|])
  {
    assert s[..|s| - |t|] == [s[0]] + s[1..][..|s| - 1 - |t|];
    AllSpaceAppend([s[0]], s[1..][..|s| - 1 - |t|]);
  }

  lemma TrailingSpaceGrows(s: string, t: string)
    requires s != [] && IsSpace(s[|s| - 1])
    requires |t| <= |s| - 1 && t == s[..|s| - 1][..|t|] && AllSpace(s[..|s| - 1][|t|..])
    ensures t == s[..|t|] && AllSpace(s[|t|..])
  {
    assert s[|t|..] == s[..|s| - 1][|t|..] + [s[|s| - 1]];
    AllSpaceAppend(s[..|s| - 1][|t|..], [s[|s| - 1]]);
  }

  /** Removes leading whitespace: the result is a suffix of `s`, what was cut
      off is whitespace, and the result does not start with whitespace. */
  function TrimStart(s: string): (t: string)
    ensures |t| <= |s| && t == s[|s| - |t|..]
    ensures AllSpace(s[..|s| - |t|])
    ensures t != [] ==> !IsSpace(t[0])
  {
    if s != [] && IsSpace(s[0]) then
      var t := TrimStart(s[1..]);
      LeadingSpaceGrows(s, t);
      t
    else
      s
  }

  /** Removes trailing whitespace: the result is a prefix of `s`, what was
      cut off is whitespace, and the result does not end with whitespace. */
  function TrimEnd(s: string): (t: string)
    ensures |t| <= |s| && t == s[..|t|]
    ensures AllSpace(s[|t|..])
    ensures t != [] ==> !IsSpace(t[|t| - 1])
  {
    if s != [] && IsSpace(s[|s| - 1]) then
      var t := TrimEnd(s[..|s| - 1]);
      TrailingSpaceGrows(s, t);
      t
    else
      s
  }

  /** `s` is whitespace, then `t` from offset `i`, then whitespace. */
  predicate PaddedAt(s: string, t: string, i: int) {
    0 <= i <= |s| - |t| && s[i..i + |t|] == t && AllSpace(s[..i]) && AllSpace(s[i + |t|..])
  }

  lemma AfterTrimStart(s: string, u: string, i: int)
    requires 0 <= i <= |s| && u == s[i..] && AllSpace(s[..i])
    requires u != [] ==> !IsSpace(u[0])
    ensures PaddedAt(s, TrimEnd(u), i)
    ensures TrimEnd(u) == [] <==> AllSpace(s)
  {
    var t := TrimEnd(u);
    PaddedSlices(s, u, t, i);
    EmptyOnlyIfAllSpace(s, u, t, i);
  }

  lemma EmptyOnlyIfAllSpace(s: string, u: string, t: string, i: int)
    requires 0 <= i <= |s| && u == s[i..] && AllSpace(s[..i])
    requires u != [] ==> !IsSpace(u[0])
    requires |t| <= |u| && t == u[..|t|] && AllSpace(u[|t|..])
    ensures t == [] <==> AllSpace(s)
  {
    if t == [] {
      assert u[|t|..] == u;
      assert s == s[..i] + u;
      AllSpaceAppend(s[..i], u);
    } else {
      assert u[0] == s[i];
    }
  }

  lemma PaddedSlices(s: string, u: string, t: string, i: int)
    requires 0 <= i <= |s| && u == s[i..] && |t| <= |u| && t == u[..|t|]
    requires AllSpace(s[..i]) && AllSpace(u[|t|..])
    ensures PaddedAt(s, t, i)
  {
    assert s[i..i + |t|] == u[..|t|];
    assert s[i + |t|..] == u[|t|..];
  }

  /** Python's `s.strip()`: `s` is whitespace, then the result, then
      whitespace; the result is empty exactly when `s` is all whitespace,
      and otherwise neither starts nor ends with whitespace. */
  function Strip(s: string): (t: string)
    ensures t == [] <==> AllSpace(s)
    ensures t != [] ==> !IsSpace(t[0]) && !IsSpace(t[|t| - 1])
    ensures exists i :: PaddedAt(s, t, i)
  {
    var u := TrimStart(s);
    AfterTrimStart(s, u, |s| - |u|);
    TrimEnd(u)
  }

  /** Joins `parts` with `sep` between consecutive parts (Python's
      `sep.join(parts)`); the inverse of Split. */
  function Join(parts: seq<string>, sep: char): string {
    if |parts| == 0 then ""
    else if |parts| == 1 then parts[0]
    else parts[0] + [sep] + Join(parts[1..], sep)
  }

  /** Python's `s.split(sep)` for a one-character separator: the pieces
      between consecutive separators, so there is always at least one piece
      (`"".split("\n") == [""]`) and adjacent separators give empty pieces. */
  function Split(s: string, sep: char): (parts: seq<string>)
    ensures |parts| >= 1
    decreases |s|
  {
    if s == [] then [""]
    else
      var rest := Split(s[1..], sep);
      if s[0] == sep then [""] + rest else [[s[0]] + rest[0]] + rest[1..]
  }

  lemma JoinConsHead(c: char, parts: seq<string>, sep: char)
    requires |parts| >= 1
    ensures Join([[c] + parts[0]] + parts[1..], sep) == [c] + Join(parts, sep)
  {
    var ps := [[c] + parts[0]] + parts[1..];
    assert ps[1..] == parts[1..];
  }

  /** Joining the pieces of a split with the same separator gives back the
      original string. */
  lemma {:induction false} JoinSplit(s: string, sep: char)
    ensures Join(Split(s, sep), sep) == s
    decreases |s|
  {
    if s != [] {
      var rest := Split(s[1..], sep);
      JoinSplit(s[1..], sep);
      if s[0] == sep {
        assert ([""] + rest)[1..] == rest;
      } else {
        JoinConsHead(s[0], rest, sep);
      }
    }
  }

  /** No piece of a split contains the separator. */
  lemma {:induction false} SplitPiecesExcludeSeparator(s: string, sep: char)
    ensures forall k :: 0 <= k < |Split(s, sep)| ==> sep !in Split(s, sep)[k]
    decreases |s|
  {
    if s != [] {
      SplitPiecesExcludeSeparator(s[1..], sep);
    }
  }

  /** A split has one more piece than `s` has separators. */
  lemma {:induction false} SplitPieceCount(s: string, sep: char)
    ensures |Split(s, sep)| == multiset(s)[sep] + 1
    decreases |s|
  {
    if s != [] {
      SplitPieceCount(s[1..], sep);
      assert s == [s[0]] + s[1..];
      assert multiset(s) == multiset([s[0]]) + multiset(s[1..]);
    }
  }

  /** The other direction of the round trip: splitting a join of non-empty
      many separator-free pieces gives back those pieces. */
  lemma {:induction false} SplitJoin(parts: seq<string>, sep: char)
    requires |parts| >= 1
    requires forall k :: 0 <= k < |parts| ==> sep !in parts[k]
    ensures Split(Join(parts, sep), sep) == parts
    decreases |parts|, |parts[0]|
  {
    if parts[0] == [] {
      if |parts| > 1 {
        SplitJoin(parts[1..], sep);
        assert Join(parts, sep) == [sep] + Join(parts[1..], sep);
        assert ([sep] + Join(parts[1..], sep))[1..] == Join(parts[1..], sep);
        assert parts == [""] + parts[1..];
      }
    } else {
      var c := parts[0][0];
      var shorter := [parts[0][1..]] + parts[1..];
      assert sep != c by { assert parts[0][0] in parts[0]; }
      forall k | 0 <= k < |shorter| ensures sep !in shorter[k] {
        if k > 0 {
          assert shorter[k] == parts[k];
        }
      }
      SplitJoin(shorter, sep);
      assert parts[0] == [c] + shorter[0];
      assert parts == [[c] + shorter[0]] + shorter[1..];
      JoinConsHead(c, shorter, sep);
      var joined := Join(parts, sep);
      assert joined == [c] + Join(shorter, sep);
      assert joined[1..] == Join(shorter, sep);
    }
  }

  function DigitChar(d: nat): (c: char)
    requires d < 10
    ensures '0' <= c <= '9' && c as int - '0' as int == d
  {
    ('0' as int + d) as char
  }

  /** Python's `str(n)` (and `f"{n}"`) for a non-negative integer: decimal
      digits with no leading zero except for "0" itself. */
  function NatToString(n: nat): (s: string)
    ensures |s| >= 1
    ensures forall k :: 0 <= k < |s| ==> '0' <= s[k] <= '9'
    ensures s[0] == '0' <==> n == 0
    ensures n == 0 ==> s == "0"
  {
    if n < 10 then [DigitChar(n)] else NatToString(n / 10) + [DigitChar(n % 10)]
  }

  /** The value of a string of decimal digits, most significant first. */
  function DecimalValue(s: string): int {
    if s == [] then 0 else DecimalValue(s[..|s| - 1]) * 10 + (s[|s| - 1] as int - '0' as int)
  }

  /** Reading back the decimal rendering of `n` gives `n`, so distinct counts
      are rendered differently. */
  lemma {:induction false} DecimalRoundTrip(n: nat)
    ensures DecimalValue(NatToString(n)) == n
  {
    if n >= 10 {
      DecimalRoundTrip(n / 10);
      var s := NatToString(n);
      assert s[..|s| - 1] == NatToString(n / 10);
    } else {
      assert NatToString(n)[..0] == "";
    }
  }
}
