/**
 * The handful of Go `strings` functions the agent relies on, over `seq<char>`
 * (a Go string is treated as its sequence of runes). Case folding is ASCII
 * only; `TrimSpace` uses Go's `unicode.IsSpace` table.
 */
module Strings {
  import opened Wrappers

  /** `pat` occurs in `s` starting at index `i`. */
  predicate At(s: string, i: int, pat: string)
    decreases |pat|
  {
    0 <= i && i + |pat| <= |s| && (pat == [] || (s[i] == pat[0] && At(s, i + 1, pat[1..])))
  }

  /** An occurrence lies inside the string. */
  lemma AtLength(s: string, i: int, pat: string)
    requires At(s, i, pat)
    ensures 0 <= i && i + |pat| <= |s|
  {
  }

  /** `At` is the comparison of a slice. */
  lemma {:induction false} AtSlice(s: string, i: int, pat: string)
    ensures At(s, i, pat) <==> 0 <= i && i + |pat| <= |s| && s[i..i + |pat|] == pat
    decreases |pat|
  {
    if pat != [] && 0 <= i && i + |pat| <= |s| {
      AtSlice(s, i + 1, pat[1..]);
      assert s[i..i + |pat|] == [s[i]] + s[i + 1..i + |pat|];
      if s[i..i + |pat|] == pat {
        assert pat[1..] == s[i + 1..i + |pat|];
      }
    }
  }

  /** The characters of an occurrence. */
  lemma AtChars(s: string, i: int, pat: string)
    requires At(s, i, pat)
    ensures forall k :: 0 <= k < |pat| ==> s[i + k] == pat[k]
  {
    AtSlice(s, i, pat);
    forall k | 0 <= k < |pat|
      ensures s[i + k] == pat[k]
    {
      assert s[i..i + |pat|][k] == s[i + k];
    }
  }

  /** A character that differs from the pattern's rules out an occurrence. */
  lemma AtDiffers(s: string, i: int, pat: string, j: nat)
    requires j < |pat| && 0 <= i && i + j < |s| && s[i + j] != pat[j]
    ensures !At(s, i, pat)
  {
    if At(s, i, pat) {
      AtChars(s, i, pat);
    }
  }

  /** An occurrence of `x + y` is an occurrence of `x` followed by one of `y`. */
  lemma {:induction false} AtConcat(s: string, i: int, x: string, y: string)
    ensures At(s, i, x + y) <==> At(s, i, x) && At(s, i + |x|, y)
    decreases |x|
  {
    if x == [] {
      assert x + y == y;
    } else {
      assert (x + y)[0] == x[0];
      assert (x + y)[1..] == x[1..] + y;
      AtConcat(s, i + 1, x[1..], y);
    }
  }

  /** First occurrence of `pat` at or after `i`, or -1. */
  function IndexFrom(s: string, pat: string, i: nat): (r: int)
    decreases |s| - i
    ensures r == -1 || (i <= r && At(s, r, pat))
    ensures forall k :: i <= k && (r == -1 || k < r) ==> !At(s, k, pat)
  {
    if i + |pat| > |s| then -1
    else if At(s, i, pat) then i
    else IndexFrom(s, pat, i + 1)
  }

  /** strings.Index: the first position of `pat` in `s`, or -1 when it does not occur. */
  function Index(s: string, pat: string): (r: int)
    ensures r == -1 ==> forall k :: !At(s, k, pat)
    ensures (forall k :: !At(s, k, pat)) ==> r == -1
    ensures r != -1 ==> At(s, r, pat) && forall k :: 0 <= k < r ==> !At(s, k, pat)
  {
    var r := IndexFrom(s, pat, 0);
    assert r == -1 ==> forall k :: !At(s, k, pat) by {
      if r == -1 {
        forall k
          ensures !At(s, k, pat)
        {
          if k >= 0 {
            assert 0 <= k;
          }
        }
      }
    }
    assert r != -1 ==> At(s, r, pat);
    r
  }

  /** strings.Contains */
  predicate Contains(s: string, pat: string) {
    Index(s, pat) != -1
  }

  /** `Contains` holds exactly when `pat` occurs at some position. */
  lemma ContainsIff(s: string, pat: string)
    ensures Contains(s, pat) <==> exists k :: At(s, k, pat)
  {
    var r := Index(s, pat);
    if r != -1 {
      assert At(s, r, pat);
      assert exists k :: At(s, k, pat);
    }
  }

  /** A string contains every infix of itself. */
  lemma ContainsInfix(a: string, pat: string, b: string)
    ensures Contains(a + pat + b, pat)
  {
    AtInfix(a, pat, b);
  }

  /** A string starts with itself. */
  lemma AtPrefix(pat: string, b: string)
    ensures At(pat + b, 0, pat)
  {
    assert (pat + b)[..|pat|] == pat;
    AtSlice(pat + b, 0, pat);
  }

  /** Appending text keeps an occurrence. */
  lemma AtExtend(a: string, b: string, i: int, pat: string)
    requires At(a, i, pat)
    ensures At(a + b, i, pat)
  {
    AtSlice(a, i, pat);
    assert (a + b)[i..i + |pat|] == a[i..i + |pat|];
    AtSlice(a + b, i, pat);
  }

  /** `pat` occurs in `a + pat + b` right after `a`. */
  lemma AtInfix(a: string, pat: string, b: string)
    ensures At(a + pat + b, |a|, pat)
  {
    var s := a + pat + b;
    assert s[|a|..|a| + |pat|] == pat;
    AtSlice(s, |a|, pat);
  }

  /** strings.HasSuffix */
  predicate HasSuffix(s: string, suffix: string) {
    |suffix| <= |s| && s[|s| - |suffix|..] == suffix
  }

  lemma SuffixOfAppend(p: string, suffix: string)
    ensures HasSuffix(p + suffix, suffix)
  {
    assert (p + suffix)[|p|..] == suffix;
  }

  /** ASCII lower-casing of one character. */
  function LowerChar(c: char): char {
    if 'A' <= c <= 'Z' then (c as int + 32) as char else c
  }

  /** strings.ToLower, restricted to ASCII letters. */
  function Lower(s: string): (r: string)
    ensures |r| == |s| && forall i :: 0 <= i < |s| ==> r[i] == LowerChar(s[i])
  {
    seq(|s|, i requires 0 <= i < |s| => LowerChar(s[i]))
  }

  lemma LowerAppend(a: string, b: string)
    ensures Lower(a + b) == Lower(a) + Lower(b)
  {
  }

  /** Index of the first `c` in `s`. */
  function FirstIndexOf(s: string, c: char): (k: nat)
    requires c in s
    ensures k < |s| && s[k] == c && c !in s[..k]
  {
    if s[0] == c then 0
    else
      assert c in s[1..];
      var k := FirstIndexOf(s[1..], c);
      assert s[1..][..k] == s[1..k + 1];
      k + 1
  }

  /** Inverse of `Split`: the parts joined with `sep` between them. */
  function Join(parts: seq<string>, sep: char): string {
    if |parts| == 0 then ""
    else if |parts| == 1 then parts[0]
    else parts[0] + [sep] + Join(parts[1..], sep)
  }

  /** strings.Split for a one-character separator. */
  function Split(s: string, sep: char): (parts: seq<string>)
    decreases |s|
    ensures |parts| >= 1
    ensures forall i :: 0 <= i < |parts| ==> sep !in parts[i]
    ensures Join(parts, sep) == s
  {
    if sep !in s then [s]
    else
      var k := FirstIndexOf(s, sep);
      var rest := Split(s[k + 1..], sep);
      assert s == s[..k] + [sep] + s[k + 1..];
      [s[..k]] + rest
  }

  /** The part of `s` before the first `sep`, as `strings.Split(s, sep)[0]`. */
  lemma SplitHead(p: string, q: string, sep: char)
    requires sep !in p
    ensures Split(p + [sep] + q, sep)[0] == p
  {
    var s := p + [sep] + q;
    assert s[|p|] == sep;
    assert s[..|p|] == p;
  }

  /** The first separator ends the first part. */
  lemma SplitAt(p: string, q: string, sep: char)
    requires sep !in p
    ensures Split(p + [sep] + q, sep) == [p] + Split(q, sep)
  {
    var s := p + [sep] + q;
    assert s[|p|] == sep;
    assert s[..|p|] == p;
    assert forall j :: 0 <= j < |p| ==> s[j] == p[j];
    var k := FirstIndexOf(s, sep);
    assert s[k + 1..] == q;
  }

  /** `Split` undoes `Join` when no part holds the separator. */
  lemma {:induction false} SplitJoin(parts: seq<string>, sep: char)
    requires |parts| >= 1 && forall i :: 0 <= i < |parts| ==> sep !in parts[i]
    ensures Split(Join(parts, sep), sep) == parts
    decreases |parts|
  {
    if |parts| > 1 {
      var rest := parts[1..];
      SplitAt(parts[0], Join(rest, sep), sep);
      SplitJoin(rest, sep);
    }
  }

  /** strings.SplitN(s, sep, 2) read as a pair: the text before and after the first `sep`. */
  function Cut(s: string, sep: char): (r: Option<(string, string)>)
    ensures r.None? <==> sep !in s
    ensures r.Some? ==> s == r.value.0 + [sep] + r.value.1 && sep !in r.value.0
  {
    if sep !in s then None
    else
      var k := FirstIndexOf(s, sep);
      assert s == s[..k] + [sep] + s[k + 1..];
      Some((s[..k], s[k + 1..]))
  }

  /** The first `sep` splits `a + [sep] + b` into `a` and `b` when `a` has none. */
  lemma CutAt(a: string, b: string, sep: char)
    requires sep !in a
    ensures Cut(a + [sep] + b, sep) == Some((a, b))
  {
    var s := a + [sep] + b;
    assert s[|a|] == sep;
    var r := Cut(s, sep).value;
    assert s == r.0 + [sep] + r.1;
    assert r.0 == s[..|a|] == a;
    assert r.1 == s[|a| + 1..] == b;
  }

  /** An ASCII decimal digit (RE2's `\d`). */
  predicate IsDigit(c: char) {
    '0' <= c <= '9'
  }

  /** unicode.IsSpace */
  predicate IsSpace(c: char) {
    c == '\t' || c == '\n' || c == '\U{000B}' || c == '\U{000C}' || c == '\r' || c == ' '
    || c == '\U{0085}' || c == '\U{00A0}' || c == '\U{1680}'
    || ('\U{2000}' <= c <= '\U{200A}') || c == '\U{2028}' || c == '\U{2029}'
    || c == '\U{202F}' || c == '\U{205F}' || c == '\U{3000}'
  }

  function TrimLeft(s: string): (r: string)
    decreases |s|
    ensures |r| <= |s| && r == s[|s| - |r|..]
    ensures forall k :: 0 <= k < |s| - |r| ==> IsSpace(s[k])
    ensures r == [] || !IsSpace(r[0])
  {
    if s != [] && IsSpace(s[0]) then TrimLeft(s[1..]) else s
  }

  function TrimRight(s: string): (r: string)
    decreases |s|
    ensures |r| <= |s| && r == s[..|r|]
    ensures forall k :: |r| <= k < |s| ==> IsSpace(s[k])
    ensures r == [] || !IsSpace(r[|r| - 1])
  {
    if s != [] && IsSpace(s[|s| - 1]) then TrimRight(s[..|s| - 1]) else s
  }

  /** strings.TrimSpace: `s` without its leading and trailing white space. */
  function TrimSpace(s: string): (r: string)
    ensures r == [] || (!IsSpace(r[0]) && !IsSpace(r[|r| - 1]))
    ensures forall c :: c in r ==> c in s
  {
    var l := TrimLeft(s);
    var r := TrimRight(l);
    assert forall c :: c in r ==> c in l;
    r
  }

  /** strings.ReplaceAll(s, string(c), ""). */
  function RemoveAll(s: string, c: char): (r: string)
    ensures c !in r
    ensures forall x :: x in r <==> x in s && x != c
  {
    if s == [] then []
    else if s[0] == c then RemoveAll(s[1..], c)
    else
      var rest := RemoveAll(s[1..], c);
      assert forall x :: x in s <==> x == s[0] || x in s[1..];
      [s[0]] + rest
  }

  /** Removing a character that does not occur changes nothing. */
  lemma {:induction false} RemoveAbsent(s: string, c: char)
    requires c !in s
    ensures RemoveAll(s, c) == s
    decreases |s|
  {
    if s != [] {
      assert c !in s[1..];
      RemoveAbsent(s[1..], c);
      assert s == [s[0]] + s[1..];
    }
  }

  /** A string without outer white space is its own `TrimSpace`. */
  lemma TrimmedIsTrimSpace(s: string)
    requires s == [] || (!IsSpace(s[0]) && !IsSpace(s[|s| - 1]))
    ensures TrimSpace(s) == s
  {
  }

  /** Some entry of `needles` is a substring of `hay` (a search with an early return). */
  function AnyContained(needles: seq<string>, hay: string): (r: bool)
    ensures r <==> exists i :: 0 <= i < |needles| && Contains(hay, needles[i])
  {
    if needles == [] then false
    else if Contains(hay, needles[0]) then true
    else
      var r := AnyContained(needles[1..], hay);
      assert forall i :: 1 <= i < |needles| ==> needles[i] == needles[1..][i - 1];
      r
  }

  /** `s` ends with some entry of `suffixes` (a search with an early return). */
  function EndsWithAny(s: string, suffixes: seq<string>): (r: bool)
    ensures r <==> exists i :: 0 <= i < |suffixes| && HasSuffix(s, suffixes[i])
  {
    if suffixes == [] then false
    else if HasSuffix(s, suffixes[0]) then true
    else
      var r := EndsWithAny(s, suffixes[1..]);
      assert forall i :: 1 <= i < |suffixes| ==> suffixes[i] == suffixes[1..][i - 1];
      r
  }
}
