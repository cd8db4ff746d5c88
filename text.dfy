/**
 * The .NET string operations the core relies on, written over `seq<char>`:
 * `string.Join`, `String.Split(char)`, `Trim`, ordinal `Replace`, `Contains`,
 * `StartsWith`/`EndsWith`, and the ASCII part of `ToUpper` and of
 * case-insensitive comparison.
 */
module Text {

  /** Number of occurrences of `c` in `s`. */
  function Count(s: string, c: char): nat {
    if |s| == 0 then 0 else (if s[0] == c then 1 else 0) + Count(s[1..], c)
  }

  lemma {:induction false} CountAppend(a: string, b: string, c: char)
    ensures Count(a + b, c) == Count(a, c) + Count(b, c)
  {
    if |a| == 0 {
      assert a + b == b;
    } else {
      assert (a + b)[1..] == a[1..] + b;
      CountAppend(a[1..], b, c);
    }
  }

  lemma {:induction false} CountAbsent(s: string, c: char)
    requires c !in s
    ensures Count(s, c) == 0
  {
    if |s| > 0 {
      CountAbsent(s[1..], c);
    }
  }

  /** `string.Join(d, parts)`: the parts separated by one `d` each. */
  function Join(parts: seq<string>, d: char): string {
    if |parts| == 0 then ""
    else if |parts| == 1 then parts[0]
    else parts[0] + [d] + Join(parts[1..], d)
  }

  /** `s.Split(d)`: every occurrence of `d` ends one piece; empty pieces are kept. */
  function Split(s: string, d: char): (r: seq<string>)
    ensures |r| >= 1
  {
    if |s| == 0 then [""]
    else
      var rest := Split(s[1..], d);
      if s[0] == d then [""] + rest
      else [[s[0]] + rest[0]] + rest[1..]
  }

  /** No part contains the delimiter. */
  ghost predicate FreeOf(parts: seq<string>, d: char) {
    forall i :: 0 <= i < |parts| ==> d !in parts[i]
  }

  /** Splitting yields one piece more than there are delimiters. */
  lemma {:induction false} SplitCount(s: string, d: char)
    ensures |Split(s, d)| == 1 + Count(s, d)
  {
    if |s| > 0 {
      SplitCount(s[1..], d);
    }
  }

  /** The pieces of a split never contain the delimiter. */
  lemma {:induction false} SplitFreeOf(s: string, d: char)
    ensures FreeOf(Split(s, d), d)
  {
    if |s| > 0 {
      SplitFreeOf(s[1..], d);
      var rest := Split(s[1..], d);
      if s[0] != d {
        assert d !in [s[0]] + rest[0];
      }
    }
  }

  /** Joining the pieces of a split gives back the original text. */
  lemma {:induction false} JoinSplit(s: string, d: char)
    ensures Join(Split(s, d), d) == s
  {
    if |s| > 0 {
      JoinSplit(s[1..], d);
      var rest := Split(s[1..], d);
      if s[0] == d {
        assert Split(s, d) == [""] + rest;
        assert ([""] + rest)[1..] == rest;
        assert s == [d] + s[1..];
      } else if |rest| == 1 {
        assert Split(s, d) == [[s[0]] + rest[0]];
        assert s == [s[0]] + s[1..];
      } else {
        var r := Split(s, d);
        assert r == [[s[0]] + rest[0]] + rest[1..];
        assert r[1..] == rest[1..];
        assert Join(r, d) == [s[0]] + (rest[0] + [d] + Join(rest[1..], d));
        assert s == [s[0]] + s[1..];
      }
    }
  }

  /** Splitting a delimiter-free prefix onto the front of any text. */
  lemma {:induction false} SplitFreePrefix(p: string, t: string, d: char)
    requires d !in p
    ensures Split(p + t, d) == [p + Split(t, d)[0]] + Split(t, d)[1..]
  {
    if |p| == 0 {
      assert p + t == t;
      var r := Split(t, d);
      assert p + r[0] == r[0];
      assert [r[0]] + r[1..] == r;
    } else {
      assert (p + t)[1..] == p[1..] + t;
      assert (p + t)[0] == p[0];
      SplitFreePrefix(p[1..], t, d);
      assert [p[0]] + (p[1..] + Split(t, d)[0]) == p + Split(t, d)[0];
    }
  }

  /** Splitting a join of delimiter-free parts gives back the parts. */
  lemma {:induction false} SplitJoin(parts: seq<string>, d: char)
    requires |parts| >= 1
    requires FreeOf(parts, d)
    ensures Split(Join(parts, d), d) == parts
  {
    if |parts| == 1 {
      SplitFreePrefix(parts[0], "", d);
      assert parts[0] + "" == parts[0];
    } else {
      var tail := Join(parts[1..], d);
      SplitJoin(parts[1..], d);
      assert d !in parts[0];
      assert parts[0] + [d] + tail == parts[0] + ([d] + tail);
      SplitFreePrefix(parts[0], [d] + tail, d);
      assert ([d] + tail)[1..] == tail;
      assert Split([d] + tail, d) == [""] + parts[1..];
      assert parts[0] + "" == parts[0];
      assert parts == [parts[0]] + parts[1..];
    }
  }

  /** A join of delimiter-free parts holds exactly one delimiter between neighbours. */
  lemma {:induction false} JoinCount(parts: seq<string>, d: char)
    requires |parts| >= 1
    requires FreeOf(parts, d)
    ensures Count(Join(parts, d), d) == |parts| - 1
  {
    CountAbsent(parts[0], d);
    if |parts| > 1 {
      JoinCount(parts[1..], d);
      CountAppend(parts[0] + [d], Join(parts[1..], d), d);
      CountAppend(parts[0], [d], d);
      assert Count([d], d) == 1 by {
        assert [d][1..] == [];
      }
    }
  }

  /** A join of two or more parts contains the delimiter. */
  lemma JoinHasDelimiter(parts: seq<string>, d: char)
    requires |parts| >= 2
    ensures d in Join(parts, d)
  {
    assert Join(parts, d)[|parts[0]|] == d;
  }

  /** A join begins with its first part. */
  lemma JoinStartsWith(parts: seq<string>, d: char)
    requires |parts| >= 1
    ensures StartsWith(Join(parts, d), parts[0])
  {
    if |parts| > 1 {
      assert Join(parts, d)[..|parts[0]|] == parts[0];
    }
  }

  /** `s.StartsWith(p)` (ordinal). */
  predicate StartsWith(s: string, p: string) {
    |p| <= |s| && s[..|p|] == p
  }

  /** `s.EndsWith(p)` (ordinal). */
  predicate EndsWith(s: string, p: string) {
    |p| <= |s| && s[|s| - |p|..] == p
  }

  /** `s.Contains(sub)` (ordinal): `sub` occurs at some position. */
  predicate Contains(s: string, sub: string) {
    StartsWith(s, sub) || (|s| > 0 && Contains(s[1..], sub))
  }

  /** `s.Replace(pat, rep)` (ordinal): leftmost, non-overlapping occurrences of `pat` become `rep`. */
  function Replace(s: string, pat: string, rep: string): string
    requires |pat| > 0
    decreases |s|
  {
    if |s| < |pat| then s
    else if s[..|pat|] == pat then rep + Replace(s[|pat|..], pat, rep)
    else [s[0]] + Replace(s[1..], pat, rep)
  }

  /** Replacing a pattern that does not occur leaves the text unchanged. */
  lemma {:induction false} ReplaceAbsent(s: string, pat: string, rep: string)
    requires |pat| > 0
    requires !Contains(s, pat)
    ensures Replace(s, pat, rep) == s
  {
    if |s| >= |pat| {
      ReplaceAbsent(s[1..], pat, rep);
      assert s == [s[0]] + s[1..];
    }
  }

  /** A text that starts with the pattern has its first occurrence replaced there. */
  lemma ReplaceLeadingMatch(pat: string, b: string, rep: string)
    requires |pat| > 0
    ensures Replace(pat + b, pat, rep) == rep + Replace(b, pat, rep)
  {
    assert (pat + b)[..|pat|] == pat;
    assert (pat + b)[|pat|..] == b;
  }

  /**
   * A prefix without the pattern's first character cannot start an occurrence,
   * so it is kept as it is and the replacing goes on after it.
   */
  lemma {:induction false} ReplaceSkipsPrefix(a: string, b: string, pat: string, rep: string)
    requires |pat| > 0 && pat[0] !in a
    ensures Replace(a + b, pat, rep) == a + Replace(b, pat, rep)
  {
    if |a| > 0 {
      ReplaceSkipsPrefix(a[1..], b, pat, rep);
      var s := a + b;
      assert s[0] == a[0] && s[1..] == a[1..] + b;
      assert a == [a[0]] + a[1..];
      if |s| >= |pat| {
        assert s[..|pat|][0] != pat[0];
      } else {
        assert |b| < |pat|;
      }
    } else {
      assert a + b == b;
    }
  }

  /** A text that does not start with the pattern keeps its first character. */
  lemma ReplaceNoLeadingMatch(c: char, rest: string, pat: string, rep: string)
    requires |pat| > 0 && !StartsWith([c] + rest, pat)
    ensures Replace([c] + rest, pat, rep) == [c] + Replace(rest, pat, rep)
  {
    var s := [c] + rest;
    assert s[0] == c && s[1..] == rest;
    if |s| < |pat| {
      assert Replace(rest, pat, rep) == rest;
    }
  }

  /**
   * When the replacement starts with the pattern, the first `|pat|` characters
   * (or all, for a shorter text) are the same before and after replacing.
   */
  lemma {:induction false} ReplaceKeepsHead(s: string, pat: string, rep: string)
    requires |pat| > 0 && |pat| <= |rep| && rep[..|pat|] == pat
    ensures |Replace(s, pat, rep)| >= (if |s| < |pat| then |s| else |pat|)
    ensures Replace(s, pat, rep)[..if |s| < |pat| then |s| else |pat|] == s[..if |s| < |pat| then |s| else |pat|]
  {
    if |s| >= |pat| && s[..|pat|] != pat {
      var r' := Replace(s[1..], pat, rep);
      ReplaceKeepsHead(s[1..], pat, rep);
      assert |r'| >= |pat| - 1 && r'[..|pat| - 1] == s[1..][..|pat| - 1];
      var r := [s[0]] + r';
      assert r[..|pat|] == [s[0]] + r'[..|pat| - 1];
      assert s[..|pat|] == [s[0]] + s[1..][..|pat| - 1];
    }
  }

  /** Every `c` removed, other characters kept in order (`s.Replace("c", "")`). */
  function Remove(s: string, c: char): (r: string) {
    if |s| == 0 then "" else (if s[0] == c then "" else [s[0]]) + Remove(s[1..], c)
  }

  /** `Remove` agrees with `Replace` by the one-character string and the empty string. */
  lemma {:induction false} RemoveIsReplace(s: string, c: char)
    ensures Remove(s, c) == Replace(s, [c], "")
  {
    if |s| > 0 {
      RemoveIsReplace(s[1..], c);
      assert s[1..] == s[|[c]|..];
      if s[0] == c {
        assert s[..1] == [c];
      } else {
        assert s[..1] != [c];
      }
    }
  }

  /** What `Remove` keeps: exactly the characters other than `c`, in order. */
  lemma {:induction false} RemoveSpec(s: string, c: char)
    ensures c !in Remove(s, c)
    ensures forall x :: x != c ==> (x in Remove(s, c) <==> x in s)
    ensures |Remove(s, c)| == |s| - Count(s, c)
  {
    if |s| > 0 {
      RemoveSpec(s[1..], c);
      assert s == [s[0]] + s[1..];
    }
  }

  // ASCII letters only: non-ASCII case mappings are outside this model.
  function UpperChar(c: char): char {
    if 'a' <= c <= 'z' then (c as int - 32) as char else c
  }

  /** `s.ToUpper()` restricted to ASCII letters. */
  function ToUpper(s: string): (r: string)
    ensures |r| == |s|
    ensures forall i :: 0 <= i < |s| ==> r[i] == UpperChar(s[i])
  {
    if |s| == 0 then "" else [UpperChar(s[0])] + ToUpper(s[1..])
  }

  /** Ordinal-ignore-case equality (ASCII). */
  predicate EqualsIgnoreCase(a: string, b: string) {
    ToUpper(a) == ToUpper(b)
  }

  /** `s.StartsWith(p, StringComparison.OrdinalIgnoreCase)` (ASCII). */
  predicate StartsWithIgnoreCase(s: string, p: string) {
    |p| <= |s| && EqualsIgnoreCase(s[..|p|], p)
  }

  /** `s.Replace(pat, rep, StringComparison.OrdinalIgnoreCase)` (ASCII). */
  function ReplaceIgnoreCase(s: string, pat: string, rep: string): string
    requires |pat| > 0
    decreases |s|
  {
    if |s| < |pat| then s
    else if EqualsIgnoreCase(s[..|pat|], pat) then rep + ReplaceIgnoreCase(s[|pat|..], pat, rep)
    else [s[0]] + ReplaceIgnoreCase(s[1..], pat, rep)
  }

  /** The characters `Trim` removes: the ASCII white space and the Latin-1 ones. */
  const WhiteSpace: set<char> := {' ', '\t', '\n', '\r', '\U{000B}', '\U{000C}', '\U{0085}', '\U{00A0}'}

  predicate IsWhiteSpace(c: char) {
    c in WhiteSpace
  }

  function TrimStart(s: string): (r: string)
    ensures |r| <= |s| && r == s[|s| - |r|..]
    ensures forall i :: 0 <= i < |s| - |r| ==> IsWhiteSpace(s[i])
    ensures |r| == 0 || !IsWhiteSpace(r[0])
  {
    if |s| > 0 && IsWhiteSpace(s[0]) then TrimStart(s[1..]) else s
  }

  function TrimEnd(s: string): (r: string)
    ensures |r| <= |s| && r == s[..|r|]
    ensures forall i :: |r| <= i < |s| ==> IsWhiteSpace(s[i])
    ensures |r| == 0 || !IsWhiteSpace(r[|r| - 1])
  {
    if |s| > 0 && IsWhiteSpace(s[|s| - 1]) then TrimEnd(s[..|s| - 1]) else s
  }

  /** `s.Trim()`: the longest middle part that neither starts nor ends with white space. */
  function Trim(s: string): (r: string) {
    TrimEnd(TrimStart(s))
  }

  /** `Trim` cuts only white space, from both ends, and leaves none at either end. */
  lemma TrimSpec(s: string)
    ensures exists i, j :: (0 <= i <= j <= |s| && Trim(s) == s[i..j]
      && (forall k :: 0 <= k < i ==> IsWhiteSpace(s[k]))
      && (forall k :: j <= k < |s| ==> IsWhiteSpace(s[k])))
    ensures |Trim(s)| == 0 || (!IsWhiteSpace(Trim(s)[0]) && !IsWhiteSpace(Trim(s)[|Trim(s)| - 1]))
  {
    var a := TrimStart(s);
    var t := TrimEnd(a);
    var i, j := TrimBounds(s, a, t);
    assert Trim(s) == t;
    assert 0 <= i <= j <= |s| && Trim(s) == s[i..j]
      && (forall k :: 0 <= k < i ==> IsWhiteSpace(s[k]))
      && (forall k :: j <= k < |s| ==> IsWhiteSpace(s[k]));
  }

  /** Where `Trim` cuts, given the two trims by their contracts: the kept part is `s[i..j]`, with white space only outside it. */
  lemma TrimBounds(s: string, a: string, t: string) returns (i: nat, j: nat)
    requires |a| <= |s| && a == s[|s| - |a|..]
    requires forall k :: 0 <= k < |s| - |a| ==> IsWhiteSpace(s[k])
    requires |a| == 0 || !IsWhiteSpace(a[0])
    requires |t| <= |a| && t == a[..|t|]
    requires forall k :: |t| <= k < |a| ==> IsWhiteSpace(a[k])
    requires |t| == 0 || !IsWhiteSpace(t[|t| - 1])
    ensures i <= j <= |s| && t == s[i..j]
    ensures forall k :: 0 <= k < i ==> IsWhiteSpace(s[k])
    ensures forall k :: j <= k < |s| ==> IsWhiteSpace(s[k])
    ensures |t| == 0 || (!IsWhiteSpace(t[0]) && !IsWhiteSpace(t[|t| - 1]))
  {
    i := |s| - |a|;
    j := i + |t|;
    assert s[i..][..|t|] == s[i..j];
    if |t| > 0 {
      assert t[0] == a[0];
    }
    forall k | j <= k < |s|
      ensures IsWhiteSpace(s[k])
    {
      assert s[k] == a[k - i];
    }
  }

}
