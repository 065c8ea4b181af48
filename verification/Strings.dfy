/**
 The functions of Go's `strings` package that the modelled code calls, each defined by what
 it searches for, and the facts about them that several modules share.
 */
module Strings {

  /** `sub` occurs in `s` at position `i`. */
  predicate OccursAt(s: string, sub: string, i: int) {
    0 <= i && i + |sub| <= |s| && s[i..i + |sub|] == sub
  }

  ghost predicate Contains(s: string, sub: string) {
    exists i :: OccursAt(s, sub, i)
  }

  predicate HasPrefix(s: string, prefix: string) {
    OccursAt(s, prefix, 0)
  }

  predicate HasSuffix(s: string, suffix: string) {
    |suffix| <= |s| && s[|s| - |suffix|..] == suffix
  }

  /** strings.Index: the first occurrence, or -1. */
  function Index(s: string, sub: string): (i: int)
    ensures i == -1 || OccursAt(s, sub, i)
    ensures forall j :: OccursAt(s, sub, j) ==> 0 <= i <= j
  {
    IndexFrom(s, sub, 0)
  }

  function IndexFrom(s: string, sub: string, from: nat): (i: int)
    requires from <= |s| + 1
    ensures i == -1 || (from <= i && OccursAt(s, sub, i))
    ensures forall j :: from <= j && OccursAt(s, sub, j) ==> 0 <= i <= j
    decreases |s| + 1 - from
  {
    if from + |sub| > |s| then -1
    else if s[from..from + |sub|] == sub then from
    else IndexFrom(s, sub, from + 1)
  }

  /** The first occurrence is the only position with an occurrence and none before it. */
  lemma IndexUnique(s: string, sub: string, i: int)
    requires OccursAt(s, sub, i)
    requires forall j :: 0 <= j < i ==> !OccursAt(s, sub, j)
    ensures Index(s, sub) == i
  {
  }

  /** strings.TrimSuffix with a one-character suffix: one trailing `c` at most goes. */
  function TrimSuffixChar(s: string, c: char): (r: string)
    ensures r == s || r + [c] == s
    ensures r == s <==> |s| == 0 || s[|s| - 1] != c
  {
    if |s| > 0 && s[|s| - 1] == c then s[..|s| - 1] else s
  }

  /** What an occurrence says about the single characters under it. */
  lemma OccursChar(s: string, sub: string, i: int, k: nat)
    requires OccursAt(s, sub, i) && k < |sub|
    ensures s[i + k] == sub[k]
  {
    assert s[i..i + |sub|][k] == sub[k];
  }

  /** Characters agreeing one by one make an occurrence. */
  lemma OccursFromChars(s: string, sub: string, i: int)
    requires 0 <= i && i + |sub| <= |s|
    requires forall k :: 0 <= k < |sub| ==> s[i + k] == sub[k]
    ensures OccursAt(s, sub, i)
  {
    assert s[i..i + |sub|] == sub;
  }

  lemma OccursInPrefix(s: string, n: nat, sub: string, i: int)
    requires n <= |s|
    ensures OccursAt(s[..n], sub, i) <==> i + |sub| <= n && OccursAt(s, sub, i)
  {
    if 0 <= i && i + |sub| <= n {
      assert s[..n][i..i + |sub|] == s[i..i + |sub|];
    }
  }

  lemma OccursInSuffix(s: string, n: nat, sub: string, i: int)
    requires n <= |s| && 0 <= i
    ensures OccursAt(s[n..], sub, i) <==> OccursAt(s, sub, i + n)
  {
    if i + n + |sub| <= |s| {
      assert s[n..][i..i + |sub|] == s[i + n..i + n + |sub|];
    }
  }

  /** A one-line text occurs in `x` or in `y`, never across the line break between them. */
  lemma OccursAcrossLines(x: string, y: string, sub: string, i: int)
    requires sub != "" && '\n' !in sub
    ensures OccursAt(x + "\n" + y, sub, i) <==> OccursAt(x, sub, i) || OccursAt(y, sub, i - |x| - 1)
  {
    var s := x + "\n" + y;
    assert s[..|x|] == x && s[|x| + 1..] == y;
    OccursInPrefix(s, |x|, sub, i);
    if i > |x| {
      OccursInSuffix(s, |x| + 1, sub, i - |x| - 1);
    } else if OccursAt(s, sub, i) && i + |sub| > |x| {
      OccursChar(s, sub, i, |x| - i);
    }
  }

  // ---------------------------------------------------------------- Split, Join, Trim

  /** strings.Split with a one-character separator; the empty string has one empty part. */
  function Split(s: string, sep: char): (parts: seq<string>)
    ensures parts != []
    ensures forall p :: p in parts ==> sep !in p
  {
    if s == "" then [""]
    else
      var rest := Split(s[1..], sep);
      if s[0] == sep then [""] + rest else [[s[0]] + rest[0]] + rest[1..]
  }

  /** strings.Join with a one-character separator. */
  function Join(parts: seq<string>, sep: char): string {
    if parts == [] then ""
    else if |parts| == 1 then parts[0]
    else parts[0] + [sep] + Join(parts[1..], sep)
  }

  lemma {:induction false} SplitCons(part: string, rest: string, sep: char)
    requires sep !in part
    ensures Split(part + [sep] + rest, sep) == [part] + Split(rest, sep)
  {
    var s := part + [sep] + rest;
    if part == "" {
      assert s[1..] == rest;
    } else {
      assert s[1..] == part[1..] + [sep] + rest;
      SplitCons(part[1..], rest, sep);
      assert [s[0]] + part[1..] == part;
    }
  }

  lemma {:induction false} SplitOne(part: string, sep: char)
    requires sep !in part
    ensures Split(part, sep) == [part]
  {
    if part != "" {
      SplitOne(part[1..], sep);
      assert [part[0]] + part[1..] == part;
    }
  }

  /** Splitting undoes joining, provided no part holds the separator. */
  lemma {:induction false} SplitJoin(parts: seq<string>, sep: char)
    requires parts != [] && forall p :: p in parts ==> sep !in p
    ensures Split(Join(parts, sep), sep) == parts
  {
    if |parts| == 1 {
      SplitOne(parts[0], sep);
    } else {
      SplitCons(parts[0], Join(parts[1..], sep), sep);
      SplitJoin(parts[1..], sep);
    }
  }

  /** Joining undoes splitting, always. */
  lemma {:induction false} JoinSplit(s: string, sep: char)
    ensures Join(Split(s, sep), sep) == s
  {
    if s != "" {
      var rest := Split(s[1..], sep);
      JoinSplit(s[1..], sep);
      if s[0] == sep {
        assert ([""] + rest)[1..] == rest;
      } else {
        assert ([[s[0]] + rest[0]] + rest[1..])[1..] == rest[1..];
      }
    }
  }

  function TrimLeft(s: string, c: char): string {
    if s != "" && s[0] == c then TrimLeft(s[1..], c) else s
  }

  function TrimRight(s: string, c: char): string {
    if s != "" && s[|s| - 1] == c then TrimRight(s[..|s| - 1], c) else s
  }

  /** strings.Trim with a one-character cutset. */
  function Trim(s: string, c: char): string {
    TrimRight(TrimLeft(s, c), c)
  }

  lemma {:induction false} JoinEnds(parts: seq<string>, sep: char)
    requires parts != [] && forall p :: p in parts ==> p != "" && sep !in p
    ensures var j := Join(parts, sep); j != "" && j[0] != sep && j[|j| - 1] != sep
  {
    assert parts[0] in parts;
    if |parts| > 1 {
      assert forall p :: p in parts[1..] ==> p in parts;
      JoinEnds(parts[1..], sep);
    }
  }
}
