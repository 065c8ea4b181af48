/**
 internal/tools/update-readme/main.go: replacing the text between HTML-comment markers, and
 the run of such replacements that regenerates the README.
 */
module ReadmeMarkers {
  import opened Strings

  datatype Edit = Edit(start: string, end: string, replacement: string)

  function ReplaceBetweenMarkers(content: string, e: Edit): string {
    var startIdx := Index(content, e.start);
    if startIdx == -1 then content
    else
      var endIdx := Index(content, e.end);
      if endIdx == -1 || endIdx <= startIdx then content
      else content[..startIdx + |e.start|] + "\n\n" + e.replacement + "\n" + content[endIdx..]
  }

  /** The calls of main, one after the other. */
  method UpdateReadme(readme: string, edits: seq<Edit>) returns (updated: string)
    ensures updated == Regenerated(readme, edits)
  {
    updated := readme;
    for i := 0 to |edits|
      invariant Regenerated(updated, edits[i..]) == Regenerated(readme, edits)
    {
      assert edits[i..][1..] == edits[i + 1..];
      updated := ReplaceBetweenMarkers(updated, edits[i]);
    }
  }

  function Regenerated(content: string, edits: seq<Edit>): string
    decreases |edits|
  {
    if edits == [] then content else Regenerated(ReplaceBetweenMarkers(content, edits[0]), edits[1..])
  }

  // ---------------------------------------------------------------- markers

  /** A marker opens with the only '<' in it and stays on one line. */
  predicate IsMarker(m: string) {
    m != "" && m[0] == '<' && (forall k :: 0 < k < |m| ==> m[k] != '<') && '\n' !in m
  }

  predicate PrefixFree(a: string, b: string) {
    !HasPrefix(a, b) && !HasPrefix(b, a)
  }

  predicate GoodEdit(e: Edit) {
    IsMarker(e.start) && IsMarker(e.end) && PrefixFree(e.start, e.end)
  }

  predicate Replaces(content: string, e: Edit) {
    0 <= Index(content, e.start) < Index(content, e.end)
  }

  lemma PrefixOfTheOther(s: string, a: string, b: string, i: int)
    requires OccursAt(s, a, i) && OccursAt(s, b, i)
    ensures !PrefixFree(a, b)
  {
    if |a| <= |b| {
      assert b[..|a|] == s[i..i + |a|];
      assert OccursAt(b, a, 0);
    } else {
      assert a[..|b|] == s[i..i + |b|];
      assert OccursAt(a, b, 0);
    }
  }

  /** Two markers that are not prefixes of each other never overlap in any text. */
  lemma MarkersNeverOverlap(s: string, a: string, i: int, b: string, j: int)
    requires IsMarker(a) && IsMarker(b) && PrefixFree(a, b)
    requires OccursAt(s, a, i) && OccursAt(s, b, j)
    ensures i + |a| <= j || j + |b| <= i
  {
    OccursChar(s, a, i, 0);
    OccursChar(s, b, j, 0);
    if i == j {
      PrefixOfTheOther(s, a, b, i);
    } else if i < j < i + |a| {
      OccursChar(s, a, i, j - i);
    } else if j < i < j + |b| {
      OccursChar(s, b, j, i - j);
    }
  }

  // ---------------------------------------------------------------- the splice

  /** The three parts of a replaced text: up to and with the start marker, from the end marker on, and how far the rest moved. */
  function Head(content: string, e: Edit): int { Index(content, e.start) + |e.start| }

  function Shift(content: string, e: Edit): int { Head(content, e) + |e.replacement| + 3 - Index(content, e.end) }

  function Moved(content: string, e: Edit, i: int): int {
    if i < Index(content, e.end) then i else i + Shift(content, e)
  }

  /** Outside the markers nothing changes, and between them stands the replacement. */
  lemma Spliced(content: string, e: Edit)
    requires GoodEdit(e) && Replaces(content, e)
    ensures var out, head, endIdx := ReplaceBetweenMarkers(content, e), Head(content, e), Index(content, e.end);
            && head <= endIdx && |out| == |content| + Shift(content, e)
            && out[..head] == content[..head]
            && out[head + 2..head + 2 + |e.replacement|] == e.replacement
            && out[endIdx + Shift(content, e)..] == content[endIdx..]
            && out[head] == out[head + 1] == out[head + 2 + |e.replacement|] == '\n'
  {
    MarkersNeverOverlap(content, e.start, Index(content, e.start), e.end, Index(content, e.end));
    var head, endIdx := Head(content, e), Index(content, e.end);
    assert ReplaceBetweenMarkers(content, e) == content[..head] + ("\n\n" + e.replacement + "\n") + content[endIdx..];
  }

  lemma OccursAfterBlank(rest: string, m: string, k: int)
    requires IsMarker(m)
    ensures OccursAt("" + "\n" + rest, m, k) <==> OccursAt(rest, m, k - 1)
  {
    OccursAcrossLines("", rest, m, k);
  }

  lemma OccursInLines(first: string, back: string, mid: string, last: string, m: string, j: int)
    requires IsMarker(m) && back == "" + "\n" + (mid + "\n" + last)
    ensures OccursAt(first + "\n" + back, m, j)
            <==> OccursAt(first, m, j) || OccursAt(mid, m, j - |first| - 2) || OccursAt(last, m, j - |first| - |mid| - 3)
  {
    calc {
      OccursAt(first + "\n" + back, m, j);
    <==> { OccursAcrossLines(first, back, m, j); }
      OccursAt(first, m, j) || OccursAt(back, m, j - |first| - 1);
    <==> { OccursAfterBlank(mid + "\n" + last, m, j - |first| - 1); }
      OccursAt(first, m, j) || OccursAt(mid + "\n" + last, m, j - |first| - 2);
    <==> { OccursAcrossLines(mid, last, m, j - |first| - 2); }
      OccursAt(first, m, j) || OccursAt(mid, m, j - |first| - 2) || OccursAt(last, m, j - |first| - |mid| - 3);
    }
  }

  /**
   Where a marker occurs after a replacement: wholly before the splice, wholly inside the
   replacement text, or wholly after it. The line breaks around the replacement keep any
   occurrence from straddling.
   */
  lemma OccurrencesAfter(content: string, e: Edit, m: string, j: int)
    requires GoodEdit(e) && Replaces(content, e) && IsMarker(m)
    ensures var out, head := ReplaceBetweenMarkers(content, e), Head(content, e);
            var tail := Index(content, e.end) + Shift(content, e);
            OccursAt(out, m, j)
            <==> || (j + |m| <= head && OccursAt(content, m, j))
                 || OccursAt(e.replacement, m, j - head - 2)
                 || (j >= tail && OccursAt(content, m, j - Shift(content, e)))
  {
    MarkersNeverOverlap(content, e.start, Index(content, e.start), e.end, Index(content, e.end));
    var head, endIdx := Head(content, e), Index(content, e.end);
    var first, last := content[..head], content[endIdx..];
    assert ReplaceBetweenMarkers(content, e) == first + "\n" + ("" + "\n" + (e.replacement + "\n" + last));
    OccursInSplice(content, head, endIdx, e.replacement, m, j);
  }

  lemma OccursInSplice(content: string, head: nat, endIdx: nat, text: string, m: string, j: int)
    requires head <= endIdx <= |content| && IsMarker(m)
    ensures OccursAt(content[..head] + "\n" + ("" + "\n" + (text + "\n" + content[endIdx..])), m, j)
            <==> || (j + |m| <= head && OccursAt(content, m, j))
                 || OccursAt(text, m, j - head - 2)
                 || (j >= head + |text| + 3 && OccursAt(content, m, j - (head + |text| + 3 - endIdx)))
  {
    OccursInLines(content[..head], "" + "\n" + (text + "\n" + content[endIdx..]), text, content[endIdx..], m, j);
    OccursInPrefix(content, head, m, j);
    if j >= head + |text| + 3 {
      OccursInSuffix(content, endIdx, m, j - (head + |text| + 3));
    }
  }

  /** The start marker stays where it was; the end marker is found behind the replacement unless the replacement has one. */
  lemma OwnMarkersAfter(content: string, e: Edit)
    requires GoodEdit(e) && Replaces(content, e)
    ensures var out := ReplaceBetweenMarkers(content, e);
            && Index(out, e.start) == Index(content, e.start)
            && Index(out, e.end) == if Contains(e.replacement, e.end)
                                    then Head(content, e) + 2 + Index(e.replacement, e.end)
                                    else Index(content, e.end) + Shift(content, e)
  {
    var out, startIdx, endIdx := ReplaceBetweenMarkers(content, e), Index(content, e.start), Index(content, e.end);
    var first := if Contains(e.replacement, e.end) then Head(content, e) + 2 + Index(e.replacement, e.end)
                 else endIdx + Shift(content, e);
    MarkersNeverOverlap(content, e.start, startIdx, e.end, endIdx);
    OccurrencesAfter(content, e, e.start, startIdx);
    forall j | 0 <= j < startIdx ensures !OccursAt(out, e.start, j) {
      OccurrencesAfter(content, e, e.start, j);
    }
    IndexUnique(out, e.start, startIdx);
    OccurrencesAfter(content, e, e.end, first);
    forall j | 0 <= j < first ensures !OccursAt(out, e.end, j) {
      OccurrencesAfter(content, e, e.end, j);
    }
    IndexUnique(out, e.end, first);
  }

  /** `head`, `endIdx` and the two parts: what a second replacement does to the first one's result. */
  lemma ReplacedAgain(once: string, e: Edit, before: string, after: string)
    requires GoodEdit(e) && Replaces(once, e)
    requires Head(once, e) == |before| && once == before + "\n\n" + e.replacement + "\n" + after
    requires Index(once, e.end) >= |before| + 2
    ensures ReplaceBetweenMarkers(once, e) == once <==> Index(once, e.end) == |before| + |e.replacement| + 3
  {
    var endIdx := Index(once, e.end);
    var twice := ReplaceBetweenMarkers(once, e);
    assert once[..|before|] == before;
    assert |twice| == |before| + |e.replacement| + 3 + |once| - endIdx;
    if endIdx == |before| + |e.replacement| + 3 {
      assert once[endIdx..] == after;
    }
  }

  lemma ReplacedOnce(content: string, e: Edit)
    requires GoodEdit(e) && Replaces(content, e)
    ensures var once := ReplaceBetweenMarkers(content, e);
            && 0 <= Head(content, e) <= Index(content, e.end) <= |content|
            && once == content[..Head(content, e)] + "\n\n" + e.replacement + "\n" + content[Index(content, e.end)..]
            && Replaces(once, e) && Head(once, e) == Head(content, e)
            && Index(once, e.end) >= Head(content, e) + 2
            && (Index(once, e.end) == Head(content, e) + |e.replacement| + 3 <==> !Contains(e.replacement, e.end))
  {
    Spliced(content, e);
    OwnMarkersAfter(content, e);
  }

  /** Replacing twice is replacing once, unless the replacement text brings its own end marker. */
  lemma IdempotentExactlyWhen(content: string, e: Edit)
    requires GoodEdit(e)
    ensures var once := ReplaceBetweenMarkers(content, e);
            ReplaceBetweenMarkers(once, e) == once <==> !Replaces(content, e) || !Contains(e.replacement, e.end)
  {
    if Replaces(content, e) {
      ReplacedOnce(content, e);
      ReplacedAgain(ReplaceBetweenMarkers(content, e), e, content[..Head(content, e)], content[Index(content, e.end)..]);
    }
  }

  // ---------------------------------------------------------------- several edits

  /** `m` is a marker of neither the replacement text nor the replaced region of `e`. */
  ghost predicate Untouched(content: string, e: Edit, m: string) {
    && !Contains(e.replacement, m)
    && (Replaces(content, e) ==>
          forall i :: Index(content, e.start) < i < Index(content, e.end) ==> !OccursAt(content, m, i))
  }

  predicate Foreign(e: Edit, m: string) {
    IsMarker(m) && PrefixFree(m, e.start) && PrefixFree(m, e.end)
  }

  /** The pairs are disjoint and neither nested nor crossed in this content. */
  ghost predicate Apart(content: string, a: Edit, b: Edit) {
    && GoodEdit(a) && GoodEdit(b)
    && Foreign(a, b.start) && Foreign(a, b.end)
    && Untouched(content, a, b.start) && Untouched(content, a, b.end)
    && Untouched(content, b, a.start) && Untouched(content, b, a.end)
  }

  /** A foreign marker keeps all its occurrences, in order: those behind the splice move with it. */
  lemma ForeignOccurrences(content: string, e: Edit, m: string, i: int)
    requires GoodEdit(e) && Replaces(content, e) && Foreign(e, m) && Untouched(content, e, m)
    ensures OccursAt(content, m, i) ==> OccursAt(ReplaceBetweenMarkers(content, e), m, Moved(content, e, i))
  {
    OccurrencesAfter(content, e, m, Moved(content, e, i));
    if OccursAt(content, m, i) {
      MarkersNeverOverlap(content, m, i, e.start, Index(content, e.start));
    }
  }

  lemma ForeignOrigins(content: string, e: Edit, m: string, j: int) returns (i: int)
    requires GoodEdit(e) && Replaces(content, e) && IsMarker(m) && !Contains(e.replacement, m)
    requires OccursAt(ReplaceBetweenMarkers(content, e), m, j)
    ensures OccursAt(content, m, i) && j == Moved(content, e, i)
    ensures i + |m| <= Head(content, e) || Index(content, e.end) <= i
  {
    Spliced(content, e);
    OccurrencesAfter(content, e, m, j);
    i := if j + |m| <= Head(content, e) then j else j - Shift(content, e);
  }

  lemma ForeignIndex(content: string, e: Edit, m: string)
    requires GoodEdit(e) && Replaces(content, e) && Foreign(e, m) && Untouched(content, e, m)
    ensures Index(ReplaceBetweenMarkers(content, e), m)
         == if Index(content, m) == -1 then -1 else Moved(content, e, Index(content, m))
  {
    var out, i := ReplaceBetweenMarkers(content, e), Index(content, m);
    Spliced(content, e);
    if i == -1 {
      if Index(out, m) != -1 {
        var o := ForeignOrigins(content, e, m, Index(out, m));
        assert false;
      }
    } else {
      ForeignOccurrences(content, e, m, i);
      forall j | 0 <= j < Moved(content, e, i) ensures !OccursAt(out, m, j) {
        if OccursAt(out, m, j) {
          var o := ForeignOrigins(content, e, m, j);
        }
      }
      IndexUnique(out, m, Moved(content, e, i));
    }
  }

  /** An edit neither enables nor disables another one that is apart from it. */
  lemma StillReplaces(content: string, a: Edit, b: Edit)
    requires Apart(content, a, b)
    ensures Replaces(ReplaceBetweenMarkers(content, a), b) <==> Replaces(content, b)
  {
    if Replaces(content, a) {
      Spliced(content, a);
      ForeignIndex(content, a, b.start);
      ForeignIndex(content, a, b.end);
    }
  }

  function Framed(e: Edit): string { "\n\n" + e.replacement + "\n" }

  function Splice(s: string, from: nat, mid: string, to: nat): string
    requires from <= to <= |s|
  {
    s[..from] + mid + s[to..]
  }

  lemma TwoSplices(s: string, ha: nat, midA: string, ea: nat, hb: nat, midB: string, eb: nat)
    requires ha <= ea <= hb <= eb <= |s|
    ensures var shift := ha + |midA| - ea;
            && 0 <= hb + shift <= eb + shift <= |Splice(s, ha, midA, ea)| && ea <= |Splice(s, hb, midB, eb)|
            && Splice(Splice(s, ha, midA, ea), hb + shift, midB, eb + shift)
            == Splice(Splice(s, hb, midB, eb), ha, midA, ea)
  {
    var shift := ha + |midA| - ea;
    var both := s[..ha] + midA + s[ea..hb] + midB + s[eb..];
    var x, y := Splice(s, ha, midA, ea), Splice(s, hb, midB, eb);
    assert x[..hb + shift] == s[..ha] + midA + s[ea..hb];
    assert x[eb + shift..] == s[eb..];
    assert y[..ha] == s[..ha];
    assert y[ea..] == s[ea..hb] + midB + s[eb..];
    assert Splice(x, hb + shift, midB, eb + shift) == both;
    assert Splice(y, ha, midA, ea) == both;
  }

  lemma AsSplice(content: string, e: Edit)
    requires GoodEdit(e) && Replaces(content, e)
    ensures Head(content, e) <= Index(content, e.end)
    ensures ReplaceBetweenMarkers(content, e) == Splice(content, Head(content, e), Framed(e), Index(content, e.end))
  {
    MarkersNeverOverlap(content, e.start, Index(content, e.start), e.end, Index(content, e.end));
    var head, endIdx := Head(content, e), Index(content, e.end);
    assert content[..head] + "\n\n" + e.replacement + "\n" + content[endIdx..]
        == content[..head] + Framed(e) + content[endIdx..];
  }

  lemma RegionsInOrder(content: string, a: Edit, b: Edit)
    requires Apart(content, a, b) && Replaces(content, a) && Replaces(content, b)
    requires Index(content, a.start) < Index(content, b.start)
    ensures Index(content, a.end) < Index(content, b.start)
  {
    assert OccursAt(content, b.start, Index(content, b.start));
    MarkersNeverOverlap(content, b.start, Index(content, b.start), a.end, Index(content, a.end));
  }

  lemma MarkersOfTheOther(content: string, a: Edit, b: Edit)
    requires Apart(content, a, b) && Replaces(content, a) && Replaces(content, b)
    requires Index(content, a.start) < Index(content, b.start)
    ensures var afterA, afterB := ReplaceBetweenMarkers(content, a), ReplaceBetweenMarkers(content, b);
            && Index(afterA, b.start) == Index(content, b.start) + Shift(content, a)
            && Index(afterA, b.end) == Index(content, b.end) + Shift(content, a)
            && Index(afterB, a.start) == Index(content, a.start)
            && Index(afterB, a.end) == Index(content, a.end)
  {
    RegionsInOrder(content, a, b);
    ForeignIndex(content, a, b.start);
    ForeignIndex(content, a, b.end);
    ForeignIndex(content, b, a.start);
    ForeignIndex(content, b, a.end);
  }

  /** With `a` in front of `b`, either order splices both replacements into the same text. */
  lemma CommuteInOrder(content: string, a: Edit, b: Edit)
    requires Apart(content, a, b) && Replaces(content, a) && Replaces(content, b)
    requires Index(content, a.start) < Index(content, b.start)
    ensures ReplaceBetweenMarkers(ReplaceBetweenMarkers(content, a), b)
         == ReplaceBetweenMarkers(ReplaceBetweenMarkers(content, b), a)
  {
    RegionsInOrder(content, a, b);
    MarkersOfTheOther(content, a, b);
    var afterA, afterB := ReplaceBetweenMarkers(content, a), ReplaceBetweenMarkers(content, b);
    AsSplice(content, a);
    AsSplice(content, b);
    SecondAfterFirst(content, a, b, afterA);
    FirstAfterSecond(content, a, b, afterB);
    BothOrders(content, a, b, afterA, afterB, ReplaceBetweenMarkers(afterA, b), ReplaceBetweenMarkers(afterB, a));
  }

  lemma SecondAfterFirst(content: string, a: Edit, b: Edit, afterA: string)
    requires GoodEdit(b) && Replaces(content, a) && Replaces(content, b)
    requires Index(afterA, b.start) == Index(content, b.start) + Shift(content, a)
    requires Index(afterA, b.end) == Index(content, b.end) + Shift(content, a)
    requires Index(content, a.end) < Index(content, b.start)
    ensures var from, to := Head(content, b) + Shift(content, a), Index(content, b.end) + Shift(content, a);
            && 0 <= from <= to <= |afterA|
            && ReplaceBetweenMarkers(afterA, b) == Splice(afterA, from, Framed(b), to)
  {
    assert Index(content, a.end) + Shift(content, a) >= 0;
    SplicedThere(afterA, b, Head(content, b) + Shift(content, a), Index(content, b.end) + Shift(content, a));
  }

  lemma FirstAfterSecond(content: string, a: Edit, b: Edit, afterB: string)
    requires GoodEdit(a) && Replaces(content, a)
    requires Index(afterB, a.start) == Index(content, a.start)
    requires Index(afterB, a.end) == Index(content, a.end)
    ensures var from, to := Head(content, a), Index(content, a.end);
            && 0 <= from <= to <= |afterB|
            && ReplaceBetweenMarkers(afterB, a) == Splice(afterB, from, Framed(a), to)
  {
    SplicedThere(afterB, a, Head(content, a), Index(content, a.end));
  }

  lemma BothOrders(content: string, a: Edit, b: Edit, afterA: string, afterB: string, bOnA: string, aOnB: string)
    requires Head(content, a) <= Index(content, a.end) <= Head(content, b) <= Index(content, b.end)
    requires 0 <= Head(content, a) && Index(content, b.end) <= |content|
    requires afterA == Splice(content, Head(content, a), Framed(a), Index(content, a.end))
    requires afterB == Splice(content, Head(content, b), Framed(b), Index(content, b.end))
    requires var from, to := Head(content, b) + Shift(content, a), Index(content, b.end) + Shift(content, a);
             0 <= from <= to <= |afterA| && bOnA == Splice(afterA, from, Framed(b), to)
    requires var from, to := Head(content, a), Index(content, a.end);
             to <= |afterB| && aOnB == Splice(afterB, from, Framed(a), to)
    ensures bOnA == aOnB
  {
    TwoSplices(content, Head(content, a), Framed(a), Index(content, a.end),
               Head(content, b), Framed(b), Index(content, b.end));
  }

  lemma SplicedThere(text: string, e: Edit, from: int, to: int)
    requires GoodEdit(e) && 0 <= Index(text, e.start) < Index(text, e.end)
    requires from == Head(text, e) && to == Index(text, e.end)
    ensures 0 <= from <= to <= |text| && ReplaceBetweenMarkers(text, e) == Splice(text, from, Framed(e), to)
  {
    AsSplice(text, e);
  }

  /** Edits that are apart commute, whether or not each finds its markers. */
  lemma EditsCommute(content: string, a: Edit, b: Edit)
    requires Apart(content, a, b)
    ensures ReplaceBetweenMarkers(ReplaceBetweenMarkers(content, a), b)
         == ReplaceBetweenMarkers(ReplaceBetweenMarkers(content, b), a)
  {
    StillReplaces(content, a, b);
    StillReplaces(content, b, a);
    if Replaces(content, a) && Replaces(content, b) {
      var sa, sb := Index(content, a.start), Index(content, b.start);
      if sa < sb {
        CommuteInOrder(content, a, b);
      } else if sb < sa {
        CommuteInOrder(content, b, a);
      } else {
        PrefixOfTheOther(content, b.start, a.start, sa);
      }
    }
  }

  /** `e` leaves `m` outside the region of `a`, if it was outside. */
  lemma StaysUntouched(content: string, e: Edit, a: Edit, m: string)
    requires GoodEdit(e) && GoodEdit(a) && IsMarker(m) && !Contains(e.replacement, m)
    requires e == a || Apart(content, e, a)
    requires Untouched(content, a, m)
    ensures Untouched(ReplaceBetweenMarkers(content, e), a, m)
  {
    var out := ReplaceBetweenMarkers(content, e);
    if Replaces(content, e) && Replaces(out, a) {
      Spliced(content, e);
      if e == a {
        OwnMarkersAfter(content, e);
      } else {
        StillReplaces(content, e, a);
        ForeignIndex(content, e, a.start);
        ForeignIndex(content, e, a.end);
      }
      forall j | Index(out, a.start) < j < Index(out, a.end) ensures !OccursAt(out, m, j) {
        if OccursAt(out, m, j) {
          var i := ForeignOrigins(content, e, m, j);
        }
      }
    }
  }

  /** No replacement holds a marker of any edit, and the edits are pairwise apart. */
  ghost predicate Tidy(content: string, edits: seq<Edit>) {
    && (forall a, b :: a in edits && b in edits ==>
          !Contains(a.replacement, b.start) && !Contains(a.replacement, b.end))
    && (forall a :: a in edits ==> GoodEdit(a))
    && (forall a, b :: a in edits && b in edits && a != b ==> Apart(content, a, b))
  }

  lemma TidyPreserved(content: string, edits: seq<Edit>, e: Edit)
    requires Tidy(content, edits) && e in edits
    ensures Tidy(ReplaceBetweenMarkers(content, e), edits)
  {
    var out := ReplaceBetweenMarkers(content, e);
    forall a, b | a in edits && b in edits && a != b ensures Apart(out, a, b) {
      assert Apart(content, a, b);
      assert e == a || Apart(content, e, a);
      assert e == b || Apart(content, e, b);
      StaysUntouched(content, e, a, b.start);
      StaysUntouched(content, e, a, b.end);
      StaysUntouched(content, e, b, a.start);
      StaysUntouched(content, e, b, a.end);
    }
  }

  lemma StaysFixed(content: string, edits: seq<Edit>, e: Edit, d: Edit)
    requires Tidy(content, edits) && e in edits && d in edits
    requires d == e || ReplaceBetweenMarkers(content, d) == content
    ensures var next := ReplaceBetweenMarkers(content, e); ReplaceBetweenMarkers(next, d) == next
  {
    if d == e {
      IdempotentExactlyWhen(content, e);
    } else {
      EditsCommute(content, e, d);
    }
  }

  /** A run over `todo` ends in a text that its own edits, and those already done, leave alone. */
  lemma {:induction false} RunFixes(content: string, edits: seq<Edit>, todo: seq<Edit>, d: Edit)
    requires Tidy(content, edits) && d in edits && (forall e :: e in todo ==> e in edits)
    requires d in todo || ReplaceBetweenMarkers(content, d) == content
    ensures var out := Regenerated(content, todo); ReplaceBetweenMarkers(out, d) == out
    decreases |todo|
  {
    if todo != [] {
      var e := todo[0];
      var next := ReplaceBetweenMarkers(content, e);
      TidyPreserved(content, edits, e);
      assert forall t :: t in todo[1..] ==> t in todo;
      if d == e || ReplaceBetweenMarkers(content, d) == content {
        StaysFixed(content, edits, e, d);
      }
      RunFixes(next, edits, todo[1..], d);
    }
  }

  lemma {:induction false} NothingLeftToDo(content: string, edits: seq<Edit>)
    requires forall e :: e in edits ==> ReplaceBetweenMarkers(content, e) == content
    ensures Regenerated(content, edits) == content
    decreases |edits|
  {
    if edits != [] {
      assert edits[0] in edits && forall e :: e in edits[1..] ==> e in edits;
      NothingLeftToDo(content, edits[1..]);
    }
  }

  /** Regenerating a regenerated README changes nothing. */
  lemma {:induction false} RegenerateTwice(readme: string, edits: seq<Edit>)
    requires Tidy(readme, edits)
    ensures var once := Regenerated(readme, edits); Regenerated(once, edits) == once
  {
    var once := Regenerated(readme, edits);
    forall e | e in edits ensures ReplaceBetweenMarkers(once, e) == once {
      RunFixes(readme, edits, edits, e);
    }
    NothingLeftToDo(once, edits);
  }

  // ---------------------------------------------------------------- the markers of the README

  /** The names of the regions, in the order of main's calls. */
  const REGIONS: seq<string> := [
    "VALIDATED-PROJECTS", "AVAILABLE-TOOLSETS", "AVAILABLE-TOOLSETS-TOOLS", "AVAILABLE-TOOLSETS-PROMPTS",
    "AVAILABLE-TOOLSETS-RESOURCES", "AVAILABLE-TOOLSETS-RESOURCES-TEMPLATES"
  ]

  function RegionEdit(region: string, replacement: string): Edit {
    Edit("<!-- " + region + "-START -->", "<!-- " + region + "-END -->", replacement)
  }

  predicate PlainName(region: string) {
    forall c :: c in region ==> c != '<' && c != '>' && c != '\n'
  }

  /** A marker that ends with its only '>' is no prefix of another one. */
  lemma ClosedMarkers(a: string, b: string)
    requires a != b && a != "" && b != ""
    requires a[|a| - 1] == '>' && forall k :: 0 <= k < |a| - 1 ==> a[k] != '>'
    requires b[|b| - 1] == '>' && forall k :: 0 <= k < |b| - 1 ==> b[k] != '>'
    ensures PrefixFree(a, b)
  {
    var n := if |a| <= |b| then |a| else |b|;
    assert a[..n] == b[..n] ==> a[n - 1] == b[n - 1];
  }

  lemma RegionMarker(region: string, suffix: string)
    requires PlainName(region) && (suffix == "-START -->" || suffix == "-END -->")
    ensures var m := "<!-- " + region + suffix;
            && IsMarker(m) && m[|m| - 1] == '>' && forall k :: 0 <= k < |m| - 1 ==> m[k] != '>'
  {
    var m := "<!-- " + region + suffix;
    assert forall k :: 0 <= k < |suffix| - 1 ==> suffix[k] != '>';
    assert forall k :: 0 <= k < |suffix| ==> suffix[k] != '<' && suffix[k] != '\n';
    forall k | 0 <= k < |m| ensures (0 < k ==> m[k] != '<') && m[k] != '\n' && (k < |m| - 1 ==> m[k] != '>') {
      if k < 5 {
        assert m[k] == "<!-- "[k];
      } else if k < 5 + |region| {
        assert m[k] == region[k - 5];
        assert region[k - 5] in region;
      } else {
        assert m[k] == suffix[k - 5 - |region|];
      }
    }
  }

  lemma RegionMarkersDiffer(r: string, s: string, x: string, y: string)
    requires PlainName(r) && PlainName(s) && (x == "-START -->" || x == "-END -->") && (y == "-START -->" || y == "-END -->")
    requires r != s || x != y
    ensures "<!-- " + r + x != "<!-- " + s + y
  {
    var a, b := "<!-- " + r + x, "<!-- " + s + y;
    assert a[|a| - 5] == x[|x| - 5] && b[|b| - 5] == y[|y| - 5];
    assert x[|x| - 5] == y[|y| - 5] ==> x == y;
    assert a[5..|a| - |x|] == r && b[5..|b| - |y|] == s;
  }

  /** Any two regions with different plain names have markers that fit, and do not get in each other's way. */
  lemma RegionsFit(r: string, s: string, first: string, second: string)
    requires PlainName(r) && PlainName(s) && r != s
    ensures var a, b := RegionEdit(r, first), RegionEdit(s, second);
            GoodEdit(a) && Foreign(a, b.start) && Foreign(a, b.end)
  {
    var a, b := RegionEdit(r, first), RegionEdit(s, second);
    RegionMarker(r, "-START -->");
    RegionMarker(r, "-END -->");
    RegionMarker(s, "-START -->");
    RegionMarker(s, "-END -->");
    RegionMarkersDiffer(r, r, "-START -->", "-END -->");
    RegionMarkersDiffer(s, r, "-START -->", "-START -->");
    RegionMarkersDiffer(s, r, "-START -->", "-END -->");
    RegionMarkersDiffer(s, r, "-END -->", "-START -->");
    RegionMarkersDiffer(s, r, "-END -->", "-END -->");
    ClosedMarkers(a.start, a.end);
    ClosedMarkers(b.start, a.start);
    ClosedMarkers(b.start, a.end);
    ClosedMarkers(b.end, a.start);
    ClosedMarkers(b.end, a.end);
  }

  /** The six regions of the README are such regions. */
  lemma ReadmeRegions()
    ensures forall i :: 0 <= i < |REGIONS| ==> PlainName(REGIONS[i])
    ensures forall i, j :: 0 <= i < j < |REGIONS| ==> REGIONS[i] != REGIONS[j]
  {
    assert |REGIONS| == 6;
    assert REGIONS[0][0] == 'V' && REGIONS[1][0] == 'A';
  }
}
