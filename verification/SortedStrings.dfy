/** sort.Strings over the keys of a map: whatever order the map yields them in, the result is the same. */
module SortedStrings {

  predicate Less(a: string, b: string) {
    if b == "" then false
    else if a == "" then true
    else if a[0] != b[0] then a[0] < b[0]
    else Less(a[1..], b[1..])
  }

  ghost predicate StrictlySorted(s: seq<string>) {
    forall i, j :: 0 <= i < j < |s| ==> Less(s[i], s[j])
  }

  lemma {:induction false} LessTotal(a: string, b: string)
    ensures a == b || Less(a, b) || Less(b, a)
    ensures !(Less(a, b) && Less(b, a))
    ensures !Less(a, a)
  {
    if a != "" {
      LessTotal(a[1..], if b == "" then "" else b[1..]);
      if b != "" && a[0] == b[0] && a[1..] == b[1..] {
        assert a == [a[0]] + a[1..] && b == [b[0]] + b[1..];
      }
    }
  }

  lemma {:induction false} LessTransitive(a: string, b: string, c: string)
    requires Less(a, b) && Less(b, c)
    ensures Less(a, c)
  {
    if a != "" && a[0] == b[0] == c[0] {
      LessTransitive(a[1..], b[1..], c[1..]);
    }
  }

  function Insert(s: seq<string>, x: string): seq<string> {
    if s == [] then [x]
    else if Less(x, s[0]) then [x] + s
    else [s[0]] + Insert(s[1..], x)
  }

  lemma {:induction false} InsertSorted(s: seq<string>, x: string)
    requires StrictlySorted(s) && x !in s
    ensures StrictlySorted(Insert(s, x))
    ensures forall y :: y in Insert(s, x) <==> y == x || y in s
  {
    if s == [] {
    } else if Less(x, s[0]) {
      forall i | 0 < i < |s| ensures Less(x, s[i]) {
        LessTransitive(x, s[0], s[i]);
      }
    } else {
      LessTotal(x, s[0]);
      InsertSorted(s[1..], x);
      var rest := Insert(s[1..], x);
      forall i | 0 <= i < |rest| ensures Less(s[0], rest[i]) {
        assert rest[i] in rest;
      }
    }
  }

  /** Collecting a map's keys in any order and sorting them. */
  method SortedKeys(keys: set<string>) returns (sorted: seq<string>)
    ensures StrictlySorted(sorted)
    ensures forall k :: k in sorted <==> k in keys
  {
    sorted := [];
    var rest := keys;
    while rest != {}
      invariant rest <= keys && StrictlySorted(sorted)
      invariant forall k :: k in sorted <==> k in keys - rest
      decreases rest
    {
      var k :| k in rest;
      rest := rest - {k};
      InsertSorted(sorted, k);
      sorted := Insert(sorted, k);
    }
  }

  lemma HeadNotInTail(s: seq<string>)
    requires s != [] && StrictlySorted(s)
    ensures s[0] !in s[1..]
  {
    LessTotal(s[0], s[0]);
    assert forall i :: 0 < i < |s| ==> Less(s[0], s[i]);
  }

  /** A set of strings has one sorted listing. */
  lemma {:induction false} SortedListingUnique(s: seq<string>, t: seq<string>)
    requires StrictlySorted(s) && StrictlySorted(t)
    requires forall k :: k in s <==> k in t
    ensures s == t
    decreases |s|
  {
    assert t != [] ==> t[0] in t;
    assert s != [] ==> s[0] in s;
    if s != [] {
      LessTotal(s[0], t[0]);
      assert s[0] == t[0];
      HeadNotInTail(s);
      HeadNotInTail(t);
      assert s == [s[0]] + s[1..] && t == [t[0]] + t[1..];
      assert forall k :: k in s[1..] <==> k in s && k != s[0];
      assert forall k :: k in t[1..] <==> k in t && k != t[0];
      SortedListingUnique(s[1..], t[1..]);
    }
  }
}
