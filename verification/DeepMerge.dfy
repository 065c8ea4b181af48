/**
 pkg/config/config.go: merging decoded TOML files, later files over earlier ones.

 A decoded file is a table whose entries are leaves (anything that is not a table, arrays
 included) or tables. Reading and decoding a file are outside; None is a failure of either.
 */
module DeepMerge {
  import opened Common

  datatype Value = Leaf(text: string) | Table(entries: map<string, Value>)

  const EMPTY := Table(map[])

  /** What `src` over `dst` means: tables merge entry by entry, anything else is replaced. */
  function Merge(dst: Value, src: Value): (merged: Value)
    ensures src.Table? ==> merged.Table?
    decreases src
  {
    if dst.Table? && src.Table? then
      Table(map key | key in dst.entries.Keys + src.entries.Keys ::
              if key !in src.entries then dst.entries[key]
              else if key !in dst.entries then src.entries[key]
              else Merge(dst.entries[key], src.entries[key]))
    else
      src
  }

  /** The map that deepMerge writes into. */
  class ConfigTable {
    var entries: map<string, Value>

    constructor (entries: map<string, Value>)
      ensures this.entries == entries
    {
      this.entries := entries;
    }

    /** deepMerge: Go visits the keys of `src` in no particular order, and so does this. */
    method DeepMerge(src: map<string, Value>)
      modifies this
      ensures Table(entries) == Merge(Table(old(entries)), Table(src))
      decreases Table(src)
    {
      ghost var dst := entries;
      var rest := src.Keys;
      while rest != {}
        invariant rest <= src.Keys
        invariant entries.Keys == dst.Keys + (src.Keys - rest)
        invariant forall key :: key in dst && (key in rest || key !in src) ==> entries[key] == dst[key]
        invariant forall key :: key in src && key !in rest ==>
                    entries[key] == if key in dst then Merge(dst[key], src[key]) else src[key]
        decreases rest
      {
        var key :| key in rest;
        rest := rest - {key};
        if key in entries && entries[key].Table? && src[key].Table? {
          var nested := new ConfigTable(entries[key].entries);
          nested.DeepMerge(src[key].entries);
          entries := entries[key := Table(nested.entries)];
        } else {
          entries := entries[key := src[key]];
        }
      }
    }
  }

  function MergeAll(files: seq<Value>): (merged: Value)
    requires forall f :: f in files ==> f.Table?
    ensures merged.Table?
  {
    if files == [] then EMPTY else Merge(MergeAll(files[..|files| - 1]), files[|files| - 1])
  }

  function Decoded(files: seq<Option<map<string, Value>>>): (tables: seq<Value>)
    requires forall f :: f in files ==> f.Some?
    ensures |tables| == |files| && forall f :: f in tables ==> f.Table?
  {
    seq(|files|, i requires 0 <= i < |files| => Table(files[i].value))
  }

  /** readAndMergeFiles: one unreadable file fails the whole read. */
  method ReadAndMergeFiles(files: seq<Option<map<string, Value>>>) returns (merged: Option<map<string, Value>>)
    ensures merged.Some? <==> forall f :: f in files ==> f.Some?
    ensures merged.Some? ==> Table(merged.value) == MergeAll(Decoded(files))
  {
    var rawConfig := new ConfigTable(map[]);
    for i := 0 to |files|
      invariant forall f :: f in files[..i] ==> f.Some?
      invariant Table(rawConfig.entries) == MergeAll(Decoded(files[..i]))
    {
      if files[i].None? { return None; }
      rawConfig.DeepMerge(files[i].value);
      assert Decoded(files[..i + 1])[..i] == Decoded(files[..i]);
    }
    assert files[..|files|] == files;
    merged := Some(rawConfig.entries);
  }

  // ---------------------------------------------------------------- looking paths up

  function At(v: Value, path: seq<string>): Option<Value> {
    if path == [] then Some(v)
    else if v.Table? && path[0] in v.entries then At(v.entries[path[0]], path[1..])
    else None
  }

  predicate IsLeafAt(v: Value, path: seq<string>) {
    At(v, path).Some? && At(v, path).value.Leaf?
  }

  /** Some leaf of `v` sits above `path`, where `path` would need a table. */
  predicate LeafAbove(v: Value, path: seq<string>) {
    path != [] && (v.Leaf? || (path[0] in v.entries && LeafAbove(v.entries[path[0]], path[1..])))
  }

  lemma {:induction false} LeafAboveMeaning(v: Value, path: seq<string>)
    ensures LeafAbove(v, path) <==> exists n :: 0 <= n < |path| && IsLeafAt(v, path[..n])
  {
    if path != [] {
      assert At(v, path[..0]) == Some(v);
      if v.Table? && path[0] in v.entries {
        var child, rest := v.entries[path[0]], path[1..];
        LeafAboveMeaning(child, rest);
        if n :| 0 <= n < |rest| && IsLeafAt(child, rest[..n]) {
          assert path[..n + 1][1..] == rest[..n];
          assert IsLeafAt(v, path[..n + 1]);
        }
        if n :| 0 <= n < |path| && IsLeafAt(v, path[..n]) {
          assert n > 0 && path[..n][1..] == rest[..n - 1];
        }
      } else if n :| 0 <= n < |path| && IsLeafAt(v, path[..n]) {
        assert n == 0;
      }
    }
  }

  function Overlay(below: Option<Value>, above: Option<Value>): Option<Value> {
    if above.None? then below
    else if below.None? then above
    else Some(Merge(below.value, above.value))
  }

  /** The whole merge, read path by path: a leaf of `src` hides what is beneath it, and nothing else is hidden. */
  lemma {:induction false} MergeAt(dst: Value, src: Value, path: seq<string>)
    ensures At(Merge(dst, src), path)
         == if LeafAbove(src, path) then None else Overlay(At(dst, path), At(src, path))
    decreases path
  {
    if path != [] && dst.Table? && src.Table? {
      var key := path[0];
      if key in dst.entries && key in src.entries {
        MergeAt(dst.entries[key], src.entries[key], path[1..]);
      } else if key in src.entries {
        NothingBelowLeaf(src.entries[key], path[1..]);
      }
    } else if path != [] {
      NothingBelowLeaf(src, path);
    }
  }

  lemma {:induction false} NothingBelowLeaf(v: Value, path: seq<string>)
    ensures LeafAbove(v, path) ==> At(v, path).None?
  {
    if path != [] && v.Table? && path[0] in v.entries {
      NothingBelowLeaf(v.entries[path[0]], path[1..]);
    }
  }

  /** Which leaves a merge has: those of `src`, and those of `dst` that `src` neither replaces nor shadows. */
  lemma {:induction false} LeafOfMerge(dst: Value, src: Value, path: seq<string>, text: string)
    ensures At(Merge(dst, src), path) == Some(Leaf(text))
       <==> || At(src, path) == Some(Leaf(text))
            || (At(dst, path) == Some(Leaf(text)) && At(src, path).None? && !LeafAbove(src, path))
  {
    MergeAt(dst, src, path);
    NothingBelowLeaf(src, path);
  }

  /** File `i` is the last word on the leaf at `path`. */
  ghost predicate LastWord(files: seq<Value>, i: int, path: seq<string>, text: string) {
    && 0 <= i < |files|
    && At(files[i], path) == Some(Leaf(text))
    && forall j :: i < j < |files| ==> At(files[j], path).None? && !LeafAbove(files[j], path)
  }

  /** For any files at all, a leaf of the merged configuration comes from the file with the last word on it. */
  lemma {:induction false} LeafOfMergeAll(files: seq<Value>, path: seq<string>, text: string)
    requires forall f :: f in files ==> f.Table?
    ensures At(MergeAll(files), path) == Some(Leaf(text)) <==> exists i :: LastWord(files, i, path, text)
  {
    if files == [] {
      assert path == [] || At(EMPTY, path).None?;
    } else {
      var n := |files| - 1;
      var front, last := files[..n], files[n];
      LeafOfMergeAll(front, path, text);
      LeafOfMerge(MergeAll(front), last, path, text);
      if At(last, path) == Some(Leaf(text)) {
        assert LastWord(files, n, path, text);
      }
      if i :| LastWord(front, i, path, text) && At(last, path).None? && !LeafAbove(last, path) {
        assert LastWord(files, i, path, text);
      }
      if i :| LastWord(files, i, path, text) && i < n {
        assert LastWord(front, i, path, text);
      }
    }
  }

  /** No path is a table in one and a leaf in the other. */
  ghost predicate SameShape(a: Value, b: Value) {
    forall path :: At(a, path).Some? && At(b, path).Some? ==> At(a, path).value.Table? == At(b, path).value.Table?
  }

  /** When the files agree on which paths are tables, every leaf has the value of the last file that sets it. */
  lemma LastFileWins(files: seq<Value>, path: seq<string>, text: string)
    requires forall f :: f in files ==> f.Table?
    requires forall a, b :: a in files && b in files ==> SameShape(a, b)
    ensures At(MergeAll(files), path) == Some(Leaf(text))
       <==> exists i :: 0 <= i < |files| && At(files[i], path) == Some(Leaf(text))
                        && forall j :: i < j < |files| ==> At(files[j], path).None?
  {
    LeafOfMergeAll(files, path, text);
    if i :| 0 <= i < |files| && At(files[i], path) == Some(Leaf(text))
            && forall j :: i < j < |files| ==> At(files[j], path).None? {
      forall j | i < j < |files| ensures !LeafAbove(files[j], path) {
        LeafAboveMeaning(files[j], path);
        assert SameShape(files[i], files[j]);
        if m :| 0 <= m < |path| && IsLeafAt(files[j], path[..m]) {
          TableAbove(files[i], path, m);
          assert false;
        }
      }
      assert LastWord(files, i, path, text);
    }
  }

  lemma {:induction false} TableAbove(v: Value, path: seq<string>, n: nat)
    requires n < |path| && At(v, path).Some?
    ensures At(v, path[..n]).Some? && At(v, path[..n]).value.Table?
  {
    if n > 0 {
      TableAbove(v.entries[path[0]], path[1..], n - 1);
      assert path[..n][1..] == path[1..][..n - 1];
    }
  }

  // ---------------------------------------------------------------- algebra

  lemma EmptyIsIdentity(v: Value)
    requires v.Table?
    ensures Merge(EMPTY, v) == v && Merge(v, EMPTY) == v
  {
    assert Merge(EMPTY, v).entries == v.entries;
    assert Merge(v, EMPTY).entries == v.entries;
  }

  /** `below` adds nothing once `above` is laid over it. */
  ghost predicate Covered(below: Value, above: Value)
    requires below.Table? && above.Table?
    decreases below
  {
    forall key :: key in below.entries ==>
      && key in above.entries
      && (below.entries[key].Table? && above.entries[key].Table? ==>
            Covered(below.entries[key], above.entries[key]))
  }

  lemma {:induction false} AbsorbedExactlyWhenCovered(below: Value, above: Value)
    requires below.Table? && above.Table?
    ensures Merge(below, above) == above <==> Covered(below, above)
    decreases below
  {
    var merged := Merge(below, above);
    forall key | key in below.entries && key in above.entries && below.entries[key].Table? && above.entries[key].Table?
      ensures Merge(below.entries[key], above.entries[key]) == above.entries[key]
         <==> Covered(below.entries[key], above.entries[key])
    {
      AbsorbedExactlyWhenCovered(below.entries[key], above.entries[key]);
    }
    if merged == above {
      forall key | key in below.entries ensures key in above.entries {
        assert key in merged.entries;
      }
      forall key | key in below.entries && below.entries[key].Table? && above.entries[key].Table?
        ensures Covered(below.entries[key], above.entries[key])
      {
        assert merged.entries[key] == above.entries[key];
      }
    }
    if Covered(below, above) {
      forall key | key in above.entries ensures merged.entries[key] == above.entries[key] {
        if key in below.entries && !(below.entries[key].Table? && above.entries[key].Table?) {
          assert Merge(below.entries[key], above.entries[key]) == above.entries[key];
        }
      }
      assert merged.entries == above.entries;
    }
  }

  /** Laying a file over itself changes nothing. */
  lemma {:induction false} MergeIdempotent(v: Value)
    ensures Merge(v, v) == v
  {
    if v.Table? {
      forall key | key in v.entries ensures Merge(v.entries[key], v.entries[key]) == v.entries[key] {
        MergeIdempotent(v.entries[key]);
      }
      assert Merge(v, v).entries == v.entries;
    }
  }

  /** The one way in which the grouping of three files matters: a table, then a leaf, then a table that does not cover the first. */
  ghost predicate GroupingIrrelevant(a: Value, b: Value, c: Value)
    decreases a
  {
    a.Table? && c.Table? ==>
      if b.Leaf? then Covered(a, c)
      else forall key :: key in a.entries && key in b.entries && key in c.entries ==>
             GroupingIrrelevant(a.entries[key], b.entries[key], c.entries[key])
  }

  lemma {:induction false} AssociativeExactlyWhen(a: Value, b: Value, c: Value)
    ensures Merge(Merge(a, b), c) == Merge(a, Merge(b, c)) <==> GroupingIrrelevant(a, b, c)
    decreases a
  {
    if a.Table? && c.Table? {
      if b.Leaf? {
        AbsorbedExactlyWhenCovered(a, c);
      } else {
        var left, right := Merge(Merge(a, b), c), Merge(a, Merge(b, c));
        forall key | key in a.entries && key in b.entries && key in c.entries
          ensures left.entries[key] == right.entries[key]
             <==> GroupingIrrelevant(a.entries[key], b.entries[key], c.entries[key])
        {
          AssociativeExactlyWhen(a.entries[key], b.entries[key], c.entries[key]);
        }
        assert left.entries.Keys == right.entries.Keys;
        forall key | key in left.entries && !(key in a.entries && key in b.entries && key in c.entries)
          ensures left.entries[key] == right.entries[key]
        {
        }
        if GroupingIrrelevant(a, b, c) {
          assert left.entries == right.entries;
        }
      }
    }
  }

  /** In particular the grouping is irrelevant for files that agree on which paths are tables. */
  lemma {:induction false} AssociativeWhenSameShape(a: Value, b: Value, c: Value)
    requires SameShape(a, b) && SameShape(b, c) && SameShape(a, c)
    ensures Merge(Merge(a, b), c) == Merge(a, Merge(b, c))
  {
    SameShapeGrouping(a, b, c);
    AssociativeExactlyWhen(a, b, c);
  }

  lemma {:induction false} SameShapeGrouping(a: Value, b: Value, c: Value)
    requires SameShape(a, b) && SameShape(b, c)
    ensures GroupingIrrelevant(a, b, c)
    decreases a
  {
    assert At(a, []) == Some(a) && At(b, []) == Some(b) && At(c, []) == Some(c);
    if a.Table? && b.Table? && c.Table? {
      forall key | key in a.entries && key in b.entries && key in c.entries
        ensures GroupingIrrelevant(a.entries[key], b.entries[key], c.entries[key])
      {
        SameShapeBelow(a, b, key);
        SameShapeBelow(b, c, key);
        SameShapeGrouping(a.entries[key], b.entries[key], c.entries[key]);
      }
    }
  }

  lemma SameShapeBelow(a: Value, b: Value, key: string)
    requires SameShape(a, b) && a.Table? && b.Table? && key in a.entries && key in b.entries
    ensures SameShape(a.entries[key], b.entries[key])
  {
    forall path | At(a.entries[key], path).Some? && At(b.entries[key], path).Some?
      ensures At(a.entries[key], path).value.Table? == At(b.entries[key], path).value.Table?
    {
      assert ([key] + path)[1..] == path;
      assert At(a, [key] + path) == At(a.entries[key], path);
      assert At(b, [key] + path) == At(b.entries[key], path);
    }
  }
}
